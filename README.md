# Text and JSON editor: a verified model of its core

The tool is a Streamlit application for editing, viewing and validating JSON
and plain text. The model covers the four deterministic parts of it:

- **the JSON path language and the tree walks** of `src/viewer.py`:
  - the character-loop splitter of `get_value_at_path` and the walk that follows its parts;
  - the pre-order path listing of `extract_all_paths`;
  - the one-pass counters of `analyze_json_structure`;
  - the decisions of the tree view (`render_json_tree` and the `_render_*` helpers), built as a view model rather than widgets;
- **the syntax validator** of `src/validator.py`, and the path formatter that writes paths back in the same grammar;
- **the text helpers and the bounded undo stack** of `src/utils.py`;
- **the session state machine** of `app.py`: the fields `original_text`, `edited_text` and `file_type` with the undo stack, and one method per action that writes them.

A JSON value is the closed datatype `Json.Value`. Its variants are
dict (a sequence of key/value pairs in insertion order), list, str, int,
float (kept as its text), bool and None.

The modules follow the source files:

- `common.dfy`: option and result types, and the exceptions the model lets escape;
- `pystr.dfy`: the Python string operations the code relies on;
- `json.dfy`: JSON values;
- `json_path.dfy`: the path language;
- `analysis.dfy`: `analyze_json_structure`;
- `treeview.dfy`: the tree view;
- `utils.dfy`: `src/utils.py`;
- `validator.dfy`: `src/validator.py`;
- `app.dfy`: `app.py`.

Where the source works step by step, the model does too:

- The splitter loop, the navigation loop, the path formatter and the context loops of the error message are methods with `while` or `for` loops. Each is proved equal to a function that states what the loop computes.
- `analyze_json_structure` mutates a shared dict from nested closures. It is the class `Analysis`, whose recursive methods are proved against a pre-order list of (node, depth) pairs.
- The undo stack is the class `UndoStack`, which holds a sequence field.
- The session is the class `Session`.

The main results:

- Every path that `extract_all_paths` lists parses back into the parts that lead to its node, and resolves to that node (`JsonPath.ExtractedPathsResolve`). This holds for keys that are non-empty and free of `.` and `[`.
- The path formatter of the validator is a right inverse of the splitter (`Validator.FormatThenParse`).
- The structure counters equal sums over the tree (`StructureAnalysis.AnalyzeCounts`).
- The rendered tree never nests deeper than the depth bound (`TreeView.RenderDepthBound`).
- Clearing or resetting and then undoing restores the text (`App.ClearThenUndo`, `App.ResetThenUndo`).

## Model

| member | source | states |
|---|---|---|
| JsonPath.SplitPath | src/viewer.py:309-339 | The splitter loop returns exactly `Parse(path)`. Dots end a name. `[n]` gives an integer part. Empty names are dropped. A `[` without a later `]` is the "Unclosed bracket" error, and bracket text that is not a number is an error too. |
| JsonPath.ReadGroup | src/viewer.py:321-333 | The inner scan for `]` returns the index and the position of the closing bracket, or the error, as `Group` states. |
| JsonPath.SplitFromParse | src/viewer.py:316-339 | Any state of the splitter loop (position, pending name, parts so far) finishes with the parts so far followed by the parse of the rest of the path. |
| JsonPath.Select | src/viewer.py:342-346 | On a dict, a name succeeds exactly when the key is present; otherwise, and for an index, the error is KeyError. On a list, an index succeeds exactly when it is in range and gives that item; out of range is IndexError, and a name is TypeError. A scalar other than str is TypeError. |
| JsonPath.GetValueAtPath | src/viewer.py:291-348 | The empty path returns the data. Otherwise the result is the parsed parts applied left to right from the data, stopping at the first error (`ValueAtPath`). |
| JsonPath.ResolveConcat | src/viewer.py:342-346 | Resolving `p + q` resolves `p`, then resolves `q` from wherever `p` ended, with the first error winning. |
| JsonPath.ParseConcat | src/viewer.py:316-339 | A path that parses, followed by text that starts at a dot or a bracket, parses as the first path's parts followed by the second's. |
| JsonPath.DotsDropped | src/viewer.py:335-339 | `a..b` parses as `a.b`, and a leading dot is ignored. |
| JsonPath.UnclosedBracketRefused | src/viewer.py:321-327 | After any path that parses, a `[` with no `]` after it makes the whole path the "Unclosed bracket" error. |
| JsonPath.NameIndexName | src/viewer.py:316-339 | `k[i].m` parses as the three parts name k, index i, name m, for names without `.` or `[`. |
| JsonPath.ParseUnparse | src/viewer.py:316-339 | Writing non-empty parts in the path grammar and splitting them again gives the parts back, when every name is non-empty and free of `.` and `[`. |
| JsonPath.ExtractAllPaths | src/viewer.py:262-289 | The method's result equals `AllPaths`: each child's path, then its descendants' paths, keys in insertion order and items in index order. Root keys have no leading dot, root items are written `[i]`, and a scalar gives no paths. |
| JsonPath.ExtractMemberPaths | src/viewer.py:275-280 | The dict branch lists, for each key in insertion order, the child's path and then the child's own paths. |
| JsonPath.ExtractItemPaths | src/viewer.py:282-287 | The list branch lists, for each index in order, the item's path and then the item's own paths. |
| JsonPath.PathsFollowStructure | src/viewer.py:262-289 | The k-th listed path is the prefix followed by the k-th part sequence of a pre-order walk of the tree, written in the path grammar. |
| JsonPath.StructPathsSound | src/viewer.py:262-289 | Every part sequence of the walk is non-empty and resolves without error. When the keys are clean, every name in it is clean. |
| JsonPath.ExtractedPathsResolve | src/viewer.py:238-252 | Every path that `extract_all_paths` lists from the root parses to the parts of its node, and `get_value_at_path` resolves it successfully to that node. This holds for well-formed data (unique keys) whose keys are non-empty and free of `.` and `[`. |
| StructureAnalysis.Analysis.constructor | src/viewer.py:189-195 | The shared record starts at zero counts, an empty distribution and a maximum depth equal to the starting depth. |
| StructureAnalysis.Analysis.CountType | src/viewer.py:197-207 | The node's type name gets one more count ("null" for None), the null count grows by one exactly for None, and nothing else changes. |
| StructureAnalysis.Analysis.AnalyzeRecursive | src/viewer.py:209-224 | The record after the walk is the old record updated by every node of the subtree in pre-order, each with its depth. |
| StructureAnalysis.Analysis.AnalyzeMembers | src/viewer.py:214-218 | The dict branch updates the record by all of the dict's descendants, key by key. |
| StructureAnalysis.Analysis.AnalyzeItems | src/viewer.py:219-222 | The list branch updates the record by all of the list's descendants, item by item. |
| StructureAnalysis.AnalyzeJsonStructure | src/viewer.py:178-227 | The result is the fold of the pre-order node list from the initial record. |
| StructureAnalysis.AnalyzeCounts | src/viewer.py:178-227 | total keys is the sum of dict sizes over the tree. total array items is the sum of list lengths. The null count is the number of None nodes. Each type's count is the number of nodes of that type. |
| StructureAnalysis.NullsAreNullType | src/viewer.py:197-207 | The null count equals the "null" entry of the type distribution. |
| StructureAnalysis.TypesCoverAllNodes | src/viewer.py:197-224 | The type distribution counts every node exactly once: its entries add up to the number of nodes. |
| StructureAnalysis.TypesAreNamed | src/viewer.py:197-207 | Only the seven type names appear in the distribution. |
| StructureAnalysis.AnalyzeDepth | src/viewer.py:209-213 | The maximum depth is at least the starting depth, bounds the depth of every node and is reached by one of them. For a scalar it is the starting depth. |
| StructureAnalysis.VisitAllConcat | src/viewer.py:209-224 | Folding two node lists one after the other is folding their concatenation. |
| TreeView.RenderJsonTree | src/viewer.py:11-30 | Starting beyond the depth bound gives only the warning. Otherwise the view is the node's view. The builder takes a `Version`: `AsWritten` is the program as it stands, and `Corrected` applies the three corrections of "## Findings". |
| TreeView.RenderNode | src/viewer.py:32-44 | A node's view is never the warning. |
| TreeView.RenderDict | src/viewer.py:46-79 | A dict is a leaf or a section. |
| TreeView.DictRows | src/viewer.py:46-79 | An empty dict is the leaf "📁 label (empty object)". Otherwise there is one row per key, in order, captioned with the sanitised key `safe_json_key(key)`. Row k has the path of that key: the bare key under "root", and `path.key` elsewhere. Its cell is the view of member k's value one level deeper, or "..." exactly when depth + 1 exceeds the bound. |
| TreeView.RenderList | src/viewer.py:81-115 | A list is a leaf or a section. |
| TreeView.ListRows | src/viewer.py:81-115 | An empty list is the "(empty array)" leaf. Otherwise there are min(n, 100) rows. Row i is captioned `[i]`, has the path `path[i]`, and its cell is the view of item i one level deeper, or "..." exactly when depth + 1 exceeds the bound. The note is the version's more-items note, and the shown rows plus its count account for every item. As written, the note appears exactly for lists of 100 items or more, so a list of exactly 100 gets "... and 0 more items". Corrected, it appears exactly when items are left out. |
| TreeView.RenderValue | src/viewer.py:117-144 | Every scalar other than a string is a one-line leaf. A string's line shows `truncate_long_value(s, 100)` in quotes. An expander is titled with that preview and the string's length, and holds the whole string. As written, a string gets the expander exactly when it is longer than 103 characters, and a boolean's line starts with the number icon. Corrected, a string gets the expander exactly when it is longer than 100 characters and is always shown in full, and a boolean gets the checked or the empty box. |
| TreeView.RenderDepthBound | src/viewer.py:76-79 | The view of a node at depth d nests at most max_depth - d sections below it. |
| TreeView.DictRowBound | src/viewer.py:76-79 | A dict row's cell nests no deeper than the remaining depth. |
| TreeView.ListRowBound | src/viewer.py:107-110 | A list row's cell nests no deeper than the remaining depth. |
| TreeView.RowPathsAgree | src/viewer.py:66-67 | Below the root, a dict child's path and a list item's path are the ones `extract_all_paths` gives, when the key passes sanitising unchanged. |
| TreeView.RootListPathsDiffer | src/viewer.py:98 | At the root the view calls list item i `root[i]`, which differs from the listed path `[i]`. |
| TreeView.ChildLabel | src/viewer.py:60 | A dict child's section is titled with its own key, when the key has no dot. |
| TreeView.StringLeafAsWritten | src/viewer.py:122-130 | The string branch as written: the expander is used exactly for strings longer than 103 characters, is titled with the preview and the length, and holds the full string. Otherwise the line shows the preview `truncate_long_value(s, 100)`. |
| TreeView.StringLeafAsWrittenHides | src/viewer.py:124-130 | As written, a string of 101 or 102 characters is truncated with no expander, so it is never shown in full. |
| TreeView.StringLeaf | src/viewer.py:122-130 | The corrected string branch always shows the string in full, and uses a plain line exactly for strings of at most 100 characters. The line shows the preview, and the expander title holds the preview and the length. |
| TreeView.MoreItemsAsWritten | src/viewer.py:112-115 | As written, the note counts the items beyond the first 100. |
| TreeView.MoreItemsAsWrittenZero | src/viewer.py:113-114 | As written, a list of exactly 100 items gets "... and 0 more items". |
| TreeView.MoreItems | src/viewer.py:112-115 | The corrected note appears exactly when more than 100 items exist, and its count is positive. |
| Utils.TruncateLongValue | src/utils.py:85-99 | A value that fits is returned unchanged. Otherwise the result is its first max_length characters plus "...", at most max_length + 3 long. A negative bound slices from the end, as Python does. |
| Utils.StripTags | src/utils.py:26 | Removing the `<[^>]*>` matches never lengthens the text. |
| Utils.StripTagsNoTag | src/utils.py:26 | No `<` is followed by a `>` after the tags are removed. |
| Utils.StripTagsPlain | src/utils.py:26 | Text without `<` is left as it is. |
| Utils.StripTagsLeadingTag | src/utils.py:26 | A leading tag is removed. |
| Utils.SanitizeText | src/utils.py:11-29 | The result is the tag-stripped text cut to max_length characters, and is never longer than max_length. |
| Utils.SanitizeTextClean | src/utils.py:11-29 | No tag survives sanitising. Text with no `<` that fits is returned unchanged. |
| Utils.SafeJsonKey | src/utils.py:71-83 | The result is at most 100 characters. A string key gives `sanitize_text(key, 100)`, so no tag survives. Any other key is its string form cut to 100 characters. |
| Utils.SafeIntKey | src/utils.py:83 | An integer key becomes its decimal digits, which read back as the integer (123 gives "123"). |
| Utils.TypeIconAsWritten | src/utils.py:111-124 | As written, the number icon goes to ints, floats and also booleans, because a Python bool is an int. |
| Utils.BoolIconAsWritten | src/utils.py:117-120 | As written, no boolean gets either check-box icon. |
| Utils.TypeIcon | src/utils.py:111-124 | The corrected mapping gives the number icon to exactly the ints and floats, and the checked box exactly to true among booleans. |
| Utils.TypeIconKinds | src/utils.py:111-124 | Two values get the same icon exactly when they are the same kind (dict, list, str, number, true, false, None). |
| Utils.Paragraphs | src/utils.py:265-277 | The counted paragraphs are the `\n\n` pieces that are not blank. |
| Utils.SplitNewlineCount | src/utils.py:251-263 | Splitting on newlines gives one more piece than there are newlines. |
| Utils.CountLinesNewlines | src/utils.py:251-263 | The line count is the number of newlines, plus one when the text does not end with a newline. |
| Utils.WordsCount | src/utils.py:237-249 | The word count is the number of places where a word starts after whitespace or at the start. |
| Utils.CountWordsBlank | src/utils.py:237-249 | There are no words exactly when the text is blank. |
| Utils.CountParagraphsBlank | src/utils.py:265-277 | There are no paragraphs exactly when the text is blank. |
| Utils.GetTextStats | src/utils.py:279-308 | The statistics of empty text are all zeros. |
| Utils.TextStatsAgree | src/utils.py:279-308 | characters is the length. bytes, the UTF-8 size, lies between the length and four times it. words and paragraphs are zero exactly for blank text. lines is zero exactly for empty text. |
| Utils.DetectFileType | src/utils.py:173-192 | A known extension (json, txt, md, markdown) of a non-empty file name decides, and "markdown" becomes "md". Otherwise blank content is "txt", and other content gets the sniffed type. |
| Utils.ExtensionWins | src/utils.py:185-188 | A file named `base.ext` with a known `ext`, in any case, gets that type whatever its content. |
| Utils.Pushed | src/utils.py:50-69 | Pushing the current top changes nothing. Otherwise the content becomes the top. A stack within capacity stays within capacity, and never gets two equal adjacent entries. |
| Utils.PushedBelowTop | src/utils.py:65-69 | Below the new top lies the old stack, without its oldest entry when the stack was full. |
| Utils.UndoStack.constructor | src/utils.py:57-58 | The stack starts empty, with the given capacity. |
| Utils.UndoStack.Add | src/utils.py:50-69 | The new stack is `Pushed(old stack, content)`, and the stack invariant (capacity, no adjacent repeat) is kept. |
| Utils.UndoStack.Pop | app.py:617-621 | Popping returns the top and removes it. |
| Validator.FormatPath | src/validator.py:242-265 | The formatted path is never empty, and is "root" for the empty path. |
| Validator.FormatJsonPath | src/validator.py:242-265 | The loop writes the first name bare, later names as `.s` and indices as `[i]`, or "root" for no parts; the result is `FormatPath`. |
| Validator.FormatThenParse | src/validator.py:255-265 | `get_value_at_path`'s splitter reads the formatted path back as the original parts, when the path is non-empty and its names are clean. |
| Validator.FormatExample | src/validator.py:252-265 | `["a", 0, "b"]` is written `a[0].b`. |
| Validator.ErrorContext | src/validator.py:216-240 | Outside the text, the context is empty. Otherwise it is the window `text[max(0,pos-L):min(len,pos+L)]` with the marker just before the character at pos, and removing the marker gives the window back. |
| Validator.FirstMatch | src/validator.py:112-131 | The chosen rule matches and no earlier rule does. No rule is chosen only when none matches. |
| Validator.ErrorDescription | src/validator.py:98-133 | The description raises IndexError exactly when the lower-cased message has "expecting" but the message itself has no "Expecting". |
| Validator.DescriptionFirstMatch | src/validator.py:112-133 | Without "expecting", the description is that of the first matching rule, or "JSON syntax error: " plus the message when none matches. |
| Validator.ExpectingMessage | src/validator.py:110-111 | A message "Expecting" + rest is described as "Expecting " plus the stripped rest. |
| Validator.Pointer | src/validator.py:72-73 | The pointer line is colno - 1 dashes and a caret, with no newline in it. |
| Validator.TruncateContextLine | src/validator.py:84-87 | A cut line is at most 100 characters, and a line that fits is kept. |
| Validator.CollectContext | src/validator.py:59-76 | The context loop gives `ContextLines`: the lines around the error, with the pointer after the error line. |
| Validator.TruncateLines | src/validator.py:83-88 | The truncation loop cuts each line by the 100-character rule. |
| Validator.ShowContext | src/validator.py:78-91 | Joining, the blank test, splitting, cutting and re-joining give `ShownContext`. |
| Validator.CreateDetailedErrorMessage | src/validator.py:41-96 | The message is the header, the shown context and the description, or the description's exception. |
| Validator.DetailedHeader | src/validator.py:57 | The message raises exactly when the description does, and starts with "Error: Parse error on line N:". |
| Validator.ContextAroundError | src/validator.py:59-76 | For an existing error line, the context is the previous line (if any), the error line, the pointer and the next line (if any). |
| Validator.NoNewlineInContext | src/validator.py:59-76 | No context line holds a newline. |
| Validator.DetailedMessageShape | src/validator.py:41-96 | For an existing error line, the message is the header, "...", the context lines cut to 100 characters and joined, a newline and the description. |
| Validator.ShownContextOf | src/validator.py:79-91 | Non-blank context lines are shown as "..." followed by the cut lines joined by newlines. |
| Validator.PointerShown | src/validator.py:72-90 | The pointer sits right after the error line. Within 100 columns it survives the cut with its caret; beyond them the caret is cut off. |
| Validator.JoinHoldsCaret | src/validator.py:79-81 | Context holding a caret line is never blank. |
| Validator.ValidateJson | src/validator.py:18-39 | Valid is reported exactly when no error is listed, and at most one is. Blank input gives (False, ["Empty JSON input"]). Other input is valid exactly when the parser loads it. |
| Validator.Report | src/validator.py:31-39 | Valid exactly for a loaded text, and then with no errors. Otherwise there is one error message. |
| Validator.BlankNeverParsed | src/validator.py:28-29 | Blank input is never given to the parser: any two parsers give the same answer. |
| Validator.ParseErrorReported | src/validator.py:34-37 | A decode error is reported as invalid with one message starting with the line header, unless describing it raises. |
| Validator.GetValidationSummary | src/validator.py:267-318 | The syntax fields are those of `validate_json`. bytes is the UTF-8 size, and large means more than 5 MB. A schema result exists exactly when a schema is given and the syntax is valid, and then the schema is valid exactly when it has no errors. The size recommendation appears exactly for large input, the syntax recommendation exactly for invalid syntax, and the recommendations are exactly `Recommendations(isLarge, syntaxValid)`: the size one if large, then the syntax one if invalid, in that order. Without a schema check, the schema errors stay empty. |
| Validator.RecommendationsGiven | src/validator.py:306-316 | Each recommendation is in the list exactly when its condition holds: the size one for large input, and the syntax one for invalid syntax. |
| App.Session.constructor | src/utils.py:31-48 | The session starts with empty texts, the "json" type and an empty undo stack of capacity 3. |
| App.Session.Undo | app.py:615-624 | With a non-empty stack, the top becomes the edited text and leaves the stack. With an empty stack nothing changes. |
| App.Session.Clear | app.py:597-604 | Non-empty edited text is pushed and the text becomes "". Empty text changes nothing. |
| App.Session.Reset | app.py:606-613 | With a non-empty original, the edited text is pushed and replaced by the original. Otherwise nothing changes. |
| App.Session.FormatCurrentJson | app.py:544-564 | Indent 0 minifies, any other indent pretty-prints. On success the old text is pushed and replaced. Empty text or a formatter failure leaves text and stack unchanged. |
| App.Session.MinifyCurrentJson | app.py:566-580 | On success the old text is pushed and replaced by the minified text. Otherwise nothing changes. |
| App.Session.EditorUpdate | app.py:277-282 | A non-empty edit that differs replaces the text. It is pushed to the stack exactly when the length moved by more than 10. Any other edit changes nothing. |
| App.Session.SidebarInput | app.py:70-87 | Uploaded content that decodes, or else non-empty pasted text, replaces both texts and sets the type, exactly when it differs from the original. The stack is untouched. |
| App.Session.DiffMode | app.py:392-433 | The text areas overwrite both texts. Two empty texts give nothing to compare, equal texts give no changes, and different texts give a diff. |
| App.Incoming | app.py:70-87 | An upload offers its decoded content, if any. Without one, only non-empty pasted text is offered. |
| App.NewFileType | app.py:80 | An upload with json, txt or md keeps its extension. Pasted text is "txt" when blank and otherwise gets the sniffed type. |
| App.ClearThenUndo | app.py:597-624 | Clear then undo restores the edited text. The stack ends as before, less the old top when it equalled the text, or less its oldest entry when it was full. |
| App.ResetThenUndo | app.py:606-624 | Reset then undo restores the edited text with the same effect on the stack. |
| PyStr.Strip | src/validator.py:28 | The stripped text is the slice of the input between a blank prefix and a blank suffix. It has no whitespace at either end, and is empty exactly for blank text. |
| PyStr.IndexOf | src/validator.py:111 | The result is the first position where the substring occurs, or -1 when it does not occur. |
| PyStr.SplitJoinNewline | src/validator.py:79-88 | Splitting newline-joined pieces that hold no newline gives the pieces back. |
| PyStr.DigitsValueOfNatToString | src/viewer.py:330 | `int(str(n)) == n` for natural numbers. |
| PyStr.Words | src/utils.py:249 | `split()` gives non-empty words. |
| Json.LookupUnique | src/viewer.py:342-346 | With unique keys, looking up the i-th key gives the i-th value. |

## Left out

- Streamlit rendering (widgets, expanders, columns, HTML), `src/editor.py` and `init_session_state` are user interface. The tree view is a datatype of sections, rows and leaves. The session starts from its constructor.
- `json.loads` and `json.dumps` are foreign library calls. This covers `validate_json` beyond the empty check, `src/formatter.py`, and the formatter and minifier used by `app.py`. They become function parameters: `loads` returns a `LoadOutcome`, and a formatter that raises returns `None`.
- Schema validation (`validate_against_schema`, jsonschema) and streaming validation (`validate_large_json`, ijson) are foreign libraries. `GetValidationSummary` takes the schema check as a parameter, and an empty schema text stands for no schema.
- The line diff of `app.py` (difflib) is left out. The diff view is modelled only up to its short-circuits.
- Floating-point code (file sizes in KB/MB, compression ratios, the kb and mb fields of the summary) is left out. Only the integer byte comparison is kept.
- The JSON probe and the regular-expression Markdown sniffing of `detect_file_type` (src/utils.py:196-235) are a heuristic. They are passed in as `sniffed` (`sniff` in `App.Session.SidebarInput`).
- `SanitizeText` models only the string branch. The non-string branch of `sanitize_text` (src/utils.py:22-23) is not reached from the modelled callers.
- `int()` in the splitter accepts signs, spaces and underscores, and a negative index counts from the end of a list. Bracket text is modelled as non-empty ASCII digits; anything else is the `BadIndex` error.
- Whitespace is modelled as six characters: space, tab, line feed, carriage return, vertical tab and form feed. Lines are split on `\n` only. Python's `split()`, `strip()` and `splitlines()` also treat `\x1c`-`\x1f`, `\x85` and other Unicode whitespace and line terminators this way, so `"\x1c".strip()` is empty in Python but not in the model.
- `PyStr.LowerAscii`: Python's `str.lower()` is modelled on ASCII letters only. This covers the lower-cased error message (src/validator.py:108) and the extension test (src/utils.py:186). Unicode case mapping is not modelled, so a non-ASCII upper-case letter is left as it is.
- `StructureAnalysis.Analysis.CountType`: the type distribution is a map, so the first-seen insertion order of `type_distribution` (src/viewer.py:202-204) is lost. That order is only the display order of src/viewer.py:175-176; the counts per name are modelled.
- `Validator.ErrorContext` takes a natural context length. A negative `context_length` is not modelled.
- `TreeView.DictRows`: JSON dict keys are strings, so the view passes every key to `safe_json_key` as a string key. The non-string keys of `Utils.Key` reach only `Utils.SafeJsonKey`.
- `StructureAnalysis.AnalyzeDepth`: the maximum depth is stated as the largest depth among the visited nodes, not through a separate height function.
- `JsonPath.ExtractedPathsResolve`: the round trip is stated for keys that are non-empty and free of `.` and `[`. For other keys the splitter reads a listed path differently from the key it was built from.
- `JsonPath.Select` also covers `str` indexing, which yields a one-character string. No ensures clause is stated for strings.
- `App.Session.DiffMode` does not model the diff display itself, only which of the three outcomes is shown.
- The file type shown for an upload whose content does not decode is not modelled. `read().decode()` raising is `content == None`, and then nothing changes.

## Findings

| source | as written | input that shows it | evidently intended | confidence | as-written member | corrected member |
|---|---|---|---|---|---|---|
| src/utils.py:117-120 | `isinstance(value, (int, float))` is tested before `isinstance(value, bool)`, and a bool is an int, so booleans get the number icon and the check-box branch is dead | `True`; tests/test_utils.py:169-170 expect the checked box for `True` and the empty box for `False` | booleans get the checked or empty box | not executed | Utils.BoolIconAsWritten | Utils.TypeIcon |
| src/viewer.py:124-130 | the expander is used when the preview is shorter than the string, but a preview is 100 characters plus "...", so a string of 101 or 102 characters is cut with no way to see its end | a string of 101 characters | a string longer than 100 characters is previewed and offered in full | not executed | TreeView.StringLeafAsWrittenHides | TreeView.StringLeaf |
| src/viewer.py:113-114 | the note is written once index 99 is reached, whatever the length | a list of exactly 100 items shows "... and 0 more items" | the note only when items are left out | not executed | TreeView.MoreItemsAsWrittenZero | TreeView.MoreItems |
