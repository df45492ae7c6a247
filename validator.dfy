/** The syntax validator of src/validator.py: the path formatter, the error
    context window, the detailed parse-error message and its description,
    the empty-input check of validate_json, and the validation summary.
    The JSON parser and the schema checker are passed in. */
module Validator {
  import opened Common
  import opened PyStr
  import opened Json
  import opened JsonPath

  // ---------------------------------------------------------------------
  // _format_json_path

  /** The formatted path: the parts in the path grammar, or "root" when
      that is empty. */
  function FormatPath(path: seq<PathPart>): (r: string)
    ensures |r| > 0
    ensures |path| == 0 ==> r == "root"
  {
    if Unparse(path) == "" then "root" else Unparse(path)
  }

  lemma {:induction false} DottedTailSnoc(ps: seq<PathPart>, p: PathPart)
    ensures DottedTail(ps + [p]) == DottedTail(ps) + Segment(p, false)
    decreases |ps|
  {
    if |ps| == 0 {
      assert [p][1..] == [];
    } else {
      assert (ps + [p])[1..] == ps[1..] + [p];
      DottedTailSnoc(ps[1..], p);
    }
  }

  lemma UnparseSnoc(ps: seq<PathPart>, p: PathPart)
    ensures Unparse(ps + [p]) == Unparse(ps) + Segment(p, |ps| == 0)
  {
    if |ps| == 0 {
      assert [p][1..] == [];
    } else {
      assert (ps + [p])[1..] == ps[1..] + [p];
      DottedTailSnoc(ps[1..], p);
    }
  }

  /** `_format_json_path`: one piece per part, joined. */
  method FormatJsonPath(path: seq<PathPart>) returns (r: string)
    ensures r == FormatPath(path)
  {
    if |path| == 0 {
      return "root";
    }
    var pathParts: seq<string> := [];
    for k := 0 to |path|
      invariant |pathParts| == k
      invariant Flatten(pathParts) == Unparse(path[..k])
    {
      var piece: string;
      match path[k] {
        case Index(i) =>
          piece := "[" + NatToString(i) + "]";
        case Name(s) =>
          if |pathParts| > 0 {
            piece := "." + s;
          } else {
            piece := s;
          }
      }
      assert piece == Segment(path[k], k == 0);
      PieceStep(path, k, pathParts, piece);
      pathParts := pathParts + [piece];
    }
    assert path[..|path|] == path;
    r := Flatten(pathParts);
    if r == "" {
      r := "root";
    }
  }

  /** One more piece of the formatting loop. */
  lemma PieceStep(path: seq<PathPart>, k: nat, pathParts: seq<string>, piece: string)
    requires k < |path| && |pathParts| == k && Flatten(pathParts) == Unparse(path[..k])
    requires piece == Segment(path[k], k == 0)
    ensures Flatten(pathParts + [piece]) == Unparse(path[..k + 1])
  {
    var front := path[..k];
    assert path[..k + 1] == front + [path[k]];
    FlattenAppend(pathParts, piece);
    UnparseSnoc(front, path[k]);
  }

  /** Formatting is the inverse of the path parser: a non-empty path whose
      names are non-empty and hold no '.' or '[' reads back as itself. */
  lemma FormatThenParse(ps: seq<PathPart>)
    requires |ps| > 0 && CleanParts(ps)
    ensures Parse(FormatPath(ps)) == Ok(ps)
  {
    ParseUnparse(ps);
    assert |Segment(ps[0], true)| > 0;
  }

  /** The worked example: ["a", 0, "b"] is written a[0].b. */
  lemma FormatExample()
    ensures FormatPath([Name("a"), Index(0), Name("b")]) == "a[0].b"
  {
    var ps := [Name("a"), Index(0), Name("b")];
    assert NatToString(0) == "0";
    assert DottedTail(ps[1..][1..]) == ".b";
    assert DottedTail(ps[1..]) == "[0].b";
  }

  // ---------------------------------------------------------------------
  // _get_error_context

  const Marker := "\U{274C}"

  /** `_get_error_context`: the text from contextLength characters before
      the error to contextLength characters after it, with the marker put
      just before the offending character. */
  function ErrorContext(text: string, errorPos: int, contextLength: nat): (r: string)
    ensures !(0 <= errorPos < |text|) || contextLength == 0 ==> r == ""
    ensures 0 <= errorPos < |text| && contextLength > 0 ==>
              var start := Max(0, errorPos - contextLength);
              var end := Min(|text|, errorPos + contextLength);
              var m := errorPos - start;
              |r| == end - start + 1 && r[m] == Marker[0] && r[m + 1] == text[errorPos] &&
              r[..m] + r[m + 1..] == text[start..end]
  {
    if errorPos < 0 || errorPos >= |text| then ""
    else
      var start := Max(0, errorPos - contextLength);
      var end := Min(|text|, errorPos + contextLength);
      var context := PySlice(text, start, end);
      var markerPos := errorPos - start;
      if 0 <= markerPos < |context| then
        MarkerInserted(context, markerPos);
        context[..markerPos] + Marker + context[markerPos..]
      else context
  }

  lemma MarkerInserted(c: string, m: nat)
    requires m < |c|
    ensures var r := c[..m] + Marker + c[m..];
            |r| == |c| + 1 && r[m] == Marker[0] && r[m + 1] == c[m] && r[..m] + r[m + 1..] == c
  {
    var r := c[..m] + Marker + c[m..];
    assert r[..m] == c[..m];
    assert r[m + 1..] == c[m..];
    assert c[..m] + c[m..] == c;
  }

  // ---------------------------------------------------------------------
  // _get_error_description

  /** One classification rule: a pattern looked for in the lower-cased
      message, and the description it gives. */
  datatype Rule = Rule(pattern: string, description: string)

  /** The rules after the "expecting" rule, in the order they are tried. */
  const DescriptionRules: seq<Rule> := [
    Rule("unterminated string", "Unterminated string literal - missing closing quote"),
    Rule("invalid control character", "Invalid control character in string"),
    Rule("invalid escape sequence", "Invalid escape sequence in string"),
    Rule("duplicate keys", "Duplicate keys found in JSON object"),
    Rule("trailing comma", "Trailing comma not allowed in JSON"),
    Rule("}", "Missing closing brace '}' or invalid object structure"),
    Rule("]", "Missing closing bracket ']' or invalid array structure"),
    Rule(",", "Missing comma ',' between elements or trailing comma"),
    Rule(":", "Missing colon ':' after object key or invalid key-value syntax")
  ]

  /** The first rule whose pattern occurs in s. */
  function FirstMatch(s: string, rules: seq<Rule>): (r: Option<nat>)
    ensures r.Some? ==> r.value < |rules| && Contains(s, rules[r.value].pattern)
    ensures r.Some? ==> forall j :: 0 <= j < r.value ==> !Contains(s, rules[j].pattern)
    ensures r.None? ==> forall j :: 0 <= j < |rules| ==> !Contains(s, rules[j].pattern)
  {
    if |rules| == 0 then None
    else if Contains(s, rules[0].pattern) then Some(0)
    else
      match FirstMatch(s, rules[1..])
      case Some(k) => Some(k + 1)
      case None => None
  }

  /** `_get_error_description`. The "expecting" rule takes the text after
      the first "Expecting"; a message that holds "expecting" only in
      another letter case has no such text, and the subscript raises. */
  function ErrorDescription(msg: string): (r: Result<string, Raised>)
    ensures r.Err? <==> Contains(LowerAscii(msg), "expecting") && IndexOf(msg, "Expecting") < 0
  {
    var lower := LowerAscii(msg);
    if Contains(lower, "expecting") then
      var pieces := SplitOn(msg, "Expecting");
      if |pieces| < 2 then Err(Raised.IndexError) else Ok("Expecting " + Strip(pieces[1]))
    else
      match FirstMatch(lower, DescriptionRules)
      case Some(k) => Ok(DescriptionRules[k].description)
      case None => Ok("JSON syntax error: " + msg)
  }

  /** A message without "expecting" in any case is described by the first
      rule that matches, or by the fallback when none does. */
  lemma DescriptionFirstMatch(msg: string)
    requires !Contains(LowerAscii(msg), "expecting")
    ensures var r := ErrorDescription(msg);
            r.Ok? &&
            (forall k :: 0 <= k < |DescriptionRules| && Contains(LowerAscii(msg), DescriptionRules[k].pattern) &&
               (forall j :: 0 <= j < k ==> !Contains(LowerAscii(msg), DescriptionRules[j].pattern))
               ==> r.value == DescriptionRules[k].description) &&
            ((forall k :: 0 <= k < |DescriptionRules| ==> !Contains(LowerAscii(msg), DescriptionRules[k].pattern))
               ==> r.value == "JSON syntax error: " + msg)
  {
  }

  /** Python's own messages start with "Expecting": the description is
      "Expecting " and the rest of the message, stripped. */
  lemma ExpectingMessage(rest: string)
    requires IndexOf(rest, "Expecting") < 0
    ensures ErrorDescription("Expecting" + rest) == Ok("Expecting " + Strip(rest))
  {
    var msg := "Expecting" + rest;
    assert msg[..9] == "Expecting";
    var lower := LowerAscii(msg);
    assert lower[..9] == "expecting" by {
      forall i | 0 <= i < 9 ensures lower[i] == "expecting"[i] {
        assert lower[i] == LowerChar(msg[i]);
      }
    }
    assert msg[9..] == rest;
    assert IndexOf(lower, "expecting") == 0;
    assert IndexOf(msg, "Expecting") == 0;
    assert SplitOn(msg, "Expecting") == [""] + SplitOn(rest, "Expecting");
  }

  // ---------------------------------------------------------------------
  // _create_detailed_error_message

  /** Longest context line kept whole. */
  const ContextLineLimit := 100

  /** The line under the error line: colNo - 1 dashes and a caret. */
  function Pointer(colNo: int): (r: string)
    ensures |r| == Max(0, colNo - 1) + 1 && r[|r| - 1] == '^'
    ensures '\n' !in r
  {
    Repeat('-', colNo - 1) + "^"
  }

  /** The context entries for line i (0-based): the line, and the pointer
      after the error line. */
  function LineBlock(lines: seq<string>, i: nat, lineNo: int, colNo: int): seq<string>
    requires i < |lines|
  {
    if i + 1 == lineNo then [lines[i], Pointer(colNo)] else [lines[i]]
  }

  /** The context entries for lines lo up to hi, exclusive. */
  function ContextRange(lines: seq<string>, lo: nat, hi: nat, lineNo: int, colNo: int): seq<string>
    requires hi <= lo || hi <= |lines|
    decreases hi
  {
    if hi <= lo then [] else ContextRange(lines, lo, hi - 1, lineNo, colNo) + LineBlock(lines, hi - 1, lineNo, colNo)
  }

  /** The lines shown around the error: one before it and one after it. */
  function ContextLines(lines: seq<string>, lineNo: int, colNo: int): seq<string>
  {
    ContextRange(lines, Max(0, lineNo - 2), Max(0, Min(|lines|, lineNo + 1)), lineNo, colNo)
  }

  /** An over-long context line keeps its first 97 characters and "...". */
  function TruncateContextLine(line: string): (r: string)
    ensures |r| <= ContextLineLimit
    ensures |line| <= ContextLineLimit ==> r == line
  {
    if |line| > ContextLineLimit then line[..97] + "..." else line
  }

  function TruncateAll(xs: seq<string>): seq<string>
  {
    seq(|xs|, k requires 0 <= k < |xs| => TruncateContextLine(xs[k]))
  }

  function Header(lineNo: int): string
  {
    "Error: Parse error on line " + IntToString(lineNo) + ":\n"
  }

  /** The context part of the message: "...", the context lines after
      splitting the joined context on '\n' again and cutting each to 100
      characters, and a newline; nothing when the context is blank. */
  function ShownContext(ctx: seq<string>): string
  {
    var context := Join(ctx, "\n");
    if Strip(context) != [] then "..." + Join(TruncateAll(SplitOn(context, "\n")), "\n") + "\n" else ""
  }

  /** The message `_create_detailed_error_message` builds for a parse error
      at lineNo:colNo with the parser's message msg. */
  function DetailedErrorMessage(jsonText: string, lineNo: int, colNo: int, msg: string): Result<string, Raised>
  {
    match ErrorDescription(msg)
    case Ok(d) => Ok(Header(lineNo) + ShownContext(ContextLines(SplitLines(jsonText), lineNo, colNo)) + d)
    case Err(e) => Err(e)
  }

  /** The message fails only when the description does, and it starts
      with the line header. */
  lemma DetailedHeader(jsonText: string, lineNo: int, colNo: int, msg: string)
    ensures DetailedErrorMessage(jsonText, lineNo, colNo, msg).Err? <==> ErrorDescription(msg).Err?
    ensures DetailedErrorMessage(jsonText, lineNo, colNo, msg).Ok? ==>
              Header(lineNo) <= DetailedErrorMessage(jsonText, lineNo, colNo, msg).value
  {
    if ErrorDescription(msg).Ok? {
      PrefixOfConcat(Header(lineNo), ShownContext(ContextLines(SplitLines(jsonText), lineNo, colNo)), ErrorDescription(msg).value);
    }
  }

  lemma PrefixOfConcat(a: string, b: string, c: string)
    ensures a <= a + b + c
  {
    assert (a + b + c)[..|a|] == a;
  }

  /** The loop that collects the context lines. */
  method CollectContext(lines: seq<string>, lineNo: int, colNo: int) returns (contextLines: seq<string>)
    ensures contextLines == ContextLines(lines, lineNo, colNo)
  {
    contextLines := [];
    var startLine := Max(0, lineNo - 2);
    var endLine := Min(|lines|, lineNo + 1);
    var i: nat := startLine;
    while i < endLine
      invariant startLine <= i && (i <= endLine || i == startLine)
      invariant contextLines == ContextRange(lines, startLine, i, lineNo, colNo)
      decreases endLine - i
    {
      var lineContent := if i < |lines| then lines[i] else "";
      var lineNumber := i + 1;
      if lineNumber == lineNo {
        contextLines := contextLines + [lineContent];
        var pointerLine := Repeat('-', colNo - 1) + "^";
        contextLines := contextLines + [pointerLine];
      } else {
        contextLines := contextLines + [lineContent];
      }
      i := i + 1;
    }
  }

  /** The loop that cuts the over-long context lines. */
  method TruncateLines(pieces: seq<string>) returns (truncated: seq<string>)
    ensures truncated == TruncateAll(pieces)
  {
    truncated := [];
    for k := 0 to |pieces|
      invariant truncated == TruncateAll(pieces[..k])
    {
      var line := pieces[k];
      if |line| > ContextLineLimit {
        line := line[..97] + "...";
      }
      assert pieces[..k + 1] == pieces[..k] + [pieces[k]];
      truncated := truncated + [line];
    }
    assert pieces[..|pieces|] == pieces;
  }

  /** The context part of the message, when the context is not blank. */
  method ShowContext(contextLines: seq<string>) returns (shown: string)
    ensures shown == ShownContext(contextLines)
  {
    shown := "";
    var context := Join(contextLines, "\n");
    if Strip(context) != [] {
      var truncated := TruncateLines(SplitOn(context, "\n"));
      context := Join(truncated, "\n");
      shown := "..." + context + "\n";
    }
  }

  /** `_create_detailed_error_message` */
  method CreateDetailedErrorMessage(jsonText: string, lineNo: int, colNo: int, msg: string) returns (r: Result<string, Raised>)
    ensures r == DetailedErrorMessage(jsonText, lineNo, colNo, msg)
  {
    var lines := SplitLines(jsonText);
    var errorMsg := Header(lineNo);
    var contextLines := CollectContext(lines, lineNo, colNo);
    var shown := ShowContext(contextLines);
    errorMsg := errorMsg + shown;
    var description := ErrorDescription(msg);
    if description.Err? {
      return Err(description.error);
    }
    errorMsg := errorMsg + description.value;
    r := Ok(errorMsg);
  }

  /** For an error line that exists, the context is the line before it (if
      any), the error line, the pointer, and the line after it (if any). */
  lemma ContextAroundError(lines: seq<string>, lineNo: int, colNo: int)
    requires 1 <= lineNo <= |lines|
    ensures ContextLines(lines, lineNo, colNo) ==
              (if lineNo >= 2 then [lines[lineNo - 2]] else []) +
              [lines[lineNo - 1], Pointer(colNo)] +
              (if lineNo < |lines| then [lines[lineNo]] else [])
  {
    var lo := Max(0, lineNo - 2);
    var before := ContextRange(lines, lo, lineNo - 1, lineNo, colNo);
    if lineNo >= 2 {
      assert ContextRange(lines, lo, lo, lineNo, colNo) == [];
      assert before == [lines[lineNo - 2]];
    } else {
      assert before == [];
    }
    var upTo := ContextRange(lines, lo, lineNo, lineNo, colNo);
    assert upTo == before + [lines[lineNo - 1], Pointer(colNo)];
    if lineNo < |lines| {
      assert ContextRange(lines, lo, lineNo + 1, lineNo, colNo) == upTo + [lines[lineNo]];
    }
  }

  lemma NoNewlineInContext(lines: seq<string>, lo: nat, hi: nat, lineNo: int, colNo: int)
    requires hi <= lo || hi <= |lines|
    requires forall k :: 0 <= k < |lines| ==> '\n' !in lines[k]
    ensures forall k :: 0 <= k < |ContextRange(lines, lo, hi, lineNo, colNo)| ==> '\n' !in ContextRange(lines, lo, hi, lineNo, colNo)[k]
    decreases hi
  {
    if hi > lo {
      NoNewlineInContext(lines, lo, hi - 1, lineNo, colNo);
    }
  }

  /** Splitting the joined context again gives back the context lines, so
      the message is the header, "...", the context lines cut to 100
      characters and the description. */
  lemma DetailedMessageShape(jsonText: string, lineNo: int, colNo: int, msg: string)
    requires 1 <= lineNo <= |SplitLines(jsonText)|
    requires ErrorDescription(msg).Ok?
    ensures DetailedErrorMessage(jsonText, lineNo, colNo, msg) ==
              Ok(Header(lineNo) + ("..." + Join(TruncateAll(ContextLines(SplitLines(jsonText), lineNo, colNo)), "\n") + "\n")
                 + ErrorDescription(msg).value)
  {
    var lines := SplitLines(jsonText);
    var ctx := ContextLines(lines, lineNo, colNo);
    ContextAroundError(lines, lineNo, colNo);
    NoNewlineInContext(lines, Max(0, lineNo - 2), Max(0, Min(|lines|, lineNo + 1)), lineNo, colNo);
    JoinHoldsCaret(ctx, if lineNo >= 2 then 2 else 1);
    ShownContextOf(ctx);
  }

  lemma ShownContextOf(ctx: seq<string>)
    requires |ctx| > 0 && forall k :: 0 <= k < |ctx| ==> '\n' !in ctx[k]
    requires Strip(Join(ctx, "\n")) != []
    ensures ShownContext(ctx) == "..." + Join(TruncateAll(ctx), "\n") + "\n"
  {
    SplitJoinNewline(ctx);
  }

  /** The pointer line is in the shown context, right after the error line;
      within the first 100 columns it survives the cut with its caret, and
      beyond them it is cut to dashes and "...". */
  lemma PointerShown(lines: seq<string>, lineNo: int, colNo: int)
    requires 1 <= lineNo <= |lines|
    ensures var ctx := ContextLines(lines, lineNo, colNo);
            var at := if lineNo >= 2 then 2 else 1;
            |ctx| > at && ctx[at - 1] == lines[lineNo - 1] &&
            TruncateAll(ctx)[at] == TruncateContextLine(Pointer(colNo)) &&
            (colNo <= ContextLineLimit ==> TruncateAll(ctx)[at] == Pointer(colNo)) &&
            (colNo > ContextLineLimit ==> '^' !in TruncateAll(ctx)[at])
  {
    ContextAroundError(lines, lineNo, colNo);
    if colNo > ContextLineLimit {
      var t := TruncateContextLine(Pointer(colNo));
      assert t == Pointer(colNo)[..97] + "...";
      assert forall k :: 0 <= k < 97 ==> Pointer(colNo)[k] == '-';
    }
  }

  /** A joined list with a caret in one of its elements is not blank. */
  lemma {:induction false} JoinHoldsCaret(xs: seq<string>, at: nat)
    requires at < |xs| && |xs[at]| > 0 && xs[at][|xs[at]| - 1] == '^'
    ensures Strip(Join(xs, "\n")) != []
    decreases |xs|
  {
    var j := Join(xs, "\n");
    if |xs| == 1 {
      assert !IsSpace(j[|j| - 1]);
    } else if at == 0 {
      assert j == xs[0] + "\n" + Join(xs[1..], "\n");
      assert j[|xs[0]| - 1] == '^';
    } else {
      var rest := Join(xs[1..], "\n");
      JoinHoldsCaret(xs[1..], at - 1);
      assert j == xs[0] + "\n" + rest;
      var m :| 0 <= m < |rest| && !IsSpace(rest[m]);
      assert j[|xs[0]| + 1 + m] == rest[m];
    }
  }

  // ---------------------------------------------------------------------
  // validate_json

  /** What json.loads does with a text: a value, a JSONDecodeError with its
      message and position, or some other exception. */
  datatype LoadOutcome = Loaded(value: Value) | DecodeFailure(msg: string, lineNo: int, colNo: int) | Failure(text: string)

  /** `validate_json`, with json.loads passed in. */
  function ValidateJson(jsonText: string, loads: string -> LoadOutcome): (r: Result<(bool, seq<string>), Raised>)
    ensures r.Ok? ==> (r.value.0 <==> |r.value.1| == 0) && |r.value.1| <= 1
    ensures IsBlank(jsonText) ==> r == Ok((false, ["Empty JSON input"]))
    ensures !IsBlank(jsonText) ==> (r == Ok((true, [])) <==> loads(jsonText).Loaded?)
  {
    if Strip(jsonText) == [] then Ok((false, ["Empty JSON input"]))
    else Report(jsonText, loads(jsonText))
  }

  /** What validate_json answers for non-blank text once the parser has
      given its outcome. */
  function Report(jsonText: string, outcome: LoadOutcome): (r: Result<(bool, seq<string>), Raised>)
    ensures r.Ok? ==> (r.value.0 <==> |r.value.1| == 0) && |r.value.1| <= 1
    ensures r == Ok((true, [])) <==> outcome.Loaded?
  {
    match outcome
    case Loaded(_) => Ok((true, []))
    case DecodeFailure(m, l, c) =>
      (match DetailedErrorMessage(jsonText, l, c, m)
       case Ok(d) => Ok((false, [d]))
       case Err(e) => Err(e))
    case Failure(t) => Ok((false, ["Unexpected error: " + t]))
  }

  /** Blank input never reaches the parser: whatever the parser, the answer
      is the same. */
  lemma BlankNeverParsed(jsonText: string, loads: string -> LoadOutcome, other: string -> LoadOutcome)
    requires IsBlank(jsonText)
    ensures ValidateJson(jsonText, loads) == ValidateJson(jsonText, other)
  {
  }

  /** A parse error is reported as one message that starts with the line
      header, unless describing it raises. */
  lemma ParseErrorReported(jsonText: string, msg: string, lineNo: int, colNo: int)
    ensures var r := Report(jsonText, DecodeFailure(msg, lineNo, colNo));
            (r.Ok? <==> ErrorDescription(msg).Ok?) &&
            (r.Ok? ==> !r.value.0 && |r.value.1| == 1 && Header(lineNo) <= r.value.1[0])
  {
    DetailedHeader(jsonText, lineNo, colNo, msg);
  }

  // ---------------------------------------------------------------------
  // get_validation_summary

  /** More than this many bytes is a large file (5 MB). */
  const LargeFileBytes := 5 * 1024 * 1024

  const SizeRecommendation := "Consider breaking large JSON into smaller files for better performance"
  const SyntaxRecommendation := "Fix syntax errors before proceeding with formatting or schema validation"

  /** The summary's recommendations for a file of the given size class and
      syntax verdict, in the order they are appended. */
  function Recommendations(isLarge: bool, syntaxValid: bool): (r: seq<string>)
  {
    (if isLarge then [SizeRecommendation] else []) + (if !syntaxValid then [SyntaxRecommendation] else [])
  }

  /** Appending x when p holds and then y when q holds lists them in that order. */
  lemma AppendedInOrder(p: bool, q: bool, x: string, y: string)
    ensures var first := if p then [] + [x] else [];
            (if q then first + [y] else first) == (if p then [x] else []) + (if q then [y] else [])
  {
  }

  /** Each recommendation is given exactly when its condition holds. */
  lemma RecommendationsGiven(isLarge: bool, syntaxValid: bool)
    ensures SizeRecommendation in Recommendations(isLarge, syntaxValid) <==> isLarge
    ensures SyntaxRecommendation in Recommendations(isLarge, syntaxValid) <==> !syntaxValid
  {
    assert |SizeRecommendation| != |SyntaxRecommendation|;
  }

  /** The summary without its floating-point kb and mb fields. */
  datatype Summary<E> = Summary(syntaxValid: bool, syntaxErrors: seq<string>, schemaValid: Option<bool>,
                                schemaErrors: seq<E>, bytes: nat, isLarge: bool, recommendations: seq<string>)

  /** `get_validation_summary`, with json.loads and the schema check passed
      in; an empty schema text stands for no schema. */
  method GetValidationSummary<E>(jsonText: string, schemaText: string, loads: string -> LoadOutcome,
                                 validateAgainstSchema: (string, string) -> seq<E>)
    returns (r: Result<Summary<E>, Raised>)
    ensures r.Ok? <==> ValidateJson(jsonText, loads).Ok?
    ensures r.Ok? ==> r.value.syntaxValid == ValidateJson(jsonText, loads).value.0
    ensures r.Ok? ==> r.value.syntaxErrors == ValidateJson(jsonText, loads).value.1
    ensures r.Ok? ==> r.value.bytes == Utf8Length(jsonText) && (r.value.isLarge <==> r.value.bytes > LargeFileBytes)
    ensures r.Ok? ==> (r.value.schemaValid.Some? <==> |schemaText| > 0 && r.value.syntaxValid)
    ensures r.Ok? && r.value.schemaValid.Some? ==>
              r.value.schemaErrors == validateAgainstSchema(jsonText, schemaText) &&
              (r.value.schemaValid.value <==> |r.value.schemaErrors| == 0)
    ensures r.Ok? ==> (SizeRecommendation in r.value.recommendations <==> r.value.isLarge)
    ensures r.Ok? ==> (SyntaxRecommendation in r.value.recommendations <==> !r.value.syntaxValid)
    ensures r.Ok? ==> r.value.recommendations == Recommendations(r.value.isLarge, r.value.syntaxValid)
    ensures r.Ok? && r.value.schemaValid.None? ==> r.value.schemaErrors == []
  {
    var syntaxValid, syntaxErrors, schemaValid, schemaErrors, recommendations := false, [], None, [], [];
    var validation := ValidateJson(jsonText, loads);
    if validation.Err? {
      return Err(validation.error);
    }
    syntaxValid, syntaxErrors := validation.value.0, validation.value.1;
    var sizeBytes := Utf8Length(jsonText);
    var isLarge := sizeBytes > LargeFileBytes;
    if |schemaText| > 0 && syntaxValid {
      schemaErrors := validateAgainstSchema(jsonText, schemaText);
      schemaValid := Some(|schemaErrors| == 0);
    }
    if isLarge {
      recommendations := recommendations + [SizeRecommendation];
    }
    if !syntaxValid {
      recommendations := recommendations + [SyntaxRecommendation];
    }
    AppendedInOrder(isLarge, !syntaxValid, SizeRecommendation, SyntaxRecommendation);
    RecommendationsGiven(isLarge, syntaxValid);
    r := Ok(Summary(syntaxValid, syntaxErrors, schemaValid, schemaErrors, sizeBytes, isLarge, recommendations));
  }
}
