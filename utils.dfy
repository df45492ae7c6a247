/** The text helpers of src/utils.py: display truncation, tag stripping, key
    sanitising, type icons, text statistics, file-type detection by
    extension, and the bounded undo stack. */
module Utils {
  import opened Common
  import opened PyStr
  import opened Json

  // ---------------------------------------------------------------------
  // truncate_long_value

  /** `truncate_long_value` on the string form of a value: unchanged when it
      fits, otherwise its first maxLength characters (a Python slice, so a
      negative bound counts from the end) and "...". */
  function TruncateLongValue(s: string, maxLength: int): (r: string)
    ensures |s| <= maxLength ==> r == s
    ensures 0 <= maxLength < |s| ==> |r| == maxLength + 3 && r[..maxLength] == s[..maxLength] && r[maxLength..] == "..."
    ensures maxLength < 0 ==> r == s[..Max(0, |s| + maxLength)] + "..."
    ensures 0 <= maxLength ==> |r| <= maxLength + 3
  {
    if |s| <= maxLength then s else PyPrefix(s, maxLength) + "..."
  }

  // ---------------------------------------------------------------------
  // sanitize_text and safe_json_key

  /** `re.sub(r'<[^>]*>', '', s)`: scanning from the left, a '<' that has a
      '>' somewhere after it is removed together with everything up to the
      first such '>'; any other character is kept. */
  function StripTags(s: string): (r: string)
    ensures |r| <= |s|
    decreases |s|
  {
    if |s| == 0 then ""
    else if s[0] == '<' && FirstOf(s[1..], {'>'}) < |s| - 1 then StripTags(s[FirstOf(s[1..], {'>'}) + 2..])
    else [s[0]] + StripTags(s[1..])
  }

  /** No '<' is followed, anywhere later, by a '>': nothing that the tag
      pattern could match. */
  predicate NoTag(r: string)
  {
    forall i, j :: 0 <= i < j < |r| && r[i] == '<' ==> r[j] != '>'
  }

  /** Stripping never introduces a character. */
  lemma {:induction false} StripTagsKeeps(s: string, c: char)
    requires c !in s
    ensures c !in StripTags(s)
    decreases |s|
  {
    if |s| > 0 {
      if s[0] == '<' && FirstOf(s[1..], {'>'}) < |s| - 1 {
        StripTagsKeeps(s[FirstOf(s[1..], {'>'}) + 2..], c);
      } else {
        StripTagsKeeps(s[1..], c);
      }
    }
  }

  /** No tag survives sanitising. */
  lemma {:induction false} StripTagsNoTag(s: string)
    ensures NoTag(StripTags(s))
    decreases |s|
  {
    if |s| > 0 {
      var j := FirstOf(s[1..], {'>'});
      if s[0] == '<' && j < |s| - 1 {
        StripTagsNoTag(s[j + 2..]);
      } else {
        var rest := StripTags(s[1..]);
        StripTagsNoTag(s[1..]);
        if s[0] == '<' {
          FirstOfStops(s[1..], {'>'});
          assert '>' !in s[1..];
          StripTagsKeeps(s[1..], '>');
        }
        var r := [s[0]] + rest;
        forall i, k | 0 <= i < k < |r| && r[i] == '<' ensures r[k] != '>' {
          assert r[k] == rest[k - 1];
          if i > 0 {
            assert r[i] == rest[i - 1];
          }
        }
      }
    }
  }

  /** Text without a '<' is left alone. */
  lemma {:induction false} StripTagsPlain(s: string)
    requires '<' !in s
    ensures StripTags(s) == s
    decreases |s|
  {
    if |s| > 0 {
      StripTagsPlain(s[1..]);
      assert [s[0]] + s[1..] == s;
    }
  }

  /** A leading tag `<...>` disappears with its contents. */
  lemma StripTagsLeadingTag(body: string, rest: string)
    requires '>' !in body
    ensures StripTags("<" + body + ">" + rest) == StripTags(rest)
  {
    var s := "<" + body + ">" + rest;
    assert s[1..] == body + ">" + rest;
    forall m | 0 <= m < |body| ensures s[1..][m] !in {'>'} {
      assert s[1..][m] == body[m];
    }
    FirstOfExact(s[1..], {'>'}, |body|);
    assert s[|body| + 2..] == rest;
  }

  /** `sanitize_text` on a string: tags removed, then at most maxLength
      characters (a Python slice). */
  function SanitizeText(text: string, maxLength: int): (r: string)
    ensures 0 <= maxLength ==> |r| <= maxLength
    ensures r == PyPrefix(StripTags(text), maxLength)
  {
    PyPrefix(StripTags(text), maxLength)
  }

  /** Sanitised text holds no tag, and tag-free text shorter than the bound
      passes through unchanged. */
  lemma SanitizeTextClean(text: string, maxLength: int)
    ensures NoTag(SanitizeText(text, maxLength))
    ensures '<' !in text && 0 <= |text| <= maxLength ==> SanitizeText(text, maxLength) == text
  {
    var t := StripTags(text);
    StripTagsNoTag(text);
    var r := SanitizeText(text, maxLength);
    assert r == t[..|r|];
    forall i, j | 0 <= i < j < |r| && r[i] == '<' ensures r[j] != '>' {
      assert r[i] == t[i] && r[j] == t[j];
    }
    if '<' !in text {
      StripTagsPlain(text);
    }
  }

  /** A dict key as Python may hold it. Keys parsed from JSON are strings;
      the other kinds reach `safe_json_key` only from dicts built in code. */
  datatype Key = StrKey(s: string) | IntKey(i: int) | BoolKey(b: bool) | NoneKey

  /** `str(key)` for the non-string keys. */
  function KeyText(k: Key): string
  {
    match k
    case StrKey(s) => s
    case IntKey(i) => IntToString(i)
    case BoolKey(b) => if b then "True" else "False"
    case NoneKey => "None"
  }

  const KeyLimit := 100

  /** `safe_json_key`: a string key is sanitised to 100 characters, any
      other key is its `str` form cut to 100 characters. */
  function SafeJsonKey(k: Key): (r: string)
    ensures |r| <= KeyLimit
    ensures k.StrKey? ==> NoTag(r) && r == SanitizeText(k.s, KeyLimit)
    ensures !k.StrKey? ==> r == KeyText(k)[..Min(KeyLimit, |KeyText(k)|)]
  {
    if k.StrKey? then
      SanitizeTextClean(k.s, KeyLimit);
      SanitizeText(k.s, KeyLimit)
    else PyPrefix(KeyText(k), KeyLimit)
  }

  /** A non-negative integer key displays as its decimal digits, which read
      back as the same number (so 123 gives "123"). */
  lemma SafeIntKey(n: nat)
    requires |NatToString(n)| <= KeyLimit
    ensures SafeJsonKey(IntKey(n)) == NatToString(n)
    ensures DigitsValue(SafeJsonKey(IntKey(n))) == n
  {
    DigitsValueOfNatToString(n);
  }

  // ---------------------------------------------------------------------
  // get_json_type_icon

  const FolderIcon := "\U{1F4C1}"
  const ListIcon := "\U{1F4CB}"
  const TextIcon := "\U{1F4DD}"
  const NumberIcon := "\U{1F522}"
  const CheckedIcon := "\U{2611}\U{FE0F}"
  const UncheckedIcon := "\U{2610}"
  const NullIcon := "\U{2205}"

  /** `get_json_type_icon` as written: the number test comes before the
      boolean test, and a Python bool is an int, so booleans get the number
      icon and the boolean branch is never reached. */
  function TypeIconAsWritten(v: Value): (r: string)
    ensures r == NumberIcon <==> v.JInt? || v.JFloat? || v.JBool?
  {
    match v
    case JObject(_) => FolderIcon
    case JArray(_) => ListIcon
    case JStr(_) => TextIcon
    case JInt(_) => NumberIcon
    case JFloat(_) => NumberIcon
    case JBool(_) => NumberIcon
    case JNull => NullIcon
  }

  /** The icons the tests expect for true and false are never produced. */
  lemma BoolIconAsWritten(b: bool)
    ensures TypeIconAsWritten(JBool(b)) != CheckedIcon
    ensures TypeIconAsWritten(JBool(b)) != UncheckedIcon
  {
  }

  /** The icon with the boolean test first, as the tests expect. */
  function TypeIcon(v: Value): (r: string)
    ensures r == NumberIcon <==> v.JInt? || v.JFloat?
    ensures v.JBool? ==> (r == CheckedIcon <==> v.truth)
  {
    match v
    case JObject(_) => FolderIcon
    case JArray(_) => ListIcon
    case JStr(_) => TextIcon
    case JBool(b) => if b then CheckedIcon else UncheckedIcon
    case JInt(_) => NumberIcon
    case JFloat(_) => NumberIcon
    case JNull => NullIcon
  }

  /** Values of the same icon kind: numbers together, each boolean alone. */
  predicate SameIconKind(v: Value, w: Value)
  {
    (v.JObject? && w.JObject?) || (v.JArray? && w.JArray?) || (v.JStr? && w.JStr?) ||
    ((v.JInt? || v.JFloat?) && (w.JInt? || w.JFloat?)) ||
    (v.JBool? && w.JBool? && v.truth == w.truth) || (v.JNull? && w.JNull?)
  }

  /** The icon tells the kinds apart: two values share an icon exactly when
      they are of the same kind. */
  lemma TypeIconKinds(v: Value, w: Value)
    ensures TypeIcon(v) == TypeIcon(w) <==> SameIconKind(v, w)
  {
  }

  // ---------------------------------------------------------------------
  // count_words, count_lines, count_paragraphs, get_text_stats

  /** `count_words` */
  function CountWords(text: string): nat
  {
    if |text| == 0 then 0 else |Words(text)|
  }

  /** `count_lines` */
  function CountLines(text: string): nat
  {
    if |text| == 0 then 0 else |SplitLines(text)|
  }

  /** The pieces between blank-line separators that hold something. */
  function Paragraphs(text: string): (r: seq<string>)
    ensures forall k :: 0 <= k < |r| ==> !IsBlank(r[k])
  {
    NonBlank(SplitOn(text, "\n\n"))
  }

  function NonBlank(xs: seq<string>): (r: seq<string>)
    ensures |r| <= |xs|
    ensures forall k :: 0 <= k < |r| ==> !IsBlank(r[k])
  {
    if |xs| == 0 then []
    else if IsBlank(xs[0]) then NonBlank(xs[1..])
    else [xs[0]] + NonBlank(xs[1..])
  }

  /** `count_paragraphs` */
  function CountParagraphs(text: string): nat
  {
    if |text| == 0 then 0 else |Paragraphs(text)|
  }

  /** Number of occurrences of c in s. */
  function Occurrences(s: string, c: char): nat
  {
    if |s| == 0 then 0 else (if s[0] == c then 1 else 0) + Occurrences(s[1..], c)
  }

  lemma {:induction false} OccurrencesConcat(a: string, b: string, c: char)
    ensures Occurrences(a + b, c) == Occurrences(a, c) + Occurrences(b, c)
    decreases |a|
  {
    if |a| == 0 {
      assert a + b == b;
    } else {
      assert (a + b)[1..] == a[1..] + b;
      OccurrencesConcat(a[1..], b, c);
    }
  }

  lemma {:induction false} OccurrencesNone(s: string, c: char)
    requires forall j :: 0 <= j < |s| ==> s[j] != c
    ensures Occurrences(s, c) == 0
    decreases |s|
  {
    if |s| > 0 {
      OccurrencesNone(s[1..], c);
    }
  }

  /** Splitting on '\n' gives one more piece than there are newlines. */
  lemma {:induction false} SplitNewlineCount(s: string)
    ensures |SplitOn(s, "\n")| == Occurrences(s, '\n') + 1
    decreases |s|
  {
    var i := IndexOf(s, "\n");
    if i < 0 {
      forall j | 0 <= j < |s| ensures s[j] != '\n' {
        AtNewline(s, j);
      }
      OccurrencesNone(s, '\n');
    } else {
      forall j | 0 <= j < i ensures s[..i][j] != '\n' {
        AtNewline(s, j);
      }
      OccurrencesNone(s[..i], '\n');
      AtNewline(s, i);
      assert s == s[..i] + ([s[i]] + s[i + 1..]);
      OccurrencesConcat(s[..i], [s[i]] + s[i + 1..], '\n');
      OccurrencesConcat([s[i]], s[i + 1..], '\n');
      SplitNewlineCount(s[i + 1..]);
    }
  }

  /** The line count is the number of newlines, plus one for a last line
      that does not end in a newline. */
  lemma CountLinesNewlines(text: string)
    ensures CountLines(text) == Occurrences(text, '\n') + (if |text| == 0 || text[|text| - 1] == '\n' then 0 else 1)
  {
    if |text| > 0 {
      SplitNewlineCount(text);
    }
  }

  /** The words of a string, counted a second way. */
  lemma {:induction false} WordsCount(s: string)
    ensures |Words(s)| == WordStarts(s, true)
    decreases |s|
  {
    var t := StripLeft(s);
    var k := |s| - |t|;
    StartsSkipBlank(s, k);
    if |t| > 0 {
      var n := FirstNonWord(t);
      var u := t[n..];
      assert |Words(s)| == 1 + |Words(u)|;
      StartsSkipWord(t, n);
      StartsAfterSpace(u);
      WordsCount(u);
    }
  }

  lemma StartsAfterSpace(u: string)
    requires u == [] || IsSpace(u[0])
    ensures WordStarts(u, false) == WordStarts(u, true)
  {
  }

  lemma {:induction false} StartsSkipBlank(s: string, k: nat)
    requires k <= |s| && IsBlank(s[..k])
    ensures WordStarts(s, true) == WordStarts(s[k..], true)
    decreases k
  {
    if k > 0 {
      assert IsSpace(s[..k][0]);
      assert s[1..][..k - 1] == s[1..k];
      StartsSkipBlank(s[1..], k - 1);
      assert s[1..][k - 1..] == s[k..];
    }
  }

  lemma {:induction false} StartsSkipWord(t: string, n: nat)
    requires 0 < n <= |t|
    requires forall i :: 0 <= i < n ==> !IsSpace(t[i])
    ensures WordStarts(t, true) == 1 + WordStarts(t[n..], false)
  {
    StartsInsideWord(t[1..], n - 1);
    assert t[1..][n - 1..] == t[n..];
  }

  lemma {:induction false} StartsInsideWord(t: string, n: nat)
    requires n <= |t|
    requires forall i :: 0 <= i < n ==> !IsSpace(t[i])
    ensures WordStarts(t, false) == WordStarts(t[n..], false)
    decreases n
  {
    if n > 0 {
      StartsInsideWord(t[1..], n - 1);
      assert t[1..][n - 1..] == t[n..];
    }
  }

  /** There are no words exactly when the text is blank. */
  lemma CountWordsBlank(text: string)
    ensures CountWords(text) == 0 <==> IsBlank(text)
  {
    var t := StripLeft(text);
    if |t| > 0 {
      assert text[|text| - |t|] == t[0];
    }
  }

  /** Every piece is blank. */
  predicate AllBlank(xs: seq<string>)
  {
    |xs| == 0 || (IsBlank(xs[0]) && AllBlank(xs[1..]))
  }

  lemma BlankConcat(a: string, b: string)
    ensures IsBlank(a + b) <==> IsBlank(a) && IsBlank(b)
  {
    if IsBlank(a + b) {
      forall m | 0 <= m < |a| ensures IsSpace(a[m]) {
        assert a[m] == (a + b)[m];
      }
      forall m | 0 <= m < |b| ensures IsSpace(b[m]) {
        assert b[m] == (a + b)[|a| + m];
      }
    }
  }

  /** Blank text splits into blank pieces only, and only blank text does,
      for a blank separator. */
  lemma {:induction false} BlankPieces(s: string, sep: string)
    requires |sep| > 0 && IsBlank(sep)
    ensures IsBlank(s) <==> AllBlank(SplitOn(s, sep))
    decreases |s|
  {
    var i := IndexOf(s, sep);
    if i >= 0 {
      var rest := s[i + |sep|..];
      BlankPieces(rest, sep);
      assert s == s[..i] + sep + rest;
      BlankConcat(s[..i], sep);
      BlankConcat(s[..i] + sep, rest);
      var ps := SplitOn(s, sep);
      assert ps[1..] == SplitOn(rest, sep);
    }
  }

  lemma {:induction false} NonBlankEmpty(xs: seq<string>)
    ensures |NonBlank(xs)| == 0 <==> AllBlank(xs)
    decreases |xs|
  {
    if |xs| > 0 {
      NonBlankEmpty(xs[1..]);
    }
  }

  /** There are no paragraphs exactly when the text is blank. */
  lemma CountParagraphsBlank(text: string)
    ensures CountParagraphs(text) == 0 <==> IsBlank(text)
  {
    assert IsSpace("\n\n"[0]) && IsSpace("\n\n"[1]);
    BlankPieces(text, "\n\n");
    NonBlankEmpty(SplitOn(text, "\n\n"));
  }

  /** What `get_text_stats` returns, without the floating-point kb field. */
  datatype TextStats = TextStats(characters: nat, words: nat, lines: nat, paragraphs: nat, bytes: nat)

  /** `get_text_stats` */
  function GetTextStats(text: string): (r: TextStats)
    ensures |text| == 0 ==> r == TextStats(0, 0, 0, 0, 0)
  {
    if |text| == 0 then TextStats(0, 0, 0, 0, 0)
    else TextStats(|text|, CountWords(text), CountLines(text), CountParagraphs(text), Utf8Length(text))
  }

  /** The statistics agree with each other: the byte count lies between one
      and four bytes a character, blank text has neither words nor
      paragraphs, and only empty text has no lines. */
  lemma TextStatsAgree(text: string)
    ensures GetTextStats(text).characters == |text|
    ensures GetTextStats(text).characters <= GetTextStats(text).bytes <= 4 * GetTextStats(text).characters
    ensures GetTextStats(text).words == 0 <==> IsBlank(text)
    ensures GetTextStats(text).paragraphs == 0 <==> IsBlank(text)
    ensures GetTextStats(text).lines == 0 <==> |text| == 0
  {
    if |text| > 0 {
      CountWordsBlank(text);
      CountParagraphsBlank(text);
      LinesNonEmpty(text);
    }
  }

  lemma LinesNonEmpty(text: string)
    requires |text| > 0
    ensures CountLines(text) > 0
  {
    CountLinesNewlines(text);
    if text[|text| - 1] == '\n' {
      assert text == text[..|text| - 1] + [text[|text| - 1]];
      OccurrencesConcat(text[..|text| - 1], [text[|text| - 1]], '\n');
    }
  }

  // ---------------------------------------------------------------------
  // detect_file_type, extension and empty branches

  /** `filename.split('.')[-1].lower()` */
  function Extension(filename: string): string
  {
    var pieces := SplitOn(filename, ".");
    LowerAscii(pieces[|pieces| - 1])
  }

  const KnownExtensions: seq<string> := ["json", "txt", "md", "markdown"]

  /** `detect_file_type`: a known extension of a non-empty file name decides,
      with "markdown" reported as "md"; otherwise blank content is "txt".
      The JSON and Markdown sniffing of other content is passed in as
      `sniffed`. */
  function DetectFileType(content: string, filename: string, sniffed: string): (r: string)
    ensures |filename| > 0 && Extension(filename) in KnownExtensions ==>
              r == (if Extension(filename) == "markdown" then "md" else Extension(filename))
    ensures (|filename| == 0 || Extension(filename) !in KnownExtensions) ==>
              r == (if IsBlank(content) then "txt" else sniffed)
  {
    if |filename| > 0 && Extension(filename) in KnownExtensions then
      if Extension(filename) == "markdown" then "md" else Extension(filename)
    else if |content| == 0 || Strip(content) == [] then "txt"
    else sniffed
  }

  /** The piece after the last dot. */
  lemma {:induction false} LastPiece(a: string, b: string)
    requires '.' !in b
    ensures var ps := SplitOn(a + "." + b, "."); ps[|ps| - 1] == b
    decreases |a|
  {
    var s := a + "." + b;
    var i := IndexOf(s, ".");
    assert s[|a|..|a| + 1] == ".";
    assert At(s, |a|, ".");
    assert 0 <= i <= |a|;
    if i < |a| {
      assert s[i + 1..] == a[i + 1..] + "." + b;
      LastPiece(a[i + 1..], b);
    } else {
      assert s[i + 1..] == b;
      AtDot(b, IndexOf(b, "."));
    }
  }

  lemma AtDot(s: string, i: int)
    ensures At(s, i, ".") <==> 0 <= i < |s| && s[i] == '.'
  {
    if 0 <= i < |s| && s[i] == '.' {
      assert s[i..i + 1] == ".";
    }
  }

  /** A file named `base.ext` with a known extension (in any letter case)
      is typed by that extension, whatever its content. */
  lemma ExtensionWins(base: string, ext: string, content: string, sniffed: string)
    requires '.' !in ext && LowerAscii(ext) in KnownExtensions
    ensures DetectFileType(content, base + "." + ext, sniffed) ==
              (if LowerAscii(ext) == "markdown" then "md" else LowerAscii(ext))
  {
    LastPiece(base, ext);
    assert Extension(base + "." + ext) == LowerAscii(ext);
  }

  // ---------------------------------------------------------------------
  // add_to_undo_stack

  /** MAX_UNDO_STACK_SIZE (src/config.py) */
  const MaxUndoStackSize := 3

  /** No two neighbours are equal. */
  predicate NoAdjacentRepeat(xs: seq<string>)
  {
    forall k :: 0 < k < |xs| ==> xs[k - 1] != xs[k]
  }

  /** The stack after `add_to_undo_stack(content)`. */
  function Pushed(items: seq<string>, content: string, capacity: nat): (r: seq<string>)
    ensures |items| > 0 && items[|items| - 1] == content ==> r == items
    ensures capacity >= 1 ==> |r| > 0 && r[|r| - 1] == content
    ensures |items| <= capacity ==> |r| <= capacity
    ensures NoAdjacentRepeat(items) ==> NoAdjacentRepeat(r)
  {
    if |items| > 0 && items[|items| - 1] == content then items
    else
      var grown := items + [content];
      if |grown| > capacity then grown[1..] else grown
  }

  /** Below the new top sits the old stack, less its oldest entry when the
      stack was full. */
  lemma PushedBelowTop(items: seq<string>, content: string, capacity: nat)
    requires 1 <= capacity && |items| <= capacity
    requires |items| == 0 || items[|items| - 1] != content
    ensures var r := Pushed(items, content, capacity);
            r[..|r| - 1] == (if |items| == capacity then items[1..] else items)
  {
  }

  /** The undo history of the session. */
  class UndoStack {
    var items: seq<string>
    const capacity: nat

    predicate Valid()
      reads this
    {
      |items| <= capacity && NoAdjacentRepeat(items)
    }

    constructor (capacity: nat)
      ensures this.capacity == capacity && items == [] && Valid()
    {
      this.capacity := capacity;
      items := [];
    }

    /** `add_to_undo_stack` */
    method Add(content: string)
      modifies this
      ensures items == Pushed(old(items), content, capacity)
      ensures old(Valid()) ==> Valid()
    {
      if |items| > 0 && items[|items| - 1] == content {
        return;
      }
      items := items + [content];
      if |items| > capacity {
        items := items[1..];
      }
    }

    /** `undo_stack.pop()` on a non-empty stack. */
    method Pop() returns (top: string)
      requires |items| > 0
      modifies this
      ensures top == old(items)[|old(items)| - 1] && items == old(items)[..|old(items)| - 1]
      ensures old(Valid()) ==> Valid()
    {
      top := items[|items| - 1];
      items := items[..|items| - 1];
    }
  }
}
