/** The Python string built-ins the modelled code relies on, restated over
    seq<char>. Whitespace is taken to be six characters (space, tab, line
    feed, carriage return, vertical tab, form feed); Python's isspace also
    counts the separators 0x1C-0x1F and further Unicode spaces. Line breaks
    are '\n' only. */
module PyStr {
  import opened Common

  predicate IsSpace(c: char)
  {
    c == ' ' || c == '\t' || c == '\n' || c == '\r' || c == '\U{0B}' || c == '\U{0C}'
  }

  /** `not s.strip()`: the string is empty or all whitespace. */
  predicate IsBlank(s: string)
  {
    forall i :: 0 <= i < |s| ==> IsSpace(s[i])
  }

  /** `s.strip()`: the input is a blank prefix, then the result, then a blank suffix. */
  function Strip(s: string): (r: string)
    ensures |r| <= |s|
    ensures r == [] || (!IsSpace(r[0]) && !IsSpace(r[|r| - 1]))
    ensures IsBlank(s) <==> r == []
    ensures var i := |s| - |StripLeft(s)|;
            IsBlank(s[..i]) && r <= s[i..] && IsBlank(s[i..][|r|..])
  {
    StripRight(StripLeft(s))
  }

  /** `s.lstrip()`: drops the leading whitespace, keeps the rest. */
  function StripLeft(s: string): (r: string)
    ensures |r| <= |s| && r == s[|s| - |r|..] && IsBlank(s[..|s| - |r|])
    ensures r == [] || !IsSpace(r[0])
  {
    if |s| > 0 && IsSpace(s[0]) then
      var r := StripLeft(s[1..]);
      StripLeftStep(s, r);
      r
    else
      assert s == s[0..];
      s
  }

  lemma StripLeftStep(s: string, r: string)
    requires |s| > 0 && IsSpace(s[0])
    requires |r| <= |s| - 1 && r == s[1..][|s| - 1 - |r|..] && IsBlank(s[1..][..|s| - 1 - |r|])
    ensures r == s[|s| - |r|..] && IsBlank(s[..|s| - |r|])
  {
    assert s[1..][|s| - 1 - |r|..] == s[|s| - |r|..];
    assert forall i :: 1 <= i < |s| - |r| ==> s[i] == s[1..][..|s| - 1 - |r|][i - 1];
  }

  /** `s.rstrip()`: drops the trailing whitespace, keeps the rest. */
  function StripRight(s: string): (r: string)
    ensures |r| <= |s| && r == s[..|r|] && IsBlank(s[|r|..])
    ensures r == [] || !IsSpace(r[|r| - 1])
  {
    if |s| > 0 && IsSpace(s[|s| - 1]) then
      var r := StripRight(s[..|s| - 1]);
      assert s[..|s| - 1][..|r|] == s[..|r|];
      assert forall i :: |r| <= i < |s| - 1 ==> s[i] == s[..|s| - 1][|r|..][i - |r|];
      r
    else
      assert s == s[..|s|];
      s
  }

  /** `s.lower()` on ASCII letters; other characters are left alone. */
  function LowerAscii(s: string): (r: string)
    ensures |r| == |s|
    ensures forall i :: 0 <= i < |s| ==> r[i] == LowerChar(s[i])
  {
    if |s| == 0 then [] else [LowerChar(s[0])] + LowerAscii(s[1..])
  }

  function LowerChar(c: char): char
  {
    if 'A' <= c <= 'Z' then (c as int - 'A' as int + 'a' as int) as char else c
  }

  /** Python's `s[:n]`, including the negative-index reading of n. */
  function PyPrefix(s: string, n: int): (r: string)
    ensures 0 <= n ==> r == s[..Min(n, |s|)]
    ensures n < 0 ==> r == s[..Max(0, |s| + n)]
  {
    if n >= 0 then s[..Min(n, |s|)] else s[..Max(0, |s| + n)]
  }

  /** Python's `s[a:b]` for non-negative bounds: clamped, empty when a >= b. */
  function PySlice(s: string, a: nat, b: nat): (r: string)
    ensures a <= b <= |s| ==> r == s[a..b]
    ensures b <= a ==> r == []
  {
    var hi := Min(b, |s|);
    if a >= hi then [] else s[a..hi]
  }

  /** Index of the first character of s that is in stops, or |s|. */
  function FirstOf(s: string, stops: set<char>): (n: nat)
    ensures n <= |s|
  {
    if |s| == 0 || s[0] in stops then 0 else 1 + FirstOf(s[1..], stops)
  }

  /** FirstOf stops at the first character of stops, and only there. */
  lemma {:induction false} FirstOfStops(s: string, stops: set<char>)
    ensures forall i :: 0 <= i < FirstOf(s, stops) ==> s[i] !in stops
    ensures FirstOf(s, stops) < |s| ==> s[FirstOf(s, stops)] in stops
  {
    if |s| > 0 && s[0] !in stops {
      FirstOfStops(s[1..], stops);
      forall i | 1 <= i < FirstOf(s, stops) ensures s[i] !in stops {
        assert s[i] == s[1..][i - 1];
      }
    }
  }

  /** The first position whose character is in stops, or |s|, is FirstOf. */
  lemma {:induction false} FirstOfExact(s: string, stops: set<char>, n: nat)
    requires n <= |s|
    requires forall m :: 0 <= m < n ==> s[m] !in stops
    requires n < |s| ==> s[n] in stops
    ensures FirstOf(s, stops) == n
  {
    if n > 0 {
      forall m | 0 <= m < n - 1 ensures s[1..][m] !in stops {
        assert s[1..][m] == s[m + 1];
      }
      FirstOfExact(s[1..], stops, n - 1);
    }
  }

  lemma {:induction false} FirstOfConcat(a: string, b: string, stops: set<char>)
    ensures FirstOf(a + b, stops) == if FirstOf(a, stops) < |a| then FirstOf(a, stops) else |a| + FirstOf(b, stops)
  {
    if |a| > 0 && a[0] !in stops {
      assert (a + b)[1..] == a[1..] + b;
      FirstOfConcat(a[1..], b, stops);
    } else if |a| == 0 {
      assert a + b == b;
    }
  }

  /** sub occurs in s at position i. */
  predicate At(s: string, i: int, sub: string)
  {
    0 <= i && i + |sub| <= |s| && s[i..i + |sub|] == sub
  }

  lemma AtNewline(s: string, i: int)
    ensures At(s, i, "\n") <==> 0 <= i < |s| && s[i] == '\n'
  {
    if 0 <= i < |s| && s[i] == '\n' {
      assert s[i..i + 1] == "\n";
    }
  }

  /** Index of the first occurrence of sub in s, or -1: `s.find(sub)`. */
  function IndexOf(s: string, sub: string): (r: int)
    requires |sub| > 0
    ensures r == -1 || 0 <= r <= |s| - |sub|
    ensures r >= 0 ==> At(s, r, sub)
    ensures forall i :: 0 <= i && (r < 0 || i < r) ==> !At(s, i, sub)
    decreases |s|
  {
    if |s| < |sub| then -1
    else if s[..|sub|] == sub then 0
    else
      var r := IndexOf(s[1..], sub);
      assert forall i :: 1 <= i ==> (At(s, i, sub) <==> At(s[1..], i - 1, sub)) by {
        forall i | 1 <= i ensures At(s, i, sub) <==> At(s[1..], i - 1, sub) {
          if i + |sub| <= |s| {
            TailSlice(s, i, |sub|);
          }
        }
      }
      if r < 0 then -1 else r + 1
  }

  /** A window of s past its first character is the same window of s[1..]. */
  lemma TailSlice(s: string, i: nat, n: nat)
    requires 1 <= i && i + n <= |s|
    ensures s[i..i + n] == s[1..][i - 1..i - 1 + n]
  {
    var t := s[1..];
    assert |t[i - 1..i - 1 + n]| == |s[i..i + n]|;
    assert forall k :: i <= k < i + n ==> t[k - 1] == s[k];
  }

  /** `sub in s` */
  predicate Contains(s: string, sub: string)
  {
    if |sub| == 0 then true else IndexOf(s, sub) >= 0
  }

  /** `s.split(sep)` for a non-empty separator. */
  function SplitOn(s: string, sep: string): (r: seq<string>)
    requires |sep| > 0
    ensures |r| >= 1
    decreases |s|
  {
    var i := IndexOf(s, sep);
    if i < 0 then [s] else [s[..i]] + SplitOn(s[i + |sep|..], sep)
  }

  /** `sep.join(xs)` */
  function Join(xs: seq<string>, sep: string): string
  {
    if |xs| == 0 then ""
    else if |xs| == 1 then xs[0]
    else xs[0] + sep + Join(xs[1..], sep)
  }

  /** Splitting a joined list on a newline gives the list back, provided no
      element holds a newline. */
  lemma {:induction false} SplitJoinNewline(xs: seq<string>)
    requires |xs| > 0
    requires forall k :: 0 <= k < |xs| ==> '\n' !in xs[k]
    ensures SplitOn(Join(xs, "\n"), "\n") == xs
  {
    var x := xs[0];
    if |xs| == 1 {
      forall i | 0 <= i ensures !At(x, i, "\n") {
        AtNewline(x, i);
      }
    } else {
      var rest := Join(xs[1..], "\n");
      assert Join(xs, "\n") == x + "\n" + rest;
      SplitFirstNewline(x, rest);
      SplitJoinNewline(xs[1..]);
      assert [x] + xs[1..] == xs;
    }
  }

  /** The first piece of x + "\n" + rest is x when x holds no newline. */
  lemma SplitFirstNewline(x: string, rest: string)
    requires '\n' !in x
    ensures SplitOn(x + "\n" + rest, "\n") == [x] + SplitOn(rest, "\n")
  {
    var s := x + "\n" + rest;
    forall i | 0 <= i <= |x| ensures At(s, i, "\n") <==> i == |x| {
      AtNewline(s, i);
      if i < |x| {
        assert s[i] == x[i];
      }
    }
    assert At(s, |x|, "\n");
    assert IndexOf(s, "\n") == |x|;
    assert s[..|x|] == x;
    assert s[|x| + 1..] == rest;
  }

  /** `s.splitlines()` when '\n' is the only line break: no trailing empty
      line for a final newline, and no lines at all for "". */
  function SplitLines(s: string): (r: seq<string>)
    ensures forall k :: 0 <= k < |r| ==> '\n' !in r[k]
  {
    if |s| == 0 then []
    else
      var parts := SplitOn(s, "\n");
      SplitPiecesHaveNoNewline(s);
      if s[|s| - 1] == '\n' then parts[..|parts| - 1] else parts
  }

  lemma {:induction false} SplitPiecesHaveNoNewline(s: string)
    ensures forall k :: 0 <= k < |SplitOn(s, "\n")| ==> '\n' !in SplitOn(s, "\n")[k]
    decreases |s|
  {
    var i := IndexOf(s, "\n");
    if i < 0 {
      forall j | 0 <= j < |s| ensures s[j] != '\n' {
        AtNewline(s, j);
      }
    } else {
      forall j | 0 <= j < i ensures s[j] != '\n' {
        AtNewline(s, j);
      }
      SplitPiecesHaveNoNewline(s[i + 1..]);
    }
  }

  /** `s.split()` with no separator: the maximal runs of non-whitespace. */
  function Words(s: string): (r: seq<string>)
    ensures forall k :: 0 <= k < |r| ==> |r[k]| > 0
    decreases |s|
  {
    var t := StripLeft(s);
    if |t| == 0 then []
    else
      var n := FirstNonWord(t);
      [t[..n]] + Words(t[n..])
  }

  function FirstNonWord(t: string): (n: nat)
    ensures n <= |t|
    ensures |t| > 0 && !IsSpace(t[0]) ==> n > 0
    ensures forall i :: 0 <= i < n ==> !IsSpace(t[i])
    ensures n < |t| ==> IsSpace(t[n])
  {
    if |t| == 0 || IsSpace(t[0]) then 0 else 1 + FirstNonWord(t[1..])
  }

  /** Number of positions where a word starts: a non-space character at the
      front or right after a space. An independent count of the words;
      `afterSpace` says whether the character before `s` was a space. */
  function WordStarts(s: string, afterSpace: bool): nat
  {
    if |s| == 0 then 0
    else (if afterSpace && !IsSpace(s[0]) then 1 else 0) + WordStarts(s[1..], IsSpace(s[0]))
  }

  function Repeat(c: char, n: int): (r: string)
    ensures |r| == Max(0, n)
    ensures forall i :: 0 <= i < |r| ==> r[i] == c
  {
    if n <= 0 then [] else [c] + Repeat(c, n - 1)
  }

  function Digit(d: nat): char
    requires d < 10
  {
    ('0' as int + d) as char
  }

  predicate IsDigits(s: string)
  {
    |s| > 0 && forall i :: 0 <= i < |s| ==> '0' <= s[i] <= '9'
  }

  /** Decimal value of a run of ASCII digits. */
  function DigitsValue(s: string): nat
  {
    if |s| == 0 then 0
    else
      var d := s[|s| - 1] as int - '0' as int;
      DigitsValue(s[..|s| - 1]) * 10 + (if 0 <= d then d else 0)
  }

  /** `str(n)` for a non-negative integer. */
  function NatToString(n: nat): (r: string)
    ensures IsDigits(r)
    ensures ']' !in r && '.' !in r && '[' !in r
  {
    if n < 10 then [Digit(n)] else NatToString(n / 10) + [Digit(n % 10)]
  }

  /** `str(i)` for any integer. */
  function IntToString(i: int): string
  {
    if i < 0 then "-" + NatToString(-i) else NatToString(i)
  }

  lemma {:induction false} DigitsValueOfNatToString(n: nat)
    ensures DigitsValue(NatToString(n)) == n
  {
    if n >= 10 {
      var s := NatToString(n);
      DigitsValueOfNatToString(n / 10);
      assert s[..|s| - 1] == NatToString(n / 10);
    }
  }

  /** Length in bytes of the UTF-8 encoding: `len(s.encode('utf-8'))`. */
  function Utf8Length(s: string): (n: nat)
    ensures |s| <= n <= 4 * |s|
  {
    if |s| == 0 then 0
    else
      var c := s[0] as int;
      (if c < 0x80 then 1 else if c < 0x800 then 2 else if c < 0x10000 then 3 else 4) + Utf8Length(s[1..])
  }
}
