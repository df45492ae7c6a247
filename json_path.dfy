/** The path language of the JSON viewer (src/viewer.py): the character-loop
    splitter and the walk of get_value_at_path, the pre-order listing of
    extract_all_paths, and the facts that tie them together. */
module JsonPath {
  import opened Common
  import opened PyStr
  import opened Json

  /** One component of a split path: a key name or a list index. */
  datatype PathPart = Name(name: string) | Index(index: nat)

  /** What get_value_at_path can raise: ValueError from the splitter (an
      unclosed bracket, or bracket text that is not a decimal number), then
      the KeyError, IndexError and TypeError of `current[part]`. */
  datatype PathError = UnclosedBracket | BadIndex | KeyError | IndexError | TypeError

  /** The characters that end a name in a path. */
  const NameStops: set<char> := {'.', '['}

  function Cons(p: PathPart, r: Result<seq<PathPart>, PathError>): Result<seq<PathPart>, PathError>
  {
    match r
    case Ok(ps) => Ok([p] + ps)
    case Err(e) => Err(e)
  }

  function PrefixWith(ps: seq<PathPart>, r: Result<seq<PathPart>, PathError>): Result<seq<PathPart>, PathError>
  {
    match r
    case Ok(qs) => Ok(ps + qs)
    case Err(e) => Err(e)
  }

  /** The path grammar, read from the front: a '.' separates and is dropped
      (so empty names vanish), a '[' opens a group that runs to the next ']'
      and must hold decimal digits, and any other run of characters up to the
      next '.' or '[' is a name. */
  function Parse(p: string): Result<seq<PathPart>, PathError>
    decreases |p|, 1
  {
    if |p| == 0 then Ok([])
    else if p[0] == '.' then Parse(p[1..])
    else if p[0] == '[' then ParseGroup(p)
    else ParseName(p)
  }

  /** A bracket group at the front of p, and what follows it. */
  function ParseGroup(p: string): Result<seq<PathPart>, PathError>
    requires |p| > 0
    decreases |p|, 0
  {
    var j := 1 + FirstOf(p[1..], {']'});
    if j == |p| then Err(UnclosedBracket)
    else if !IsDigits(p[1..j]) then Err(BadIndex)
    else Cons(Index(DigitsValue(p[1..j])), Parse(p[j + 1..]))
  }

  /** A name at the front of p, and what follows it. */
  function ParseName(p: string): Result<seq<PathPart>, PathError>
    requires |p| > 0 && p[0] !in NameStops
    decreases |p|, 0
  {
    var n := FirstOf(p, NameStops);
    Cons(Name(p[..n]), Parse(p[n..]))
  }

  /** `current[part]` in Python: dicts by key, lists and strings by index;
      an int on a dict is a missing key; anything else is not subscriptable. */
  function Select(v: Value, part: PathPart): (r: Result<Value, PathError>)
    ensures v.JObject? ==> (r.Ok? <==> part.Name? && Lookup(v.members, part.name).Some?)
    ensures v.JObject? && r.Err? ==> r.error == KeyError
    ensures v.JArray? ==> (r.Ok? <==> part.Index? && part.index < |v.items|)
    ensures v.JArray? && r.Ok? ==> r.value == v.items[part.index]
    ensures v.JArray? && r.Err? ==> r.error == (if part.Name? then TypeError else PathError.IndexError)
    ensures !v.JObject? && !v.JArray? && !v.JStr? ==> r == Err(TypeError)
  {
    match part
    case Name(k) =>
      (match v
       case JObject(ms) => (match Lookup(ms, k) case Some(w) => Ok(w) case None => Err(KeyError))
       case _ => Err(TypeError))
    case Index(i) =>
      (match v
       case JObject(_) => Err(KeyError)
       case JArray(xs) => if i < |xs| then Ok(xs[i]) else Err(PathError.IndexError)
       case JStr(s) => if i < |s| then Ok(JStr([s[i]])) else Err(PathError.IndexError)
       case _ => Err(TypeError))
  }

  /** The parts applied left to right, stopping at the first failure. */
  function Resolve(v: Value, parts: seq<PathPart>): Result<Value, PathError>
    decreases |parts|
  {
    if |parts| == 0 then Ok(v)
    else
      match Select(v, parts[0])
      case Ok(w) => Resolve(w, parts[1..])
      case Err(e) => Err(e)
  }

  /** What get_value_at_path returns or raises. */
  function ValueAtPath(data: Value, path: string): Result<Value, PathError>
  {
    if |path| == 0 then Ok(data)
    else
      match Parse(path)
      case Ok(parts) => Resolve(data, parts)
      case Err(e) => Err(e)
  }

  // ---------------------------------------------------------------------
  // The splitter and the walk, as the while loops of get_value_at_path.

  predicate NoStops(s: string)
  {
    forall c :: 0 <= c < |s| ==> s[c] !in NameStops
  }

  /** The parts to emit when a '.', a '[' or the end of the text closes
      the name being collected: that name, if there is one. */
  function Flushed(parts: seq<PathPart>, cur: string): seq<PathPart>
  {
    if |cur| > 0 then parts + [Name(cur)] else parts
  }

  /** The bracket group opened at position i: its index and the position of
      its ']', or why it is refused. */
  function Group(path: string, i: nat): (r: Result<(nat, nat), PathError>)
    requires i < |path|
    ensures r.Ok? ==> i < r.value.1 < |path| && path[r.value.1] == ']'
  {
    FirstOfStops(path[i + 1..], {']'});
    var j := i + 1 + FirstOf(path[i + 1..], {']'});
    if j == |path| then Err(UnclosedBracket)
    else if !IsDigits(path[i + 1..j]) then Err(BadIndex)
    else Ok((DigitsValue(path[i + 1..j]), j))
  }

  /** The splitter as a state machine over (position, name collected so far,
      parts emitted so far); it ends at the same result as Parse. */
  function SplitFrom(path: string, i: nat, cur: string, parts: seq<PathPart>): Result<seq<PathPart>, PathError>
    requires i <= |path|
    decreases |path| - i
  {
    if i == |path| then Ok(Flushed(parts, cur))
    else if path[i] == '.' then SplitFrom(path, i + 1, "", Flushed(parts, cur))
    else if path[i] == '[' then
      match Group(path, i)
      case Err(e) => Err(e)
      case Ok((index, j)) => SplitFrom(path, j + 1, "", Flushed(parts, cur) + [Index(index)])
    else SplitFrom(path, i + 1, cur + [path[i]], parts)
  }

  /** The component-splitting loop of get_value_at_path. */
  method SplitPath(path: string) returns (r: Result<seq<PathPart>, PathError>)
    ensures r == Parse(path)
  {
    var parts: seq<PathPart> := [];
    var currentPart := "";
    var i := 0;
    SplitFromParse(path, 0, 0, "", []);
    PrefixWithEmpty(Parse(path));
    assert path[0..] == path;
    ghost var goal := Parse(path);
    while i < |path|
      invariant 0 <= i <= |path|
      invariant goal == SplitFrom(path, i, currentPart, parts)
    {
      if path[i] == '.' {
        if |currentPart| > 0 {
          parts := parts + [Name(currentPart)];
          currentPart := "";
        }
      } else if path[i] == '[' {
        if |currentPart| > 0 {
          parts := parts + [Name(currentPart)];
          currentPart := "";
        }
        var group := ReadGroup(path, i);
        if group.Err? {
          return Err(group.error);
        }
        var (index, j) := group.value;
        parts := parts + [Index(index)];
        i := j;
      } else {
        currentPart := currentPart + [path[i]];
      }
      i := i + 1;
    }
    if |currentPart| > 0 {
      parts := parts + [Name(currentPart)];
    }
    r := Ok(parts);
  }

  /** The bracket branch of the splitting loop: scan from the '[' at i to
      the next ']' and read the digits between them. */
  method ReadGroup(path: string, i: nat) returns (r: Result<(nat, nat), PathError>)
    requires i < |path| && path[i] == '['
    ensures r == Group(path, i)
  {
    var j := i + 1;
    while j < |path| && path[j] != ']'
      invariant i + 1 <= j <= |path|
      invariant forall m :: i + 1 <= m < j ==> path[m] != ']'
    {
      j := j + 1;
    }
    FirstOfExact(path[i + 1..], {']'}, j - i - 1);
    if j < |path| {
      var digits := path[i + 1..j];
      if !IsDigits(digits) {
        return Err(BadIndex);
      }
      return Ok((DigitsValue(digits), j));
    } else {
      return Err(UnclosedBracket);
    }
  }

  /** `cur` is the name collected from path[start..i]. */
  predicate Collected(path: string, start: nat, i: nat, cur: string)
  {
    start <= i <= |path| && path[start..i] == cur && NoStops(cur)
  }

  /** The state machine, started after `cur` was collected from
      path[start..i], parses the rest of the text as Parse does. */
  lemma {:induction false} SplitFromParse(path: string, start: nat, i: nat, cur: string, parts: seq<PathPart>)
    requires Collected(path, start, i, cur)
    ensures SplitFrom(path, i, cur, parts) == PrefixWith(parts, Parse(path[start..]))
    decreases |path| - i, 2
  {
    if i == |path| {
      AtEnd(path, start, cur, parts);
    } else if path[i] == '.' {
      AtDot(path, start, i, cur, parts);
    } else if path[i] == '[' {
      AtGroup(path, start, i, cur, parts);
    } else {
      AtNameChar(path, start, i, cur, parts);
    }
  }

  lemma AtEnd(path: string, start: nat, cur: string, parts: seq<PathPart>)
    requires start <= |path| && path[start..|path|] == cur && NoStops(cur)
    ensures SplitFrom(path, |path|, cur, parts) == PrefixWith(parts, Parse(path[start..]))
  {
    FlushAt(path, start, |path|, cur, parts);
    assert path[|path|..] == [];
    EmptyParse();
    assert Flushed(parts, cur) + [] == Flushed(parts, cur);
  }

  lemma {:induction false} AtDot(path: string, start: nat, i: nat, cur: string, parts: seq<PathPart>)
    requires Collected(path, start, i, cur) && i < |path| && path[i] == '.'
    ensures SplitFrom(path, i, cur, parts) == PrefixWith(parts, Parse(path[start..]))
    decreases |path| - i, 0
  {
    assert path[i + 1..i + 1] == [];
    SplitFromParse(path, i + 1, i + 1, "", Flushed(parts, cur));
    DotStep(path, start, i, cur, parts);
  }

  lemma DotStep(path: string, start: nat, i: nat, cur: string, parts: seq<PathPart>)
    requires Collected(path, start, i, cur) && i < |path| && path[i] == '.'
    requires SplitFrom(path, i + 1, "", Flushed(parts, cur)) == PrefixWith(Flushed(parts, cur), Parse(path[i + 1..]))
    ensures SplitFrom(path, i, cur, parts) == PrefixWith(parts, Parse(path[start..]))
  {
    FlushAt(path, start, i, cur, parts);
    DropDot(path, i);
  }

  lemma {:induction false} AtGroup(path: string, start: nat, i: nat, cur: string, parts: seq<PathPart>)
    requires Collected(path, start, i, cur) && i < |path| && path[i] == '['
    ensures SplitFrom(path, i, cur, parts) == PrefixWith(parts, Parse(path[start..]))
    decreases |path| - i, 1
  {
    match Group(path, i)
    case Ok((index, j)) =>
      AtGroupOk(path, start, i, cur, parts, index, j);
    case Err(_) =>
      GroupErrorStep(path, start, i, cur, parts);
  }

  lemma {:induction false} AtGroupOk(path: string, start: nat, i: nat, cur: string, parts: seq<PathPart>, index: nat, j: nat)
    requires Collected(path, start, i, cur) && i < |path| && path[i] == '['
    requires Group(path, i) == Ok((index, j))
    ensures SplitFrom(path, i, cur, parts) == PrefixWith(parts, Parse(path[start..]))
    decreases |path| - i, 0
  {
    GroupNext(path, i, index, j);
    SplitFromParse(path, j + 1, j + 1, "", Flushed(parts, cur) + [Index(index)]);
    GroupStep(path, start, i, cur, parts, index, j);
  }

  lemma GroupErrorStep(path: string, start: nat, i: nat, cur: string, parts: seq<PathPart>)
    requires Collected(path, start, i, cur) && i < |path| && path[i] == '['
    requires Group(path, i).Err?
    ensures SplitFrom(path, i, cur, parts) == PrefixWith(parts, Parse(path[start..]))
  {
    FlushAt(path, start, i, cur, parts);
    GroupParse(path, i);
  }

  /** The text after a bracket group is where the splitter starts afresh. */
  lemma GroupNext(path: string, i: nat, index: nat, j: nat)
    requires i < |path| && Group(path, i) == Ok((index, j))
    ensures i < j + 1 <= |path| && Collected(path, j + 1, j + 1, "")
  {
    assert path[j + 1..j + 1] == [];
  }

  /** One bracket group: both sides move past it by the same Index part. */
  lemma GroupStep(path: string, start: nat, i: nat, cur: string, parts: seq<PathPart>, index: nat, j: nat)
    requires Collected(path, start, i, cur) && i < |path| && path[i] == '['
    requires Group(path, i) == Ok((index, j))
    requires var next := Flushed(parts, cur) + [Index(index)];
             j + 1 <= |path| && SplitFrom(path, j + 1, "", next) == PrefixWith(next, Parse(path[j + 1..]))
    ensures SplitFrom(path, i, cur, parts) == PrefixWith(parts, Parse(path[start..]))
  {
    FlushAt(path, start, i, cur, parts);
    GroupParse(path, i);
    PrefixStep(Flushed(parts, cur), Index(index), Parse(path[j + 1..]));
  }

  lemma {:induction false} AtNameChar(path: string, start: nat, i: nat, cur: string, parts: seq<PathPart>)
    requires Collected(path, start, i, cur) && i < |path| && path[i] !in NameStops
    ensures SplitFrom(path, i, cur, parts) == PrefixWith(parts, Parse(path[start..]))
    decreases |path| - i, 0
  {
    assert path[start..i + 1] == cur + [path[i]];
    SplitFromParse(path, start, i + 1, cur + [path[i]], parts);
  }

  /** At a '.', a '[' or the end, what remains after the collected name is
      the rest of the text. */
  lemma FlushAt(path: string, start: nat, i: nat, cur: string, parts: seq<PathPart>)
    requires Collected(path, start, i, cur)
    requires i == |path| || path[i] in NameStops
    ensures PrefixWith(parts, Parse(path[start..])) == PrefixWith(Flushed(parts, cur), Parse(path[i..]))
  {
    if |cur| > 0 {
      NameAt(path, i, cur);
      PrefixStep(parts, Name(cur), Parse(path[i..]));
    }
  }

  /** Group agrees with the bracket branch of Parse. */
  lemma GroupParse(path: string, i: nat)
    requires i < |path| && path[i] == '['
    ensures Group(path, i).Err? ==> Parse(path[i..]) == Err(Group(path, i).error)
    ensures Group(path, i).Ok? ==>
      Parse(path[i..]) == Cons(Index(Group(path, i).value.0), Parse(path[Group(path, i).value.1 + 1..]))
  {
    var p := path[i..];
    var j := i + 1 + FirstOf(path[i + 1..], {']'});
    assert p[1..] == path[i + 1..];
    assert p[1..j - i] == path[i + 1..j];
    assert j < |path| ==> p[j - i + 1..] == path[j + 1..];
    assert Parse(p) == ParseGroup(p);
  }

  lemma EmptyParse()
    ensures Parse([]) == Ok([])
  {
  }

  lemma PrefixWithEmpty(r: Result<seq<PathPart>, PathError>)
    ensures PrefixWith([], r) == r
  {
    if r.Ok? {
      assert [] + r.value == r.value;
    }
  }

  lemma PrefixStep(parts: seq<PathPart>, x: PathPart, r: Result<seq<PathPart>, PathError>)
    ensures PrefixWith(parts, Cons(x, r)) == PrefixWith(parts + [x], r)
  {
    if r.Ok? {
      assert parts + ([x] + r.value) == parts + [x] + r.value;
    }
  }

  lemma DropDot(path: string, i: nat)
    requires i < |path| && path[i] == '.'
    ensures Parse(path[i..]) == Parse(path[i + 1..])
  {
    assert path[i..][1..] == path[i + 1..];
  }

  /** A clean name that the splitter has collected ends where a '.', a '['
      or the end of the text follows it. */
  lemma NameAt(path: string, i: nat, cur: string)
    requires |cur| <= i <= |path| && path[i - |cur|..i] == cur
    requires |cur| > 0 && NoStops(cur)
    requires i == |path| || path[i] in NameStops
    ensures Parse(path[i - |cur|..]) == Cons(Name(cur), Parse(path[i..]))
  {
    assert path[i - |cur|..] == cur + path[i..];
    NameThen(cur, path[i..]);
  }

  /** A clean name followed by the end or by a '.' or '[' parses as that
      name and then the rest. */
  lemma NameThen(k: string, s: string)
    requires |k| > 0 && forall c :: 0 <= c < |k| ==> k[c] !in NameStops
    requires s == [] || s[0] in NameStops
    ensures Parse(k + s) == Cons(Name(k), Parse(s))
  {
    FirstOfConcat(k, s, NameStops);
    FirstOfExact(k, NameStops, |k|);
    assert (k + s)[0] == k[0];
    assert Parse(k + s) == ParseName(k + s);
    assert (k + s)[..|k|] == k && (k + s)[|k|..] == s;
  }

  /** The navigation loop of get_value_at_path. */
  method GetValueAtPath(data: Value, path: string) returns (r: Result<Value, PathError>)
    ensures r == ValueAtPath(data, path)
    ensures path == "" ==> r == Ok(data)
  {
    if |path| == 0 {
      return Ok(data);
    }
    var split := SplitPath(path);
    if split.Err? {
      return Err(split.error);
    }
    var parts := split.value;
    var current := data;
    var k := 0;
    while k < |parts|
      invariant 0 <= k <= |parts|
      invariant Resolve(data, parts) == Resolve(current, parts[k..])
    {
      assert parts[k..][0] == parts[k] && parts[k..][1..] == parts[k + 1..];
      var step := Select(current, parts[k]);
      if step.Err? {
        return Err(step.error);
      }
      current := step.value;
      k := k + 1;
    }
    assert parts[k..] == [];
    return Ok(current);
  }

  // ---------------------------------------------------------------------
  // Facts about parsing and resolution.

  /** Resolving a concatenated path resolves the first half, then the second
      from where the first one ended. */
  lemma {:induction false} ResolveConcat(v: Value, p: seq<PathPart>, q: seq<PathPart>)
    ensures Resolve(v, p + q) == match Resolve(v, p) case Ok(w) => Resolve(w, q) case Err(e) => Err(e)
    decreases |p|
  {
    if |p| == 0 {
      assert p + q == q;
    } else {
      assert (p + q)[0] == p[0] && (p + q)[1..] == p[1..] + q;
      match Select(v, p[0])
      case Ok(w) => ResolveConcat(w, p[1..], q);
      case Err(_) =>
    }
  }

  /** A path that parses can be extended by text starting with '.' or '['
      without disturbing the parts already read. */
  lemma {:induction false} ParseConcat(a: string, b: string)
    requires Parse(a).Ok?
    requires b == [] || b[0] in NameStops
    ensures Parse(a + b) == PrefixWith(Parse(a).value, Parse(b))
    decreases |a|
  {
    if |a| == 0 {
      assert a + b == b;
      PrefixWithEmpty(Parse(b));
    } else if a[0] == '.' {
      assert (a + b)[1..] == a[1..] + b;
      ParseConcat(a[1..], b);
    } else if a[0] == '[' {
      var j := GroupFront(a, b);
      ParseConcat(a[j + 1..], b);
      ConsPrefix(Index(DigitsValue(a[1..j])), Parse(a[j + 1..]), Parse(b));
    } else {
      var n := NameFront(a, b);
      ParseConcat(a[n..], b);
      ConsPrefix(Name(a[..n]), Parse(a[n..]), Parse(b));
    }
  }

  /** Empty names vanish: a doubled dot reads as one, and a leading dot
      is dropped. */
  lemma DotsDropped(a: string, b: string)
    requires Parse(a).Ok?
    ensures Parse(a + ".." + b) == Parse(a + "." + b)
    ensures Parse("." + b) == Parse(b)
  {
    assert ("." + b)[1..] == b;
    assert (".." + b)[1..] == "." + b;
    assert a + ".." + b == a + (".." + b);
    assert a + "." + b == a + ("." + b);
    ParseConcat(a, ".." + b);
    ParseConcat(a, "." + b);
  }

  /** A '[' that no ']' follows is refused, whatever parsed before it. */
  lemma UnclosedBracketRefused(a: string, b: string)
    requires Parse(a).Ok? && ']' !in b
    ensures Parse(a + "[" + b) == Err(UnclosedBracket)
  {
    var g := "[" + b;
    assert g[1..] == b;
    FirstOfExact(b, {']'}, |b|);
    assert Parse(g) == ParseGroup(g);
    assert a + "[" + b == a + g;
    ParseConcat(a, g);
  }

  /** A path such as "items[0].id": a name, an index and a name read back
      as those three parts. */
  lemma NameIndexName(k: string, i: nat, m: string)
    requires CleanName(k) && CleanName(m)
    ensures Parse(k + "[" + NatToString(i) + "]." + m) == Ok([Name(k), Index(i), Name(m)])
  {
    var g := "[" + NatToString(i) + "]." + m;
    assert k + "[" + NatToString(i) + "]." + m == k + g;
    IndexThenName(i, m);
    NameBeforeGroup(k, g, [Index(i), Name(m)]);
    assert [Name(k)] + [Index(i), Name(m)] == [Name(k), Index(i), Name(m)];
  }

  lemma NameBeforeGroup(k: string, g: string, t: seq<PathPart>)
    requires CleanName(k) && |g| > 0 && g[0] == '[' && Parse(g) == Ok(t)
    ensures Parse(k + g) == Ok([Name(k)] + t)
  {
    NameThen(k, g);
  }

  lemma IndexThenName(i: nat, m: string)
    requires CleanName(m)
    ensures Parse("[" + NatToString(i) + "]." + m) == Ok([Index(i), Name(m)])
  {
    var dm := "." + m;
    DotNameAlone(m);
    IndexSegment(i, dm);
    assert "[" + NatToString(i) + "]" + dm == "[" + NatToString(i) + "]." + m;
    assert [Index(i)] + [Name(m)] == [Index(i), Name(m)];
  }

  lemma DotNameAlone(m: string)
    requires CleanName(m)
    ensures Parse("." + m) == Ok([Name(m)])
  {
    var e: string := [];
    assert Parse(e) == Ok([]);
    DotName(m, e, []);
    assert "." + m + e == "." + m;
    assert [Name(m)] + [] == [Name(m)];
  }

  lemma ConsPrefix(x: PathPart, ra: Result<seq<PathPart>, PathError>, rb: Result<seq<PathPart>, PathError>)
    requires ra.Ok?
    ensures Cons(x, PrefixWith(ra.value, rb)) == PrefixWith(Cons(x, ra).value, rb)
  {
    if rb.Ok? {
      assert [x] + (ra.value + rb.value) == [x] + ra.value + rb.value;
    }
  }

  /** A bracket group at the front of a parseable text is read the same
      way when more text follows. */
  lemma GroupFront(a: string, b: string) returns (j: nat)
    requires |a| > 0 && a[0] == '[' && Parse(a).Ok?
    ensures j == 1 + FirstOf(a[1..], {']'}) && j < |a|
    ensures Parse(a) == Cons(Index(DigitsValue(a[1..j])), Parse(a[j + 1..]))
    ensures Parse(a + b) == Cons(Index(DigitsValue(a[1..j])), Parse(a[j + 1..] + b))
    ensures Parse(a[j + 1..]).Ok?
  {
    j := 1 + FirstOf(a[1..], {']'});
    assert Parse(a) == ParseGroup(a);
    assert (a + b)[1..] == a[1..] + b;
    FirstOfConcat(a[1..], b, {']'});
    assert (a + b)[1..j] == a[1..j];
    assert (a + b)[j + 1..] == a[j + 1..] + b;
    assert Parse(a + b) == ParseGroup(a + b);
  }

  /** A name at the front of a parseable text ends at the same place when
      the text that follows starts with '.' or '['. */
  lemma NameFront(a: string, b: string) returns (n: nat)
    requires |a| > 0 && a[0] != '.' && a[0] != '['
    requires b == [] || b[0] in NameStops
    ensures 0 < n <= |a| && n == FirstOf(a, NameStops)
    ensures Parse(a) == Cons(Name(a[..n]), Parse(a[n..]))
    ensures Parse(a + b) == Cons(Name(a[..n]), Parse(a[n..] + b))
  {
    n := FirstOf(a, NameStops);
    assert Parse(a) == ParseName(a);
    FirstOfConcat(a, b, NameStops);
    assert (a + b)[0] == a[0];
    assert (a + b)[..n] == a[..n];
    assert (a + b)[n..] == a[n..] + b;
    assert Parse(a + b) == ParseName(a + b);
  }

  // ---------------------------------------------------------------------
  // Writing parts back as text.

  /** A name that survives a round trip through the path grammar. */
  predicate CleanName(k: string)
  {
    |k| > 0 && forall c :: 0 <= c < |k| ==> k[c] !in NameStops
  }

  predicate CleanParts(ps: seq<PathPart>)
  {
    forall i :: 0 <= i < |ps| && ps[i].Name? ==> CleanName(ps[i].name)
  }

  /** One part as text: `[i]` for an index, the bare name when it comes
      first, `.name` otherwise. */
  function Segment(part: PathPart, first: bool): string
  {
    match part
    case Index(i) => "[" + NatToString(i) + "]"
    case Name(k) => if first then k else "." + k
  }

  function DottedTail(ps: seq<PathPart>): string
  {
    if |ps| == 0 then "" else Segment(ps[0], false) + DottedTail(ps[1..])
  }

  /** The parts written in the path grammar, first name bare. */
  function Unparse(ps: seq<PathPart>): string
  {
    if |ps| == 0 then "" else Segment(ps[0], true) + DottedTail(ps[1..])
  }

  lemma IndexSegment(i: nat, rest: string)
    ensures Parse("[" + NatToString(i) + "]" + rest) == Cons(Index(i), Parse(rest))
  {
    var d := NatToString(i);
    var p := "[" + d + "]" + rest;
    assert p[1..] == d + ("]" + rest);
    FirstOfConcat(d, "]" + rest, {']'});
    FirstOfExact(d, {']'}, |d|);
    assert p[1..1 + |d|] == d;
    assert p[|d| + 2..] == rest;
    DigitsValueOfNatToString(i);
  }

  lemma {:induction false} ParseDottedTail(ps: seq<PathPart>)
    requires CleanParts(ps)
    ensures Parse(DottedTail(ps)) == Ok(ps)
    decreases |ps|, 1
  {
    if |ps| == 0 {
      EmptyParse();
    } else if ps[0].Index? {
      DottedIndex(ps);
    } else {
      DottedName(ps);
    }
  }

  lemma {:induction false} DottedIndex(ps: seq<PathPart>)
    requires |ps| > 0 && ps[0].Index? && CleanParts(ps)
    ensures Parse(DottedTail(ps)) == Ok(ps)
    decreases |ps|, 0
  {
    CleanTail(ps);
    ParseDottedTail(ps[1..]);
    IndexSegment(ps[0].index, DottedTail(ps[1..]));
    assert [ps[0]] + ps[1..] == ps;
  }

  lemma {:induction false} DottedName(ps: seq<PathPart>)
    requires |ps| > 0 && ps[0].Name? && CleanParts(ps)
    ensures Parse(DottedTail(ps)) == Ok(ps)
    decreases |ps|, 0
  {
    var rest := DottedTail(ps[1..]);
    assert DottedTail(ps) == "." + ps[0].name + rest;
    CleanTail(ps);
    ParseDottedTail(ps[1..]);
    DottedTailStart(ps[1..]);
    DotName(ps[0].name, rest, ps[1..]);
    assert [ps[0]] + ps[1..] == ps;
  }

  /** A '.' and a clean name in front of a parsed text add that name. */
  lemma DotName(k: string, rest: string, tail: seq<PathPart>)
    requires CleanName(k) && (rest == [] || rest[0] in NameStops)
    requires Parse(rest) == Ok(tail)
    ensures Parse("." + k + rest) == Ok([Name(k)] + tail)
  {
    NameThen(k, rest);
    var p := "." + k + rest;
    assert p[1..] == k + rest;
  }

  lemma CleanTail(ps: seq<PathPart>)
    requires |ps| > 0 && CleanParts(ps)
    ensures CleanParts(ps[1..])
  {
    forall i | 0 <= i < |ps[1..]| && ps[1..][i].Name? ensures CleanName(ps[1..][i].name) {
      assert ps[1..][i] == ps[i + 1];
    }
  }

  lemma DottedTailStart(ps: seq<PathPart>)
    ensures DottedTail(ps) == [] || DottedTail(ps)[0] in NameStops
  {
  }

  /** Writing non-empty clean parts and parsing the text gives them back. */
  lemma ParseUnparse(ps: seq<PathPart>)
    requires |ps| > 0 && CleanParts(ps)
    ensures Parse(Unparse(ps)) == Ok(ps)
  {
    if ps[0].Index? {
      assert Unparse(ps) == DottedTail(ps);
      ParseDottedTail(ps);
    } else {
      var rest := DottedTail(ps[1..]);
      assert Unparse(ps) == ps[0].name + rest;
      CleanTail(ps);
      ParseDottedTail(ps[1..]);
      DottedTailStart(ps[1..]);
      NameThen(ps[0].name, rest);
      assert [ps[0]] + ps[1..] == ps;
    }
  }

  // ---------------------------------------------------------------------
  // extract_all_paths

  /** The path of a child: `path.key` (or the bare key when the path is
      empty) and `path[i]`. */
  function ChildPath(prefix: string, part: PathPart): string
  {
    match part
    case Name(k) => if |prefix| > 0 then prefix + "." + k else k
    case Index(i) => prefix + "[" + NatToString(i) + "]"
  }

  /** The paths extract_all_paths lists under `prefix`, in pre-order. */
  function AllPaths(v: Value, prefix: string): seq<string>
    decreases v, 0
  {
    match v
    case JObject(ms) =>
      Flatten(seq(|ms|, i requires 0 <= i < |ms| => PathsFrom(ms[i].1, ChildPath(prefix, Name(ms[i].0)))))
    case JArray(xs) =>
      Flatten(seq(|xs|, i requires 0 <= i < |xs| => PathsFrom(xs[i], ChildPath(prefix, Index(i)))))
    case _ => []
  }

  /** A child's own path followed by the paths below it. */
  function PathsFrom(child: Value, path: string): seq<string>
    decreases child, 1
  {
    [path] + (if IsContainer(child) then AllPaths(child, path) else [])
  }

  /** extract_all_paths: objects and lists are walked by the loops below,
      scalars contribute no paths. */
  method ExtractAllPaths(data: Value, currentPath: string) returns (paths: seq<string>)
    ensures paths == AllPaths(data, currentPath)
    decreases data, 1
  {
    if data.JObject? {
      paths := ExtractMemberPaths(data, currentPath);
    } else if data.JArray? {
      paths := ExtractItemPaths(data, currentPath);
    } else {
      paths := [];
    }
  }

  /** The dict branch of extract_all_paths: append each key's path, then
      extend with the paths below it when the value is a container. */
  method ExtractMemberPaths(data: Value, currentPath: string) returns (paths: seq<string>)
    requires data.JObject?
    ensures paths == AllPaths(data, currentPath)
    decreases data, 0
  {
    var ms := data.members;
    ghost var blocks := seq(|ms|, i requires 0 <= i < |ms| => PathsFrom(ms[i].1, ChildPath(currentPath, Name(ms[i].0))));
    paths := [];
    for k := 0 to |ms|
      invariant paths == Flatten(blocks[..k])
    {
      var key := ms[k].0;
      var newPath := if |currentPath| > 0 then currentPath + "." + key else key;
      assert newPath == ChildPath(currentPath, Name(key));
      var below: seq<string> := [];
      if IsContainer(ms[k].1) {
        below := ExtractAllPaths(ms[k].1, newPath);
      }
      FlattenSnoc(blocks, k);
      paths := paths + ([newPath] + below);
    }
    assert blocks[..|ms|] == blocks;
  }

  /** The list branch of extract_all_paths, indices in order. */
  method ExtractItemPaths(data: Value, currentPath: string) returns (paths: seq<string>)
    requires data.JArray?
    ensures paths == AllPaths(data, currentPath)
    decreases data, 0
  {
    var xs := data.items;
    ghost var blocks := seq(|xs|, i requires 0 <= i < |xs| => PathsFrom(xs[i], ChildPath(currentPath, Index(i))));
    paths := [];
    for k := 0 to |xs|
      invariant paths == Flatten(blocks[..k])
    {
      var newPath := currentPath + "[" + NatToString(k) + "]";
      assert newPath == ChildPath(currentPath, Index(k));
      var below: seq<string> := [];
      if IsContainer(xs[k]) {
        below := ExtractAllPaths(xs[k], newPath);
      }
      FlattenSnoc(blocks, k);
      paths := paths + ([newPath] + below);
    }
    assert blocks[..|xs|] == blocks;
  }

  /** The structural positions of a tree in pre-order: each child's part,
      then the positions below that child, children in key or index order. */
  function StructPaths(v: Value): seq<seq<PathPart>>
    decreases v, 0
  {
    match v
    case JObject(ms) => Flatten(seq(|ms|, i requires 0 <= i < |ms| => Under(Name(ms[i].0), ms[i].1)))
    case JArray(xs) => Flatten(seq(|xs|, i requires 0 <= i < |xs| => Under(Index(i), xs[i])))
    case _ => []
  }

  function Under(part: PathPart, child: Value): seq<seq<PathPart>>
    decreases child, 1
  {
    var below := StructPaths(child);
    [[part]] + seq(|below|, j requires 0 <= j < |below| => [part] + below[j])
  }

  /** The text path reached from prefix by following parts, one ChildPath
      step at a time. */
  function Fold(prefix: string, parts: seq<PathPart>): string
    decreases |parts|
  {
    if |parts| == 0 then prefix else Fold(ChildPath(prefix, parts[0]), parts[1..])
  }

  /** The k-th listed path is the text of the k-th structural position. */
  lemma {:induction false} PathsFollowStructure(v: Value, prefix: string)
    ensures |AllPaths(v, prefix)| == |StructPaths(v)|
    ensures forall k :: 0 <= k < |AllPaths(v, prefix)| ==> AllPaths(v, prefix)[k] == Fold(prefix, StructPaths(v)[k])
    decreases v, 0
  {
    var f := (ps: seq<PathPart>) => Fold(prefix, ps);
    match v
    case JObject(ms) =>
      var xs := seq(|ms|, i requires 0 <= i < |ms| => PathsFrom(ms[i].1, ChildPath(prefix, Name(ms[i].0))));
      var ys := seq(|ms|, i requires 0 <= i < |ms| => Under(Name(ms[i].0), ms[i].1));
      forall m | 0 <= m < |ms|
        ensures |xs[m]| == |ys[m]|
        ensures forall t :: 0 <= t < |xs[m]| ==> xs[m][t] == f(ys[m][t])
      {
        UnderFollows(Name(ms[m].0), ms[m].1, prefix);
      }
      FlattenPointwise(xs, ys, f);
    case JArray(items) =>
      var xs := seq(|items|, i requires 0 <= i < |items| => PathsFrom(items[i], ChildPath(prefix, Index(i))));
      var ys := seq(|items|, i requires 0 <= i < |items| => Under(Index(i), items[i]));
      forall m | 0 <= m < |items|
        ensures |xs[m]| == |ys[m]|
        ensures forall t :: 0 <= t < |xs[m]| ==> xs[m][t] == f(ys[m][t])
      {
        UnderFollows(Index(m), items[m], prefix);
      }
      FlattenPointwise(xs, ys, f);
    case _ =>
  }

  lemma {:induction false} UnderFollows(part: PathPart, child: Value, prefix: string)
    ensures |PathsFrom(child, ChildPath(prefix, part))| == |Under(part, child)|
    ensures forall t :: 0 <= t < |Under(part, child)| ==>
      PathsFrom(child, ChildPath(prefix, part))[t] == Fold(prefix, Under(part, child)[t])
    decreases child, 1
  {
    var np := ChildPath(prefix, part);
    var below := StructPaths(child);
    if IsContainer(child) {
      PathsFollowStructure(child, np);
    }
    assert Fold(prefix, [part]) == np;
    forall t | 1 <= t < |Under(part, child)|
      ensures PathsFrom(child, np)[t] == Fold(prefix, Under(part, child)[t])
    {
      var q := below[t - 1];
      assert Under(part, child)[t] == [part] + q;
      assert ([part] + q)[0] == part && ([part] + q)[1..] == q;
    }
  }

  /** Every object key in the tree is a clean name. */
  predicate CleanKeys(v: Value)
  {
    match v
    case JObject(ms) => forall i :: 0 <= i < |ms| ==> CleanName(ms[i].0) && CleanKeys(ms[i].1)
    case JArray(xs) => forall i :: 0 <= i < |xs| ==> CleanKeys(xs[i])
    case _ => true
  }

  /** Every structural position resolves, and is made of clean parts when
      the keys are clean. */
  lemma {:induction false} StructPathsSound(v: Value)
    requires WellFormed(v)
    ensures forall p :: p in StructPaths(v) ==> |p| > 0 && Resolve(v, p).Ok?
    ensures CleanKeys(v) ==> forall p :: p in StructPaths(v) ==> CleanParts(p)
    decreases v, 0
  {
    forall p | p in StructPaths(v)
      ensures |p| > 0 && Resolve(v, p).Ok?
      ensures CleanKeys(v) ==> CleanParts(p)
    {
      match v
      case JObject(ms) =>
        var blocks := seq(|ms|, i requires 0 <= i < |ms| => Under(Name(ms[i].0), ms[i].1));
        FlattenMember(blocks, p);
        var m :| 0 <= m < |ms| && p in blocks[m];
        LookupUnique(ms, m);
        assert Select(v, Name(ms[m].0)) == Ok(ms[m].1);
        StepInto(v, Name(ms[m].0), ms[m].1, p);
      case JArray(xs) =>
        var blocks := seq(|xs|, i requires 0 <= i < |xs| => Under(Index(i), xs[i]));
        FlattenMember(blocks, p);
        var m :| 0 <= m < |xs| && p in blocks[m];
        StepInto(v, Index(m), xs[m], p);
    }
  }

  lemma {:induction false} StepInto(v: Value, part: PathPart, child: Value, p: seq<PathPart>)
    requires Select(v, part) == Ok(child) && WellFormed(child)
    requires p in Under(part, child)
    requires v.JObject? ==> part.Name? && (CleanKeys(v) ==> CleanName(part.name) && CleanKeys(child))
    requires v.JArray? ==> part.Index? && (CleanKeys(v) ==> CleanKeys(child))
    ensures |p| > 0 && Resolve(v, p).Ok?
    ensures CleanKeys(v) ==> CleanParts(p)
    decreases child, 1
  {
    var below := StructPaths(child);
    if p != [part] {
      var j :| 0 <= j < |below| && p == [part] + below[j];
      assert below[j] in below;
      StructPathsSound(child);
      assert p[0] == part && p[1..] == below[j];
      if CleanKeys(v) {
        assert CleanParts(below[j]);
        forall i | 0 <= i < |p| && p[i].Name? ensures CleanName(p[i].name) {
          if i > 0 {
            assert p[i] == below[j][i - 1];
          }
        }
      }
    }
  }

  lemma {:induction false} FoldFromNonEmpty(prefix: string, ps: seq<PathPart>)
    requires |prefix| > 0
    ensures Fold(prefix, ps) == prefix + DottedTail(ps)
    decreases |ps|
  {
    if |ps| > 0 {
      FoldFromNonEmpty(ChildPath(prefix, ps[0]), ps[1..]);
    } else {
      assert prefix + "" == prefix;
    }
  }

  /** Paths listed from the root are the parts written in the path grammar. */
  lemma FoldFromRoot(ps: seq<PathPart>)
    requires |ps| > 0 && CleanParts(ps)
    ensures Fold("", ps) == Unparse(ps)
  {
    RootSegment(ps[0]);
    assert ps[0].Name? ==> CleanName(ps[0].name);
    FoldFromNonEmpty(ChildPath("", ps[0]), ps[1..]);
  }

  lemma RootSegment(p: PathPart)
    ensures ChildPath("", p) == Segment(p, true)
  {
    if p.Index? {
      assert "" + ("[" + NatToString(p.index) + "]") == "[" + NatToString(p.index) + "]";
    }
  }

  /** Every path extract_all_paths lists parses back to its structural
      position, and get_value_at_path on it yields the value at that
      position, never an error, when keys are non-empty and hold no '.' or
      '['. This is the path explorer's chain of the two functions. */
  lemma ExtractedPathsResolve(v: Value, k: nat)
    requires WellFormed(v) && CleanKeys(v)
    requires k < |AllPaths(v, "")|
    ensures |StructPaths(v)| == |AllPaths(v, "")|
    ensures Parse(AllPaths(v, "")[k]) == Ok(StructPaths(v)[k])
    ensures Resolve(v, StructPaths(v)[k]).Ok?
    ensures ValueAtPath(v, AllPaths(v, "")[k]) == Resolve(v, StructPaths(v)[k])
  {
    PathsFollowStructure(v, "");
    StructPathsSound(v);
    var ps := StructPaths(v)[k];
    assert ps in StructPaths(v);
    FoldFromRoot(ps);
    ParseUnparse(ps);
  }
}
