/** The structure statistics of the JSON summary (analyze_json_structure in
    src/viewer.py): one shared record of counters, updated by a recursive
    walk that visits every node once, parents before children. */
module StructureAnalysis {
  import opened Common
  import opened Json

  /** The name a node is counted under: `type(value).__name__`, except that
      None is filed as "null". */
  function AnalysisTypeName(v: Value): string
  {
    if v.JNull? then "null" else PyTypeName(v)
  }

  /** The counters of the analysis record. */
  datatype Tally = Tally(totalKeys: nat, maxDepth: int, totalItems: nat, nullCount: nat, types: map<string, nat>)

  /** The record before the walk starts: zero counts, and the starting depth
      as the deepest level seen. */
  function Initial(d: int): Tally
  {
    Tally(0, d, 0, 0, map[])
  }

  /** `m.get(k, 0)` */
  function Get(m: map<string, nat>, k: string): nat
  {
    if k in m then m[k] else 0
  }

  function KeysAt(v: Value): nat { if v.JObject? then |v.members| else 0 }

  function ItemsAt(v: Value): nat { if v.JArray? then |v.items| else 0 }

  function NullAt(v: Value): nat { if v.JNull? then 1 else 0 }

  function TypeIs(name: string): Value -> nat
  {
    w => if AnalysisTypeName(w) == name then 1 else 0
  }

  /** Every node of the tree with its depth, in the order the recursive walk
      reaches them: the node itself, then each child's nodes in turn. */
  function DepthNodes(v: Value, d: int): seq<(Value, int)>
    decreases v
  {
    [(v, d)] +
      match v
      case JObject(ms) => Flatten(seq(|ms|, i requires 0 <= i < |ms| => DepthNodes(ms[i].1, d + 1)))
      case JArray(xs) => Flatten(seq(|xs|, i requires 0 <= i < |xs| => DepthNodes(xs[i], d + 1)))
      case _ => []
  }

  /** What visiting one node at depth d does to the record. */
  function Visit(t: Tally, v: Value, d: int): Tally
  {
    var name := AnalysisTypeName(v);
    Tally(t.totalKeys + KeysAt(v), Max(t.maxDepth, d), t.totalItems + ItemsAt(v),
          t.nullCount + NullAt(v), t.types[name := Get(t.types, name) + 1])
  }

  function VisitAll(t: Tally, nodes: seq<(Value, int)>): Tally
    decreases |nodes|
  {
    if |nodes| == 0 then t else VisitAll(Visit(t, nodes[0].0, nodes[0].1), nodes[1..])
  }

  /** The record analyze_json_structure returns. */
  function Analyze(v: Value, d: int): Tally
  {
    VisitAll(Initial(d), DepthNodes(v, d))
  }

  lemma {:induction false} VisitAllConcat(t: Tally, a: seq<(Value, int)>, b: seq<(Value, int)>)
    ensures VisitAll(t, a + b) == VisitAll(VisitAll(t, a), b)
    decreases |a|
  {
    if |a| == 0 {
      assert a + b == b;
    } else {
      assert (a + b)[0] == a[0] && (a + b)[1..] == a[1..] + b;
      VisitAllConcat(Visit(t, a[0].0, a[0].1), a[1..], b);
    }
  }

  /** The shared analysis dict, as an object whose fields the nested
      helpers update. */
  class Analysis {
    var totalKeys: nat
    var maxDepth: int
    var totalArrayItems: nat
    var nullCount: nat
    var typeDistribution: map<string, nat>

    function Snapshot(): Tally
      reads this
    {
      Tally(totalKeys, maxDepth, totalArrayItems, nullCount, typeDistribution)
    }

    constructor (currentDepth: int)
      ensures Snapshot() == Initial(currentDepth)
    {
      totalKeys := 0;
      maxDepth := currentDepth;
      totalArrayItems := 0;
      nullCount := 0;
      typeDistribution := map[];
    }

    /** _count_type: one more value of this type, and one more null. */
    method CountType(value: Value)
      modifies this
      ensures typeDistribution == old(typeDistribution)[AnalysisTypeName(value) := Get(old(typeDistribution), AnalysisTypeName(value)) + 1]
      ensures nullCount == old(nullCount) + NullAt(value)
      ensures totalKeys == old(totalKeys) && maxDepth == old(maxDepth) && totalArrayItems == old(totalArrayItems)
    {
      var typeName := PyTypeName(value);
      if value.JNull? {
        typeName := "null";
      }
      typeDistribution := typeDistribution[typeName := Get(typeDistribution, typeName) + 1];
      if value.JNull? {
        nullCount := nullCount + 1;
      }
    }

    /** _analyze_recursive: record this node, then walk its children. */
    method AnalyzeRecursive(obj: Value, depth: int)
      modifies this
      ensures Snapshot() == VisitAll(old(Snapshot()), DepthNodes(obj, depth))
      decreases obj, 1
    {
      ghost var before := Snapshot();
      maxDepth := Max(maxDepth, depth);
      match obj {
        case JObject(ms) =>
          totalKeys := totalKeys + |ms|;
          CountType(obj);
          assert Snapshot() == Visit(before, obj, depth);
          AnalyzeMembers(obj, depth);
        case JArray(xs) =>
          totalArrayItems := totalArrayItems + |xs|;
          CountType(obj);
          assert Snapshot() == Visit(before, obj, depth);
          AnalyzeItems(obj, depth);
        case _ =>
          CountType(obj);
          assert DepthNodes(obj, depth)[1..] == [];
      }
    }

    /** The loop over a dict's values, one level deeper. */
    method AnalyzeMembers(obj: Value, depth: int)
      requires obj.JObject?
      modifies this
      ensures Snapshot() == VisitAll(old(Snapshot()), DepthNodes(obj, depth)[1..])
      decreases obj, 0
    {
      var ms := obj.members;
      ghost var blocks := seq(|ms|, i requires 0 <= i < |ms| => DepthNodes(ms[i].1, depth + 1));
      ghost var start := Snapshot();
      for k := 0 to |ms|
        invariant Snapshot() == VisitAll(start, Flatten(blocks[..k]))
      {
        FlattenSnoc(blocks, k);
        VisitAllConcat(start, Flatten(blocks[..k]), blocks[k]);
        AnalyzeRecursive(ms[k].1, depth + 1);
      }
      assert blocks[..|ms|] == blocks;
    }

    /** The loop over a list's items, one level deeper. */
    method AnalyzeItems(obj: Value, depth: int)
      requires obj.JArray?
      modifies this
      ensures Snapshot() == VisitAll(old(Snapshot()), DepthNodes(obj, depth)[1..])
      decreases obj, 0
    {
      var xs := obj.items;
      ghost var blocks := seq(|xs|, i requires 0 <= i < |xs| => DepthNodes(xs[i], depth + 1));
      ghost var start := Snapshot();
      for k := 0 to |xs|
        invariant Snapshot() == VisitAll(start, Flatten(blocks[..k]))
      {
        FlattenSnoc(blocks, k);
        VisitAllConcat(start, Flatten(blocks[..k]), blocks[k]);
        AnalyzeRecursive(xs[k], depth + 1);
      }
      assert blocks[..|xs|] == blocks;
    }
  }

  /** analyze_json_structure: a fresh record, one walk from the root. */
  method AnalyzeJsonStructure(data: Value, currentDepth: int) returns (r: Tally)
    ensures r == Analyze(data, currentDepth)
  {
    var analysis := new Analysis(currentDepth);
    analysis.AnalyzeRecursive(data, currentDepth);
    r := analysis.Snapshot();
  }

  // ---------------------------------------------------------------------
  // What the counters mean.

  /** Sum of a weight over a node list. */
  function Total(nodes: seq<(Value, int)>, f: Value -> nat): nat
    decreases |nodes|
  {
    if |nodes| == 0 then 0 else f(nodes[0].0) + Total(nodes[1..], f)
  }

  function Sum(xs: seq<nat>): nat
  {
    if |xs| == 0 then 0 else Sum(xs[..|xs| - 1]) + xs[|xs| - 1]
  }

  /** Sum of a weight over every node of a tree: the node, then its
      subtrees. The reference the counters are measured against. */
  function TreeTotal(v: Value, f: Value -> nat): nat
    decreases v
  {
    f(v) +
      match v
      case JObject(ms) => Sum(seq(|ms|, i requires 0 <= i < |ms| => TreeTotal(ms[i].1, f)))
      case JArray(xs) => Sum(seq(|xs|, i requires 0 <= i < |xs| => TreeTotal(xs[i], f)))
      case _ => 0
  }

  lemma {:induction false} TotalConcat(a: seq<(Value, int)>, b: seq<(Value, int)>, f: Value -> nat)
    ensures Total(a + b, f) == Total(a, f) + Total(b, f)
    decreases |a|
  {
    if |a| == 0 {
      assert a + b == b;
    } else {
      assert (a + b)[0] == a[0] && (a + b)[1..] == a[1..] + b;
      TotalConcat(a[1..], b, f);
    }
  }

  lemma {:induction false} TotalFlatten(blocks: seq<seq<(Value, int)>>, f: Value -> nat)
    ensures Total(Flatten(blocks), f) == Sum(seq(|blocks|, i requires 0 <= i < |blocks| => Total(blocks[i], f)))
    decreases |blocks|
  {
    var sums := seq(|blocks|, i requires 0 <= i < |blocks| => Total(blocks[i], f));
    if |blocks| > 0 {
      var n := |blocks| - 1;
      TotalFlatten(blocks[..n], f);
      TotalConcat(Flatten(blocks[..n]), blocks[n], f);
      assert seq(|blocks[..n]|, i requires 0 <= i < |blocks[..n]| => Total(blocks[..n][i], f)) == sums[..n];
    }
  }

  /** Each counter, summed along the walk, is the tree total of its weight. */
  lemma {:induction false} TotalDepthNodes(v: Value, d: int, f: Value -> nat)
    ensures Total(DepthNodes(v, d), f) == TreeTotal(v, f)
    decreases v, 1
  {
    var nodes := DepthNodes(v, d);
    assert nodes[0] == (v, d);
    match v
    case JObject(ms) =>
      MembersTotal(ms, d, f);
    case JArray(xs) =>
      ItemsTotal(xs, d, f);
    case _ =>
      assert nodes[1..] == [];
  }

  lemma {:induction false} MembersTotal(ms: seq<(string, Value)>, d: int, f: Value -> nat)
    ensures Total(Flatten(seq(|ms|, i requires 0 <= i < |ms| => DepthNodes(ms[i].1, d + 1))), f)
         == Sum(seq(|ms|, i requires 0 <= i < |ms| => TreeTotal(ms[i].1, f)))
    decreases JObject(ms), 0
  {
    var blocks := seq(|ms|, i requires 0 <= i < |ms| => DepthNodes(ms[i].1, d + 1));
    TotalFlatten(blocks, f);
    forall i | 0 <= i < |ms| ensures Total(blocks[i], f) == TreeTotal(ms[i].1, f) {
      TotalDepthNodes(ms[i].1, d + 1, f);
    }
    assert seq(|blocks|, i requires 0 <= i < |blocks| => Total(blocks[i], f))
        == seq(|ms|, i requires 0 <= i < |ms| => TreeTotal(ms[i].1, f));
  }

  lemma {:induction false} ItemsTotal(xs: seq<Value>, d: int, f: Value -> nat)
    ensures Total(Flatten(seq(|xs|, i requires 0 <= i < |xs| => DepthNodes(xs[i], d + 1))), f)
         == Sum(seq(|xs|, i requires 0 <= i < |xs| => TreeTotal(xs[i], f)))
    decreases JArray(xs), 0
  {
    var blocks := seq(|xs|, i requires 0 <= i < |xs| => DepthNodes(xs[i], d + 1));
    TotalFlatten(blocks, f);
    forall i | 0 <= i < |xs| ensures Total(blocks[i], f) == TreeTotal(xs[i], f) {
      TotalDepthNodes(xs[i], d + 1, f);
    }
    assert seq(|blocks|, i requires 0 <= i < |blocks| => Total(blocks[i], f))
        == seq(|xs|, i requires 0 <= i < |xs| => TreeTotal(xs[i], f));
  }

  /** Where the counters of a walk end up, starting from any record. */
  lemma {:induction false} VisitAllCounts(t: Tally, nodes: seq<(Value, int)>)
    ensures VisitAll(t, nodes).totalKeys == t.totalKeys + Total(nodes, KeysAt)
    ensures VisitAll(t, nodes).totalItems == t.totalItems + Total(nodes, ItemsAt)
    ensures VisitAll(t, nodes).nullCount == t.nullCount + Total(nodes, NullAt)
    decreases |nodes|
  {
    if |nodes| > 0 {
      VisitAllCounts(Visit(t, nodes[0].0, nodes[0].1), nodes[1..]);
    }
  }

  /** Where one entry of the type distribution ends up. */
  lemma {:induction false} VisitAllType(t: Tally, nodes: seq<(Value, int)>, name: string)
    ensures Get(VisitAll(t, nodes).types, name) == Get(t.types, name) + Total(nodes, TypeIs(name))
    decreases |nodes|
  {
    if |nodes| > 0 {
      VisitAllType(Visit(t, nodes[0].0, nodes[0].1), nodes[1..], name);
    }
  }

  /** The key, item and null counts and the type distribution of
      analyze_json_structure count exactly the object keys, the list items,
      the nulls and the values of each type name in the whole tree. */
  lemma AnalyzeCounts(v: Value, d: int)
    ensures Analyze(v, d).totalKeys == TreeTotal(v, KeysAt)
    ensures Analyze(v, d).totalItems == TreeTotal(v, ItemsAt)
    ensures Analyze(v, d).nullCount == TreeTotal(v, NullAt)
    ensures forall name :: Get(Analyze(v, d).types, name) == TreeTotal(v, TypeIs(name))
  {
    VisitAllCounts(Initial(d), DepthNodes(v, d));
    TotalDepthNodes(v, d, KeysAt);
    TotalDepthNodes(v, d, ItemsAt);
    TotalDepthNodes(v, d, NullAt);
    forall name ensures Get(Analyze(v, d).types, name) == TreeTotal(v, TypeIs(name)) {
      VisitAllType(Initial(d), DepthNodes(v, d), name);
      TotalDepthNodes(v, d, TypeIs(name));
    }
  }

  /** The null count is the "null" entry of the type distribution. */
  lemma NullsAreNullType(v: Value, d: int)
    ensures Analyze(v, d).nullCount == Get(Analyze(v, d).types, "null")
  {
    VisitAllCounts(Initial(d), DepthNodes(v, d));
    VisitAllType(Initial(d), DepthNodes(v, d), "null");
    NullTotals(DepthNodes(v, d));
  }

  lemma {:induction false} NullTotals(nodes: seq<(Value, int)>)
    ensures Total(nodes, NullAt) == Total(nodes, TypeIs("null"))
    decreases |nodes|
  {
    if |nodes| > 0 {
      NullTotals(nodes[1..]);
    }
  }

  /** The seven names a node can be filed under. */
  const TypeNames: seq<string> := ["dict", "list", "str", "int", "float", "bool", "null"]

  /** The sum of the type distribution's entries. */
  function DistributionTotal(m: map<string, nat>): nat
  {
    Get(m, "dict") + Get(m, "list") + Get(m, "str") + Get(m, "int") + Get(m, "float") + Get(m, "bool") + Get(m, "null")
  }

  lemma {:induction false} TypeTotals(nodes: seq<(Value, int)>)
    ensures Total(nodes, TypeIs("dict")) + Total(nodes, TypeIs("list")) + Total(nodes, TypeIs("str"))
      + Total(nodes, TypeIs("int")) + Total(nodes, TypeIs("float")) + Total(nodes, TypeIs("bool"))
      + Total(nodes, TypeIs("null")) == |nodes|
    decreases |nodes|
  {
    if |nodes| > 0 {
      TypeTotals(nodes[1..]);
    }
  }

  /** Every node is filed under one of the seven names: the type
      distribution adds up to the number of values in the tree. */
  lemma TypesCoverAllNodes(v: Value, d: int)
    ensures DistributionTotal(Analyze(v, d).types) == |DepthNodes(v, d)|
  {
    var nodes := DepthNodes(v, d);
    TypeTotals(nodes);
    VisitAllType(Initial(d), nodes, "dict");
    VisitAllType(Initial(d), nodes, "list");
    VisitAllType(Initial(d), nodes, "str");
    VisitAllType(Initial(d), nodes, "int");
    VisitAllType(Initial(d), nodes, "float");
    VisitAllType(Initial(d), nodes, "bool");
    VisitAllType(Initial(d), nodes, "null");
  }

  /** The type distribution names nothing but those seven. */
  lemma TypesAreNamed(v: Value, d: int)
    ensures forall name :: name in Analyze(v, d).types ==> name in TypeNames
  {
    NamedTypes(Initial(d), DepthNodes(v, d));
  }

  lemma {:induction false} NamedTypes(t: Tally, nodes: seq<(Value, int)>)
    requires forall name :: name in t.types ==> name in TypeNames
    ensures forall name :: name in VisitAll(t, nodes).types ==> name in TypeNames
    decreases |nodes|
  {
    if |nodes| > 0 {
      NamedTypes(Visit(t, nodes[0].0, nodes[0].1), nodes[1..]);
    }
  }

  /** The deepest level the walk reaches, from any record. */
  lemma {:induction false} VisitAllDepth(t: Tally, nodes: seq<(Value, int)>)
    ensures VisitAll(t, nodes).maxDepth >= t.maxDepth
    ensures forall k :: 0 <= k < |nodes| ==> nodes[k].1 <= VisitAll(t, nodes).maxDepth
    ensures VisitAll(t, nodes).maxDepth == t.maxDepth ||
            exists k :: 0 <= k < |nodes| && nodes[k].1 == VisitAll(t, nodes).maxDepth
    decreases |nodes|
  {
    if |nodes| > 0 {
      var rest := nodes[1..];
      VisitAllDepth(Visit(t, nodes[0].0, nodes[0].1), rest);
      var m := VisitAll(t, nodes).maxDepth;
      forall k | 0 <= k < |nodes| ensures nodes[k].1 <= m {
        if k > 0 {
          assert nodes[k] == rest[k - 1];
        }
      }
      if m != t.maxDepth && m != nodes[0].1 {
        var k :| 0 <= k < |rest| && rest[k].1 == m;
        assert nodes[k + 1].1 == m;
      }
    }
  }

  /** Nodes sit at the starting depth or below it. */
  lemma {:induction false} DepthsFromStart(v: Value, d: int)
    ensures DepthNodes(v, d)[0] == (v, d)
    ensures forall k :: 0 <= k < |DepthNodes(v, d)| ==> DepthNodes(v, d)[k].1 >= d
    decreases v
  {
    var nodes := DepthNodes(v, d);
    forall k | 0 <= k < |nodes| ensures nodes[k].1 >= d {
      if k > 0 {
        match v
        case JObject(ms) =>
          var blocks := seq(|ms|, i requires 0 <= i < |ms| => DepthNodes(ms[i].1, d + 1));
          assert nodes[1..] == Flatten(blocks);
          assert nodes[k] in Flatten(blocks);
          FlattenMember(blocks, nodes[k]);
          var m :| 0 <= m < |blocks| && nodes[k] in blocks[m];
          DepthsFromStart(ms[m].1, d + 1);
        case JArray(xs) =>
          var blocks := seq(|xs|, i requires 0 <= i < |xs| => DepthNodes(xs[i], d + 1));
          assert nodes[1..] == Flatten(blocks);
          assert nodes[k] in Flatten(blocks);
          FlattenMember(blocks, nodes[k]);
          var m :| 0 <= m < |blocks| && nodes[k] in blocks[m];
          DepthsFromStart(xs[m], d + 1);
      }
    }
  }

  /** max_depth is the depth of the deepest node: no node is deeper, and
      some node is exactly that deep. A scalar is at the starting depth. */
  lemma AnalyzeDepth(v: Value, d: int)
    ensures Analyze(v, d).maxDepth >= d
    ensures forall k :: 0 <= k < |DepthNodes(v, d)| ==> DepthNodes(v, d)[k].1 <= Analyze(v, d).maxDepth
    ensures exists k :: 0 <= k < |DepthNodes(v, d)| && DepthNodes(v, d)[k].1 == Analyze(v, d).maxDepth
    ensures !IsContainer(v) ==> Analyze(v, d).maxDepth == d
  {
    var nodes := DepthNodes(v, d);
    VisitAllDepth(Initial(d), nodes);
    DepthsFromStart(v, d);
    if Analyze(v, d).maxDepth == d {
      assert nodes[0].1 == d;
    }
    if !IsContainer(v) {
      assert nodes == [(v, d)];
    }
  }
}
