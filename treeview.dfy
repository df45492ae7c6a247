/** The decisions of the JSON tree view (render_json_tree and the
    _render_* helpers of src/viewer.py), built as a view model instead of
    widgets: sections with their rows, leaves with their text, and the
    places where the view stops descending. */
module TreeView {
  import opened Common
  import opened PyStr
  import opened Json
  import opened Utils
  import JsonPath

  /** MAX_RECURSION_DEPTH (src/config.py), the default depth bound. */
  const MaxRecursionDepth := 8

  /** Rows of a list beyond this many are not shown. */
  const ListRowLimit := 100

  /** Strings longer than this are shown as a preview. */
  const PreviewLength := 100

  const WarningIcon := "\U{26A0}\U{FE0F}"

  /** What the right-hand column of a row holds: the child's view, or the
      "..." written when the child would be beyond the depth bound. */
  datatype Cell = Node(view: View) | Cut

  /** One key/value or index/value row of a section. */
  datatype Row = Row(caption: string, path: string, cell: Cell)

  datatype View =
      /** The warning render_json_tree writes when it starts too deep. */
    | Warning(maxDepth: int, at: string)
      /** One line of text. */
    | Leaf(text: string)
      /** An expander holding rows, with the number of list items left out
          when the list is cut short. */
    | Section(title: string, expanded: bool, rows: seq<Row>, more: Option<int>)
      /** An expander holding the full text of a long string. */
    | StringSection(title: string, code: string)

  /** `path.split('.')[-1]`, the name a section is titled with. */
  function Label(path: string): string
  {
    var pieces := SplitOn(path, ".");
    pieces[|pieces| - 1]
  }

  /** The path of a dict child: the bare key under "root", else `path.key`. */
  function KeyPath(path: string, key: string): string
  {
    if path != "root" then path + "." + key else key
  }

  /** The path of a list child. */
  function IndexPath(path: string, i: nat): string
  {
    path + "[" + NatToString(i) + "]"
  }

  // ---------------------------------------------------------------------
  // The long-string preview

  /** The text of a string that is shown in full on one line. */
  function QuotedLine(display: string): string
  {
    TextIcon + " \"" + display + "\" (str)"
  }

  /** The title of the expander of a long string: the preview and the
      string's length. */
  function PreviewTitle(s: string): string
  {
    TextIcon + " \"" + TruncateLongValue(s, PreviewLength) + "\" (string, " + NatToString(|s|) + " chars)"
  }

  /** `_render_value_node` for a string, as written: the expander with the
      full text is used only when the preview is shorter than the string,
      and a preview is 103 characters long. */
  function StringLeafAsWritten(s: string): (r: View)
    ensures r.StringSection? ==> r.code == s && r.title == PreviewTitle(s)
    ensures r.Leaf? ==> r.text == QuotedLine(TruncateLongValue(s, PreviewLength))
    ensures r.StringSection? <==> |s| > PreviewLength + 3
  {
    var display := TruncateLongValue(s, PreviewLength);
    if |display| < |s| then
      StringSection(PreviewTitle(s), s)
    else Leaf(QuotedLine(display))
  }

  /** The string is there to read: on the line itself or in the expander. */
  predicate ShowsInFull(view: View, s: string)
  {
    (view.Leaf? && view.text == QuotedLine(s)) || (view.StringSection? && view.code == s)
  }

  /** A string of 101 or 102 characters is cut to its first 100 characters
      plus "..." with no expander, so its end can not be seen at all. */
  lemma StringLeafAsWrittenHides(s: string)
    requires PreviewLength < |s| < PreviewLength + 3
    ensures StringLeafAsWritten(s).Leaf?
    ensures !ShowsInFull(StringLeafAsWritten(s), s)
  {
    var display := TruncateLongValue(s, PreviewLength);
    assert |QuotedLine(display)| != |QuotedLine(s)|;
  }

  /** The string node with the expander used whenever the preview is not
      the whole string. */
  function StringLeaf(s: string): (r: View)
    ensures ShowsInFull(r, s)
    ensures r.Leaf? <==> |s| <= PreviewLength
    ensures r.StringSection? ==> r.title == PreviewTitle(s)
    ensures r.Leaf? ==> r.text == QuotedLine(TruncateLongValue(s, PreviewLength))
  {
    var display := TruncateLongValue(s, PreviewLength);
    if |s| > PreviewLength then
      StringSection(PreviewTitle(s), s)
    else Leaf(QuotedLine(display))
  }

  // ---------------------------------------------------------------------
  // The list cap

  /** The "... and N more items" note, as written: written once row 99 is
      reached, that is for any list of 100 items or more. */
  function MoreItemsAsWritten(n: nat): (r: Option<int>)
    ensures r.Some? ==> r.value == n - ListRowLimit
  {
    if n >= ListRowLimit then Some(n - ListRowLimit) else None
  }

  /** A list of exactly 100 items is told that 0 more items were left out. */
  lemma MoreItemsAsWrittenZero()
    ensures MoreItemsAsWritten(ListRowLimit) == Some(0)
  {
  }

  /** The note written only when items are left out. */
  function MoreItems(n: nat): (r: Option<int>)
    ensures r.Some? <==> n > ListRowLimit
    ensures r.Some? ==> r.value == n - ListRowLimit > 0
  {
    if n > ListRowLimit then Some(n - ListRowLimit) else None
  }

  // ---------------------------------------------------------------------
  // The builder

  /** Which tree view is built: the program as written, or the one with
      the three display rules corrected (the boolean icons, the expander
      for every long string, the note only when items are left out). */
  datatype Version = AsWritten | Corrected

  /** The icon of a scalar in the chosen version. */
  function Icon(v: Value, ver: Version): string
  {
    if ver.AsWritten? then TypeIconAsWritten(v) else TypeIcon(v)
  }

  /** `_render_value_node` for the scalars. As written, a string gets the
      expander only beyond 103 characters, and a boolean the number icon. */
  function RenderValue(v: Value, ver: Version): (r: View)
    requires !IsContainer(v)
    ensures !v.JStr? ==> r.Leaf?
    ensures v.JStr? && r.StringSection? ==> r.code == v.str && r.title == PreviewTitle(v.str)
    ensures v.JStr? && r.Leaf? ==> r.text == QuotedLine(TruncateLongValue(v.str, PreviewLength))
    ensures v.JStr? && ver.AsWritten? ==> (r.StringSection? <==> |v.str| > PreviewLength + 3)
    ensures v.JStr? && ver.Corrected? ==> ShowsInFull(r, v.str) && (r.StringSection? <==> |v.str| > PreviewLength)
    ensures v.JBool? && ver.AsWritten? ==> NumberIcon + " " <= r.text
    ensures v.JBool? && ver.Corrected? ==> (if v.truth then CheckedIcon else UncheckedIcon) + " " <= r.text
  {
    match v
    case JStr(s) => if ver.AsWritten? then StringLeafAsWritten(s) else StringLeaf(s)
    case JBool(b) => Leaf(Icon(v, ver) + " " + (if b then "true" else "false") + " (bool)")
    case JInt(n) => Leaf(Icon(v, ver) + " " + IntToString(n) + " (int)")
    case JFloat(repr) => Leaf(Icon(v, ver) + " " + repr + " (float)")
    case JNull => Leaf(Icon(v, ver) + " null")
  }

  /** `_render_json_node` */
  function RenderNode(v: Value, depth: int, path: string, maxDepth: int, ver: Version): (r: View)
    ensures !r.Warning?
    decreases v, 2
  {
    match v
    case JObject(_) => RenderDict(v, depth, path, maxDepth, ver)
    case JArray(_) => RenderList(v, depth, path, maxDepth, ver)
    case _ => RenderValue(v, ver)
  }

  /** The row of one dict member. */
  function DictRow(parent: Value, k: nat, depth: int, path: string, maxDepth: int, ver: Version): Row
    requires parent.JObject? && k < |parent.members|
    decreases parent, 0
  {
    var key := SafeJsonKey(StrKey(parent.members[k].0));
    var childPath := KeyPath(path, key);
    assert parent.members[k] in parent.members;
    Row(key, childPath,
        if depth + 1 <= maxDepth then Node(RenderNode(parent.members[k].1, depth + 1, childPath, maxDepth, ver)) else Cut)
  }

  /** The row of one list item. */
  function ListRow(parent: Value, i: nat, depth: int, path: string, maxDepth: int, ver: Version): Row
    requires parent.JArray? && i < |parent.items|
    decreases parent, 0
  {
    var childPath := IndexPath(path, i);
    assert parent.items[i] in parent.items;
    Row("[" + NatToString(i) + "]", childPath,
        if depth + 1 <= maxDepth then Node(RenderNode(parent.items[i], depth + 1, childPath, maxDepth, ver)) else Cut)
  }

  /** `_render_dict_node` */
  function RenderDict(v: Value, depth: int, path: string, maxDepth: int, ver: Version): (r: View)
    requires v.JObject?
    ensures r.Leaf? || r.Section?
    decreases v, 1
  {
    var ms := v.members;
    if |ms| == 0 then Leaf(FolderIcon + " " + Label(path) + " (empty object)")
    else
      Section(FolderIcon + " " + Label(path) + " (" + NatToString(|ms|) + " keys)", depth < 2,
              seq(|ms|, k requires 0 <= k < |ms| => DictRow(v, k, depth, path, maxDepth, ver)), None)
  }

  /** `_render_list_node`: at most 100 rows, then the note on what is left. */
  function RenderList(v: Value, depth: int, path: string, maxDepth: int, ver: Version): (r: View)
    requires v.JArray?
    ensures r.Leaf? || r.Section?
    decreases v, 1
  {
    var xs := v.items;
    if |xs| == 0 then Leaf(ListIcon + " " + Label(path) + " (empty array)")
    else
      Section(ListIcon + " " + Label(path) + " (" + NatToString(|xs|) + " items)", depth < 2,
              seq(Min(|xs|, ListRowLimit), i requires 0 <= i < Min(|xs|, ListRowLimit) => ListRow(v, i, depth, path, maxDepth, ver)),
              if ver.AsWritten? then MoreItemsAsWritten(|xs|) else MoreItems(|xs|))
  }

  /** `render_json_tree` */
  function RenderJsonTree(data: Value, maxDepth: int, currentDepth: int, keyPath: string, ver: Version): (r: View)
    ensures currentDepth > maxDepth <==> r.Warning?
    ensures currentDepth <= maxDepth ==> r == RenderNode(data, currentDepth, keyPath, maxDepth, ver)
  {
    if currentDepth > maxDepth then Warning(maxDepth, keyPath)
    else RenderNode(data, currentDepth, keyPath, maxDepth, ver)
  }

  // ---------------------------------------------------------------------
  // What the view shows

  /** How many levels of nested sections a view holds below itself. */
  function Height(view: View): nat
  {
    if view.Section? then RowsHeight(view.rows) else 0
  }

  function RowsHeight(rows: seq<Row>): nat
  {
    if |rows| == 0 then 0
    else Max(CellHeight(rows[0].cell), RowsHeight(rows[1..]))
  }

  function CellHeight(c: Cell): nat
  {
    if c.Node? then 1 + Height(c.view) else 0
  }

  lemma {:induction false} RowsHeightBound(rows: seq<Row>, n: nat)
    requires forall k :: 0 <= k < |rows| ==> CellHeight(rows[k].cell) <= n
    ensures RowsHeight(rows) <= n
    decreases |rows|
  {
    if |rows| > 0 {
      assert forall k :: 0 <= k < |rows[1..]| ==> rows[1..][k] == rows[k + 1];
      RowsHeightBound(rows[1..], n);
    }
  }

  /** The view never descends past the depth bound: a node rendered at
      depth d holds at most maxDepth - d levels of sections below it. */
  lemma {:induction false} RenderDepthBound(v: Value, depth: int, path: string, maxDepth: int, ver: Version)
    requires depth <= maxDepth
    ensures Height(RenderNode(v, depth, path, maxDepth, ver)) <= maxDepth - depth
    decreases v, 1
  {
    match v
    case JObject(ms) =>
      if |ms| > 0 {
        var rows := RenderDict(v, depth, path, maxDepth, ver).rows;
        forall k | 0 <= k < |rows| ensures CellHeight(rows[k].cell) <= maxDepth - depth {
          DictRowBound(v, k, depth, path, maxDepth, ver);
        }
        RowsHeightBound(rows, maxDepth - depth);
      }
    case JArray(xs) =>
      if |xs| > 0 {
        var rows := RenderList(v, depth, path, maxDepth, ver).rows;
        forall i | 0 <= i < |rows| ensures CellHeight(rows[i].cell) <= maxDepth - depth {
          ListRowBound(v, i, depth, path, maxDepth, ver);
        }
        RowsHeightBound(rows, maxDepth - depth);
      }
    case _ =>
  }

  lemma {:induction false} DictRowBound(v: Value, k: nat, depth: int, path: string, maxDepth: int, ver: Version)
    requires v.JObject? && k < |v.members| && depth <= maxDepth
    ensures CellHeight(DictRow(v, k, depth, path, maxDepth, ver).cell) <= maxDepth - depth
    decreases v, 0
  {
    if depth + 1 <= maxDepth {
      assert v.members[k] in v.members;
      RenderDepthBound(v.members[k].1, depth + 1, KeyPath(path, SafeJsonKey(StrKey(v.members[k].0))), maxDepth, ver);
    }
  }

  lemma {:induction false} ListRowBound(v: Value, i: nat, depth: int, path: string, maxDepth: int, ver: Version)
    requires v.JArray? && i < |v.items| && depth <= maxDepth
    ensures CellHeight(ListRow(v, i, depth, path, maxDepth, ver).cell) <= maxDepth - depth
    decreases v, 0
  {
    if depth + 1 <= maxDepth {
      assert v.items[i] in v.items;
      RenderDepthBound(v.items[i], depth + 1, IndexPath(path, i), maxDepth, ver);
    }
  }

  /** A dict section has one row per key, in key order; each row is titled
      with its sanitised key, and the child is descended into exactly when
      it stays within the bound. An empty dict is a leaf. */
  lemma DictRows(v: Value, depth: int, path: string, maxDepth: int, ver: Version)
    requires v.JObject?
    ensures var r := RenderDict(v, depth, path, maxDepth, ver);
            (|v.members| == 0 <==> r.Leaf?) &&
            (r.Leaf? ==> r.text == FolderIcon + " " + Label(path) + " (empty object)") &&
            (r.Section? ==> (|r.rows| == |v.members| && r.more.None? &&
              forall k :: 0 <= k < |r.rows| ==>
                var key := SafeJsonKey(StrKey(v.members[k].0));
                r.rows[k].caption == key && r.rows[k].path == KeyPath(path, key) &&
                (r.rows[k].cell.Cut? <==> depth + 1 > maxDepth) &&
                (r.rows[k].cell.Node? ==>
                   r.rows[k].cell.view == RenderNode(v.members[k].1, depth + 1, KeyPath(path, key), maxDepth, ver))))
  {
  }

  /** A list section shows the first min(n, 100) items in index order, and
      every item is either shown or counted in the note. */
  lemma ListRows(v: Value, depth: int, path: string, maxDepth: int, ver: Version)
    requires v.JArray?
    ensures var r := RenderList(v, depth, path, maxDepth, ver);
            (|v.items| == 0 <==> r.Leaf?) &&
            (r.Leaf? ==> r.text == ListIcon + " " + Label(path) + " (empty array)") &&
            (r.Section? ==> (
              |r.rows| == Min(|v.items|, ListRowLimit) &&
              r.more == (if ver.AsWritten? then MoreItemsAsWritten(|v.items|) else MoreItems(|v.items|)) &&
              |r.rows| + (if r.more.Some? then r.more.value else 0) == |v.items| &&
              (ver.AsWritten? ==> (r.more.Some? <==> |v.items| >= ListRowLimit)) &&
              (ver.Corrected? ==> (r.more.Some? <==> |r.rows| < |v.items|)) &&
              forall i :: 0 <= i < |r.rows| ==>
                r.rows[i].caption == "[" + NatToString(i) + "]" && r.rows[i].path == IndexPath(path, i) &&
                (r.rows[i].cell.Cut? <==> depth + 1 > maxDepth) &&
                (r.rows[i].cell.Node? ==>
                   r.rows[i].cell.view == RenderNode(v.items[i], depth + 1, IndexPath(path, i), maxDepth, ver))))
  {
  }

  /** Under a parent other than the root, the rows' paths are the paths
      extract_all_paths gives the same children, provided the keys pass
      through sanitising unchanged. */
  lemma RowPathsAgree(path: string, key: string, i: nat)
    requires path != "root" && |path| > 0
    requires '<' !in key && |key| <= KeyLimit
    ensures KeyPath(path, SafeJsonKey(StrKey(key))) == JsonPath.ChildPath(path, JsonPath.Name(key))
    ensures IndexPath(path, i) == JsonPath.ChildPath(path, JsonPath.Index(i))
  {
    SanitizeTextClean(key, KeyLimit);
  }

  /** At the root the two differ for lists: the view names item i
      "root[i]", while extract_all_paths lists it as "[i]". */
  lemma RootListPathsDiffer(i: nat)
    ensures IndexPath("root", i) != JsonPath.ChildPath("", JsonPath.Index(i))
  {
    assert IndexPath("root", i)[0] == 'r';
  }

  /** A dict child's section is titled with its own key. */
  lemma ChildLabel(path: string, key: string)
    requires '.' !in key
    ensures Label(KeyPath(path, key)) == key
  {
    if path != "root" {
      LastPiece(path, key);
    } else {
      AtDot(key, IndexOf(key, "."));
    }
  }
}
