/** The reading-order half of loaders/document_ai_common.py: the Document AI
    values the chunker reads, `_get_text` (the text of a block's anchor) and
    `_sort_blocks_visually` (row-grouping sort of a page's blocks). */
module Geometry {
  import opened Text
  import opened Sorting

  /** A normalized bounding-polygon vertex. */
  datatype Vertex = Vertex(x: real, y: real)

  /** A text-anchor segment: `start_index` and `end_index` into the shard text. */
  datatype Segment = Segment(start: int, end: int)

  /** A layout block: its text anchor and its normalized bounding polygon. */
  datatype Block = Block(segments: seq<Segment>, vertices: seq<Vertex>)

  datatype Page = Page(number: int, blocks: seq<Block>)

  /** One Document AI result: the backing text and its pages in order. */
  datatype Shard = Shard(text: string, pages: seq<Page>)

  // ---------------------------------------------------------------------
  // _get_text

  /** The text a list of segments denotes: `text[start:end]` for each
      segment, concatenated in segment order. */
  function AnchorText(text: string, segments: seq<Segment>): string
  {
    if segments == [] then ""
    else
      var last := segments[|segments| - 1];
      AnchorText(text, segments[..|segments| - 1]) + PySlice(text, last.start, last.end)
  }

  /** Anchors compose: the text of two segment lists one after the other is
      the text of the first followed by the text of the second. */
  lemma {:induction false} AnchorTextConcat(text: string, a: seq<Segment>, b: seq<Segment>)
    ensures AnchorText(text, a + b) == AnchorText(text, a) + AnchorText(text, b)
    decreases |b|
  {
    if b == [] {
      assert a + b == a;
    } else {
      var b' := b[..|b| - 1];
      var last := b[|b| - 1];
      var piece := PySlice(text, last.start, last.end);
      assert (a + b)[..|a + b| - 1] == a + b';
      assert (a + b)[|a + b| - 1] == last;
      assert AnchorText(text, a + b) == AnchorText(text, a + b') + piece;
      AnchorTextConcat(text, a, b');
      assert AnchorText(text, b) == AnchorText(text, b') + piece;
      AppendAssociative(AnchorText(text, a), AnchorText(text, b'), piece);
    }
  }

  /** A segment inside the text denotes exactly that part of the text. */
  lemma AnchorTextSingle(text: string, s: Segment)
    requires 0 <= s.start <= s.end <= |text|
    ensures AnchorText(text, [s]) == text[s.start..s.end]
  {
    assert [s][..0] == [];
  }

  /** `_get_text(document, text_anchor)`. */
  method GetText(text: string, segments: seq<Segment>) returns (r: string)
    ensures r == AnchorText(text, segments)
  {
    r := "";
    for i := 0 to |segments|
      invariant r == AnchorText(text, segments[..i])
    {
      var segment := segments[i];
      r := r + PySlice(text, segment.start, segment.end);
      assert segments[..i + 1][..i] == segments[..i];
    }
    assert segments[..|segments|] == segments;
  }

  // ---------------------------------------------------------------------
  // Coordinates

  function MinOf(xs: seq<real>): (m: real)
    requires |xs| > 0
    ensures m in xs
    ensures forall k :: 0 <= k < |xs| ==> m <= xs[k]
  {
    if |xs| == 1 then xs[0]
    else
      var m := MinOf(xs[1..]);
      assert xs == [xs[0]] + xs[1..];
      if xs[0] <= m then xs[0] else m
  }

  function MaxOf(xs: seq<real>): (m: real)
    requires |xs| > 0
    ensures m in xs
    ensures forall k :: 0 <= k < |xs| ==> xs[k] <= m
  {
    if |xs| == 1 then xs[0]
    else
      var m := MaxOf(xs[1..]);
      assert xs == [xs[0]] + xs[1..];
      if xs[0] >= m then xs[0] else m
  }

  function Ys(vs: seq<Vertex>): seq<real> {
    Map(vs, (v: Vertex) => v.y)
  }

  function Xs(vs: seq<Vertex>): seq<real> {
    Map(vs, (v: Vertex) => v.x)
  }

  /** A block with the coordinates the sorter orders it by. */
  datatype Placed = Placed(block: Block, top: real, bottom: real, left: real)

  /** The enhancement step: top, bottom and left are the least y, the
      greatest y and the least x of the vertices, or all 0 for a block with
      no vertices. */
  function Place(b: Block): (e: Placed)
    ensures e.block == b
    ensures b.vertices == [] ==> e.top == 0.0 && e.bottom == 0.0 && e.left == 0.0
    ensures e.top <= e.bottom
    ensures forall k :: 0 <= k < |b.vertices| ==>
      e.top <= b.vertices[k].y <= e.bottom && e.left <= b.vertices[k].x
    ensures b.vertices != [] ==>
      (exists k :: 0 <= k < |b.vertices| && b.vertices[k].y == e.top) &&
      (exists k :: 0 <= k < |b.vertices| && b.vertices[k].y == e.bottom) &&
      (exists k :: 0 <= k < |b.vertices| && b.vertices[k].x == e.left)
  {
    if b.vertices == [] then Placed(b, 0.0, 0.0, 0.0)
    else
      var ys, xs := Ys(b.vertices), Xs(b.vertices);
      assert ys[0] == b.vertices[0].y;
      Placed(b, MinOf(ys), MaxOf(ys), MinOf(xs))
  }

  function BlocksOf(es: seq<Placed>): seq<Block> {
    Map(es, (e: Placed) => e.block)
  }

  /** The orders of the two `list.sort` calls: by top, and by left. */
  function ByTop(): (Placed, Placed) -> bool {
    (a: Placed, b: Placed) => a.top <= b.top
  }

  function ByLeft(): (Placed, Placed) -> bool {
    (a: Placed, b: Placed) => a.left <= b.left
  }

  lemma OrdersAreTotalPreorders()
    ensures TotalPreorder(ByTop()) && TotalPreorder(ByLeft())
  {
  }

  // ---------------------------------------------------------------------
  // Row grouping

  /** An item joins the row whose first item is `ref` when its vertical
      centre lies in ref's [top, bottom] band. */
  predicate JoinsRow(ref: Placed, item: Placed) {
    ref.top <= (item.top + item.bottom) / 2.0 <= ref.bottom
  }

  /** The grouping loop's state: the closed rows and the open one. */
  datatype Grouping = Grouping(closed: seq<seq<Placed>>, current: seq<Placed>)

  function GroupStep(g: Grouping, item: Placed): Grouping {
    if g.current == [] then Grouping(g.closed, [item])
    else if JoinsRow(g.current[0], item) then Grouping(g.closed, g.current + [item])
    else Grouping(g.closed + [g.current], [item])
  }

  /** The grouping state after the items, in order. */
  function Group(items: seq<Placed>): Grouping {
    if items == [] then Grouping([], [])
    else GroupStep(Group(items[..|items| - 1]), items[|items| - 1])
  }

  /** The rows the greedy grouping forms, the last open row included. */
  function Rows(items: seq<Placed>): seq<seq<Placed>> {
    OpenRows(Group(items))
  }

  function Concat<T>(rows: seq<seq<T>>): seq<T> {
    if rows == [] then [] else Concat(rows[..|rows| - 1]) + rows[|rows| - 1]
  }

  /** A partition into rows that the greedy rule produces: no row is empty,
      every item after a row's first joins that first item, and the first
      item of each row does not join the previous row's first item. */
  predicate GreedyRows(rows: seq<seq<Placed>>) {
    && (forall i :: 0 <= i < |rows| ==> rows[i] != [])
    && (forall i, k :: 0 <= i < |rows| && 1 <= k < |rows[i]| ==> JoinsRow(rows[i][0], rows[i][k]))
    && (forall i :: 1 <= i < |rows| ==> !JoinsRow(rows[i - 1][0], rows[i][0]))
  }

  /** The rows formed so far, the open one included. */
  function OpenRows(g: Grouping): seq<seq<Placed>> {
    if g.current == [] then g.closed else g.closed + [g.current]
  }

  lemma GreedyExtendLast(rows: seq<seq<Placed>>, item: Placed)
    requires GreedyRows(rows) && rows != [] && JoinsRow(rows[|rows| - 1][0], item)
    ensures GreedyRows(rows[..|rows| - 1] + [rows[|rows| - 1] + [item]])
  {
    var n := |rows| - 1;
    var r := rows[..n] + [rows[n] + [item]];
    assert forall i :: 0 <= i < n ==> r[i] == rows[i];
    assert r[n][0] == rows[n][0];
    forall i, k | 0 <= i < |r| && 1 <= k < |r[i]| ensures JoinsRow(r[i][0], r[i][k]) {
      if i == n && k < |rows[n]| {
        assert r[i][k] == rows[n][k];
      }
    }
  }

  lemma GreedyAppendRow(rows: seq<seq<Placed>>, item: Placed)
    requires GreedyRows(rows)
    requires rows != [] ==> !JoinsRow(rows[|rows| - 1][0], item)
    ensures GreedyRows(rows + [[item]])
  {
    var r := rows + [[item]];
    assert forall i :: 0 <= i < |rows| ==> r[i] == rows[i];
  }

  lemma ConcatSnoc<T>(rows: seq<seq<T>>, row: seq<T>)
    ensures Concat(rows + [row]) == Concat(rows) + row
  {
    assert (rows + [row])[..|rows|] == rows;
  }

  /** What the grouping loop keeps: the open row is empty only before the
      first item, the rows so far are greedy, and they hold the items seen. */
  predicate GroupingInvariant(g: Grouping, items: seq<Placed>) {
    && (g.current == [] <==> items == [])
    && GreedyRows(OpenRows(g))
    && Concat(g.closed) + g.current == items
  }

  lemma GroupStepKeeps(g: Grouping, items: seq<Placed>, item: Placed)
    requires GroupingInvariant(g, items)
    ensures GroupingInvariant(GroupStep(g, item), items + [item])
  {
    if g.current == [] {
      GroupStarts(g, items, item);
    } else if JoinsRow(g.current[0], item) {
      GroupExtends(g, items, item);
    } else {
      GroupBreaks(g, items, item);
    }
  }

  /** Rows that are all non-empty hold at least one item between them. */
  lemma RowsOfItems(rows: seq<seq<Placed>>)
    requires forall i :: 0 <= i < |rows| ==> rows[i] != []
    ensures rows == [] || Concat(rows) != []
  {
    if rows != [] {
      assert rows[|rows| - 1] != [];
    }
  }

  lemma GroupStarts(g: Grouping, items: seq<Placed>, item: Placed)
    requires GroupingInvariant(g, items) && g.current == []
    ensures GroupingInvariant(Grouping(g.closed, [item]), items + [item])
  {
    RowsOfItems(g.closed);
    assert g.closed == [];
    assert OpenRows(Grouping(g.closed, [item])) == [[item]];
  }

  lemma GroupExtends(g: Grouping, items: seq<Placed>, item: Placed)
    requires GroupingInvariant(g, items) && g.current != [] && JoinsRow(g.current[0], item)
    ensures GroupingInvariant(Grouping(g.closed, g.current + [item]), items + [item])
  {
    var rows := g.closed + [g.current];
    assert rows[..|rows| - 1] == g.closed;
    GreedyExtendLast(rows, item);
    AppendAssociative(Concat(g.closed), g.current, [item]);
  }

  lemma GroupBreaks(g: Grouping, items: seq<Placed>, item: Placed)
    requires GroupingInvariant(g, items) && g.current != [] && !JoinsRow(g.current[0], item)
    ensures GroupingInvariant(Grouping(g.closed + [g.current], [item]), items + [item])
  {
    GreedyAppendRow(g.closed + [g.current], item);
    ConcatSnoc(g.closed, g.current);
  }

  lemma GroupSnoc(items: seq<Placed>, item: Placed)
    ensures Group(items + [item]) == GroupStep(Group(items), item)
  {
    assert (items + [item])[..|items|] == items;
  }

  lemma {:induction false} GroupInvariant(items: seq<Placed>)
    ensures GroupingInvariant(Group(items), items)
  {
    if items != [] {
      var pre := items[..|items| - 1];
      var item := items[|items| - 1];
      GroupInvariant(pre);
      assert items == pre + [item];
      GroupSnoc(pre, item);
      GroupStepKeeps(Group(pre), pre, item);
    }
  }

  /** The rows cover the items in order, and they are exactly the rows the
      greedy rule allows. */
  lemma RowsAreGreedy(items: seq<Placed>)
    ensures GreedyRows(Rows(items))
    ensures Concat(Rows(items)) == items
  {
    GroupInvariant(items);
    var g := Group(items);
    if g.current != [] {
      ConcatSnoc(g.closed, g.current);
    }
  }

  /** Each row sorted by left, the rows one after the other. */
  function Emit(rows: seq<seq<Placed>>): seq<Placed> {
    if rows == [] then [] else Emit(rows[..|rows| - 1]) + SortBy(rows[|rows| - 1], ByLeft())
  }

  lemma EmitSnoc(rows: seq<seq<Placed>>, row: seq<Placed>)
    ensures Emit(rows + [row]) == Emit(rows) + SortBy(row, ByLeft())
  {
    assert (rows + [row])[..|rows|] == rows;
  }

  /** `_sort_blocks_visually`, as a function of the blocks. */
  function VisualOrder(blocks: seq<Block>): seq<Block> {
    BlocksOf(Emit(Rows(SortBy(Map(blocks, Place), ByTop()))))
  }

  lemma {:induction false} EmitPermutation(rows: seq<seq<Placed>>)
    ensures multiset(Emit(rows)) == multiset(Concat(rows))
  {
    if rows != [] {
      EmitPermutation(rows[..|rows| - 1]);
    }
  }

  /** The sorter returns a permutation of its input. */
  lemma VisualOrderPermutation(blocks: seq<Block>)
    ensures |VisualOrder(blocks)| == |blocks|
    ensures multiset(VisualOrder(blocks)) == multiset(blocks)
  {
    var placed := Map(blocks, Place);
    var byTop := SortBy(placed, ByTop());
    RowsAreGreedy(byTop);
    EmitPermutation(Rows(byTop));
    MapPermutation(Emit(Rows(byTop)), placed, (e: Placed) => e.block);
    assert Map(placed, (e: Placed) => e.block) == blocks;
  }

  /** The sorter's output, row by row: the top-sorted blocks are split into
      greedy rows, and each row comes out as a left-sorted stable
      permutation of itself. */
  lemma VisualOrderByRows(blocks: seq<Block>)
    ensures var byTop := SortBy(Map(blocks, Place), ByTop());
      && SortedBy(byTop, ByTop())
      && multiset(byTop) == multiset(Map(blocks, Place))
      && GreedyRows(Rows(byTop))
      && Concat(Rows(byTop)) == byTop
      && VisualOrder(blocks) == BlocksOf(Emit(Rows(byTop)))
  {
    OrdersAreTotalPreorders();
    SortBySorted(Map(blocks, Place), ByTop());
    RowsAreGreedy(SortBy(Map(blocks, Place), ByTop()));
  }

  /** Every emitted row is ordered by left and holds the row's items. */
  lemma EmittedRowSorted(row: seq<Placed>)
    ensures SortedBy(SortBy(row, ByLeft()), ByLeft())
    ensures multiset(SortBy(row, ByLeft())) == multiset(row)
  {
    OrdersAreTotalPreorders();
    SortBySorted(row, ByLeft());
  }

  /** `_sort_blocks_visually(blocks)`. */
  method SortBlocksVisually(blocks: seq<Block>) returns (sorted: seq<Block>)
    ensures sorted == VisualOrder(blocks)
    ensures |sorted| == |blocks| && multiset(sorted) == multiset(blocks)
  {
    if blocks == [] {
      return [];
    }
    var enhanced: seq<Placed> := [];
    for i := 0 to |blocks|
      invariant enhanced == Map(blocks[..i], Place)
    {
      enhanced := enhanced + [Place(blocks[i])];
    }
    assert blocks[..|blocks|] == blocks;
    var byTop := SortBy(enhanced, ByTop());
    var rows := EmitRows(byTop);
    sorted := BlocksOf(rows);
    VisualOrderPermutation(blocks);
  }

  /** The grouping loop of `_sort_blocks_visually`, over the top-sorted
      blocks. */
  method EmitRows(items: seq<Placed>) returns (rows: seq<Placed>)
    ensures rows == Emit(Rows(items))
  {
    rows := [];
    var currentRow: seq<Placed> := [];
    for j := 0 to |items|
      invariant rows == Emit(Group(items[..j]).closed)
      invariant currentRow == Group(items[..j]).current
    {
      var item := items[j];
      assert items[..j + 1] == items[..j] + [item];
      ghost var g := Group(items[..j]);
      GroupSnoc(items[..j], item);
      if currentRow == [] {
        currentRow := [item];
      } else {
        var ref := currentRow[0];
        var itemCenterY := (item.top + item.bottom) / 2.0;
        if ref.top <= itemCenterY <= ref.bottom {
          currentRow := currentRow + [item];
        } else {
          EmitSnoc(g.closed, currentRow);
          currentRow := SortBy(currentRow, ByLeft());
          rows := rows + currentRow;
          currentRow := [item];
        }
      }
    }
    assert items[..|items|] == items;
    if currentRow != [] {
      EmitSnoc(Group(items).closed, currentRow);
      currentRow := SortBy(currentRow, ByLeft());
      rows := rows + currentRow;
    }
  }
}
