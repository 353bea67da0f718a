/**
 * The drag-target engine of the board (`BoardTools`): which column and
 * which card slot the pointer targets during a drag, whether the board
 * should scroll, and the walk that asks the layout to measure the board.
 */
module BoardTools {
  import opened Wrappers
  import opened Sequences
  import opened BoardModels

  /** Distance from a column edge within which a drag scrolls the board. */
  const SCROLL_TRESHOLD: real := 100.0

  // ---------------------------------------------------------------------
  // Measurement trigger
  // ---------------------------------------------------------------------

  /** One call the walk makes into the host layout. */
  datatype MeasureCall = MeasureColumn(columnId: string) | ValidateAndMeasureCard(cardId: string)

  /**
   * The host layout system. What `measure()` and `validateAndMeasure()`
   * do to the models is outside the engine; the host only records that
   * they were asked for, in order.
   */
  class LayoutHost {
    ghost var calls: seq<MeasureCall>

    constructor ()
      ensures calls == []
    {
      calls := [];
    }

    /** `column.measure()` */
    method Measure(column: ColumnModel)
      modifies this
      ensures calls == old(calls) + [MeasureColumn(column.id)]
    {
      calls := calls + [MeasureColumn(column.id)];
    }

    /** `card.validateAndMeasure()` */
    method ValidateAndMeasure(card: CardModel)
      modifies this
      ensures calls == old(calls) + [ValidateAndMeasureCard(card.id)]
    {
      calls := calls + [ValidateAndMeasureCard(card.id)];
    }
  }

  /** The columns the walk visits: the one given, or every column in map order. */
  function MeasureTargets(boardState: BoardState, column: Option<ColumnModel>): seq<ColumnModel>
    requires boardState.Valid()
  {
    if column.Some? then [column.value] else boardState.columnsMap.Values()
  }

  /** One card call per card, in list order. */
  function CardCalls(cards: seq<CardModel>): seq<MeasureCall> {
    seq(|cards|, k requires 0 <= k < |cards| => ValidateAndMeasureCard(cards[k].id))
  }

  /** The calls for one column: its own measurement, then one per listed card. */
  function ColumnCalls(boardState: BoardState, column: ColumnModel): seq<MeasureCall> {
    [MeasureColumn(column.id)]
      + (if column.id in boardState.columnCardsMap then CardCalls(boardState.columnCardsMap[column.id]) else [])
  }

  /** The calls of a walk over `columns`, column after column. */
  function WalkCalls(boardState: BoardState, columns: seq<ColumnModel>): seq<MeasureCall> {
    if columns == [] then [] else ColumnCalls(boardState, columns[0]) + WalkCalls(boardState, columns[1..])
  }

  /** A walk over two runs of columns is the walk over the first, then over the second. */
  lemma {:induction false} WalkCallsAppend(boardState: BoardState, a: seq<ColumnModel>, b: seq<ColumnModel>)
    ensures WalkCalls(boardState, a + b) == WalkCalls(boardState, a) + WalkCalls(boardState, b)
  {
    if a == [] {
      assert a + b == b;
    } else {
      assert (a + b)[0] == a[0];
      assert (a + b)[1..] == a[1..] + b;
      WalkCallsAppend(boardState, a[1..], b);
    }
  }

  /** Column i's calls form one contiguous block, after those of every earlier column. */
  lemma WalkColumnBlock(boardState: BoardState, columns: seq<ColumnModel>, i: nat)
    requires i < |columns|
    ensures WalkCalls(boardState, columns)
         == WalkCalls(boardState, columns[..i]) + ColumnCalls(boardState, columns[i]) + WalkCalls(boardState, columns[i + 1..])
  {
    assert columns == columns[..i] + ([columns[i]] + columns[i + 1..]);
    WalkCallsAppend(boardState, columns[..i], [columns[i]] + columns[i + 1..]);
    assert ([columns[i]] + columns[i + 1..])[1..] == columns[i + 1..];
  }

  /** The ids of the columns measured by `calls`, in call order. */
  function MeasuredColumns(calls: seq<MeasureCall>): seq<string> {
    if calls == [] then []
    else (if calls[0].MeasureColumn? then [calls[0].columnId] else []) + MeasuredColumns(calls[1..])
  }

  lemma {:induction false} MeasuredColumnsAppend(a: seq<MeasureCall>, b: seq<MeasureCall>)
    ensures MeasuredColumns(a + b) == MeasuredColumns(a) + MeasuredColumns(b)
  {
    if a == [] {
      assert a + b == b;
    } else {
      assert (a + b)[0] == a[0];
      assert (a + b)[1..] == a[1..] + b;
      MeasuredColumnsAppend(a[1..], b);
    }
  }

  lemma {:induction false} CardCallsMeasureNoColumn(cards: seq<CardModel>)
    ensures MeasuredColumns(CardCalls(cards)) == []
  {
    if cards != [] {
      assert CardCalls(cards)[1..] == CardCalls(cards[1..]);
      CardCallsMeasureNoColumn(cards[1..]);
    }
  }

  /** The walk measures each visited column exactly once, in visiting order. */
  lemma {:induction false} WalkMeasuresEachColumnOnce(boardState: BoardState, columns: seq<ColumnModel>)
    ensures MeasuredColumns(WalkCalls(boardState, columns)) == seq(|columns|, i requires 0 <= i < |columns| => columns[i].id)
  {
    if columns != [] {
      var col := columns[0];
      var cards := if col.id in boardState.columnCardsMap then CardCalls(boardState.columnCardsMap[col.id]) else [];
      if col.id in boardState.columnCardsMap {
        CardCallsMeasureNoColumn(boardState.columnCardsMap[col.id]);
      }
      MeasuredColumnsAppend([MeasureColumn(col.id)], cards);
      MeasuredColumnsAppend(ColumnCalls(boardState, col), WalkCalls(boardState, columns[1..]));
      WalkMeasuresEachColumnOnce(boardState, columns[1..]);
    }
  }

  /**
   * `validateAndMeasureBoard`: for the given column, or for every column in
   * map order, ask the layout to measure the column and then each card
   * listed under it; a column without a card list gets only its own call.
   */
  method ValidateAndMeasureBoard(host: LayoutHost, boardState: BoardState, column: Option<ColumnModel>)
    requires boardState.Valid()
    modifies host
    ensures host.calls == old(host.calls) + WalkCalls(boardState, MeasureTargets(boardState, column))
  {
    var columns := MeasureTargets(boardState, column);
    var i := 0;
    while i < |columns|
      invariant 0 <= i <= |columns|
      invariant host.calls == old(host.calls) + WalkCalls(boardState, columns[..i])
    {
      var col := columns[i];
      host.Measure(col);
      if col.id in boardState.columnCardsMap {
        var cards := boardState.columnCardsMap[col.id];
        var k := 0;
        while k < |cards|
          invariant 0 <= k <= |cards|
          invariant host.calls == old(host.calls) + WalkCalls(boardState, columns[..i]) + [MeasureColumn(col.id)] + CardCalls(cards[..k])
        {
          host.ValidateAndMeasure(cards[k]);
          assert CardCalls(cards[..k + 1]) == CardCalls(cards[..k]) + [ValidateAndMeasureCard(cards[k].id)];
          k := k + 1;
        }
        assert cards[..k] == cards;
      }
      assert host.calls == old(host.calls) + WalkCalls(boardState, columns[..i]) + ColumnCalls(boardState, col);
      assert WalkCalls(boardState, [col]) == ColumnCalls(boardState, col) + WalkCalls(boardState, []);
      assert columns[..i + 1] == columns[..i] + [col];
      WalkCallsAppend(boardState, columns[..i], [col]);
      i := i + 1;
    }
    assert columns[..i] == columns;
  }

  // ---------------------------------------------------------------------
  // Scroll decision
  // ---------------------------------------------------------------------

  /** Scroll step (-1 back, 0 none, 1 forward) and whether the board scrolls. */
  datatype ScrollDirection = ScrollDirection(offset: int, scrolling: bool)

  function Abs(v: real): (r: real)
    ensures r >= 0.0 && (r == v || r == -v)
  {
    if v < 0.0 then -v else v
  }

  /** `s` lies strictly less than SCROLL_TRESHOLD away from `edge`, on either side. */
  predicate NearEdge(s: real, edge: real) {
    Abs(s - edge) < SCROLL_TRESHOLD
  }

  /** An absent (or zero) scroll offset counts as 0. */
  function ScrollOrZero(scrollY: Option<real>): real {
    if scrollY.Some? then scrollY.value else 0.0
  }

  /** `getScrollingDirection` */
  function GetScrollingDirection(column: ColumnModel, scrollY: Option<real>): (r: Option<ScrollDirection>)
    ensures r.None? <==> column.dimensions.None?
    ensures r.Some? ==> r.value.offset in {-1, 0, 1} && r.value.scrolling == (r.value.offset != 0)
    ensures r.Some? ==>
      var s := ScrollOrZero(scrollY);
      var top := column.dimensions.value.y;
      var bottom := column.dimensions.value.y + column.dimensions.value.height;
      && (r.value.offset == 1 <==> NearEdge(s, bottom))
      && (r.value.offset == -1 <==> !NearEdge(s, bottom) && NearEdge(s, top))
  {
    match column.dimensions
    case None => None
    case Some(layout) =>
      var s := ScrollOrZero(scrollY);
      var upperEnd := layout.y;
      var upper := s > upperEnd - SCROLL_TRESHOLD && s < upperEnd + SCROLL_TRESHOLD;
      var lowerEnd := layout.y + layout.height;
      var lower := s > lowerEnd - SCROLL_TRESHOLD && s < lowerEnd + SCROLL_TRESHOLD;
      var offset := if lower then 1 else if upper then -1 else 0;
      Some(ScrollDirection(offset, lower || upper))
  }

  /**
   * A column spanning y in [200, 800]: both edges scroll inside their open
   * windows, the window ends themselves do not, and an absent offset is 0.
   */
  lemma ScrollExamples()
    ensures var c := ColumnModel("c", Some(Rect(0.0, 200.0, 300.0, 600.0)), true);
      && GetScrollingDirection(c, Some(150.0)) == Some(ScrollDirection(-1, true))
      && GetScrollingDirection(c, Some(250.0)) == Some(ScrollDirection(-1, true))
      && GetScrollingDirection(c, Some(300.0)) == Some(ScrollDirection(0, false))
      && GetScrollingDirection(c, Some(500.0)) == Some(ScrollDirection(0, false))
      && GetScrollingDirection(c, Some(700.0)) == Some(ScrollDirection(0, false))
      && GetScrollingDirection(c, Some(750.0)) == Some(ScrollDirection(1, true))
      && GetScrollingDirection(c, Some(899.0)) == Some(ScrollDirection(1, true))
      && GetScrollingDirection(c, Some(900.0)) == Some(ScrollDirection(0, false))
      && GetScrollingDirection(c, None) == Some(ScrollDirection(0, false))
      && GetScrollingDirection(c.(dimensions := None), Some(500.0)) == None
  {
  }

  // ---------------------------------------------------------------------
  // Visibility filters
  // ---------------------------------------------------------------------

  predicate IsVisibleCard(card: CardModel) {
    card.isRenderedAndVisible
  }

  predicate IsVisibleColumn(column: ColumnModel) {
    column.isRenderedAndVisible
  }

  /** `getVisibleCards` */
  function GetVisibleCards(column: ColumnModel, boardState: BoardState): (r: seq<CardModel>)
    ensures column.id !in boardState.columnCardsMap ==> r == []
    ensures forall c :: c in r <==>
      column.id in boardState.columnCardsMap && c in boardState.columnCardsMap[column.id] && c.isRenderedAndVisible
  {
    if column.id !in boardState.columnCardsMap then []
    else
      var cards := boardState.columnCardsMap[column.id];
      FilterMembership(cards, IsVisibleCard);
      Filter(cards, IsVisibleCard)
  }

  /** The visible cards are the column's visible cards, each position once, in list order. */
  lemma VisibleCardsInOrder(column: ColumnModel, boardState: BoardState) returns (idx: seq<nat>)
    requires column.id in boardState.columnCardsMap
    ensures var cards := boardState.columnCardsMap[column.id];
      var r := GetVisibleCards(column, boardState);
      && |idx| == |r|
      && Increasing(idx)
      && (forall k :: 0 <= k < |idx| ==> idx[k] < |cards| && r[k] == cards[idx[k]])
      && (forall i :: 0 <= i < |cards| ==> (cards[i].isRenderedAndVisible <==> i in idx))
  {
    idx := FilterSelects(boardState.columnCardsMap[column.id], IsVisibleCard);
  }

  /** `getVisibleColumns` */
  function GetVisibleColumns(boardState: BoardState): (r: seq<ColumnModel>)
    requires boardState.Valid()
    ensures forall c :: c in r <==> c in boardState.columnsMap.Values() && c.isRenderedAndVisible
  {
    var columns := boardState.columnsMap.Values();
    FilterMembership(columns, IsVisibleColumn);
    Filter(columns, IsVisibleColumn)
  }

  /** The visible columns are the visible entries of the columns map, each once, in map order. */
  lemma VisibleColumnsInOrder(boardState: BoardState) returns (idx: seq<nat>)
    requires boardState.Valid()
    ensures var columns := boardState.columnsMap.Values();
      var r := GetVisibleColumns(boardState);
      && |idx| == |r|
      && Increasing(idx)
      && (forall k :: 0 <= k < |idx| ==> idx[k] < |columns| && r[k] == columns[idx[k]])
      && (forall i :: 0 <= i < |columns| ==> (columns[i].isRenderedAndVisible <==> i in idx))
  {
    idx := FilterSelects(boardState.columnsMap.Values(), IsVisibleColumn);
  }

  // ---------------------------------------------------------------------
  // Column hit-test
  // ---------------------------------------------------------------------

  /** The column is measured and x lies in its horizontal span, both ends included. */
  predicate SpansX(column: ColumnModel, x: real) {
    && column.dimensions.Some?
    && x >= column.dimensions.value.x
    && x <= column.dimensions.value.x + column.dimensions.value.width
  }

  /** The filter callback of `findColumn`. */
  function SpansAt(x: real): ColumnModel -> bool {
    c => SpansX(c, x)
  }

  /** `findColumn` */
  function FindColumn(boardState: BoardState, x: real): (r: Option<ColumnModel>)
    requires boardState.Valid()
    ensures r.Some? ==>
      && r.value in GetVisibleColumns(boardState)
      && r.value.dimensions.Some?
      && r.value.dimensions.value.x <= x <= r.value.dimensions.value.x + r.value.dimensions.value.width
  {
    var visibleColumns := GetVisibleColumns(boardState);
    var column := Filter(visibleColumns, SpansAt(x));
    FilterMembership(visibleColumns, SpansAt(x));
    if |column| > 0 then Some(column[0]) else None
  }

  /**
   * The column found is the earliest entry of the columns map that is
   * visible and spans x; there is none exactly when no such entry exists.
   */
  lemma FindColumnIsFirstHit(boardState: BoardState, x: real)
    requires boardState.Valid()
    ensures var columns := boardState.columnsMap.Values();
      forall i :: 0 <= i < |columns| && columns[i].isRenderedAndVisible && SpansX(columns[i], x)
        && (forall j :: 0 <= j < i ==> !(columns[j].isRenderedAndVisible && SpansX(columns[j], x)))
        ==> FindColumn(boardState, x) == Some(columns[i])
    ensures var columns := boardState.columnsMap.Values();
      FindColumn(boardState, x).None? <==>
        forall i :: 0 <= i < |columns| ==> !(columns[i].isRenderedAndVisible && SpansX(columns[i], x))
  {
    var columns := boardState.columnsMap.Values();
    var hit := c => IsVisibleColumn(c) && SpansX(c, x);
    FilterFilter(columns, IsVisibleColumn, SpansAt(x), hit);
    var hits := Filter(GetVisibleColumns(boardState), SpansAt(x));
    assert hits == Filter(columns, hit);
    FilterHeadIsFind(columns, hit);
    assert FindColumn(boardState, x) == Find(columns, hit);
  }

  // ---------------------------------------------------------------------
  // Card-slot resolution
  // ---------------------------------------------------------------------

  /** `isItemWithinY`: whether y falls in the claim zone of `item`, sized by the probe rectangle. */
  function IsItemWithinY(y: real, dimensions: Option<Rect>, item: CardModel): (b: bool)
    ensures item.dimensions.None? || dimensions.None? ==> !b
    ensures b ==> item.dimensions.value.y < y < item.dimensions.value.y + item.dimensions.value.height
    ensures item.dimensions.Some? && dimensions.Some? && dimensions.value.height == item.dimensions.value.height ==>
      (b <==> item.dimensions.value.y < y < item.dimensions.value.y + item.dimensions.value.height)
  {
    if item.dimensions.None? || dimensions.None? then false
    else
      var itemDimensions := item.dimensions.value;
      var probe := dimensions.value;
      var heightDiff := Abs(probe.height - itemDimensions.height);
      if heightDiff > itemDimensions.height then
        y > itemDimensions.y && y < itemDimensions.y + itemDimensions.height
      else if y < probe.y then
        y > itemDimensions.y && y < itemDimensions.y + itemDimensions.height - heightDiff
      else
        y > itemDimensions.y + heightDiff && y < itemDimensions.y + itemDimensions.height
  }

  /**
   * The zone a card claims when the probe's top is at the pointer: the
   * card's own span with its top lowered by the height difference, or the
   * whole span when that difference exceeds the card's height.
   */
  predicate DownwardClaim(probeHeight: real, y: real, item: CardModel) {
    && item.dimensions.Some?
    && var d := item.dimensions.value;
       var heightDiff := Abs(probeHeight - d.height);
       (if heightDiff > d.height then d.y else d.y + heightDiff) < y < d.y + d.height
  }

  /** With the probe's top at the pointer, the bottom-trimmed regime is never taken. */
  lemma ProbeAtPointer(y: real, probe: Rect, item: CardModel)
    requires probe.y == y
    ensures IsItemWithinY(y, Some(probe), item) <==> DownwardClaim(probe.height, y, item)
  {
  }

  /** The first item is measured and the pointer is at or above its top. */
  predicate ClampsToFirst(items: seq<CardModel>, y: real) {
    |items| > 0 && items[0].dimensions.Some? && y <= items[0].dimensions.value.y
  }

  /** The last item is measured and the pointer is at or below its top. */
  predicate ClampsToLast(items: seq<CardModel>, y: real) {
    |items| > 0 && items[|items| - 1].dimensions.Some? && y >= items[|items| - 1].dimensions.value.y
  }

  /** `getCardAtPosition` */
  function GetCardAtPosition(items: seq<CardModel>, y: real, dimensions: Option<Rect>): (r: Option<CardModel>)
    ensures |items| == 0 ==> r.None?
    ensures r.Some? ==> r.value in items
    ensures forall i :: 0 <= i < |items| && IsItemWithinY(y, dimensions, items[i])
                        && (forall j :: 0 <= j < i ==> !IsItemWithinY(y, dimensions, items[j]))
                        ==> r == Some(items[i])
    ensures (forall i :: 0 <= i < |items| ==> !IsItemWithinY(y, dimensions, items[i])) ==>
      && (ClampsToFirst(items, y) ==> r == Some(items[0]))
      && (!ClampsToFirst(items, y) && ClampsToLast(items, y) ==> r == Some(items[|items| - 1]))
    ensures r.None? <==>
      |items| == 0
      || ((forall i :: 0 <= i < |items| ==> !IsItemWithinY(y, dimensions, items[i]))
          && !ClampsToFirst(items, y) && !ClampsToLast(items, y))
  {
    if |items| == 0 then None
    else
      var item := Find(items, i => IsItemWithinY(y, dimensions, i));
      var firstItem := items[0];
      var item := if item.None? && firstItem.dimensions.Some? && y <= firstItem.dimensions.value.y
                  then Some(firstItem) else item;
      var lastItem := items[|items| - 1];
      var item := if item.None? && lastItem.dimensions.Some? && y >= lastItem.dimensions.value.y
                  then Some(lastItem) else item;
      item
  }

  /** Measured cards of positive height, each one ending at or above the top of every later one. */
  predicate Stacked(items: seq<CardModel>) {
    && (forall i :: 0 <= i < |items| ==> items[i].dimensions.Some? && items[i].dimensions.value.height > 0.0)
    && (forall i, j :: 0 <= i < j < |items| && items[i].dimensions.Some? && items[j].dimensions.Some? ==>
          items[i].dimensions.value.y + items[i].dimensions.value.height <= items[j].dimensions.value.y)
  }

  /** In a stacked column, a pointer at or above the first card's top selects the first card. */
  lemma ClampToFirst(items: seq<CardModel>, y: real, dimensions: Option<Rect>)
    requires Stacked(items) && |items| > 0
    requires y <= items[0].dimensions.value.y
    ensures GetCardAtPosition(items, y, dimensions) == Some(items[0])
  {
  }

  /** In a stacked column, a pointer at or below the last card's top selects the last card. */
  lemma ClampToLast(items: seq<CardModel>, y: real, dimensions: Option<Rect>)
    requires Stacked(items) && |items| > 0
    requires y >= items[|items| - 1].dimensions.value.y
    ensures GetCardAtPosition(items, y, dimensions) == Some(items[|items| - 1])
  {
  }

  /** Cards with tops at 0, 50 and 100 and height 40: above the column clamps to the first, below to the last. */
  lemma ClampExamples()
    ensures var rect := (top: real) => Some(Rect(0.0, top, 100.0, 40.0));
      var items := [CardModel("a", rect(0.0), true), CardModel("b", rect(50.0), true), CardModel("c", rect(100.0), true)];
      && GetCardAtPosition(items, -10.0, rect(-10.0)) == Some(items[0])
      && GetCardAtPosition(items, 500.0, rect(500.0)) == Some(items[2])
  {
  }

  /** The probe: the template card's rectangle moved to the pointer's y; None when it is unmeasured. */
  function ProbeAt(template: CardModel, y: real): Option<Rect> {
    match template.dimensions
    case None => None
    case Some(d) => Some(d.(y := y))
  }

  /** `findCardInColumn` */
  function FindCardInColumn(column: ColumnModel, boardState: BoardState, y: real): (r: Option<CardModel>)
    ensures GetVisibleCards(column, boardState) == [] ==> r.None?
    ensures r.Some? ==>
      && column.id in boardState.columnCardsMap
      && r.value in boardState.columnCardsMap[column.id]
      && r.value.isRenderedAndVisible
  {
    var visibleItems := GetVisibleCards(column, boardState);
    if |visibleItems| == 0 then None
    else GetCardAtPosition(visibleItems, y, ProbeAt(visibleItems[0], y))
  }

  /**
   * With the first visible card measured, the card found is the first
   * visible card whose downward claim zone, sized by the first card's
   * height, contains y; failing that, the first or last card by clamping.
   */
  lemma FindCardIsFirstClaim(column: ColumnModel, boardState: BoardState, y: real)
    requires |GetVisibleCards(column, boardState)| > 0
    requires GetVisibleCards(column, boardState)[0].dimensions.Some?
    ensures var items := GetVisibleCards(column, boardState);
      var h := items[0].dimensions.value.height;
      && (forall i :: 0 <= i < |items| && DownwardClaim(h, y, items[i])
           && (forall j :: 0 <= j < i ==> !DownwardClaim(h, y, items[j]))
           ==> FindCardInColumn(column, boardState, y) == Some(items[i]))
      && ((forall i :: 0 <= i < |items| ==> !DownwardClaim(h, y, items[i])) ==>
           FindCardInColumn(column, boardState, y) ==
             if ClampsToFirst(items, y) then Some(items[0])
             else if ClampsToLast(items, y) then Some(items[|items| - 1])
             else None)
  {
    var items := GetVisibleCards(column, boardState);
    var probe := items[0].dimensions.value.(y := y);
    forall i | 0 <= i < |items|
      ensures IsItemWithinY(y, Some(probe), items[i]) <==> DownwardClaim(probe.height, y, items[i])
    {
      ProbeAtPointer(y, probe, items[i]);
    }
  }

  /** When the first visible card is unmeasured no card claims the pointer; only the clamps remain. */
  lemma FindCardUnmeasuredTemplate(column: ColumnModel, boardState: BoardState, y: real)
    requires |GetVisibleCards(column, boardState)| > 0
    requires GetVisibleCards(column, boardState)[0].dimensions.None?
    ensures var items := GetVisibleCards(column, boardState);
      FindCardInColumn(column, boardState, y) ==
        if ClampsToLast(items, y) then Some(items[|items| - 1]) else None
  {
  }
}
