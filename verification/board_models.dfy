/**
 * The board snapshot the drag-target engine reads: measured rectangles,
 * column and card models (only the fields the engine looks at), and the
 * two maps of BoardState.
 */
module BoardModels {
  import opened Wrappers

  /** A measured screen rectangle. */
  datatype Rect = Rect(x: real, y: real, width: real, height: real)

  /** A column: `dimensions` is None until the layout has measured it. */
  datatype ColumnModel = ColumnModel(id: string, dimensions: Option<Rect>, isRenderedAndVisible: bool)

  /** A card: the payload, title, tags and order are never read by the engine and are left out. */
  datatype CardModel = CardModel(id: string, dimensions: Option<Rect>, isRenderedAndVisible: bool)

  /**
   * A JavaScript `Map<string, V>`: its keys in insertion order, each once,
   * and the entry stored under each key.
   */
  datatype OrderedMap<V> = OrderedMap(keys: seq<string>, entries: map<string, V>) {

    ghost predicate Valid() {
      && (forall i, j :: 0 <= i < j < |keys| ==> keys[i] != keys[j])
      && (forall k :: k in entries <==> k in keys)
    }

    /** `Array.from(map.values())`: the entries in insertion order. */
    function Values(): seq<V>
      requires Valid()
    {
      seq(|keys|, i requires 0 <= i < |keys| => entries[keys[i]])
    }
  }

  /**
   * The authoritative snapshot: column id to its cards in on-screen order,
   * and column id to its column model, in the order the columns were added.
   */
  datatype BoardState = BoardState(columnCardsMap: map<string, seq<CardModel>>, columnsMap: OrderedMap<ColumnModel>) {

    ghost predicate Valid() {
      columnsMap.Valid()
    }
  }
}
