/**
  Cloning on the heap: which maps and lists of a clone are new, and which it shares with its
  original. Maps and lists are map[string]any and []any; containers of any other type are passed
  on as they are by both clone functions, and are plain values here.
 */
module Sharing {
  import opened Values
  import opened Normalize
  import opened Payload

  /** A map or a list, which Go passes by reference. */
  class Box {
    var entries: map<string, Cell>
    var items: seq<Cell>

    constructor (entries: map<string, Cell>, items: seq<Cell>)
      ensures this.entries == entries && this.items == items
    {
      this.entries, this.items := entries, items;
    }
  }

  datatype Cell = Atom(value: Value) | NilCell | MapCell(box: Box) | ListCell(box: Box)

  /** The cell stands for this value, and all its maps and lists are among these boxes. */
  ghost predicate Shows(c: Cell, v: Value, boxes: set<Box>)
    reads boxes
    decreases v
  {
    match v
    case NilMap => c == NilCell
    case Map(m) =>
      && c.MapCell? && c.box in boxes && c.box.entries.Keys == m.Keys
      && forall k :: k in m ==> Shows(c.box.entries[k], m[k], boxes)
    case List(items) =>
      && c.ListCell? && c.box in boxes && |c.box.items| == |items|
      && forall i :: 0 <= i < |items| ==> Shows(c.box.items[i], items[i], boxes)
    case _ => c == Atom(v)
  }

  lemma {:induction false} ShowsMore(c: Cell, v: Value, boxes: set<Box>, more: set<Box>)
    requires Shows(c, v, boxes) && boxes <= more
    ensures Shows(c, v, more)
    decreases v
  {
    match v
    case Map(m) =>
      forall k | k in m ensures Shows(c.box.entries[k], m[k], more) {
        ShowsMore(c.box.entries[k], m[k], boxes, more);
      }
    case List(items) =>
      forall i | 0 <= i < |items| ensures Shows(c.box.items[i], items[i], more) {
        ShowsMore(c.box.items[i], items[i], boxes, more);
      }
    case _ =>
  }

  lemma {:induction false} ShowsBoth(c: Cell, v: Value, boxes: set<Box>, others: set<Box>)
    requires Shows(c, v, boxes) && Shows(c, v, others)
    ensures Shows(c, v, boxes * others)
    decreases v
  {
    match v
    case Map(m) =>
      forall k | k in m ensures Shows(c.box.entries[k], m[k], boxes * others) {
        ShowsBoth(c.box.entries[k], m[k], boxes, others);
      }
    case List(items) =>
      forall i | 0 <= i < |items| ensures Shows(c.box.items[i], items[i], boxes * others) {
        ShowsBoth(c.box.items[i], items[i], boxes, others);
      }
    case _ =>
  }

  // core: every map and list of the clone is new

  method CloneNormalizedValue(c: Cell, ghost v: Value, ghost boxes: set<Box>) returns (d: Cell, ghost own: set<Box>)
    requires Shows(c, v, boxes)
    ensures fresh(own) && Shows(d, Cloned(v), own)
    decreases v, 1
  {
    match c
    case Atom(_) => d, own := c, {};
    case NilCell => d, own := NilCell, {};
    case MapCell(b) => d, own := CloneMapStringAny(b, v, boxes);
    case ListCell(b) =>
      var items: seq<Cell> := [];
      ghost var parts: set<Box> := {};
      for i := 0 to |b.items|
        invariant fresh(parts) && |items| == i
        invariant forall j :: 0 <= j < i ==> Shows(items[j], Cloned(v.items[j]), parts)
      {
        var item, more := CloneNormalizedValue(b.items[i], v.items[i], boxes);
        ListGrows(items, Cloned(v).items[..i], parts, item, Cloned(v.items[i]), more);
        items := items + [item];
        parts := parts + more;
      }
      var out := new Box(map[], items);
      ListGrows(items, Cloned(v).items, parts, NilCell, NilMap, {out});
      d, own := ListCell(out), parts + {out};
  }

  /** Cells that show their values still do when another is cloned beside them. */
  lemma {:induction false} ListGrows(cells: seq<Cell>, values: seq<Value>, parts: set<Box>, item: Cell, v: Value,
                                     more: set<Box>)
    requires |cells| == |values| && forall j :: 0 <= j < |cells| ==> Shows(cells[j], values[j], parts)
    requires Shows(item, v, more)
    ensures forall j :: 0 <= j < |cells| ==> Shows(cells[j], values[j], parts + more)
    ensures Shows(item, v, parts + more)
  {
    forall j | 0 <= j < |cells| ensures Shows(cells[j], values[j], parts + more) {
      ShowsMore(cells[j], values[j], parts, parts + more);
    }
    ShowsMore(item, v, more, parts + more);
  }

  lemma {:induction false} MapGrows(cells: map<string, Cell>, v: Value, parts: set<Box>, more: set<Box>)
    requires v.Map? && cells.Keys <= v.entries.Keys
    requires forall k :: k in cells ==> Shows(cells[k], Cloned(v.entries[k]), parts)
    ensures forall k :: k in cells ==> Shows(cells[k], Cloned(v.entries[k]), parts + more)
  {
    forall k | k in cells ensures Shows(cells[k], Cloned(v.entries[k]), parts + more) {
      ShowsMore(cells[k], Cloned(v.entries[k]), parts, parts + more);
    }
  }

  method CloneMapStringAny(b: Box, ghost v: Value, ghost boxes: set<Box>) returns (d: Cell, ghost own: set<Box>)
    requires v.Map? && Shows(MapCell(b), v, boxes)
    ensures fresh(own) && Shows(d, Cloned(v), own)
    decreases v, 0, 1
  {
    EmptyMap(b.entries);
    EmptyMap(v.entries);
    if |b.entries| == 0 {
      return NilCell, {};
    }
    var entries, parts := CloneNormalizedEntries(b, v, boxes);
    var out := new Box(entries, []);
    MapGrows(entries, v, parts, {out});
    d, own := MapCell(out), parts + {out};
  }

  method CloneNormalizedEntries(b: Box, ghost v: Value, ghost boxes: set<Box>)
    returns (entries: map<string, Cell>, ghost parts: set<Box>)
    requires v.Map? && Shows(MapCell(b), v, boxes)
    ensures fresh(parts) && entries.Keys == v.entries.Keys
    ensures forall k :: k in entries ==> Shows(entries[k], Cloned(v.entries[k]), parts)
    decreases v, 0, 0
  {
    entries, parts := map[], {};
    var left := b.entries.Keys;
    while left != {}
      invariant fresh(parts)
      invariant left <= b.entries.Keys && entries.Keys == b.entries.Keys - left
      invariant forall k :: k in entries ==> Shows(entries[k], Cloned(v.entries[k]), parts)
      decreases |left|
    {
      var k :| k in left;
      var item, more := CloneNormalizedValue(b.entries[k], v.entries[k], boxes);
      MapGrows(entries, v, parts, more);
      ShowsMore(item, Cloned(v.entries[k]), more, parts + more);
      entries := entries[k := item];
      parts := parts + more;
      left := left - {k};
    }
  }

  // provider: maps, and maps directly inside lists, are new; a list inside a list is the original's

  predicate ListInList(v: Value) {
    match v
    case Map(m) => exists k :: k in m && ListInList(m[k])
    case List(items) => exists i :: 0 <= i < |items| && (items[i].List? || (items[i].Map? && ListInList(items[i])))
    case _ => false
  }

  /** A copy made of its own boxes and perhaps the original's; it needs those exactly when `shared`. */
  ghost predicate Copied(c: Cell, v: Value, shared: bool, own: set<Box>, boxes: set<Box>)
    reads own, boxes
  {
    Shows(c, v, own + boxes) && (Shows(c, v, own) <==> !shared)
  }

  lemma {:induction false} CopiedMore(c: Cell, v: Value, shared: bool, own: set<Box>, more: set<Box>, boxes: set<Box>)
    requires Copied(c, v, shared, own, boxes) && more !! boxes
    ensures Copied(c, v, shared, own + more, boxes)
  {
    ShowsMore(c, v, own + boxes, own + more + boxes);
    if Shows(c, v, own) {
      ShowsMore(c, v, own, own + more);
    }
    if Shows(c, v, own + more) {
      ShowsBoth(c, v, own + more, own + boxes);
      assert (own + more) * (own + boxes) == own;
    }
  }

  method CloneMap(b: Box, ghost v: Value, ghost boxes: set<Box>) returns (d: Cell, ghost own: set<Box>)
    requires v.Map? && Shows(MapCell(b), v, boxes)
    ensures fresh(own) && Copied(d, CloneValue(v), ListInList(v), own, boxes)
    decreases v, 0, 1
  {
    EmptyMap(b.entries);
    EmptyMap(v.entries);
    if |b.entries| == 0 {
      return NilCell, {};
    }
    var entries, parts := CloneEntries(b, v, boxes);
    d, own := NewMap(entries, v, parts, boxes);
  }

  method NewMap(entries: map<string, Cell>, ghost v: Value, ghost parts: set<Box>, ghost boxes: set<Box>)
    returns (d: Cell, ghost own: set<Box>)
    requires v.Map? && |v.entries| > 0 && entries.Keys == v.entries.Keys
    requires forall k :: k in v.entries ==>
               Copied(entries[k], CloneValue(v.entries[k]), ListInList(v.entries[k]), parts, boxes)
    ensures parts <= own && fresh(own - parts) && Copied(d, CloneValue(v), ListInList(v), own, boxes)
  {
    var out := new Box(entries, []);
    MapCopied(entries, v, parts, {out}, boxes);
    d, own := MapCell(out), parts + {out};
    MapCopy(out, v, own, boxes);
  }

  /** A new map of copies is a copy. */
  lemma {:induction false} MapCopy(out: Box, v: Value, own: set<Box>, boxes: set<Box>)
    requires v.Map? && |v.entries| > 0 && out in own && out.entries.Keys == v.entries.Keys
    requires forall k :: k in v.entries ==>
               Copied(out.entries[k], CloneValue(v.entries[k]), ListInList(v.entries[k]), own, boxes)
    ensures Copied(MapCell(out), CloneValue(v), ListInList(v), own, boxes)
  {
    assert forall k :: k in v.entries ==> CloneValue(v).entries[k] == CloneValue(v.entries[k]);
  }

  method CloneEntries(b: Box, ghost v: Value, ghost boxes: set<Box>)
    returns (entries: map<string, Cell>, ghost parts: set<Box>)
    requires v.Map? && Shows(MapCell(b), v, boxes)
    ensures fresh(parts) && entries.Keys == v.entries.Keys
    ensures forall k :: k in entries ==>
              Copied(entries[k], CloneValue(v.entries[k]), ListInList(v.entries[k]), parts, boxes)
    decreases v, 0, 0
  {
    entries, parts := map[], {};
    var left := b.entries.Keys;
    while left != {}
      invariant fresh(parts)
      invariant left <= b.entries.Keys && entries.Keys == b.entries.Keys - left
      invariant forall k :: k in entries ==>
                  Copied(entries[k], CloneValue(v.entries[k]), ListInList(v.entries[k]), parts, boxes)
      decreases |left|
    {
      var k :| k in left;
      var item, more := CloneOne(b.entries[k], v.entries[k], boxes);
      MapCopied(entries, v, parts, more, boxes);
      CopiedMore(item, CloneValue(v.entries[k]), ListInList(v.entries[k]), more, parts, boxes);
      assert more + parts == parts + more;
      entries := entries[k := item];
      parts := parts + more;
      left := left - {k};
    }
  }

  lemma {:induction false} MapCopied(cells: map<string, Cell>, v: Value, own: set<Box>, more: set<Box>,
                                     boxes: set<Box>)
    requires v.Map? && cells.Keys <= v.entries.Keys && more !! boxes
    requires forall k :: k in cells ==>
               Copied(cells[k], CloneValue(v.entries[k]), ListInList(v.entries[k]), own, boxes)
    ensures forall k :: k in cells ==>
              Copied(cells[k], CloneValue(v.entries[k]), ListInList(v.entries[k]), own + more, boxes)
  {
    forall k | k in cells
      ensures Copied(cells[k], CloneValue(v.entries[k]), ListInList(v.entries[k]), own + more, boxes)
    {
      CopiedMore(cells[k], CloneValue(v.entries[k]), ListInList(v.entries[k]), own, more, boxes);
    }
  }

  predicate SharedItem(v: Value) {
    v.List? || (v.Map? && ListInList(v))
  }

  method CloneOne(c: Cell, ghost v: Value, ghost boxes: set<Box>) returns (d: Cell, ghost own: set<Box>)
    requires Shows(c, v, boxes)
    ensures fresh(own) && Copied(d, CloneValue(v), ListInList(v), own, boxes)
    decreases v, 1
  {
    match c
    case MapCell(b) => d, own := CloneMap(b, v, boxes);
    case ListCell(b) =>
      var items, parts := CloneItems(b, v, boxes);
      var out := new Box(map[], items);
      ListCopied(items, v.items, parts, {out}, boxes);
      d, own := ListCell(out), parts + {out};
    case _ => d, own := c, {};
  }

  method CloneItems(b: Box, ghost v: Value, ghost boxes: set<Box>) returns (items: seq<Cell>, ghost parts: set<Box>)
    requires v.List? && Shows(ListCell(b), v, boxes)
    ensures fresh(parts) && |items| == |v.items|
    ensures forall j :: 0 <= j < |items| ==>
              Copied(items[j], CloneItem(v.items[j]), SharedItem(v.items[j]), parts, boxes)
    decreases v, 0
  {
    items, parts := [], {};
    for i := 0 to |b.items|
      invariant fresh(parts) && |items| == i
      invariant forall j :: 0 <= j < i ==>
                  Copied(items[j], CloneItem(v.items[j]), SharedItem(v.items[j]), parts, boxes)
    {
      var item, more := CloneListItem(b.items[i], v.items[i], boxes);
      ListCopied(items, v.items[..i], parts, more, boxes);
      CopiedMore(item, CloneItem(v.items[i]), SharedItem(v.items[i]), more, parts, boxes);
      assert more + parts == parts + more;
      items := items + [item];
      parts := parts + more;
    }
  }

  lemma {:induction false} ListCopied(cells: seq<Cell>, values: seq<Value>, own: set<Box>, more: set<Box>,
                                      boxes: set<Box>)
    requires |cells| == |values| && more !! boxes
    requires forall j :: 0 <= j < |cells| ==> Copied(cells[j], CloneItem(values[j]), SharedItem(values[j]), own, boxes)
    ensures forall j :: 0 <= j < |cells| ==>
              Copied(cells[j], CloneItem(values[j]), SharedItem(values[j]), own + more, boxes)
  {
    forall j | 0 <= j < |cells|
      ensures Copied(cells[j], CloneItem(values[j]), SharedItem(values[j]), own + more, boxes)
    {
      CopiedMore(cells[j], CloneItem(values[j]), SharedItem(values[j]), own, more, boxes);
    }
  }

  method CloneListItem(c: Cell, ghost v: Value, ghost boxes: set<Box>) returns (d: Cell, ghost own: set<Box>)
    requires Shows(c, v, boxes)
    ensures fresh(own) && Copied(d, CloneItem(v), SharedItem(v), own, boxes)
    decreases v, 1
  {
    match c
    case MapCell(b) => d, own := CloneMap(b, v, boxes);
    case _ =>
      d, own := c, {};
      assert {} + boxes == boxes;
  }
}
