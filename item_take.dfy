/**
 * The take screen: units move one at a time between the items available at
 * the current location and the items about to be taken. Both handlers run
 * the same step in opposite directions.
 */
module ItemTake {
  import opened Wrappers
  import opened DbModels
  import opened Client

  /** A unit moves when the first entry for `id` exists and holds one. */
  predicate Moves(src: seq<ClientItem>, id: Id)
  {
    FirstWithId(src, id).Some? && src[FirstWithId(src, id).value].quantity > 0
  }

  datatype Lists = Lists(src: seq<ClientItem>, dst: seq<ClientItem>)

  /**
   * One unit of `id` leaves the first matching source entry, which is dropped
   * once it is empty, and joins the first matching destination entry, or a
   * new entry of quantity 1 at the end.
   */
  function MoveOne(src: seq<ClientItem>, dst: seq<ClientItem>, id: Id): Lists
  {
    match FirstWithId(src, id)
    case None => Lists(src, dst)
    case Some(i) =>
      if src[i].quantity <= 0 then Lists(src, dst)
      else Lists(Decremented(src, i), Incremented(dst, src[i]))
  }

  /** The source after entry `i` gives up a unit: the entry is dropped once it is empty. */
  function Decremented(src: seq<ClientItem>, i: nat): seq<ClientItem>
    requires i < |src| && src[i].quantity > 0
  {
    var item := src[i].(quantity := src[i].quantity - 1);
    if item.quantity == 0 then src[..i] + src[i + 1..] else src[i := item]
  }

  /** The destination after receiving a unit of `e`: its first entry for `e.id` grows, or a new entry of 1 is appended. */
  function Incremented(dst: seq<ClientItem>, e: ClientItem): seq<ClientItem>
  {
    match FirstWithId(dst, e.id)
    case Some(k) => dst[k := dst[k].(quantity := dst[k].quantity + 1)]
    case None => dst + [NewItem(e.id, e.itemType, e.code, e.name, 1, e.defaultLocation)]
  }

  /** The units of `x` a list holds: the sum of its entries for `x`. */
  function QtyOf(list: seq<ClientItem>, x: Id): int
  {
    if list == [] then 0 else QtyOf(list[..|list| - 1], x) + Units(list[|list| - 1], x)
  }

  function Units(e: ClientItem, x: Id): int
  {
    if e.id == x then e.quantity else 0
  }

  lemma {:induction false} QtyAppend(a: seq<ClientItem>, b: seq<ClientItem>, x: Id)
    ensures QtyOf(a + b, x) == QtyOf(a, x) + QtyOf(b, x)
  {
    if b == [] {
      assert a + b == a;
    } else {
      var b' := b[..|b| - 1];
      assert (a + b)[..|a + b| - 1] == a + b';
      QtyAppend(a, b', x);
    }
  }

  lemma QtySingle(e: ClientItem, x: Id)
    ensures QtyOf([e], x) == Units(e, x)
  {
    assert [e][..0] == [];
  }

  lemma QtyUpdate(list: seq<ClientItem>, k: nat, e: ClientItem, x: Id)
    requires k < |list|
    ensures QtyOf(list[k := e], x) == QtyOf(list, x) - Units(list[k], x) + Units(e, x)
  {
    var pre, post := list[..k], list[k + 1..];
    assert list == pre + [list[k]] + post;
    assert list[k := e] == pre + [e] + post;
    QtyAppend(pre + [list[k]], post, x);
    QtyAppend(pre + [e], post, x);
    QtyAppend(pre, [list[k]], x);
    QtyAppend(pre, [e], x);
    QtySingle(list[k], x);
    QtySingle(e, x);
  }

  lemma QtyRemove(list: seq<ClientItem>, k: nat, x: Id)
    requires k < |list|
    ensures QtyOf(list[..k] + list[k + 1..], x) == QtyOf(list, x) - Units(list[k], x)
  {
    var pre, post := list[..k], list[k + 1..];
    assert list == pre + [list[k]] + post;
    QtyAppend(pre + [list[k]], post, x);
    QtyAppend(pre, [list[k]], x);
    QtyAppend(pre, post, x);
    QtySingle(list[k], x);
  }

  /**
   * A step moves exactly one unit of `id`, and only of `id`, from the source
   * to the destination, so the units of every id across both lists are kept;
   * when no unit moves, both lists are unchanged.
   */
  lemma MoveShiftsOneUnit(src: seq<ClientItem>, dst: seq<ClientItem>, id: Id, x: Id)
    ensures !Moves(src, id) ==> MoveOne(src, dst, id) == Lists(src, dst)
    ensures var r := MoveOne(src, dst, id);
      var d := if Moves(src, id) && x == id then 1 else 0;
      QtyOf(r.src, x) == QtyOf(src, x) - d && QtyOf(r.dst, x) == QtyOf(dst, x) + d
    ensures var r := MoveOne(src, dst, id);
      QtyOf(r.src, x) + QtyOf(r.dst, x) == QtyOf(src, x) + QtyOf(dst, x)
  {
    if Moves(src, id) {
      var i := FirstWithId(src, id).value;
      DecrementedUnits(src, i, x);
      IncrementedUnits(dst, src[i], x);
    }
  }

  lemma DecrementedUnits(src: seq<ClientItem>, i: nat, x: Id)
    requires i < |src| && src[i].quantity > 0
    ensures QtyOf(Decremented(src, i), x) == QtyOf(src, x) - (if src[i].id == x then 1 else 0)
  {
    if src[i].quantity == 1 {
      QtyRemove(src, i, x);
    } else {
      QtyUpdate(src, i, src[i].(quantity := src[i].quantity - 1), x);
    }
  }

  lemma IncrementedUnits(dst: seq<ClientItem>, e: ClientItem, x: Id)
    ensures QtyOf(Incremented(dst, e), x) == QtyOf(dst, x) + (if e.id == x then 1 else 0)
  {
    match FirstWithId(dst, e.id)
    case Some(k) =>
      QtyUpdate(dst, k, dst[k].(quantity := dst[k].quantity + 1), x);
    case None =>
      var n := NewItem(e.id, e.itemType, e.code, e.name, 1, e.defaultLocation);
      QtyAppend(dst, [n], x);
      QtySingle(n, x);
  }

  predicate DistinctIds(list: seq<ClientItem>)
  {
    forall i, j :: 0 <= i < j < |list| ==> list[i].id != list[j].id
  }

  /** Every entry holds at least one unit. */
  predicate Positive(list: seq<ClientItem>)
  {
    forall i :: 0 <= i < |list| ==> list[i].quantity >= 1
  }

  /**
   * A step never creates a second entry for an id, keeps every entry
   * non-empty, and leaves no entry for `id` in a source whose only entry for
   * it held its last unit.
   */
  lemma MoveKeepsListsWellFormed(src: seq<ClientItem>, dst: seq<ClientItem>, id: Id)
    ensures var r := MoveOne(src, dst, id);
      (DistinctIds(src) ==> DistinctIds(r.src)) && (DistinctIds(dst) ==> DistinctIds(r.dst))
    ensures var r := MoveOne(src, dst, id);
      Positive(src) && Positive(dst) ==> Positive(r.src) && Positive(r.dst)
    ensures var r := MoveOne(src, dst, id);
      (DistinctIds(src) && Moves(src, id) && src[FirstWithId(src, id).value].quantity == 1 ==>
         forall e :: e in r.src ==> e.id != id)
  {
    if Moves(src, id) {
      var i := FirstWithId(src, id).value;
      DecrementedWellFormed(src, i);
      IncrementedWellFormed(dst, src[i]);
    }
  }

  lemma DecrementedWellFormed(src: seq<ClientItem>, i: nat)
    requires i < |src| && src[i].quantity > 0
    ensures DistinctIds(src) ==> DistinctIds(Decremented(src, i))
    ensures Positive(src) ==> Positive(Decremented(src, i))
    ensures DistinctIds(src) && src[i].quantity == 1 ==> forall e :: e in Decremented(src, i) ==> e.id != src[i].id
  {
    if src[i].quantity == 1 {
      var s' := src[..i] + src[i + 1..];
      assert forall j :: 0 <= j < i ==> s'[j] == src[j];
      assert forall j :: i <= j < |s'| ==> s'[j] == src[j + 1];
    }
  }

  lemma IncrementedWellFormed(dst: seq<ClientItem>, e: ClientItem)
    ensures DistinctIds(dst) ==> DistinctIds(Incremented(dst, e))
    ensures Positive(dst) ==> Positive(Incremented(dst, e))
  {
    if FirstWithId(dst, e.id).None? {
      var d' := Incremented(dst, e);
      assert forall j :: 0 <= j < |dst| ==> d'[j] == dst[j];
    }
  }

  /** After a unit moves, the destination's first entry for `id` holds a unit, so the reverse step moves it back. */
  lemma MovedUnitCanMoveBack(src: seq<ClientItem>, dst: seq<ClientItem>, id: Id)
    requires Moves(src, id) && Positive(dst)
    ensures Moves(MoveOne(src, dst, id).dst, id)
  {
    var i := FirstWithId(src, id).value;
    var item := src[i].(quantity := src[i].quantity - 1);
    match FirstWithId(dst, id)
    case Some(k) =>
      FirstWithIdIs(dst[k := dst[k].(quantity := dst[k].quantity + 1)], id, k);
    case None =>
      var d' := dst + [NewItem(item.id, item.itemType, item.code, item.name, 1, item.defaultLocation)];
      FirstWithIdIs(d', id, |dst|);
  }

  /**
   * Taking a unit and returning it leaves every id with the units it had in
   * both lists (the order of the entries may differ).
   */
  lemma TakeThenReturnRestores(available: seq<ClientItem>, taking: seq<ClientItem>, id: Id, x: Id)
    requires Moves(available, id) && Positive(taking)
    ensures var r1 := MoveOne(available, taking, id);
      var r2 := MoveOne(r1.dst, r1.src, id);
      QtyOf(r2.dst, x) == QtyOf(available, x) && QtyOf(r2.src, x) == QtyOf(taking, x)
  {
    var r1 := MoveOne(available, taking, id);
    MoveShiftsOneUnit(available, taking, id, x);
    MovedUnitCanMoveBack(available, taking, id);
    MoveShiftsOneUnit(r1.dst, r1.src, id, x);
  }

  /** The component's two lists. */
  class ItemTakeComponent {
    var availableItems: seq<ClientItem>
    var takeItems: seq<ClientItem>

    /** The screen once the items available at the chosen location have arrived. */
    constructor(available: seq<ClientItem>)
      ensures availableItems == available && takeItems == []
    {
      availableItems := available;
      takeItems := [];
    }

    /** Moves one unit of `itemId` from `availableItems` to `takeItems`. */
    method TakeItem(itemId: Id)
      modifies this
      ensures Lists(availableItems, takeItems) == MoveOne(old(availableItems), old(takeItems), itemId)
    {
      availableItems, takeItems := Move(availableItems, takeItems, itemId);
    }

    /** Moves one unit of `itemId` back from `takeItems` to `availableItems`. */
    method ReturnItem(itemId: Id)
      modifies this
      ensures Lists(takeItems, availableItems) == MoveOne(old(takeItems), old(availableItems), itemId)
    {
      takeItems, availableItems := Move(takeItems, availableItems, itemId);
    }
  }

  /** The body both handlers share: search, decrement and drop, then increment or append. */
  method Move(src: seq<ClientItem>, dst: seq<ClientItem>, id: Id) returns (src': seq<ClientItem>, dst': seq<ClientItem>)
    ensures Lists(src', dst') == MoveOne(src, dst, id)
  {
    src', dst' := src, dst;
    var i := 0;
    var found := false;
    while i < |src|
      invariant 0 <= i <= |src|
      invariant forall j :: 0 <= j < i ==> src[j].id != id
    {
      if src[i].id == id {
        found := true;
        break;
      }
      i := i + 1;
    }
    if found {
      FirstWithIdIs(src, id, i);
    }
    if found && src[i].quantity > 0 {
      var item := src[i].(quantity := src[i].quantity - 1);
      if item.quantity == 0 {
        src' := src[..i] + src[i + 1..];
      } else {
        src' := src[i := item];
      }
      var k := 0;
      while k < |dst|
        invariant 0 <= k <= |dst|
        invariant forall j :: 0 <= j < k ==> dst[j].id != id
      {
        if dst[k].id == id {
          FirstWithIdIs(dst, id, k);
          dst' := dst[k := dst[k].(quantity := dst[k].quantity + 1)];
          return;
        }
        k := k + 1;
      }
      dst' := dst + [NewItem(item.id, item.itemType, item.code, item.name, 1, item.defaultLocation)];
    }
  }
}
