/**
 * The server's take/return bookkeeping: the availability list of a permanent
 * location, recording takes of items to another location, and settling one
 * returned piece against the caller's first outstanding take there.
 *
 * The two collections are held in memory by `Database`; a save is an
 * assignment to the collection. Each handler runs as one sequential step.
 */
module ItemsController {
  import opened Wrappers
  import opened DbModels
  import opened Ledger

  // ------------------------------------------------------------- lookups

  /**
   * The ids of the item documents, in store order. Items and locations are
   * different record types, so each collection has its own projection onto
   * ids; the lookup over ids, `IdIndex`, is shared.
   */
  function ItemIds(items: seq<Item>): (r: seq<Id>)
    ensures |r| == |items| && forall k :: 0 <= k < |items| ==> r[k] == items[k].id
  {
    seq(|items|, k requires 0 <= k < |items| => items[k].id)
  }

  /** The ids of the location documents, in store order. */
  function LocationIds(locations: seq<Location>): (r: seq<Id>)
    ensures |r| == |locations| && forall k :: 0 <= k < |locations| ==> r[k] == locations[k].id
  {
    seq(|locations|, k requires 0 <= k < |locations| => locations[k].id)
  }

  /** The position of the item document `findById(id)` returns: the first with that id. */
  function ItemIndex(items: seq<Item>, id: Id): (r: Option<nat>)
    ensures r.Some? ==> r.value < |items| && items[r.value].id == id
    ensures r.Some? ==> forall j :: 0 <= j < r.value ==> items[j].id != id
    ensures r.None? <==> forall j :: 0 <= j < |items| ==> items[j].id != id
  {
    var ids := ItemIds(items);
    var r := IdIndex(ids, id);
    assert forall j :: 0 <= j < |items| ==> ids[j] in ids;
    assert r.Some? ==> forall j :: 0 <= j < r.value ==> ids[..r.value][j] == items[j].id;
    r
  }

  /** The position of the location document `findById(id)` returns. */
  function LocationIndex(locations: seq<Location>, id: Id): (r: Option<nat>)
    ensures r.Some? ==> r.value < |locations| && locations[r.value].id == id
    ensures r.Some? ==> forall j :: 0 <= j < r.value ==> locations[j].id != id
    ensures r.None? <==> forall j :: 0 <= j < |locations| ==> locations[j].id != id
  {
    var ids := LocationIds(locations);
    var r := IdIndex(ids, id);
    assert forall j :: 0 <= j < |locations| ==> ids[j] in ids;
    assert r.Some? ==> forall j :: 0 <= j < r.value ==> ids[..r.value][j] == locations[j].id;
    r
  }

  /** `indexOf`: the first position of `x`. */
  function IdIndex(s: seq<Id>, x: Id): (r: Option<nat>)
    ensures r.Some? ==> r.value < |s| && s[r.value] == x && x !in s[..r.value]
    ensures r.None? <==> x !in s
  {
    if s == [] then None
    else if s[0] == x then Some(0)
    else match IdIndex(s[1..], x)
      case None => None
      case Some(k) =>
        assert s[..k + 1] == [s[0]] + s[1..][..k];
        Some(k + 1)
  }

  /** `splice(indexOf(x), 1)` when `x` occurs; the sequence unchanged otherwise. */
  function RemoveFirst(s: seq<Id>, x: Id): (r: seq<Id>)
    ensures x !in s ==> r == s
    ensures x in s ==> |r| == |s| - 1 && multiset(r) == multiset(s) - multiset{x}
  {
    match IdIndex(s, x)
    case None => s
    case Some(i) =>
      assert s == s[..i] + [s[i]] + s[i + 1..];
      s[..i] + s[i + 1..]
  }

  predicate NoDup(s: seq<Id>)
  {
    forall i, j :: 0 <= i < j < |s| ==> s[i] != s[j]
  }

  /** On a list without duplicates, removing the first occurrence removes the id altogether. */
  lemma RemoveFirstNoDup(s: seq<Id>, x: Id)
    requires NoDup(s)
    ensures NoDup(RemoveFirst(s, x)) && x !in RemoveFirst(s, x)
  {
    if x in s {
      var i := IdIndex(s, x).value;
      var r := RemoveFirst(s, x);
      assert r == s[..i] + s[i + 1..];
      assert forall a :: 0 <= a < |r| ==> r[a] == s[if a < i then a else a + 1];
    }
  }

  // --------------------------------------------------------- the stores

  datatype Stores = Stores(items: seq<Item>, locations: seq<Location>)

  /** Every location lists each item at most once. */
  predicate LinksDistinct(s: Stores)
  {
    forall j :: 0 <= j < |s.locations| ==> NoDup(s.locations[j].items)
  }

  // ---------------------------------------------------- availableItems

  /** The quantity still at the default location: stored minus outstanding. */
  function Effective(item: Item): int
  {
    item.quantity - Outstanding(item.taken, Anywhere)
  }

  /** Whether the availability list of `locId` shows `item`. */
  predicate Listed(item: Item, locId: Id)
  {
    item.defaultLocation == locId && (item.taken == [] || Effective(item) > 0)
  }

  /** How the list shows it: untouched when never taken, else with its effective quantity. */
  function Shown(item: Item): Item
  {
    if item.taken == [] then item else item.(quantity := Effective(item))
  }

  /** The availability list of `locId`, in store order. */
  function AvailableView(store: seq<Item>, locId: Id): (r: seq<Item>)
    ensures |r| <= |store|
    ensures forall x :: x in r ==> x.defaultLocation == locId
    ensures forall k :: 0 <= k < |store| && Listed(store[k], locId) ==> Shown(store[k]) in r
    ensures forall x :: x in r ==> exists k :: 0 <= k < |store| && Listed(store[k], locId) && x == Shown(store[k])
    ensures forall x :: x in r && x.taken != [] ==> x.quantity > 0
  {
    if store == [] then []
    else
      var init := store[..|store| - 1];
      var last := store[|store| - 1];
      assert forall k :: 0 <= k < |init| ==> init[k] == store[k];
      AvailableView(init, locId) + (if Listed(last, locId) then [Shown(last)] else [])
  }

  /** The list keeps store order: the view of a concatenation is the concatenation of the views. */
  lemma {:induction false} AvailableViewAppend(a: seq<Item>, b: seq<Item>, locId: Id)
    ensures AvailableView(a + b, locId) == AvailableView(a, locId) + AvailableView(b, locId)
  {
    if b == [] {
      assert a + b == a;
    } else {
      var b' := b[..|b| - 1];
      assert (a + b)[..|a + b| - 1] == a + b';
      assert (a + b)[|a + b| - 1] == b[|b| - 1];
      AvailableViewAppend(a, b', locId);
    }
  }

  /** A never-taken item is listed with its stored quantity, whatever that is. */
  lemma UntakenItemShownAsStored(item: Item, locId: Id)
    requires item.defaultLocation == locId && item.taken == []
    ensures AvailableView([item], locId) == [item]
  {
    assert [item][..0] == [];
  }

  /** A taken item is listed exactly when stored minus outstanding is positive, and then with that quantity. */
  lemma TakenItemShownEffective(item: Item, locId: Id)
    requires item.defaultLocation == locId && item.taken != []
    ensures AvailableView([item], locId) ==
      if item.quantity - Outstanding(item.taken, Anywhere) > 0
      then [item.(quantity := item.quantity - Outstanding(item.taken, Anywhere))]
      else []
  {
    assert [item][..0] == [];
  }

  // --------------------------------------------------------- takeItems

  /** One entry of the request body: which item and how many pieces. */
  datatype TakeRequest = TakeRequest(id: Id, quantity: int)

  datatype Failure = ItemNotFound(item: Id) | LocationNotFound(location: Id)

  /** The stores after a step, and the failure that stopped it, if any. */
  datatype Run = Run(state: Stores, failure: Option<Failure>)

  function NewTake(user: Id, req: TakeRequest, toLocation: Id, now: Date): Take
  {
    Take(user, req.quantity, toLocation, now, None)
  }

  /**
   * One requested item: push a take onto the item and save it, then link the
   * item into the destination location unless it is already there. The item
   * is saved before the location is looked up.
   */
  function TakeStep(s: Stores, user: Id, toLocation: Id, req: TakeRequest, now: Date): Run
  {
    match ItemIndex(s.items, req.id)
    case None => Run(s, Some(ItemNotFound(req.id)))
    case Some(i) =>
      var item := s.items[i];
      var s1 := s.(items := s.items[i := item.(taken := item.taken + [NewTake(user, req, toLocation, now)])]);
      match LocationIndex(s1.locations, toLocation)
      case None => Run(s1, Some(LocationNotFound(toLocation)))
      case Some(j) =>
        var loc := s1.locations[j];
        if req.id in loc.items then Run(s1, None)
        else Run(s1.(locations := s1.locations[j := loc.(items := loc.items + [req.id])]), None)
  }

  /** The requests in order; the first failure stops the rest, keeping what earlier ones saved. */
  function TakeAll(s: Stores, user: Id, toLocation: Id, reqs: seq<TakeRequest>, now: Date): Run
  {
    if reqs == [] then Run(s, None)
    else
      var prior := TakeAll(s, user, toLocation, reqs[..|reqs| - 1], now);
      if prior.failure.Some? then prior
      else TakeStep(prior.state, user, toLocation, reqs[|reqs| - 1], now)
  }

  /** A take appends exactly one take, by the caller, of the requested quantity, to the named item only. */
  lemma TakeStepRecordsOneTake(s: Stores, user: Id, toLocation: Id, req: TakeRequest, now: Date)
    ensures ItemIndex(s.items, req.id).None? ==> TakeStep(s, user, toLocation, req, now) == Run(s, Some(ItemNotFound(req.id)))
    ensures ItemIndex(s.items, req.id).Some? ==>
      var i := ItemIndex(s.items, req.id).value;
      var after := TakeStep(s, user, toLocation, req, now).state.items;
      && |after| == |s.items|
      && after[i] == s.items[i].(taken := s.items[i].taken + [Take(user, req.quantity, toLocation, now, None)])
      && forall j :: 0 <= j < |s.items| && j != i ==> after[j] == s.items[j]
  {
  }

  /** With both documents found, the item is listed at the destination afterwards, and listed once. */
  lemma TakeStepLinksOnce(s: Stores, user: Id, toLocation: Id, req: TakeRequest, now: Date)
    requires ItemIndex(s.items, req.id).Some? && LocationIndex(s.locations, toLocation).Some?
    ensures var r := TakeStep(s, user, toLocation, req, now);
      var j := LocationIndex(s.locations, toLocation).value;
      && r.failure.None?
      && |r.state.locations| == |s.locations|
      && req.id in r.state.locations[j].items
      && r.state.locations[j].items ==
           (if req.id in s.locations[j].items then s.locations[j].items else s.locations[j].items + [req.id])
      && (forall k :: 0 <= k < |s.locations| && k != j ==> r.state.locations[k] == s.locations[k])
      && (LinksDistinct(s) ==> LinksDistinct(r.state))
  {
    var r := TakeStep(s, user, toLocation, req, now);
    var j := LocationIndex(s.locations, toLocation).value;
    if LinksDistinct(s) && req.id !in s.locations[j].items {
      var l := s.locations[j].items + [req.id];
      assert forall a :: 0 <= a < |l| - 1 ==> l[a] == s.locations[j].items[a];
      assert NoDup(l);
    }
  }

  /** Taking `n` pieces lowers the item's effective quantity by `n`. */
  lemma TakeLowersAvailability(s: Stores, user: Id, toLocation: Id, req: TakeRequest, now: Date)
    requires ItemIndex(s.items, req.id).Some?
    ensures var i := ItemIndex(s.items, req.id).value;
      Effective(TakeStep(s, user, toLocation, req, now).state.items[i]) == Effective(s.items[i]) - req.quantity
  {
    var i := ItemIndex(s.items, req.id).value;
    OutstandingAppend(s.items[i].taken, [NewTake(user, req, toLocation, now)], Anywhere);
    assert [NewTake(user, req, toLocation, now)][..0] == [];
  }

  /** The total number of take records across the items. */
  function TakeCount(items: seq<Item>): nat
  {
    if items == [] then 0 else TakeCount(items[..|items| - 1]) + |items[|items| - 1].taken|
  }

  lemma {:induction false} TakeCountUpdate(items: seq<Item>, i: nat, x: Item)
    requires i < |items|
    ensures TakeCount(items[i := x]) == TakeCount(items) - |items[i].taken| + |x.taken|
  {
    var n := |items| - 1;
    var u := items[i := x];
    assert u[..n] == if i == n then items[..n] else items[..n][i := x];
    if i < n {
      TakeCountUpdate(items[..n], i, x);
    }
  }

  /** A take request that succeeds adds exactly one take record. */
  lemma TakeStepCount(s: Stores, user: Id, toLocation: Id, req: TakeRequest, now: Date)
    requires TakeStep(s, user, toLocation, req, now).failure.None?
    ensures TakeCount(TakeStep(s, user, toLocation, req, now).state.items) == TakeCount(s.items) + 1
    ensures LinksDistinct(s) ==> LinksDistinct(TakeStep(s, user, toLocation, req, now).state)
  {
    var i := ItemIndex(s.items, req.id).value;
    var item := s.items[i];
    TakeCountUpdate(s.items, i, item.(taken := item.taken + [NewTake(user, req, toLocation, now)]));
    TakeStepLinksOnce(s, user, toLocation, req, now);
  }

  /** A fully successful request adds one take per requested entry and never duplicates a link. */
  lemma {:induction false} TakeAllOnePerRequest(s: Stores, user: Id, toLocation: Id, reqs: seq<TakeRequest>, now: Date)
    requires TakeAll(s, user, toLocation, reqs, now).failure.None?
    ensures TakeCount(TakeAll(s, user, toLocation, reqs, now).state.items) == TakeCount(s.items) + |reqs|
    ensures LinksDistinct(s) ==> LinksDistinct(TakeAll(s, user, toLocation, reqs, now).state)
  {
    if reqs != [] {
      var init := reqs[..|reqs| - 1];
      var prior := TakeAll(s, user, toLocation, init, now);
      TakeAllOnePerRequest(s, user, toLocation, init, now);
      TakeStepCount(prior.state, user, toLocation, reqs[|reqs| - 1], now);
    }
  }

  lemma TakeAllSnoc(s: Stores, user: Id, toLocation: Id, reqs: seq<TakeRequest>, k: nat, now: Date)
    requires k < |reqs|
    ensures var prior := TakeAll(s, user, toLocation, reqs[..k], now);
      TakeAll(s, user, toLocation, reqs[..k + 1], now) ==
        if prior.failure.Some? then prior else TakeStep(prior.state, user, toLocation, reqs[k], now)
  {
    assert reqs[..k + 1][..k] == reqs[..k];
  }

  /** Once a prefix of the requests fails, the remaining requests change nothing. */
  lemma {:induction false} TakeAllHalts(s: Stores, user: Id, toLocation: Id, reqs: seq<TakeRequest>, n: nat, now: Date)
    requires n <= |reqs|
    requires TakeAll(s, user, toLocation, reqs[..n], now).failure.Some?
    ensures TakeAll(s, user, toLocation, reqs, now) == TakeAll(s, user, toLocation, reqs[..n], now)
  {
    if n < |reqs| {
      var init := reqs[..|reqs| - 1];
      assert init[..n] == reqs[..n];
      TakeAllHalts(s, user, toLocation, init, n, now);
    } else {
      assert reqs[..n] == reqs;
    }
  }

  // -------------------------------------------------------- returnItem

  /** An outstanding take at `loc` that belongs to `user`. */
  predicate IsOwnOutstanding(t: Take, user: Id, loc: Id)
  {
    t.location == loc && IsOutstanding(t) && t.user == user
  }

  /** The first of the caller's outstanding takes at the location, in array order. */
  function FirstOwn(taken: seq<Take>, user: Id, loc: Id): (r: Option<nat>)
    ensures r.Some? ==> r.value < |taken| && IsOwnOutstanding(taken[r.value], user, loc)
    ensures r.Some? ==> forall j :: 0 <= j < r.value ==> !IsOwnOutstanding(taken[j], user, loc)
    ensures r.None? <==> forall j :: 0 <= j < |taken| ==> !IsOwnOutstanding(taken[j], user, loc)
  {
    if taken == [] then None
    else if IsOwnOutstanding(taken[0], user, loc) then Some(0)
    else match FirstOwn(taken[1..], user, loc)
      case None => None
      case Some(k) => Some(k + 1)
  }

  /** One piece comes back: the take shrinks by one and is closed when nothing is left. */
  function Settle(t: Take, now: Date): Take
  {
    var q := t.quantity - 1;
    t.(quantity := q, dateReturned := if q == 0 then Some(now) else t.dateReturned)
  }

  /** The takes after the scan: the caller's first outstanding take there settled, all others as they were. */
  function SettledTakes(taken: seq<Take>, user: Id, loc: Id, now: Date): seq<Take>
  {
    match FirstOwn(taken, user, loc)
    case None => taken
    case Some(k) => taken[k := Settle(taken[k], now)]
  }

  /**
   * How the handler ends: `Kept` when the settled take still holds pieces (the
   * location is left alone); `Detached` when nothing is outstanding at the
   * location any more and the item was unlinked from it; `Unanswered` when the
   * scan ran through and there was nothing to unlink (no reply is sent).
   */
  datatype ReturnOutcome = Kept | Detached | Unanswered | ItemMissing | LocationMissing

  datatype ReturnRun = ReturnRun(state: Stores, outcome: ReturnOutcome)

  function ReturnSpec(s: Stores, user: Id, locId: Id, itemId: Id, now: Date): ReturnRun
  {
    match ItemIndex(s.items, itemId)
    case None => ReturnRun(s, ItemMissing)
    case Some(i) =>
      var item := s.items[i];
      var after := SettledTakes(item.taken, user, locId, now);
      var s1 := s.(items := s.items[i := item.(taken := after)]);
      var k := FirstOwn(item.taken, user, locId);
      if k.Some? && after[k.value].quantity > 0 then ReturnRun(s1, Kept)
      else if Outstanding(after, At(locId)) != 0 then ReturnRun(s1, Unanswered)
      else match LocationIndex(s1.locations, locId)
        case None => ReturnRun(s1, LocationMissing)
        case Some(j) =>
          var loc := s1.locations[j];
          if itemId in loc.items then
            ReturnRun(s1.(locations := s1.locations[j := loc.(items := RemoveFirst(loc.items, itemId))]), Detached)
          else ReturnRun(s1, Unanswered)
  }

  /**
   * A return changes at most one take of one item: the caller's first outstanding
   * take at the location loses exactly one piece and is closed exactly when it
   * reaches zero. Without such a take nothing in the item store changes.
   */
  lemma ReturnChangesAtMostOneTake(s: Stores, user: Id, locId: Id, itemId: Id, now: Date)
    requires ItemIndex(s.items, itemId).Some?
    ensures var i := ItemIndex(s.items, itemId).value;
      var r := ReturnSpec(s, user, locId, itemId, now);
      var before := s.items[i].taken;
      var after := r.state.items[i].taken;
      && |r.state.items| == |s.items|
      && (forall j :: 0 <= j < |s.items| && j != i ==> r.state.items[j] == s.items[j])
      && r.state.items[i] == s.items[i].(taken := after)
      && |after| == |before|
      && (FirstOwn(before, user, locId).None? ==> r.state.items == s.items)
      && (FirstOwn(before, user, locId).Some? ==>
            var k := FirstOwn(before, user, locId).value;
            && (forall j :: 0 <= j < |before| && j != k ==> after[j] == before[j])
            && after[k].quantity == before[k].quantity - 1
            && after[k].user == user && after[k].location == locId && after[k].dateTook == before[k].dateTook
            && (after[k].dateReturned.Some? <==> before[k].quantity == 1)
            && after[k].dateReturned == (if before[k].quantity == 1 then Some(now) else before[k].dateReturned))
  {
  }

  /** Settling moves exactly one piece off the location's and the item's outstanding totals. */
  lemma SettleMovesOnePiece(taken: seq<Take>, user: Id, loc: Id, now: Date)
    ensures var d := if FirstOwn(taken, user, loc).Some? then 1 else 0;
      && Outstanding(SettledTakes(taken, user, loc, now), At(loc)) == Outstanding(taken, At(loc)) - d
      && Outstanding(SettledTakes(taken, user, loc, now), Anywhere) == Outstanding(taken, Anywhere) - d
      && Outstanding(SettledTakes(taken, user, loc, now), By(user)) == Outstanding(taken, By(user)) - d
  {
    match FirstOwn(taken, user, loc)
    case None =>
    case Some(k) =>
      OutstandingUpdate(taken, k, Settle(taken[k], now), At(loc));
      OutstandingUpdate(taken, k, Settle(taken[k], now), Anywhere);
      OutstandingUpdate(taken, k, Settle(taken[k], now), By(user));
  }

  /** A return raises the item's effective quantity by one exactly when the caller had a take there. */
  lemma ReturnRaisesAvailability(s: Stores, user: Id, locId: Id, itemId: Id, now: Date)
    requires ItemIndex(s.items, itemId).Some?
    ensures var i := ItemIndex(s.items, itemId).value;
      Effective(ReturnSpec(s, user, locId, itemId, now).state.items[i]) ==
        Effective(s.items[i]) + (if FirstOwn(s.items[i].taken, user, locId).Some? then 1 else 0)
  {
    var i := ItemIndex(s.items, itemId).value;
    SettleMovesOnePiece(s.items[i].taken, user, locId, now);
  }

  /**
   * The location is touched only by `Detached`: that happens exactly when the
   * settled take (if any) is closed, nothing remains outstanding at the
   * location, and the location lists the item; then only the first occurrence
   * of the item is removed.
   */
  lemma ReturnUnlinksOnlyWhenSettled(s: Stores, user: Id, locId: Id, itemId: Id, now: Date)
    requires ItemIndex(s.items, itemId).Some?
    ensures var i := ItemIndex(s.items, itemId).value;
      var r := ReturnSpec(s, user, locId, itemId, now);
      var k := FirstOwn(s.items[i].taken, user, locId);
      var after := r.state.items[i].taken;
      && (r.outcome != Detached ==> r.state.locations == s.locations)
      && (r.outcome == Kept <==> k.Some? && s.items[i].taken[k.value].quantity > 1)
      && (r.outcome == Detached <==>
            && !(k.Some? && s.items[i].taken[k.value].quantity > 1)
            && Outstanding(after, At(locId)) == 0
            && LocationIndex(s.locations, locId).Some?
            && itemId in s.locations[LocationIndex(s.locations, locId).value].items)
      && (r.outcome == Detached ==>
            var j := LocationIndex(s.locations, locId).value;
            && |r.state.locations| == |s.locations|
            && r.state.locations[j] == s.locations[j].(items := RemoveFirst(s.locations[j].items, itemId))
            && (forall m :: 0 <= m < |s.locations| && m != j ==> r.state.locations[m] == s.locations[m]))
  {
  }

  /**
   * Without an outstanding take of the caller at the location the item store
   * is left alone; the item is still unlinked when nothing at all is
   * outstanding there.
   */
  lemma ReturnWithoutOwnTake(s: Stores, user: Id, locId: Id, itemId: Id, now: Date)
    requires ItemIndex(s.items, itemId).Some?
    requires FirstOwn(s.items[ItemIndex(s.items, itemId).value].taken, user, locId).None?
    ensures var r := ReturnSpec(s, user, locId, itemId, now);
      && r.state.items == s.items
      && r.outcome != Kept
      && (r.outcome == Detached <==>
            Outstanding(s.items[ItemIndex(s.items, itemId).value].taken, At(locId)) == 0 &&
            LocationIndex(s.locations, locId).Some? &&
            itemId in s.locations[LocationIndex(s.locations, locId).value].items)
  {
    var i := ItemIndex(s.items, itemId).value;
    assert s.items[i := s.items[i].(taken := s.items[i].taken)] == s.items;
  }

  /** Returns never duplicate a link, and a detached item is gone from a duplicate-free location. */
  lemma ReturnKeepsLinksDistinct(s: Stores, user: Id, locId: Id, itemId: Id, now: Date)
    requires LinksDistinct(s)
    ensures var r := ReturnSpec(s, user, locId, itemId, now);
      && LinksDistinct(r.state)
      && (r.outcome == Detached ==> itemId !in r.state.locations[LocationIndex(s.locations, locId).value].items)
  {
    var r := ReturnSpec(s, user, locId, itemId, now);
    if r.outcome == Detached {
      var j := LocationIndex(s.locations, locId).value;
      RemoveFirstNoDup(s.locations[j].items, itemId);
    }
  }

  /** Positions of documents are decided by their ids alone. */
  lemma {:induction false} ItemIndexSameIds(a: seq<Item>, b: seq<Item>, id: Id)
    requires |a| == |b| && forall j :: 0 <= j < |a| ==> a[j].id == b[j].id
    ensures ItemIndex(a, id) == ItemIndex(b, id)
  {
    if a != [] && a[0].id != id {
      ItemIndexSameIds(a[1..], b[1..], id);
    }
  }

  lemma {:induction false} LocationIndexSameIds(a: seq<Location>, b: seq<Location>, id: Id)
    requires |a| == |b| && forall j :: 0 <= j < |a| ==> a[j].id == b[j].id
    ensures LocationIndex(a, id) == LocationIndex(b, id)
  {
    if a != [] && a[0].id != id {
      LocationIndexSameIds(a[1..], b[1..], id);
    }
  }

  /** After a successful take both documents keep their positions; the item holds the new take and is linked. */
  lemma TakeStepFound(s: Stores, user: Id, loc: Id, req: TakeRequest, now: Date)
    requires ItemIndex(s.items, req.id).Some? && LocationIndex(s.locations, loc).Some?
    ensures var t := TakeStep(s, user, loc, req, now).state;
      var i := ItemIndex(s.items, req.id).value;
      var j := LocationIndex(s.locations, loc).value;
      && ItemIndex(t.items, req.id) == Some(i)
      && LocationIndex(t.locations, loc) == Some(j)
      && t.items[i].taken == s.items[i].taken + [NewTake(user, req, loc, now)]
      && req.id in t.locations[j].items
      && (LinksDistinct(s) ==> LinksDistinct(t))
  {
    var t := TakeStep(s, user, loc, req, now).state;
    TakeStepRecordsOneTake(s, user, loc, req, now);
    TakeStepLinksOnce(s, user, loc, req, now);
    ItemIndexSameIds(s.items, t.items, req.id);
    LocationIndexSameIds(s.locations, t.locations, loc);
  }

  /** What a return leaves in the item: exactly the settled takes. */
  lemma ReturnSettles(s: Stores, user: Id, locId: Id, itemId: Id, now: Date)
    requires ItemIndex(s.items, itemId).Some?
    ensures var i := ItemIndex(s.items, itemId).value;
      var r := ReturnSpec(s, user, locId, itemId, now);
      && i < |r.state.items|
      && r.state.items[i].taken == SettledTakes(s.items[i].taken, user, locId, now)
  {
  }

  /**
   * Round trip: taking one piece to a location and then returning one piece
   * there restores the outstanding quantities of the item, at that location
   * and overall.
   */
  lemma TakeThenReturnRestores(s: Stores, user: Id, loc: Id, id: Id, took: Date, returned: Date)
    requires ItemIndex(s.items, id).Some? && LocationIndex(s.locations, loc).Some?
    ensures var t := TakeStep(s, user, loc, TakeRequest(id, 1), took);
      var r := ReturnSpec(t.state, user, loc, id, returned);
      var i := ItemIndex(s.items, id).value;
      && i < |r.state.items|
      && Outstanding(r.state.items[i].taken, At(loc)) == Outstanding(s.items[i].taken, At(loc))
      && Outstanding(r.state.items[i].taken, Anywhere) == Outstanding(s.items[i].taken, Anywhere)
  {
    var req := TakeRequest(id, 1);
    var t := TakeStep(s, user, loc, req, took);
    var i := ItemIndex(s.items, id).value;
    var before := s.items[i].taken;
    var nt := NewTake(user, req, loc, took);
    var mid := before + [nt];
    TakeStepFound(s, user, loc, req, took);
    ReturnSettles(t.state, user, loc, id, returned);
    assert IsOwnOutstanding(mid[|before|], user, loc);
    SettleMovesOnePiece(mid, user, loc, returned);
    OutstandingAppend(before, [nt], At(loc));
    OutstandingAppend(before, [nt], Anywhere);
    assert [nt][..0] == [];
  }

  /**
   * When nothing of the item was outstanding at the location, a take of one
   * piece followed by a return closes the new take and unlinks the item from
   * the location again.
   */
  lemma TakeThenReturnDetaches(s: Stores, user: Id, loc: Id, id: Id, took: Date, returned: Date)
    requires ItemIndex(s.items, id).Some? && LocationIndex(s.locations, loc).Some?
    requires NoneOutstanding(s.items[ItemIndex(s.items, id).value].taken, At(loc))
    ensures var t := TakeStep(s, user, loc, TakeRequest(id, 1), took);
      var r := ReturnSpec(t.state, user, loc, id, returned);
      var i := ItemIndex(s.items, id).value;
      var j := LocationIndex(s.locations, loc).value;
      && r.outcome == Detached
      && i < |r.state.items| && |s.items[i].taken| < |r.state.items[i].taken|
      && r.state.items[i].taken[|s.items[i].taken|].dateReturned == Some(returned)
      && (LinksDistinct(s) ==> j < |r.state.locations| && id !in r.state.locations[j].items)
  {
    var req := TakeRequest(id, 1);
    var t := TakeStep(s, user, loc, req, took);
    var i := ItemIndex(s.items, id).value;
    var before := s.items[i].taken;
    var nt := NewTake(user, req, loc, took);
    var mid := before + [nt];
    TakeStepFound(s, user, loc, req, took);
    ReturnSettles(t.state, user, loc, id, returned);
    assert forall m :: 0 <= m < |before| ==> !IsOwnOutstanding(mid[m], user, loc);
    assert IsOwnOutstanding(mid[|before|], user, loc);
    assert FirstOwn(mid, user, loc) == Some(|before|);
    OutstandingZeroIff(before, At(loc));
    SettleMovesOnePiece(mid, user, loc, returned);
    OutstandingAppend(before, [nt], At(loc));
    assert [nt][..0] == [];
    ReturnUnlinksOnlyWhenSettled(t.state, user, loc, id, returned);
    if LinksDistinct(s) {
      ReturnKeepsLinksDistinct(t.state, user, loc, id, returned);
    }
  }

  /**
   * The scan of `returnItem` over an item's takes: it sums the outstanding
   * quantity at `locId` and settles one piece of the caller's first
   * outstanding take there. It stops early (`kept`) when that take still holds
   * pieces; otherwise `q` is what remains outstanding at the location.
   */
  method ScanTakes(taken: seq<Take>, user: Id, locId: Id, now: Date) returns (after: seq<Take>, q: int, returned: bool, kept: bool)
    ensures after == SettledTakes(taken, user, locId, now)
    ensures returned <==> FirstOwn(taken, user, locId).Some?
    ensures kept <==> returned && after[FirstOwn(taken, user, locId).value].quantity > 0
    ensures !kept ==> q == Outstanding(after, At(locId))
  {
    ghost var settledAt: nat := 0;
    after := taken;
    q := 0;
    returned := false;
    kept := false;
    var i := 0;
    while i < |after|
      invariant 0 <= i <= |after| == |taken|
      invariant q == Outstanding(after[..i], At(locId))
      invariant !returned ==> after == taken
      invariant !returned ==> forall j :: 0 <= j < i ==> !IsOwnOutstanding(taken[j], user, locId)
      invariant returned ==> FirstOwn(taken, user, locId) == Some(settledAt) && settledAt < i
      invariant returned ==> after == taken[settledAt := Settle(taken[settledAt], now)]
      invariant returned ==> after[settledAt].quantity <= 0
    {
      ghost var prefix := after[..i];
      var take := after[i];
      if take.location == locId && take.dateReturned.None? {
        q := q + take.quantity;
        if !returned && take.user == user {
          take := take.(quantity := take.quantity - 1);
          q := q - 1;
          returned := true;
          settledAt := i;
          if take.quantity == 0 {
            take := take.(dateReturned := Some(now));
          }
          after := after[i := take];
          if take.quantity > 0 {
            kept := true;
            return;
          }
        }
      }
      assert after[..i] == prefix;
      OutstandingSnoc(after, i, At(locId));
      i := i + 1;
    }
    assert after[..i] == after;
  }

  // ---------------------------------------------------------- the store

  /** The item and location collections of the database. */
  class Database {
    var items: seq<Item>
    var locations: seq<Location>

    ghost function State(): Stores
      reads this
    {
      Stores(items, locations)
    }

    constructor(items: seq<Item>, locations: seq<Location>)
      ensures State() == Stores(items, locations)
    {
      this.items := items;
      this.locations := locations;
    }

    /**
     * `GET /available-items/:locationId`: the items whose default location is
     * `locId`, each with its outstanding takes subtracted, positive ones only
     * (never-taken items are listed as stored).
     */
    method AvailableItems(locId: Id) returns (rows: seq<Item>)
      ensures rows == AvailableView(items, locId)
    {
      rows := [];
      var i := 0;
      while i < |items|
        invariant 0 <= i <= |items|
        invariant rows == AvailableView(items[..i], locId)
      {
        assert items[..i + 1][..i] == items[..i];
        var item := items[i];
        if item.defaultLocation == locId {
          if |item.taken| == 0 {
            rows := rows + [item];
          } else {
            var k := 0;
            while k < |item.taken|
              invariant 0 <= k <= |items[i].taken|
              invariant item == items[i].(quantity := items[i].quantity - Outstanding(items[i].taken[..k], Anywhere))
            {
              OutstandingSnoc(items[i].taken, k, Anywhere);
              var take := item.taken[k];
              if take.dateReturned.None? {
                item := item.(quantity := item.quantity - take.quantity);
              }
              k := k + 1;
            }
            assert items[i].taken[..k] == items[i].taken;
            if item.quantity > 0 {
              rows := rows + [item];
            }
          }
        }
        i := i + 1;
      }
      assert items[..i] == items;
    }

    /** The per-item body of `POST /items-take`. */
    method TakeOne(user: Id, toLocation: Id, req: TakeRequest, now: Date) returns (failure: Option<Failure>)
      modifies this
      ensures Run(State(), failure) == TakeStep(old(State()), user, toLocation, req, now)
    {
      var found := ItemIndex(items, req.id);
      if found.None? {
        return Some(ItemNotFound(req.id));
      }
      var i := found.value;
      items := items[i := items[i].(taken := items[i].taken + [NewTake(user, req, toLocation, now)])];
      var at := LocationIndex(locations, toLocation);
      if at.None? {
        return Some(LocationNotFound(toLocation));
      }
      var j := at.value;
      if req.id !in locations[j].items {
        locations := locations[j := locations[j].(items := locations[j].items + [req.id])];
      }
      return None;
    }

    /** `POST /items-take`: every requested item in order, stopping at the first failure. */
    method TakeItems(user: Id, toLocation: Id, reqs: seq<TakeRequest>, now: Date) returns (failure: Option<Failure>)
      modifies this
      ensures Run(State(), failure) == TakeAll(old(State()), user, toLocation, reqs, now)
    {
      failure := None;
      var k := 0;
      while k < |reqs|
        invariant 0 <= k <= |reqs| && failure.None?
        invariant TakeAll(old(State()), user, toLocation, reqs[..k], now) == Run(State(), None)
      {
        TakeAllSnoc(old(State()), user, toLocation, reqs, k, now);
        failure := TakeOne(user, toLocation, reqs[k], now);
        if failure.Some? {
          TakeAllHalts(old(State()), user, toLocation, reqs, k + 1, now);
          return;
        }
        k := k + 1;
      }
      assert reqs[..k] == reqs;
    }

    /**
     * `POST /item-return`: scan the item's takes (saving the item when a take
     * was settled); if nothing remains outstanding at the location, unlink the
     * item from it.
     */
    method ReturnItem(user: Id, locId: Id, itemId: Id, now: Date) returns (outcome: ReturnOutcome)
      modifies this
      ensures ReturnRun(State(), outcome) == ReturnSpec(old(State()), user, locId, itemId, now)
    {
      var found := ItemIndex(items, itemId);
      if found.None? {
        return ItemMissing;
      }
      var idx := found.value;
      var after, q, returned, kept := ScanTakes(items[idx].taken, user, locId, now);
      if returned {
        items := items[idx := items[idx].(taken := after)];
      } else {
        assert old(items)[idx := old(items)[idx].(taken := after)] == old(items);
      }
      if kept {
        return Kept;
      }
      if q == 0 {
        var at := LocationIndex(locations, locId);
        if at.None? {
          return LocationMissing;
        }
        var j := at.value;
        if itemId in locations[j].items {
          locations := locations[j := locations[j].(items := RemoveFirst(locations[j].items, itemId))];
          return Detached;
        }
      }
      return Unanswered;
    }
  }
}
