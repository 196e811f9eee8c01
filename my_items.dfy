/**
 * The "my items" screen: the user's items grouped by location. When the
 * server confirms a return, the screen updates its own copy instead of
 * reloading it: the entry loses a unit, and disappears at zero; otherwise
 * each of the user's outstanding takes of that item loses a unit.
 */
module MyItems {
  import opened Wrappers
  import opened DbModels
  import opened Ledger
  import opened Client
  import opened FilterMyItems
  import opened ItemsController

  /** The user decoded from the session token; the token may lack an id. */
  datatype SessionUser = SessionUser(id: Option<Id>, email: string, name: string)

  /** The current user's id, or the empty string when there is none. */
  function MyUserId(current: Option<SessionUser>): (r: Id)
    ensures r == "" <==> (current.None? || current.value.id.None? || current.value.id.value == "")
    ensures r != "" ==> current.Some? && current.value.id == Some(r)
  {
    if current.Some? && current.value.id.Some? && current.value.id.value != "" then current.value.id.value else ""
  }

  /** Where the handler acts: a location index and an item index within it. */
  datatype Pos = Pos(loc: nat, item: nat)

  /** The location has the wanted id and lists the wanted item. */
  predicate Holds(l: ClientLocation<ClientItem>, locationId: Id, itemId: Id)
  {
    l.id == locationId && FirstWithId(l.items, itemId).Some?
  }

  /**
   * The entry the nested search loops stop at: the first location with the
   * wanted id that lists the item, and the item's first position there.
   */
  function FindEntry(locs: seq<ClientLocation<ClientItem>>, locationId: Id, itemId: Id): (r: Option<Pos>)
    ensures r.None? <==> forall p :: 0 <= p < |locs| ==> !Holds(locs[p], locationId, itemId)
    ensures r.Some? ==> (r.value.loc < |locs| && Holds(locs[r.value.loc], locationId, itemId) &&
                         FirstWithId(locs[r.value.loc].items, itemId) == Some(r.value.item) &&
                         forall p :: 0 <= p < r.value.loc ==> !Holds(locs[p], locationId, itemId))
  {
    if locs == [] then None
    else if Holds(locs[0], locationId, itemId) then Some(Pos(0, FirstWithId(locs[0].items, itemId).value))
    else match FindEntry(locs[1..], locationId, itemId)
      case None => None
      case Some(p) => Some(Pos(p.loc + 1, p.item))
  }

  lemma {:induction false} FindEntryIs(locs: seq<ClientLocation<ClientItem>>, locationId: Id, itemId: Id, i: nat, j: nat)
    requires i < |locs| && locs[i].id == locationId
    requires j < |locs[i].items| && locs[i].items[j].id == itemId
    requires forall q :: 0 <= q < j ==> locs[i].items[q].id != itemId
    requires forall p :: 0 <= p < i ==> !Holds(locs[p], locationId, itemId)
    ensures FindEntry(locs, locationId, itemId) == Some(Pos(i, j))
  {
    FirstWithIdIs(locs[i].items, itemId, j);
    if i > 0 {
      assert !Holds(locs[0], locationId, itemId);
      FindEntryIs(locs[1..], locationId, itemId, i - 1, j);
    }
  }

  /** Every outstanding take of `me`, wherever it went, loses one piece and is closed at zero. */
  function SettleMine(taken: seq<Take>, me: Id, now: Date): (r: seq<Take>)
    ensures |r| == |taken|
  {
    seq(|taken|, k requires 0 <= k < |taken| => if Mine(taken[k], me) then Settle(taken[k], now) else taken[k])
  }

  /** The screen's locations after the confirmed return of the item at `pos`. */
  function AfterReturn(locs: seq<ClientLocation<ClientItem>>, pos: Pos, me: Id, now: Date): seq<ClientLocation<ClientItem>>
    requires pos.loc < |locs| && pos.item < |locs[pos.loc].items|
  {
    var loc := locs[pos.loc];
    var j := pos.item;
    var itm := loc.items[j].(quantity := loc.items[j].quantity - 1);
    var items :=
      if itm.quantity == 0 then loc.items[..j] + loc.items[j + 1..]
      else if itm.taken.Some? then loc.items[j := itm.(taken := Some(SettleMine(itm.taken.value, me, now)))]
      else loc.items[j := itm];
    locs[pos.loc := loc.(items := items)]
  }

  /**
   * Only the entry found is touched: other locations, and the other items of
   * its location, stay as they were; the entry loses exactly one unit or, at
   * zero, is removed.
   */
  lemma AfterReturnTouchesOneEntry(locs: seq<ClientLocation<ClientItem>>, pos: Pos, me: Id, now: Date)
    requires pos.loc < |locs| && pos.item < |locs[pos.loc].items|
    ensures var r := AfterReturn(locs, pos, me, now);
      var before := locs[pos.loc].items;
      var after := r[pos.loc].items;
      && |r| == |locs|
      && (forall p :: 0 <= p < |locs| && p != pos.loc ==> r[p] == locs[p])
      && r[pos.loc] == locs[pos.loc].(items := after)
      && (before[pos.item].quantity == 1 ==>
            |after| == |before| - 1 &&
            (forall q :: 0 <= q < pos.item ==> after[q] == before[q]) &&
            (forall q :: pos.item < q < |before| ==> after[q - 1] == before[q]))
      && (before[pos.item].quantity != 1 ==>
            |after| == |before| && after[pos.item].quantity == before[pos.item].quantity - 1 &&
            (forall q :: 0 <= q < |before| && q != pos.item ==> after[q] == before[q]))
  {
  }

  /** How many outstanding takes `me` has in the list. */
  function CountMine(taken: seq<Take>, me: Id): (r: nat)
  {
    if taken == [] then 0 else CountMine(taken[..|taken| - 1], me) + (if Mine(taken[|taken| - 1], me) then 1 else 0)
  }

  /**
   * The client's update lowers the user's outstanding sum, the quantity the
   * filter shows, by one per outstanding take of the user.
   */
  lemma {:induction false} SettleMineLowersByCount(taken: seq<Take>, me: Id, now: Date)
    ensures Outstanding(SettleMine(taken, me, now), By(me)) == Outstanding(taken, By(me)) - CountMine(taken, me)
  {
    if taken != [] {
      var n := |taken| - 1;
      var s := SettleMine(taken, me, now);
      assert s[..n] == SettleMine(taken[..n], me, now);
      SettleMineLowersByCount(taken[..n], me, now);
    }
  }

  lemma {:induction false} CountMineBelow(taken: seq<Take>, me: Id, b: nat)
    requires b < |taken| && Mine(taken[b], me)
    ensures CountMine(taken, me) >= CountMine(taken[..b], me) + 1
  {
    var n := |taken| - 1;
    if b < n {
      assert taken[..n][..b] == taken[..b];
      CountMineBelow(taken[..n], me, b);
    }
  }

  /**
   * The client and the server disagree once the user holds two outstanding
   * takes of the item at the location: the server settles only the first of
   * them, the client every one, so the client's copy shows less than the
   * server keeps.
   */
  lemma ClientSettlesMoreThanServer(taken: seq<Take>, me: Id, loc: Id, now: Date, a: nat, b: nat)
    requires a < b < |taken|
    requires IsOwnOutstanding(taken[a], me, loc) && IsOwnOutstanding(taken[b], me, loc)
    ensures Outstanding(SettledTakes(taken, me, loc, now), By(me)) == Outstanding(taken, By(me)) - 1
    ensures Outstanding(SettleMine(taken, me, now), By(me)) <= Outstanding(taken, By(me)) - 2
  {
    SettleMovesOnePiece(taken, me, loc, now);
    SettleMineLowersByCount(taken, me, now);
    CountMineBelow(taken, me, b);
    CountMineBelow(taken[..b], me, a);
  }

  class MyItemsComponent {
    var myItems: seq<ClientLocation<ClientItem>>
    var iteration: int

    /** The screen once the user's items have arrived. */
    constructor(mine: seq<ClientLocation<ClientItem>>)
      ensures myItems == mine && iteration == 0
    {
      myItems := mine;
      iteration := 0;
    }

    /**
     * The success callback of a return: the entry found is updated and
     * `iteration` advances; when no entry matches, nothing changes.
     */
    method ReturnConfirmed(locationId: Id, itemId: Id, current: Option<SessionUser>, now: Date)
      modifies this
      ensures FindEntry(old(myItems), locationId, itemId).None? ==>
        myItems == old(myItems) && iteration == old(iteration)
      ensures FindEntry(old(myItems), locationId, itemId).Some? ==>
        (myItems == AfterReturn(old(myItems), FindEntry(old(myItems), locationId, itemId).value, MyUserId(current), now) &&
         iteration == old(iteration) + 1)
    {
      var i := 0;
      while i < |myItems|
        invariant 0 <= i <= |myItems|
        invariant myItems == old(myItems) && iteration == old(iteration)
        invariant forall p :: 0 <= p < i ==> !Holds(myItems[p], locationId, itemId)
      {
        var loc := myItems[i];
        if loc.id == locationId {
          var j := 0;
          while j < |loc.items|
            invariant 0 <= j <= |loc.items|
            invariant myItems == old(myItems) && iteration == old(iteration)
            invariant forall q :: 0 <= q < j ==> loc.items[q].id != itemId
          {
            if loc.items[j].id == itemId {
              FindEntryIs(myItems, locationId, itemId, i, j);
              var itm := loc.items[j].(quantity := loc.items[j].quantity - 1);
              var items;
              if itm.quantity == 0 {
                items := loc.items[..j] + loc.items[j + 1..];
              } else if itm.taken.Some? {
                var taken := SettleEach(itm.taken.value, MyUserId(current), now);
                items := loc.items[j := itm.(taken := Some(taken))];
              } else {
                items := loc.items[j := itm];
              }
              myItems := myItems[i := loc.(items := items)];
              iteration := iteration + 1;
              return;
            }
            j := j + 1;
          }
        }
        i := i + 1;
      }
    }
  }

  /** The innermost loop of the callback: each outstanding take of `me` loses one piece. */
  method SettleEach(taken: seq<Take>, me: Id, now: Date) returns (settled: seq<Take>)
    ensures settled == SettleMine(taken, me, now)
  {
    settled := taken;
    var k := 0;
    while k < |settled|
      invariant 0 <= k <= |settled| && |settled| == |taken|
      invariant forall m :: 0 <= m < k ==> settled[m] == SettleMine(taken, me, now)[m]
      invariant forall m :: k <= m < |settled| ==> settled[m] == taken[m]
    {
      var take := settled[k];
      if take.dateReturned.None? && take.user == me {
        take := take.(quantity := take.quantity - 1);
        if take.quantity == 0 {
          take := take.(dateReturned := Some(now));
        }
        settled := settled[k := take];
      }
      k := k + 1;
    }
  }
}
