/**
 * The "my items" filter: each item that carries takes is rewritten to show
 * what the current user still holds of it (the sum of the user's outstanding
 * takes) and when the first of those takes was made; the items the user
 * holds something of are returned, in input order.
 */
module FilterMyItems {
  import opened Wrappers
  import opened DbModels
  import opened Ledger
  import opened Client

  /** A take the user still holds. */
  predicate Mine(t: Take, uid: Id)
  {
    IsOutstanding(t) && InScope(t, By(uid))
  }

  /** The `dateTook` of the first outstanding take of `uid`, in array order. */
  function FirstTook(taken: seq<Take>, uid: Id): (r: Option<Date>)
    ensures r.None? <==> forall k :: 0 <= k < |taken| ==> !Mine(taken[k], uid)
    ensures r.Some? ==> exists k :: (0 <= k < |taken| && Mine(taken[k], uid) && taken[k].dateTook == r.value &&
                                     forall j :: 0 <= j < k ==> !Mine(taken[j], uid))
  {
    if taken == [] then None
    else
      var init := taken[..|taken| - 1];
      var last := taken[|taken| - 1];
      assert forall j :: 0 <= j < |init| ==> init[j] == taken[j];
      var d := FirstTook(init, uid);
      if d.Some? then d
      else if Mine(last, uid) then Some(last.dateTook)
      else None
  }

  /** An item as the filter rewrites it: what `uid` holds of it, and since when. */
  function Summarized(item: ClientItem, uid: Id): ClientItem
    requires item.taken.Some?
  {
    item.(quantity := Outstanding(item.taken.value, By(uid)), dateTaken := FirstTook(item.taken.value, uid))
  }

  /** Items without takes are left as they are. */
  function Overwritten(item: ClientItem, uid: Id): ClientItem
  {
    if item.taken.None? then item else Summarized(item, uid)
  }

  /** Whether the filter returns the (rewritten) item. */
  predicate Listed(item: ClientItem, uid: Id)
  {
    item.taken.Some? && Outstanding(item.taken.value, By(uid)) > 0
  }

  /** The filter's result: the rewritten items the user holds something of, in input order. */
  function MyItemsView(items: seq<ClientItem>, uid: Id): seq<ClientItem>
  {
    if items == [] then []
    else
      var last := items[|items| - 1];
      MyItemsView(items[..|items| - 1], uid) + (if Listed(last, uid) then [Overwritten(last, uid)] else [])
  }

  lemma {:induction false} MyItemsViewAppend(a: seq<ClientItem>, b: seq<ClientItem>, uid: Id)
    ensures MyItemsView(a + b, uid) == MyItemsView(a, uid) + MyItemsView(b, uid)
  {
    if b == [] {
      assert a + b == a;
    } else {
      var b' := b[..|b| - 1];
      assert (a + b)[..|a + b| - 1] == a + b';
      MyItemsViewAppend(a, b', uid);
    }
  }

  /**
   * An item is in the result exactly when it is the rewrite of an input item
   * with takes whose user's outstanding sum is positive; every item returned
   * has a positive quantity and a `dateTaken`.
   */
  lemma {:induction false} MyItemsViewMembers(items: seq<ClientItem>, uid: Id, x: ClientItem)
    ensures x in MyItemsView(items, uid) <==>
      exists k :: 0 <= k < |items| && Listed(items[k], uid) && x == Summarized(items[k], uid)
    ensures x in MyItemsView(items, uid) ==> x.quantity > 0 && x.dateTaken.Some?
  {
    if items != [] {
      var n := |items| - 1;
      var init := items[..n];
      assert forall j :: 0 <= j < n ==> init[j] == items[j];
      MyItemsViewMembers(init, uid, x);
      if Listed(items[n], uid) && x == Summarized(items[n], uid) {
        HeldImpliesDate(items[n].taken.value, uid);
      }
    }
  }

  /** A non-zero sum needs an outstanding take of the user, so a date is recorded for it. */
  lemma {:induction false} HeldImpliesDate(taken: seq<Take>, uid: Id)
    ensures Outstanding(taken, By(uid)) != 0 ==> FirstTook(taken, uid).Some?
  {
    if taken != [] {
      var n := |taken| - 1;
      var init := taken[..n];
      assert forall j :: 0 <= j < n ==> init[j] == taken[j];
      HeldImpliesDate(init, uid);
    }
  }

  /**
   * The recorded date is the first one met, which is the earliest one when
   * takes are stored in the order they were made.
   */
  lemma FirstTookIsEarliestInOrder(taken: seq<Take>, uid: Id)
    requires forall i, j :: 0 <= i < j < |taken| ==> taken[i].dateTook <= taken[j].dateTook
    ensures FirstTook(taken, uid).Some? ==>
      forall k :: 0 <= k < |taken| && Mine(taken[k], uid) ==> FirstTook(taken, uid).value <= taken[k].dateTook
  {
    if FirstTook(taken, uid).Some? {
      var f :| 0 <= f < |taken| && Mine(taken[f], uid) && taken[f].dateTook == FirstTook(taken, uid).value &&
               forall j :: 0 <= j < f ==> !Mine(taken[j], uid);
      forall k | 0 <= k < |taken| && Mine(taken[k], uid)
        ensures taken[f].dateTook <= taken[k].dateTook
      {
        assert f <= k;
      }
    }
  }

  /** Without that order, the date met first can be later than another outstanding take's. */
  lemma FirstTookNotEarliest()
    ensures var taken := [Take("u", 1, "l", 5, None), Take("u", 1, "l", 3, None)];
      FirstTook(taken, "u") == Some(5) && Mine(taken[1], "u") && taken[1].dateTook < 5
  {
    var taken := [Take("u", 1, "l", 5, None), Take("u", 1, "l", 3, None)];
    assert taken[..1] == [taken[0]];
    assert taken[..1][..0] == [];
  }

  /**
   * The pipe's `transform`: rewrites every item with takes in place, whether
   * or not it is returned. `iteration` only forces the view to re-run; the
   * result does not depend on it.
   */
  method Transform(items: array<ClientItem>, uid: Id, iteration: int) returns (retItems: seq<ClientItem>)
    modifies items
    ensures forall i :: 0 <= i < items.Length ==> items[i] == Overwritten(old(items[i]), uid)
    ensures retItems == MyItemsView(old(items[..]), uid)
  {
    ghost var orig := items[..];
    retItems := [];
    for i := 0 to items.Length
      invariant forall j :: 0 <= j < i ==> items[j] == Overwritten(orig[j], uid)
      invariant forall j :: i <= j < items.Length ==> items[j] == orig[j]
      invariant retItems == MyItemsView(orig[..i], uid)
    {
      var item := items[i];
      assert orig[..i + 1][..i] == orig[..i];
      if item.taken.None? {
        continue;
      }
      var taken := item.taken.value;
      var quantity := 0;
      var date: Option<Date> := None;
      ghost var seen := items[..];
      for j := 0 to |taken|
        invariant items[..] == seen
        invariant quantity == Outstanding(taken[..j], By(uid))
        invariant date == FirstTook(taken[..j], uid)
      {
        var take := taken[j];
        OutstandingSnoc(taken, j, By(uid));
        assert taken[..j + 1][..j] == taken[..j];
        if take.dateReturned.None? && take.user == uid {
          quantity := quantity + take.quantity;
          if date.None? {
            date := Some(take.dateTook);
          }
        }
      }
      assert taken[..|taken|] == taken;
      items[i] := item.(quantity := quantity, dateTaken := date);
      if quantity > 0 {
        retItems := retItems + [items[i]];
      }
    }
    assert orig[..items.Length] == orig;
  }
}
