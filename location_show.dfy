/**
 * The location page. A permanent location (a warehouse) lists the items
 * available there; a temporary location lists the items whose outstanding
 * takes went to it, each with the quantity still out there. The page lets
 * an empty location be deleted, and a warehouse be deleted after its items
 * are moved to another warehouse.
 */
module LocationShow {
  import opened Wrappers
  import opened DbModels
  import opened Ledger
  import opened Client

  /** The warehouse selector; it starts at -1, meaning none is chosen. */
  datatype WarehouseChoice = NoWarehouse | Warehouse(id: Id)

  /** An item as a temporary location shows it: the pieces still out at that location. */
  function ShownAt(item: ClientItem, locId: Id): ClientItem
  {
    item.(quantity := if item.taken.None? then 0 else Outstanding(item.taken.value, At(locId)))
  }

  /** What a temporary location lists: the items with a non-zero outstanding sum there, in order. */
  function TemporaryView(items: seq<ClientItem>, locId: Id): seq<ClientItem>
  {
    if items == [] then []
    else
      var last := ShownAt(items[|items| - 1], locId);
      TemporaryView(items[..|items| - 1], locId) + (if last.quantity != 0 then [last] else [])
  }

  /**
   * An item is listed exactly when pieces of it are still out at the
   * location, with that number as its quantity; nothing else is listed.
   */
  lemma {:induction false} TemporaryViewMembers(items: seq<ClientItem>, locId: Id, x: ClientItem)
    ensures x in TemporaryView(items, locId) <==>
      exists k :: 0 <= k < |items| && x == ShownAt(items[k], locId) && x.quantity != 0
    ensures |TemporaryView(items, locId)| <= |items|
  {
    if items != [] {
      var n := |items| - 1;
      var init := items[..n];
      assert forall j :: 0 <= j < n ==> init[j] == items[j];
      TemporaryViewMembers(init, locId, x);
    }
  }

  /** An item without takes is never listed at a temporary location. */
  lemma UntakenItemNotListed(items: seq<ClientItem>, locId: Id, k: nat)
    requires k < |items| && items[k].taken.None?
    ensures ShownAt(items[k], locId) !in TemporaryView(items, locId)
  {
    TemporaryViewMembers(items, locId, ShownAt(items[k], locId));
  }

  const LocationsRoute := "locations"

  /**
   * The update sent for each item moved off a deleted warehouse, one per
   * item in order: code, description, type, name, quantity and takes are
   * copied as shown, and the default location becomes the chosen warehouse.
   */
  method RelocateItems(items: seq<ClientItem>, target: Id) returns (effects: seq<Effect>)
    ensures |effects| == |items|
    ensures forall i :: 0 <= i < |items| ==>
      effects[i].Send? && effects[i].request.UpdateItem? && effects[i].request.item == items[i].id
    ensures forall i :: 0 <= i < |items| ==>
      var body := effects[i].request.body;
      && body.defaultLocation == target
      && body.code == items[i].code && body.description == items[i].description
      && body.itemType == Some(items[i].itemType) && body.name == items[i].name
      && body.quantity == items[i].quantity && body.taken == items[i].taken
  {
    effects := [];
    for i := 0 to |items|
      invariant |effects| == i
      invariant forall m :: 0 <= m < i ==>
        effects[m] == Send(UpdateItem(items[m].id, ItemUpdate(items[m].code, target, items[m].description,
                                                              Some(items[m].itemType), items[m].name,
                                                              items[m].quantity, items[m].taken)))
    {
      var formOut := ItemUpdate(items[i].code, target, items[i].description, Some(items[i].itemType),
                                items[i].name, items[i].quantity, items[i].taken);
      effects := effects + [Send(UpdateItem(items[i].id, formOut))];
    }
  }

  class LocationShowComponent {
    var locId: Id
    var location: ClientLocation<Id>
    var itemsOnLoc: seq<ClientItem>
    var itemsNumber: int
    var wrhSelector: WarehouseChoice

    /** The page once its location has arrived, before its items have. */
    constructor(locId: Id, location: ClientLocation<Id>)
      ensures this.locId == locId && this.location == location
      ensures itemsOnLoc == [] && itemsNumber == 0 && wrhSelector == NoWarehouse
    {
      this.locId := locId;
      this.location := location;
      itemsOnLoc := [];
      itemsNumber := 0;
      wrhSelector := NoWarehouse;
    }

    /**
     * A value change of the warehouse selector, the form control that starts
     * at -1; only the selector changes.
     */
    method SelectWarehouse(choice: WarehouseChoice)
      modifies this
      ensures wrhSelector == choice
      ensures locId == old(locId) && location == old(location)
      ensures itemsOnLoc == old(itemsOnLoc) && itemsNumber == old(itemsNumber)
    {
      wrhSelector := choice;
    }

    /**
     * Fills the list from `fetched`: the available items of a warehouse, or
     * all items for a temporary location. A warehouse's count is set, a
     * temporary location's count grows by the number of items listed.
     */
    method GetItemsOnLocation(fetched: seq<ClientItem>)
      modifies this
      ensures location.locationType == "permanent" ==> itemsNumber == |fetched| && itemsOnLoc == fetched
      ensures location.locationType != "permanent" ==>
        itemsOnLoc == TemporaryView(fetched, location.id) && itemsNumber == old(itemsNumber) + |itemsOnLoc|
      ensures locId == old(locId) && location == old(location) && wrhSelector == old(wrhSelector)
    {
      if location.locationType == "permanent" {
        itemsNumber := |fetched|;
        itemsOnLoc := fetched;
      } else {
        var dump := [];
        for i := 0 to |fetched|
          invariant dump == TemporaryView(fetched[..i], location.id)
          invariant itemsNumber == old(itemsNumber) + |dump|
          invariant locId == old(locId) && location == old(location) && wrhSelector == old(wrhSelector)
        {
          var item := fetched[i].(quantity := 0);
          if item.taken.Some? {
            var taken := item.taken.value;
            for k := 0 to |taken|
              invariant item == fetched[i].(quantity := Outstanding(taken[..k], At(location.id)))
              invariant itemsNumber == old(itemsNumber) + |dump|
              invariant locId == old(locId) && location == old(location) && wrhSelector == old(wrhSelector)
            {
              OutstandingSnoc(taken, k, At(location.id));
              if taken[k].dateReturned.None? && taken[k].location == location.id {
                item := item.(quantity := item.quantity + taken[k].quantity);
              }
            }
            assert taken[..|taken|] == taken;
          }
          assert fetched[..i + 1][..i] == fetched[..i];
          if item.quantity != 0 {
            dump := dump + [item];
            itemsNumber := itemsNumber + 1;
          }
        }
        assert fetched[..|fetched|] == fetched;
        itemsOnLoc := dump;
      }
    }

    /** Deletes the location and leaves the page, but only when nothing is listed on it. */
    method DeleteLoc() returns (effects: seq<Effect>)
      ensures Send(DeleteLocation(locId)) in effects <==> itemsNumber == 0
      ensures itemsNumber == 0 ==> effects == [Send(DeleteLocation(locId)), Navigate(LocationsRoute)]
      ensures itemsNumber != 0 ==> effects == []
    {
      effects := [];
      if itemsNumber == 0 {
        effects := [Send(DeleteLocation(locId)), Navigate(LocationsRoute)];
      }
    }

    /**
     * Deletes a warehouse when it is empty or a destination warehouse is
     * chosen; its listed items are first moved to the chosen warehouse,
     * which happens only when it is not empty.
     */
    method DeleteWrh() returns (effects: seq<Effect>)
      ensures Send(DeleteLocation(locId)) in effects <==> (itemsNumber == 0 || wrhSelector.Warehouse?)
      ensures !(itemsNumber == 0 || wrhSelector.Warehouse?) ==> effects == []
      ensures itemsNumber == 0 ==> effects == [Send(DeleteLocation(locId)), Navigate(LocationsRoute)]
      ensures itemsNumber != 0 && wrhSelector.Warehouse? ==>
        (|effects| == |itemsOnLoc| + 2 &&
         effects[|itemsOnLoc|..] == [Send(DeleteLocation(locId)), Navigate(LocationsRoute)] &&
         forall i :: 0 <= i < |itemsOnLoc| ==>
           effects[i] == Send(UpdateItem(itemsOnLoc[i].id,
                                         ItemUpdate(itemsOnLoc[i].code, wrhSelector.id, itemsOnLoc[i].description,
                                                    Some(itemsOnLoc[i].itemType), itemsOnLoc[i].name,
                                                    itemsOnLoc[i].quantity, itemsOnLoc[i].taken))))
    {
      effects := [];
      if itemsNumber == 0 || wrhSelector.Warehouse? {
        if itemsNumber != 0 {
          effects := RelocateItems(itemsOnLoc, wrhSelector.id);
        }
        effects := effects + [Send(DeleteLocation(locId)), Navigate(LocationsRoute)];
      }
    }
  }
}
