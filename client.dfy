/**
 * The records the web client holds and the requests and side effects its
 * components produce. Client items carry `taken` only when the server sent
 * it, and the "my items" view adds `dateTaken`.
 */
module Client {
  import opened Wrappers
  import opened DbModels

  datatype ClientItem = ClientItem(
    id: Id,
    itemType: string,
    code: string,
    name: string,
    description: Option<string>,
    quantity: int,
    taken: Option<seq<Take>>,
    defaultLocation: Id,
    dateTaken: Option<Date>)

  /** The client `Item` constructor: no description, no takes, no date. */
  function NewItem(id: Id, itemType: string, code: string, name: string, quantity: int, defaultLocation: Id): ClientItem
  {
    ClientItem(id, itemType, code, name, None, quantity, None, defaultLocation, None)
  }

  /** The index of the first entry with id `id`, where a search loop with `break` stops. */
  function FirstWithId(list: seq<ClientItem>, id: Id): (r: Option<nat>)
    ensures r.Some? ==> (r.value < |list| && list[r.value].id == id &&
                         forall j :: 0 <= j < r.value ==> list[j].id != id)
    ensures r.None? <==> forall j :: 0 <= j < |list| ==> list[j].id != id
  {
    if list == [] then None
    else if list[0].id == id then Some(0)
    else match FirstWithId(list[1..], id)
      case None => None
      case Some(k) => Some(k + 1)
  }

  lemma FirstWithIdIs(list: seq<ClientItem>, id: Id, i: nat)
    requires i < |list| && list[i].id == id
    requires forall j :: 0 <= j < i ==> list[j].id != id
    ensures FirstWithId(list, id) == Some(i)
  {
  }

  /**
   * A location as the client holds it; `items` are ids in the plain location
   * list and client items in the "my items" view.
   */
  datatype ClientLocation<T> = ClientLocation(
    id: Id,
    name: string,
    locationType: string,
    items: seq<T>,
    numberOfItems: Option<int>)

  /** The body of an item update. */
  datatype ItemUpdate = ItemUpdate(
    code: string,
    defaultLocation: Id,
    description: Option<string>,
    itemType: Option<string>,
    name: string,
    quantity: int,
    taken: Option<seq<Take>>)

  datatype Request =
    | UpdateItem(item: Id, body: ItemUpdate)
    | DeleteItem(item: Id)
    | DeleteLocation(location: Id)
    | GetAvailableItems(location: Id)

  /** What a handler does outside its own fields, in order. */
  datatype Effect = Send(request: Request) | Alert(text: string) | Navigate(route: string) | Reload

  /** No request leaves the client. */
  predicate SendsNothing(effects: seq<Effect>)
  {
    forall e :: e in effects ==> !e.Send?
  }
}
