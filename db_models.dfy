/**
 * The stored records of the inventory (locations, items and the takes embedded
 * in items) and the schema rules a record must satisfy before it is saved:
 * required fields, enumerations, minimum values, defaults, the two-element
 * coordinate validator and the unique indexes.
 */
module DbModels {
  import opened Wrappers

  /** Document identifiers (ObjectIds) are compared as strings. */
  type Id = string

  /** A timestamp, in milliseconds. */
  type Date = nat

  /** A loan of `quantity` pieces of an item to `location`; outstanding while `dateReturned` is absent. */
  datatype Take = Take(user: Id, quantity: int, location: Id, dateTook: Date, dateReturned: Option<Date>)

  datatype Item = Item(
    id: Id,
    itemType: string,
    code: string,
    name: string,
    description: Option<string>,
    quantity: int,
    taken: seq<Take>,
    defaultLocation: Id)

  /** `address` is the schema's free-text `location` field. */
  datatype Location = Location(
    id: Id,
    name: string,
    description: Option<string>,
    address: string,
    coordinates: seq<real>,
    locationType: string,
    items: seq<Id>)

  const LocationTypes: seq<string> := ["permanent", "temporary"]

  /** The rule a field broke, with the message the schema attaches to it. */
  datatype Rule = Required(message: string) | NotInEnum | BelowMin(min: int) | Rejected(message: string)

  datatype Violation = Violation(path: string, rule: Rule)

  /** Saving can fail validation or hit a unique index. */
  datatype SaveError = Invalid(violations: seq<Violation>) | DuplicateKey(path: string)

  /** A string passes a `required` rule when it is given and not empty. */
  predicate Present(s: Option<string>)
  {
    s.Some? && s.value != ""
  }

  // ---------------------------------------------------------------- Location

  /** A location as submitted, before validation; absent coordinates are the empty array. */
  datatype LocationDraft = LocationDraft(
    name: Option<string>,
    description: Option<string>,
    address: Option<string>,
    coordinates: seq<real>,
    locationType: Option<string>,
    items: seq<Id>)

  const LocationNameRequired := "Name of location is required"
  const LocationAddressRequired := "The location field describes where this location is. So yeah, it's required."
  const CoordinatesRejected := "Coordinates must be an array of two numbers!"
  const LocationTypeRequired := "Location type is required."

  /** The rules a saved location satisfies. */
  predicate ValidLocation(l: Location)
  {
    l.name != "" && l.address != "" && |l.coordinates| == 2 && l.locationType in LocationTypes
  }

  /** The violations of a draft, one per failing path, in schema order. */
  function LocationViolations(d: LocationDraft): seq<Violation>
  {
    (if !Present(d.name) then [Violation("name", Required(LocationNameRequired))] else [])
    + (if !Present(d.address) then [Violation("location", Required(LocationAddressRequired))] else [])
    + (if |d.coordinates| != 2 then [Violation("coordinates", Rejected(CoordinatesRejected))] else [])
    + (if !Present(d.locationType) then [Violation("locationType", Required(LocationTypeRequired))]
       else if d.locationType.value !in LocationTypes then [Violation("locationType", NotInEnum)]
       else [])
  }

  /** Validation of a location draft: it is accepted exactly when every rule holds, and then it is valid. */
  function BuildLocation(id: Id, d: LocationDraft): (r: Result<Location, seq<Violation>>)
    ensures r.Ok? <==>
      Present(d.name) && Present(d.address) && |d.coordinates| == 2 &&
      d.locationType.Some? && (d.locationType.value == "permanent" || d.locationType.value == "temporary")
    ensures r.Ok? ==> (ValidLocation(r.value) && r.value.id == id && Some(r.value.name) == d.name &&
                       r.value.description == d.description && Some(r.value.address) == d.address &&
                       Some(r.value.locationType) == d.locationType &&
                       r.value.coordinates == d.coordinates && r.value.items == d.items)
    ensures r.Err? ==> r.error == LocationViolations(d) && r.error != []
  {
    var vs := LocationViolations(d);
    if vs == [] then
      Ok(Location(id, d.name.value, d.description, d.address.value, d.coordinates, d.locationType.value, d.items))
    else
      Err(vs)
  }

  predicate UniqueLocationNames(ls: seq<Location>)
  {
    forall i, j :: 0 <= i < j < |ls| ==> ls[i].name != ls[j].name
  }

  /** Saving a new location: validation first, then the unique index on `name`. */
  function InsertLocation(ls: seq<Location>, id: Id, d: LocationDraft): (r: Result<seq<Location>, SaveError>)
    ensures UniqueLocationNames(ls) && r.Ok? ==> UniqueLocationNames(r.value)
    ensures r.Ok? <==> (BuildLocation(id, d).Ok? && forall l :: l in ls ==> Some(l.name) != d.name)
    ensures r.Ok? ==> r.value == ls + [BuildLocation(id, d).value]
  {
    match BuildLocation(id, d)
    case Err(vs) => Err(Invalid(vs))
    case Ok(l) =>
      if exists k :: 0 <= k < |ls| && ls[k].name == l.name then Err(DuplicateKey("name"))
      else Ok(ls + [l])
  }

  // -------------------------------------------------------------------- Take

  /**
   * A take as pushed onto an item, before defaults and validation. `None`
   * is an absent field; an explicit `null` is not modelled (`takeItems`
   * never sends `dateTook`).
   */
  datatype TakeDraft = TakeDraft(user: Option<Id>, quantity: Option<int>, location: Option<Id>, dateTook: Option<Date>, dateReturned: Option<Date>)

  const TakeUserRequired := "We need to know who took the item(s)."
  const TakeQuantityRequired := "We need to know how many of an item you took!"
  const TakeLocationRequired := "Tell us where you are taking the item in such a quantity."

  function TakeViolations(d: TakeDraft): seq<Violation>
  {
    (if d.user.None? then [Violation("user", Required(TakeUserRequired))] else [])
    + (if d.quantity.None? then [Violation("quantity", Required(TakeQuantityRequired))] else [])
    + (if d.location.None? then [Violation("location", Required(TakeLocationRequired))] else [])
  }

  /**
   * A take is accepted exactly when user, quantity and location are given; `dateTook`
   * defaults to the creation time and an absent `dateReturned` stays absent (not returned).
   */
  function BuildTake(d: TakeDraft, now: Date): (r: Result<Take, seq<Violation>>)
    ensures r.Ok? <==> d.user.Some? && d.quantity.Some? && d.location.Some?
    ensures r.Ok? ==> (r.value.user == d.user.value && r.value.quantity == d.quantity.value &&
                       r.value.location == d.location.value && r.value.dateReturned == d.dateReturned)
    ensures r.Ok? ==> r.value.dateTook == if d.dateTook.Some? then d.dateTook.value else now
    ensures r.Err? ==> r.error != []
  {
    var vs := TakeViolations(d);
    if vs != [] then Err(vs)
    else
      var took := if d.dateTook.Some? then d.dateTook.value else now;
      Ok(Take(d.user.value, d.quantity.value, d.location.value, took, d.dateReturned))
  }

  // -------------------------------------------------------------------- Item

  /**
   * A number field as submitted: left out of the body, sent as `null`, or
   * given. A default applies only to a field left out.
   */
  datatype NumberField = Absent | Null | Given(value: int)

  /** An item as submitted; an absent `quantity` takes the default, a `null` one does not. */
  datatype ItemDraft = ItemDraft(
    itemType: Option<string>,
    code: Option<string>,
    name: Option<string>,
    description: Option<string>,
    quantity: NumberField,
    taken: seq<Take>,
    defaultLocation: Option<Id>)

  const DefaultQuantity := 1
  const MinQuantity := 1
  const ItemQuantityRequired := "We need to know how many of an item there is to take."
  const ItemTypeRequired := "Item type is required for filtering purposes."
  const ItemCodeRequired := "You will search for items with this code."
  const ItemNameRequired := "You will search for items with this name."
  const ItemDefaultLocationRequired := "Tell us where the default location for this item is, so we can assign it to the item when you return it."

  /** The rules a saved item satisfies, given the enumeration of item types. */
  predicate ValidItem(i: Item, itemTypes: seq<string>)
  {
    i.itemType in itemTypes && i.code != "" && i.name != "" && i.quantity >= MinQuantity
  }

  function ItemViolations(d: ItemDraft, itemTypes: seq<string>): seq<Violation>
  {
    (if !Present(d.itemType) then [Violation("itemType", Required(ItemTypeRequired))]
     else if d.itemType.value !in itemTypes then [Violation("itemType", NotInEnum)]
     else [])
    + (if !Present(d.code) then [Violation("code", Required(ItemCodeRequired))] else [])
    + (if !Present(d.name) then [Violation("name", Required(ItemNameRequired))] else [])
    + (match d.quantity
       case Absent => if DefaultQuantity < MinQuantity then [Violation("quantity", BelowMin(MinQuantity))] else []
       case Null => [Violation("quantity", Required(ItemQuantityRequired))]
       case Given(q) => if q < MinQuantity then [Violation("quantity", BelowMin(MinQuantity))] else [])
    + (if d.defaultLocation.None? then [Violation("defaultLocation", Required(ItemDefaultLocationRequired))] else [])
  }

  /**
   * Validation of an item draft: accepted exactly when the type is one of `itemTypes`,
   * code and name are given, the (defaulted) quantity is at least 1 and a default
   * location is given; a missing quantity becomes 1.
   */
  function BuildItem(id: Id, d: ItemDraft, itemTypes: seq<string>): (r: Result<Item, seq<Violation>>)
    ensures r.Ok? <==>
      Present(d.itemType) && d.itemType.value in itemTypes && Present(d.code) && Present(d.name) &&
      (d.quantity.Absent? || (d.quantity.Given? && d.quantity.value >= 1)) && d.defaultLocation.Some?
    ensures r.Ok? ==> (ValidItem(r.value, itemTypes) && r.value.id == id && r.value.taken == d.taken &&
                       Some(r.value.itemType) == d.itemType && Some(r.value.code) == d.code &&
                       Some(r.value.name) == d.name && r.value.description == d.description &&
                       Some(r.value.defaultLocation) == d.defaultLocation &&
                       r.value.quantity == (if d.quantity.Absent? then 1 else d.quantity.value))
    ensures d.quantity.Null? ==> r.Err? && Violation("quantity", Required(ItemQuantityRequired)) in r.error
    ensures r.Err? ==> r.error != []
  {
    var vs := ItemViolations(d, itemTypes);
    if vs != [] then Err(vs)
    else
      var quantity := if d.quantity.Given? then d.quantity.value else DefaultQuantity;
      Ok(Item(id, d.itemType.value, d.code.value, d.name.value, d.description, quantity, d.taken, d.defaultLocation.value))
  }

  predicate UniqueItemKeys(items: seq<Item>)
  {
    forall i, j :: 0 <= i < j < |items| ==> items[i].code != items[j].code && items[i].name != items[j].name
  }

  /** Saving a new item: validation first, then the unique indexes on `code` and on `name`. */
  function InsertItem(items: seq<Item>, id: Id, d: ItemDraft, itemTypes: seq<string>): (r: Result<seq<Item>, SaveError>)
    ensures UniqueItemKeys(items) && r.Ok? ==> UniqueItemKeys(r.value)
    ensures r.Ok? <==> (BuildItem(id, d, itemTypes).Ok? &&
                        forall it :: it in items ==> Some(it.code) != d.code && Some(it.name) != d.name)
    ensures r.Ok? ==> r.value == items + [BuildItem(id, d, itemTypes).value]
  {
    match BuildItem(id, d, itemTypes)
    case Err(vs) => Err(Invalid(vs))
    case Ok(it) =>
      if exists k :: 0 <= k < |items| && items[k].code == it.code then Err(DuplicateKey("code"))
      else if exists k :: 0 <= k < |items| && items[k].name == it.name then Err(DuplicateKey("name"))
      else Ok(items + [it])
  }
}
