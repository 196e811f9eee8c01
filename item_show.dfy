/**
 * The item page. It shows how many pieces of the item are in its warehouse
 * and lets the item be edited or deleted, but only while every piece is
 * back: with a take outstanding the form is disabled and both actions only
 * warn.
 */
module ItemShow {
  import opened Wrappers
  import opened DbModels
  import opened Ledger
  import opened Client
  import ItemsController

  /** The names of the six form controls. */
  const Controls: set<string> := {"itemName", "itemQuantity", "itemType", "itemCode", "itemDesc", "itemWrh"}

  const EditLocked := "Za urejanje in brisanje opreme morajo biti vsi kosi opreme v skladišču"
  const ItemsRoute := "items"

  function UpdatedMessage(name: string): string
  {
    "Oprema " + name + " uspešno posodobljena."
  }

  /** The form's values; the type is an index into the list of item types, -1 when unknown. */
  datatype FormValues = FormValues(
    itemName: string,
    itemQuantity: Option<int>,
    itemType: int,
    itemCode: string,
    itemDesc: Option<string>,
    itemWrh: Id)

  /** The form's validators: a name, a quantity of at least 1, a type index of at least 0 and a code. */
  predicate FormValid(f: FormValues)
  {
    f.itemName != "" && f.itemQuantity.Some? && f.itemQuantity.value >= 1 && f.itemType >= 0 && f.itemCode != ""
  }

  /** `indexOf`: the first position of `x`, or -1. */
  function IndexOf(s: seq<string>, x: string): (r: int)
    ensures r == -1 <==> x !in s
    ensures r != -1 ==> (0 <= r < |s| && s[r] == x && forall j :: 0 <= j < r ==> s[j] != x)
  {
    if s == [] then -1
    else if s[0] == x then 0
    else
      var r := IndexOf(s[1..], x);
      if r == -1 then -1 else r + 1
  }

  /** Indexing the item types; out of range gives nothing. */
  function TypeAt(itemTypes: seq<string>, k: int): Option<string>
  {
    if 0 <= k < |itemTypes| then Some(itemTypes[k]) else None
  }

  /** Every take of the item has been returned. */
  predicate AllReturned(taken: seq<Take>)
  {
    forall i :: 0 <= i < |taken| ==> taken[i].dateReturned.Some?
  }

  function InitialForm(item: Item, itemTypes: seq<string>): FormValues
  {
    FormValues(item.name, Some(item.quantity), IndexOf(itemTypes, item.itemType), item.code, item.description, item.defaultLocation)
  }

  /**
   * With every take holding pieces, the page shows the stored quantity
   * exactly when every take is back, and less than it otherwise.
   */
  lemma ShownEqualsStoredIffAllReturned(item: Item)
    requires PositiveOutstanding(item.taken, Anywhere)
    ensures ItemsController.Effective(item) == item.quantity <==> AllReturned(item.taken)
    ensures ItemsController.Effective(item) <= item.quantity
  {
    OutstandingZeroIff(item.taken, Anywhere);
  }

  /** A form opened on an item type the list knows starts valid exactly when name, code and quantity are. */
  lemma KnownTypeFormValid(item: Item, itemTypes: seq<string>)
    requires item.itemType in itemTypes
    ensures FormValid(InitialForm(item, itemTypes)) <==> item.name != "" && item.code != "" && item.quantity >= 1
    ensures TypeAt(itemTypes, InitialForm(item, itemTypes).itemType) == Some(item.itemType)
  {
  }

  class ItemShowComponent {
    var itemTypes: seq<string>
    var itmId: Id
    var item: Item
    var inWrh: bool
    var form: FormValues
    var disabled: set<string>

    /**
     * The page once the item has arrived: the shown quantity is the stored
     * one less every outstanding take, and `inWrh` records that no take is
     * outstanding; otherwise the whole form is disabled.
     */
    constructor(itemTypes: seq<string>, itmId: Id, loaded: Item)
      ensures this.itemTypes == itemTypes && this.itmId == itmId
      ensures inWrh <==> AllReturned(loaded.taken)
      ensures item == loaded.(quantity := ItemsController.Effective(loaded))
      ensures form == InitialForm(item, itemTypes)
      ensures disabled == if inWrh then {} else Controls
    {
      this.itemTypes := itemTypes;
      this.itmId := itmId;
      item := loaded;
      inWrh := true;
      form := InitialForm(loaded, itemTypes);
      disabled := {};
      new;
      var i := 0;
      while i < |item.taken|
        invariant 0 <= i <= |loaded.taken|
        invariant item == loaded.(quantity := loaded.quantity - Outstanding(loaded.taken[..i], Anywhere))
        invariant inWrh <==> AllReturned(loaded.taken[..i])
        invariant this.itemTypes == itemTypes && this.itmId == itmId && disabled == {}
      {
        OutstandingSnoc(loaded.taken, i, Anywhere);
        if item.taken[i].dateReturned.Some? {
          inWrh := inWrh && true;
        } else {
          inWrh := false;
          item := item.(quantity := item.quantity - item.taken[i].quantity);
        }
        assert loaded.taken[..i + 1][i] == loaded.taken[i];
        i := i + 1;
      }
      assert loaded.taken[..|loaded.taken|] == loaded.taken;
      form := InitialForm(item, itemTypes);
      if !inWrh {
        DissableForm();
      }
    }

    method DissableForm()
      modifies this
      ensures disabled == old(disabled) + Controls
      ensures itemTypes == old(itemTypes) && itmId == old(itmId) && item == old(item)
      ensures inWrh == old(inWrh) && form == old(form)
    {
      disabled := disabled + Controls;
    }

    /**
     * Saving: with a take outstanding nothing is sent and the user is
     * warned; otherwise a valid form sends an update that carries the loaded
     * takes unchanged, confirms and reloads, and an invalid form does nothing.
     */
    method OnSubmit() returns (effects: seq<Effect>)
      ensures !inWrh ==> effects == [Alert(EditLocked)]
      ensures inWrh && !FormValid(form) ==> effects == []
      ensures SendsNothing(effects) <==> !(inWrh && FormValid(form))
      ensures inWrh && FormValid(form) ==>
        effects == [Send(UpdateItem(itmId, ItemUpdate(form.itemCode, form.itemWrh, form.itemDesc,
                                                      TypeAt(itemTypes, form.itemType), form.itemName,
                                                      form.itemQuantity.value, Some(item.taken)))),
                    Alert(UpdatedMessage(form.itemName)), Reload]
    {
      effects := [];
      if inWrh {
        if FormValid(form) {
          var formOut := ItemUpdate(form.itemCode, form.itemWrh, form.itemDesc, TypeAt(itemTypes, form.itemType),
                                    form.itemName, form.itemQuantity.value, Some(item.taken));
          effects := [Send(UpdateItem(itmId, formOut)), Alert(UpdatedMessage(form.itemName)), Reload];
          assert effects[0] in effects;
        }
      } else {
        effects := [Alert(EditLocked)];
      }
    }

    /** Deleting: the same guard; a valid form sends the deletion and goes to the item list. */
    method OnDelete() returns (effects: seq<Effect>)
      ensures !inWrh ==> effects == [Alert(EditLocked)]
      ensures SendsNothing(effects) <==> !(inWrh && FormValid(form))
      ensures inWrh && FormValid(form) ==> effects == [Send(DeleteItem(itmId)), Navigate(ItemsRoute)]
      ensures inWrh && !FormValid(form) ==> effects == []
    {
      effects := [];
      if inWrh {
        if FormValid(form) {
          effects := [Send(DeleteItem(itmId)), Navigate(ItemsRoute)];
          assert effects[0] in effects;
        }
      } else {
        effects := [Alert(EditLocked)];
      }
    }
  }
}
