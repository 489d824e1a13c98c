/**
 * The victim's aid-request form: the items on offer for the active
 * disaster, the checkbox toggle over the chosen item ids, the schema
 * (some non-empty item, a non-empty location), the mock location fetch
 * and the reset after a successful submission. The form's success
 * callback is invoked with no arguments, so the chosen items and the
 * location never leave the form; `SubmitPayload` is the corrected
 * callback that hands the validated values on. What the page's handler
 * does with the missing argument is modelled with the victim dashboard.
 */
module AidRequestForm {
  import opened Wrappers
  import opened Types

  /** An entry of `allItems`: the item kind, its label (`title`) and the disasters it is offered for. */
  datatype OfferedItem = OfferedItem(id: AidRequestItem, title: string, disasters: seq<DisasterType>)

  const EveryDisaster: seq<DisasterType> := [Flood, Earthquake, Fire, Heatwave]

  const AllItems: seq<OfferedItem> := [
    OfferedItem(Food, "Food", EveryDisaster),
    OfferedItem(Water, "Water", EveryDisaster),
    OfferedItem(Medicine, "Medicine", EveryDisaster),
    OfferedItem(MedicalHelp, "Medical Help", EveryDisaster),
    OfferedItem(BoatTransport, "Boat Transport", [Flood]),
    OfferedItem(LifeJackets, "Life Jackets", [Flood]),
    OfferedItem(Blankets, "Blankets", EveryDisaster),
    OfferedItem(Tents, "Tents", EveryDisaster)
  ]

  /** `items.filter(item => item.disaster.includes(active))`, in the given order. */
  function OfferedFor(items: seq<OfferedItem>, active: DisasterType): seq<OfferedItem> {
    if items == [] then []
    else (if active in items[0].disasters then [items[0]] else []) + OfferedFor(items[1..], active)
  }

  /** `availableItems`: the entries of `allItems` offered for the active disaster. */
  function AvailableItems(active: DisasterType): seq<OfferedItem> {
    OfferedFor(AllItems, active)
  }

  /** The filter keeps exactly the entries listing the active disaster, and keeps their order. */
  lemma {:induction false} OfferedForMembers(items: seq<OfferedItem>, active: DisasterType)
    ensures forall it :: it in OfferedFor(items, active) <==> it in items && active in it.disasters
    ensures |OfferedFor(items, active)| <= |items|
  {
    if items != [] {
      OfferedForMembers(items[1..], active);
      assert items == [items[0]] + items[1..];
    }
  }

  /** The filter of a concatenation is the concatenation of the filters: entries keep their relative order. */
  lemma {:induction false} OfferedForAppend(a: seq<OfferedItem>, b: seq<OfferedItem>, active: DisasterType)
    ensures OfferedFor(a + b, active) == OfferedFor(a, active) + OfferedFor(b, active)
    decreases |a|
  {
    if |a| == 0 {
      assert a + b == b;
    } else {
      var t := a[1..];
      OfferedForAppend(t, b, active);
      OfferedForCons(a[0], t + b, active);
      OfferedForCons(a[0], t, active);
      assert a + b == [a[0]] + (t + b);
      assert a == [a[0]] + t;
    }
  }

  /** The kind `item` has a checkbox while `active` is the disaster type. */
  predicate Offered(item: AidRequestItem, active: DisasterType) {
    exists it :: it in AvailableItems(active) && it.id == item
  }

  /** One step of the filter: the head is kept iff it lists the active disaster. */
  lemma OfferedForCons(x: OfferedItem, rest: seq<OfferedItem>, active: DisasterType)
    ensures OfferedFor([x] + rest, active) == (if active in x.disasters then [x] else []) + OfferedFor(rest, active)
  {
    assert ([x] + rest)[1..] == rest;
  }

  /** A filter that every entry passes keeps the whole list. */
  lemma {:induction false} OfferedForKeepsAll(items: seq<OfferedItem>, active: DisasterType)
    requires forall j :: 0 <= j < |items| ==> active in items[j].disasters
    ensures OfferedFor(items, active) == items
  {
    if items != [] {
      OfferedForKeepsAll(items[1..], active);
      assert items == [items[0]] + items[1..];
    }
  }

  /** During a flood every entry of `allItems` is offered. */
  lemma AvailableDuringFlood()
    ensures AvailableItems(Flood) == AllItems
  {
    forall j | 0 <= j < |AllItems|
      ensures Flood in AllItems[j].disasters
    {
    }
    OfferedForKeepsAll(AllItems, Flood);
  }

  /** The slot of each kind in `allItems`. */
  function Slot(item: AidRequestItem): (i: nat)
    ensures i < |AllItems| && AllItems[i].id == item
  {
    match item
    case Food => 0
    case Water => 1
    case Medicine => 2
    case MedicalHelp => 3
    case BoatTransport => 4
    case LifeJackets => 5
    case Blankets => 6
    case Tents => 7
  }

  lemma OfferedDuringFlood(item: AidRequestItem)
    ensures Offered(item, Flood)
  {
    AvailableDuringFlood();
    assert AllItems[Slot(item)] in AvailableItems(Flood);
  }

  /** Each entry of `allItems` sits in its kind's slot. */
  lemma SlotOf(j: nat)
    requires j < |AllItems|
    ensures Slot(AllItems[j].id) == j
  {
  }

  /** Boat transport and life jackets are listed for floods only. */
  lemma FloodOnlyEntries(j: nat)
    requires j < |AllItems|
    ensures AllItems[j].id == BoatTransport || AllItems[j].id == LifeJackets ==> AllItems[j].disasters == [Flood]
  {
    SlotOf(j);
  }

  /** A kind listed for every disaster is offered whatever the active one. */
  lemma OfferedEverywhere(item: AidRequestItem, active: DisasterType)
    requires item != BoatTransport && item != LifeJackets
    ensures Offered(item, active)
  {
    var it := AllItems[Slot(item)];
    assert it.disasters == EveryDisaster;
    assert active in it.disasters;
    OfferedForMembers(AllItems, active);
    assert it in AvailableItems(active);
  }

  /** Outside a flood, boat transport and life jackets have no checkbox. */
  lemma FloodOnlyOtherwise(item: AidRequestItem, active: DisasterType)
    requires active != Flood && (item == BoatTransport || item == LifeJackets)
    ensures !Offered(item, active)
  {
    var a := AllItems;
    forall j | 0 <= j < |a| && a[j].id == item
      ensures active !in a[j].disasters
    {
      FloodOnlyEntries(j);
    }
    OfferedForExcludes(a, active, item);
  }

  /** A kind none of whose entries lists the active disaster is filtered out. */
  lemma {:induction false} OfferedForExcludes(items: seq<OfferedItem>, active: DisasterType, item: AidRequestItem)
    requires forall j :: 0 <= j < |items| && items[j].id == item ==> active !in items[j].disasters
    ensures forall it :: it in OfferedFor(items, active) ==> it.id != item
  {
    if items != [] {
      OfferedForExcludes(items[1..], active, item);
    }
  }

  /**
   * Boat transport and life jackets are offered during floods only; every
   * other kind is offered whatever the disaster.
   */
  lemma OfferedIff(item: AidRequestItem, active: DisasterType)
    ensures Offered(item, active) <==> (item == BoatTransport || item == LifeJackets ==> active == Flood)
  {
    if active == Flood {
      OfferedDuringFlood(item);
    } else if item == BoatTransport || item == LifeJackets {
      FloodOnlyOtherwise(item, active);
    } else {
      OfferedEverywhere(item, active);
    }
  }

  /** The form's values: the checked item ids and the location text. */
  datatype FormValues = FormValues(items: seq<string>, location: string)

  const MockLocation: string := "123 Disaster Ave, Emergency City"

  /** `FormSchema`: at least one non-empty item id and a location of at least one character. */
  function Validate(v: FormValues): (ok: bool)
    ensures ok <==> (exists i :: 0 <= i < |v.items| && v.items[i] != "") && |v.location| >= 1
  {
    AnyNonEmpty(v.items) && |v.location| >= 1
  }

  /** `value.some(item => item)`: the empty string is the only falsy string. */
  function AnyNonEmpty(items: seq<string>): (b: bool)
    ensures b <==> exists i :: 0 <= i < |items| && items[i] != ""
  {
    if items == [] then false
    else items[0] != "" || AnyNonEmpty(items[1..])
  }

  /** `value.filter(v => v !== id)`: every occurrence of `id` removed, the rest in order. */
  function Remove(items: seq<string>, id: string): seq<string> {
    if items == [] then []
    else (if items[0] != id then [items[0]] else []) + Remove(items[1..], id)
  }

  lemma {:induction false} RemoveMembers(items: seq<string>, id: string)
    ensures forall x :: x in Remove(items, id) <==> x in items && x != id
    ensures forall x :: x != id ==> multiset(Remove(items, id))[x] == multiset(items)[x]
  {
    if items != [] {
      RemoveMembers(items[1..], id);
      assert items == [items[0]] + items[1..];
    }
  }

  /** Removing an id the list does not hold changes nothing. */
  lemma {:induction false} RemoveAbsent(items: seq<string>, id: string)
    requires id !in items
    ensures Remove(items, id) == items
  {
    if items != [] {
      RemoveAbsent(items[1..], id);
      assert items == [items[0]] + items[1..];
    }
  }

  /** Removing an id just appended to a list that did not hold it gives the list back. */
  lemma {:induction false} RemoveAppended(items: seq<string>, id: string)
    requires id !in items
    ensures Remove(items + [id], id) == items
  {
    if items == [] {
      assert items + [id] == [id];
    } else {
      RemoveAppended(items[1..], id);
      assert (items + [id])[1..] == items[1..] + [id];
      assert items == [items[0]] + items[1..];
    }
  }

  /** The filter of a concatenation is the concatenation of the filters: the kept ids stay in order. */
  lemma {:induction false} RemoveAppend(a: seq<string>, b: seq<string>, id: string)
    ensures Remove(a + b, id) == Remove(a, id) + Remove(b, id)
    decreases |a|
  {
    if |a| == 0 {
      assert a + b == b;
    } else {
      var t := a[1..];
      RemoveAppend(t, b, id);
      var ab := a + b;
      assert ab != [] && ab[0] == a[0] && ab[1..] == t + b;
    }
  }

  /** The checkbox's `onCheckedChange`: checking appends the id, unchecking removes it. */
  function Toggle(items: seq<string>, id: string, checked: bool): (r: seq<string>)
    ensures checked ==> |r| == |items| + 1 && r[..|items|] == items && r[|items|] == id
    ensures !checked ==> id !in r
  {
    if checked then items + [id]
    else
      RemoveMembers(items, id);
      Remove(items, id)
  }

  /** Unchecking a box that was just checked gives back the list it started from. */
  lemma ToggleUndo(items: seq<string>, id: string)
    requires id !in items
    ensures Toggle(Toggle(items, id, true), id, false) == items
  {
    RemoveAppended(items, id);
  }

  /** Unchecking works piece by piece: the ids that stay keep their order. */
  lemma UncheckKeepsOrder(a: seq<string>, b: seq<string>, id: string)
    ensures Toggle(a + b, id, false) == Toggle(a, id, false) + Toggle(b, id, false)
  {
    RemoveAppend(a, b, id);
  }

  /** Unchecking keeps the other ids with their counts. */
  lemma UncheckKeepsOthers(items: seq<string>, id: string, x: string)
    requires x != id
    ensures multiset(Toggle(items, id, false))[x] == multiset(items)[x]
  {
    RemoveMembers(items, id);
  }

  /** The corrected callback: the validated values themselves are handed on. */
  function SubmitPayload(v: FormValues): (sent: Option<FormValues>)
    ensures sent.Some? <==> Validate(v)
    ensures sent.Some? ==> sent.value == v
  {
    if Validate(v) then Some(v) else None
  }

  class Form {
    var values: FormValues
    var isSubmitting: bool
    var isFetchingLocation: bool

    /** The default values: no items, empty location. */
    constructor()
      ensures values == FormValues([], "") && !isSubmitting && !isFetchingLocation
    {
      values := FormValues([], "");
      isSubmitting := false;
      isFetchingLocation := false;
    }

    /** `fetchLocation`: the location becomes the fixed mock address; the items stay. */
    method FetchLocation()
      modifies this
      ensures values == old(values).(location := MockLocation)
      ensures !isFetchingLocation && isSubmitting == old(isSubmitting)
    {
      isFetchingLocation := true;
      values := values.(location := MockLocation);
      isFetchingLocation := false;
    }

    method ToggleItem(id: string, checked: bool)
      modifies this
      ensures values == old(values).(items := Toggle(old(values).items, id, checked))
      ensures isSubmitting == old(isSubmitting) && isFetchingLocation == old(isFetchingLocation)
    {
      values := values.(items := Toggle(values.items, id, checked));
    }

    /**
     * `handleSubmit(onSubmit)` as written: on valid values the items are
     * emptied, the location is kept and the callback is called with no
     * arguments; invalid values stay for correction.
     */
    method Submit() returns (called: bool)
      modifies this
      ensures called == Validate(old(values))
      ensures called ==> values == FormValues([], old(values).location) && !isSubmitting
      ensures !called ==> values == old(values) && isSubmitting == old(isSubmitting)
      ensures isFetchingLocation == old(isFetchingLocation)
    {
      called := Validate(values);
      if called {
        isSubmitting := true;
        values := FormValues([], values.location);
        isSubmitting := false;
      }
    }

    /** The corrected submission: the same reset, with the validated values handed to the callback. */
    method SubmitWithPayload() returns (sent: Option<FormValues>)
      modifies this
      ensures sent == SubmitPayload(old(values))
      ensures sent.Some? ==> values == FormValues([], old(values).location) && !isSubmitting
      ensures sent.None? ==> values == old(values) && isSubmitting == old(isSubmitting)
      ensures isFetchingLocation == old(isFetchingLocation)
    {
      sent := SubmitPayload(values);
      if sent.Some? {
        isSubmitting := true;
        values := FormValues([], values.location);
        isSubmitting := false;
      }
    }
  }
}
