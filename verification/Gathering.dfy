/** The turns of core/conversation_turn.py that gather what a plan needs: the slots of a
    message become a patch, the patch is merged into the profile, and agents/demand_parser.py
    says which required slots are still missing. */
module Gathering {
  import opened Prelude
  import opened Profiles

  datatype Slot =
    | Origin | Destination | TravelDates | TravelDays | TravelersCount | TravelCompanion
    | HasElderly | HasChildren | TotalBudget | Pace
    | Interests | FoodPrefs | FoodTaboos | MustNotVisit | MustVisit

  type Slots = map<Slot, Value>

  const REQUIRED: seq<Slot> := [
    Slot.Origin, Slot.Destination, Slot.TravelDates, Slot.TravelDays, Slot.TravelersCount, Slot.HasElderly,
    Slot.HasChildren, Slot.TotalBudget]

  /** The keys of scalar_map, and the two flags that are handled after it. */
  const SETTABLE: seq<Slot> :=
    [Slot.Origin, Slot.Destination, Slot.TravelDays, Slot.TravelDates, Slot.TravelersCount, Slot.TravelCompanion,
     Slot.TotalBudget, Slot.Pace, Slot.HasChildren, Slot.HasElderly]

  const LISTED: seq<Slot> := [Slot.Interests, Slot.FoodPrefs, Slot.FoodTaboos, Slot.MustNotVisit]

  function ProfileKey(s: Slot): (r: Key)
  {
    match s
    case Origin => Key.Origin
    case Destination => Key.Destination
    case TravelDates => Key.TravelDates
    case TravelDays => Key.TravelDays
    case TravelersCount => Key.TravelersCount
    case TravelCompanion => Key.TravelersType
    case HasElderly => Key.HasElderly
    case HasChildren => Key.HasChildren
    case TotalBudget => Key.BudgetRange
    case Pace => Key.Pace
    case Interests => Key.Interests
    case FoodPrefs => Key.FoodPreferences
    case FoodTaboos => Key.Avoid
    case MustNotVisit => Key.Avoid
    case MustVisit => Key.SpecialRequests
  }

  predicate Required(s: Slot)
  {
    s.Origin? || s.Destination? || s.TravelDates? || s.TravelDays? || s.TravelersCount? ||
    s.HasElderly? || s.HasChildren? || s.TotalBudget?
  }

  lemma RequiredIs(s: Slot)
    ensures s in REQUIRED <==> Required(s)
  {
    assert REQUIRED[0].Origin? && REQUIRED[1].Destination? && REQUIRED[2].TravelDates? && REQUIRED[3].TravelDays?;
    assert REQUIRED[4].TravelersCount? && REQUIRED[5].HasElderly?;
    assert REQUIRED[6].HasChildren? && REQUIRED[7].TotalBudget?;
  }

  lemma RequiredIsSettable(s: Slot)
    requires Required(s)
    ensures s in SETTABLE
  {
    assert SETTABLE[0].Origin? && SETTABLE[1].Destination? && SETTABLE[2].TravelDays? && SETTABLE[3].TravelDates?;
    assert SETTABLE[4].TravelersCount? && SETTABLE[6].TotalBudget?;
    assert SETTABLE[8].HasChildren? && SETTABLE[9].HasElderly?;
  }

  lemma OwnKey(s: Slot, t: Slot)
    requires s != t && ProfileKey(t) != Key.Avoid
    ensures ProfileKey(s) != ProfileKey(t)
  {
  }

  predicate IsFlag(s: Slot)
  {
    s.HasChildren? || s.HasElderly?
  }

  // ----- what is missing -----

  predicate IsEmpty(s: Slot, v: Value)
  {
    if IsFlag(s) then v == Nil else v == Nil || v == Str("") || v == List([])
  }

  predicate IsMissing(flat: Dict, s: Slot)
  {
    IsEmpty(s, Get(flat, ProfileKey(s)))
  }

  function MissingOf(slots: seq<Slot>, flat: Dict): (r: seq<Slot>)
  {
    if slots == [] then []
    else
      var before, s := MissingOf(slots[..|slots| - 1], flat), slots[|slots| - 1];
      if IsMissing(flat, s) then before + [s] else before
  }

  lemma {:induction false} MissingIs(slots: seq<Slot>, flat: Dict, s: Slot)
    ensures s in MissingOf(slots, flat) <==> s in slots && IsMissing(flat, s)
  {
    if slots != [] {
      MissingIs(slots[..|slots| - 1], flat, s);
    }
  }

  method MissingFromProfile(flat: Dict) returns (missing: seq<Slot>)
    ensures missing == MissingOf(REQUIRED, flat)
  {
    missing := [];
    for i := 0 to |REQUIRED|
      invariant missing == MissingOf(REQUIRED[..i], flat)
    {
      assert REQUIRED[..i + 1][..i] == REQUIRED[..i];
      var s := REQUIRED[i];
      if ProfileKey(s) !in flat {
        missing := missing + [s];
      } else if IsEmpty(s, flat[ProfileKey(s)]) {
        missing := missing + [s];
      }
    }
    assert REQUIRED[..|REQUIRED|] == REQUIRED;
  }

  // ----- slots to patch -----

  function SlotValue(slots: Slots, s: Slot): (r: Value)
  {
    if s in slots then slots[s] else Nil
  }

  /** The message gives the slot a value: not null and, but for the flags, not the empty string. */
  predicate Fills(slots: Slots, s: Slot)
  {
    SlotValue(slots, s) != Nil && (IsFlag(s) || SlotValue(slots, s) != Str(""))
  }

  function SetOf(slots: Slots, ss: seq<Slot>): (r: Dict)
  {
    if ss == [] then map[]
    else
      var before, s := SetOf(slots, ss[..|ss| - 1]), ss[|ss| - 1];
      if Fills(slots, s) then before[ProfileKey(s) := SlotValue(slots, s)] else before
  }

  function Extend(d: Dict, k: Key, items: seq<string>): (r: Dict)
  {
    if items == [] then d else d[k := List(ItemsOf(Look(d, k)) + items)]
  }

  function SlotItems(slots: Slots, s: Slot): (r: seq<string>)
  {
    if SlotValue(slots, s).List? then SlotValue(slots, s).items else []
  }

  function AddOf(slots: Slots, ss: seq<Slot>): (r: Dict)
  {
    if ss == [] then map[]
    else Extend(AddOf(slots, ss[..|ss| - 1]), ProfileKey(ss[|ss| - 1]), SlotItems(slots, ss[|ss| - 1]))
  }

  /** The prefix that marks a place as one that must be visited. */
  const MUST_GO := "\U{5FC5}\U{53BB}\U{FF1A}"

  function Prefixed(items: seq<string>): (r: seq<string>)
  {
    seq(|items|, i requires 0 <= i < |items| => MUST_GO + items[i])
  }

  /** slots_to_patch as a function. */
  function PatchOf(slots: Slots): (r: Patch)
  {
    Patch(
      SetOf(slots, SETTABLE),
      Extend(AddOf(slots, LISTED), Key.SpecialRequests, Prefixed(SlotItems(slots, MustVisit))),
      map[],
      [])
  }

  method SlotsToPatch(slots: Slots) returns (patch: Patch)
    ensures patch == PatchOf(slots)
  {
    var set_: Dict, add: Dict := map[], map[];
    for i := 0 to |SETTABLE|
      invariant set_ == SetOf(slots, SETTABLE[..i])
    {
      assert SETTABLE[..i + 1][..i] == SETTABLE[..i];
      var s := SETTABLE[i];
      if s in slots && slots[s] != Nil && (IsFlag(s) || slots[s] != Str("")) {
        set_ := set_[ProfileKey(s) := slots[s]];
      }
    }
    assert SETTABLE[..|SETTABLE|] == SETTABLE;
    for i := 0 to |LISTED|
      invariant add == AddOf(slots, LISTED[..i])
    {
      assert LISTED[..i + 1][..i] == LISTED[..i];
      var k, items := ProfileKey(LISTED[i]), SlotItems(slots, LISTED[i]);
      if items != [] {
        add := add[k := List(ItemsOf(Look(add, k)) + items)];
      }
    }
    assert LISTED[..|LISTED|] == LISTED;
    var must := SlotItems(slots, MustVisit);
    if must != [] {
      var marked: seq<string> := [];
      for i := 0 to |must|
        invariant marked == Prefixed(must[..i])
      {
        marked := marked + [MUST_GO + must[i]];
      }
      assert must[..|must|] == must;
      add := add[Key.SpecialRequests := List(ItemsOf(Look(add, Key.SpecialRequests)) + marked)];
    }
    patch := Patch(set_, add, map[], []);
  }

  lemma {:induction false} SetOfIs(slots: Slots, ss: seq<Slot>, s: Slot)
    requires ProfileKey(s) != Key.Avoid
    ensures Look(SetOf(slots, ss), ProfileKey(s)) ==
      if s in ss && Fills(slots, s) then Some(SlotValue(slots, s)) else None
  {
    if ss != [] {
      SetOfIs(slots, ss[..|ss| - 1], s);
      if ss[|ss| - 1] != s {
        OwnKey(ss[|ss| - 1], s);
      }
    }
  }

  /** What a message does to the field of a required slot: its value if it gives one. */
  lemma PatchFills(slots: Slots, s: Slot, v: Option<Value>)
    requires Required(s)
    ensures After(PatchOf(slots), ProfileKey(s), v) == if Fills(slots, s) then Some(SlotValue(slots, s)) else v
  {
    RequiredIsSettable(s);
    SetOfIs(slots, SETTABLE, s);
    ScalarAfter(PatchOf(slots), ProfileKey(s), v);
  }

  /** A scalar field changes only by what is set, if the patch clears nothing. */
  lemma ScalarAfter(patch: Patch, k: Key, v: Option<Value>)
    requires IsScalar(k) && patch.clear == []
    ensures After(patch, k, v) == if k in patch.set_ && patch.set_[k] != Nil then Some(patch.set_[k]) else v
  {
  }

  /** The items that the slots of ss give to the field k. */
  function Gathered(slots: Slots, ss: seq<Slot>, k: Key): (r: seq<string>)
  {
    if ss == [] then []
    else
      var before, s := Gathered(slots, ss[..|ss| - 1], k), ss[|ss| - 1];
      if ProfileKey(s) == k then before + SlotItems(slots, s) else before
  }

  lemma {:induction false} AddOfIs(slots: Slots, ss: seq<Slot>, k: Key)
    ensures ItemsOf(Look(AddOf(slots, ss), k)) == Gathered(slots, ss, k)
  {
    if ss != [] {
      AddOfIs(slots, ss[..|ss| - 1], k);
    }
  }

  lemma {:induction false} GatheredStep(slots: Slots, ss: seq<Slot>, n: nat, k: Key, before: seq<string>)
    requires n < |ss| && Gathered(slots, ss[..n], k) == before
    ensures Gathered(slots, ss[..n + 1], k) ==
      if ProfileKey(ss[n]) == k then before + SlotItems(slots, ss[n]) else before
  {
    assert ss[..n + 1][..n] == ss[..n];
  }

  lemma {:induction false} ListedRefusals(slots: Slots, ss: seq<Slot>)
    requires |ss| == 4 && ss[0] == Slot.Interests && ss[1] == FoodPrefs && ss[2] == FoodTaboos && ss[3] == MustNotVisit
    ensures Gathered(slots, ss[..4], Key.Avoid) == SlotItems(slots, FoodTaboos) + SlotItems(slots, MustNotVisit)
  {
    GatheredStep(slots, ss, 0, Key.Avoid, []);
    GatheredStep(slots, ss, 1, Key.Avoid, []);
    GatheredStep(slots, ss, 2, Key.Avoid, []);
    assert [] + SlotItems(slots, FoodTaboos) == SlotItems(slots, FoodTaboos);
    GatheredStep(slots, ss, 3, Key.Avoid, SlotItems(slots, FoodTaboos));
  }

  lemma {:induction false} NoSpecial(slots: Slots, n: nat)
    requires n <= |LISTED|
    ensures Key.SpecialRequests !in AddOf(slots, LISTED[..n])
  {
    if n > 0 {
      NoSpecial(slots, n - 1);
      assert LISTED[..n][..n - 1] == LISTED[..n - 1];
    }
  }

  lemma ListedIs()
    ensures |LISTED| == 4 && LISTED[0] == Slot.Interests && LISTED[1] == FoodPrefs
    ensures LISTED[2] == FoodTaboos && LISTED[3] == MustNotVisit && LISTED[..4] == LISTED
  {
  }

  lemma {:induction false} ListsOfAvoid(slots: Slots)
    ensures ItemsOf(Look(PatchOf(slots).add, Key.Avoid)) == ItemsOf(Look(AddOf(slots, LISTED), Key.Avoid))
  {
  }

  /** Both kinds of refusal end up in the field `avoid`, the taboos first. */
  lemma PatchRefusals(slots: Slots)
    ensures ItemsOf(Look(PatchOf(slots).add, Key.Avoid)) ==
      SlotItems(slots, FoodTaboos) + SlotItems(slots, MustNotVisit)
  {
    ListsOfAvoid(slots);
    ListedIs();
    AddOfIs(slots, LISTED, Key.Avoid);
    ListedRefusals(slots, LISTED);
  }

  /** The special requests of a message are its must-visit places with their mark. */
  lemma PatchRequests(slots: Slots)
    ensures ItemsOf(Look(PatchOf(slots).add, Key.SpecialRequests)) == Prefixed(SlotItems(slots, MustVisit))
  {
    assert LISTED[..|LISTED|] == LISTED;
    NoSpecial(slots, |LISTED|);
  }

  // ----- slot by slot and key by key -----

  /** What a slot gives: nothing if the message leaves it out or empty. */
  function Given(slots: Slots, s: Slot): (r: Option<Value>)
  {
    if s in slots && slots[s] != Nil && slots[s] != Str("") then Some(slots[s]) else None
  }

  /** A flag gives whatever stands in it but null. */
  function GivenFlag(slots: Slots, s: Slot): (r: Option<Value>)
  {
    if s in slots && slots[s] != Nil then Some(slots[s]) else None
  }

  lemma {:induction false} NoOtherKey(slots: Slots, ss: seq<Slot>, k: Key)
    requires forall i :: 0 <= i < |ss| ==> ProfileKey(ss[i]) != k
    ensures k !in SetOf(slots, ss) && k !in AddOf(slots, ss)
  {
    if ss != [] {
      NoOtherKey(slots, ss[..|ss| - 1], k);
    }
  }

  lemma SettableIs()
    ensures |SETTABLE| == 10
    ensures SETTABLE[0] == Slot.Origin && SETTABLE[1] == Slot.Destination && SETTABLE[2] == Slot.TravelDays
    ensures SETTABLE[3] == Slot.TravelDates && SETTABLE[4] == Slot.TravelersCount && SETTABLE[5] == TravelCompanion
    ensures SETTABLE[6] == TotalBudget && SETTABLE[7] == Slot.Pace
    ensures SETTABLE[8] == Slot.HasChildren && SETTABLE[9] == Slot.HasElderly
  {
  }

  /** A settable slot and the key it goes to. */
  lemma SetSlot(slots: Slots, s: Slot)
    requires s in SETTABLE && ProfileKey(s) != Key.Avoid
    ensures Look(PatchOf(slots).set_, ProfileKey(s)) == if IsFlag(s) then GivenFlag(slots, s) else Given(slots, s)
  {
    SetOfIs(slots, SETTABLE, s);
  }

  lemma NotAmong(ss: seq<Slot>, k: Key)
    requires IsList(k) || k.AccommodationPreference? || k.Unknown?
    requires |ss| == 10
    requires ss[0] == Slot.Origin && ss[1] == Slot.Destination && ss[2] == Slot.TravelDays
    requires ss[3] == Slot.TravelDates && ss[4] == Slot.TravelersCount && ss[5] == TravelCompanion
    requires ss[6] == TotalBudget && ss[7] == Slot.Pace && ss[8] == Slot.HasChildren && ss[9] == Slot.HasElderly
    ensures forall i :: 0 <= i < |ss| ==> ProfileKey(ss[i]) != k
  {
  }

  lemma NotSet(slots: Slots, k: Key)
    requires IsList(k) || k.AccommodationPreference? || k.Unknown?
    ensures Look(PatchOf(slots).set_, k) == None
  {
    SettableIs();
    NotAmong(SETTABLE, k);
    NoOtherKey(slots, SETTABLE, k);
  }

  /** Where each scalar field of the profile takes its value from; no slot sets any other. */
  lemma SetKeys(slots: Slots, k: Key)
    ensures Look(PatchOf(slots).set_, k) ==
      match k
      case Origin => Given(slots, Slot.Origin)
      case Destination => Given(slots, Slot.Destination)
      case TravelDays => Given(slots, Slot.TravelDays)
      case TravelDates => Given(slots, Slot.TravelDates)
      case TravelersCount => Given(slots, Slot.TravelersCount)
      case TravelersType => Given(slots, Slot.TravelCompanion)
      case BudgetRange => Given(slots, Slot.TotalBudget)
      case Pace => Given(slots, Slot.Pace)
      case HasChildren => GivenFlag(slots, Slot.HasChildren)
      case HasElderly => GivenFlag(slots, Slot.HasElderly)
      case _ => None
  {
    SettableIs();
    match k {
      case Origin => SetSlot(slots, Slot.Origin);
      case Destination => SetSlot(slots, Slot.Destination);
      case TravelDays => SetSlot(slots, Slot.TravelDays);
      case TravelDates => SetSlot(slots, Slot.TravelDates);
      case TravelersCount => SetSlot(slots, Slot.TravelersCount);
      case TravelersType => SetSlot(slots, Slot.TravelCompanion);
      case BudgetRange => SetSlot(slots, Slot.TotalBudget);
      case Pace => SetSlot(slots, Slot.Pace);
      case HasChildren => SetSlot(slots, Slot.HasChildren);
      case HasElderly => SetSlot(slots, Slot.HasElderly);
      case _ => NotSet(slots, k);
    }
  }

  lemma ExtendGives(d: Dict, own: Key, k: Key, before: seq<string>, items: seq<string>)
    requires Look(d, k) == if before == [] then None else Some(List(before))
    ensures var all := if own == k then before + items else before;
      Look(Extend(d, own, items), k) == if all == [] then None else Some(List(all))
  {
    assert before + [] == before && [] + items == items;
  }

  lemma {:induction false} ListsAreNotEmpty(slots: Slots, ss: seq<Slot>, k: Key)
    ensures Look(AddOf(slots, ss), k) ==
      if Gathered(slots, ss, k) == [] then None else Some(List(Gathered(slots, ss, k)))
  {
    if ss != [] {
      var init, s := ss[..|ss| - 1], ss[|ss| - 1];
      ListsAreNotEmpty(slots, init, k);
      ExtendGives(AddOf(slots, init), ProfileKey(s), k, Gathered(slots, init, k), SlotItems(slots, s));
    }
  }

  lemma {:induction false} ListedGives(slots: Slots, ss: seq<Slot>, k: Key)
    requires |ss| == 4 && ss[0] == Slot.Interests && ss[1] == FoodPrefs && ss[2] == FoodTaboos && ss[3] == MustNotVisit
    ensures Gathered(slots, ss[..4], k) ==
      match k
      case Interests => SlotItems(slots, Slot.Interests)
      case FoodPreferences => SlotItems(slots, Slot.FoodPrefs)
      case Avoid => SlotItems(slots, Slot.FoodTaboos) + SlotItems(slots, Slot.MustNotVisit)
      case _ => []
  {
    if k.Avoid? {
      ListedRefusals(slots, ss);
    } else {
      GatheredStep(slots, ss, 0, k, []);
      var one := Gathered(slots, ss[..1], k);
      GatheredStep(slots, ss, 1, k, one);
      var two := Gathered(slots, ss[..2], k);
      GatheredStep(slots, ss, 2, k, two);
      GatheredStep(slots, ss, 3, k, two);
    }
  }

  /** What a field takes from a list of slots: nothing from empty ones. */
  function Items(items: seq<string>): (r: Option<Value>)
  {
    if items == [] then None else Some(List(items))
  }

  /** Where each list field of the profile takes its additions from; no slot removes or clears. */
  lemma AddKeys(slots: Slots, k: Key)
    ensures PatchOf(slots).remove == map[] && PatchOf(slots).clear == []
    ensures Look(PatchOf(slots).add, k) ==
      match k
      case Interests => Items(SlotItems(slots, Slot.Interests))
      case FoodPreferences => Items(SlotItems(slots, Slot.FoodPrefs))
      case Avoid => Items(SlotItems(slots, Slot.FoodTaboos) + SlotItems(slots, Slot.MustNotVisit))
      case SpecialRequests => Items(Prefixed(SlotItems(slots, Slot.MustVisit)))
      case _ => None
  {
    ListedIs();
    ListedGives(slots, LISTED, k);
    ListsAreNotEmpty(slots, LISTED, k);
    var must := Prefixed(SlotItems(slots, Slot.MustVisit));
    if k.SpecialRequests? {
      NoSpecial(slots, 4);
      assert [] + must == must;
    }
  }

  /** The field is not there, or null, or empty. */
  predicate Blank(flat: Dict, k: Key)
  {
    k !in flat || flat[k] == Nil || flat[k] == Str("") || flat[k] == List([])
  }

  predicate NoFlag(flat: Dict, k: Key)
  {
    k !in flat || flat[k] == Nil
  }

  /** Which field of the profile decides that a slot is missing; for the two flags any answer,
      the empty string included, is one. */
  lemma {:induction false} MissingKeys(flat: Dict, s: Slot)
    ensures s in MissingOf(REQUIRED, flat) <==>
      match s
      case Origin => Blank(flat, Key.Origin)
      case Destination => Blank(flat, Key.Destination)
      case TravelDates => Blank(flat, Key.TravelDates)
      case TravelDays => Blank(flat, Key.TravelDays)
      case TravelersCount => Blank(flat, Key.TravelersCount)
      case HasElderly => NoFlag(flat, Key.HasElderly)
      case HasChildren => NoFlag(flat, Key.HasChildren)
      case TotalBudget => Blank(flat, Key.BudgetRange)
      case _ => false
  {
    MissingIs(REQUIRED, flat, s);
    RequiredIs(s);
  }

  /** The order in which the user is asked. */
  function AskedAt(s: Slot): (n: nat)
  {
    match s
    case Origin => 0
    case Destination => 1
    case TravelDates => 2
    case TravelDays => 3
    case TravelersCount => 4
    case HasElderly => 5
    case HasChildren => 6
    case _ => 7
  }

  lemma {:induction false} FilterKeepsOrder(slots: seq<Slot>, flat: Dict)
    requires forall i, j :: 0 <= i < j < |slots| ==> AskedAt(slots[i]) < AskedAt(slots[j])
    ensures var m := MissingOf(slots, flat);
      forall i, j :: 0 <= i < j < |m| ==> AskedAt(m[i]) < AskedAt(m[j])
  {
    if slots != [] {
      var init, last := slots[..|slots| - 1], slots[|slots| - 1];
      var before := MissingOf(init, flat);
      FilterKeepsOrder(init, flat);
      forall i | 0 <= i < |before| ensures AskedAt(before[i]) < AskedAt(last) {
        MissingIs(init, flat, before[i]);
        var k :| 0 <= k < |init| && init[k] == before[i];
        assert slots[k] == before[i];
      }
    }
  }

  lemma RequiredInOrder()
    ensures forall i, j :: 0 <= i < j < |REQUIRED| ==> AskedAt(REQUIRED[i]) < AskedAt(REQUIRED[j])
  {
    assert forall i :: 0 <= i < 8 ==> AskedAt(REQUIRED[i]) == i;
  }

  /** The missing slots come in the order of the questions, each once. */
  lemma {:induction false} MissingInOrder(flat: Dict)
    ensures var m := MissingOf(REQUIRED, flat);
      forall i, j :: 0 <= i < j < |m| ==> AskedAt(m[i]) < AskedAt(m[j])
  {
    RequiredInOrder();
    FilterKeepsOrder(REQUIRED, flat);
  }

  // ----- turns -----

  function OrNone(d: Option<Dict>): (r: Dict)
  {
    if d.Some? then d.value else map[]
  }

  /** flatten_profile: trip over personal; a profile with neither is taken as it is. */
  function Flatten(p: Profile): (r: Dict)
  {
    if p.personal.None? && p.trip.None? then p.flat else OrNone(p.personal) + OrNone(p.trip)
  }

  /** _trace_profile_merge. */
  function Turn(p: Profile, slots: Slots): (r: Profile)
  {
    Merge(p, PatchOf(slots))
  }

  predicate ScalarsTyped(slots: Slots)
  {
    forall s :: s in slots && Required(s) ==> !slots[s].List?
  }

  /** The dict that decides what is missing: a profile with personal but no trip dict loses
      sight of its personal dict in the first merge. */
  function Base(p: Profile): (r: Dict)
  {
    if p.personal.Some? && p.trip.None? then p.flat else Flatten(p)
  }

  /** What a field of the trip dict shows through the flattened profile. */
  function Shown(p: Profile, k: Key): (r: Option<Value>)
    requires p.personal.Some? && p.trip.Some?
  {
    if k in p.trip.value then Some(p.trip.value[k]) else Look(p.personal.value, k)
  }

  lemma MigratedShows(p: Profile, k: Key)
    requires IsScalar(k) && !IsPersonal(k)
    ensures Get(Base(p), k) == if Shown(Migrate(p), k).Some? then Shown(Migrate(p), k).value else Nil
  {
    TripFromFlat(p.flat, k);
    PersonalFromFlat(p.flat, k);
  }

  lemma TripFromFlat(f: Dict, k: Key)
    requires IsScalar(k) && !IsPersonal(k)
    ensures Look(TripFrom(f), k) == Some(Get(f, k))
  {
  }

  lemma PersonalFromFlat(f: Dict, k: Key)
    requires !IsPersonal(k)
    ensures k !in PersonalFrom(f)
  {
  }

  lemma MergedShows(p: Profile, patch: Patch, k: Key)
    requires !IsPersonal(k)
    ensures var m := Migrate(p);
      var v := After(patch, k, Look(m.trip.value, k));
      Look(Flatten(Merge(p, patch)), k) == if v.Some? then v else Look(m.personal.value, k)
  {
    var m := Migrate(p);
    PatchedIs(m.personal.value, patch, true, k);
    PatchedIs(m.trip.value, patch, false, k);
    FlattenIs(Merge(p, patch), k);
  }

  lemma FlattenIs(p: Profile, k: Key)
    requires p.personal.Some? && p.trip.Some?
    ensures Look(Flatten(p), k) == Shown(p, k)
  {
  }

  /** A required slot is missing after a turn exactly if the base of the profile lacks it and the
      message does not fill it; the base is the flattened profile unless only the personal dict
      is there. */
  lemma TurnMissing(p: Profile, slots: Slots, s: Slot)
    requires Required(s) && ScalarsTyped(slots)
    ensures IsMissing(Flatten(Turn(p, slots)), s) <==> IsMissing(Base(p), s) && !Fills(slots, s)
    ensures Turn(p, slots).trip.Some?
  {
    var k := ProfileKey(s);
    MigratedShows(p, k);
    MergedShows(p, PatchOf(slots), k);
    PatchFills(slots, s, Look(Migrate(p).trip.value, k));
  }

  function Turns(p: Profile, messages: seq<Slots>): (r: Profile)
  {
    if messages == [] then p else Turn(Turns(p, messages[..|messages| - 1]), messages[|messages| - 1])
  }

  /** No message fills the slot. */
  predicate Unfilled(messages: seq<Slots>, s: Slot)
  {
    forall i :: 0 <= i < |messages| ==> !Fills(messages[i], s)
  }

  lemma UnfilledStep(messages: seq<Slots>, s: Slot)
    requires messages != []
    ensures Unfilled(messages, s) <==>
      Unfilled(messages[..|messages| - 1], s) && !Fills(messages[|messages| - 1], s)
  {
  }

  predicate AllScalarsTyped(messages: seq<Slots>)
  {
    forall i :: 0 <= i < |messages| ==> ScalarsTyped(messages[i])
  }

  /** After any number of turns, on any profile, the required slots still missing are those
      that its base lacked and that no message has filled. */
  lemma {:induction false} TurnsMissing(p: Profile, messages: seq<Slots>, s: Slot)
    requires Required(s) && AllScalarsTyped(messages) && messages != []
    ensures Turns(p, messages).trip.Some?
    ensures IsMissing(Flatten(Turns(p, messages)), s) <==> IsMissing(Base(p), s) && Unfilled(messages, s)
    decreases |messages|
  {
    var n := |messages| - 1;
    UnfilledStep(messages, s);
    TurnMissing(Turns(p, messages[..n]), messages[n], s);
    if n > 0 {
      TurnsMissing(p, messages[..n], s);
    }
  }

  /** ... which for a profile with a trip dict, or with neither, are those missing at first. */
  lemma {:induction false} WellFormedTurnsMissing(p: Profile, messages: seq<Slots>, s: Slot)
    requires Required(s) && AllScalarsTyped(messages) && (p.trip.Some? || p.personal.None?)
    ensures IsMissing(Flatten(Turns(p, messages)), s) <==> IsMissing(Flatten(p), s) && Unfilled(messages, s)
  {
    if messages != [] {
      TurnsMissing(p, messages, s);
    }
  }

  predicate Complete(p: Profile)
  {
    MissingOf(REQUIRED, Flatten(p)) == []
  }

  lemma CompleteIff(p: Profile)
    ensures Complete(p) <==> forall s :: Required(s) ==> !IsMissing(Flatten(p), s)
  {
    forall s ensures s in MissingOf(REQUIRED, Flatten(p)) <==> s in REQUIRED && IsMissing(Flatten(p), s) {
      MissingIs(REQUIRED, Flatten(p), s);
      RequiredIs(s);
    }
    if !Complete(p) {
      assert MissingOf(REQUIRED, Flatten(p))[0] in MissingOf(REQUIRED, Flatten(p));
    }
  }

  /** The gathering is over exactly when every required slot that the base lacks has been filled
      by some message. */
  lemma {:induction false} CompleteWhenFilled(p: Profile, messages: seq<Slots>)
    requires AllScalarsTyped(messages) && messages != []
    ensures Complete(Turns(p, messages)) <==>
      forall s :: Required(s) && IsMissing(Base(p), s) ==> !Unfilled(messages, s)
  {
    CompleteIff(Turns(p, messages));
    forall s | Required(s)
      ensures IsMissing(Flatten(Turns(p, messages)), s) <==> IsMissing(Base(p), s) && Unfilled(messages, s)
    {
      TurnsMissing(p, messages, s);
    }
  }

  /** Once over it stays over, whatever is said after. */
  lemma {:induction false} CompleteStays(p: Profile, messages: seq<Slots>, more: seq<Slots>)
    requires AllScalarsTyped(messages + more) && messages != [] && Complete(Turns(p, messages))
    ensures Complete(Turns(p, messages + more))
  {
    assert forall i :: 0 <= i < |messages| ==> (messages + more)[i] == messages[i];
    CompleteWhenFilled(p, messages);
    CompleteWhenFilled(p, messages + more);
    forall s | Required(s) && IsMissing(Base(p), s) ensures !Unfilled(messages + more, s) {
      var i :| 0 <= i < |messages| && Fills(messages[i], s);
      assert Fills((messages + more)[i], s);
    }
  }

  /** No message makes a slot missing that was not. */
  ghost predicate NeverGrows(p: Profile)
  {
    forall slots: Slots, s :: Required(s) && ScalarsTyped(slots) && IsMissing(Flatten(Turn(p, slots)), s) ==>
      IsMissing(Flatten(p), s)
  }

  /** The profile has its trip dict, or neither dict; otherwise all that its personal dict fills
      is filled at the top level too. */
  predicate Keeps(p: Profile)
  {
    p.trip.Some? || p.personal.None? ||
    forall s :: Required(s) && !IsMissing(p.personal.value, s) ==> !IsMissing(p.flat, s)
  }

  /** What is missing never grows exactly when the first merge loses sight of nothing. */
  lemma NeverGrowsIff(p: Profile)
    ensures NeverGrows(p) <==> Keeps(p)
  {
    if p.trip.None? && p.personal.Some? {
      assert Flatten(p) == p.personal.value;
    }
    if Keeps(p) {
      forall slots: Slots, s | Required(s) && ScalarsTyped(slots) && IsMissing(Flatten(Turn(p, slots)), s)
        ensures IsMissing(Flatten(p), s)
      {
        TurnMissing(p, slots, s);
      }
    } else {
      var s :| Required(s) && !IsMissing(p.personal.value, s) && IsMissing(p.flat, s);
      TurnMissing(p, map[], s);
    }
  }

  // ----- requirements and feedback -----

  function DefaultProfile(): (r: Profile)
  {
    Profile(
      Some(map[Key.FoodPreferences := List([]), Key.Interests := List([]), Key.Pace := Str("moderate"),
        Key.Avoid := List([]), Key.AccommodationPreference := Nil]),
      Some(map[Key.Origin := Nil, Key.Destination := Nil, Key.TravelDays := Nil, Key.TravelDates := Nil,
        Key.TravelersCount := Nil, Key.TravelersType := Nil, Key.HasElderly := Nil, Key.HasChildren := Nil,
        Key.BudgetRange := Nil, Key.SpecialRequests := List([])]),
      map[])
  }

  function NotNull(d: Dict): (r: Dict)
  {
    map k | k in d && d[k] != Nil :: d[k]
  }

  /** The profile that feedback_from_input_requirements makes. */
  function FeedbackOf(requirements: Dict): (r: Profile)
  {
    if NotNull(requirements) == map[] then DefaultProfile()
    else Merge(DefaultProfile(), Patch(NotNull(requirements), map[], map[], []))
  }

  /** input_requirements_from_feedback. */
  function RequirementsOf(p: Profile): (r: Dict)
  {
    map k | k in Flatten(p) && Flatten(p)[k] != Nil && Flatten(p)[k] != List([]) :: Flatten(p)[k]
  }

  /** The requirement can be kept: a known key, a value that says something, a list where a
      list belongs. */
  predicate Keepable(k: Key, v: Value)
  {
    !k.Unknown? && v != Nil && v != List([]) && (IsList(k) ==> v.List?)
  }

  function Default(k: Key): (r: Option<Value>)
  {
    if k.Unknown? then None
    else if IsList(k) then Some(List([]))
    else if k.Pace? then Some(Str("moderate"))
    else Some(Nil)
  }

  lemma DefaultIs(k: Key)
    ensures Field(DefaultProfile(), k) == Default(k) && Stray(DefaultProfile(), k) == None
  {
  }

  predicate Taken(requirements: Dict, k: Key)
  {
    k in requirements && requirements[k] != Nil && (IsScalar(k) || (IsList(k) && requirements[k].List?))
  }

  lemma SetAfter(patch: Patch, k: Key, v: Option<Value>)
    requires patch.add == map[] && patch.remove == map[] && patch.clear == []
    ensures After(patch, k, v) == SetStep(patch, k, v)
  {
  }

  lemma SetLook(requirements: Dict, k: Key)
    ensures SetStep(Patch(NotNull(requirements), map[], map[], []), k, Default(k)) ==
      if Taken(requirements, k) then Some(requirements[k]) else Default(k)
    ensures NotNull(requirements) == map[] ==> !Taken(requirements, k)
  {
    assert k in NotNull(requirements) <==> k in requirements && requirements[k] != Nil;
  }

  lemma FeedbackLook(requirements: Dict, k: Key)
    ensures Look(Flatten(FeedbackOf(requirements)), k) ==
      if Taken(requirements, k) then Some(requirements[k]) else Default(k)
  {
    var patch := Patch(NotNull(requirements), map[], map[], []);
    DefaultIs(k);
    SetLook(requirements, k);
    FlattenIs(FeedbackOf(requirements), k);
    if NotNull(requirements) != map[] {
      PatchedIs(DefaultProfile().personal.value, patch, true, k);
      PatchedIs(DefaultProfile().trip.value, patch, false, k);
      SetAfter(patch, k, Default(k));
    }
  }

  /** What comes back of a requirement. */
  lemma BackLook(requirements: Dict, k: Key)
    ensures Look(RequirementsOf(FeedbackOf(requirements)), k) ==
      if Taken(requirements, k) && requirements[k] != List([]) then Some(requirements[k])
      else if k.Pace? && !Taken(requirements, k) then Some(Str("moderate")) else None
  {
    FeedbackLook(requirements, k);
  }

  /** The requirements with the default pace where they give none. */
  function WithPace(requirements: Dict): (r: Dict)
  {
    if Key.Pace in requirements then requirements else requirements[Key.Pace := Str("moderate")]
  }

  /** Requirements survive the way into a conversation state and back, but for the default pace,
      exactly when every one of them can be kept. */
  lemma RoundTripIff(requirements: Dict)
    ensures RequirementsOf(FeedbackOf(requirements)) == WithPace(requirements)
      <==> forall k :: k in requirements ==> Keepable(k, requirements[k])
  {
    if forall k :: k in requirements ==> Keepable(k, requirements[k]) {
      AllComesBack(requirements);
    } else {
      var k :| k in requirements && !Keepable(k, requirements[k]);
      BackLook(requirements, k);
      assert Look(WithPace(requirements), k) == Some(requirements[k]);
    }
  }

  lemma AllComesBack(requirements: Dict)
    requires forall k :: k in requirements ==> Keepable(k, requirements[k])
    ensures RequirementsOf(FeedbackOf(requirements)) == WithPace(requirements)
  {
    var back := RequirementsOf(FeedbackOf(requirements));
    forall k ensures Look(back, k) == Look(WithPace(requirements), k) {
      BackLook(requirements, k);
      assert k in requirements ==> Keepable(k, requirements[k]);
    }
    SameDict(back, WithPace(requirements));
  }
}
