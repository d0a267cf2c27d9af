/** The profile of core/conversation_state.py: a dict of personal preferences, a dict of facts
    about the trip, and the patches that are merged into them. */
module Profiles {
  import opened Prelude

  /** The keys the code knows, and any other. */
  datatype Key =
    | Origin | Destination | TravelDays | TravelDates | TravelersCount | TravelersType
    | HasElderly | HasChildren | Pace | BudgetRange | AccommodationPreference
    | Interests | FoodPreferences | Avoid | SpecialRequests
    | Unknown(name: string)

  datatype Value = Nil | Str(s: string) | Int(n: int) | Bool(b: bool) | List(items: seq<string>)

  type Dict = map<Key, Value>

  predicate IsList(k: Key)
  {
    k.Interests? || k.FoodPreferences? || k.Avoid? || k.SpecialRequests?
  }

  predicate IsScalar(k: Key)
  {
    !k.Unknown? && !IsList(k)
  }

  predicate IsPersonal(k: Key)
  {
    k.FoodPreferences? || k.Interests? || k.Pace? || k.Avoid? || k.AccommodationPreference?
  }

  function Get(d: Dict, k: Key): (r: Value)
  {
    if k in d then d[k] else Nil
  }

  // ----- stripping and deduplicating -----

  /** What str.strip() takes off. */
  predicate IsSpace(c: char)
  {
    var n := c as int;
    0x09 <= n <= 0x0D || 0x1C <= n <= 0x20 || n == 0x85 || n == 0xA0 || n == 0x1680 ||
    0x2000 <= n <= 0x200A || n == 0x2028 || n == 0x2029 || n == 0x202F || n == 0x205F || n == 0x3000
  }

  function StripRight(s: string): (r: string)
    ensures r == "" || !IsSpace(r[|r| - 1])
    ensures s != "" && !IsSpace(s[|s| - 1]) ==> r == s
    ensures r != "" ==> s != "" && r[0] == s[0]
  {
    if s != "" && IsSpace(s[|s| - 1]) then StripRight(s[..|s| - 1]) else s
  }

  function StripLeft(s: string): (r: string)
    ensures r == "" || !IsSpace(r[0])
  {
    if s != "" && IsSpace(s[0]) then StripLeft(s[1..]) else s
  }

  function Strip(s: string): (r: string)
  {
    StripRight(StripLeft(s))
  }

  predicate AllSpace(s: string)
  {
    forall i :: 0 <= i < |s| ==> IsSpace(s[i])
  }

  /** The characters that Python's str.isspace() knows. */
  lemma SpaceIs(c: char)
    ensures IsSpace(c) <==> c as int in {
      0x09, 0x0A, 0x0B, 0x0C, 0x0D, 0x1C, 0x1D, 0x1E, 0x1F, 0x20, 0x85, 0xA0, 0x1680,
      0x2000, 0x2001, 0x2002, 0x2003, 0x2004, 0x2005, 0x2006, 0x2007, 0x2008, 0x2009, 0x200A,
      0x2028, 0x2029, 0x202F, 0x205F, 0x3000}
  {
  }

  lemma {:induction false} StripRightSplits(s: string) returns (tail: string)
    ensures s == StripRight(s) + tail && AllSpace(tail)
  {
    tail := "";
    if s != "" && IsSpace(s[|s| - 1]) {
      var n := |s| - 1;
      var rest := StripRightSplits(s[..n]);
      tail := rest + [s[n]];
      assert s == s[..n] + [s[n]];
    }
  }

  lemma {:induction false} StripLeftSplits(s: string) returns (head: string)
    ensures s == head + StripLeft(s) && AllSpace(head)
  {
    head := "";
    if s != "" && IsSpace(s[0]) {
      var rest := StripLeftSplits(s[1..]);
      head := [s[0]] + rest;
      assert s == [s[0]] + s[1..];
    }
  }

  /** What is taken off is blank, and what is left has no blank at either end. */
  lemma StripSplits(s: string) returns (head: string, tail: string)
    ensures s == head + Strip(s) + tail && AllSpace(head) && AllSpace(tail)
    ensures Strip(s) != "" ==> !IsSpace(Strip(s)[0]) && !IsSpace(Strip(s)[|Strip(s)| - 1])
  {
    head := StripLeftSplits(s);
    tail := StripRightSplits(StripLeft(s));
  }

  lemma StripTwice(s: string)
    ensures Strip(Strip(s)) == Strip(s)
  {
  }

  /** _dedupe_keep_order as a function: stripped, no empty strings, first occurrences. */
  function Dedupe(items: seq<string>): (r: seq<string>)
  {
    if items == [] then []
    else
      var before, norm := Dedupe(items[..|items| - 1]), Strip(items[|items| - 1]);
      if norm != "" && norm !in before then before + [norm] else before
  }

  predicate Clean(items: seq<string>)
  {
    && (forall i :: 0 <= i < |items| ==> items[i] != "" && Strip(items[i]) == items[i])
    && (forall i, j :: 0 <= i < j < |items| ==> items[i] != items[j])
  }

  lemma {:induction false} DedupeIsClean(items: seq<string>)
    ensures Clean(Dedupe(items))
  {
    if items != [] {
      DedupeIsClean(items[..|items| - 1]);
      StripTwice(items[|items| - 1]);
    }
  }

  /** The first place at which x occurs once stripped. */
  function FirstAt(items: seq<string>, x: string): (i: nat)
    ensures i <= |items|
    ensures i < |items| ==> Strip(items[i]) == x
    ensures forall k :: 0 <= k < i ==> Strip(items[k]) != x
  {
    if items == [] then 0
    else
      var i := FirstAt(items[..|items| - 1], x);
      if i < |items| - 1 || Strip(items[|items| - 1]) == x then i else |items|
  }

  /** Exactly the non-empty stripped items come out, each once, in the order of first occurrence. */
  lemma {:induction false} DedupeIsFirstOccurrences(items: seq<string>)
    ensures forall x :: x in Dedupe(items) <==> x != "" && FirstAt(items, x) < |items|
    ensures forall i, j :: 0 <= i < j < |Dedupe(items)| ==>
      FirstAt(items, Dedupe(items)[i]) < FirstAt(items, Dedupe(items)[j])
  {
    if items != [] {
      DedupeIsFirstOccurrences(items[..|items| - 1]);
    }
  }

  method DedupeKeepOrder(items: seq<string>) returns (result: seq<string>)
    ensures result == Dedupe(items)
  {
    var seen: set<string> := {};
    result := [];
    for i := 0 to |items|
      invariant result == Dedupe(items[..i])
      invariant forall x :: x in seen <==> x in result
    {
      assert items[..i + 1][..i] == items[..i];
      var norm := Strip(items[i]);
      if norm != "" && norm !in seen {
        result := result + [norm];
        seen := seen + {norm};
      }
    }
    assert items[..|items|] == items;
  }

  /** The items that are not in the set. */
  function Except(items: seq<string>, removed: set<string>): (r: seq<string>)
  {
    if items == [] then []
    else
      var before, x := Except(items[..|items| - 1], removed), items[|items| - 1];
      if x in removed then before else before + [x]
  }

  lemma {:induction false} ExceptIs(items: seq<string>, removed: set<string>, x: string)
    ensures x in Except(items, removed) <==> x in items && x !in removed
  {
    if items != [] {
      ExceptIs(items[..|items| - 1], removed, x);
    }
  }

  lemma {:induction false} ExceptIsClean(items: seq<string>, removed: set<string>)
    requires Clean(items)
    ensures Clean(Except(items, removed))
  {
    if items != [] {
      ExceptIsClean(items[..|items| - 1], removed);
      ExceptIs(items[..|items| - 1], removed, items[|items| - 1]);
    }
  }

  lemma {:induction false} ExceptNothing(items: seq<string>, removed: set<string>)
    requires forall x :: x in items ==> x !in removed
    ensures Except(items, removed) == items
  {
    if items != [] {
      ExceptNothing(items[..|items| - 1], removed);
    }
  }

  lemma {:induction false} DedupeCleanIsSame(items: seq<string>)
    requires Clean(items)
    ensures Dedupe(items) == items
  {
    if items != [] {
      DedupeCleanIsSame(items[..|items| - 1]);
    }
  }

  /** Adding again what is there, or what is taken out again, changes nothing. */
  lemma {:induction false} AddAgain(items: seq<string>, values: seq<string>, removed: set<string>)
    requires Clean(items) && forall x :: x in items ==> x !in removed
    requires forall v :: v in values ==> Strip(v) == "" || Strip(v) in items || Strip(v) in removed
    ensures Except(Dedupe(items + values), removed) == items
  {
    if values == [] {
      assert items + values == items;
      DedupeCleanIsSame(items);
      ExceptNothing(items, removed);
    } else {
      var init, last := values[..|values| - 1], values[|values| - 1];
      assert (items + values)[..|items + values| - 1] == items + init;
      AddAgain(items, init, removed);
      ExceptIs(Dedupe(items + init), removed, Strip(last));
    }
  }

  // ----- merging -----

  datatype Patch = Patch(set_: Dict, add: Dict, remove: Dict, clear: seq<Key>)

  /** A profile dict: its "personal" and "trip" entries if it has them, and its other keys. */
  datatype Profile = Profile(personal: Option<Dict>, trip: Option<Dict>, flat: Dict)

  function ItemsOf(v: Option<Value>): (r: seq<string>)
  {
    if v.Some? && v.value.List? then v.value.items else []
  }

  function Chars(s: string): (r: seq<string>)
  {
    seq(|s|, i requires 0 <= i < |s| => [s[i]])
  }

  /** What a loop over the field's value runs through; None where Python raises. */
  function Iterable(v: Option<Value>): (r: Option<seq<string>>)
  {
    if v.None? then Some([])
    else
      match v.value
      case List(items) => Some(items)
      case Str(s) => Some(Chars(s))
      case _ => None
  }

  function ItemsIn(v: Option<Value>): (r: seq<string>)
  {
    if Iterable(v).Some? then Iterable(v).value else []
  }

  function Look(d: Dict, k: Key): (r: Option<Value>)
  {
    if k in d then Some(d[k]) else None
  }

  function StripAll(values: seq<string>): (r: set<string>)
  {
    set v | v in values :: Strip(v)
  }

  function SetStep(patch: Patch, k: Key, v: Option<Value>): (r: Option<Value>)
  {
    if k in patch.set_ && ((IsScalar(k) && patch.set_[k] != Nil) || (IsList(k) && patch.set_[k].List?))
    then Some(patch.set_[k]) else v
  }

  predicate Adds(patch: Patch, k: Key)
  {
    IsList(k) && k in patch.add && patch.add[k].List?
  }

  predicate Removes(patch: Patch, k: Key)
  {
    IsList(k) && k in patch.remove && patch.remove[k].List?
  }

  function AddStep(patch: Patch, k: Key, v: Option<Value>): (r: Option<Value>)
  {
    if Adds(patch, k)
    then Some(List(Dedupe(ItemsOf(v) + patch.add[k].items))) else v
  }

  function RemoveStep(patch: Patch, k: Key, v: Option<Value>): (r: Option<Value>)
  {
    if Removes(patch, k)
    then Some(List(Except(ItemsIn(v), StripAll(patch.remove[k].items)))) else v
  }

  function ClearStep(patch: Patch, k: Key, v: Option<Value>): (r: Option<Value>)
  {
    if k in patch.clear && !k.Unknown? then Some(if IsList(k) then List([]) else Nil) else v
  }

  /** What a patch makes of one field of the dict that the field belongs to. */
  function After(patch: Patch, k: Key, v: Option<Value>): (r: Option<Value>)
  {
    ClearStep(patch, k, RemoveStep(patch, k, AddStep(patch, k, SetStep(patch, k, v))))
  }

  /** The statement `existing + values` raises on anything but a list. */
  predicate AddRaises(patch: Patch, k: Key, v: Option<Value>)
  {
    Adds(patch, k) && v.Some? && !v.value.List?
  }

  predicate RemoveRaises(patch: Patch, k: Key, v: Option<Value>)
  {
    Removes(patch, k) && Iterable(v).None?
  }

  predicate FieldRaises(patch: Patch, k: Key, v: Option<Value>)
  {
    AddRaises(patch, k, SetStep(patch, k, v)) || RemoveRaises(patch, k, AddStep(patch, k, SetStep(patch, k, v)))
  }

  function Touched(patch: Patch): (r: set<Key>)
  {
    patch.set_.Keys + patch.add.Keys + patch.remove.Keys + set k | k in patch.clear
  }

  function NewField(d: Dict, patch: Patch, personal: bool, k: Key): (r: Option<Value>)
  {
    if IsPersonal(k) == personal then After(patch, k, Look(d, k)) else Look(d, k)
  }

  /** The fields of one dict after the patch: those that belong to it change, the others stay. */
  function Patched(d: Dict, patch: Patch, personal: bool): (r: Dict)
  {
    map k | k in d.Keys + Touched(patch) && NewField(d, patch, personal, k).Some?
      :: NewField(d, patch, personal, k).value
  }

  lemma PatchedIs(d: Dict, patch: Patch, personal: bool, k: Key)
    ensures Look(Patched(d, patch, personal), k) ==
      if IsPersonal(k) == personal then After(patch, k, Look(d, k)) else Look(d, k)
  {
  }

  /** What `or` passes over. */
  predicate Falsy(v: Value)
  {
    match v
    case Nil => true
    case Str(s) => s == ""
    case Int(n) => n == 0
    case Bool(b) => !b
    case List(items) => items == []
  }

  /** The five values that are false in Python. */
  lemma FalsyIs(v: Value)
    ensures Falsy(v) <==> v in {Nil, Str(""), Int(0), Bool(false), List([])}
  {
  }

  function OrEmpty(v: Value): (r: Value)
  {
    if Falsy(v) then List([]) else v
  }

  function PersonalFrom(f: Dict): (r: Dict)
  {
    map[
      FoodPreferences := OrEmpty(Get(f, FoodPreferences)),
      Interests := OrEmpty(Get(f, Interests)),
      Pace := if Falsy(Get(f, Pace)) then Str("moderate") else Get(f, Pace),
      Avoid := OrEmpty(Get(f, Avoid)),
      AccommodationPreference := Get(f, AccommodationPreference)]
  }

  function TripFrom(f: Dict): (r: Dict)
  {
    map[
      Origin := Get(f, Origin),
      Destination := Get(f, Destination),
      TravelDays := Get(f, TravelDays),
      TravelDates := Get(f, TravelDates),
      TravelersCount := Get(f, TravelersCount),
      TravelersType := Get(f, TravelersType),
      HasElderly := Get(f, HasElderly),
      HasChildren := Get(f, HasChildren),
      BudgetRange := Get(f, BudgetRange),
      SpecialRequests := OrEmpty(Get(f, SpecialRequests))]
  }

  /** The two dicts, taken from the other keys of an older profile where they are missing. */
  function Migrate(p: Profile): (r: Profile)
  {
    p.(personal := if p.personal.Some? then p.personal else Some(PersonalFrom(p.flat)),
       trip := if p.trip.Some? then p.trip else Some(TripFrom(p.flat)))
  }

  /** merge_profile as a function. */
  function Merge(p: Profile, patch: Patch): (r: Profile)
  {
    var m := Migrate(p);
    m.(personal := Some(Patched(m.personal.value, patch, true)), trip := Some(Patched(m.trip.value, patch, false)))
  }

  /** The field in the dict that it belongs to. */
  function Field(p: Profile, k: Key): (r: Option<Value>)
    requires p.personal.Some? && p.trip.Some?
  {
    Look(if IsPersonal(k) then p.personal.value else p.trip.value, k)
  }

  /** The field in the other dict. */
  function Stray(p: Profile, k: Key): (r: Option<Value>)
    requires p.personal.Some? && p.trip.Some?
  {
    Look(if IsPersonal(k) then p.trip.value else p.personal.value, k)
  }

  /** merge_profile raises: an addition or a removal meets something that is not a list. */
  ghost predicate Raises(p: Profile, patch: Patch)
  {
    exists k :: FieldRaises(patch, k, Field(Migrate(p), k))
  }

  /** List fields hold lists; in a profile that is still flat they may also be null. */
  predicate ListsTyped(d: Dict, nullable: bool)
  {
    forall k :: k in d && IsList(k) ==> d[k].List? || (nullable && d[k] == Nil)
  }

  predicate Typed(p: Profile)
  {
    && (p.personal.Some? ==> ListsTyped(p.personal.value, false))
    && (p.trip.Some? ==> ListsTyped(p.trip.value, false))
    && (p.personal.None? || p.trip.None? ==> ListsTyped(p.flat, true))
  }

  lemma SameDict(a: Dict, b: Dict)
    requires forall k :: Look(a, k) == Look(b, k)
    ensures a == b
  {
    forall k ensures (k in a <==> k in b) && (k in a ==> a[k] == b[k]) {
      assert Look(a, k) == Look(b, k);
    }
  }

  // ----- what becomes of a field -----

  /** A scalar field is null if the patch clears it, the new value if the patch sets one, and
      otherwise what it was; it can be neither added to nor removed from. */
  lemma ScalarOutcome(patch: Patch, k: Key, v: Option<Value>)
    requires k !in {Interests, FoodPreferences, Avoid, SpecialRequests} && !k.Unknown?
    ensures After(patch, k, v) ==
      if k in patch.clear then Some(Nil)
      else if k in patch.set_ && patch.set_[k] != Nil then Some(patch.set_[k])
      else v
  {
  }

  /** The list that a patch gives to the field, if it gives one. */
  function ListFor(d: Dict, k: Key): (r: Option<seq<string>>)
  {
    if k in d && d[k].List? then Some(d[k].items) else None
  }

  predicate HasStripped(items: seq<string>, x: string)
  {
    exists i :: 0 <= i < |items| && Strip(items[i]) == x
  }

  lemma {:induction false} DedupeIs(items: seq<string>, x: string)
    ensures x in Dedupe(items) <==> x != "" && HasStripped(items, x)
  {
    DedupeIsFirstOccurrences(items);
  }

  /** The items before anything is removed. */
  lemma ListAdded(patch: Patch, k: Key, v: Option<Value>, x: string)
    requires k in {Interests, FoodPreferences, Avoid, SpecialRequests} && v.Some? && v.value.List?
    ensures AddStep(patch, k, SetStep(patch, k, v)).Some? && AddStep(patch, k, SetStep(patch, k, v)).value.List?
    ensures var base := if ListFor(patch.set_, k).Some? then ListFor(patch.set_, k).value else v.value.items;
      x in AddStep(patch, k, SetStep(patch, k, v)).value.items <==>
        if ListFor(patch.add, k).Some? then x != "" && HasStripped(base + ListFor(patch.add, k).value, x) else x in base
  {
    var base := if ListFor(patch.set_, k).Some? then ListFor(patch.set_, k).value else v.value.items;
    assert SetStep(patch, k, v) == Some(List(base));
    if ListFor(patch.add, k).Some? {
      DedupeIs(base + ListFor(patch.add, k).value, x);
    }
  }

  lemma ListRemoved(patch: Patch, k: Key, items: seq<string>, x: string)
    requires k in {Interests, FoodPreferences, Avoid, SpecialRequests}
    ensures RemoveStep(patch, k, Some(List(items))).Some? && RemoveStep(patch, k, Some(List(items))).value.List?
    ensures x in RemoveStep(patch, k, Some(List(items))).value.items <==>
      x in items && !(ListFor(patch.remove, k).Some? && HasStripped(ListFor(patch.remove, k).value, x))
  {
    if ListFor(patch.remove, k).Some? {
      var out := ListFor(patch.remove, k).value;
      ExceptIs(items, StripAll(out), x);
      assert x in StripAll(out) <==> HasStripped(out, x);
    }
  }

  /** A list field is empty if the patch clears it.  Otherwise it holds what it is set to or held,
      with the additions, but for what is removed; stripped if anything was added. */
  lemma ListOutcome(patch: Patch, k: Key, v: Option<Value>, x: string)
    requires k in {Interests, FoodPreferences, Avoid, SpecialRequests} && v.Some? && v.value.List?
    ensures After(patch, k, v).Some? && After(patch, k, v).value.List?
    ensures var base := if ListFor(patch.set_, k).Some? then ListFor(patch.set_, k).value else v.value.items;
      x in After(patch, k, v).value.items <==>
        && k !in patch.clear
        && !(ListFor(patch.remove, k).Some? && HasStripped(ListFor(patch.remove, k).value, x))
        && if ListFor(patch.add, k).Some? then x != "" && HasStripped(base + ListFor(patch.add, k).value, x)
           else x in base
  {
    ListAdded(patch, k, v, x);
    ListRemoved(patch, k, AddStep(patch, k, SetStep(patch, k, v)).value.items, x);
  }

  /** Where a field lives: five in the dict of personal preferences, all others in the trip's. */
  lemma Homes(p: Profile, patch: Patch, k: Key)
    ensures var m, r := Migrate(p), Merge(p, patch);
      if k in {FoodPreferences, Interests, Pace, Avoid, AccommodationPreference}
      then Look(r.personal.value, k) == After(patch, k, Look(m.personal.value, k))
           && Look(r.trip.value, k) == Look(m.trip.value, k)
      else Look(r.trip.value, k) == After(patch, k, Look(m.trip.value, k))
           && Look(r.personal.value, k) == Look(m.personal.value, k)
  {
    PatchedIs(Migrate(p).personal.value, patch, true, k);
    PatchedIs(Migrate(p).trip.value, patch, false, k);
  }

  /** What an older, flat profile brings into a dict that it lacks: each known field under its own
      name, an empty list for an empty list field, the default pace for an empty pace. */
  lemma MigratesPersonal(p: Profile, k: Key)
    requires p.personal.None?
    ensures Migrate(p).personal.Some?
    ensures Look(Migrate(p).personal.value, k) ==
      match k
      case FoodPreferences => Some(OrEmpty(Get(p.flat, FoodPreferences)))
      case Interests => Some(OrEmpty(Get(p.flat, Interests)))
      case Avoid => Some(OrEmpty(Get(p.flat, Avoid)))
      case Pace => Some(if Falsy(Get(p.flat, Pace)) then Str("moderate") else Get(p.flat, Pace))
      case AccommodationPreference => Some(Get(p.flat, AccommodationPreference))
      case _ => None
  {
  }

  lemma MigratesTrip(p: Profile, k: Key)
    requires p.trip.None?
    ensures Migrate(p).trip.Some?
    ensures Look(Migrate(p).trip.value, k) ==
      if k.Unknown? || k in {FoodPreferences, Interests, Pace, Avoid, AccommodationPreference} then None
      else Some(if k.SpecialRequests? then OrEmpty(Get(p.flat, k)) else Get(p.flat, k))
  {
  }

  /** The dicts that are there, and the other keys, stay. */
  lemma MigrateKeeps(p: Profile)
    ensures Migrate(p).flat == p.flat
    ensures p.personal.Some? ==> Migrate(p).personal == p.personal
    ensures p.trip.Some? ==> Migrate(p).trip == p.trip
  {
  }

  // ----- merging twice -----

  predicate ListIfList(k: Key, v: Option<Value>)
  {
    IsList(k) && v.Some? ==> v.value.List?
  }

  lemma AddStepIsClean(patch: Patch, k: Key, v: Option<Value>, x: string)
    requires Adds(patch, k)
    ensures var w := AddStep(patch, k, v);
      w.Some? && w.value.List? && Clean(w.value.items) &&
      (x in patch.add[k].items && Strip(x) != "" ==> Strip(x) in w.value.items)
  {
    var all := ItemsOf(v) + patch.add[k].items;
    DedupeIsClean(all);
    if x in patch.add[k].items && Strip(x) != "" {
      DedupeHolds(all, x);
    }
  }

  /** An addition leaves the field stripped, without duplicates, and holding every added value
      that is not taken out again. */
  lemma AddedIsClean(patch: Patch, k: Key, v: Option<Value>, x: string)
    requires Adds(patch, k) && k !in patch.clear
    ensures var w := After(patch, k, v);
      && w.Some? && w.value.List? && Clean(w.value.items)
      && (x in patch.add[k].items && Strip(x) != "" ==>
            Strip(x) in w.value.items ||
            (Removes(patch, k) && Strip(x) in StripAll(patch.remove[k].items)))
  {
    var u := AddStep(patch, k, SetStep(patch, k, v));
    AddStepIsClean(patch, k, SetStep(patch, k, v), x);
    if Removes(patch, k) {
      var removed := StripAll(patch.remove[k].items);
      ExceptIsClean(u.value.items, removed);
      ExceptIs(u.value.items, removed, Strip(x));
    }
  }

  lemma {:induction false} DedupeHolds(items: seq<string>, x: string)
    requires x in items && Strip(x) != ""
    ensures Strip(x) in Dedupe(items)
  {
    if items[|items| - 1] != x {
      assert x in items[..|items| - 1];
      DedupeHolds(items[..|items| - 1], x);
    }
  }

  /** A removal takes out every item that equals a stripped value of it. */
  lemma RemovedIsGone(patch: Patch, k: Key, v: Option<Value>, x: string)
    requires Removes(patch, k) && x in patch.remove[k].items
    ensures Strip(x) !in ItemsOf(After(patch, k, v))
  {
    var removed := StripAll(patch.remove[k].items);
    ExceptIs(ItemsIn(AddStep(patch, k, SetStep(patch, k, v))), removed, Strip(x));
  }

  lemma {:induction false} AddTwice(before: seq<string>, values: seq<string>, removed: set<string>)
    ensures var items := Except(Dedupe(before + values), removed);
      Except(Dedupe(items + values), removed) == items
  {
    var all := before + values;
    var items := Except(Dedupe(all), removed);
    DedupeIsClean(all);
    ExceptIsClean(Dedupe(all), removed);
    forall x | x in items ensures x !in removed {
      ExceptIs(Dedupe(all), removed, x);
    }
    forall x | x in values ensures Strip(x) == "" || Strip(x) in items || Strip(x) in removed {
      if Strip(x) != "" {
        DedupeHolds(all, x);
        ExceptIs(Dedupe(all), removed, Strip(x));
      }
    }
    AddAgain(items, values, removed);
  }

  lemma {:induction false} RemoveTwice(items: seq<string>, removed: set<string>)
    ensures Except(Except(items, removed), removed) == Except(items, removed)
  {
    var once := Except(items, removed);
    forall x | x in once ensures x !in removed {
      ExceptIs(items, removed, x);
    }
    ExceptNothing(once, removed);
  }

  function AddRemove(patch: Patch, k: Key, v: Option<Value>): (r: Option<Value>)
  {
    RemoveStep(patch, k, AddStep(patch, k, v))
  }

  predicate AddRemoveRaises(patch: Patch, k: Key, v: Option<Value>)
  {
    AddRaises(patch, k, v) || RemoveRaises(patch, k, AddStep(patch, k, v))
  }

  /** What is removed after an addition. */
  function Removed(patch: Patch, k: Key): (r: set<string>)
  {
    if Removes(patch, k) then StripAll(patch.remove[k].items) else {}
  }

  function AddedItems(patch: Patch, k: Key, items: seq<string>): (r: seq<string>)
    requires Adds(patch, k)
  {
    Except(Dedupe(items + patch.add[k].items), Removed(patch, k))
  }

  /** An addition and a removal, or an addition alone, as one operation on lists. */
  lemma AddRemoveIs(patch: Patch, k: Key, v: Option<Value>)
    requires Adds(patch, k)
    ensures AddRemove(patch, k, v) == Some(List(AddedItems(patch, k, ItemsOf(v))))
  {
    if !Removes(patch, k) {
      ExceptNothing(Dedupe(ItemsOf(v) + patch.add[k].items), {});
    }
  }

  lemma ListNeverRaises(patch: Patch, k: Key, items: seq<string>)
    ensures !AddRemoveRaises(patch, k, Some(List(items)))
  {
  }

  lemma AddedTwice(patch: Patch, k: Key, v: Option<Value>)
    requires Adds(patch, k)
    ensures AddRemove(patch, k, AddRemove(patch, k, v)) == AddRemove(patch, k, v)
    ensures !AddRemoveRaises(patch, k, AddRemove(patch, k, v))
  {
    var items := AddedItems(patch, k, ItemsOf(v));
    AddRemoveIs(patch, k, v);
    AddRemoveIs(patch, k, Some(List(items)));
    AddTwice(ItemsOf(v), patch.add[k].items, Removed(patch, k));
    ListNeverRaises(patch, k, items);
  }

  lemma RemovedTwice(patch: Patch, k: Key, v: Option<Value>)
    requires !Adds(patch, k) && Removes(patch, k)
    ensures AddRemove(patch, k, AddRemove(patch, k, v)) == AddRemove(patch, k, v)
    ensures !AddRemoveRaises(patch, k, AddRemove(patch, k, v))
  {
    RemoveTwice(ItemsIn(v), StripAll(patch.remove[k].items));
  }

  /** Without a clear, adding and removing the same values a second time changes nothing. */
  lemma AddRemoveTwice(patch: Patch, k: Key, v: Option<Value>)
    requires !AddRemoveRaises(patch, k, v)
    ensures AddRemove(patch, k, AddRemove(patch, k, v)) == AddRemove(patch, k, v)
    ensures !AddRemoveRaises(patch, k, AddRemove(patch, k, v))
  {
    if Adds(patch, k) {
      AddedTwice(patch, k, v);
    } else if Removes(patch, k) {
      RemovedTwice(patch, k, v);
    }
  }

  lemma ClearedTwice(patch: Patch, k: Key, v: Option<Value>)
    requires k in patch.clear && !k.Unknown?
    ensures After(patch, k, After(patch, k, v)) == After(patch, k, v)
    ensures !FieldRaises(patch, k, After(patch, k, v))
  {
  }

  lemma AfterTwice(patch: Patch, k: Key, v: Option<Value>)
    requires !FieldRaises(patch, k, v)
    ensures After(patch, k, After(patch, k, v)) == After(patch, k, v)
    ensures !FieldRaises(patch, k, After(patch, k, v))
  {
    if k in patch.clear && !k.Unknown? {
      ClearedTwice(patch, k, v);
    } else {
      var u := SetStep(patch, k, v);
      assert After(patch, k, v) == AddRemove(patch, k, u);
      AddRemoveTwice(patch, k, u);
      SetAgain(patch, k, v);
    }
  }

  /** A field that is set starts from the same value the second time. */
  lemma SetAgain(patch: Patch, k: Key, v: Option<Value>)
    requires !AddRemoveRaises(patch, k, SetStep(patch, k, v))
    ensures var w := AddRemove(patch, k, SetStep(patch, k, v));
      SetStep(patch, k, w) == w || SetStep(patch, k, w) == SetStep(patch, k, v)
  {
  }

  lemma PatchedTwice(d: Dict, patch: Patch, personal: bool)
    requires forall k :: IsPersonal(k) == personal ==> !FieldRaises(patch, k, Look(d, k))
    ensures var e := Patched(d, patch, personal);
      && Patched(e, patch, personal) == e
      && forall k :: IsPersonal(k) == personal ==> !FieldRaises(patch, k, Look(e, k))
  {
    var e := Patched(d, patch, personal);
    forall k ensures Look(Patched(e, patch, personal), k) == Look(e, k)
      && (IsPersonal(k) == personal ==> !FieldRaises(patch, k, Look(e, k)))
    {
      PatchedIs(d, patch, personal, k);
      PatchedIs(e, patch, personal, k);
      if IsPersonal(k) == personal {
        AfterTwice(patch, k, Look(d, k));
      }
    }
    SameDict(Patched(e, patch, personal), e);
  }

  lemma PersonalFromIsTyped(f: Dict)
    requires ListsTyped(f, true)
    ensures ListsTyped(PersonalFrom(f), false)
  {
  }

  lemma TripFromIsTyped(f: Dict)
    requires ListsTyped(f, true)
    ensures ListsTyped(TripFrom(f), false)
  {
  }

  lemma MigrateIsTyped(p: Profile)
    requires Typed(p)
    ensures ListsTyped(Migrate(p).personal.value, false) && ListsTyped(Migrate(p).trip.value, false)
  {
    if p.personal.None? || p.trip.None? {
      PersonalFromIsTyped(p.flat);
      TripFromIsTyped(p.flat);
    }
  }

  lemma MigrateNested(p: Profile)
    requires p.personal.Some? && p.trip.Some?
    ensures Migrate(p) == p
  {
  }

  /** Merging the same patch twice is merging it once, whatever the profile holds: if the first
      merge does not raise, the second does not raise and changes nothing. */
  lemma MergeTwice(p: Profile, patch: Patch)
    requires !Raises(p, patch)
    ensures !Raises(Merge(p, patch), patch) && Merge(Merge(p, patch), patch) == Merge(p, patch)
  {
    var m, r := Migrate(p), Merge(p, patch);
    MigrateNested(r);
    forall k ensures !FieldRaises(patch, k, Field(m, k)) {
    }
    assert forall k :: IsPersonal(k) ==> Look(m.personal.value, k) == Field(m, k);
    assert forall k :: !IsPersonal(k) ==> Look(m.trip.value, k) == Field(m, k);
    PatchedTwice(m.personal.value, patch, true);
    PatchedTwice(m.trip.value, patch, false);
    forall k ensures !FieldRaises(patch, k, Field(r, k)) {
    }
  }

  lemma TypedFieldIsFine(patch: Patch, k: Key, v: Option<Value>)
    requires ListIfList(k, v)
    ensures !FieldRaises(patch, k, v) && ListIfList(k, After(patch, k, v))
  {
  }

  /** On a profile whose list fields hold lists no patch raises, and such it remains. */
  lemma MergeKeepsTypes(p: Profile, patch: Patch)
    requires Typed(p)
    ensures !Raises(p, patch) && Typed(Merge(p, patch))
  {
    var m := Migrate(p);
    MigrateIsTyped(p);
    forall k ensures !FieldRaises(patch, k, Field(m, k)) {
      TypedFieldIsFine(patch, k, Field(m, k));
    }
    PatchedIsTyped(m.personal.value, patch, true);
    PatchedIsTyped(m.trip.value, patch, false);
  }

  lemma PatchedIsTyped(d: Dict, patch: Patch, personal: bool)
    requires ListsTyped(d, false)
    ensures ListsTyped(Patched(d, patch, personal), false)
  {
    var e := Patched(d, patch, personal);
    forall k | k in e && IsList(k) ensures e[k].List? {
      PatchedIs(d, patch, personal, k);
      TypedFieldIsFine(patch, k, Look(d, k));
      assert ListIfList(k, Look(e, k));
    }
  }

  /** A merge touches only what the patch names, and nothing outside the dict a field belongs
      to; unknown keys never change. */
  lemma MergeFrame(p: Profile, patch: Patch, k: Key)
    ensures var m, r := Migrate(p), Merge(p, patch);
      && Stray(r, k) == Stray(m, k) && r.flat == p.flat
      && (k !in Touched(patch) || k.Unknown? ==> Field(r, k) == Field(m, k))
  {
    var m := Migrate(p);
    PatchedIs(m.personal.value, patch, true, k);
    PatchedIs(m.trip.value, patch, false, k);
  }

  // ----- merging in place -----

  /** The loops of merge_profile work on a copy whose two dicts are there. */
  class Copy {
    var personal: Dict
    var trip: Dict

    constructor (m: Profile)
      requires m.personal.Some? && m.trip.Some?
      ensures personal == m.personal.value && trip == m.trip.value
    {
      personal, trip := m.personal.value, m.trip.value;
    }

    /** The field in the dict that _target chooses for it. */
    function At(k: Key): (r: Option<Value>)
      reads this
    {
      if IsPersonal(k) then Look(personal, k) else Look(trip, k)
    }

    /** The field in the other dict, which no patch touches. */
    function Off(k: Key): (r: Option<Value>)
      reads this
    {
      if IsPersonal(k) then Look(trip, k) else Look(personal, k)
    }

    method Assign(k: Key, v: Value)
      modifies this
      ensures At(k) == Some(v)
      ensures forall j :: j != k ==> At(j) == old(At(j))
      ensures forall j :: Off(j) == old(Off(j))
    {
      if IsPersonal(k) {
        personal := personal[k := v];
      } else {
        trip := trip[k := v];
      }
    }

    method SetAll(patch: Patch)
      modifies this
      ensures forall k :: At(k) == SetStep(patch, k, old(At(k))) && Off(k) == old(Off(k))
    {
      var rest := patch.set_.Keys;
      while rest != {}
        invariant rest <= patch.set_.Keys
        invariant forall k :: At(k) == if k in rest then old(At(k)) else SetStep(patch, k, old(At(k)))
        invariant forall k :: Off(k) == old(Off(k))
        decreases |rest|
      {
        var k :| k in rest;
        rest := rest - {k};
        var value := patch.set_[k];
        if IsScalar(k) && value != Nil {
          Assign(k, value);
        } else if IsList(k) && value.List? {
          Assign(k, value);
        }
      }
    }

    /** `ok` is false where the source raises. */
    method AddAll(patch: Patch) returns (ok: bool)
      modifies this
      ensures ok <==> forall k :: !AddRaises(patch, k, old(At(k)))
      ensures ok ==> forall k :: At(k) == AddStep(patch, k, old(At(k))) && Off(k) == old(Off(k))
    {
      var rest := patch.add.Keys;
      while rest != {}
        invariant rest <= patch.add.Keys
        invariant forall k :: At(k) == if k in rest then old(At(k)) else AddStep(patch, k, old(At(k)))
        invariant forall k :: Off(k) == old(Off(k))
        invariant forall k :: k !in rest ==> !AddRaises(patch, k, old(At(k)))
        decreases |rest|
      {
        var k :| k in rest;
        if AddRaises(patch, k, At(k)) {
          return false;
        }
        rest := rest - {k};
        if IsList(k) && patch.add[k].List? {
          var items := DedupeKeepOrder(ItemsOf(At(k)) + patch.add[k].items);
          Assign(k, List(items));
        }
      }
      ok := true;
    }

    method RemoveAll(patch: Patch) returns (ok: bool)
      modifies this
      ensures ok <==> forall k :: !RemoveRaises(patch, k, old(At(k)))
      ensures ok ==> forall k :: At(k) == RemoveStep(patch, k, old(At(k))) && Off(k) == old(Off(k))
    {
      var rest := patch.remove.Keys;
      while rest != {}
        invariant rest <= patch.remove.Keys
        invariant forall k :: At(k) == if k in rest then old(At(k)) else RemoveStep(patch, k, old(At(k)))
        invariant forall k :: Off(k) == old(Off(k))
        invariant forall k :: k !in rest ==> !RemoveRaises(patch, k, old(At(k)))
        decreases |rest|
      {
        var k :| k in rest;
        if RemoveRaises(patch, k, At(k)) {
          return false;
        }
        rest := rest - {k};
        if IsList(k) && patch.remove[k].List? {
          Assign(k, List(Except(Iterable(At(k)).value, StripAll(patch.remove[k].items))));
        }
      }
      ok := true;
    }

    method ClearAll(patch: Patch)
      modifies this
      ensures forall k :: At(k) == ClearStep(patch, k, old(At(k))) && Off(k) == old(Off(k))
    {
      for i := 0 to |patch.clear|
        invariant forall k :: At(k) == if k in patch.clear[..i] then ClearStep(patch, k, old(At(k))) else old(At(k))
        invariant forall k :: Off(k) == old(Off(k))
      {
        var k := patch.clear[i];
        if IsList(k) {
          Assign(k, List([]));
        } else if IsScalar(k) {
          Assign(k, Nil);
        }
      }
    }
  }

  /** merge_profile; None where it raises. */
  method MergeProfile(p: Profile, patch: Patch) returns (merged: Option<Profile>)
    ensures merged.None? <==> Raises(p, patch)
    ensures merged.Some? ==> merged.value == Merge(p, patch)
  {
    var m := Migrate(p);
    var copy := new Copy(m);
    assert forall k :: copy.At(k) == Field(m, k) && copy.Off(k) == Stray(m, k);
    copy.SetAll(patch);
    assert forall k :: copy.At(k) == SetStep(patch, k, Field(m, k));
    var ok := copy.AddAll(patch);
    if !ok {
      ghost var k :| AddRaises(patch, k, SetStep(patch, k, Field(m, k)));
      assert FieldRaises(patch, k, Field(m, k));
      return None;
    }
    assert forall k :: copy.At(k) == AddStep(patch, k, SetStep(patch, k, Field(m, k)));
    ok := copy.RemoveAll(patch);
    if !ok {
      ghost var k :| RemoveRaises(patch, k, AddStep(patch, k, SetStep(patch, k, Field(m, k))));
      assert FieldRaises(patch, k, Field(m, k));
      return None;
    }
    copy.ClearAll(patch);
    MergedDicts(m, patch, copy.personal, copy.trip);
    merged := Some(m.(personal := Some(copy.personal), trip := Some(copy.trip)));
  }

  lemma MergedDicts(m: Profile, patch: Patch, personal: Dict, trip: Dict)
    requires m.personal.Some? && m.trip.Some?
    requires forall k :: (if IsPersonal(k) then Look(personal, k) else Look(trip, k)) == After(patch, k, Field(m, k))
    requires forall k :: (if IsPersonal(k) then Look(trip, k) else Look(personal, k)) == Stray(m, k)
    ensures personal == Patched(m.personal.value, patch, true) && trip == Patched(m.trip.value, patch, false)
  {
    forall k ensures Look(personal, k) == Look(Patched(m.personal.value, patch, true), k)
      && Look(trip, k) == Look(Patched(m.trip.value, patch, false), k)
    {
      PatchedIs(m.personal.value, patch, true, k);
      PatchedIs(m.trip.value, patch, false, k);
      assert (if IsPersonal(k) then Look(personal, k) else Look(trip, k)) == After(patch, k, Field(m, k));
      assert (if IsPersonal(k) then Look(trip, k) else Look(personal, k)) == Stray(m, k);
    }
    SameDict(personal, Patched(m.personal.value, patch, true));
    SameDict(trip, Patched(m.trip.value, patch, false));
  }
}
