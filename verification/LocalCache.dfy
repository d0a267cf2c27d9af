/** The in-process cache of core/local_cache.py: a dict with an expiry per entry that, when
    full, drops the entry that came into the dict first.

    A Python dict keeps its keys in the order in which they came in, so the store is a
    sequence of entries.  Every operation reads the clock before it takes the lock;
    operations can therefore enter the lock out of clock order, and nothing below assumes
    the readings to be ordered. */
module LocalCache {
  import opened Prelude

  datatype Entry<T> = Entry(key: string, value: T, expiresAt: int)

  datatype Op<T> =
    | Get(key: string, now: int)
    | Set(key: string, value: T, now: int)
    | Delete(key: string)
    | Clear

  datatype Reply<T> = Hit(value: T) | Miss | Done | Raised

  /** The size limit and the lifetime of an entry. */
  datatype Settings = Settings(maxsize: int, ttl: int)

  // ----- the dict -----

  function IndexOf<T>(store: seq<Entry<T>>, key: string): (i: nat)
    ensures i <= |store|
    ensures i < |store| ==> store[i].key == key
    ensures forall j :: 0 <= j < i ==> store[j].key != key
  {
    if store == [] || store[0].key == key then 0 else 1 + IndexOf(store[1..], key)
  }

  predicate Has<T>(store: seq<Entry<T>>, key: string) {
    IndexOf(store, key) < |store|
  }

  function Without<T>(store: seq<Entry<T>>, key: string): (r: seq<Entry<T>>) {
    var i := IndexOf(store, key);
    if i < |store| then store[..i] + store[i + 1..] else store
  }

  /** Assigning to a key that is present keeps its place in the order. */
  function Put<T>(store: seq<Entry<T>>, e: Entry<T>): (r: seq<Entry<T>>) {
    var i := IndexOf(store, e.key);
    if i < |store| then store[i := e] else store + [e]
  }

  predicate Full<T>(c: Settings, store: seq<Entry<T>>, key: string) {
    |store| >= c.maxsize && !Has(store, key)
  }

  // ----- the operations -----

  /** The store after an operation; a `Set` on a full but empty store raises and changes nothing. */
  function Apply<T>(c: Settings, store: seq<Entry<T>>, op: Op<T>): (r: seq<Entry<T>>) {
    match op
    case Get(key, now) =>
      var i := IndexOf(store, key);
      if i < |store| && store[i].expiresAt <= now then Without(store, key) else store
    case Set(key, value, now) =>
      var e := Entry(key, value, now + c.ttl);
      if !Full(c, store, key) then Put(store, e)
      else if store == [] then store
      else Put(store[1..], e)
    case Delete(key) => Without(store, key)
    case Clear => []
  }

  function Answer<T>(c: Settings, store: seq<Entry<T>>, op: Op<T>): (r: Reply<T>) {
    match op
    case Get(key, now) =>
      var i := IndexOf(store, key);
      if i < |store| && now < store[i].expiresAt then Hit(store[i].value) else Miss
    case Set(key, value, now) =>
      if Full(c, store, key) && store == [] then Raised else Done
    case _ => Done
  }

  function Run<T>(c: Settings, ops: seq<Op<T>>): (r: seq<Entry<T>>) {
    if ops == [] then [] else Apply(c, Run(c, ops[..|ops| - 1]), ops[|ops| - 1])
  }

  // ----- what the history says -----

  /** The value and the clock reading of a `Set`. */
  datatype Write<T> = Write(value: T, now: int)

  /** The last `Set` of `key` in the history, unless the key was deleted or the cache cleared since. */
  function LatestSet<T>(ops: seq<Op<T>>, key: string): (r: Option<Write<T>>) {
    if ops == [] then None
    else
      match ops[|ops| - 1]
      case Set(k, v, now) => if k == key then Some(Write(v, now)) else LatestSet(ops[..|ops| - 1], key)
      case Delete(k) => if k == key then None else LatestSet(ops[..|ops| - 1], key)
      case Clear => None
      case Get(_, _) => LatestSet(ops[..|ops| - 1], key)
  }

  predicate Distinct<T>(store: seq<Entry<T>>) {
    forall i, j :: 0 <= i < j < |store| ==> store[i].key != store[j].key
  }

  ghost predicate Faithful<T>(c: Settings, ops: seq<Op<T>>, e: Entry<T>) {
    LatestSet(ops, e.key) == Some(Write(e.value, e.expiresAt - c.ttl))
  }

  lemma {:induction false} IndexIs<T>(store: seq<Entry<T>>, i: nat)
    requires Distinct(store) && i < |store|
    ensures IndexOf(store, store[i].key) == i
  {
  }

  /** Keys stay distinct, the limit is never exceeded, and an entry is new only if the operation set it. */
  lemma StepShape<T>(c: Settings, store: seq<Entry<T>>, op: Op<T>)
    requires Distinct(store) && (|store| <= c.maxsize || store == [])
    ensures Distinct(Apply(c, store, op))
    ensures |Apply(c, store, op)| <= c.maxsize || Apply(c, store, op) == []
    ensures forall e :: e in Apply(c, store, op) ==>
      e in store || (op.Set? && e == Entry(op.key, op.value, op.now + c.ttl))
    ensures forall e :: e in Apply(c, store, op) && e in store ==>
      op.Get? || (!op.Clear? && op.key != e.key) || (op.Set? && e == Entry(op.key, op.value, op.now + c.ttl))
  {
  }

  /** After any history the store holds at most `maxsize` entries, each the latest write of its key. */
  lemma {:induction false} RunInv<T>(c: Settings, ops: seq<Op<T>>)
    ensures Distinct(Run(c, ops))
    ensures |Run(c, ops)| <= c.maxsize || Run(c, ops) == []
    ensures forall e :: e in Run(c, ops) ==> Faithful(c, ops, e)
  {
    if ops != [] {
      var before, op := ops[..|ops| - 1], ops[|ops| - 1];
      RunInv(c, before);
      StepShape(c, Run(c, before), op);
      forall e | e in Run(c, ops) ensures Faithful(c, ops, e) {
        if e in Run(c, before) {
          assert Faithful(c, before, e);
        }
      }
    }
  }

  /** A hit is the value of the latest write of that key, and that write is younger than the lifetime. */
  lemma {:induction false} HitIsLatestWrite<T>(c: Settings, ops: seq<Op<T>>, key: string, now: int)
    requires Answer(c, Run(c, ops), Get(key, now)).Hit?
    ensures LatestSet(ops, key).Some?
    ensures Answer(c, Run(c, ops), Get(key, now)) == Hit(LatestSet(ops, key).value.value)
    ensures now < LatestSet(ops, key).value.now + c.ttl
  {
    RunInv(c, ops);
    var store := Run(c, ops);
    assert Faithful(c, ops, store[IndexOf(store, key)]);
  }

  lemma PutHolds<T>(store: seq<Entry<T>>, e: Entry<T>)
    ensures e in Put(store, e)
  {
    assert Put(store, e)[IndexOf(store, e.key)] == e;
  }

  lemma WriteEffect<T>(c: Settings, store: seq<Entry<T>>, op: Op<T>)
    requires op.Set? && |store| <= c.maxsize && c.maxsize > 0
    ensures Answer(c, store, op) == Done && |Apply(c, store, op)| <= c.maxsize
    ensures Entry(op.key, op.value, op.now + c.ttl) in Apply(c, store, op)
  {
    var e := Entry(op.key, op.value, op.now + c.ttl);
    if Full(c, store, op.key) {
      PutHolds(store[1..], e);
    } else {
      PutHolds(store, e);
    }
  }

  /** `set` raises exactly when the cache was made with room for nothing; otherwise it stores
      the value and stays within the limit. */
  lemma {:induction false} SetEffect<T>(c: Settings, ops: seq<Op<T>>, op: Op<T>)
    requires op.Set?
    ensures Answer(c, Run(c, ops), op).Raised? <==> c.maxsize <= 0
    ensures c.maxsize > 0 ==> |Apply(c, Run(c, ops), op)| <= c.maxsize
    ensures c.maxsize > 0 ==> Entry(op.key, op.value, op.now + c.ttl) in Apply(c, Run(c, ops), op)
  {
    RunInv(c, ops);
    if c.maxsize > 0 {
      WriteEffect(c, Run(c, ops), op);
    }
  }

  // ----- eviction -----

  /** The position in the history of the `Set` with which the key last came into the store. */
  ghost function Since<T>(c: Settings, ops: seq<Op<T>>, key: string): (i: nat)
    requires Has(Run(c, ops), key)
    ensures i < |ops| && ops[i].Set? && ops[i].key == key
  {
    var before, op := ops[..|ops| - 1], ops[|ops| - 1];
    if Has(Run(c, before), key) then Since(c, before, key)
    else
      ArrivalIsSet(c, ops, key);
      |ops| - 1
  }

  lemma {:induction false} ArrivalIsSet<T>(c: Settings, ops: seq<Op<T>>, key: string)
    requires Has(Run(c, ops), key) && !Has(Run(c, ops[..|ops| - 1]), key)
    ensures ops[|ops| - 1].Set? && ops[|ops| - 1].key == key
  {
    var before, op := ops[..|ops| - 1], ops[|ops| - 1];
    RunInv(c, before);
    StepShape(c, Run(c, before), op);
    var e := Run(c, ops)[IndexOf(Run(c, ops), key)];
    assert e in Apply(c, Run(c, before), op);
  }

  /** The store is in order of arrival, so the entry that a full cache drops, its first, is
      the one that has been in the cache longest. */
  lemma {:induction false} OrderIsAge<T>(c: Settings, ops: seq<Op<T>>, i: nat, j: nat)
    requires i < j < |Run(c, ops)|
    ensures Has(Run(c, ops), Run(c, ops)[i].key) && Has(Run(c, ops), Run(c, ops)[j].key)
    ensures Since(c, ops, Run(c, ops)[i].key) < Since(c, ops, Run(c, ops)[j].key)
  {
    var store := Run(c, ops);
    RunInv(c, ops);
    IndexIs(store, i);
    IndexIs(store, j);
    var before, op := ops[..|ops| - 1], ops[|ops| - 1];
    RunInv(c, before);
    var i', j' := Origin(c, Run(c, before), op, store, i, j);
    if j' < |Run(c, before)| {
      OrderIsAge(c, before, i', j');
    } else {
      IndexIs(Run(c, before), i');
      assert !Has(Run(c, before), store[j].key);
    }
  }

  lemma WriteOrigin<T>(c: Settings, store: seq<Entry<T>>, op: Op<T>, i: nat, j: nat) returns (i': nat, j': nat)
    requires op.Set? && i < j < |Apply(c, store, op)|
    ensures i' < j' <= |store|
    ensures store[i'].key == Apply(c, store, op)[i].key
    ensures j' < |store| ==> store[j'].key == Apply(c, store, op)[j].key
    ensures j' == |store| ==> !Has(store, Apply(c, store, op)[j].key)
  {
    var e := Entry(op.key, op.value, op.now + c.ttl);
    if Full(c, store, op.key) && store != [] {
      assert IndexOf(store[1..], op.key) == |store| - 1;
      assert Apply(c, store, op) == store[1..] + [e];
      i', j' := i + 1, j + 1;
    } else {
      assert Apply(c, store, op) == Put(store, e);
      i', j' := i, j;
    }
  }

  lemma RemovalOrigin<T>(store: seq<Entry<T>>, k: nat, i: nat, j: nat) returns (i': nat, j': nat)
    requires k < |store| && i < j < |store| - 1
    ensures i' < j' < |store|
    ensures (store[..k] + store[k + 1..])[i] == store[i'] && (store[..k] + store[k + 1..])[j] == store[j']
  {
    i', j' := if i < k then i else i + 1, if j < k then j else j + 1;
  }

  lemma WithoutOrigin<T>(store: seq<Entry<T>>, key: string, i: nat, j: nat) returns (i': nat, j': nat)
    requires i < j < |Without(store, key)|
    ensures i' < j' < |store| && store[i'] == Without(store, key)[i] && store[j'] == Without(store, key)[j]
  {
    var k := IndexOf(store, key);
    i', j' := i, j;
    if k < |store| {
      assert Without(store, key) == store[..k] + store[k + 1..];
      i', j' := RemovalOrigin(store, k, i, j);
    }
  }

  /** What an operation that is no `Set` leaves: the store, the store without its key, or nothing. */
  lemma NoWrite<T>(c: Settings, store: seq<Entry<T>>, op: Op<T>)
    requires !op.Set?
    ensures Apply(c, store, op) == store || Apply(c, store, op) == [] ||
            (!op.Clear? && Apply(c, store, op) == Without(store, op.key))
  {
  }

  /** Two entries after an operation stood in the same order before it; a key that has just
      come in stands last. */
  lemma Origin<T>(c: Settings, store: seq<Entry<T>>, op: Op<T>, after: seq<Entry<T>>, i: nat, j: nat)
    returns (i': nat, j': nat)
    requires after == Apply(c, store, op) && i < j < |after|
    ensures i' < j' <= |store| && store[i'].key == after[i].key
    ensures j' < |store| ==> store[j'].key == after[j].key
    ensures j' == |store| ==> !Has(store, after[j].key)
  {
    if op.Set? {
      i', j' := WriteOrigin(c, store, op, i, j);
    } else {
      NoWrite(c, store, op);
      i', j' := i, j;
      if after != store {
        i', j' := WithoutOrigin(store, op.key, i, j);
      }
    }
  }

  // ----- how long a key survives -----

  /** An operation that takes the key out on purpose or finds it expired. */
  predicate Ends<T>(c: Settings, store: seq<Entry<T>>, op: Op<T>, key: string) {
    match op
    case Get(k, now) => k == key && Answer(c, store, op) == Miss
    case Set(_, _, _) => false
    case Delete(k) => k == key
    case Clear => true
  }

  /** An operation that ends a key leaves it out of the store. */
  lemma EndsIsGone<T>(c: Settings, store: seq<Entry<T>>, op: Op<T>, key: string)
    requires Distinct(store) && Ends(c, store, op, key)
    ensures !Has(Apply(c, store, op), key)
  {
    var i := IndexOf(store, key);
    if i < |store| && !op.Clear? {
      assert Apply(c, store, op) == store[..i] + store[i + 1..];
    }
  }

  /** Nothing from position n on ends the key. */
  ghost predicate NeverEnds<T>(c: Settings, ops: seq<Op<T>>, n: nat, key: string) {
    |ops| <= n ||
    (NeverEnds(c, ops[..|ops| - 1], n, key) &&
     !Ends(c, Run(c, ops[..|ops| - 1]), ops[|ops| - 1], key))
  }

  /** The keys other than `key` that are written from position n on. */
  ghost function Others<T>(ops: seq<Op<T>>, n: nat, key: string): (r: set<string>)
    ensures key !in r
  {
    if |ops| <= n then {}
    else
      var op := ops[|ops| - 1];
      Others(ops[..|ops| - 1], n, key) + (if op.Set? && op.key != key then {op.key} else {})
  }

  /** Everything behind the key in the store is one of the others. */
  ghost predicate Behind<T>(store: seq<Entry<T>>, key: string, others: set<string>) {
    Has(store, key) && forall j :: IndexOf(store, key) < j < |store| ==> store[j].key in others
  }

  lemma {:induction false} KeyCount<T>(store: seq<Entry<T>>, keys: set<string>)
    requires Distinct(store) && forall e :: e in store ==> e.key in keys
    ensures |store| <= |keys|
  {
    if store != [] {
      var last := store[|store| - 1].key;
      KeyCount(store[..|store| - 1], keys - {last});
    }
  }

  /** A full cache with the key in front and fewer than `maxsize` others behind it cannot be. */
  lemma {:induction false} NotInFront<T>(c: Settings, store: seq<Entry<T>>, key: string, newcomer: string,
                                         others: set<string>)
    requires Distinct(store) && Behind(store, key, others) && newcomer in others
    requires |others| < c.maxsize && Full(c, store, newcomer)
    ensures IndexOf(store, key) > 0
  {
    if IndexOf(store, key) == 0 {
      var next := store[1..] + [store[0].(key := newcomer)];
      assert Distinct(next);
      KeyCount(next, others);
      assert false;
    }
  }

  /** An entry found at position q, with only others behind it. */
  lemma FoundAt<T>(store: seq<Entry<T>>, q: nat, key: string, others: set<string>)
    requires Distinct(store) && q < |store| && store[q].key == key
    requires forall j :: q < j < |store| ==> store[j].key in others
    ensures Behind(store, key, others)
  {
    IndexIs(store, q);
  }

  lemma WriteSurvives<T>(c: Settings, store: seq<Entry<T>>, op: Op<T>, key: string, others: set<string>)
    requires Distinct(store) && Behind(store, key, others)
    requires op.Set? && (op.key != key ==> op.key in others)
    requires |others| < c.maxsize
    requires Distinct(Apply(c, store, op))
    ensures Behind(Apply(c, store, op), key, others)
  {
    var p := IndexOf(store, key);
    var e := Entry(op.key, op.value, op.now + c.ttl);
    if Full(c, store, op.key) {
      NotInFront(c, store, key, op.key, others);
      assert IndexOf(store[1..], op.key) == |store| - 1;
      assert Apply(c, store, op) == store[1..] + [e];
      FoundAt(store[1..] + [e], p - 1, key, others);
    } else {
      FoundAt(Put(store, e), p, key, others);
    }
  }

  lemma RemovalSurvives<T>(store: seq<Entry<T>>, key: string, other: string, others: set<string>)
    requires Distinct(store) && Behind(store, key, others) && other != key
    ensures Behind(Without(store, other), key, others)
  {
    var p, k := IndexOf(store, key), IndexOf(store, other);
    if k < |store| {
      FoundAt(store[..k] + store[k + 1..], if p < k then p else p - 1, key, others);
    }
  }

  lemma StepSurvives<T>(c: Settings, store: seq<Entry<T>>, op: Op<T>, key: string, others: set<string>)
    requires Distinct(store) && Behind(store, key, others) && !Ends(c, store, op, key)
    requires |store| <= c.maxsize || store == []
    requires op.Set? && op.key != key ==> op.key in others
    requires |others| < c.maxsize
    ensures Behind(Apply(c, store, op), key, others)
  {
    StepShape(c, store, op);
    if op.Set? {
      WriteSurvives(c, store, op, key, others);
    } else if op.key != key {
      RemovalSurvives(store, key, op.key, others);
    }
  }

  /** First in, first out: a key that came in with the write at position n is still there as
      long as nothing ends it and fewer than `maxsize` other keys are written after it. */
  lemma {:induction false} Survives<T>(c: Settings, ops: seq<Op<T>>, n: nat, key: string)
    requires n < |ops| && ops[n].Set? && ops[n].key == key
    requires !Has(Run(c, ops[..n]), key)
    requires NeverEnds(c, ops, n, key)
    requires |Others(ops, n, key)| < c.maxsize
    ensures Behind(Run(c, ops), key, Others(ops, n, key))
  {
    var before, op := ops[..|ops| - 1], ops[|ops| - 1];
    RunInv(c, before);
    if n == |ops| - 1 {
      ArrivesLast(c, Run(c, before), op);
    } else {
      assert before[..n] == ops[..n];
      SubsetSize(Others(before, n, key), Others(ops, n, key));
      Survives(c, before, n, key);
      StepSurvives(c, Run(c, before), op, key, Others(ops, n, key));
    }
  }

  /** ... and so a `get` answers as an unbounded cache would: the latest write while it is young. */
  lemma {:induction false} SurvivorAnswers<T>(c: Settings, ops: seq<Op<T>>, n: nat, key: string, now: int)
    requires n < |ops| && ops[n].Set? && ops[n].key == key
    requires !Has(Run(c, ops[..n]), key)
    requires NeverEnds(c, ops, n, key)
    requires |Others(ops, n, key)| < c.maxsize
    ensures LatestSet(ops, key).Some?
    ensures Answer(c, Run(c, ops), Get(key, now)) ==
      var w := LatestSet(ops, key).value; if now < w.now + c.ttl then Hit(w.value) else Miss
  {
    Survives(c, ops, n, key);
    RunInv(c, ops);
    assert Faithful(c, ops, Run(c, ops)[IndexOf(Run(c, ops), key)]);
  }

  lemma ArrivesLast<T>(c: Settings, store: seq<Entry<T>>, op: Op<T>)
    requires Distinct(store) && op.Set? && !Has(store, op.key) && c.maxsize > 0
    requires |store| <= c.maxsize
    ensures Behind(Apply(c, store, op), op.key, {})
  {
    StepShape(c, store, op);
    var e := Entry(op.key, op.value, op.now + c.ttl);
    if Full(c, store, op.key) {
      assert IndexOf(store[1..], op.key) == |store| - 1;
      FoundAt(store[1..] + [e], |store| - 1, op.key, {});
    } else {
      FoundAt(store + [e], |store|, op.key, {});
    }
  }

  /** The count runs from the arrival of the key, not from its latest write: in any full cache,
      rewriting the key that has been there longest does not save it from the next newcomer. */
  lemma {:induction false} RewriteDoesNotRenew<T>(c: Settings, ops: seq<Op<T>>, rewrite: Op<T>, newcomer: Op<T>)
    requires |Run(c, ops)| == c.maxsize > 0 && rewrite.Set? && newcomer.Set?
    requires Run(c, ops)[0].key == rewrite.key && !Has(Run(c, ops), newcomer.key)
    ensures var after := ops + [rewrite] + [newcomer];
      LatestSet(after, rewrite.key) == Some(Write(rewrite.value, rewrite.now)) && !Has(Run(c, after), rewrite.key)
  {
    var one := ops + [rewrite];
    var two := one + [newcomer];
    assert one[..|ops|] == ops && two[..|one|] == one;
    RunInv(c, ops);
    FirstIsEvicted(c, Run(c, ops), rewrite, newcomer);
    assert LatestSet(one, rewrite.key) == Some(Write(rewrite.value, rewrite.now));
  }

  lemma FirstIsEvicted<T>(c: Settings, store: seq<Entry<T>>, rewrite: Op<T>, newcomer: Op<T>)
    requires Distinct(store) && |store| == c.maxsize > 0 && rewrite.Set? && newcomer.Set?
    requires store[0].key == rewrite.key && !Has(store, newcomer.key)
    ensures newcomer.key != rewrite.key && !Has(Apply(c, Apply(c, store, rewrite), newcomer), rewrite.key)
  {
    var e := Entry(rewrite.key, rewrite.value, rewrite.now + c.ttl);
    var f := Entry(newcomer.key, newcomer.value, newcomer.now + c.ttl);
    IndexIs(store, 0);
    var store' := store[0 := e];
    assert Apply(c, store, rewrite) == store';
    assert forall k :: 0 <= k < |store| ==> store[k].key != newcomer.key;
    assert Full(c, store', newcomer.key);
    assert IndexOf(store'[1..], newcomer.key) == |store| - 1;
    assert Apply(c, store', newcomer) == store[1..] + [f];
    assert forall k :: 0 < k < |store| ==> store[k].key != store[0].key;
  }

  // ----- the class -----

  class LocalTTLCache<T(==)> {
    const c: Settings
    var store: seq<Entry<T>>
    /** The operations so far, in the order in which they held the lock. */
    ghost var log: seq<Op<T>>

    ghost predicate Valid()
      reads this
    {
      store == Run(c, log)
    }

    constructor (ttlSeconds: int := 300, maxsize: int := 2048)
      ensures Valid() && log == [] && c == Settings(maxsize, ttlSeconds)
    {
      c := Settings(maxsize, ttlSeconds);
      store := [];
      log := [];
    }

    /** `op` has turned the store `was` into what it is now. */
    ghost method Record(was: seq<Entry<T>>, op: Op<T>)
      requires was == Run(c, log) && store == Apply(c, was, op)
      modifies this`log
      ensures Valid() && log == old(log) + [op]
    {
      assert (log + [op])[..|log|] == log;
      log := log + [op];
    }

    method Get(key: string, now: int) returns (value: Option<T>)
      requires Valid()
      modifies this
      ensures Valid() && log == old(log) + [Op.Get(key, now)]
      ensures Answer(c, old(store), Op.Get(key, now)) == if value.Some? then Hit(value.value) else Miss
      ensures value.Some? ==> LatestSet(old(log), key).Some? && value.value == LatestSet(old(log), key).value.value
      ensures value.Some? ==> now < LatestSet(old(log), key).value.now + c.ttl && store == old(store)
    {
      value := None;
      var i := IndexOf(store, key);
      if i < |store| {
        if store[i].expiresAt <= now {
          store := store[..i] + store[i + 1..];
        } else {
          HitIsLatestWrite(c, log, key, now);
          value := Some(store[i].value);
        }
      }
      assert store == Apply(c, old(store), Op.Get(key, now));
      Record(old(store), Op.Get(key, now));
    }

    method Set(key: string, value: T, now: int) returns (ok: bool)
      requires Valid()
      modifies this
      ensures Valid() && log == old(log) + [Op.Set(key, value, now)]
      ensures ok <==> c.maxsize >= 1
      ensures !ok ==> store == old(store)
      ensures ok ==> |store| <= c.maxsize && Entry(key, value, now + c.ttl) in store
    {
      SetEffect(c, log, Op.Set(key, value, now));
      ok := true;
      if |store| >= c.maxsize && IndexOf(store, key) == |store| {
        if store == [] {
          ok := false;
        } else {
          store := store[1..];
        }
      }
      if ok {
        store := Put(store, Entry(key, value, now + c.ttl));
      }
      assert store == Apply(c, old(store), Op.Set(key, value, now));
      Record(old(store), Op.Set(key, value, now));
    }

    method Delete(key: string)
      requires Valid()
      modifies this
      ensures Valid() && log == old(log) + [Op.Delete(key)]
      ensures !Has(store, key)
    {
      RunInv(c, log);
      store := Without(store, key);
      Record(old(store), Op.Delete(key));
    }

    method Clear()
      requires Valid()
      modifies this
      ensures Valid() && log == old(log) + [Op.Clear]
      ensures store == []
    {
      store := [];
      Record(old(store), Op.Clear);
    }
  }
}
