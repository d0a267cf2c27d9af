/** The three tiers in which core/memory.py keeps the state of one session, run against the
    history of what was written and archived.

    Redis keys expire by a shared clock; the conversations table is a sequence of rows, a
    row's id being its place, so that a new row gets an id that was never used.  Every call
    of the memory manager is one step. */
module Memory {
  import opened Prelude

  const HOT_TTL: int := 1800
  const WARM_TTL: int := 24 * 3600
  const POINTER_TTL: int := 90 * 24 * 3600

  /** A conversation state: its two stamps, and all the rest of it. */
  datatype Snapshot = Snapshot(body: string, conversationId: Option<nat>, updatedAt: Option<int>)

  datatype Cell<T> = Cell(value: T, until: int)

  datatype State = State(
    now: int,
    hot: Option<Cell<Snapshot>>,
    warm: Option<Cell<Snapshot>>,
    pointer: Option<Cell<nat>>,
    rows: seq<Option<Snapshot>>)

  datatype Action =
    | Tick(d: nat)
    | HotSet(state: Snapshot, ttl: int)
    | HotDelete
    | WarmDelete
    | Archive(guest: bool, user: bool)
    | Load(promote: bool)
    | NewRow(snapshot: Option<Snapshot>)

  predicate Live<T>(c: Option<Cell<T>>, now: int)
  {
    c.Some? && now < c.value.until
  }

  /** _compact_snapshot: an update stamp is supplied where there is none. */
  function Compact(x: Snapshot): (r: Snapshot)
  {
    if x.updatedAt.None? then x.(updatedAt := Some(0)) else x
  }

  function Rewarmed(s: State, x: Snapshot): (r: State)
  {
    s.(warm := Some(Cell(Compact(x), s.now + WARM_TTL)))
  }

  /** Redis refuses a lifetime that is not positive; then neither tier is written. */
  function WriteBoth(s: State, x: Snapshot, ttl: int): (r: State)
  {
    if ttl <= 0 then s else Rewarmed(s.(hot := Some(Cell(x, s.now + ttl))), x)
  }

  predicate Archivable(s: State, guest: bool, user: bool)
  {
    !guest && user && Live(s.warm, s.now)
  }

  /** The row that the warm snapshot names, if there is such a row. */
  function NamedRow(s: State): (r: Option<nat>)
    requires Live(s.warm, s.now)
  {
    var id := s.warm.value.value.conversationId;
    if id.Some? && id.value < |s.rows| then id else None
  }

  function Archived(s: State): (r: State)
    requires Live(s.warm, s.now)
  {
    var x := s.warm.value.value;
    match NamedRow(s)
    case Some(id) =>
      s.(rows := s.rows[id := Some(x)], pointer := Some(Cell(id, s.now + POINTER_TTL)))
    case None =>
      var id := |s.rows|;
      Rewarmed(s, x.(conversationId := Some(id)))
        .(rows := s.rows + [Some(x)], pointer := Some(Cell(id, s.now + POINTER_TTL)))
  }

  function RowAt(s: State, id: Option<nat>): (r: Option<Snapshot>)
  {
    if id.Some? && id.value < |s.rows| then s.rows[id.value] else None
  }

  function Pointed(s: State): (r: Option<nat>)
  {
    if Live(s.pointer, s.now) then Some(s.pointer.value.value) else None
  }

  /** What the tiers hold for the session; `own` is the row that the session id itself names. */
  function Stored(own: Option<nat>, s: State): (r: Option<Snapshot>)
  {
    if Live(s.hot, s.now) then Some(s.hot.value.value)
    else if Live(s.warm, s.now) then Some(s.warm.value.value)
    else if RowAt(s, Pointed(s)).Some? then RowAt(s, Pointed(s))
    else if own != Pointed(s) then RowAt(s, own)
    else None
  }

  function Default(now: int): (r: Snapshot)
  {
    Snapshot("default", None, Some(now))
  }

  /** What load_state returns. */
  function Loaded(own: Option<nat>, s: State): (r: Snapshot)
  {
    if Stored(own, s).Some? then Stored(own, s).value else Default(s.now)
  }

  predicate Promotes(own: Option<nat>, s: State, promote: bool)
  {
    promote && !Live(s.hot, s.now) && Stored(own, s).Some?
  }

  function Apply(own: Option<nat>, s: State, a: Action): (r: State)
  {
    match a
    case Tick(d) => s.(now := s.now + d)
    case HotSet(x, ttl) => WriteBoth(s, x, ttl)
    case HotDelete => s.(hot := None)
    case WarmDelete => s.(warm := None)
    case Archive(guest, user) =>
      if guest then s.(warm := None) else if Archivable(s, guest, user) then Archived(s) else s
    case Load(promote) => if Promotes(own, s, promote) then WriteBoth(s, Loaded(own, s), HOT_TTL) else s
    case NewRow(x) => s.(rows := s.rows + [x])
  }

  // ----- the history -----

  /** The last write with its time and whether the warm copy has since been left alone; the
      last archived state with its time. */
  datatype Past = Past(
    written: Option<Snapshot>,
    writtenAt: int,
    kept: bool,
    archived: Option<Snapshot>,
    archivedAt: int)

  function Note(own: Option<nat>, s: State, p: Past, a: Action): (r: Past)
  {
    match a
    case HotSet(x, ttl) => if ttl <= 0 then p else p.(written := Some(x), writtenAt := s.now, kept := true)
    case WarmDelete => p.(kept := false)
    case Archive(guest, user) =>
      if guest then p.(kept := false)
      else if Archivable(s, guest, user) then p.(archived := p.written, archivedAt := s.now)
      else p
    case Load(promote) =>
      if Promotes(own, s, promote) then p.(written := Stored(own, s), writtenAt := s.now, kept := true) else p
    case _ => p
  }

  datatype Config = Config(s: State, p: Past)

  function Start(now: int, rows: seq<Option<Snapshot>>): (r: Config)
  {
    Config(State(now, None, None, None, rows), Past(None, now, false, None, now))
  }

  function Run(own: Option<nat>, c: Config, actions: seq<Action>): (r: Config)
  {
    if actions == [] then c
    else
      var before, a := Run(own, c, actions[..|actions| - 1]), actions[|actions| - 1];
      Config(Apply(own, before.s, a), Note(own, before.s, before.p, a))
  }

  /** Equal up to the stamps: the same body, and the same update stamp if `y` has one. */
  predicate Same(x: Snapshot, y: Snapshot)
  {
    x.body == y.body && (y.updatedAt.Some? ==> x.updatedAt == y.updatedAt)
  }

  ghost predicate Inv(c: Config)
  {
    var s, p := c.s, c.p;
    && (Live(s.hot, s.now) ==> p.written == Some(s.hot.value.value))
    && (Live(s.warm, s.now) ==> p.written.Some? && Same(s.warm.value.value, p.written.value))
    && (p.kept ==> s.warm.Some? && s.warm.value.until >= p.writtenAt + WARM_TTL)
    && s.now >= p.writtenAt
    && (Live(s.pointer, s.now) ==>
          p.archived.Some? && RowAt(s, Pointed(s)).Some? && Same(RowAt(s, Pointed(s)).value, p.archived.value))
    && (p.archived.Some? ==> s.pointer.Some? && s.pointer.value.until == p.archivedAt + POINTER_TTL)
  }

  lemma ArchiveInv(c: Config)
    requires Inv(c) && Live(c.s.warm, c.s.now)
    ensures Inv(Config(Archived(c.s), c.p.(archived := c.p.written, archivedAt := c.s.now)))
  {
    var s' := Archived(c.s);
    assert Pointed(s') == if NamedRow(c.s).Some? then NamedRow(c.s) else Some(|c.s.rows|);
    assert RowAt(s', Pointed(s')) == Some(c.s.warm.value.value);
  }

  lemma StepInv(own: Option<nat>, c: Config, a: Action)
    requires Inv(c)
    ensures Inv(Config(Apply(own, c.s, a), Note(own, c.s, c.p, a)))
  {
    if a.Archive? && Archivable(c.s, a.guest, a.user) {
      ArchiveInv(c);
    }
  }

  lemma {:induction false} RunInv(own: Option<nat>, c: Config, actions: seq<Action>)
    requires Inv(c)
    ensures Inv(Run(own, c, actions))
    decreases |actions|
  {
    if actions != [] {
      RunInv(own, c, actions[..|actions| - 1]);
      StepInv(own, Run(own, c, actions[..|actions| - 1]), actions[|actions| - 1]);
    }
  }

  // ----- what a load returns -----

  /** After any sequence of calls on a session that starts with empty keys: the last written
      state while the hot or the warm copy lives, exactly it while the hot copy lives. */
  lemma {:induction false} LoadsLastWrite(own: Option<nat>, now: int, rows: seq<Option<Snapshot>>, actions: seq<Action>)
    ensures var c := Run(own, Start(now, rows), actions);
      Live(c.s.hot, c.s.now) || Live(c.s.warm, c.s.now) ==>
        && c.p.written.Some? && Same(Loaded(own, c.s), c.p.written.value)
        && (Live(c.s.hot, c.s.now) ==> Loaded(own, c.s) == c.p.written.value)
  {
    RunInv(own, Start(now, rows), actions);
  }

  /** A write stays loadable for a day, unless the warm copy is deleted or the session is
      archived as a guest's. */
  lemma {:induction false} WriteLastsADay(own: Option<nat>, now: int, rows: seq<Option<Snapshot>>, actions: seq<Action>)
    ensures var c := Run(own, Start(now, rows), actions);
      c.p.kept && c.s.now < c.p.writtenAt + WARM_TTL ==>
        c.p.written.Some? && Same(Loaded(own, c.s), c.p.written.value)
  {
    RunInv(own, Start(now, rows), actions);
  }

  /** For 90 days after an archive the session falls back on what was archived. */
  lemma {:induction false} ArchiveLastsNinetyDays(own: Option<nat>, now: int, rows: seq<Option<Snapshot>>,
                                                  actions: seq<Action>)
    ensures var c := Run(own, Start(now, rows), actions);
      c.p.archived.Some? && c.s.now < c.p.archivedAt + POINTER_TTL &&
      !Live(c.s.hot, c.s.now) && !Live(c.s.warm, c.s.now) ==>
        Same(Loaded(own, c.s), c.p.archived.value)
  {
    RunInv(own, Start(now, rows), actions);
  }

  /** The steps that neither write another state nor give the session up. */
  predicate Harmless(a: Action)
  {
    a.Tick? || a.HotDelete? || a.NewRow? || a.Load? || (a.Archive? && !a.guest)
  }

  /** The last write is x up to stamps, and the warm copy has been left alone since. */
  ghost predicate Holds(c: Config, x: Snapshot, since: int)
  {
    && Inv(c) && c.p.kept && since <= c.p.writtenAt
    && c.p.written.Some? && Same(c.p.written.value, x)
  }

  lemma HoldsStep(own: Option<nat>, c: Config, a: Action, x: Snapshot, since: int)
    requires Holds(c, x, since) && Harmless(a) && c.s.now < since + 86400
    ensures Holds(Config(Apply(own, c.s, a), Note(own, c.s, c.p, a)), x, since)
  {
    StepInv(own, c, a);
  }

  /** Time does not go back. */
  lemma {:induction false} HoldsRun(own: Option<nat>, c: Config, actions: seq<Action>, x: Snapshot, since: int)
    requires Holds(c, x, since) && forall i :: 0 <= i < |actions| ==> Harmless(actions[i])
    ensures var d := Run(own, c, actions);
      c.s.now <= d.s.now && (d.s.now < since + 86400 ==> Holds(d, x, since))
    decreases |actions|
  {
    if actions != [] {
      var n := |actions| - 1;
      HoldsRun(own, c, actions[..n], x, since);
      var d := Run(own, c, actions[..n]);
      if Run(own, c, actions).s.now < since + 86400 {
        HoldsStep(own, d, actions[n], x, since);
      }
    }
  }

  /** The same without the history: for a day after a write every load gives what was written,
      whatever loads, promotions, archives, other people's rows and losses of the hot copy
      there are in between. */
  lemma {:induction false} WrittenIsLoaded(own: Option<nat>, c: Config, x: Snapshot, ttl: int, actions: seq<Action>)
    requires Inv(c) && ttl > 0 && forall i :: 0 <= i < |actions| ==> Harmless(actions[i])
    ensures var a := HotSet(x, ttl);
      var d := Run(own, Config(Apply(own, c.s, a), Note(own, c.s, c.p, a)), actions);
      d.s.now < c.s.now + 86400 ==>
        Loaded(own, d.s).body == x.body && (x.updatedAt.Some? ==> Loaded(own, d.s).updatedAt == x.updatedAt)
  {
    var a := HotSet(x, ttl);
    StepInv(own, c, a);
    HoldsRun(own, Config(Apply(own, c.s, a), Note(own, c.s, c.p, a)), actions, x, c.s.now);
  }

  /** Only ticks take time. */
  function Elapsed(actions: seq<Action>): (d: nat)
  {
    if actions == [] then 0
    else
      var a := actions[|actions| - 1];
      Elapsed(actions[..|actions| - 1]) + if a.Tick? then a.d else 0
  }

  /** While the hot copy lives, whatever happens to the rest, short of another write or its own
      deletion, every load gives exactly what was written. */
  lemma {:induction false} HotAnswers(own: Option<nat>, c: Config, x: Snapshot, ttl: int, actions: seq<Action>)
    requires ttl > 0
    requires forall i :: 0 <= i < |actions| ==> !actions[i].HotDelete? && !actions[i].HotSet?
    ensures var a := HotSet(x, ttl);
      var d := Run(own, Config(Apply(own, c.s, a), Note(own, c.s, c.p, a)), actions);
      && d.s.now == c.s.now + Elapsed(actions)
      && (Elapsed(actions) < ttl ==> d.s.hot == Some(Cell(x, c.s.now + ttl)) && Loaded(own, d.s) == x)
  {
    if actions != [] {
      HotAnswers(own, c, x, ttl, actions[..|actions| - 1]);
    }
  }

  /** How long each copy lives, to the second: half an hour for a promoted one, a day for the
      warm one, ninety days for the pointer to the archived row. */
  lemma Lifetimes(own: Option<nat>, s: State, x: Snapshot, ttl: int, d: nat)
    requires ttl > 0
    ensures Live(WriteBoth(s, x, ttl).hot, s.now + d) <==> d < ttl
    ensures Live(WriteBoth(s, x, ttl).warm, s.now + d) <==> d < 86400
    ensures Promotes(own, s, true) ==> (Live(Apply(own, s, Load(true)).hot, s.now + d) <==> d < 1800)
    ensures Live(s.warm, s.now) ==> (Live(Archived(s).pointer, s.now + d) <==> d < 7776000)
  {
  }

  /** When both copies have run out: the archived row while its key lives, the row that
      the session id names if there is none, and a fresh state without either. */
  lemma FallsBackOn(own: Option<nat>, s: State)
    requires !Live(s.hot, s.now) && !Live(s.warm, s.now)
    ensures var pointed := s.pointer.Some? && s.now < s.pointer.value.until
                           && s.pointer.value.value < |s.rows| && s.rows[s.pointer.value.value].Some?;
      && (pointed ==> Some(Loaded(own, s)) == s.rows[s.pointer.value.value])
      && (!pointed && own.Some? && own.value < |s.rows| && s.rows[own.value].Some? ==>
            Some(Loaded(own, s)) == s.rows[own.value])
      && (!pointed && (own.None? || own.value >= |s.rows| || s.rows[own.value].None?) ==>
            Loaded(own, s) == Snapshot("default", None, Some(s.now)))
  {
  }

  // ----- durability -----

  /** Neither a write nor an archive, nor a load that writes. */
  predicate LeavesPast(a: Action)
  {
    a.Tick? || a.HotDelete? || a.WarmDelete? || a.NewRow? || a == Load(false)
  }

  /** A registered user's session that has been archived survives the loss of both Redis copies:
      whatever happens to them within 90 days, as long as nothing is written or archived, a load
      gives what the session held when it was archived. */
  lemma {:induction false} ArchiveIsDurable(own: Option<nat>, c: Config, actions: seq<Action>)
    requires Inv(c) && Live(c.s.warm, c.s.now)
    requires forall i :: 0 <= i < |actions| ==> LeavesPast(actions[i])
    ensures var d := Run(own, Config(Archived(c.s), Note(own, c.s, c.p, Archive(false, true))), actions);
      d.s.now < c.s.now + POINTER_TTL ==> Same(Loaded(own, d.s), c.p.written.value)
  {
    var start := Config(Archived(c.s), Note(own, c.s, c.p, Archive(false, true)));
    StepInv(own, c, Archive(false, true));
    RunInv(own, start, actions);
    PastKept(own, start, actions);
  }

  lemma {:induction false} PastKept(own: Option<nat>, c: Config, actions: seq<Action>)
    requires forall i :: 0 <= i < |actions| ==> LeavesPast(actions[i])
    ensures Run(own, c, actions).p.(kept := c.p.kept) == c.p
    decreases |actions|
  {
    if actions != [] {
      PastKept(own, c, actions[..|actions| - 1]);
    }
  }

  // ----- which row an archive writes -----

  /** An archive updates a row exactly when the warm snapshot names one that exists; otherwise
      it adds a row. */
  lemma RowReusedIff(s: State)
    requires Live(s.warm, s.now)
    ensures |Archived(s).rows| == |s.rows| <==> NamedRow(s).Some?
    ensures |Archived(s).rows| <= |s.rows| + 1
    ensures RowAt(Archived(s), Pointed(Archived(s))) == Some(s.warm.value.value)
    ensures forall id :: 0 <= id < |s.rows| && Some(id) != NamedRow(s) ==> Archived(s).rows[id] == s.rows[id]
  {
  }

  /** The next archive of the same warm copy updates the row of the last one. */
  lemma ArchiveAgainReusesRow(s: State)
    requires Live(s.warm, s.now)
    ensures Live(Archived(s).warm, s.now) && NamedRow(Archived(s)) == Pointed(Archived(s))
    ensures |Archived(Archived(s)).rows| == |Archived(s).rows|
  {
  }

  /** The row is remembered in the warm copy alone, so a write forgets it: with the states of
      the chat runtime, which carry no conversation id, the archive after a write adds a row
      although the pointer still names the old one. */
  lemma WriteForgetsRow(s: State, x: Snapshot, ttl: int)
    requires ttl > 0 && x.conversationId.None?
    ensures var t := WriteBoth(s, x, ttl);
      Pointed(t) == Pointed(s) && |Archived(t).rows| == |s.rows| + 1 && Pointed(Archived(t)) == Some(|s.rows|)
  {
  }

  /** The action archives the session in this state. */
  predicate Succeeds(s: State, a: Action)
  {
    a.Archive? && Archivable(s, a.guest, a.user)
  }

  /** There has been a write since the last archive that succeeded. */
  function Unsaved(own: Option<nat>, c: Config, actions: seq<Action>): (r: bool)
  {
    if actions == [] then false
    else
      var earlier, a := actions[..|actions| - 1], actions[|actions| - 1];
      if a.HotSet? && a.ttl > 0 then true
      else !Succeeds(Run(own, c, earlier).s, a) && Unsaved(own, c, earlier)
  }

  /** The rows that others add, and one for each archive that finds a write since the one before. */
  function RowsAdded(own: Option<nat>, c: Config, actions: seq<Action>): (r: nat)
  {
    if actions == [] then 0
    else
      var earlier, a := actions[..|actions| - 1], actions[|actions| - 1];
      RowsAdded(own, c, earlier) +
      if a.NewRow? || (Succeeds(Run(own, c, earlier).s, a) && Unsaved(own, c, earlier)) then 1 else 0
  }

  ghost predicate NamesItsRow(s: State, unsaved: bool)
  {
    s.warm.Some? ==>
      var id := s.warm.value.value.conversationId;
      if unsaved then id.None? else id.Some? && id.value < |s.rows|
  }

  /** In any run of ticks, writes without a conversation id, deletions, archives, loads and other
      people's rows, the table grows by exactly one row for each archive that follows a write. */
  lemma {:induction false} RowsAreCounted(own: Option<nat>, now: int, rows: seq<Option<Snapshot>>, actions: seq<Action>)
    requires forall i :: 0 <= i < |actions| ==>
      (actions[i].HotSet? ==> actions[i].state.conversationId.None?) && (actions[i].Load? ==> !actions[i].promote)
    ensures var c := Start(now, rows); var s := Run(own, c, actions).s;
      |s.rows| == |rows| + RowsAdded(own, c, actions) && NamesItsRow(s, Unsaved(own, c, actions))
    decreases |actions|
  {
    if actions != [] {
      var earlier, a := actions[..|actions| - 1], actions[|actions| - 1];
      RowsAreCounted(own, now, rows, earlier);
      var s := Run(own, Start(now, rows), earlier).s;
      RowStep(own, s, a, Unsaved(own, Start(now, rows), earlier));
    }
  }

  lemma RowStep(own: Option<nat>, s: State, a: Action, unsaved: bool)
    requires NamesItsRow(s, unsaved)
    requires (a.HotSet? ==> a.state.conversationId.None?) && (a.Load? ==> !a.promote)
    ensures var t := Apply(own, s, a);
      && |t.rows| == |s.rows| + (if a.NewRow? || (Succeeds(s, a) && unsaved) then 1 else 0)
      && NamesItsRow(t, (a.HotSet? && a.ttl > 0) || (!Succeeds(s, a) && unsaved))
  {
  }

  /** The row that the session's copies name, by the history: what the last write carried, or the
      row that an archive has made since. */
  function Carried(own: Option<nat>, c: Config, actions: seq<Action>): (id: Option<nat>)
  {
    if actions == [] then None
    else
      var earlier, a := actions[..|actions| - 1], actions[|actions| - 1];
      var s, before := Run(own, c, earlier).s, Carried(own, c, earlier);
      if a.HotSet? && a.ttl > 0 then a.state.conversationId
      else if a.Load? && Promotes(own, s, a.promote) then Stored(own, s).value.conversationId
      else if Succeeds(s, a) && !Names(before, s) then Some(|s.rows|)
      else before
  }

  predicate Names(id: Option<nat>, s: State)
  {
    id.Some? && id.value < |s.rows|
  }

  /** The rows that others add, and one for each archive of a session that names no row. */
  function RowsMade(own: Option<nat>, c: Config, actions: seq<Action>): (n: nat)
  {
    if actions == [] then 0
    else
      var earlier, a := actions[..|actions| - 1], actions[|actions| - 1];
      var s := Run(own, c, earlier).s;
      RowsMade(own, c, earlier) +
      if a.NewRow? || (Succeeds(s, a) && !Names(Carried(own, c, earlier), s)) then 1 else 0
  }

  predicate WarmCarries(s: State, id: Option<nat>)
  {
    s.warm.Some? ==> s.warm.value.value.conversationId == id
  }

  lemma CarriedStep(own: Option<nat>, s: State, a: Action, id: Option<nat>)
    requires WarmCarries(s, id)
    ensures var t := Apply(own, s, a);
      && |t.rows| == |s.rows| + (if a.NewRow? || (Succeeds(s, a) && !Names(id, s)) then 1 else 0)
      && WarmCarries(t,
           if a.HotSet? && a.ttl > 0 then a.state.conversationId
           else if a.Load? && Promotes(own, s, a.promote) then Stored(own, s).value.conversationId
           else if Succeeds(s, a) && !Names(id, s) then Some(|s.rows|)
           else id)
  {
  }

  /** In any run whatever, promoting loads and writes that carry an id included, the table grows
      by exactly one row for each archive of a session whose history names no row. */
  lemma {:induction false} AllRowsAreCounted(own: Option<nat>, now: int, rows: seq<Option<Snapshot>>,
                                             actions: seq<Action>)
    ensures var c := Start(now, rows); var s := Run(own, c, actions).s;
      |s.rows| == |rows| + RowsMade(own, c, actions) && WarmCarries(s, Carried(own, c, actions))
    decreases |actions|
  {
    if actions != [] {
      var c, earlier := Start(now, rows), actions[..|actions| - 1];
      AllRowsAreCounted(own, now, rows, earlier);
      CarriedStep(own, Run(own, c, earlier).s, actions[|actions| - 1], Carried(own, c, earlier));
    }
  }

  /** A guest's session loses its warm copy when it is archived: once the hot copy runs out,
      half an hour after the write, a load starts over. */
  lemma GuestStartsOver(own: Option<nat>, s: State, x: Snapshot, d: nat)
    requires Pointed(s).None? && RowAt(s, own).None? && d >= HOT_TTL
    requires !Live(s.pointer, s.now + d)
    ensures var t := Apply(own, WriteBoth(s, x, HOT_TTL), Archive(true, false));
      Loaded(own, t) == x && Loaded(own, Apply(own, t, Tick(d))) == Default(s.now + d)
  {
  }

  // ----- the class -----

  class MemoryManager {
    const own: Option<nat>
    var now: int
    var hot: Option<Cell<Snapshot>>
    var warm: Option<Cell<Snapshot>>
    var pointer: Option<Cell<nat>>
    var rows: seq<Option<Snapshot>>

    constructor (own: Option<nat>, now: int, rows: seq<Option<Snapshot>>)
      ensures View() == Start(now, rows).s && this.own == own
    {
      this.own, this.now, this.rows := own, now, rows;
      hot, warm, pointer := None, None, None;
    }

    ghost function View(): (r: State)
      reads this
    {
      State(now, hot, warm, pointer, rows)
    }

    method HotGet() returns (x: Option<Snapshot>)
      ensures x == if Live(hot, now) then Some(hot.value.value) else None
    {
      x := if hot.Some? && now < hot.value.until then Some(hot.value.value) else None;
    }

    method WarmGet() returns (x: Option<Snapshot>)
      ensures x == if Live(warm, now) then Some(warm.value.value) else None
    {
      x := if warm.Some? && now < warm.value.until then Some(warm.value.value) else None;
    }

    /** `ok` is false where Redis raises. */
    method HotSet(state: Snapshot, ttl: int) returns (ok: bool)
      modifies this
      ensures View() == WriteBoth(old(View()), state, ttl) && ok == (ttl > 0)
    {
      if ttl <= 0 {
        return false;
      }
      hot := Some(Cell(state, now + ttl));
      WarmSet(state);
      ok := true;
    }

    method WarmSet(state: Snapshot)
      modifies this
      ensures View() == Rewarmed(old(View()), state)
    {
      var snapshot := if state.updatedAt.None? then state.(updatedAt := Some(0)) else state;
      warm := Some(Cell(snapshot, now + WARM_TTL));
    }

    method HotDelete()
      modifies this
      ensures View() == Apply(own, old(View()), Action.HotDelete)
    {
      hot := None;
    }

    method WarmDelete()
      modifies this
      ensures View() == Apply(own, old(View()), Action.WarmDelete)
    {
      warm := None;
    }

    method ArchiveToCold(guest: bool, user: bool) returns (ok: bool)
      modifies this
      ensures View() == Apply(own, old(View()), Action.Archive(guest, user))
      ensures ok == Archivable(old(View()), guest, user)
    {
      if guest {
        WarmDelete();
        return false;
      }
      var snapshot := WarmGet();
      if snapshot.None? || !user {
        return false;
      }
      var x := snapshot.value;
      var id := x.conversationId;
      if id.Some? && id.value < |rows| {
        rows := rows[id.value := Some(x)];
        pointer := Some(Cell(id.value, now + POINTER_TTL));
      } else {
        var row := |rows|;
        rows := rows + [Some(x)];
        WarmSet(x.(conversationId := Some(row)));
        pointer := Some(Cell(row, now + POINTER_TTL));
      }
      ok := true;
    }

    method ColdGet(id: Option<nat>) returns (x: Option<Snapshot>)
      ensures x == RowAt(View(), id)
    {
      x := if id.Some? && id.value < |rows| then rows[id.value] else None;
    }

    method LoadState(promote: bool) returns (state: Snapshot)
      modifies this
      ensures state == Loaded(own, old(View()))
      ensures View() == Apply(own, old(View()), Action.Load(promote))
    {
      var x := HotGet();
      if x.Some? {
        return x.value;
      }
      x := WarmGet();
      if x.None? {
        var id := if pointer.Some? && now < pointer.value.until then Some(pointer.value.value) else None;
        x := ColdGet(id);
        if x.None? && own != id {
          x := ColdGet(own);
        }
      }
      if x.None? {
        return Snapshot("default", None, Some(now));
      }
      if promote {
        var _ := HotSet(x.value, HOT_TTL);
      }
      state := x.value;
    }
  }
}
