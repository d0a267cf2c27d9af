/** The control flow of the LangGraph planner: graph/graph.py, graph/routers.py and what
    graph/nodes.py, graph/node_impl.py, graph/gathering.py and graph/exceptions.py do to
    `stage`, `next_action`, `loop_count` and `fallback_used`.

    A node execution either completes or raises; in the second case the error wrapper
    rewrites next_action and the turn goes on.  A turn is a sequence of such events. */
module GraphFlow {
  import opened Prelude

  datatype Node =
    | Gathering | ProfileRecall | Retrieve | WeatherCheck | Plan | ToolCall | FactCheck | Hallucination
    | Output | Booking | ApplySingleChange | ReplanLocal | HumanInterrupt | ErrorHandler | End

  datatype Label =
    | ToClarify | ToRespond | ToPlanning | ToRetrieve | ToPlan | ToToolCall | ToFactCheck
    | ToHallucination | ToOutput | ToBooking | ToProfile | ToEnd

  /** The stage texts the flow tests or writes; OtherStage is any other text, or none. */
  datatype Stage =
    | InGathering | DemandParsed | MemoryLoaded | MemoryUpdated | RagDone | Confirmed | Enriching | DraftReady
    | ToolsExecuted | FactCheckDone | FactCheckFailed | AwaitingBooking | SafetyBlocked | Completed
    | OtherStage(text: string)

  datatype NextAction =
    | Clarify | Respond | DoPlan | ConfirmDraft | Enrich | Replan | Retry | Fallback
    | OtherAction(text: string)

  /** registered: a user id that is not "anonymous"; itinerary: the list is not empty. */
  datatype AgentState = AgentState(
    stage: Stage, action: NextAction, loopCount: nat, itinerary: bool, registered: bool, fallbacks: nat)

  // ---------------------------------------------------------------- errors

  datatype Level = RetryLevel | FallbackLevel | EscalateLevel

  predicate Contains(text: string, part: string)
  {
    part <= text || (text != "" && Contains(text[1..], part))
  }

  /** classify_error, on the lower-cased message. */
  function ClassifyError(msg: string): (level: Level)
  {
    if Contains(msg, "timeout") || Contains(msg, "timed out") then RetryLevel
    else if Contains(msg, "refusal") || Contains(msg, "content_filter") then EscalateLevel
    else FallbackLevel
  }

  datatype Failure = Raised(level: Level) | Raw(loweredMessage: string)
  {
    function Severity(): (l: Level) { if Raised? then level else ClassifyError(loweredMessage) }
  }

  /** global_error_handler. */
  function HandleError(st: AgentState, f: Failure): (r: AgentState)
  {
    st.(fallbacks := st.fallbacks + 1,
        action := match f.Severity()
                  case RetryLevel => Retry
                  case FallbackLevel => Fallback
                  case EscalateLevel => Clarify)
  }

  // ---------------------------------------------------------------- nodes

  /** What one execution brings: `intent` is the verdict of the gathering turn; `good` is
      a non-empty itinerary after planning, an itinerary without conflicts, an output that
      passes the safety check, a pending change; `kept` is whether a router's write to the state survives. */
  datatype Event =
    | Completes(intent: NextAction, good: bool, kept: bool)
    | Raises(failure: Failure, kept: bool)

  function PlanBody(st: AgentState, good: bool): (r: AgentState)
  {
    if st.stage.Confirmed? then st.(action := Enrich, stage := Enriching)
    else st.(action := ConfirmDraft, stage := DraftReady, itinerary := good)
  }

  function NodeBody(n: Node, st: AgentState, intent: NextAction, good: bool): (r: AgentState)
  {
    match n
    case Gathering =>
      var action := if intent.Clarify? || intent.Respond? then intent else DoPlan;
      st.(action := action, stage := if action.Clarify? then InGathering else DemandParsed)
    case ProfileRecall =>
      if st.stage.Completed? && st.registered then st.(stage := MemoryUpdated)
      else if st.stage.Completed? || st.stage.MemoryUpdated? then st
      else st.(stage := MemoryLoaded)
    case Retrieve => st.(stage := RagDone)
    case Plan => PlanBody(st, good)
    case ReplanLocal => PlanBody(st, good)
    case ToolCall => st.(stage := ToolsExecuted)
    case FactCheck =>
      if st.itinerary && !good then st.(action := Replan, stage := FactCheckFailed)
      else st.(stage := FactCheckDone)
    case Output =>
      if !good then st.(stage := SafetyBlocked)
      else if st.action.Clarify? then st.(stage := InGathering)
      else st.(stage := if st.itinerary then AwaitingBooking else Completed)
    case Booking => st.(stage := Completed)
    case ApplySingleChange =>
      var changed := st.(stage := OtherStage("change_applied"));
      if good && st.itinerary then changed.(action := OtherAction("fact_check")) else changed
    case HumanInterrupt => st.(stage := OtherStage("awaiting_human"))
    case ErrorHandler => st.(stage := OtherStage("error"))
    case _ => st
  }

  function Execute(n: Node, st: AgentState, e: Event): (r: AgentState)
  {
    match e
    case Completes(intent, good, _) => NodeBody(n, st, intent, good)
    case Raises(failure, _) => HandleError(st, failure)
  }

  // ---------------------------------------------------------------- routers

  const MAX_LOOPS := 3

  function RouteAfterFactcheck(st: AgentState): (r: (Label, AgentState))
  {
    if st.action.Clarify? then (ToOutput, st)
    else if st.action.Replan? && st.loopCount < MAX_LOOPS then (ToPlan, st.(loopCount := st.loopCount + 1))
    else (ToHallucination, st)
  }

  /** The label each router returns, and the state it leaves behind. */
  function Route(n: Node, st: AgentState): (r: (Label, AgentState))
  {
    match n
    case Gathering =>
      (if st.action.Clarify? then ToClarify else if st.action.Respond? then ToRespond else ToPlanning, st)
    case ProfileRecall => (if st.stage.MemoryUpdated? || st.stage.Completed? then ToEnd else ToRetrieve, st)
    case Retrieve => (ToPlan, st)
    case WeatherCheck => (ToPlan, st)
    case Plan => (if st.action.Clarify? || st.action.ConfirmDraft? then ToOutput else ToToolCall, st)
    case ToolCall => (if st.action.Clarify? then ToOutput else ToFactCheck, st)
    case FactCheck => RouteAfterFactcheck(st)
    case Hallucination => (ToOutput, st)
    case Output => (if st.action.Clarify? || st.action.ConfirmDraft? then ToEnd else ToBooking, st)
    case Booking => (ToProfile, st)
    case _ => (ToEnd, st)
  }

  // ---------------------------------------------------------------- the table

  function ConditionalEdges(): (t: map<Node, map<Label, Node>>)
  {
    map[
      Gathering := map[ToClarify := Output, ToRespond := Output, ToPlanning := ProfileRecall],
      ProfileRecall := map[ToRetrieve := Retrieve, ToEnd := End],
      Retrieve := map[ToPlan := WeatherCheck],
      WeatherCheck := map[ToPlan := Plan],
      Plan := map[ToToolCall := ToolCall, ToOutput := Output],
      ToolCall := map[ToFactCheck := FactCheck, ToOutput := Output],
      FactCheck := map[ToPlan := Plan, ToHallucination := Hallucination, ToOutput := Output],
      Hallucination := map[ToOutput := Output],
      Output := map[ToBooking := Booking, ToEnd := End],
      Booking := map[ToProfile := ProfileRecall]
    ]
  }

  function DirectEdges(): (t: map<Node, Node>)
  {
    map[ApplySingleChange := FactCheck, ReplanLocal := Plan, HumanInterrupt := End, ErrorHandler := End]
  }

  /** The builder object that build_graph fills call by call. */
  class StateGraph {
    var nodes: set<Node>
    var entry: Option<Node>
    var conditional: map<Node, map<Label, Node>>
    var direct: map<Node, Node>

    constructor ()
      ensures nodes == {} && entry.None? && conditional == map[] && direct == map[]
    {
      nodes, entry, conditional, direct := {}, None, map[], map[];
    }

    /** build_graph. */
    method Build()
      modifies this
      ensures entry == Some(Gathering) && conditional == ConditionalEdges() && direct == DirectEdges()
      ensures forall n: Node :: n in nodes <==> n in ConditionalEdges() || n in DirectEdges()
    {
      nodes := {Gathering, ProfileRecall, Retrieve, WeatherCheck, Plan, ToolCall, FactCheck, Hallucination,
                Output, Booking, ApplySingleChange, ReplanLocal, HumanInterrupt, ErrorHandler};
      entry := Some(Gathering);
      conditional, direct := map[], map[];
      conditional := conditional[Gathering :=
        map[ToClarify := Output, ToRespond := Output, ToPlanning := ProfileRecall]];
      conditional := conditional[ProfileRecall := map[ToRetrieve := Retrieve, ToEnd := End]];
      conditional := conditional[Retrieve := map[ToPlan := WeatherCheck]];
      conditional := conditional[WeatherCheck := map[ToPlan := Plan]];
      conditional := conditional[Plan := map[ToToolCall := ToolCall, ToOutput := Output]];
      conditional := conditional[ToolCall := map[ToFactCheck := FactCheck, ToOutput := Output]];
      conditional := conditional[FactCheck :=
        map[ToPlan := Plan, ToHallucination := Hallucination, ToOutput := Output]];
      conditional := conditional[Hallucination := map[ToOutput := Output]];
      conditional := conditional[Output := map[ToBooking := Booking, ToEnd := End]];
      conditional := conditional[Booking := map[ToProfile := ProfileRecall]];
      direct := direct[ApplySingleChange := FactCheck];
      direct := direct[ReplanLocal := Plan];
      direct := direct[HumanInterrupt := End];
      direct := direct[ErrorHandler := End];
    }
  }

  /** No router returns a label its node has no edge for. */
  lemma RoutersMatchTable(n: Node, st: AgentState)
    requires n in ConditionalEdges()
    ensures Route(n, st).0 in ConditionalEdges()[n]
  {
  }

  /** The first router names what the user wants, although two of its labels lead to one node. */
  lemma GatheringLabels(st: AgentState)
    ensures Route(Gathering, st).0.ToClarify? <==> st.action == Clarify
    ensures Route(Gathering, st).0.ToRespond? <==> st.action == Respond
  {
  }

  function Next(n: Node, st: AgentState): (m: Node)
  {
    if n in ConditionalEdges() then
      RoutersMatchTable(n, st);
      ConditionalEdges()[n][Route(n, st).0]
    else if n in DirectEdges() then DirectEdges()[n]
    else End
  }

  // ---------------------------------------------------------------- turns

  datatype Config = Config(node: Node, st: AgentState)

  function Step(c: Config, e: Event): (r: Config)
  {
    if c.node.End? then c
    else
      var st := Execute(c.node, c.st, e);
      Config(Next(c.node, st), if e.kept then Route(c.node, st).1 else st)
  }

  function Run(c: Config, es: seq<Event>): (r: Config)
    decreases |es|
  {
    if es == [] then c else Run(Step(c, es[0]), es[1..])
  }

  /** How many nodes the turn executes before END. */
  function Executed(c: Config, es: seq<Event>): (n: nat)
    decreases |es|
  {
    if es == [] || c.node.End? then 0 else 1 + Executed(Step(c, es[0]), es[1..])
  }

  /** How many of those executions raised. */
  function Failures(c: Config, es: seq<Event>): (n: nat)
    decreases |es|
  {
    if es == [] || c.node.End? then 0
    else (if es[0].Raises? then 1 else 0) + Failures(Step(c, es[0]), es[1..])
  }

  /** The nodes a turn started by the entry point can be in. */
  predicate Live(n: Node)
  {
    !n.ApplySingleChange? && !n.ReplanLocal? && !n.HumanInterrupt? && !n.ErrorHandler?
  }

  // ---------------------------------------------------------------- termination

  /** Twice the work left, at 9 half-executions a failure. */
  function Rank(c: Config): (r: nat)
  {
    match c.node
    case Gathering => 13
    case ProfileRecall => if c.st.stage.Completed? || c.st.stage.MemoryUpdated? then 2 else 11
    case Retrieve => 9
    case WeatherCheck => if c.st.stage.Confirmed? then 16 else 7
    case Plan => if c.st.stage.Confirmed? then 14 else 5
    case ToolCall => if c.st.action.Clarify? then 4 else 12
    case FactCheck => 10
    case Hallucination => if c.st.action.Clarify? || c.st.action.ConfirmDraft? then 4 else 8
    case Output => if c.st.action.Clarify? || c.st.action.ConfirmDraft? then 2 else 6
    case Booking => 4
    case _ => 0
  }

  /** Each execution lowers the measure, a raising one after its failure is paid for; no
      use is made of loop_count. */
  lemma RankFalls(c: Config, e: Event)
    requires Live(c.node) && !c.node.End?
    ensures var r := Step(c, e);
            Live(r.node) && Rank(r) + 2 <= Rank(c) + (if e.Raises? then 9 else 0)
  {
  }

  lemma {:induction false} WorkIsBounded(c: Config, es: seq<Event>)
    requires Live(c.node)
    ensures Live(Run(c, es).node)
    ensures 2 * Executed(c, es) + Rank(Run(c, es)) <= Rank(c) + 9 * Failures(c, es)
    ensures !Run(c, es).node.End? ==> Executed(c, es) == |es|
    decreases |es|
  {
    if es != [] && !c.node.End? {
      RankFalls(c, es[0]);
      WorkIsBounded(Step(c, es[0]), es[1..]);
    } else if es != [] {
      WorkIsBounded(Step(c, es[0]), es[1..]);
    }
  }

  /** The most node executions a turn with f failures can have. */
  function Bound(f: nat): (b: nat)
  {
    6 + (9 * f + 1) / 2
  }

  /** Every turn ends.  From any state the entry point may find, with the routers' writes
      kept or lost, a turn executes at most 6 + ceil(9 f / 2) nodes when f of them raise,
      and any longer supply of events sees it at END. */
  lemma {:induction false} TurnTerminates(st: AgentState, es: seq<Event>)
    ensures var c := Config(Gathering, st); var f := Failures(c, es);
            Executed(c, es) <= Bound(f) && (|es| > Bound(f) ==> Run(c, es).node.End?)
  {
    WorkIsBounded(Config(Gathering, st), es);
  }

  // ---------------------------------------------------------------- the bound is reached

  /** A node that does what it should; an output node that finds the text unsafe; a node that
      raises at the fallback level. */
  const FINE := Completes(DoPlan, true, true)
  const UNSAFE := Completes(DoPlan, false, true)
  const BROKEN := Raises(Raised(FallbackLevel), true)

  /** From profile_recall on: a failing plan node lets the turn run through to booking,
      and a failing booking node sends it round again. */
  function WorstFromProfile(rounds: nat, odd: bool): (es: seq<Event>)
  {
    if rounds > 0 then
      [FINE, FINE, FINE, BROKEN, FINE, FINE, FINE, UNSAFE, BROKEN] + WorstFromProfile(rounds - 1, odd)
    else if odd then [FINE, FINE, FINE, BROKEN, FINE, FINE, FINE, UNSAFE, FINE, FINE]
    else [FINE, FINE, FINE, FINE, FINE]
  }

  lemma {:induction false} Unfold(c: Config, es: seq<Event>, i: nat)
    requires i < |es| && !c.node.End?
    ensures var d := Step(c, es[i]);
            && Run(c, es[i..]) == Run(d, es[i + 1..])
            && Executed(c, es[i..]) == 1 + Executed(d, es[i + 1..])
            && Failures(c, es[i..]) == (if es[i].Raises? then 1 else 0) + Failures(d, es[i + 1..])
  {
    assert es[i..][1..] == es[i + 1..];
  }

  /** The first three nodes after profile_recall's entry: retrieve, weather_check, plan. */
  lemma {:induction false} ThreeFine(c: Config, es: seq<Event>)
    requires c.node.ProfileRecall? && !c.st.stage.Completed? && !c.st.stage.MemoryUpdated?
    requires |es| >= 3 && es[0] == FINE && es[1] == FINE && es[2] == FINE
    ensures var d := Config(Plan, c.st.(stage := RagDone));
            && Run(c, es) == Run(d, es[3..])
            && Executed(c, es) == 3 + Executed(d, es[3..])
            && Failures(c, es) == Failures(d, es[3..])
  {
    assert es == es[0..];
    var c1 := Step(c, es[0]);
    assert c1 == Config(Retrieve, c.st.(stage := MemoryLoaded));
    var c2 := Step(c1, es[1]);
    assert c2 == Config(WeatherCheck, c.st.(stage := RagDone));
    Unfold(c, es, 0);
    Unfold(c1, es, 1);
    Unfold(c2, es, 2);
  }

  /** ... and then a failing plan node: tool_call, factcheck. */
  lemma FailingPlan(c: Config, es: seq<Event>) returns (d: Config)
    requires c.node.Plan? && c.st.stage == RagDone
    requires |es| >= 3 && es[0] == BROKEN && es[1] == FINE && es[2] == FINE
    ensures d.node.Hallucination? && d.st.action.Fallback? && d.st.stage.FactCheckDone?
    ensures Run(c, es) == Run(d, es[3..])
    ensures Executed(c, es) == 3 + Executed(d, es[3..])
    ensures Failures(c, es) == 1 + Failures(d, es[3..])
  {
    assert es == es[0..];
    var c1 := Step(c, es[0]);
    assert c1 == Config(ToolCall, c.st.(action := Fallback, fallbacks := c.st.fallbacks + 1));
    var c2 := Step(c1, es[1]);
    assert c2 == Config(FactCheck, c1.st.(stage := ToolsExecuted));
    Unfold(c, es, 0);
    Unfold(c1, es, 1);
    Unfold(c2, es, 2);
    d := Step(c2, es[2]);
  }

  /** ... hallucination, output. */
  lemma UnsafeOutput(c: Config, es: seq<Event>) returns (b: Config)
    requires c.node.Hallucination? && c.st.action.Fallback?
    requires |es| >= 2 && es[0] == FINE && es[1] == UNSAFE
    ensures b.node.Booking? && b.st.stage.SafetyBlocked?
    ensures Run(c, es) == Run(b, es[2..])
    ensures Executed(c, es) == 2 + Executed(b, es[2..])
    ensures Failures(c, es) == Failures(b, es[2..])
  {
    assert es == es[0..];
    var c1 := Step(c, es[0]);
    Unfold(c, es, 0);
    Unfold(c1, es, 1);
    b := Step(c1, es[1]);
  }

  lemma {:induction false} DraftEnds(c: Config, es: seq<Event>)
    requires c.node.Plan? && c.st.stage == RagDone && |es| == 2 && es[0] == FINE && es[1] == FINE
    ensures Run(c, es).node.End? && Executed(c, es) == 2 && Failures(c, es) == 0
  {
    assert es == es[0..];
    Unfold(c, es, 0);
    Unfold(Step(c, es[0]), es, 1);
  }

  lemma {:induction false} BookingEnds(c: Config, es: seq<Event>)
    requires c.node.Booking? && |es| == 2 && es[0] == FINE && es[1] == FINE
    ensures Run(c, es).node.End? && Executed(c, es) == 2 && Failures(c, es) == 0
  {
    assert es == es[0..];
    Unfold(c, es, 0);
    Unfold(Step(c, es[0]), es, 1);
  }

  /** From profile_recall to booking at the price of one failure. */
  lemma ToBookingLeg(c: Config, es: seq<Event>) returns (b: Config)
    requires c.node.ProfileRecall? && !c.st.stage.Completed? && !c.st.stage.MemoryUpdated?
    requires |es| >= 8 && es[..8] == [FINE, FINE, FINE, BROKEN, FINE, FINE, FINE, UNSAFE]
    ensures b.node.Booking? && b.st.stage.SafetyBlocked?
    ensures Run(c, es) == Run(b, es[8..])
    ensures Executed(c, es) == 8 + Executed(b, es[8..])
    ensures Failures(c, es) == 1 + Failures(b, es[8..])
  {
    assert forall i :: 0 <= i < 8 ==> es[i] == es[..8][i];
    ThreeFine(c, es);
    var d := FailingPlan(Config(Plan, c.st.(stage := RagDone)), es[3..]);
    assert es[3..][3..] == es[6..] && es[6..][2..] == es[8..];
    b := UnsafeOutput(d, es[6..]);
  }

  lemma BookingFails(b: Config, es: seq<Event>) returns (c: Config)
    requires b.node.Booking? && b.st.stage.SafetyBlocked? && es != [] && es[0] == BROKEN
    ensures c.node.ProfileRecall? && c.st.stage.SafetyBlocked?
    ensures Run(b, es) == Run(c, es[1..])
    ensures Executed(b, es) == 1 + Executed(c, es[1..])
    ensures Failures(b, es) == 1 + Failures(c, es[1..])
  {
    assert es == es[0..];
    Unfold(b, es, 0);
    c := Step(b, es[0]);
  }

  /** One full round: nine executions, two failures, back at profile_recall. */
  lemma WorstRound(c: Config, es: seq<Event>) returns (d: Config)
    requires c.node.ProfileRecall? && !c.st.stage.Completed? && !c.st.stage.MemoryUpdated?
    requires |es| >= 9 && es[..9] == [FINE, FINE, FINE, BROKEN, FINE, FINE, FINE, UNSAFE, BROKEN]
    ensures d.node.ProfileRecall? && d.st.stage.SafetyBlocked?
    ensures Run(c, es) == Run(d, es[9..])
    ensures Executed(c, es) == 9 + Executed(d, es[9..])
    ensures Failures(c, es) == 2 + Failures(d, es[9..])
  {
    assert es[..8] == es[..9][..8];
    var b := ToBookingLeg(c, es);
    assert es[8] == es[..9][8] && es[8..][1..] == es[9..];
    d := BookingFails(b, es[8..]);
  }

  lemma {:induction false} WorstEnd(c: Config, odd: bool)
    requires c.node.ProfileRecall? && !c.st.stage.Completed? && !c.st.stage.MemoryUpdated?
    ensures var es := WorstFromProfile(0, odd); var f := if odd then 1 else 0;
            Run(c, es).node.End? && Executed(c, es) == 5 + 5 * f && Failures(c, es) == f
  {
    var es := WorstFromProfile(0, odd);
    if odd {
      assert es[..8] == [FINE, FINE, FINE, BROKEN, FINE, FINE, FINE, UNSAFE];
      var b := ToBookingLeg(c, es);
      BookingEnds(b, es[8..]);
    } else {
      ThreeFine(c, es);
      DraftEnds(Config(Plan, c.st.(stage := RagDone)), es[3..]);
    }
  }

  lemma {:induction false} WorstFromProfileRuns(c: Config, rounds: nat, odd: bool)
    requires c.node.ProfileRecall? && !c.st.stage.Completed? && !c.st.stage.MemoryUpdated?
    ensures var es := WorstFromProfile(rounds, odd); var f := if odd then 1 else 0;
            && Run(c, es).node.End?
            && Executed(c, es) == 9 * rounds + 5 + 5 * f && Failures(c, es) == 2 * rounds + f
    decreases rounds
  {
    if rounds == 0 {
      WorstEnd(c, odd);
    } else {
      var es := WorstFromProfile(rounds, odd);
      assert es[..9] == [FINE, FINE, FINE, BROKEN, FINE, FINE, FINE, UNSAFE, BROKEN];
      assert es[9..] == WorstFromProfile(rounds - 1, odd);
      var d := WorstRound(c, es);
      WorstFromProfileRuns(d, rounds - 1, odd);
    }
  }

  /** The bound is the best possible: for every number f of failures and every start
      state some turn with f failures executes exactly Bound(f) nodes. */
  lemma {:induction false} BoundIsReached(st: AgentState, f: nat)
    ensures var c := Config(Gathering, st); var es := [FINE] + WorstFromProfile(f / 2, f % 2 == 1);
            Run(c, es).node.End? && Executed(c, es) == Bound(f) && Failures(c, es) == f
  {
    var c := Config(Gathering, st);
    var worst := WorstFromProfile(f / 2, f % 2 == 1);
    var es := [FINE] + worst;
    assert es == es[0..] && es[1..] == worst;
    Unfold(c, es, 0);
    WorstFromProfileRuns(Step(c, FINE), f / 2, f % 2 == 1);
  }

  // ---------------------------------------------------------------- what a turn does

  /** The nodes a turn executes, in order. */
  function Path(c: Config, es: seq<Event>): (ns: seq<Node>)
    decreases |es|
  {
    if es == [] || c.node.End? then [] else [c.node] + Path(Step(c, es[0]), es[1..])
  }

  /** The stage each of those nodes leaves behind. */
  function Stages(c: Config, es: seq<Event>): (ss: seq<Stage>)
    decreases |es|
  {
    if es == [] || c.node.End? then [] else [Step(c, es[0]).st.stage] + Stages(Step(c, es[0]), es[1..])
  }

  /** A turn visits these nodes, leaves these stages and ends in this state. */
  ghost predicate Takes(c: Config, es: seq<Event>, path: seq<Node>, stages: seq<Stage>, last: AgentState)
  {
    Path(c, es) == path && Stages(c, es) == stages && Run(c, es) == Config(End, last)
  }

  lemma TakesNothing(c: Config, es: seq<Event>)
    requires c.node.End?
    ensures Takes(c, es, [], [], c.st)
  {
    EndStays(c, es);
  }

  /** One more node in front, if nothing fails. */
  lemma TakesOne(c: Config, es: seq<Event>, path: seq<Node>, stages: seq<Stage>, last: AgentState)
    requires es != [] && !c.node.End? && Takes(Step(c, es[0]), es[1..], path, stages, last)
    ensures Takes(c, es, [c.node] + path, [Step(c, es[0]).st.stage] + stages, last)
  {
  }

  lemma {:induction false} FailsNot(c: Config, es: seq<Event>)
    requires es != [] && Failures(c, es) == 0 && !c.node.End?
    ensures es[0].Completes? && Failures(Step(c, es[0]), es[1..]) == 0
  {
  }

  /** The stage in which the output node leaves a text that goes out. */
  function ShownStage(safe: bool, stage: Stage): (r: Stage)
  {
    if safe then stage else SafetyBlocked
  }

  function Remembered(st: AgentState): (r: Stage)
  {
    if st.registered then MemoryUpdated else Completed
  }

  /** A text for the user that asks something or shows a draft ends the turn. */
  lemma {:induction false} OutputEnds(c: Config, es: seq<Event>)
    requires c.node.Output? && (c.st.action.Clarify? || c.st.action.ConfirmDraft?)
    requires |es| >= 1 && Failures(c, es) == 0
    ensures es[0].Completes?
    ensures var s := ShownStage(es[0].good, if c.st.action.Clarify? then InGathering
                                            else if c.st.itinerary then AwaitingBooking else Completed);
            Takes(c, es, [Output], [s], c.st.(stage := s))
  {
    FailsNot(c, es);
    var d := Step(c, es[0]);
    TakesNothing(d, es[1..]);
    TakesOne(c, es, [], [], d.st);
  }

  lemma {:induction false} BookingPath(c: Config, es: seq<Event>)
    requires c.node.Booking? && |es| >= 2 && Failures(c, es) == 0
    ensures Takes(c, es, [Booking, ProfileRecall], [Completed, Remembered(c.st)], c.st.(stage := Remembered(c.st)))
  {
    FailsNot(c, es);
    var c1 := Step(c, es[0]);
    FailsNot(c1, es[1..]);
    var c2 := Step(c1, es[1]);
    TakesNothing(c2, es[1..][1..]);
    TakesOne(c1, es[1..], [], [], c2.st);
    TakesOne(c, es, [ProfileRecall], [c2.st.stage], c2.st);
  }

  /** Any other text is followed by booking and by the note of the finished turn. */
  lemma {:induction false} OutputBooks(c: Config, es: seq<Event>)
    requires c.node.Output? && !c.st.action.Clarify? && !c.st.action.ConfirmDraft?
    requires |es| >= 3 && Failures(c, es) == 0
    ensures es[0].Completes?
    ensures var s := ShownStage(es[0].good, if c.st.itinerary then AwaitingBooking else Completed);
            Takes(c, es, [Output, Booking, ProfileRecall], [s, Completed, Remembered(c.st)],
                  c.st.(stage := Remembered(c.st)))
  {
    FailsNot(c, es);
    var s := ShownStage(es[0].good, if c.st.itinerary then AwaitingBooking else Completed);
    BookingPath(Step(c, es[0]), es[1..]);
    TakesOne(c, es, [Booking, ProfileRecall], [Completed, Remembered(c.st)], c.st.(stage := Remembered(c.st)));
  }

  lemma {:induction false} DraftPath(c: Config, es: seq<Event>)
    requires c.node.Plan? && !c.st.stage.Confirmed? && |es| >= 2 && Failures(c, es) == 0
    ensures es[0].Completes? && es[1].Completes?
    ensures var s := ShownStage(es[1].good, if es[0].good then AwaitingBooking else Completed);
            Takes(c, es, [Plan, Output], [DraftReady, s],
                  c.st.(stage := s, action := ConfirmDraft, itinerary := es[0].good))
  {
    FailsNot(c, es);
    OutputEnds(Step(c, es[0]), es[1..]);
    var s := ShownStage(es[1].good, if es[0].good then AwaitingBooking else Completed);
    TakesOne(c, es, [Output], [s], c.st.(stage := s, action := ConfirmDraft, itinerary := es[0].good));
  }

  lemma {:induction false} WeatherPath(c: Config, es: seq<Event>)
    requires c.node.WeatherCheck? && !c.st.stage.Confirmed? && |es| >= 3 && Failures(c, es) == 0
    ensures es[1].Completes? && es[2].Completes?
    ensures var s := ShownStage(es[2].good, if es[1].good then AwaitingBooking else Completed);
            Takes(c, es, [WeatherCheck, Plan, Output], [c.st.stage, DraftReady, s],
                  c.st.(stage := s, action := ConfirmDraft, itinerary := es[1].good))
  {
    FailsNot(c, es);
    DraftPath(Step(c, es[0]), es[1..]);
    var s := ShownStage(es[2].good, if es[1].good then AwaitingBooking else Completed);
    TakesOne(c, es, [Plan, Output], [DraftReady, s],
             c.st.(stage := s, action := ConfirmDraft, itinerary := es[1].good));
  }

  lemma {:induction false} RetrievePath(c: Config, es: seq<Event>)
    requires c.node.Retrieve? && |es| >= 4 && Failures(c, es) == 0
    ensures es[2].Completes? && es[3].Completes?
    ensures var s := ShownStage(es[3].good, if es[2].good then AwaitingBooking else Completed);
            Takes(c, es, [Retrieve, WeatherCheck, Plan, Output], [RagDone, RagDone, DraftReady, s],
                  c.st.(stage := s, action := ConfirmDraft, itinerary := es[2].good))
  {
    FailsNot(c, es);
    WeatherPath(Step(c, es[0]), es[1..]);
    var s := ShownStage(es[3].good, if es[2].good then AwaitingBooking else Completed);
    TakesOne(c, es, [WeatherCheck, Plan, Output], [RagDone, DraftReady, s],
             c.st.(stage := s, action := ConfirmDraft, itinerary := es[2].good));
  }

  lemma {:induction false} PlanningPath(c: Config, es: seq<Event>)
    requires c.node.ProfileRecall? && c.st.stage.DemandParsed? && |es| >= 5 && Failures(c, es) == 0
    ensures es[0].Completes? && es[3].Completes? && es[4].Completes?
    ensures var s := ShownStage(es[4].good, if es[3].good then AwaitingBooking else Completed);
            Takes(c, es, [ProfileRecall, Retrieve, WeatherCheck, Plan, Output],
                  [MemoryLoaded, RagDone, RagDone, DraftReady, s],
                  c.st.(stage := s, action := ConfirmDraft, itinerary := es[3].good))
  {
    FailsNot(c, es);
    RetrievePath(Step(c, es[0]), es[1..]);
    var s := ShownStage(es[4].good, if es[3].good then AwaitingBooking else Completed);
    TakesOne(c, es, [Retrieve, WeatherCheck, Plan, Output], [RagDone, RagDone, DraftReady, s],
             c.st.(stage := s, action := ConfirmDraft, itinerary := es[3].good));
  }

  lemma {:induction false} AskingTurn(st: AgentState, es: seq<Event>)
    requires |es| >= 2 && Failures(Config(Gathering, st), es) == 0 && es[0].Completes? && es[0].intent.Clarify?
    ensures es[1].Completes?
    ensures var s := if es[1].good then InGathering else SafetyBlocked;
            Takes(Config(Gathering, st), es, [Gathering, Output], [InGathering, s],
                  st.(stage := s, action := Clarify))
  {
    var c := Config(Gathering, st);
    FailsNot(c, es);
    OutputEnds(Step(c, es[0]), es[1..]);
    var s := if es[1].good then InGathering else SafetyBlocked;
    TakesOne(c, es, [Output], [s], st.(stage := s, action := Clarify));
  }

  lemma {:induction false} AnsweringTurn(st: AgentState, es: seq<Event>)
    requires |es| >= 4 && Failures(Config(Gathering, st), es) == 0 && es[0].Completes? && es[0].intent.Respond?
    ensures es[1].Completes?
    ensures var s := if !es[1].good then SafetyBlocked else if st.itinerary then AwaitingBooking else Completed;
            var m := if st.registered then MemoryUpdated else Completed;
            Takes(Config(Gathering, st), es, [Gathering, Output, Booking, ProfileRecall],
                  [DemandParsed, s, Completed, m], st.(stage := m, action := Respond))
  {
    var c := Config(Gathering, st);
    FailsNot(c, es);
    OutputBooks(Step(c, es[0]), es[1..]);
    var s := if !es[1].good then SafetyBlocked else if st.itinerary then AwaitingBooking else Completed;
    var m := if st.registered then MemoryUpdated else Completed;
    TakesOne(c, es, [Output, Booking, ProfileRecall], [s, Completed, m], st.(stage := m, action := Respond));
  }

  lemma {:induction false} PlanningTurn(st: AgentState, es: seq<Event>)
    requires |es| >= 6 && Failures(Config(Gathering, st), es) == 0
    requires es[0].Completes? && !es[0].intent.Clarify? && !es[0].intent.Respond?
    ensures es[1].Completes? && es[4].Completes? && es[5].Completes?
    ensures var s := if !es[5].good then SafetyBlocked else if es[4].good then AwaitingBooking else Completed;
            Takes(Config(Gathering, st), es, [Gathering, ProfileRecall, Retrieve, WeatherCheck, Plan, Output],
                  [DemandParsed, MemoryLoaded, RagDone, RagDone, DraftReady, s],
                  st.(stage := s, action := ConfirmDraft, itinerary := es[4].good))
  {
    var c := Config(Gathering, st);
    FailsNot(c, es);
    var d := Config(ProfileRecall, st.(stage := DemandParsed, action := DoPlan));
    assert Step(c, es[0]) == d;
    PlanningPath(d, es[1..]);
    var s := ShownStage(es[5].good, if es[4].good then AwaitingBooking else Completed);
    TakesOne(c, es, [ProfileRecall, Retrieve, WeatherCheck, Plan, Output],
             [MemoryLoaded, RagDone, RagDone, DraftReady, s],
             st.(stage := s, action := ConfirmDraft, itinerary := es[4].good));
  }

  /** A turn in which nothing fails takes one of three paths, chosen by the gathering
      turn alone: ask, answer, or plan and show the draft.  It never calls a tool, never
      checks a fact, and books only after an answer.  It ends waiting for an answer, with the
      turn noted, or waiting for the user to book the draft if there is one; a text that is not
      safe takes the place of the first and the last. */
  lemma {:induction false} FailureFreeTurn(st: AgentState, es: seq<Event>)
    requires |es| >= 6 && Failures(Config(Gathering, st), es) == 0
    ensures es[0].Completes? && es[1].Completes?
    ensures var c := Config(Gathering, st);
            match es[0].intent
            case Clarify =>
              var s := if es[1].good then InGathering else SafetyBlocked;
              Takes(c, es, [Gathering, Output], [InGathering, s], st.(stage := s, action := Clarify))
            case Respond =>
              var s := if !es[1].good then SafetyBlocked else if st.itinerary then AwaitingBooking else Completed;
              var m := if st.registered then MemoryUpdated else Completed;
              Takes(c, es, [Gathering, Output, Booking, ProfileRecall], [DemandParsed, s, Completed, m],
                    st.(stage := m, action := Respond))
            case _ =>
              && es[4].Completes? && es[5].Completes?
              && var s := if !es[5].good then SafetyBlocked else if es[4].good then AwaitingBooking else Completed;
                 Takes(c, es, [Gathering, ProfileRecall, Retrieve, WeatherCheck, Plan, Output],
                       [DemandParsed, MemoryLoaded, RagDone, RagDone, DraftReady, s],
                       st.(stage := s, action := ConfirmDraft, itinerary := es[4].good))
  {
    FailsNot(Config(Gathering, st), es);
    match es[0].intent {
      case Clarify => AskingTurn(st, es);
      case Respond => AnsweringTurn(st, es);
      case _ => PlanningTurn(st, es);
    }
  }

  // ----- the paths that a failure, or a change, opens -----

  /** From the hallucination check on, for a text that is no question and no draft. */
  lemma {:induction false} HallucinationPath(c: Config, es: seq<Event>)
    requires c.node.Hallucination? && !c.st.action.Clarify? && !c.st.action.ConfirmDraft?
    requires |es| >= 4 && Failures(c, es) == 0
    ensures es[1].Completes?
    ensures var s := ShownStage(es[1].good, if c.st.itinerary then AwaitingBooking else Completed);
            Takes(c, es, [Hallucination, Output, Booking, ProfileRecall],
                  [c.st.stage, s, Completed, Remembered(c.st)], c.st.(stage := Remembered(c.st)))
  {
    FailsNot(c, es);
    OutputBooks(Step(c, es[0]), es[1..]);
    var s := ShownStage(es[1].good, if c.st.itinerary then AwaitingBooking else Completed);
    TakesOne(c, es, [Output, Booking, ProfileRecall], [s, Completed, Remembered(c.st)],
             c.st.(stage := Remembered(c.st)));
  }

  /** A check that finds nothing leads on to the hallucination check and to booking. */
  lemma {:induction false} CheckedPath(c: Config, es: seq<Event>)
    requires c.node.FactCheck? && !c.st.action.Clarify? && !c.st.action.Replan? && !c.st.action.ConfirmDraft?
    requires |es| >= 5 && Failures(c, es) == 0 && (c.st.itinerary ==> es[0].Completes? && es[0].good)
    ensures es[2].Completes?
    ensures var s := ShownStage(es[2].good, if c.st.itinerary then AwaitingBooking else Completed);
            Takes(c, es, [FactCheck, Hallucination, Output, Booking, ProfileRecall],
                  [FactCheckDone, FactCheckDone, s, Completed, Remembered(c.st)], c.st.(stage := Remembered(c.st)))
  {
    FailsNot(c, es);
    HallucinationPath(Step(c, es[0]), es[1..]);
    var s := ShownStage(es[2].good, if c.st.itinerary then AwaitingBooking else Completed);
    TakesOne(c, es, [Hallucination, Output, Booking, ProfileRecall],
             [FactCheckDone, s, Completed, Remembered(c.st)], c.st.(stage := Remembered(c.st)));
  }

  /** A conflict sends an itinerary back to plan while there are replans left, and the new plan
      is shown as a draft ... */
  lemma {:induction false} ReplanPath(c: Config, es: seq<Event>)
    requires c.node.FactCheck? && c.st.itinerary && c.st.loopCount < 3
    requires |es| >= 3 && Failures(c, es) == 0 && es[0].Completes? && !es[0].good && es[0].kept
    ensures es[1].Completes? && es[2].Completes?
    ensures var s := ShownStage(es[2].good, if es[1].good then AwaitingBooking else Completed);
            Takes(c, es, [FactCheck, Plan, Output], [FactCheckFailed, DraftReady, s],
                  c.st.(stage := s, action := ConfirmDraft, itinerary := es[1].good,
                        loopCount := c.st.loopCount + 1))
  {
    FailsNot(c, es);
    DraftPath(Step(c, es[0]), es[1..]);
    var s := ShownStage(es[2].good, if es[1].good then AwaitingBooking else Completed);
    TakesOne(c, es, [Plan, Output], [DraftReady, s],
             c.st.(stage := s, action := ConfirmDraft, itinerary := es[1].good, loopCount := c.st.loopCount + 1));
  }

  /** ... and without one it goes out as it is. */
  lemma {:induction false} ConflictPath(c: Config, es: seq<Event>)
    requires c.node.FactCheck? && c.st.itinerary && c.st.loopCount >= 3
    requires |es| >= 5 && Failures(c, es) == 0 && es[0].Completes? && !es[0].good
    ensures es[2].Completes?
    ensures Takes(c, es, [FactCheck, Hallucination, Output, Booking, ProfileRecall],
                  [FactCheckFailed, FactCheckFailed, ShownStage(es[2].good, AwaitingBooking), Completed,
                   Remembered(c.st)],
                  c.st.(stage := Remembered(c.st), action := Replan))
  {
    FailsNot(c, es);
    HallucinationPath(Step(c, es[0]), es[1..]);
    TakesOne(c, es, [Hallucination, Output, Booking, ProfileRecall],
             [FactCheckFailed, ShownStage(es[2].good, AwaitingBooking), Completed, Remembered(c.st)],
             c.st.(stage := Remembered(c.st), action := Replan));
  }

  /** The confirmed plan is enriched and the tools are called; what the check then finds decides
      which of the three ways above the turn takes. */
  lemma EnrichmentPath(c: Config, es: seq<Event>, path: seq<Node>, stages: seq<Stage>, last: AgentState)
    requires c.node.Plan? && c.st.stage.Confirmed? && |es| >= 2 && es[0].Completes? && es[1].Completes?
    requires Takes(Config(FactCheck, c.st.(stage := ToolsExecuted, action := Enrich)), es[2..], path, stages, last)
    ensures Takes(c, es, [Plan, ToolCall] + path, [Enriching, ToolsExecuted] + stages, last)
  {
    var c1 := Config(ToolCall, c.st.(stage := Enriching, action := Enrich));
    assert es[1..][1..] == es[2..];
    ToolPath(c1, es[1..], path, stages, last);
    TakesOne(c, es, [ToolCall] + path, [ToolsExecuted] + stages, last);
    assert [Plan] + ([ToolCall] + path) == [Plan, ToolCall] + path;
    assert [Enriching] + ([ToolsExecuted] + stages) == [Enriching, ToolsExecuted] + stages;
  }

  lemma ToolPath(c: Config, es: seq<Event>, path: seq<Node>, stages: seq<Stage>, last: AgentState)
    requires c.node.ToolCall? && !c.st.action.Clarify? && |es| >= 1 && es[0].Completes?
    requires Takes(Config(FactCheck, c.st.(stage := ToolsExecuted)), es[1..], path, stages, last)
    ensures Takes(c, es, [ToolCall] + path, [ToolsExecuted] + stages, last)
  {
    TakesOne(c, es, path, stages, last);
  }

  /** A change to a day of an itinerary is checked before it goes out. */
  lemma {:induction false} ChangePath(st: AgentState, es: seq<Event>)
    requires |es| >= 6 && Failures(Config(ApplySingleChange, st), es) == 0 && st.itinerary
    requires es[0].Completes? && es[0].good && es[1].Completes? && es[1].good
    ensures es[3].Completes?
    ensures var s := if es[3].good then AwaitingBooking else SafetyBlocked;
            Takes(Config(ApplySingleChange, st), es,
                  [ApplySingleChange, FactCheck, Hallucination, Output, Booking, ProfileRecall],
                  [OtherStage("change_applied"), FactCheckDone, FactCheckDone, s, Completed, Remembered(st)],
                  st.(stage := Remembered(st), action := OtherAction("fact_check")))
  {
    var c := Config(ApplySingleChange, st);
    FailsNot(c, es);
    CheckedPath(Step(c, es[0]), es[1..]);
    var s := if es[3].good then AwaitingBooking else SafetyBlocked;
    TakesOne(c, es, [FactCheck, Hallucination, Output, Booking, ProfileRecall],
             [FactCheckDone, FactCheckDone, s, Completed, Remembered(st)],
             st.(stage := Remembered(st), action := OtherAction("fact_check")));
  }

  /** Nothing to change, or nothing to change it in: the action of the turn stays. */
  lemma IdleChange(st: AgentState, e: Event)
    requires e.Completes? && !(e.good && st.itinerary)
    ensures Step(Config(ApplySingleChange, st), e) == Config(FactCheck, st.(stage := OtherStage("change_applied")))
  {
  }

  /** The two nodes that end a turn. */
  lemma EndingEntries(st: AgentState, es: seq<Event>)
    requires |es| >= 1 && es[0].Completes?
    ensures Takes(Config(HumanInterrupt, st), es, [HumanInterrupt], [OtherStage("awaiting_human")],
                  st.(stage := OtherStage("awaiting_human")))
    ensures Takes(Config(ErrorHandler, st), es, [ErrorHandler], [OtherStage("error")],
                  st.(stage := OtherStage("error")))
  {
    var human, error := Config(HumanInterrupt, st), Config(ErrorHandler, st);
    TakesNothing(Step(human, es[0]), es[1..]);
    TakesOne(human, es, [], [], Step(human, es[0]).st);
    TakesNothing(Step(error, es[0]), es[1..]);
    TakesOne(error, es, [], [], Step(error, es[0]).st);
  }

  /** Local replanning plans twice. */
  lemma {:induction false} ReplanLocalPath(st: AgentState, es: seq<Event>)
    requires |es| >= 3 && Failures(Config(ReplanLocal, st), es) == 0 && !st.stage.Confirmed?
    ensures es[1].Completes? && es[2].Completes?
    ensures var s := ShownStage(es[2].good, if es[1].good then AwaitingBooking else Completed);
            Takes(Config(ReplanLocal, st), es, [ReplanLocal, Plan, Output], [DraftReady, DraftReady, s],
                  st.(stage := s, action := ConfirmDraft, itinerary := es[1].good))
  {
    var c := Config(ReplanLocal, st);
    FailsNot(c, es);
    DraftPath(Step(c, es[0]), es[1..]);
    var s := ShownStage(es[2].good, if es[1].good then AwaitingBooking else Completed);
    TakesOne(c, es, [Plan, Output], [DraftReady, s],
             st.(stage := s, action := ConfirmDraft, itinerary := es[1].good));
  }

  // ----- where a failing node leads -----

  /** part stands in text. */
  ghost predicate Occurs(text: string, part: string)
  {
    exists i :: 0 <= i <= |text| && part <= text[i..]
  }

  lemma {:induction false} ContainsIs(text: string, part: string)
    ensures Contains(text, part) <==> Occurs(text, part)
  {
    if part <= text {
      assert text[0..] == text;
    } else if text != "" {
      ContainsIs(text[1..], part);
      if Occurs(text[1..], part) {
        var i :| 0 <= i <= |text[1..]| && part <= text[1..][i..];
        assert text[1..][i..] == text[i + 1..];
      }
      if Occurs(text, part) {
        var i :| 0 <= i <= |text| && part <= text[i..];
        assert i > 0 && text[1..][i - 1..] == text[i..];
      }
    }
  }

  /** An error that no one has classified is retried if its message speaks of a time-out, goes to
      the user if it speaks of a refusal and not of a time-out, and falls back otherwise. */
  lemma LevelIs(msg: string)
    ensures var late := Occurs(msg, "timeout") || Occurs(msg, "timed out");
            var refused := Occurs(msg, "refusal") || Occurs(msg, "content_filter");
            Raw(msg).Severity() == if late then RetryLevel else if refused then EscalateLevel else FallbackLevel
  {
    ContainsIs(msg, "timeout");
    ContainsIs(msg, "timed out");
    ContainsIs(msg, "refusal");
    ContainsIs(msg, "content_filter");
  }

  /** A node that raises leaves the stage alone, and the turn goes on: to the user if the error
      was escalated where a router asks for that, otherwise past the node. */
  lemma FailureLeads(c: Config, e: Event)
    requires Live(c.node) && !c.node.End? && e.Raises?
    ensures var d := Step(c, e); var escalated := e.failure.Severity().EscalateLevel?;
            && d.st == c.st.(fallbacks := c.st.fallbacks + 1, action := d.st.action)
            && (d.st.action == if escalated then Clarify
                               else if e.failure.Severity().RetryLevel? then Retry else Fallback)
            && d.node == match c.node
                         case Gathering => if escalated then Output else ProfileRecall
                         case ProfileRecall =>
                           if c.st.stage.MemoryUpdated? || c.st.stage.Completed? then End else Retrieve
                         case Retrieve => WeatherCheck
                         case WeatherCheck => Plan
                         case Plan => if escalated then Output else ToolCall
                         case ToolCall => if escalated then Output else FactCheck
                         case FactCheck => if escalated then Output else Hallucination
                         case Hallucination => Output
                         case Output => if escalated then End else Booking
                         case _ => ProfileRecall
  {
  }

  /** After a draft the user is asked, unless the output node itself raises below the
      escalation level: then the unconfirmed draft goes on to booking. */
  lemma DraftIsShown(c: Config, e: Event, out: Event)
    requires c.node.Plan? && !c.st.stage.Confirmed? && e.Completes?
    ensures var d := Step(Step(c, e), out);
            && (d.node.Booking? <==> out.Raises? && !out.failure.Severity().EscalateLevel?)
            && (!d.node.Booking? ==> d.node.End?)
            && (d.node.Booking? ==> d.st.stage.DraftReady?)
  {
  }

  lemma StepCounts(c: Config, e: Event)
    requires !c.node.End?
    ensures Step(c, e).st.fallbacks == c.st.fallbacks + (if e.Raises? then 1 else 0)
  {
  }

  lemma {:induction false} FallbacksCountFailures(c: Config, es: seq<Event>)
    ensures Run(c, es).st.fallbacks == c.st.fallbacks + Failures(c, es)
    decreases |es|
  {
    if es != [] {
      if c.node.End? {
        EndStays(c, es);
      } else {
        StepCounts(c, es[0]);
        FallbacksCountFailures(Step(c, es[0]), es[1..]);
      }
    }
  }

  lemma {:induction false} EndStays(c: Config, es: seq<Event>)
    requires c.node.End?
    ensures Run(c, es) == c
    decreases |es|
  {
    if es != [] {
      EndStays(c, es[1..]);
    }
  }

  /** How many nodes must have failed for "confirmed" to be still there. */
  function ConfirmedCost(n: Node): (k: nat)
  {
    match n
    case Gathering => 0
    case Retrieve => 2
    case WeatherCheck => 3
    case Plan => 3
    case ToolCall => 4
    case FactCheck => 5
    case _ => 1
  }

  ghost predicate ConfirmedIsPaidFor(c: Config, base: nat)
  {
    && Live(c.node) && base <= c.st.fallbacks
    && (c.st.stage.Confirmed? ==> base + ConfirmedCost(c.node) <= c.st.fallbacks)
  }

  lemma ConfirmedStepPaidFor(c: Config, e: Event, base: nat)
    requires ConfirmedIsPaidFor(c, base)
    ensures ConfirmedIsPaidFor(Step(c, e), base)
  {
  }

  lemma {:induction false} ConfirmedStaysPaidFor(c: Config, es: seq<Event>, base: nat)
    requires ConfirmedIsPaidFor(c, base)
    ensures ConfirmedIsPaidFor(Run(c, es), base)
    decreases |es|
  {
    if es != [] {
      ConfirmedStepPaidFor(c, es[0], base);
      ConfirmedStaysPaidFor(Step(c, es[0]), es[1..], base);
    }
  }

  /** The enrichment branch of the plan node is out of reach of a healthy turn: even when
      the session comes in as "confirmed", plan sees that stage only after gathering,
      profile_recall and retrieve have all failed. */
  lemma {:induction false} EnrichmentNeedsThreeFailures(st: AgentState, es: seq<Event>)
    requires var c := Run(Config(Gathering, st), es); c.node.Plan? && c.st.stage.Confirmed?
    ensures Failures(Config(Gathering, st), es) >= 3
  {
    ConfirmedStaysPaidFor(Config(Gathering, st), es, st.fallbacks);
    FallbacksCountFailures(Config(Gathering, st), es);
  }

  /** How often factcheck sent the turn back to plan. */
  function Replans(c: Config, es: seq<Event>): (n: nat)
    decreases |es|
  {
    if es == [] || c.node.End? then 0
    else
      var d := Step(c, es[0]);
      (if c.node.FactCheck? && d.node.Plan? then 1 else 0) + Replans(d, es[1..])
  }

  /** A router writes nothing but the loop count, and that only where a check sends the turn back to
      plan and the write is kept. */
  lemma RouterWrites(c: Config, e: Event)
    requires !c.node.End?
    ensures var d := Step(c, e);
            d.st == Execute(c.node, c.st, e).(
              loopCount := c.st.loopCount + if c.node.FactCheck? && d.node.Plan? && e.kept then 1 else 0)
  {
  }

  /** When the routers' writes are kept, loop_count counts the replans and stops them at
      MAX_LOOPS, over all the turns of a session together. */
  lemma {:induction false} ReplanBudget(c: Config, es: seq<Event>)
    requires Live(c.node) && forall i :: 0 <= i < |es| ==> es[i].kept
    ensures Run(c, es).st.loopCount == c.st.loopCount + Replans(c, es)
    ensures Replans(c, es) > 0 ==> Run(c, es).st.loopCount <= MAX_LOOPS
    decreases |es|
  {
    if es != [] {
      if c.node.End? {
        EndStays(c, es);
      } else {
        var d := Step(c, es[0]);
        RankFalls(c, es[0]);
        ReplanBudget(d, es[1..]);
      }
    }
  }
}
