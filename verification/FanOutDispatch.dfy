/** Routing fan_out_resolve signals (internal/workflow/dag.go:190-215, 549-568): one dispatcher
    goroutine takes signals off a shared queue, in order, and sends each to the unbuffered
    channel of the step it names; a send blocks until that step receives. */
module FanOutDispatch {
  import opened WorkflowModel
  import opened FanOut
  import opened StepBody

  datatype Payload = Payload(action: string, stepId: StepId)

  /** How the wait of a step ended, or that the step ended without any: it was skipped, failed to
      resolve, had a single repository or no partial failure. */
  datatype Ending = GaveUp | Received(payload: Payload) | NeverWaited

  /** held is the payload of a send in progress. A step with repositories has a channel from the
      start; it waits at most once, and its wait ends with a payload or with the timer. */
  datatype State = State(
    known: set<StepId>,
    inbox: seq<Payload>,
    held: Option<Payload>,
    waiting: set<StepId>,
    ended: map<StepId, Ending>)

  datatype Event =
    | Arrive(payload: Payload)
    | Dispatch
    | StartWaiting(id: StepId)
    | TimeOut(id: StepId)
    | Finish(id: StepId)

  predicate Enabled(s: State, e: Event) {
    match e
    case Arrive(_) => true
    case Dispatch => s.held.None? && s.inbox != []
    case StartWaiting(id) => id in s.known && id !in s.waiting && id !in s.ended
    case TimeOut(id) => id in s.waiting
    case Finish(id) => id in s.known && id !in s.waiting && id !in s.ended
  }

  function Next(s: State, e: Event): State
    requires Enabled(s, e)
  {
    match e
    case Arrive(p) => s.(inbox := s.inbox + [p])
    case Dispatch =>
      var p, rest := s.inbox[0], s.(inbox := s.inbox[1..]);
      if p.stepId !in s.known then rest
      else if p.stepId in s.waiting then Deliver(rest, p)
      else rest.(held := Some(p))
    case StartWaiting(id) =>
      if s.held.Some? && s.held.value.stepId == id then Deliver(s.(held := None), s.held.value)
      else s.(waiting := s.waiting + {id})
    case TimeOut(id) => s.(waiting := s.waiting - {id}, ended := s.ended[id := GaveUp])
    case Finish(id) => s.(ended := s.ended[id := NeverWaited])
  }

  function Deliver(s: State, p: Payload): State {
    s.(waiting := s.waiting - {p.stepId}, ended := s.ended[p.stepId := Received(p)])
  }

  function Start(known: set<StepId>): State {
    State(known, [], None, {}, map[])
  }

  /** The states a run passes through. */
  ghost predicate IsRun(known: set<StepId>, states: seq<State>, events: seq<Event>) {
    && |states| == |events| + 1
    && states[0] == Start(known)
    && forall i :: 0 <= i < |events| ==> Enabled(states[i], events[i]) && states[i + 1] == Next(states[i], events[i])
  }

  /** The signals that have arrived for a step, in order. */
  function ArrivalsFor(events: seq<Event>, id: StepId): seq<Payload> {
    if events == [] then [] else
    var e := events[|events| - 1];
    ArrivalsFor(events[..|events| - 1], id) + if e.Arrive? && e.payload.stepId == id then [e.payload] else []
  }

  function For(ps: seq<Payload>, id: StepId): seq<Payload> {
    if ps == [] then [] else (if ps[0].stepId == id then [ps[0]] else []) + For(ps[1..], id)
  }

  /** What the dispatcher still has for a step: the send in progress, then the queue. */
  function StillFor(s: State, id: StepId): seq<Payload> {
    For((if s.held.Some? then [s.held.value] else []) + s.inbox, id)
  }

  /** For a known step: what has arrived is what its wait received, if anything, followed by
      what is still on its way; after a received payload the rest can never be received. */
  ghost predicate Accounted(s: State, arrived: seq<Payload>, id: StepId) {
    if id in s.ended && s.ended[id].Received? then
      arrived == [s.ended[id].payload] + StillFor(s, id)
    else
      arrived == StillFor(s, id)
  }

  ghost predicate Sound(s: State) {
    && (forall id :: id in s.waiting ==> id in s.known && id !in s.ended)
    && (forall id :: id in s.ended ==> id in s.known)
    && (s.held.Some? ==> s.held.value.stepId in s.known && s.held.value.stepId !in s.waiting)
    && (forall id :: id in s.ended && s.ended[id].Received? ==> s.ended[id].payload.stepId == id)
  }

  lemma {:induction false} ForAppend(a: seq<Payload>, b: seq<Payload>, id: StepId)
    ensures For(a + b, id) == For(a, id) + For(b, id)
  {
    if a == [] {
      assert a + b == b;
    } else {
      assert (a + b)[1..] == a[1..] + b;
      ForAppend(a[1..], b, id);
    }
  }

  lemma SoundStep(s: State, e: Event)
    requires Sound(s) && Enabled(s, e)
    ensures Sound(Next(s, e))
  {
  }

  lemma ForCons(p: Payload, ps: seq<Payload>, id: StepId)
    ensures For([p] + ps, id) == (if p.stepId == id then [p] else []) + For(ps, id)
  {
    assert ([p] + ps)[1..] == ps;
  }

  lemma ForEmpty(id: StepId)
    ensures For([], id) == []
  {
  }

  /** StillFor with the send in progress taken apart. */
  lemma StillForIs(s: State, id: StepId)
    ensures StillFor(s, id) == (if s.held.Some? && s.held.value.stepId == id then [s.held.value] else []) +
        For(s.inbox, id)
  {
    hide For;
    if s.held.Some? {
      ForCons(s.held.value, s.inbox, id);
    } else {
      assert [] + s.inbox == s.inbox;
    }
  }

  lemma AccountedStep(s: State, e: Event, arrived: seq<Payload>, id: StepId)
    requires Sound(s) && Enabled(s, e) && id in s.known && Accounted(s, arrived, id)
    ensures Accounted(Next(s, e), arrived + (if e.Arrive? && e.payload.stepId == id then [e.payload] else []), id)
  {
    hide For, StillFor;
    StillForIs(s, id);
    StillForIs(Next(s, e), id);
    if e.Arrive? {
      ForAppend(s.inbox, [e.payload], id);
      ForCons(e.payload, [], id);
      ForEmpty(id);
      assert [e.payload] + [] == [e.payload];
    } else {
      assert arrived + [] == arrived;
      if e.Dispatch? {
        ForCons(s.inbox[0], s.inbox[1..], id);
        assert [s.inbox[0]] + s.inbox[1..] == s.inbox;
      }
    }
  }

  lemma StartAccounted(known: set<StepId>, id: StepId)
    ensures Sound(Start(known)) && Accounted(Start(known), [], id)
  {
    assert For([], id) == [];
  }

  lemma KnownStays(s: State, e: Event)
    requires Enabled(s, e)
    ensures Next(s, e).known == s.known
  {
  }

  lemma {:induction false} RunInvariant(known: set<StepId>, states: seq<State>, events: seq<Event>, id: StepId)
    requires IsRun(known, states, events)
    ensures var s := states[|events|];
      Sound(s) && s.known == known && (id in known ==> Accounted(s, ArrivalsFor(events, id), id))
    decreases |events|
  {
    if events == [] {
      StartAccounted(known, id);
    } else {
      hide For, Next, Accounted, Sound;
      var n := |events| - 1;
      RunInvariant(known, states[..|states| - 1], events[..n], id);
      SoundStep(states[n], events[n]);
      KnownStays(states[n], events[n]);
      if id in known {
        AccountedStep(states[n], events[n], ArrivalsFor(events[..n], id), id);
      }
    }
  }

  /** A waiting step only ever acts on a payload that bears its own ID, and it is the first
      one that arrived for it. */
  lemma FirstOwnSignalWins(known: set<StepId>, states: seq<State>, events: seq<Event>, id: StepId)
    requires IsRun(known, states, events)
    requires id in states[|events|].ended && states[|events|].ended[id].Received?
    ensures var p := states[|events|].ended[id].payload;
      && p.stepId == id
      && |ArrivalsFor(events, id)| > 0 && ArrivalsFor(events, id)[0] == p
  {
    RunInvariant(known, states, events, id);
  }

  /** The decision a wait ends with (internal/workflow/dag.go:549-576). */
  function DecisionOf(e: Ending): Decision
    requires !e.NeverWaited?
  {
    match e case Received(p) => Answered(p.action) case GaveUp => TimedOut
  }

  /** The operator of w answers each step that has waited with how its wait ended. */
  ghost predicate Decides(w: World, s: State) {
    forall step: StepDef, outputs: Outputs :: step.id in s.ended && !s.ended[step.id].NeverWaited? ==>
      w.decision(step, outputs) == DecisionOf(s.ended[step.id])
  }

  /** A partially failed fan-out that has waited ends Complete if and only if its wait received a
      signal and the first signal that arrived for the step was not "terminate". */
  lemma SettlesOnFirstSignal(known: set<StepId>, states: seq<State>, events: seq<Event>,
                             w: World, step: StepDef, outputs: Outputs, results: seq<Slot>)
    requires IsRun(known, states, events) && Decides(w, states[|events|])
    requires step.id in states[|events|].ended && !states[|events|].ended[step.id].NeverWaited?
    requires |results| >= 2 && AllSettled(results) && Partial(results)
    ensures var arrived := ArrivalsFor(events, step.id);
      && (states[|events|].ended[step.id].Received? ==> |arrived| > 0)
      && (Settle(step.id, results, w.decision(step, outputs)).status == Complete <==>
            states[|events|].ended[step.id].Received? && arrived[0].action != "terminate")
  {
    hide Settle;
    SettledStatus(step.id, results, w.decision(step, outputs));
    if states[|events|].ended[step.id].Received? {
      FirstOwnSignalWins(known, states, events, step.id);
    }
  }

  /** Each signal for a known step arrives while that step waits and none is queued for it
      already, and no timer fires with a signal queued. */
  ghost predicate Prompt(s: State, e: Event) {
    && (e.Arrive? && e.payload.stepId in s.known ==>
          e.payload.stepId in s.waiting && forall p :: p in s.inbox ==> p.stepId != e.payload.stepId)
    && (e.TimeOut? ==> forall p :: p in s.inbox ==> p.stepId != e.id)
  }

  /** Every queued signal for a known step finds its step waiting, and is the only one. */
  ghost predicate Flowing(s: State) {
    && s.held.None?
    && (forall i :: 0 <= i < |s.inbox| && s.inbox[i].stepId in s.known ==> s.inbox[i].stepId in s.waiting)
    && (forall i, j :: 0 <= i < j < |s.inbox| && s.inbox[i].stepId in s.known ==>
        s.inbox[i].stepId != s.inbox[j].stepId)
  }

  lemma {:induction false} PromptNeverBlocks(known: set<StepId>, states: seq<State>, events: seq<Event>)
    requires IsRun(known, states, events)
    requires forall i :: 0 <= i < |events| ==> Prompt(states[i], events[i])
    ensures Flowing(states[|events|])
    decreases |events|
  {
    if events != [] {
      var n := |events| - 1;
      PromptNeverBlocks(known, states[..|states| - 1], events[..n]);
      FlowingStep(states[n], events[n]);
    }
  }

  lemma FlowingStep(s: State, e: Event)
    requires Flowing(s) && Enabled(s, e) && Prompt(s, e)
    ensures Flowing(Next(s, e))
  {
    if e.Dispatch? {
      var p := s.inbox[0];
      forall i | 0 <= i < |s.inbox[1..]| && s.inbox[1..][i].stepId in s.known
        ensures s.inbox[1..][i].stepId in s.waiting && s.inbox[1..][i].stepId != p.stepId
      {
        assert s.inbox[1..][i] == s.inbox[i + 1];
      }
    }
    if e.TimeOut? {
      forall i | 0 <= i < |s.inbox| ensures s.inbox[i].stepId != e.id {
        assert s.inbox[i] in s.inbox;
      }
    }
  }

  // --- when the dispatcher sticks ---------------------------------------------------------------

  /** The send in progress is to a step that will not receive any more. */
  predicate Stuck(s: State) {
    s.held.Some? && s.held.value.stepId in s.ended
  }

  /** A send to a step still to come completes as soon as that step waits. */
  lemma SendCompletes(s: State)
    requires Sound(s) && s.held.Some? && !Stuck(s)
    ensures var e := StartWaiting(s.held.value.stepId);
      Enabled(s, e) && Next(s, e).held.None? && Next(s, e).ended ==
          s.ended[s.held.value.stepId := Received(s.held.value)]
  {
  }

  /** Once stuck, stuck for good: the send stays in progress and no step receives anything more. */
  lemma {:induction false} StuckStays(known: set<StepId>, states: seq<State>, events: seq<Event>, i: nat, j: nat)
    requires IsRun(known, states, events) && i <= j < |states| && Stuck(states[i])
    ensures Stuck(states[j]) && states[j].held == states[i].held
    ensures forall id, p :: id in states[j].ended && states[j].ended[id] == Received(p) ==>
              id in states[i].ended && states[i].ended[id] == Received(p)
    decreases j
  {
    if i < j {
      StuckStays(known, states, events, i, j - 1);
      Prefix(known, states, events, j - 1);
      RunInvariant(known, states[..j], events[..j - 1], states[i].held.value.stepId);
      assert states[j] == Next(states[j - 1], events[j - 1]);
    }
  }

  lemma Prefix(known: set<StepId>, states: seq<State>, events: seq<Event>, n: nat)
    requires IsRun(known, states, events) && n <= |events|
    ensures IsRun(known, states[..n + 1], events[..n])
  {
  }

  /** How many signals a step takes in all: one, unless it has ended without receiving any. */
  function Takes(s: State, id: StepId): nat {
    if id in s.ended && !s.ended[id].Received? then 0 else 1
  }

  /** More is on its way to the step than it will still take. */
  predicate Overfull(s: State, id: StepId) {
    |StillFor(s, id)| > if id in s.ended then 0 else 1
  }

  /** The dispatcher drains its queue; each step still to come waits when a signal for it is sent. */
  function Drain(s: State): State
    decreases 2 * |s.inbox| + if s.held.Some? then 1 else 0
  {
    if s.held.Some? then
      if Enabled(s, StartWaiting(s.held.value.stepId)) then Drain(Next(s, StartWaiting(s.held.value.stepId))) else s
    else if Enabled(s, Dispatch) then Drain(Next(s, Dispatch))
    else s
  }

  /** The next event of draining, if there is one. */
  function DrainEvent(s: State): Option<Event> {
    if s.held.Some? then
      if Enabled(s, StartWaiting(s.held.value.stepId)) then Some(StartWaiting(s.held.value.stepId)) else None
    else if Enabled(s, Dispatch) then Some(Dispatch)
    else None
  }

  lemma DrainKeepsOverfull(s: State, id: StepId)
    requires Sound(s) && id in s.known && DrainEvent(s).Some?
    ensures Overfull(Next(s, DrainEvent(s).value), id) <==> Overfull(s, id)
  {
    hide For, StillFor;
    StillForIs(s, id);
    StillForIs(Next(s, DrainEvent(s).value), id);
    if s.held.None? {
      ForCons(s.inbox[0], s.inbox[1..], id);
      assert [s.inbox[0]] + s.inbox[1..] == s.inbox;
    }
  }

  /** Draining gets stuck exactly if there is an overfull step. */
  lemma {:induction false} DrainSticksExactly(s: State)
    requires Sound(s)
    ensures Stuck(Drain(s)) <==> exists id :: id in s.known && Overfull(s, id)
    decreases 2 * |s.inbox| + if s.held.Some? then 1 else 0
  {
    if DrainEvent(s).Some? {
      var t := Next(s, DrainEvent(s).value);
      SoundStep(s, DrainEvent(s).value);
      DrainSticksExactly(t);
      forall id | id in s.known ensures Overfull(t, id) <==> Overfull(s, id) {
        DrainKeepsOverfull(s, id);
      }
      hide Overfull;
    } else if s.held.Some? {
      StillForIs(s, s.held.value.stepId);
      assert Overfull(s, s.held.value.stepId);
    } else {
      forall id ensures !Overfull(s, id) {
        StillForIs(s, id);
        ForEmpty(id);
      }
    }
  }

  /** Over whole runs: once the queue is drained, with every step still to come waiting when its
      signal is sent, the dispatcher is stuck if and only if more signals have arrived for some known
      step than it takes. */
  lemma StuckExactly(known: set<StepId>, states: seq<State>, events: seq<Event>)
    requires IsRun(known, states, events)
    ensures var s := states[|events|];
      Stuck(Drain(s)) <==> exists id :: id in known && |ArrivalsFor(events, id)| > Takes(s, id)
  {
    var s := states[|events|];
    RunInvariant(known, states, events, StepId(""));
    forall id | id in known ensures Overfull(s, id) <==> |ArrivalsFor(events, id)| > Takes(s, id) {
      RunInvariant(known, states, events, id);
      hide StillFor;
    }
    hide Overfull;
    DrainSticksExactly(s);
  }

  /** And when there is nothing left to dispatch and no send to a step still to come, it is stuck if
      and only if some step that has ended got more signals than it received. */
  lemma StuckNowExactly(known: set<StepId>, states: seq<State>, events: seq<Event>)
    requires IsRun(known, states, events) && DrainEvent(states[|events|]).None?
    ensures var s := states[|events|];
      Stuck(s) <==> exists id :: id in known && id in s.ended && |ArrivalsFor(events, id)| > Takes(s, id)
  {
    var s := states[|events|];
    StuckExactly(known, states, events);
    if Stuck(s) {
      var id := s.held.value.stepId;
      RunInvariant(known, states, events, id);
      StillForIs(s, id);
    }
  }

  lemma RunSnoc(known: set<StepId>, states: seq<State>, events: seq<Event>, e: Event)
    requires IsRun(known, states, events) && Enabled(states[|events|], e)
    ensures IsRun(known, states + [Next(states[|events|], e)], events + [e])
  {
    hide Next, Enabled;
    var longer, all := states + [Next(states[|events|], e)], events + [e];
    forall i | 0 <= i < |all| ensures Enabled(longer[i], all[i]) && longer[i + 1] == Next(longer[i], all[i]) {
      if i < |events| {
        assert longer[i] == states[i] && all[i] == events[i] && longer[i + 1] == states[i + 1];
      }
    }
  }

  /** Draining is something a run can do: no signal has to arrive for it. */
  lemma {:induction false} DrainIsRun(known: set<StepId>, states: seq<State>, events: seq<Event>)
    returns (longer: seq<State>, more: seq<Event>)
    requires IsRun(known, states, events) && Sound(states[|events|])
    ensures IsRun(known, longer, events + more) && states <= longer
    ensures longer[|longer| - 1] == Drain(states[|events|]) && forall e :: e in more ==> !e.Arrive?
    decreases 2 * |states[|events|].inbox| + if states[|events|].held.Some? then 1 else 0
  {
    var s := states[|events|];
    match DrainEvent(s)
    case None =>
      longer, more := states, [];
      assert events + [] == events;
    case Some(e) =>
      SoundStep(s, e);
      RunSnoc(known, states, events, e);
      assert (states + [Next(s, e)])[|events + [e]|] == Next(s, e);
      longer, more := DrainIsRun(known, states + [Next(s, e)], events + [e]);
      assert events + [e] + more == events + ([e] + more);
      more := [e] + more;
  }

  /** Two signals for the same waiting step are enough to get the dispatcher stuck. */
  lemma DuplicateSignalSticks(id: StepId, first: string, second: string)
    ensures var p, q := Payload(first, id), Payload(second, id);
      var s0 := Start({id});
      var s1 := Next(s0, StartWaiting(id));
      var s3 := Next(Next(s1, Arrive(p)), Arrive(q));
      Enabled(s3, Dispatch) && Enabled(Next(s3, Dispatch), Dispatch) && Stuck(Next(Next(s3, Dispatch), Dispatch))
  {
  }

  /** So is one signal for a step that ends without waiting. */
  lemma StraySignalSticks(id: StepId, action: string)
    ensures var s := Next(Next(Start({id}), Arrive(Payload(action, id))), Finish(id));
      Enabled(s, Dispatch) && Stuck(Next(s, Dispatch))
  {
  }
}
