/** The activity calls of one DAGWorkflow run, in order, and what every run's log must satisfy. */
module RunLog {
  import opened WorkflowModel
  import opened Sequences
  import opened DependencyGraph
  import opened StringOrder

  datatype RunState = RunRunning | RunComplete | RunFailed | RunCancelled

  datatype Event =
    | StatusSet(state: RunState, error: string)            // UpdateRunStatus
    | Provisioned(group: string, sandboxId: string)        // ProvisionSandbox, successful
    | ProvisionFailed(group: string)
    | Launched(id: StepId, wave: nat, visible: set<StepId>) // a step's goroutine, and who had results
    | Recorded(id: StepId)                                  // outputs[id] = result
    | StepFailedItem(id: StepId, stored: bool)              // CreateInboxItem "step_failed"
    | Cleaned(group: string, sandboxId: string)             // CleanupSandbox
    | RunItem(state: RunState)                              // CreateInboxItem for the run

  // --- launches ------------------------------------------------------------------------

  /** A launch sees results for everything upstream, in the wave its longest chain fixes. */
  ghost predicate GoodLaunch(g: Graph<StepId>, e: Event)
    requires e.Launched?
  {
    && e.id in g
    && (forall x :: Upstream(g, e.id, x) ==> x in e.visible)
    && (Closed(g) ==> LongestChain(g, e.id, e.wave))
  }

  /** Each step is launched at most once, and sees only results already recorded. */
  ghost predicate LaunchLog(g: Graph<StepId>, log: seq<Event>) {
    && (forall i :: 0 <= i < |log| && log[i].Launched? ==> GoodLaunch(g, log[i]))
    && (forall i, j :: 0 <= i < j < |log| && log[i].Launched? && log[j].Launched? ==> log[i].id != log[j].id)
    && (forall i, x :: 0 <= i < |log| && log[i].Launched? && x in log[i].visible ==> Before(log, i, Recorded(x)))
  }

  ghost predicate Before(log: seq<Event>, i: nat, e: Event) {
    exists k :: 0 <= k < i && k < |log| && log[k] == e
  }

  /** launched and recorded are what the log says they are. */
  ghost predicate LogSets(log: seq<Event>, launched: set<StepId>, recorded: set<StepId>) {
    && (forall i :: 0 <= i < |log| && log[i].Launched? ==> log[i].id in launched)
    && (forall x :: x in recorded ==> Before(log, |log|, Recorded(x)))
  }

  lemma BeforeGrows(log: seq<Event>, e: Event, i: nat, x: Event)
    requires i <= |log| && Before(log, i, x)
    ensures Before(log + [e], i, x) && Before(log + [e], |log| + 1, x)
  {
    var k :| 0 <= k < i && k < |log| && log[k] == x;
    assert (log + [e])[k] == x;
  }

  /** Appending an event that launches nothing. */
  lemma AppendQuiet(g: Graph<StepId>, log: seq<Event>, launched: set<StepId>, recorded: set<StepId>, e: Event)
    requires LaunchLog(g, log) && LogSets(log, launched, recorded) && !e.Launched?
    ensures LaunchLog(g, log + [e])
    ensures LogSets(log + [e], launched, recorded + if e.Recorded? then {e.id} else {})
  {
    hide GoodLaunch, Before;
    var longer := log + [e];
    assert forall i :: 0 <= i < |log| ==> longer[i] == log[i];
    forall i, x | 0 <= i < |longer| && longer[i].Launched? && x in longer[i].visible
      ensures Before(longer, i, Recorded(x))
    {
      BeforeGrows(log, e, i, Recorded(x));
    }
    forall x | x in recorded ensures Before(longer, |longer|, Recorded(x)) {
      BeforeGrows(log, e, |log|, Recorded(x));
    }
    LastBefore(log, e);
  }

  lemma LastBefore(log: seq<Event>, e: Event)
    ensures Before(log + [e], |log| + 1, e)
  {
    assert (log + [e])[|log|] == e;
  }

  /** Appending a launch. */
  lemma AppendLaunch(g: Graph<StepId>, log: seq<Event>, launched: set<StepId>, recorded: set<StepId>, e: Event)
    requires LaunchLog(g, log) && LogSets(log, launched, recorded)
    requires e.Launched? && GoodLaunch(g, e) && e.id !in launched && e.visible <= recorded
    ensures LaunchLog(g, log + [e])
    ensures LogSets(log + [e], launched + {e.id}, recorded)
  {
    hide GoodLaunch, Before;
    var longer := log + [e];
    assert forall i :: 0 <= i < |log| ==> longer[i] == log[i];
    forall i, x | 0 <= i < |longer| && longer[i].Launched? && x in longer[i].visible
      ensures Before(longer, i, Recorded(x))
    {
      BeforeGrows(log, e, if i < |log| then i else |log|, Recorded(x));
    }
    forall x | x in recorded ensures Before(longer, |longer|, Recorded(x)) {
      BeforeGrows(log, e, |log|, Recorded(x));
    }
  }

  // --- sandboxes and inbox items ---------------------------------------------------------

  /** The groups provisioned, each once, are the groups in the map. */
  ghost predicate SandboxLog(log: seq<Event>, sandboxes: map<string, string>) {
    forall group, id ::
      multiset(log)[Provisioned(group, id)] == if group in sandboxes && sandboxes[group] == id then 1 else 0
  }

  /** Nothing of the exit has happened, and sent says whether a step_failed item was stored. */
  ghost predicate BodyLog(log: seq<Event>, sent: bool) {
    && (forall e :: e in log ==> !e.StatusSet? && !e.Cleaned? && !e.RunItem?)
    && (sent <==> exists id :: StepFailedItem(id, true) in log)
  }

  lemma AppendBody(log: seq<Event>, sandboxes: map<string, string>, sent: bool, e: Event)
    requires SandboxLog(log, sandboxes) && BodyLog(log, sent)
    requires !e.StatusSet? && !e.Cleaned? && !e.RunItem?
    requires e.Provisioned? ==> e.group !in sandboxes
    ensures SandboxLog(log + [e], if e.Provisioned? then sandboxes[e.group := e.sandboxId] else sandboxes)
    ensures BodyLog(log + [e], sent || (e.StepFailedItem? && e.stored))
  {
    var longer := log + [e];
    assert multiset(longer) == multiset(log) + multiset{e};
    assert forall x :: x in longer <==> x in log || x == e;
    if e.StepFailedItem? && e.stored {
      assert StepFailedItem(e.id, true) in longer;
    }
    if sent {
      var id :| StepFailedItem(id, true) in log;
      assert StepFailedItem(id, true) in longer;
    }
  }

  /** The log of a run in progress. */
  ghost predicate GoodLog(g: Graph<StepId>, log: seq<Event>, sandboxes: map<string, string>, sent: bool,
                          launched: set<StepId>, recorded: set<StepId>) {
    && LaunchLog(g, log) && LogSets(log, launched, recorded)
    && SandboxLog(log, sandboxes) && BodyLog(log, sent)
  }

  lemma EmptyLog(g: Graph<StepId>)
    ensures GoodLog(g, [], map[], false, {}, {})
  {
  }

  lemma LogParts(g: Graph<StepId>, log: seq<Event>, sandboxes: map<string, string>, sent: bool,
                 launched: set<StepId>, recorded: set<StepId>)
    requires GoodLog(g, log, sandboxes, sent, launched, recorded)
    ensures LaunchLog(g, log) && SandboxLog(log, sandboxes) && BodyLog(log, sent)
  {
  }

  /** Any call but a launch, before the exit. */
  lemma LogCall(g: Graph<StepId>, log: seq<Event>, sandboxes: map<string, string>, sent: bool,
                launched: set<StepId>, recorded: set<StepId>, e: Event)
    requires GoodLog(g, log, sandboxes, sent, launched, recorded)
    requires !e.Launched? && !e.StatusSet? && !e.Cleaned? && !e.RunItem?
    requires e.Provisioned? ==> e.group !in sandboxes
    ensures GoodLog(g, log + [e], if e.Provisioned? then sandboxes[e.group := e.sandboxId] else sandboxes,
                    sent || (e.StepFailedItem? && e.stored), launched, recorded + if e.Recorded? then {e.id} else {})
  {
    hide LaunchLog, LogSets, SandboxLog, BodyLog;
    AppendQuiet(g, log, launched, recorded, e);
    AppendBody(log, sandboxes, sent, e);
  }

  lemma LogLaunch(g: Graph<StepId>, log: seq<Event>, sandboxes: map<string, string>, sent: bool,
                  launched: set<StepId>, recorded: set<StepId>, e: Event)
    requires GoodLog(g, log, sandboxes, sent, launched, recorded)
    requires e.Launched? && GoodLaunch(g, e) && e.id !in launched && e.visible <= recorded
    ensures GoodLog(g, log + [e], sandboxes, sent, launched + {e.id}, recorded)
  {
    hide LaunchLog, LogSets, SandboxLog, BodyLog, GoodLaunch;
    AppendLaunch(g, log, launched, recorded, e);
    AppendBody(log, sandboxes, sent, e);
  }

  /** The steps whose failure the operator was to be told of. */
  function ItemsFor(log: seq<Event>): set<StepId> {
    set e | e in log && e.StepFailedItem? :: e.id
  }

  lemma ItemsGrow(log: seq<Event>, more: seq<Event>)
    ensures ItemsFor(log + more) == ItemsFor(log) + ItemsFor(more)
  {
    assert forall e :: e in log + more <==> e in log || e in more;
  }

  lemma OneItem(log: seq<Event>, e: Event)
    ensures ItemsFor(log + [e]) == ItemsFor(log) + if e.StepFailedItem? then {e.id} else {}
  {
    ItemsGrow(log, [e]);
    assert ItemsFor([e]) == if e.StepFailedItem? then {e.id} else {};
  }

  lemma CleanupsTellNothing(groups: seq<string>, sandboxes: map<string, string>)
    requires forall group :: group in groups ==> group in sandboxes
    ensures ItemsFor(Cleanups(groups, sandboxes)) == {}
  {
    if groups != [] {
      CleanupsTellNothing(groups[..|groups| - 1], sandboxes);
      OneItem(Cleanups(groups[..|groups| - 1], sandboxes),
              Cleaned(groups[|groups| - 1], sandboxes[groups[|groups| - 1]]));
    }
  }

  /** The step_failed items of a complete log are those of its body. */
  lemma ItemsOfBody(log: seq<Event>, body: seq<Event>, groups: seq<string>, sandboxes: map<string, string>,
                    state: RunState, error: string, sent: bool)
    requires CompleteLog(log, body, groups, sandboxes, state, error, sent)
    ensures ItemsFor(log) == ItemsFor(body)
  {
    hide BodyLog, SandboxLog, Ascending, Cleanups, ItemsFor, Closing;
    var closing := Closing(state, error, sent);
    CleanupsTellNothing(groups, sandboxes);
    ClosingTellsNothing(state, error, sent);
    ItemsGrow([StatusSet(RunRunning, "")] + body + Cleanups(groups, sandboxes), closing);
    ItemsGrow([StatusSet(RunRunning, "")] + body, Cleanups(groups, sandboxes));
    ItemsGrow([StatusSet(RunRunning, "")], body);
  }

  lemma ClosingTellsNothing(state: RunState, error: string, sent: bool)
    ensures ItemsFor(Closing(state, error, sent)) == {} == ItemsFor([StatusSet(RunRunning, "")])
  {
  }

  // --- the exit ---------------------------------------------------------------------------

  /** Cleaning every group of the map, in the given order. */
  function Cleanups(groups: seq<string>, sandboxes: map<string, string>): seq<Event>
    requires forall group :: group in groups ==> group in sandboxes
  {
    if groups == [] then [] else
    Cleanups(groups[..|groups| - 1], sandboxes) + [Cleaned(groups[|groups| - 1], sandboxes[groups[|groups| - 1]])]
  }

  /** The terminal status, then the run-level inbox item unless the run was cancelled or the
      operator has already been told about a failed step. */
  function Closing(state: RunState, error: string, sent: bool): seq<Event> {
    [StatusSet(state, error)] +
    if state != RunCancelled && !(state == RunFailed && sent) then [RunItem(state)] else []
  }

  /** A complete log of a run that was marked running. */
  ghost predicate CompleteLog(log: seq<Event>, body: seq<Event>, groups: seq<string>, sandboxes: map<string, string>,
                              state: RunState, error: string, sent: bool) {
    && BodyLog(body, sent) && SandboxLog(body, sandboxes)
    && Ascending(groups, (s: string) => s) && (forall group :: group in groups <==> group in sandboxes)
    && state in {RunComplete, RunFailed, RunCancelled}
    && log == [StatusSet(RunRunning, "")] + body + Cleanups(groups, sandboxes) + Closing(state, error, sent)
  }

  lemma {:induction false} CleanupCounts(groups: seq<string>, sandboxes: map<string, string>, e: Event)
    requires forall group :: group in groups ==> group in sandboxes
    requires Distinct(groups)
    ensures multiset(Cleanups(groups, sandboxes))[e] ==
            if e.Cleaned? && e.group in groups && sandboxes[e.group] == e.sandboxId then 1 else 0
  {
    if groups != [] {
      var init, last := groups[..|groups| - 1], groups[|groups| - 1];
      CleanupCounts(init, sandboxes, e);
      assert groups == init + [last];
      assert last !in init;
    }
  }

  lemma AscendingDistinct(groups: seq<string>)
    requires Ascending(groups, (s: string) => s)
    ensures Distinct(groups)
  {
    forall i, j | 0 <= i < j < |groups| ensures groups[i] != groups[j] {
      LessIrreflexive(groups[i]);
    }
  }

  /** How often one event occurs in a complete log. */
  lemma LogCount(log: seq<Event>, body: seq<Event>, groups: seq<string>, sandboxes: map<string, string>,
                 state: RunState, error: string, sent: bool, e: Event)
    requires CompleteLog(log, body, groups, sandboxes, state, error, sent)
    ensures multiset(log)[e] ==
            (if e == StatusSet(RunRunning, "") then 1 else 0) + multiset(body)[e] +
            (if e.Cleaned? && e.group in sandboxes && sandboxes[e.group] == e.sandboxId then 1 else 0) +
            multiset(Closing(state, error, sent))[e]
  {
    AscendingDistinct(groups);
    CleanupCounts(groups, sandboxes, e);
  }

  lemma NotInBody(body: seq<Event>, sent: bool, e: Event)
    requires BodyLog(body, sent) && (e.StatusSet? || e.Cleaned? || e.RunItem?)
    ensures multiset(body)[e] == 0
  {
    assert e !in body;
  }

  lemma ClosingCounts(state: RunState, error: string, sent: bool, e: Event)
    ensures multiset(Closing(state, error, sent))[e] ==
            if e == StatusSet(state, error) then 1
            else if e == RunItem(state) && state != RunCancelled && !(state == RunFailed && sent) then 1 else 0
  {
  }

  /** Over a whole run every sandbox group is provisioned at most once, and each sandbox is
      cleaned exactly as often as it was provisioned. */
  lemma EachGroupCleanedOnce(log: seq<Event>, body: seq<Event>, groups: seq<string>, sandboxes: map<string, string>,
                             state: RunState, error: string, sent: bool, group: string, id: string, id': string)
    requires CompleteLog(log, body, groups, sandboxes, state, error, sent)
    ensures multiset(log)[Cleaned(group, id)] == multiset(log)[Provisioned(group, id)] <= 1
    ensures id != id' ==> multiset(log)[Provisioned(group, id)] + multiset(log)[Provisioned(group, id')] <= 1
  {
    LogCount(log, body, groups, sandboxes, state, error, sent, Cleaned(group, id));
    LogCount(log, body, groups, sandboxes, state, error, sent, Provisioned(group, id));
    LogCount(log, body, groups, sandboxes, state, error, sent, Provisioned(group, id'));
    NotInBody(body, sent, Cleaned(group, id));
    ClosingCounts(state, error, sent, Cleaned(group, id));
    ClosingCounts(state, error, sent, Provisioned(group, id));
    ClosingCounts(state, error, sent, Provisioned(group, id'));
    hide Closing, Cleanups;
  }

  /** Over a whole run exactly one terminal status is written. */
  lemma OneTerminalStatus(log: seq<Event>, body: seq<Event>, groups: seq<string>, sandboxes: map<string, string>,
                          state: RunState, error: string, sent: bool, s: RunState, m: string)
    requires CompleteLog(log, body, groups, sandboxes, state, error, sent) && s != RunRunning
    ensures multiset(log)[StatusSet(s, m)] == if s == state && m == error then 1 else 0
  {
    LogCount(log, body, groups, sandboxes, state, error, sent, StatusSet(s, m));
    NotInBody(body, sent, StatusSet(s, m));
    ClosingCounts(state, error, sent, StatusSet(s, m));
    hide Closing, Cleanups;
  }

  /** The run-level inbox item is attempted once for a completed run, once for a failed run
      that stored no step_failed item, and never otherwise. */
  lemma RunItemRule(log: seq<Event>, body: seq<Event>, groups: seq<string>, sandboxes: map<string, string>,
                    state: RunState, error: string, sent: bool, s: RunState)
    requires CompleteLog(log, body, groups, sandboxes, state, error, sent)
    ensures multiset(log)[RunItem(s)] ==
            if s == state &&
               (state == RunComplete || (state == RunFailed && !exists x :: StepFailedItem(x, true) in log))
            then 1 else 0
  {
    LogCount(log, body, groups, sandboxes, state, error, sent, RunItem(s));
    NotInBody(body, sent, RunItem(s));
    ClosingCounts(state, error, sent, RunItem(s));
    ItemsOnlyInBody(log, body, groups, sandboxes, state, error, sent);
    hide Closing, Cleanups;
  }

  lemma ItemsOnlyInBody(log: seq<Event>, body: seq<Event>, groups: seq<string>, sandboxes: map<string, string>,
                        state: RunState, error: string, sent: bool)
    requires CompleteLog(log, body, groups, sandboxes, state, error, sent)
    ensures sent <==> exists x :: StepFailedItem(x, true) in log
  {
    forall x ensures StepFailedItem(x, true) in log <==> StepFailedItem(x, true) in body {
      var e := StepFailedItem(x, true);
      LogCount(log, body, groups, sandboxes, state, error, sent, e);
      ClosingCounts(state, error, sent, e);
      assert e in log <==> multiset(log)[e] > 0;
      assert e in body <==> multiset(body)[e] > 0;
    }
    hide Closing, Cleanups;
  }
}
