/** The application state and its two transitions: running a scenario and
    approving a pending request. The state holds the governance controls
    (industry, GxP flag, threshold in hundredths), the shown KPIs, the visible
    journal, the audit trail, the approval inbox and the current mesh. */
module Engine {
  import opened Options
  import Find
  import Governance
  import Journal
  import AgentMesh
  import Inbox
  import Audit

  /** The fields of a catalog scenario that a run reads. The risk vector only
      feeds the radar drawing and is not modelled. */
  datatype Scenario = Scenario(
    id: string,
    name: string,
    industry: string,
    kpis: seq<Audit.Kpi>,
    agents: seq<string>,
    journal: seq<string>)

  /** What a run reads from the clock: `Date.now()` for the request id and
      the two ISO timestamps of its audit records. */
  datatype Clock = Clock(now: int, startedAt: string, finishedAt: string)

  datatype State = State(
    industry: string,
    gxp: bool,
    threshold: nat,
    kpis: seq<Audit.Kpi>,
    journal: seq<Journal.Line>,
    audit: seq<Audit.Record>,
    inbox: seq<Inbox.Item>,
    mesh: AgentMesh.Mesh)

  /** The state literal the page declares: CPG, no GxP, threshold 0.70,
      everything else empty. The load handler's first audit note is not part
      of it. */
  const Initial: State := State("CPG", false, 70, [], [], [], [], AgentMesh.EmptyMesh)

  /** Position of the first scenario with `id`, or `|catalog|`. */
  function FirstWithId(catalog: seq<Scenario>, id: string): nat {
    Find.FirstWhere(catalog, (s: Scenario) => s.id == id)
  }

  /** Position of the first scenario of `industry`, or `|catalog|`. */
  function FirstInIndustry(catalog: seq<Scenario>, industry: string): nat {
    Find.FirstWhere(catalog, (s: Scenario) => s.industry == industry)
  }

  /** The scenario a run uses: the first with the requested id, else the
      first of the selected industry, else the first of all; nothing when
      the catalog is empty. The Run button passes its click event rather than
      an id, which matches no scenario: that is `None` here. */
  function Select(catalog: seq<Scenario>, id: Option<string>, industry: string): (r: Option<nat>)
    ensures r.None? <==> |catalog| == 0
    ensures r.Some? ==> r.value < |catalog|
    ensures id.Some? && (exists i :: 0 <= i < |catalog| && catalog[i].id == id.value) ==>
      r.Some? && catalog[r.value].id == id.value
      && forall j :: 0 <= j < r.value ==> catalog[j].id != id.value
    ensures (id.None? || forall i :: 0 <= i < |catalog| ==> catalog[i].id != id.value) ==>
      ((exists i :: 0 <= i < |catalog| && catalog[i].industry == industry) ==>
        r.Some? && catalog[r.value].industry == industry
        && forall j :: 0 <= j < r.value ==> catalog[j].industry != industry)
    ensures ((id.None? || forall i :: 0 <= i < |catalog| ==> catalog[i].id != id.value)
      && (forall i :: 0 <= i < |catalog| ==> catalog[i].industry != industry)
      && |catalog| > 0) ==> r == Some(0)
  {
    var byId := if id.Some? then FirstWithId(catalog, id.value) else |catalog|;
    var byIndustry := FirstInIndustry(catalog, industry);
    if byId < |catalog| then Some(byId)
    else if byIndustry < |catalog| then Some(byIndustry)
    else if |catalog| > 0 then Some(0)
    else None
  }

  /** The outcome of a run. With an empty catalog the source throws after it
      has already reset the mesh; the state it leaves behind is kept. */
  datatype RunOutcome = Completed(state: State) | Threw(state: State)

  /** The policy-evaluation phase of a run: build the mesh, write the run-time
      guard lines to the journal, and file a request when blocked. */
  function GuardPhase(st: State, s: Scenario, now: int): (r: State)
    ensures |r.journal| >= |st.journal| && r.journal[..|st.journal|] == st.journal
    ensures r.journal[|st.journal|..] == Journal.RuntimeGuardLines(st.gxp, st.threshold)
    ensures |r.inbox| == |st.inbox| + (if st.gxp || st.threshold > 70 then 1 else 0)
    ensures r.inbox[..|st.inbox|] == st.inbox
    ensures st.gxp || st.threshold > 70 ==> r.inbox[|st.inbox|] == Inbox.Request(now, s.name)
    ensures r.mesh == AgentMesh.Build(s.agents, st.gxp, st.threshold)
    ensures r.audit == st.audit
  {
    st.(mesh := AgentMesh.Build(s.agents, st.gxp, st.threshold),
        journal := st.journal + Journal.RuntimeGuardLines(st.gxp, st.threshold),
        inbox := if Governance.Blocked(st.gxp, st.threshold) then st.inbox + [Inbox.Request(now, s.name)] else st.inbox)
  }

  /** A run of scenario `s`: log the start, evaluate the policy, show the
      scenario's KPIs and canned journal, log the summary. */
  function RunScenario(st: State, s: Scenario, clock: Clock): (r: State)
    ensures r.industry == st.industry && r.gxp == st.gxp && r.threshold == st.threshold
    ensures r.kpis == s.kpis
    // the inbox gains exactly one pending "Approve Commit" request iff blocked
    ensures |r.inbox| == |st.inbox| + (if st.gxp || st.threshold > 70 then 1 else 0)
    ensures r.inbox[..|st.inbox|] == st.inbox
    ensures st.gxp || st.threshold > 70 ==> r.inbox[|st.inbox|] == Inbox.Request(clock.now, s.name)
    // a fresh three-message mesh whose edges mirror its messages
    ensures r.mesh == AgentMesh.Build(s.agents, st.gxp, st.threshold)
    // the journal shows the scenario's canned lines and nothing else
    ensures r.journal == Journal.ParseAll(s.journal)
    // two audit records are appended, nothing is removed
    ensures |r.audit| == |st.audit| + 2 && r.audit[..|st.audit|] == st.audit
  {
    // The start note and the reset of the mesh precede the guard phase;
    // neither is read by it, so the phase runs on `st` directly.
    var summary := Audit.RunSummary(clock.finishedAt, s.id, st.gxp, st.threshold, Audit.KpiSummary(s.kpis));
    var audit := Audit.LogInfo(st.audit, clock.startedAt, "Running: " + s.name) + [summary];
    var guarded := GuardPhase(st, s, clock.now);
    assert audit[..|st.audit|] == st.audit;
    guarded.(kpis := s.kpis, journal := Journal.ParseAll(s.journal), audit := audit)
  }

  /** Running with the scenario the selection rule picks; with an empty
      catalog the run throws after resetting the mesh. */
  function Run(st: State, catalog: seq<Scenario>, id: Option<string>, clock: Clock): (r: RunOutcome)
    ensures r.Threw? <==> |catalog| == 0
    ensures r.Threw? ==> r.state == st.(mesh := AgentMesh.EmptyMesh)
    ensures r.Completed? ==> r.state == RunScenario(st, catalog[Select(catalog, id, st.industry).value], clock)
  {
    match Select(catalog, id, st.industry)
    case None => Threw(st.(mesh := AgentMesh.EmptyMesh))
    case Some(k) => Completed(RunScenario(st, catalog[k], clock))
  }

  /** The two audit records of a completed run: the "Running" note and the
      summary carrying the KPI line. */
  lemma RunAudit(st: State, catalog: seq<Scenario>, id: Option<string>, clock: Clock)
    requires |catalog| > 0
    ensures var s := catalog[Select(catalog, id, st.industry).value];
      Run(st, catalog, id, clock).state.audit == st.audit + [
        Audit.Note(clock.startedAt, "Running: " + s.name),
        Audit.RunSummary(clock.finishedAt, s.id, st.gxp, st.threshold, Audit.KpiSummary(s.kpis))]
  {
    var s := catalog[Select(catalog, id, st.industry).value];
    assert Run(st, catalog, id, clock).state == RunScenario(st, s, clock);
  }

  /** The mesh a run leaves: three messages mirrored by their edges, exactly
      one of them blocked when the run is blocked and none otherwise. */
  lemma RunMesh(st: State, s: Scenario, clock: Clock)
    ensures var mesh := RunScenario(st, s, clock).mesh;
      && AgentMesh.Mirrored(mesh) && |mesh.messages| == 3
      && AgentMesh.BlockCount(mesh.messages) == (if st.gxp || st.threshold > 70 then 1 else 0)
      && AgentMesh.BlocksOnlyCommit(mesh.messages)
  {
    AgentMesh.BuildShape(s.agents, st.gxp, st.threshold);
  }

  /** The run-time guard lines are written and then wiped: the guard phase
      ends the journal with the block line exactly when the run is blocked,
      yet the journal a run leaves behind does not depend on the controls or
      on what the journal held before. */
  lemma RunDiscardsGuardLines(st: State, st': State, catalog: seq<Scenario>, id: Option<string>, clock: Clock, clock': Clock)
    requires |catalog| > 0 && st.industry == st'.industry
    ensures var s := catalog[Select(catalog, id, st.industry).value];
      var g := GuardPhase(st, s, clock.now).journal;
      g[|g| - 1].tag == Journal.Block <==> st.gxp || st.threshold > 70
    ensures Run(st, catalog, id, clock).state.journal == Run(st', catalog, id, clock').state.journal
  {
  }

  /** The Approve click for request `id`. */
  function Approve(st: State, id: int): (r: State)
    ensures r.inbox == Inbox.Approve(st.inbox, id)
    ensures r.journal == st.journal + [Journal.ApprovalLine]
    // no message blocks any more; a message that did not block is untouched
    ensures AgentMesh.BlockCount(r.mesh.messages) == 0
    ensures |r.mesh.messages| == |st.mesh.messages|
    ensures forall i :: 0 <= i < |st.mesh.messages| && st.mesh.messages[i].guard != Some(Governance.Block) ==>
      r.mesh.messages[i] == st.mesh.messages[i]
    ensures forall i :: 0 <= i < |st.mesh.messages| && st.mesh.messages[i].guard == Some(Governance.Block) ==>
      r.mesh.messages[i] == st.mesh.messages[i].(guard := Some(Governance.Ok))
    ensures AgentMesh.Mirrored(st.mesh) ==> AgentMesh.Mirrored(r.mesh)
    ensures r.mesh.nodes == st.mesh.nodes
    ensures r.audit == st.audit && r.kpis == st.kpis
    ensures r.industry == st.industry && r.gxp == st.gxp && r.threshold == st.threshold
  {
    st.(inbox := Inbox.Approve(st.inbox, id),
        journal := st.journal + [Journal.ApprovalLine],
        mesh := AgentMesh.Unblock(st.mesh))
  }

  /** Approving the same id again changes nothing but adding one more
      journal line. */
  lemma ApproveTwice(st: State, id: int)
    ensures var once := Approve(st, id);
      Approve(once, id) == once.(journal := once.journal + [Journal.ApprovalLine])
  {
    Inbox.ApproveIdempotent(st.inbox, id);
    AgentMesh.UnblockIdempotent(st.mesh);
  }

  /** The blocked-then-approved path: after a blocked run and a click on the
      request it filed, the first request with that id is approved (the new
      one, when no earlier request shares its id) and the commit message is
      `ok`. */
  lemma RunThenApprove(st: State, catalog: seq<Scenario>, id: Option<string>, clock: Clock)
    requires |catalog| > 0 && (st.gxp || st.threshold > 70)
    ensures var ran := Run(st, catalog, id, clock).state;
      var done := Approve(ran, clock.now);
      var k := Inbox.FirstIndex(ran.inbox, clock.now);
      && k < |ran.inbox| && done.inbox[k].status == Inbox.Approved
      && (!Inbox.Contains(st.inbox, clock.now) ==> k == |st.inbox|)
      && done.mesh.messages[2].kind == AgentMesh.Commit
      && done.mesh.messages[2].guard == Some(Governance.Ok)
  {
    var s := catalog[Select(catalog, id, st.industry).value];
    var ran := RunScenario(st, s, clock);
    assert Run(st, catalog, id, clock).state == ran;
    assert ran.inbox == st.inbox + [Inbox.Request(clock.now, s.name)];
    Inbox.ApproveFiled(st.inbox, Inbox.Request(clock.now, s.name));
    AgentMesh.ApprovedCommitIsOk(s.agents, st.gxp, st.threshold);
  }

  /** What every reachable state satisfies: edges mirror messages, and only a
      commit message can carry the `block` guard. */
  predicate Consistent(st: State) {
    AgentMesh.Mirrored(st.mesh) && AgentMesh.BlocksOnlyCommit(st.mesh.messages)
  }

  /** A user action: changing the industry, GxP and threshold controls, a
      run, an Approve click, or an action whose only effect on the modelled
      state is one audit note (page load, generating or deploying a plan). */
  datatype Action =
    | SetControls(industry: string, gxp: bool, threshold: nat)
    | RunAction(id: Option<string>, clock: Clock)
    | ApproveAction(requestId: int)
    | LogNote(ts: string, msg: string)

  /** The effect of one action. Only the controls change the controls, and
      changing them touches nothing else. */
  function Step(st: State, catalog: seq<Scenario>, a: Action): (r: State)
    ensures !a.SetControls? ==> r.industry == st.industry && r.gxp == st.gxp && r.threshold == st.threshold
    ensures a.SetControls? ==> r.industry == a.industry && r.gxp == a.gxp && r.threshold == a.threshold
    ensures a.SetControls? ==>
      r.kpis == st.kpis && r.journal == st.journal && r.audit == st.audit && r.inbox == st.inbox && r.mesh == st.mesh
    ensures a.LogNote? ==> r.audit == st.audit + [Audit.Note(a.ts, a.msg)]
    ensures a.LogNote? ==>
      r.kpis == st.kpis && r.journal == st.journal && r.inbox == st.inbox && r.mesh == st.mesh
  {
    match a
    case SetControls(industry, gxp, threshold) => st.(industry := industry, gxp := gxp, threshold := threshold)
    case RunAction(id, clock) => Run(st, catalog, id, clock).state
    case ApproveAction(requestId) => Approve(st, requestId)
    case LogNote(ts, msg) => st.(audit := Audit.LogInfo(st.audit, ts, msg))
  }

  /** The state after a sequence of actions. Without a change of controls
      the controls stay as they were. */
  function Replay(st: State, catalog: seq<Scenario>, actions: seq<Action>): (r: State)
    ensures |actions| == 0 ==> r == st
    ensures (forall i :: 0 <= i < |actions| ==> !actions[i].SetControls?) ==>
      r.industry == st.industry && r.gxp == st.gxp && r.threshold == st.threshold
    decreases |actions|
  {
    if |actions| == 0 then st
    else Replay(Step(st, catalog, actions[0]), catalog, actions[1..])
  }

  function RunCount(actions: seq<Action>): nat {
    if |actions| == 0 then 0 else (if actions[0].RunAction? then 1 else 0) + RunCount(actions[1..])
  }

  function NoteCount(actions: seq<Action>): nat {
    if |actions| == 0 then 0 else (if actions[0].LogNote? then 1 else 0) + NoteCount(actions[1..])
  }

  /** One action keeps the state consistent. */
  lemma StepConsistent(st: State, catalog: seq<Scenario>, a: Action)
    requires Consistent(st)
    ensures Consistent(Step(st, catalog, a))
  {
    match a
    case RunAction(id, clock) =>
      if |catalog| > 0 {
        var s := catalog[Select(catalog, id, st.industry).value];
        RunMesh(st, s, clock);
      }
    case SetControls(_, _, _) =>
    case ApproveAction(requestId) =>
    case LogNote(_, _) =>
  }

  /** What one action does to the audit trail and the inbox. */
  lemma StepGrows(st: State, catalog: seq<Scenario>, a: Action)
    ensures var next := Step(st, catalog, a);
      && |next.audit| >= |st.audit| && next.audit[..|st.audit|] == st.audit
      && (|catalog| > 0 ==> |next.audit| == |st.audit| + (if a.RunAction? then 2 else if a.LogNote? then 1 else 0))
      && |next.inbox| >= |st.inbox|
  {
  }

  /** Along any sequence of actions from a consistent state, the state stays
      consistent. */
  lemma {:induction false} ReplayConsistent(st: State, catalog: seq<Scenario>, actions: seq<Action>)
    requires Consistent(st)
    ensures Consistent(Replay(st, catalog, actions))
    decreases |actions|
  {
    if |actions| > 0 {
      StepConsistent(st, catalog, actions[0]);
      ReplayConsistent(Step(st, catalog, actions[0]), catalog, actions[1..]);
    }
  }

  /** Along any sequence of actions the audit trail only grows: two records
      per run when the catalog is non-empty, one per note, none per approval
      or change of controls; and the inbox
      never shrinks. */
  lemma {:induction false} ReplayGrows(st: State, catalog: seq<Scenario>, actions: seq<Action>)
    ensures var end := Replay(st, catalog, actions);
      && |end.audit| >= |st.audit| && end.audit[..|st.audit|] == st.audit
      && (|catalog| > 0 ==> |end.audit| == |st.audit| + 2 * RunCount(actions) + NoteCount(actions))
      && |end.inbox| >= |st.inbox|
    decreases |actions|
  {
    if |actions| > 0 {
      var next := Step(st, catalog, actions[0]);
      StepGrows(st, catalog, actions[0]);
      ReplayGrows(next, catalog, actions[1..]);
      var end := Replay(next, catalog, actions[1..]);
      assert end == Replay(st, catalog, actions);
      assert end.audit[..|st.audit|] == end.audit[..|next.audit|][..|st.audit|];
    }
  }

  /** Replaying two sequences one after the other is replaying them joined. */
  lemma {:induction false} ReplayAppend(st: State, catalog: seq<Scenario>, first: seq<Action>, second: seq<Action>)
    ensures Replay(st, catalog, first + second) == Replay(Replay(st, catalog, first), catalog, second)
    decreases |first|
  {
    if |first| == 0 {
      assert first + second == second;
    } else {
      assert (first + second)[0] == first[0];
      assert (first + second)[1..] == first[1..] + second;
      ReplayAppend(Step(st, catalog, first[0]), catalog, first[1..], second);
    }
  }

  lemma InitialConsistent()
    ensures Consistent(Initial)
  {
  }
}
