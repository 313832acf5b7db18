/** The two shipped scenarios and what running them does. */
module Catalog {
  import opened Options
  import Governance
  import Journal
  import AgentMesh
  import Inbox
  import Audit
  import opened Engine

  const CpgPromo: Scenario := Scenario(
    "cpg_promo",
    "CPG \U{2014} Promo Surge",
    "CPG",
    [Audit.Kpi("OSA", "\U{2191} +1.4 pts"), Audit.Kpi("Markdown", "\U{2193} -$420k"), Audit.Kpi("Expedite", "\U{2193} -$180k")],
    ["DemandPlanner", "SupplyPlanner", "MEIO", "ATP", "Exceptions"],
    Journal.CannedLines(CpgTags, CpgTexts))

  const CpgTags: seq<string> := ["INFO", "INFO", "GUARDRAIL", "APPROVAL", "INFO"]
  const CpgTexts: seq<string> := [
    "DemandPlanner simulated uplift 18% (promo weeks 7\U{2013}9)",
    "MEIO recalculated safety stocks (service target 96%)",
    "Autonomy 0.70 \U{2264} Threshold 0.70 \U{2014} proposal allowed",
    "Expedite plan requires approver if GxP=true",
    "ATP recomputed CTP; commit reduced by 12%"]

  const LsCold: Scenario := Scenario(
    "ls_cold",
    "Life Sciences \U{2014} Cold Chain Deviation",
    "LifeSciences",
    [Audit.Kpi("ReleaseHours", "\U{2193} -18 hrs"), Audit.Kpi("Deviations", "\U{2193} -22%"), Audit.Kpi("Excursions", "\U{2193} -17%")],
    ["BatchRelease", "Quality", "SupplyPlanner", "ATP", "Exceptions"],
    Journal.CannedLines(LsTags, LsTexts))

  const LsTags: seq<string> := ["INFO", "GUARDRAIL", "BLOCK", "INFO"]
  const LsTexts: seq<string> := [
    "Quality ingested excursion telemetry (GLP compliant)",
    "GxP=true forces human approval for release",
    "Threshold 0.72 > 0.70 \U{2014} commit blocked until approval",
    "Release cycle time improved by 18 hours post\U{2011}approval"]

  const Scenarios: seq<Scenario> := [CpgPromo, LsCold]

  /** The Run button (no id) picks the scenario of the selected industry; a
      scenario card picks its own scenario. */
  lemma RunButtonPicksIndustry()
    ensures Select(Scenarios, None, "CPG") == Some(0)
    ensures Select(Scenarios, None, "LifeSciences") == Some(1)
    ensures Select(Scenarios, Some("ls_cold"), "CPG") == Some(1)
  {
    assert "CPG" != "LifeSciences" by { assert "CPG"[0] != "LifeSciences"[0]; }
    assert Scenarios[0].industry == "CPG" && Scenarios[1].industry == "LifeSciences";
    assert FirstInIndustry(Scenarios, "LifeSciences") == 1;
    assert "cpg_promo" != "ls_cold" by { assert "cpg_promo"[0] != "ls_cold"[0]; }
    assert Scenarios[0].id == "cpg_promo" && Scenarios[1].id == "ls_cold";
    assert FirstWithId(Scenarios, "ls_cold") == 1;
  }

  /** An industry with no scenario falls back to the first one. */
  lemma UnknownIndustryFallsBack()
    ensures Select(Scenarios, None, "Retail") == Some(0)
  {
  }

  /** The CPG scenario's journal as displayed: the tags decide the classes,
      and the `[APPROVAL]` line is shown as information. */
  lemma CpgJournalTags()
    ensures var p := Journal.ParseAll(CpgPromo.journal);
      |p| == 5 && p[0].tag == Journal.Info && p[1].tag == Journal.Info && p[2].tag == Journal.Guard
      && p[3].tag == Journal.Info && p[4].tag == Journal.Info
  {
    CpgTagClasses();
    CannedTagWords();
    Journal.ClassifyAllCanned(CpgTags, CpgTexts);
  }

  lemma CpgTagClasses()
    ensures forall i :: 0 <= i < |CpgTags| ==> Journal.IsWord(CpgTags[i])
    ensures Journal.TagOfWord(CpgTags[0]) == Journal.Info && Journal.TagOfWord(CpgTags[1]) == Journal.Info
    ensures Journal.TagOfWord(CpgTags[2]) == Journal.Guard && Journal.TagOfWord(CpgTags[3]) == Journal.Info
    ensures Journal.TagOfWord(CpgTags[4]) == Journal.Info
  {
    CannedTagWords();
  }

  /** The Life Sciences scenario's journal as displayed: one guard line and
      one block line between information lines. */
  lemma LsJournalTags()
    ensures var p := Journal.ParseAll(LsCold.journal);
      |p| == 4 && p[0].tag == Journal.Info && p[1].tag == Journal.Guard && p[2].tag == Journal.Block
      && p[3].tag == Journal.Info
  {
    CannedTagWords();
    Journal.ClassifyAllCanned(LsTags, LsTexts);
  }

  lemma CannedTagWords()
    ensures forall w :: w in ["INFO", "APPROVAL", "GUARDRAIL", "BLOCK"] ==> Journal.IsWord(w)
    ensures Journal.TagOfWord("INFO") == Journal.Info && Journal.TagOfWord("APPROVAL") == Journal.Info
    ensures Journal.TagOfWord("GUARDRAIL") == Journal.Guard && Journal.TagOfWord("BLOCK") == Journal.Block
  {
    assert "INFO" != "BLOCK" && "INFO" != "GUARDRAIL" by { assert "INFO"[0] != 'B' && "INFO"[0] != 'G'; }
    assert "APPROVAL" != "BLOCK" && "APPROVAL" != "GUARDRAIL" by { assert "APPROVAL"[0] != 'B' && "APPROVAL"[0] != 'G'; }
    assert "GUARDRAIL" != "BLOCK" by { assert "GUARDRAIL"[0] != 'B'; }
  }

  /** A CPG user without GxP at threshold 0.70: the commit goes through
      autonomously and no request is filed. */
  lemma CpgAutonomous(st: State, clock: Clock)
    requires st.industry == "CPG" && !st.gxp && st.threshold == 70
    ensures var ran := Run(st, Scenarios, None, clock).state;
      && ran.inbox == st.inbox
      && ran.mesh.messages[2] == AgentMesh.Message("MEIO", "ATP", AgentMesh.Commit, "Autonomous commit", Some(Governance.Ok))
      && ran.journal == Journal.ParseAll(CpgPromo.journal)
  {
    RunButtonPicksIndustry();
    var s := Scenarios[0];
    AgentMesh.BuildShape(s.agents, st.gxp, st.threshold);
  }

  /** A Life Sciences user with GxP at threshold 0.72: a pending request
      naming the scenario is filed and the commit is blocked. */
  lemma LifeSciencesBlocked(st: State, clock: Clock)
    requires st.industry == "LifeSciences" && st.gxp && st.threshold == 72
    ensures var ran := Run(st, Scenarios, None, clock).state;
      && ran.inbox == st.inbox + [Inbox.Request(clock.now, LsCold.name)]
      && ran.mesh.messages[2].guard == Some(Governance.Block)
  {
    RunButtonPicksIndustry();
    AgentMesh.BuildShape(LsCold.agents, st.gxp, st.threshold);
  }

  /** Approving the request that run filed approves it and clears the block. */
  lemma LifeSciencesApproved(st: State, clock: Clock)
    requires st.industry == "LifeSciences" && st.gxp && st.threshold == 72
    requires !Inbox.Contains(st.inbox, clock.now)
    ensures var done := Approve(Run(st, Scenarios, None, clock).state, clock.now);
      && done.inbox[|st.inbox|].status == Inbox.Approved
      && done.mesh.messages[2].guard == Some(Governance.Ok)
  {
    RunThenApprove(st, Scenarios, None, clock);
  }

  /** The exchange names its agents itself rather than taking them from the
      scenario: every message is drawn for the CPG scenario. */
  lemma CpgMeshDrawn(gxp: bool, threshold: nat)
    ensures var m := AgentMesh.Build(CpgPromo.agents, gxp, threshold);
      AgentMesh.Drawn(m.nodes, m.messages) == m.messages
  {
    var m := AgentMesh.Build(CpgPromo.agents, gxp, threshold);
    assert m.nodes[0].id == "DemandPlanner" && m.nodes[1].id == "SupplyPlanner";
    assert m.nodes[2].id == "MEIO" && m.nodes[3].id == "ATP";
    AgentMesh.DrawnAll(m.nodes, m.messages);
  }

  /** None is drawn for the Life Sciences scenario, whose agents include
      neither DemandPlanner nor MEIO. */
  lemma LsMeshDrawsNothing(gxp: bool, threshold: nat)
    ensures var m := AgentMesh.Build(LsCold.agents, gxp, threshold);
      AgentMesh.Drawn(m.nodes, m.messages) == []
  {
    var m := AgentMesh.Build(LsCold.agents, gxp, threshold);
    LsAgentsLackSenders();
    assert !AgentMesh.HasNode(m.nodes, "DemandPlanner");
    assert !AgentMesh.HasNode(m.nodes, "MEIO");
    AgentMesh.DrawnNone(m.nodes, m.messages);
  }

  lemma LsAgentsLackSenders()
    ensures "DemandPlanner" !in LsCold.agents && "MEIO" !in LsCold.agents
  {
    var a := LsCold.agents;
    assert a[0][0] == 'B' && a[1][0] == 'Q' && a[2][0] == 'S' && a[3][0] == 'A' && a[4][0] == 'E';
  }
}
