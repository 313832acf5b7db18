/** The audit trail: free-text notes and run summaries, appended in order and
    never removed; the audit view shows the most recent 200. Timestamps are
    supplied by the caller. */
module Audit {
  import opened Text

  datatype Kpi = Kpi(name: string, value: string)

  datatype Record =
    | Note(ts: string, msg: string)
    | RunSummary(ts: string, scenario: string, gxp: bool, threshold: nat, result: string)

  /** `logInfo`. */
  function LogInfo(audit: seq<Record>, ts: string, msg: string): (r: seq<Record>)
    ensures |r| == |audit| + 1 && r[..|audit|] == audit
    ensures r[|audit|] == Note(ts, msg)
  {
    audit + [Note(ts, msg)]
  }

  const Bullet: string := " \U{2022} "

  function KpiText(k: Kpi): string {
    k.name + ": " + k.value
  }

  /** The `name: value` text of every KPI, in catalog order. */
  function KpiTexts(kpis: seq<Kpi>): (r: seq<string>)
    ensures |r| == |kpis|
    ensures forall i :: 0 <= i < |kpis| ==> r[i] == KpiText(kpis[i])
  {
    seq(|kpis|, i requires 0 <= i < |kpis| => KpiText(kpis[i]))
  }

  /** The KPI texts joined by bullets. */
  function KpiSummary(kpis: seq<Kpi>): (r: string)
    ensures |kpis| == 0 ==> r == ""
    ensures |kpis| > 0 ==> StartsWith(r, KpiText(kpis[0])) && EndsWith(r, KpiText(kpis[|kpis| - 1]))
  {
    Join(KpiTexts(kpis), Bullet)
  }

  /** One KPI more adds one bullet and that KPI's text at the end. */
  lemma KpiSummarySnoc(kpis: seq<Kpi>, k: Kpi)
    requires |kpis| > 0
    ensures KpiSummary(kpis + [k]) == KpiSummary(kpis) + Bullet + KpiText(k)
  {
    var all := kpis + [k];
    assert KpiTexts(all) == KpiTexts(kpis) + [KpiText(k)] by {
      assert forall i :: 0 <= i < |kpis| ==> all[i] == kpis[i];
    }
    JoinSnoc(KpiTexts(kpis), KpiText(k), Bullet);
  }

  /** The summary's length is the KPI texts plus one bullet between each pair. */
  lemma KpiSummaryLength(kpis: seq<Kpi>)
    requires |kpis| > 0
    ensures |KpiSummary(kpis)| == TotalLength(KpiTexts(kpis)) + (|kpis| - 1) * |Bullet|
  {
    JoinLength(KpiTexts(kpis), Bullet);
  }

  const DisplayLimit: nat := 200

  /** `audit.slice(-200)`: the last min(200, n) records, in order. */
  function Recent(audit: seq<Record>): (r: seq<Record>)
    ensures |r| == if |audit| < 200 then |audit| else 200
    ensures r == audit[|audit| - |r|..]
  {
    if |audit| <= DisplayLimit then audit else audit[|audit| - DisplayLimit..]
  }

  /** Records just appended are the last ones displayed. */
  lemma RecentShowsNewest(audit: seq<Record>, added: seq<Record>)
    requires |added| <= 200
    ensures var r := Recent(audit + added); r[|r| - |added|..] == added
  {
    var all := audit + added;
    var r := Recent(all);
    assert all[|all| - |added|..] == added;
  }
}
