/** The policy guard: the three guard levels shared by badges and mesh edges,
    the rule that decides whether a commit is blocked, and the two badge
    classifiers (entity/model status and asset policy). The autonomy threshold
    is held in integer hundredths (the slider moves in steps of 0.01). */
module Governance {
  import opened Text

  /** CSS classes `ok`, `warn` and `block`. */
  datatype Level = Ok | Warn | Block

  /** Threshold, in hundredths, above which an autonomous commit is blocked. */
  const BlockAbove: nat := 70

  /** Actions the GxP rule gates. */
  const GatedActions: seq<string> := ["Commit", "Release"]

  /** The `blocked` flag of a run: GxP gating the Commit action, or the
      threshold above 0.70. */
  function Blocked(gxp: bool, threshold: nat): (r: bool)
    ensures r <==> gxp || threshold > 70
  {
    (gxp && "Commit" in GatedActions) || threshold > BlockAbove
  }

  /** Guard on the `propose` message: a warning above the threshold. */
  function ProposeGuard(threshold: nat): (r: Level)
    ensures r != Block
    ensures r == Warn <==> threshold > 70
  {
    if threshold > BlockAbove then Warn else Ok
  }

  /** Guard on the `commit` message: never a warning. */
  function CommitGuard(gxp: bool, threshold: nat): (r: Level)
    ensures r != Warn
    ensures r == Block <==> gxp || threshold > 70
  {
    if Blocked(gxp, threshold) then Block else Ok
  }

  /** The final edge never carries a weaker guard than the `propose` edge:
      whenever the propose edge warns, the commit edge blocks. */
  lemma CommitAtLeastAsStrict(gxp: bool, threshold: nat)
    ensures ProposeGuard(threshold) == Warn ==> CommitGuard(gxp, threshold) == Block
    ensures CommitGuard(false, threshold) == Block <==> ProposeGuard(threshold) == Warn
  {
  }

  /** `badgeClass`: the status text `OK` or `WARN`, anything else blocks. */
  function BadgeClass(status: string): (r: Level)
    ensures r == Ok <==> status == "OK"
    ensures r == Warn <==> status == "WARN"
  {
    if status == "OK" then Ok else if status == "WARN" then Warn else Block
  }

  /** Upper-case name of a level, the form statuses take in the catalogs. */
  function StatusName(l: Level): string {
    match l
    case Ok => "OK"
    case Warn => "WARN"
    case Block => "BLOCK"
  }

  /** Classifying a level's own status name gives the level back. */
  lemma BadgeClassRoundTrip(l: Level)
    ensures BadgeClass(StatusName(l)) == l
  {
  }

  /** Badge shown for one asset policy: its first word, coloured `warn` when
      that word mentions GxP, `block` when it mentions a threshold, `ok`
      otherwise (case-insensitively). */
  datatype PolicyBadge = PolicyBadge(key: string, level: Level)

  function PolicyBadgeOf(policy: string): (r: PolicyBadge)
    ensures StartsWith(policy, r.key) && ' ' !in r.key
    ensures |r.key| == |policy| || policy[|r.key|] == ' '
    ensures r.level == Warn <==> Includes(LowerAscii(r.key), "gxp")
    ensures r.level == Block <==> !Includes(LowerAscii(r.key), "gxp") && Includes(LowerAscii(r.key), "threshold")
  {
    var key := FirstWord(policy);
    var lower := LowerAscii(key);
    PolicyBadge(key, if Includes(lower, "gxp") then Warn else if Includes(lower, "threshold") then Block else Ok)
  }

  /** Only the first word counts: whatever follows the first space never
      changes the badge. */
  lemma PolicyBadgeFirstWordOnly(word: string, rest: string)
    requires ' ' !in word
    ensures PolicyBadgeOf(word + " " + rest) == PolicyBadgeOf(word)
  {
    FirstWordStops(word, rest);
  }

  /** The two policies of the asset catalog get the badges the catalog view
      shows: GxP in `warn`, Threshold in `block`. */
  lemma GxpPolicyBadge()
    ensures PolicyBadgeOf("GxP Approval Required") == PolicyBadge("GxP", Warn)
  {
    GxpPolicySplits();
    PolicyBadgeFirstWordOnly("GxP", "Approval Required");
    FirstWordStops("GxP", "");
    GxpLowers();
    assert StartsWith("gxp", "gxp");
  }

  lemma ThresholdPolicyBadge()
    ensures PolicyBadgeOf("Threshold >0.70 blocks commit") == PolicyBadge("Threshold", Block)
  {
    ThresholdPolicySplits();
    PolicyBadgeFirstWordOnly("Threshold", ">0.70 blocks commit");
    ThresholdWordBadge();
  }

  lemma ThresholdWordBadge()
    ensures PolicyBadgeOf("Threshold") == PolicyBadge("Threshold", Block)
  {
    FirstWordStops("Threshold", "");
    ThresholdLowers();
    ThresholdWordIncludes();
  }

  lemma ThresholdWordIncludes()
    ensures !Includes("threshold", "gxp") && Includes("threshold", "threshold")
  {
    NotIncludedWithoutFirstChar("threshold", "gxp");
    assert StartsWith("threshold", "threshold");
  }

  lemma GxpPolicySplits()
    ensures "GxP" + " " + "Approval Required" == "GxP Approval Required"
  {
  }

  lemma ThresholdPolicySplits()
    ensures "Threshold" + " " + ">0.70 blocks commit" == "Threshold >0.70 blocks commit"
  {
  }

  lemma GxpLowers()
    ensures LowerAscii("GxP") == "gxp"
  {
    var lower := LowerAscii("GxP");
    assert forall i | 0 <= i < 3 :: lower[i] == "gxp"[i];
  }

  lemma ThresholdLowers()
    ensures LowerAscii("Threshold") == "threshold"
  {
    var lower := LowerAscii("Threshold");
    assert forall i | 0 <= i < 9 :: lower[i] == "threshold"[i];
  }
}
