/** The readiness summary: the share of data entities and registered models
    whose status is `OK`, rounded to a whole percentage, and the "Missing"
    pills shown below 95%. */
module Readiness {
  import opened Options

  /** Number of `OK` statuses. */
  function CountOk(statuses: seq<string>): (r: nat)
    ensures r <= |statuses|
    ensures r == 0 <==> forall i :: 0 <= i < |statuses| ==> statuses[i] != "OK"
    ensures r == |statuses| <==> forall i :: 0 <= i < |statuses| ==> statuses[i] == "OK"
  {
    if |statuses| == 0 then 0
    else (if statuses[0] == "OK" then 1 else 0) + CountOk(statuses[1..])
  }

  /** Counting two catalogs separately and adding is counting them together. */
  lemma {:induction false} CountOkAppend(a: seq<string>, b: seq<string>)
    ensures CountOk(a + b) == CountOk(a) + CountOk(b)
    decreases |a|
  {
    if |a| == 0 {
      assert a + b == b;
    } else {
      assert (a + b)[1..] == a[1..] + b;
      CountOkAppend(a[1..], b);
    }
  }

  /** `Math.round(oks / total * 100)` computed exactly: the nearest whole
      percentage, halves rounded up. With no items the quotient is NaN, which
      is no percentage at all. */
  function RoundPercent(oks: nat, total: nat): (r: Option<int>)
    ensures r.None? <==> total == 0
    ensures r.Some? ==> 2 * total * r.value <= 200 * oks + total < 2 * total * (r.value + 1)
    ensures r.Some? && oks <= total ==> 0 <= r.value <= 100
  {
    if total == 0 then None
    else
      var n, d := 200 * oks + total, 2 * total;
      DivBounds(n, d);
      var p := n / d;
      assert oks <= total ==> n < d * 101;
      MulLess(d, p, 101);
      MulLess(d, -1, p);
      Some(p)
  }

  lemma DivBounds(n: int, d: int)
    requires n >= 0 && d > 0
    ensures d * (n / d) <= n < d * (n / d + 1)
  {
    var q, m := n / d, n % d;
    assert n == d * q + m && 0 <= m < d;
    assert d * (q + 1) == d * q + d;
  }

  lemma MulLess(d: int, a: int, b: int)
    requires d > 0
    ensures d * a < d * b <==> a < b
  {
    assert d * b - d * a == d * (b - a);
    if a < b {
      MulPos(d, b - a);
    } else if a > b {
      MulPos(d, a - b);
      assert d * a - d * b == d * (a - b);
    }
  }

  lemma {:induction false} MulPos(x: int, y: int)
    requires x > 0 && y > 0
    ensures x * y > 0
    decreases y
  {
    if y > 1 {
      MulPos(x, y - 1);
      assert x * y == x * (y - 1) + x;
    }
  }

  /** Readiness over the entity catalog and the model registry. */
  function ReadinessPercent(entities: seq<string>, models: seq<string>): (r: Option<int>)
    ensures r == RoundPercent(CountOk(entities + models), |entities| + |models|)
    ensures r.None? <==> |entities| + |models| == 0
    ensures r.Some? ==> 0 <= r.value <= 100
    ensures r.Some? && CountOk(entities + models) == |entities| + |models| ==> r.value == 100
  {
    CountOkAppend(entities, models);
    var total := |entities| + |models|;
    var oks := CountOk(entities) + CountOk(models);
    if total == 0 then None
    else
      AllOkIsFull(total);
      RoundPercent(oks, total)
  }

  /** Every item OK rounds to exactly 100. */
  lemma AllOkIsFull(total: nat)
    requires 0 < total
    ensures RoundPercent(total, total) == Some(100)
  {
    var p := RoundPercent(total, total).value;
    var d := 2 * total;
    assert d * 100 <= 200 * total + total < d * (p + 1);
    MulLess(d, 100, p + 1);
  }

  const PillLimit: int := 95

  /** Pills shown under the summary: all three below 95%, none otherwise
      (NaN compares false). */
  function MissingPills(pct: Option<int>): (r: seq<string>)
    ensures |r| == 0 || |r| == 3
    ensures |r| == 3 <==> pct.Some? && pct.value < 95
    ensures |r| == 3 ==> r[0] == "Missing: Agents" && r[1] == "Missing: Data" && r[2] == "Missing: Governance"
  {
    if pct.Some? && pct.value < PillLimit then
      ["Missing: Agents", "Missing: Data", "Missing: Governance"]
    else []
  }

  /** Statuses of the data-entity catalog, in catalog order. */
  const EntityStatuses: seq<string> :=
    ["OK", "OK", "WARN", "OK", "OK", "WARN", "OK", "OK", "OK", "OK", "OK", "OK"]

  /** Statuses of the model registry, in registry order. */
  const ModelStatuses: seq<string> := ["OK", "OK", "WARN", "OK"]

  /** With the shipped catalogs, 13 of 16 items are OK: 81%, and the pills show. */
  lemma ShippedReadiness()
    ensures ReadinessPercent(EntityStatuses, ModelStatuses) == Some(81)
    ensures |MissingPills(ReadinessPercent(EntityStatuses, ModelStatuses))| == 3
  {
    ModelsOk();
    EntitiesOk();
    assert |EntityStatuses| + |ModelStatuses| == 16;
    ThirteenOfSixteen();
  }

  lemma ThirteenOfSixteen()
    ensures RoundPercent(13, 16) == Some(81)
  {
    assert (200 * 13 + 16) / (2 * 16) == 81;
  }

  lemma ModelsOk()
    ensures CountOk(ModelStatuses) == 3
  {
    var s := ModelStatuses;
    assert CountOk(s[4..]) == 0;
    assert CountOk(s[3..]) == 1;
    assert CountOk(s[2..]) == 1;
    assert CountOk(s[1..]) == 2;
    assert CountOk(s[0..]) == 3;
    assert s[0..] == s;
  }

  lemma EntitiesOk()
    ensures CountOk(EntityStatuses) == 10
  {
    var s := EntityStatuses;
    assert CountOk(s[12..]) == 0;
    assert CountOk(s[11..]) == 1;
    assert CountOk(s[10..]) == 2;
    assert CountOk(s[9..]) == 3;
    assert CountOk(s[8..]) == 4;
    assert CountOk(s[7..]) == 5;
    assert CountOk(s[6..]) == 6;
    assert CountOk(s[5..]) == 6;
    assert CountOk(s[4..]) == 7;
    assert CountOk(s[3..]) == 8;
    assert CountOk(s[2..]) == 8;
    assert CountOk(s[1..]) == 9;
    assert CountOk(s[0..]) == 10;
    assert s[0..] == s;
  }
}
