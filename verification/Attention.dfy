/** Scoring of attention candidates, in exact arithmetic: sub-scores, one row per entity, and the final order. */
module Attention {
  import opened Collections
  import opened AttentionRows
  import opened Rounding
  import Bags
  import Text

  /**
   * `savings` is absent when missing or not a number; `age` is in days before now, absent when the anchor is missing
   * or unreadable. Missing texts are empty.
   */
  datatype Candidate = Candidate(
    kind: string, entityType: string, entityId: string, savings: Option<real>, risk: string, preflight: string,
    eligible: bool, age: Option<real>)

  // ---- sub-scores ------------------------------------------------------------------------------

  function Friction(age: Option<real>): (r: real)
    ensures 10.0 <= r <= 90.0
  {
    match age
    case None => 45.0
    case Some(days) => if days <= 1.0 then 10.0 else if days <= 3.0 then 30.0 else if days <= 7.0 then 60.0 else 90.0
  }

  function RiskScore(level: string): (r: real)
    ensures 30.0 <= r <= 100.0
  {
    var l := Text.Normalize(level);
    if l == "high" then 100.0 else if l == "medium" then 60.0 else if l == "low" then 30.0 else 45.0
  }

  function Urgency(kind: string): (r: real)
    ensures 30.0 <= r <= 100.0
  {
    if kind == "failed_execution" then 100.0
    else if kind == "failed_sync" then 90.0
    else if kind == "approval_pending" then 80.0
    else if kind == "execution_ready" then 70.0
    else if kind == "execution_blocked" then 72.0
    else if kind == "approval_partial" then 60.0
    else if kind == "approval_rejected" then 50.0
    else if kind == "recommendation_top" then 30.0
    else 35.0
  }

  predicate Contains(s: string, word: string) {
    exists i :: 0 <= i <= |s| - |word| && word <= s[i..]
  }

  function Readiness(c: Candidate): (r: real)
    ensures 12.0 <= r <= 100.0
  {
    if c.kind == "failed_sync" then 12.0
    else if c.kind == "failed_execution" then 22.0
    else if c.kind == "approval_rejected" then 25.0
    else if c.kind == "approval_partial" then 70.0
    else if c.kind == "approval_pending" then
      var p := Text.Lower(c.preflight);
      if Contains(p, "fail") || Contains(p, "unsafe") || Contains(p, "error") || Contains(p, "blocked")
      then 40.0 else 85.0
    else if c.kind == "execution_ready" || c.kind == "execution_blocked" then if c.eligible then 100.0 else 48.0
    else if c.kind == "recommendation_top" then 55.0
    else 50.0
  }

  datatype Weights = Weights(impact: real, urgency: real, risk: real, readiness: real, friction: real)

  /** Non-negative weights that add up to one. */
  ghost predicate Convex(w: Weights) {
    w.impact >= 0.0 && w.urgency >= 0.0 && w.risk >= 0.0 && w.readiness >= 0.0 && w.friction >= 0.0 &&
    w.impact + w.urgency + w.risk + w.readiness + w.friction == 1.0
  }

  function WeightsFor(kind: string): (w: Weights)
    ensures Convex(w)
  {
    if kind == "failed_sync" || kind == "failed_execution" then Weights(0.20, 0.40, 0.10, 0.05, 0.25)
    else if "approval" <= kind then Weights(0.25, 0.30, 0.20, 0.15, 0.10)
    else if "execution" <= kind then Weights(0.35, 0.20, 0.15, 0.25, 0.05)
    else if kind == "recommendation_top" then Weights(0.40, 0.20, 0.20, 0.15, 0.05)
    else Weights(0.30, 0.25, 0.15, 0.20, 0.10)
  }

  predicate Failed(kind: string) {
    kind == "failed_sync" || kind == "failed_execution"
  }

  function Min100(x: real): real {
    if x > 100.0 then 100.0 else x
  }

  function Share(s: real, maxSavings: real): real
    requires maxSavings > 0.0
  {
    100.0 * s / maxSavings
  }

  function FailedImpact(kind: string): real {
    if kind == "failed_sync" then 92.0 else 78.0
  }

  /** Without a saving the kind alone decides. */
  function DefaultImpact(kind: string): real {
    if kind in {"approval_pending", "approval_partial", "approval_rejected"} then 32.0
    else if kind in {"execution_ready", "execution_blocked"} then 38.0
    else if kind == "recommendation_top" then 22.0
    else 28.0
  }

  function Impact(kind: string, savings: Option<real>, maxSavings: real): real {
    if Failed(kind) then FailedImpact(kind)
    else match savings
      case None => DefaultImpact(kind)
      case Some(s) => if maxSavings <= 0.0 then Min100(s) else Min100(Share(s, maxSavings))
  }

  function BucketOf(score: real): Bucket {
    if score >= 76.0 then Critical else if score >= 58.0 then High else if score >= 40.0 then Medium else Low
  }

  function ActionOf(r: Row): Action {
    if Failed(r.kind) then FixFailure
    else if r.kind == "execution_ready" && r.eligible then ExecuteNow
    else if r.kind in {"approval_pending", "approval_partial"} then Approve
    else if r.kind == "recommendation_top" && r.impact >= 60.0 then Review
    else Investigate
  }

  /** A missing kind scores as a top recommendation, except for its readiness. */
  function KindOf(c: Candidate): string {
    if c.kind == "" then "recommendation_top" else c.kind
  }

  function Clamp(x: real): (r: real)
    ensures 0.0 <= r <= 100.0
    ensures 0.0 <= x <= 100.0 ==> r == x
  {
    if x < 0.0 then 0.0 else if x > 100.0 then 100.0 else x
  }

  function Product(x: real, k: real): real {
    x * k
  }

  function Weighted(w: Weights, impact: real, urgency: real, risk: real, readiness: real, friction: real): real {
    Product(w.impact, impact) + Product(w.urgency, urgency) + Product(w.risk, risk) +
    Product(w.readiness, readiness) + Product(w.friction, friction)
  }

  function Priority(kind: string, impact: real, risk: real, readiness: real, friction: real): (r: real)
    ensures 0.0 <= r <= 100.0
  {
    Clamp(Weighted(WeightsFor(kind), impact, Urgency(kind), risk, readiness, friction))
  }

  function MakeRow(kind: string, entityType: string, entityId: string, eligible: bool,
                   impact: real, risk: real, readiness: real, friction: real): Row
  {
    var priority := Priority(kind, impact, risk, readiness, friction);
    Row(kind, entityType, entityId, Hundredths(priority), BucketOf(priority),
        Hundredths(impact), Hundredths(Urgency(kind)), Hundredths(risk), Hundredths(readiness), Hundredths(friction),
        eligible, NoAction)
  }

  function RowWith(c: Candidate, impact: real): Row {
    MakeRow(KindOf(c), c.entityType, c.entityId, c.eligible, impact, RiskScore(c.risk), Readiness(c), Friction(c.age))
  }

  function RowOf(c: Candidate, maxSavings: real): Row {
    RowWith(c, Impact(KindOf(c), c.savings, maxSavings))
  }

  function SavingsOf(cs: seq<Candidate>): (r: seq<Option<real>>)
    ensures |r| == |cs| && forall i :: 0 <= i < |r| ==> r[i] == cs[i].savings
  {
    seq(|cs|, i requires 0 <= i < |cs| => cs[i].savings)
  }

  /** The greatest of the savings there are. */
  function Greatest(vs: seq<Option<real>>): Option<real> {
    if vs == [] then None
    else
      var n := |vs| - 1;
      var m := Greatest(vs[..n]);
      if vs[n].None? || (m.Some? && m.value >= vs[n].value) then m else vs[n]
  }

  lemma {:induction false} GreatestIsGreatest(vs: seq<Option<real>>)
    ensures forall v :: v in vs && v.Some? ==> Greatest(vs).Some? && v.value <= Greatest(vs).value
    ensures Greatest(vs).Some? ==> Greatest(vs) in vs
  {
    if vs != [] {
      var n := |vs| - 1;
      assert forall v :: v in vs <==> v in vs[..n] || v == vs[n];
      GreatestIsGreatest(vs[..n]);
    }
  }

  /** The reference value of the impact scale; zero when no candidate has a saving. */
  function MaxSavings(cs: seq<Candidate>): real {
    OrZero(Greatest(SavingsOf(cs)))
  }

  function OrZero(m: Option<real>): real {
    if m.Some? then m.value else 0.0
  }

  function Scored(cs: seq<Candidate>): (r: seq<Row>)
    ensures |r| == |cs| && forall i :: 0 <= i < |r| ==> r[i] == RowOf(cs[i], MaxSavings(cs))
  {
    seq(|cs|, i requires 0 <= i < |cs| => RowOf(cs[i], MaxSavings(cs)))
  }

  lemma HundredthsInRange(x: real)
    requires 0.0 <= x <= 100.0
    ensures 0.0 <= Hundredths(x) <= 100.0
  {
  }

  lemma HundredthsMonotone(x: real, y: real)
    requires x <= y
    ensures Hundredths(x) <= Hundredths(y)
  {
    assert (x * 100.0).Floor <= (y * 100.0).Floor;
  }

  /** A candidate without a kind gets the row of a top recommendation, but for its readiness and what depends on it. */
  lemma MissingKindLosesReadiness(c: Candidate, maxSavings: real)
    requires c.kind == ""
    ensures var r, t := RowOf(c, maxSavings), RowOf(c.(kind := "recommendation_top"), maxSavings);
      r.readiness == 50.0 && t.readiness == 55.0 && r.score <= t.score &&
      r == t.(readiness := r.readiness, score := r.score, bucket := r.bucket)
  {
    var d := c.(kind := "recommendation_top");
    assert KindOf(c) == KindOf(d) == "recommendation_top";
    assert Readiness(c) == 50.0 && Readiness(d) == 55.0;
    assert Hundredths(50.0) == 50.0 && Hundredths(55.0) == 55.0;
    var impact := Impact("recommendation_top", c.savings, maxSavings);
    PriorityMonotone("recommendation_top", impact, RiskScore(c.risk), 50.0, Friction(c.age),
                     impact, RiskScore(c.risk), 55.0, Friction(c.age));
    hide Priority, Impact, RiskScore, Friction, Readiness, Urgency, KindOf, Hundredths;
  }

  lemma ClampMonotone(x: real, y: real)
    requires x <= y
    ensures Clamp(x) <= Clamp(y)
  {
  }

  lemma ProductMonotone(w: real, less: real, more: real)
    requires w >= 0.0 && less <= more
    ensures Product(w, less) <= Product(w, more)
  {
    assert w * (more - less) >= 0.0;
  }

  /** No sub-score counts against a candidate: raising any of them lowers neither the priority nor its rounding. */
  lemma PriorityMonotone(kind: string, impact: real, risk: real, readiness: real, friction: real,
                         impact': real, risk': real, readiness': real, friction': real)
    requires impact <= impact' && risk <= risk' && readiness <= readiness' && friction <= friction'
    ensures Priority(kind, impact, risk, readiness, friction) <= Priority(kind, impact', risk', readiness', friction')
    ensures Hundredths(Priority(kind, impact, risk, readiness, friction)) <=
      Hundredths(Priority(kind, impact', risk', readiness', friction'))
  {
    var w := WeightsFor(kind);
    assert Convex(w);
    ProductMonotone(w.impact, impact, impact');
    ProductMonotone(w.risk, risk, risk');
    ProductMonotone(w.readiness, readiness, readiness');
    ProductMonotone(w.friction, friction, friction');
    hide WeightsFor, Urgency, Product, Hundredths;
    ClampMonotone(Weighted(w, impact, Urgency(kind), risk, readiness, friction),
                  Weighted(w, impact', Urgency(kind), risk', readiness', friction'));
    HundredthsMonotone(Priority(kind, impact, risk, readiness, friction),
                       Priority(kind, impact', risk', readiness', friction'));
  }

  /** Every score lies in [0, 100]. */
  lemma ScoreInRange(c: Candidate, maxSavings: real)
    ensures 0.0 <= RowOf(c, maxSavings).score <= 100.0
  {
    var impact := Impact(KindOf(c), c.savings, maxSavings);
    HundredthsInRange(Priority(KindOf(c), impact, RiskScore(c.risk), Readiness(c), Friction(c.age)));
    hide Hundredths, Priority, Impact, RiskScore, Readiness, Friction, KindOf;
  }

  // ---- what the sub-scores and buckets mean ---------------------------------------------------------

  /** Low, anything unknown, medium, high. */
  ghost function RiskRank(level: string): nat {
    if Text.Normalize(level) == "high" then 3
    else if Text.Normalize(level) == "medium" then 2
    else if Text.Normalize(level) == "low" then 0
    else 1
  }

  lemma RiskInOrder(a: string, b: string)
    ensures RiskScore(a) <= RiskScore(b) <==> RiskRank(a) <= RiskRank(b)
  {
    hide Text.Normalize;
  }

  lemma AgeInOrder(a: real, b: real)
    requires a <= b
    ensures Friction(Some(a)) <= Friction(Some(b))
  {
  }

  ghost function BucketRank(b: Bucket): nat {
    match b case Low => 0 case Medium => 1 case High => 2 case Critical => 3
  }

  /** The second row ranks no lower. */
  ghost predicate NoLower(r: Row, s: Row) {
    r.score <= s.score && BucketRank(r.bucket) <= BucketRank(s.bucket)
  }

  /** A candidate at a higher risk, or waiting for longer, scores no lower and falls into no lower bucket. */
  lemma RiskierOrOlderRanksNoLower(c: Candidate, risk: string, days: real, more: real, maxSavings: real)
    requires RiskRank(c.risk) <= RiskRank(risk) && c.age == Some(days) && days <= more
    ensures NoLower(RowOf(c, maxSavings), RowOf(c.(risk := risk, age := Some(more)), maxSavings))
  {
    var d := c.(risk := risk, age := Some(more));
    RiskInOrder(c.risk, risk);
    AgeInOrder(days, more);
    SameButRiskAndAge(c, risk, Some(more));
    var impact := Impact(KindOf(c), c.savings, maxSavings);
    PriorityMonotone(KindOf(c), impact, RiskScore(c.risk), Readiness(c), Friction(c.age),
                     impact, RiskScore(risk), Readiness(c), Friction(Some(more)));
    hide Priority, Impact, RiskScore, Friction, Readiness, Urgency, KindOf, Hundredths, RiskRank;
  }

  lemma SameButRiskAndAge(c: Candidate, risk: string, age: Option<real>)
    ensures var d := c.(risk := risk, age := age); KindOf(d) == KindOf(c) && Readiness(d) == Readiness(c)
  {
  }

  /** On the same scale, a greater saving ranks no lower. */
  lemma SavingRanksNoLower(c: Candidate, less: real, more: real, maxSavings: real)
    requires c.savings == Some(less) && less <= more
    ensures NoLower(RowOf(c, maxSavings), RowOf(c.(savings := Some(more)), maxSavings))
  {
    var v := Some(more);
    ImpactInOrder(KindOf(c), less, more, maxSavings);
    SameReadiness(c, v);
    SameKind(c, v);
    var i, j := Impact(KindOf(c), c.savings, maxSavings), Impact(KindOf(c), v, maxSavings);
    PriorityMonotone(KindOf(c), i, RiskScore(c.risk), Readiness(c), Friction(c.age),
                     j, RiskScore(c.risk), Readiness(c), Friction(c.age));
    hide Priority, Impact, RiskScore, Friction, Readiness, Urgency, KindOf, Hundredths;
  }

  lemma ImpactInOrder(kind: string, less: real, more: real, maxSavings: real)
    requires less <= more
    ensures Impact(kind, Some(less), maxSavings) <= Impact(kind, Some(more), maxSavings)
  {
    if maxSavings > 0.0 {
      ShareInOrder(less, more, maxSavings);
    }
    hide Share, Failed, FailedImpact;
  }

  lemma ShareInOrder(less: real, more: real, m: real)
    requires less <= more && m > 0.0
    ensures Share(less, m) <= Share(more, m)
  {
    var a, b := Share(less, m), Share(more, m);
    assert a * m == 100.0 * less && b * m == 100.0 * more;
    if a > b {
      assert (a - b) * m > 0.0;
    }
  }

  /** The bucket tells the score to the hundredth: critical from 76, high from 58, medium from 40. */
  lemma BucketTellsScore(c: Candidate, maxSavings: real)
    ensures var r := RowOf(c, maxSavings);
      (r.bucket == Critical ==> r.score >= 76.0) && (r.bucket == High ==> 58.0 <= r.score <= 76.0) &&
      (r.bucket == Medium ==> 40.0 <= r.score <= 58.0) && (r.bucket == Low ==> r.score <= 40.0)
    ensures var r := RowOf(c, maxSavings);
      (r.score > 76.0 ==> r.bucket == Critical) && (58.0 < r.score < 76.0 ==> r.bucket == High) &&
      (40.0 < r.score < 58.0 ==> r.bucket == Medium) && (r.score < 40.0 ==> r.bucket == Low)
  {
    var impact := Impact(KindOf(c), c.savings, maxSavings);
    var p := Priority(KindOf(c), impact, RiskScore(c.risk), Readiness(c), Friction(c.age));
    HundredthsAt(p, 76);
    HundredthsAt(p, 58);
    HundredthsAt(p, 40);
    hide Priority, Impact, RiskScore, Friction, Readiness, Urgency, KindOf, Hundredths;
  }

  lemma HundredthsAt(x: real, n: int)
    ensures x >= n as real ==> Hundredths(x) >= n as real
    ensures x <= n as real ==> Hundredths(x) <= n as real
  {
    assert (n as real * 100.0).Floor == n * 100;
    assert Hundredths(n as real) == n as real;
    if x >= n as real {
      HundredthsMonotone(n as real, x);
    }
    if x <= n as real {
      HundredthsMonotone(x, n as real);
    }
  }

  lemma WholeStays(n: int)
    ensures Hundredths(n as real) == n as real
  {
    assert (n as real * 100.0).Floor == n * 100;
  }

  /** A row carries its candidate's identity, and shows the sub-scores by the candidate's own data. */
  lemma RowShows(c: Candidate, maxSavings: real)
    ensures var r := RowOf(c, maxSavings);
      r.kind == KindOf(c) && r.entityType == c.entityType && r.entityId == c.entityId && r.eligible == c.eligible &&
      r.action == NoAction
    ensures RowOf(c, maxSavings).risk == [30.0, 45.0, 60.0, 100.0][RiskRank(c.risk)]
    ensures RowOf(c, maxSavings).friction ==
      if c.age == None then 45.0
      else if c.age.value <= 1.0 then 10.0 else if c.age.value <= 3.0 then 30.0
      else if c.age.value <= 7.0 then 60.0 else 90.0
    ensures RowOf(c, maxSavings).urgency == Urgency(KindOf(c)) && RowOf(c, maxSavings).readiness == Readiness(c)
    ensures var r, p := RowOf(c, maxSavings), Priority(KindOf(c), Impact(KindOf(c), c.savings, maxSavings),
                                                       RiskScore(c.risk), Readiness(c), Friction(c.age));
      r.score == Hundredths(p) && (r.bucket == Critical <==> p >= 76.0) && (r.bucket == High <==> 58.0 <= p < 76.0) &&
      (r.bucket == Medium <==> 40.0 <= p < 58.0)
  {
    WholeStays(30);
    WholeStays(45);
    WholeStays(60);
    WholeStays(100);
    WholeStays(10);
    WholeStays(90);
    UrgencyIsWhole(KindOf(c));
    ReadinessIsWhole(c);
    hide Hundredths, Impact, Priority, Urgency, Readiness, Text.Normalize;
  }

  lemma UrgencyIsWhole(kind: string)
    ensures Hundredths(Urgency(kind)) == Urgency(kind)
  {
    var n := Urgency(kind).Floor;
    WholeStays(n);
    hide Hundredths;
  }

  lemma ReadinessIsWhole(c: Candidate)
    ensures Hundredths(Readiness(c)) == Readiness(c)
  {
    var n := Readiness(c).Floor;
    WholeStays(n);
    hide Hundredths, Text.Lower, Contains;
  }

  /** The kinds by urgency, most urgent first. */
  const BY_URGENCY: seq<(string, real)> := [
    ("failed_execution", 100.0), ("failed_sync", 90.0), ("approval_pending", 80.0), ("execution_blocked", 72.0),
    ("execution_ready", 70.0), ("approval_partial", 60.0), ("approval_rejected", 50.0), ("recommendation_top", 30.0)]

  lemma UrgencyByKind(kind: string)
    ensures forall i :: 0 <= i < 8 && BY_URGENCY[i].0 == kind ==> Urgency(kind) == BY_URGENCY[i].1
    ensures (forall i :: 0 <= i < 8 ==> BY_URGENCY[i].0 != kind) ==> Urgency(kind) == 35.0
  {
    assert BY_URGENCY[0].0 == "failed_execution" && BY_URGENCY[1].0 == "failed_sync";
    assert BY_URGENCY[2].0 == "approval_pending" && BY_URGENCY[3].0 == "execution_blocked";
    assert BY_URGENCY[4].0 == "execution_ready" && BY_URGENCY[5].0 == "approval_partial";
    assert BY_URGENCY[6].0 == "approval_rejected" && BY_URGENCY[7].0 == "recommendation_top";
  }

  /** The word occurs somewhere in the text. */
  ghost predicate Has(text: string, word: string) {
    exists i, j :: 0 <= i <= j <= |text| && text[i..j] == word
  }

  ghost predicate Worrying(text: string) {
    var t := Text.Lower(text);
    Has(t, "fail") || Has(t, "unsafe") || Has(t, "error") || Has(t, "blocked")
  }

  lemma ContainsIff(text: string, word: string)
    ensures Contains(text, word) <==> Has(text, word)
  {
    if i :| 0 <= i <= |text| - |word| && word <= text[i..] {
      assert text[i..i + |word|] == word;
    }
    if i, j :| 0 <= i <= j <= |text| && text[i..j] == word {
      assert word <= text[i..];
    }
  }

  /** Readiness: pending approvals lose by a worrying preflight, executions by not being eligible. */
  lemma ReadinessMeans(c: Candidate)
    ensures c.kind == "approval_pending" ==> Readiness(c) == if Worrying(c.preflight) then 40.0 else 85.0
    ensures c.kind == "execution_ready" || c.kind == "execution_blocked" ==>
      Readiness(c) == if c.eligible then 100.0 else 48.0
    ensures c.kind == "failed_sync" ==> Readiness(c) == 12.0
    ensures c.kind == "failed_execution" ==> Readiness(c) == 22.0
    ensures c.kind == "approval_rejected" ==> Readiness(c) == 25.0
    ensures c.kind == "approval_partial" ==> Readiness(c) == 70.0
    ensures c.kind == "recommendation_top" ==> Readiness(c) == 55.0
    ensures c.kind == "" ==> Readiness(c) == 50.0
  {
    var p := Text.Lower(c.preflight);
    ContainsIff(p, "fail");
    ContainsIff(p, "unsafe");
    ContainsIff(p, "error");
    ContainsIff(p, "blocked");
  }

  /**
   * A failure's impact is fixed; without a saving the kind gives it; otherwise the share of the greatest saving does.
   */
  lemma ImpactMeans(kind: string, savings: Option<real>, m: real)
    ensures kind == "failed_sync" ==> Impact(kind, savings, m) == 92.0
    ensures kind == "failed_execution" ==> Impact(kind, savings, m) == 78.0
    ensures kind != "failed_sync" && kind != "failed_execution" && savings.Some? && m > 0.0 ==>
      Impact(kind, savings, m) == if 100.0 * savings.value / m > 100.0 then 100.0 else 100.0 * savings.value / m
    ensures kind != "failed_sync" && kind != "failed_execution" && savings.Some? && m <= 0.0 ==>
      Impact(kind, savings, m) == if savings.value > 100.0 then 100.0 else savings.value
    ensures savings.None? && kind in {"approval_pending", "approval_partial", "approval_rejected"} ==>
      Impact(kind, savings, m) == 32.0
    ensures savings.None? && kind in {"execution_ready", "execution_blocked"} ==> Impact(kind, savings, m) == 38.0
    ensures savings.None? && kind == "recommendation_top" ==> Impact(kind, savings, m) == 22.0
    ensures savings.None? && Impact(kind, savings, m) != 28.0 ==>
      kind in {"failed_sync", "failed_execution", "approval_pending", "approval_partial", "approval_rejected",
               "execution_ready", "execution_blocked", "recommendation_top"}
  {
  }

  /** The weights by kind, in order of impact, urgency, risk, readiness and friction. */
  lemma PriorityMeans(kind: string, i: real, risk: real, r: real, f: real)
    ensures var u, p := Urgency(kind), Priority(kind, i, risk, r, f);
      (kind == "failed_sync" || kind == "failed_execution" ==>
        p == Clamp(0.20 * i + 0.40 * u + 0.10 * risk + 0.05 * r + 0.25 * f)) &&
      (kind == "approval_pending" || kind == "approval_partial" || kind == "approval_rejected" ==>
        p == Clamp(0.25 * i + 0.30 * u + 0.20 * risk + 0.15 * r + 0.10 * f)) &&
      (kind == "execution_ready" || kind == "execution_blocked" ==>
        p == Clamp(0.35 * i + 0.20 * u + 0.15 * risk + 0.25 * r + 0.05 * f)) &&
      (kind == "recommendation_top" ==>
        p == Clamp(0.40 * i + 0.20 * u + 0.20 * risk + 0.15 * r + 0.05 * f))
  {
    hide Urgency, Clamp;
    if kind != "" {
      assert "approval" <= kind ==> kind[0] == 'a';
      assert "execution" <= kind ==> kind[0] == 'e';
    }
  }

  /** Repair for failures, execution only when eligible, approval while one waits, review when the impact is large. */
  lemma ActionMeans(r: Row)
    ensures ActionOf(r) == FixFailure <==> r.kind == "failed_sync" || r.kind == "failed_execution"
    ensures ActionOf(r) == ExecuteNow <==> r.kind == "execution_ready" && r.eligible
    ensures ActionOf(r) == Approve <==> r.kind == "approval_pending" || r.kind == "approval_partial"
    ensures ActionOf(r) == Review <==> r.kind == "recommendation_top" && r.impact >= 60.0
    ensures ActionOf(r) != NoAction
  {
  }

  // ---- the service ------------------------------------------------------------------------------------

  method MaxOfSavings(cs: seq<Candidate>) returns (m: real)
    ensures m == MaxSavings(cs)
  {
    var best: Option<real> := None;
    ghost var vs := SavingsOf(cs);
    for i := 0 to |cs|
      invariant best == Greatest(vs[..i])
    {
      assert vs[..i + 1][..i] == vs[..i];
      if cs[i].savings.Some? && (best.None? || cs[i].savings.value > best.value) {
        best := cs[i].savings;
      }
    }
    assert vs[..|vs|] == vs;
    m := if best.Some? then best.value else 0.0;
  }

  method ScoreAll(cs: seq<Candidate>) returns (scored: seq<Row>)
    ensures scored == Scored(cs)
  {
    hide RowOf;
    var maxSavings := MaxOfSavings(cs);
    scored := [];
    for i := 0 to |cs|
      invariant scored == Scored(cs)[..i]
    {
      scored := scored + [RowOf(cs[i], maxSavings)];
    }
  }

  method ScoreAttentionCandidates(cs: seq<Candidate>) returns (out: seq<Row>)
    ensures |out| == |Ranked(Scored(cs))|
    ensures forall i :: 0 <= i < |out| ==>
      out[i] == Ranked(Scored(cs))[i].(action := ActionOf(Ranked(Scored(cs))[i]))
  {
    hide Scored, BestRows, SortDescending, ActionOf;
    var scored := ScoreAll(cs);
    var unordered := Deduplicate(scored);
    var ranked := SortDescending(unordered);
    assert ranked == Ranked(Scored(cs));
    out := ranked;
    for i := 0 to |out|
      invariant |out| == |ranked|
      invariant forall j :: 0 <= j < |out| ==>
        out[j] == if j < i then ranked[j].(action := ActionOf(ranked[j])) else ranked[j]
    {
      out := out[i := out[i].(action := ActionOf(out[i]))];
    }
  }

  /**
   * The ranking is in descending order of scores between 0 and 100. It holds one row per entity with an id, the first
   * highest-scored candidate, and every row without an id, and nothing else.
   */
  lemma RankedRows(cs: seq<Candidate>)
    ensures var rows := Scored(cs);
      Descending(Ranked(rows)) && Selects(BestRows(rows), rows) &&
      multiset(Ranked(rows)) == multiset(BestRows(rows)) + multiset(Bags.Keep(WithoutId, rows)) &&
      (forall r: Row :: r.entityId == "" ==> multiset(Ranked(rows))[r] == multiset(rows)[r]) &&
      forall r :: r in Ranked(rows) ==> 0.0 <= r.score <= 100.0
  {
    hide Scored, RowOf, BestRows, SortDescending, Bags.Keep, Ranked;
    var rows := Scored(cs);
    BestRowsSelect(rows);
    forall r: Row | r.entityId == "" ensures multiset(Ranked(rows))[r] == multiset(rows)[r] {
      RowsWithoutIdAllKept(rows, r);
    }
    forall r | r in Ranked(rows) ensures 0.0 <= r.score <= 100.0 {
      assert r in multiset(Ranked(rows));
      RankedRowIsScored(rows, r);
      RowScoreInRange(cs, r);
    }
  }

  lemma RowsWithoutIdAllKept(rows: seq<Row>, r: Row)
    requires r.entityId == ""
    ensures multiset(BestRows(rows))[r] == 0 && multiset(Bags.Keep(WithoutId, rows))[r] == multiset(rows)[r]
  {
    BestRowsSelect(rows);
    hide BestRows;
    forall b | 0 <= b < |BestRows(rows)| ensures BestRows(rows)[b] != r {
      assert IsFirstBest(rows, BestRows(rows)[b]);
    }
    assert r !in BestRows(rows);
    KeepCounts(rows, r);
  }

  lemma {:induction false} KeepCounts(rows: seq<Row>, r: Row)
    requires r.entityId == ""
    ensures multiset(Bags.Keep(WithoutId, rows))[r] == multiset(rows)[r]
  {
    if rows != [] {
      var n := |rows| - 1;
      KeepCounts(rows[..n], r);
      assert rows == rows[..n] + [rows[n]];
    }
  }

  lemma RankedRowIsScored(rows: seq<Row>, r: Row)
    requires r in BestRows(rows) + Bags.Keep(WithoutId, rows)
    ensures r in rows
  {
    BestRowsSelect(rows);
    Bags.KeepMembers(WithoutId, rows);
    hide BestRows, Bags.Keep;
    if r in BestRows(rows) {
      assert IsFirstBest(rows, r);
    }
  }

  lemma RowScoreInRange(cs: seq<Candidate>, r: Row)
    requires r in Scored(cs)
    ensures 0.0 <= r.score <= 100.0
  {
    var i :| 0 <= i < |cs| && Scored(cs)[i] == r;
    ScoreInRange(cs[i], MaxSavings(cs));
  }

  // ---- scale ------------------------------------------------------------------------------------------

  function Times(v: Option<real>, k: real): Option<real> {
    if v.Some? then Some(Product(v.value, k)) else None
  }

  function ScaledOne(c: Candidate, k: real): Candidate {
    c.(savings := Times(c.savings, k))
  }

  function Scaled(cs: seq<Candidate>, k: real): (r: seq<Candidate>)
    ensures |r| == |cs| && forall i :: 0 <= i < |r| ==> r[i] == ScaledOne(cs[i], k)
  {
    seq(|cs|, i requires 0 <= i < |cs| => ScaledOne(cs[i], k))
  }

  lemma {:induction false} GreatestScales(vs: seq<Option<real>>, ws: seq<Option<real>>, k: real)
    requires k > 0.0 && |vs| == |ws| && forall i :: 0 <= i < |vs| ==> ws[i] == Times(vs[i], k)
    ensures Greatest(ws) == Times(Greatest(vs), k)
  {
    if vs != [] {
      var n := |vs| - 1;
      GreatestScales(vs[..n], ws[..n], k);
      var m := Greatest(vs[..n]);
      assert ws[n] == Times(vs[n], k);
      if m.Some? && vs[n].Some? {
        ScaleOrder(m.value, vs[n].value, k);
      }
    }
  }

  lemma MaxScales(cs: seq<Candidate>, k: real)
    requires k > 0.0
    ensures MaxSavings(Scaled(cs, k)) == Product(MaxSavings(cs), k)
  {
    var vs, ws := SavingsOf(cs), SavingsOf(Scaled(cs, k));
    forall i | 0 <= i < |vs| ensures ws[i] == Times(vs[i], k) {
      assert vs[i] == cs[i].savings && ws[i] == Scaled(cs, k)[i].savings;
    }
    hide Times;
    GreatestScales(vs, ws, k);
  }

  lemma ScaleOrder(x: real, y: real, k: real)
    requires k > 0.0
    ensures x >= y <==> Product(x, k) >= Product(y, k)
  {
    if x >= y {
      assert (x - y) * k >= 0.0;
    } else {
      assert (y - x) * k > 0.0;
    }
  }

  lemma RatioScales(s: real, m: real, k: real)
    requires k > 0.0 && m > 0.0
    ensures Product(m, k) > 0.0 && Share(Product(s, k), Product(m, k)) == Share(s, m)
  {
    var q := Share(s, m);
    assert q * m == 100.0 * s;
    assert q * (m * k) == (q * m) * k == 100.0 * (s * k);
  }

  /** A candidate other than a failure with a negative saving. */
  predicate Sensitive(c: Candidate) {
    !Failed(KindOf(c)) && c.savings.Some? && c.savings.value < 0.0
  }

  predicate SomePositive(cs: seq<Candidate>) {
    exists c :: c in cs && c.savings.Some? && c.savings.value > 0.0
  }

  lemma PositiveMax(cs: seq<Candidate>)
    ensures SomePositive(cs) <==> MaxSavings(cs) > 0.0
    ensures !SomePositive(cs) ==> forall c :: c in cs && c.savings.Some? ==> c.savings.value <= 0.0
  {
    var vs := SavingsOf(cs);
    GreatestIsGreatest(vs);
    forall c | c in cs ensures c.savings in vs {
      var i :| 0 <= i < |cs| && cs[i] == c;
      assert vs[i] == c.savings;
    }
    if MaxSavings(cs) > 0.0 {
      var i :| 0 <= i < |vs| && vs[i] == Greatest(vs);
      assert cs[i] in cs;
    }
  }

  /** When two savings share their scale's maximum alike, or none counts, the impact is the same. */
  lemma SameImpact(kind: string, v: Option<real>, w: Option<real>, m: real, n: real)
    requires (m > 0.0 && n > 0.0 && (v.Some? <==> w.Some?) && (v.Some? ==> Share(w.value, n) == Share(v.value, m))) ||
      (m <= 0.0 && n <= 0.0 && (Failed(kind) || w == v))
    ensures Impact(kind, w, n) == Impact(kind, v, m)
  {
    hide Failed, FailedImpact, DefaultImpact, Share, Min100;
  }

  lemma ImpactUnscaled(kind: string, v: Option<real>, m: real, k: real)
    requires k > 0.0 && (m > 0.0 || (v.Some? ==> Failed(kind) || v.value == 0.0))
    ensures Impact(kind, Times(v, k), Product(m, k)) == Impact(kind, v, m)
  {
    if m > 0.0 {
      RatioScales(if v.Some? then v.value else 0.0, m, k);
    } else {
      ScaleOrder(0.0, m, k);
      ScaleOrder(0.0, 0.0, k);
    }
    hide Impact, Failed, Share;
    SameImpact(kind, v, Times(v, k), m, Product(m, k));
  }

  lemma RowUnscaled(c: Candidate, m: real, k: real)
    requires k > 0.0 && (m > 0.0 || (c.savings.Some? ==> Failed(KindOf(c)) || c.savings.value == 0.0))
    ensures RowOf(ScaledOne(c, k), Product(m, k)) == RowOf(c, m)
  {
    ImpactUnscaled(KindOf(c), c.savings, m, k);
    SameRow(c, Times(c.savings, k), Impact(KindOf(c), c.savings, m));
    hide Impact, RowWith, Times;
    assert KindOf(ScaledOne(c, k)) == KindOf(c);
  }

  /** A row depends on the savings through the impact only. */
  lemma SameRow(c: Candidate, v: Option<real>, impact: real)
    ensures RowWith(c.(savings := v), impact) == RowWith(c, impact)
  {
    var d := c.(savings := v);
    SameReadiness(c, v);
    SameKind(c, v);
    hide Readiness, KindOf, RiskScore, Friction, MakeRow;
  }

  lemma SameKind(c: Candidate, v: Option<real>)
    ensures KindOf(c.(savings := v)) == KindOf(c)
  {
  }

  lemma SameReadiness(c: Candidate, v: Option<real>)
    ensures Readiness(c.(savings := v)) == Readiness(c)
  {
  }

  /** When some saving is positive, or none that counts is negative, scaling all savings changes no row at all. */
  lemma ScalingChangesNothing(cs: seq<Candidate>, k: real)
    requires k > 0.0
    requires SomePositive(cs) || forall c :: c in cs ==> !Sensitive(c)
    ensures Scored(Scaled(cs, k)) == Scored(cs)
  {
    MaxScales(cs, k);
    PositiveMax(cs);
    hide MaxSavings, Failed, KindOf, Scaled, Scored;
    forall i | 0 <= i < |cs| ensures Scored(Scaled(cs, k))[i] == Scored(cs)[i] {
      assert cs[i] in cs;
      ScaledRowAt(cs, k, i);
    }
  }

  lemma ScaledRowAt(cs: seq<Candidate>, k: real, i: nat)
    requires k > 0.0 && i < |cs| && MaxSavings(Scaled(cs, k)) == Product(MaxSavings(cs), k)
    requires var c := cs[i];
      MaxSavings(cs) > 0.0 || (c.savings.Some? ==> Failed(KindOf(c)) || c.savings.value == 0.0)
    ensures Scored(Scaled(cs, k))[i] == Scored(cs)[i]
  {
    RowUnscaled(cs[i], MaxSavings(cs), k);
    hide RowOf, ScaledOne, MaxSavings, Product;
  }

  lemma HundredthsShift(x: real)
    ensures Hundredths(x - 1.0) == Hundredths(x) - 1.0
  {
    var y := x * 100.0;
    assert (x - 1.0) * 100.0 == y - 100.0;
    assert (y - 100.0).Floor == y.Floor - 100;
  }

  lemma ShiftFactor(s: real) returns (k: real)
    requires s < 0.0
    ensures k > 0.0 && Product(s, k) == s - 1.0
  {
    var t := 1.0 / s;
    assert s * t == 1.0;
    assert t < 0.0;
    k := 1.0 - t;
  }

  lemma ImpactOf(c: Candidate, m: real)
    requires Sensitive(c) && m <= 0.0
    ensures RowOf(c, m).impact == Hundredths(c.savings.value)
  {
  }

  /** With no positive saving, a negative one that counts shows: some factor changes its row. */
  lemma ScalingShows(cs: seq<Candidate>, i: nat) returns (k: real)
    requires i < |cs| && Sensitive(cs[i]) && !SomePositive(cs)
    ensures k > 0.0 && Scored(Scaled(cs, k))[i] != Scored(cs)[i]
  {
    k := ShiftFactor(cs[i].savings.value);
    MaxScales(cs, k);
    PositiveMax(cs);
    ScaleOrder(0.0, MaxSavings(cs), k);
    ShiftShows(cs[i], MaxSavings(cs), k);
    hide RowOf, MaxSavings, ScaledOne, Sensitive, SomePositive;
  }

  lemma ShiftShows(c: Candidate, m: real, k: real)
    requires Sensitive(c) && m <= 0.0 && Product(m, k) <= 0.0 && Product(c.savings.value, k) == c.savings.value - 1.0
    ensures RowOf(ScaledOne(c, k), Product(m, k)) != RowOf(c, m)
  {
    var d := ScaledOne(c, k);
    assert KindOf(d) == KindOf(c);
    assert d.savings == Some(c.savings.value - 1.0);
    HundredthsShift(c.savings.value);
    ImpactOf(c, m);
    ImpactOf(d, Product(m, k));
    hide RowOf, Hundredths;
  }

  /**
   * The rows do not depend on the unit of the savings exactly when some saving is positive or no candidate other than
   * a failure has a negative one.
   */
  lemma UnitIndependentIff(cs: seq<Candidate>)
    ensures (forall k: real :: k > 0.0 ==> Scored(Scaled(cs, k)) == Scored(cs)) <==>
      SomePositive(cs) || forall c :: c in cs ==> !Sensitive(c)
  {
    hide Scored, Scaled;
    if SomePositive(cs) || forall c :: c in cs ==> !Sensitive(c) {
      forall k: real | k > 0.0 ensures Scored(Scaled(cs, k)) == Scored(cs) {
        ScalingChangesNothing(cs, k);
      }
    } else {
      var c :| c in cs && Sensitive(c);
      var i :| 0 <= i < |cs| && cs[i] == c;
      var k := ScalingShows(cs, i);
      assert k > 0.0 && Scored(Scaled(cs, k)) != Scored(cs);
    }
  }
}
