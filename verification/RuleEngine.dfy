/** The rule registry and the engine's indexed loops, against a plain scan of all rules over all latest snapshots. */
module RuleEngine {
  import opened Collections
  import opened RuleModel
  import opened Bags
  import Text

  // ---- registry ----------------------------------------------------------------------------------

  /** Enabled rules for a resource type, in the order they were loaded. */
  function RulesFor(rules: seq<Rule>, kind: string): (r: seq<Rule>)
    ensures forall x :: x in r <==> x in rules && x.enabled && x.resourceType == kind
  {
    if rules == [] then []
    else
      var n := |rules| - 1;
      assert forall x :: x in rules <==> x in rules[..n] || x == rules[n];
      if rules[n].enabled && rules[n].resourceType == kind then RulesFor(rules[..n], kind) + [rules[n]]
      else RulesFor(rules[..n], kind)
  }

  lemma RulesForNext(rules: seq<Rule>, i: nat, kind: string)
    requires i < |rules|
    ensures RulesFor(rules[..i + 1], kind) ==
      RulesFor(rules[..i], kind) + if rules[i].enabled && rules[i].resourceType == kind then [rules[i]] else []
  {
    assert rules[..i + 1][..i] == rules[..i];
  }

  /** The last enabled rule with this finding type. */
  function RuleForFinding(rules: seq<Rule>, findingType: string): (r: Option<Rule>)
    ensures r.Some? <==> exists x :: x in rules && x.enabled && x.findingType == findingType
    ensures r.Some? ==> r.value in rules && r.value.enabled && r.value.findingType == findingType
  {
    if rules == [] then None
    else
      var n := |rules| - 1;
      assert forall x :: x in rules <==> x in rules[..n] || x == rules[n];
      if rules[n].enabled && rules[n].findingType == findingType then Some(rules[n])
      else RuleForFinding(rules[..n], findingType)
  }

  class Registry {
    const rules: seq<Rule>
    var byResourceType: map<string, seq<Rule>>
    var byFindingType: map<string, Rule>

    /** Both indexes describe the loaded rules. */
    ghost predicate Valid()
      reads this
    {
      (forall kind :: RulesFor(rules, kind) == if kind in byResourceType then byResourceType[kind] else []) &&
      (forall f :: RuleForFinding(rules, f) == if f in byFindingType then Some(byFindingType[f]) else None)
    }

    constructor (rules: seq<Rule>)
      ensures Valid() && this.rules == rules
    {
      var byFinding := IndexByFinding(rules);
      var byResource := IndexByResource(rules);
      this.rules, byFindingType, byResourceType := rules, byFinding, byResource;
    }

    /** Maps each finding type to its last enabled rule. */
    static method IndexByFinding(rules: seq<Rule>) returns (index: map<string, Rule>)
      ensures forall f :: RuleForFinding(rules, f) == if f in index then Some(index[f]) else None
    {
      index := map[];
      for i := 0 to |rules|
        invariant forall f :: RuleForFinding(rules[..i], f) == if f in index then Some(index[f]) else None
      {
        assert rules[..i + 1][..i] == rules[..i];
        if rules[i].enabled {
          index := index[rules[i].findingType := rules[i]];
        }
      }
      assert rules[..|rules|] == rules;
    }

    /** Appends each enabled rule to the list of its resource type. */
    static method IndexByResource(rules: seq<Rule>) returns (index: map<string, seq<Rule>>)
      ensures forall kind :: RulesFor(rules, kind) == if kind in index then index[kind] else []
    {
      index := map[];
      for i := 0 to |rules|
        invariant forall kind :: RulesFor(rules[..i], kind) == if kind in index then index[kind] else []
      {
        forall kind ensures RulesFor(rules[..i + 1], kind) ==
          RulesFor(rules[..i], kind) + if rules[i].enabled && rules[i].resourceType == kind then [rules[i]] else []
        {
          RulesForNext(rules, i, kind);
        }
        hide RulesFor;
        var r := rules[i];
        if !r.enabled {
          continue;
        }
        var before := if r.resourceType in index then index[r.resourceType] else [];
        index := index[r.resourceType := before + [r]];
      }
      assert rules[..|rules|] == rules;
    }

    method RulesForResourceType(kind: string) returns (r: seq<Rule>)
      requires Valid()
      ensures r == RulesFor(rules, kind)
    {
      r := if kind in byResourceType then byResourceType[kind] else [];
    }

    method GetRuleForFinding(findingType: string) returns (r: Option<Rule>)
      requires Valid()
      ensures r == RuleForFinding(rules, findingType)
    {
      r := if findingType in byFindingType then Some(byFindingType[findingType]) else None;
    }
  }

  // ---- latest snapshots ----------------------------------------------------------------------------

  /** Rows of one tenant and account. */
  function Mine(all: seq<ResourceSnapshot>, tenant: nat, account: nat): (r: seq<ResourceSnapshot>)
    ensures forall s :: s in r <==> s in all && s.tenant == tenant && s.account == account
  {
    if all == [] then []
    else
      var n := |all| - 1;
      assert forall x :: x in all <==> x in all[..n] || x == all[n];
      Mine(all[..n], tenant, account) + (if all[n].tenant == tenant && all[n].account == account then [all[n]] else [])
  }

  function LastCapture(rows: seq<ResourceSnapshot>, kind: string): (r: Option<int>)
    ensures r.None? <==> forall s :: s in rows ==> s.resourceType != kind
    ensures r.Some? ==> (exists s :: s in rows && s.resourceType == kind && s.capturedAt == r.value)
    ensures r.Some? ==> forall s :: s in rows && s.resourceType == kind ==> s.capturedAt <= r.value
  {
    if rows == [] then None
    else
      var n := |rows| - 1;
      assert forall x :: x in rows <==> x in rows[..n] || x == rows[n];
      var before := LastCapture(rows[..n], kind);
      if rows[n].resourceType != kind then before
      else if before.Some? && before.value >= rows[n].capturedAt then before
      else Some(rows[n].capturedAt)
  }

  /** The rows of the type captured at the time given. */
  function CapturedAt(kind: string, at: int): ResourceSnapshot -> bool {
    (s: ResourceSnapshot) => s.resourceType == kind && s.capturedAt == at
  }

  function LatestSnapshots(rows: seq<ResourceSnapshot>, kind: string): seq<ResourceSnapshot> {
    match LastCapture(rows, kind)
    case None => []
    case Some(at) => ByResource(Keep(CapturedAt(kind, at), rows))
  }

  function InsertByResource(s: ResourceSnapshot, xs: seq<ResourceSnapshot>): (r: seq<ResourceSnapshot>)
    ensures multiset(r) == multiset(xs) + multiset{s}
  {
    if xs == [] || !Text.Less(xs[0].resourceId, s.resourceId) then [s] + xs
    else
      assert xs == [xs[0]] + xs[1..];
      [xs[0]] + InsertByResource(s, xs[1..])
  }

  /** Ordered by resource id. */
  function ByResource(xs: seq<ResourceSnapshot>): (r: seq<ResourceSnapshot>)
    ensures multiset(r) == multiset(xs)
  {
    if xs == [] then []
    else
      assert xs == [xs[0]] + xs[1..];
      InsertByResource(xs[0], ByResource(xs[1..]))
  }

  // ---- the plain scan --------------------------------------------------------------------------------

  /** No row of the same type was captured later. */
  predicate IsLatest(rows: seq<ResourceSnapshot>, s: ResourceSnapshot) {
    forall x :: x in rows && x.resourceType == s.resourceType ==> x.capturedAt <= s.capturedAt
  }

  /** The finding of one rule on one snapshot, if any. */
  function Made(lib: Library, r: Rule, s: ResourceSnapshot): seq<Finding> {
    match Emit(lib, r, s)
    case None => []
    case Some(f) => [f]
  }

  /** What the rules that target the snapshot's type make of it, rule by rule. */
  function FromRules(lib: Library, rules: seq<Rule>, s: ResourceSnapshot): seq<Finding> {
    if rules == [] then []
    else
      var n := |rules| - 1;
      if rules[n].enabled && rules[n].resourceType == s.resourceType then
        FromRules(lib, rules[..n], s) + Made(lib, rules[n], s)
      else FromRules(lib, rules[..n], s)
  }

  /** Every enabled rule against every latest snapshot of its type, in table order. */
  function Scan(lib: Library, rules: seq<Rule>, latest: seq<ResourceSnapshot>): seq<Finding> {
    if latest == [] then []
    else Scan(lib, rules, latest[..|latest| - 1]) + FromRules(lib, rules, latest[|latest| - 1])
  }

  function Latest(rows: seq<ResourceSnapshot>): ResourceSnapshot -> bool {
    (s: ResourceSnapshot) => IsLatest(rows, s)
  }

  // ---- the engine ----------------------------------------------------------------------------------

  /** The innermost loop's result: the rules listed, each tried on the snapshot. */
  function Tried(lib: Library, listed: seq<Rule>, s: ResourceSnapshot): seq<Finding> {
    if listed == [] then []
    else
      var n := |listed| - 1;
      Tried(lib, listed[..n], s) + Made(lib, listed[n], s)
  }

  lemma TriedNext(lib: Library, listed: seq<Rule>, s: ResourceSnapshot, i: nat)
    requires i < |listed|
    ensures Tried(lib, listed[..i + 1], s) == Tried(lib, listed[..i], s) + Made(lib, listed[i], s)
  {
    hide Made;
    assert listed[..i + 1][..i] == listed[..i];
  }

  function TriedAll(lib: Library, listed: seq<Rule>, snapshots: seq<ResourceSnapshot>): seq<Finding> {
    if snapshots == [] then []
    else TriedAll(lib, listed, snapshots[..|snapshots| - 1]) + Tried(lib, listed, snapshots[|snapshots| - 1])
  }

  function Indexed(lib: Library, rules: seq<Rule>, rows: seq<ResourceSnapshot>, kinds: seq<string>): seq<Finding> {
    if kinds == [] then []
    else
      var n := |kinds| - 1;
      Indexed(lib, rules, rows, kinds[..n]) + TriedAll(lib, RulesFor(rules, kinds[n]), LatestSnapshots(rows, kinds[n]))
  }

  function Targets(rules: seq<Rule>): set<string> {
    set r | r in rules && r.enabled :: r.resourceType
  }

  method TrySnapshot(lib: Library, listed: seq<Rule>, s: ResourceSnapshot, before: seq<Finding>)
    returns (findings: seq<Finding>)
    ensures findings == before + Tried(lib, listed, s)
  {
    hide Emit;
    findings := before;
    for i := 0 to |listed|
      invariant findings == before + Tried(lib, listed[..i], s)
    {
      TriedNext(lib, listed, s, i);
      hide Tried;
      var f := Emit(lib, listed[i], s);
      if f.Some? {
        findings := findings + [f.value];
      }
    }
    assert listed[..|listed|] == listed;
  }

  method TrySnapshots(lib: Library, listed: seq<Rule>, snapshots: seq<ResourceSnapshot>, before: seq<Finding>)
    returns (findings: seq<Finding>)
    ensures findings == before + TriedAll(lib, listed, snapshots)
  {
    hide Tried;
    findings := before;
    for j := 0 to |snapshots|
      invariant findings == before + TriedAll(lib, listed, snapshots[..j])
    {
      assert snapshots[..j + 1][..j] == snapshots[..j];
      findings := TrySnapshot(lib, listed, snapshots[j], findings);
    }
    assert snapshots[..|snapshots|] == snapshots;
  }

  /** Resource types in order; for each its indexed rules over its latest snapshots. */
  method RunRuleEngine(lib: Library, registry: Registry, all: seq<ResourceSnapshot>, tenant: nat, account: nat)
    returns (findings: seq<Finding>)
    requires registry.Valid()
    ensures var rows := Mine(all, tenant, account);
      multiset(findings) == multiset(Scan(lib, registry.rules, Keep(Latest(rows), rows)))
  {
    hide TriedAll, RulesFor, LatestSnapshots, Scan, Keep, Mine, Text.Sorted;
    var rows := Mine(all, tenant, account);
    var kinds := Text.SortSet(Targets(registry.rules));
    findings := [];
    for i := 0 to |kinds|
      invariant findings == Indexed(lib, registry.rules, rows, kinds[..i])
    {
      assert kinds[..i + 1][..i] == kinds[..i];
      var listed := registry.RulesForResourceType(kinds[i]);
      findings := TrySnapshots(lib, listed, LatestSnapshots(rows, kinds[i]), findings);
    }
    assert kinds[..|kinds|] == kinds;
    IndexedIsScan(lib, registry.rules, rows, kinds);
  }

  // ---- the index agrees with the scan ------------------------------------------------------------------

  /** Trying only the indexed rules is trying all of them. */
  lemma {:induction false} IndexLosesNothing(lib: Library, rules: seq<Rule>, s: ResourceSnapshot)
    ensures Tried(lib, RulesFor(rules, s.resourceType), s) == FromRules(lib, rules, s)
  {
    hide Made;
    if rules != [] {
      var n := |rules| - 1;
      IndexLosesNothing(lib, rules[..n], s);
      if rules[n].enabled && rules[n].resourceType == s.resourceType {
        var before := RulesFor(rules[..n], s.resourceType);
        assert (before + [rules[n]])[..|before|] == before;
      }
    }
  }

  /** The findings on a snapshot, as a multiset. */
  function Findings(lib: Library, rules: seq<Rule>): ResourceSnapshot -> multiset<Finding> {
    (s: ResourceSnapshot) => multiset(FromRules(lib, rules, s))
  }

  lemma {:induction false} TriedAllSum(lib: Library, rules: seq<Rule>, kind: string, snapshots: seq<ResourceSnapshot>)
    requires forall s :: s in snapshots ==> s.resourceType == kind
    ensures multiset(TriedAll(lib, RulesFor(rules, kind), snapshots)) == Sum(Findings(lib, rules), snapshots)
  {
    hide FromRules, Tried, RulesFor;
    if snapshots != [] {
      var n := |snapshots| - 1;
      TriedAllSum(lib, rules, kind, snapshots[..n]);
      IndexLosesNothing(lib, rules, snapshots[n]);
    }
  }

  lemma {:induction false} ScanSum(lib: Library, rules: seq<Rule>, latest: seq<ResourceSnapshot>)
    ensures multiset(Scan(lib, rules, latest)) == Sum(Findings(lib, rules), latest)
  {
    hide FromRules;
    if latest != [] {
      ScanSum(lib, rules, latest[..|latest| - 1]);
    }
  }

  /** The latest rows whose type is among `kinds`. */
  function LatestIn(rows: seq<ResourceSnapshot>, kinds: set<string>): ResourceSnapshot -> bool {
    (s: ResourceSnapshot) => IsLatest(rows, s) && s.resourceType in kinds
  }

  /** The rows of the last capture of a type are the latest rows of that type. */
  lemma LastCaptureIsLatest(rows: seq<ResourceSnapshot>, kind: string, at: int)
    requires LastCapture(rows, kind) == Some(at)
    ensures Keep(CapturedAt(kind, at), rows) == Keep(LatestIn(rows, {kind}), rows)
  {
    KeepSame(CapturedAt(kind, at), LatestIn(rows, {kind}), rows);
  }

  lemma OneKindSum(lib: Library, rules: seq<Rule>, rows: seq<ResourceSnapshot>, kind: string)
    ensures multiset(TriedAll(lib, RulesFor(rules, kind), LatestSnapshots(rows, kind))) ==
      Sum(Findings(lib, rules), Keep(LatestIn(rows, {kind}), rows))
  {
    var latest := Keep(LatestIn(rows, {kind}), rows);
    KeepMembers(LatestIn(rows, {kind}), rows);
    assert latest != [] ==> latest[0] in latest;
    match LastCapture(rows, kind) {
      case None =>
      case Some(at) =>
        LastCaptureIsLatest(rows, kind, at);
        var sorted := ByResource(latest);
        hide FromRules, Tried, RulesFor, ByResource, Keep, Sum;
        SortedSum(lib, rules, kind, latest, sorted);
    }
  }

  lemma SortedSum(lib: Library, rules: seq<Rule>, kind: string, latest: seq<ResourceSnapshot>,
                  sorted: seq<ResourceSnapshot>)
    requires multiset(sorted) == multiset(latest) && forall s :: s in latest ==> s.resourceType == kind
    ensures multiset(TriedAll(lib, RulesFor(rules, kind), sorted)) == Sum(Findings(lib, rules), latest)
  {
    hide Tried, TriedAll, RulesFor, FromRules, Sum;
    forall s | s in sorted ensures s.resourceType == kind {
      assert s in multiset(sorted) && s in multiset(latest);
    }
    TriedAllSum(lib, rules, kind, sorted);
    SumPermuted(Findings(lib, rules), sorted, latest);
  }

  lemma {:induction false} IndexedSum(lib: Library, rules: seq<Rule>, rows: seq<ResourceSnapshot>, kinds: seq<string>)
    requires Text.StrictlySorted(kinds)
    ensures multiset(Indexed(lib, rules, rows, kinds)) ==
      Sum(Findings(lib, rules), Keep(LatestIn(rows, set k | k in kinds), rows))
  {
    var y, all := Findings(lib, rules), set k | k in kinds;
    if kinds == [] {
      KeepMembers(LatestIn(rows, all), rows);
      var none := Keep(LatestIn(rows, all), rows);
      assert none != [] ==> none[0] in none;
    } else {
      var n := |kinds| - 1;
      var before := set k | k in kinds[..n];
      IndexedSum(lib, rules, rows, kinds[..n]);
      OneKindSum(lib, rules, rows, kinds[n]);
      hide Keep, Sum, TriedAll, LatestSnapshots, RulesFor, IsLatest;
      LastIsNew(kinds);
      assert all == before + {kinds[n]};
      KeepSplits(y, LatestIn(rows, all), LatestIn(rows, before), LatestIn(rows, {kinds[n]}), rows);
    }
  }

  lemma LastIsNew(kinds: seq<string>)
    requires Text.StrictlySorted(kinds) && kinds != []
    ensures var n := |kinds| - 1;
      kinds[n] !in kinds[..n] && (set k | k in kinds) == (set k | k in kinds[..n]) + {kinds[n]}
  {
    var n := |kinds| - 1;
    forall k | k in kinds[..n] ensures k != kinds[n] {
      Text.LessTotal(k, kinds[n]);
    }
    assert kinds == kinds[..n] + [kinds[n]];
  }

  lemma {:induction false} UntargetedYieldsNothing(lib: Library, rules: seq<Rule>, s: ResourceSnapshot)
    requires forall r :: r in rules && r.enabled ==> r.resourceType != s.resourceType
    ensures FromRules(lib, rules, s) == []
  {
    hide Made;
    if rules != [] {
      UntargetedYieldsNothing(lib, rules[..|rules| - 1], s);
    }
  }

  /** The indexed loops emit, as a multiset, exactly what the plain scan emits. */
  lemma IndexedIsScan(lib: Library, rules: seq<Rule>, rows: seq<ResourceSnapshot>, kinds: seq<string>)
    requires kinds == Text.Sorted(Targets(rules))
    ensures multiset(Indexed(lib, rules, rows, kinds)) == multiset(Scan(lib, rules, Keep(Latest(rows), rows)))
  {
    hide Indexed, Scan, Sum, Keep, FromRules, IsLatest;
    IndexedSum(lib, rules, rows, kinds);
    ScanSum(lib, rules, Keep(Latest(rows), rows));
    assert (set k | k in kinds) == Targets(rules);
    forall s | s in rows && s.resourceType !in Targets(rules) ensures Findings(lib, rules)(s) == multiset{} {
      UntargetedYieldsNothing(lib, rules, s);
    }
    KeepSilent(Findings(lib, rules), Latest(rows), LatestIn(rows, Targets(rules)), rows);
  }

  // ---- what a scan holds ----------------------------------------------------------------------------------

  lemma {:induction false} FromRulesMembers(lib: Library, rules: seq<Rule>, s: ResourceSnapshot, f: Finding)
    ensures f in FromRules(lib, rules, s) <==>
      exists r :: r in rules && r.enabled && r.resourceType == s.resourceType && Emit(lib, r, s) == Some(f)
  {
    hide Emit;
    if rules != [] {
      var n := |rules| - 1;
      FromRulesMembers(lib, rules[..n], s, f);
      assert forall x :: x in rules <==> x in rules[..n] || x == rules[n];
      assert Emit(lib, rules[n], s).Some? || Emit(lib, rules[n], s).None?;
    }
  }

  lemma {:induction false} ScanMembersOf(lib: Library, rules: seq<Rule>, latest: seq<ResourceSnapshot>, f: Finding)
    ensures f in Scan(lib, rules, latest) <==> exists s :: s in latest && f in FromRules(lib, rules, s)
  {
    hide FromRules;
    if latest != [] {
      var n := |latest| - 1;
      ScanMembersOf(lib, rules, latest[..n], f);
      assert latest == latest[..n] + [latest[n]];
      assert f in FromRules(lib, rules, latest[n]) ==> latest[n] in latest;
    }
  }

  /** The engine reports exactly the matches of an enabled rule with a latest snapshot of the type it targets. */
  lemma ScanMembers(lib: Library, rules: seq<Rule>, rows: seq<ResourceSnapshot>, f: Finding)
    ensures f in Scan(lib, rules, Keep(Latest(rows), rows)) <==>
      exists r, s :: r in rules && s in rows && r.enabled && r.resourceType == s.resourceType &&
        IsLatest(rows, s) && Emit(lib, r, s) == Some(f)
  {
    hide Emit, FromRules, Scan, IsLatest, Keep;
    var latest := Keep(Latest(rows), rows);
    KeepMembers(Latest(rows), rows);
    ScanMembersOf(lib, rules, latest, f);
    forall s ensures f in FromRules(lib, rules, s) <==>
      exists r :: r in rules && r.enabled && r.resourceType == s.resourceType && Emit(lib, r, s) == Some(f)
    {
      FromRulesMembers(lib, rules, s, f);
    }
  }
}
