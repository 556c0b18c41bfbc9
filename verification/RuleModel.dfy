/** Config-driven rules: conditions over a snapshot, evaluation with its exceptions, and the finding a match yields. */
module RuleModel {
  import opened Collections
  import Bags
  import Text

  /** JSON values; `Huge` is an integer beyond the range of a float, and of a nested mapping only the size matters. */
  datatype Json =
    | Null | Bool(b: bool) | Num(n: real) | Huge | Str(s: string) | List(items: seq<Json>) | Object(size: nat)

  /** A JSON column: a mapping (null and the empty mapping alike), or some other value, on which `get` raises. */
  datatype Column = Mapping(entries: map<string, Json>) | Malformed

  datatype Condition = Condition(
    op: string, field: Option<string>, value: Json, values: seq<string>, fields: seq<string>, tags: seq<string>)

  datatype Computed = Computed(key: string, op: string, source: string)

  datatype Rule = Rule(
    id: string, enabled: bool, resourceType: string, findingType: string, severity: string,
    conditions: seq<Condition>, evidenceFields: seq<string>, computed: seq<Computed>)

  datatype ResourceSnapshot = ResourceSnapshot(
    id: nat, tenant: nat, account: nat, resourceId: string, resourceType: string, capturedAt: int,
    config: Column, tags: Column)

  datatype Finding = Finding(
    snapshot: nat, resourceId: string, resourceType: string, findingType: string, severity: string,
    evidence: map<string, Json>)

  /** Library calls: text to number, days from now to an ISO date, and the text of a value. */
  datatype Library = Library(number: string -> Option<real>, daysUntil: string -> Option<int>, show: Json -> string)

  datatype Verdict = Holds | Fails | Raises

  function Of(b: bool): Verdict {
    if b then Holds else Fails
  }

  predicate Truthy(v: Json) {
    match v
    case Null => false
    case Bool(b) => b
    case Num(n) => n != 0.0
    case Huge => true
    case Str(s) => s != ""
    case List(items) => items != []
    case Object(n) => n > 0
  }

  /** The value under the key, null when there is none. */
  function Get(entries: map<string, Json>, key: string): Json {
    if key in entries then entries[key] else Null
  }

  /** The tag condition of a mapping: some listed tag is absent or empty. */
  predicate AnyTagMissing(entries: map<string, Json>, tags: seq<string>) {
    exists t :: t in tags && !Truthy(Get(entries, t))
  }

  datatype Coerced = Number(n: real) | NotNumeric | Overflow

  function Coerce(lib: Library, v: Json): Coerced {
    match v
    case Bool(b) => Number(if b then 1.0 else 0.0)
    case Num(n) => Number(n)
    case Huge => Overflow
    case Str(s) => (match lib.number(s) case Some(n) => Number(n) case None => NotNumeric)
    case _ => NotNumeric
  }

  function ShowOr(lib: Library, v: Json): string {
    if Truthy(v) then lib.show(v) else ""
  }

  /** The value of a condition's field; without a field name the column is not touched. */
  function Field(c: Condition, config: Column): Option<Json> {
    match c.field
    case None => Some(Null)
    case Some(f) => if config.Malformed? then None else Some(Get(config.entries, f))
  }

  function DaysLeft(lib: Library, v: Json): Option<int> {
    if v.Str? && v.s != "" then lib.daysUntil(v.s) else None
  }

  function Same(lib: Library, a: Json, b: Json): Verdict {
    match (Coerce(lib, a), Coerce(lib, b))
    case (Overflow, _) => Raises
    case (_, Overflow) => Raises
    case (Number(x), Number(y)) => Of(x == y)
    case _ => Of(ShowOr(lib, a) == ShowOr(lib, b))
  }

  /** Inequality has its own numeric and text comparison. */
  function Differs(lib: Library, a: Json, b: Json): Verdict {
    match (Coerce(lib, a), Coerce(lib, b))
    case (Overflow, _) => Raises
    case (_, Overflow) => Raises
    case (Number(x), Number(y)) => Of(x != y)
    case _ => Of(ShowOr(lib, a) != ShowOr(lib, b))
  }

  function Compare(op: string, x: real, y: real): bool {
    if op == "gt" then x > y else if op == "gte" then x >= y else if op == "lt" then x < y else x <= y
  }

  /** The operators on one field's value. */
  function EvalField(lib: Library, op: string, c: Condition, v: Json): Verdict {
    if op == "startswith_any" then
      var text := Text.Normalize(ShowOr(lib, v));
      Of(text != "" && exists p :: p in c.values && Text.Lower(p) <= text)
    else if op == "in" then Of(v.Str? && v.s in c.values)
    else if op == "not_in" then Of(!(v.Str? && v.s in c.values))
    else if op == "days_until_lte" || op == "days_until_gt" then
      (match DaysLeft(lib, v)
       case None => Fails
       case Some(days) =>
         match Coerce(lib, c.value)
         case Overflow => Raises
         case NotNumeric => Fails
         case Number(n) => Of(if op == "days_until_lte" then days as real <= n else days as real > n))
    else if op == "exists" then Of(v != Null)
    else if op == "missing" then Of(v == Null)
    else if op == "not_empty_list" then Of(v.List? && v.items != [])
    else if op == "bool_true" then Of(Truthy(v))
    else if op == "bool_false" then Of(!Truthy(v))
    else if op == "eq" then Same(lib, v, c.value)
    else if op == "neq" then Differs(lib, v, c.value)
    else if op in {"gt", "gte", "lt", "lte"} then
      (match (Coerce(lib, v), Coerce(lib, c.value))
       case (Overflow, _) => Raises
       case (_, Overflow) => Raises
       case (Number(x), Number(y)) => Of(Compare(op, x, y))
       case _ => Fails)
    else Fails
  }

  function EvalOne(lib: Library, c: Condition, config: Column, tags: Column): Verdict {
    var op := Text.Normalize(c.op);
    if op == "any_tag_missing" then
      if c.tags == [] then Fails
      else if tags.Malformed? then Raises
      else Of(AnyTagMissing(tags.entries, c.tags))
    else if op == "any_bool_true" || op == "all_bool_false" then
      if c.fields == [] then Of(op == "all_bool_false")
      else if config.Malformed? then Raises
      else
        var some := exists f :: f in c.fields && Truthy(Get(config.entries, f));
        Of(if op == "any_bool_true" then some else !some)
    else match Field(c, config)
      case None => Raises
      case Some(v) => EvalField(lib, op, c, v)
  }

  /** Conjunction, left to right: the first condition that fails hides any exception after it. */
  function Evaluate(lib: Library, cs: seq<Condition>, config: Column, tags: Column): Verdict {
    if cs == [] then Holds
    else match EvalOne(lib, cs[0], config, tags)
      case Holds => Evaluate(lib, cs[1..], config, tags)
      case v => v
  }

  // ---- findings --------------------------------------------------------------------------------

  const TAG_OP := "any_tag_missing"
  const MISSING := "missing_tags"

  function TagsOf(c: Condition): seq<string> {
    if c.op == TAG_OP then c.tags else []
  }

  /** The tags of all conditions spelled to the letter. */
  function RequiredTags(cs: seq<Condition>): seq<string> {
    if cs == [] then [] else RequiredTags(cs[..|cs| - 1]) + TagsOf(cs[|cs| - 1])
  }

  function Lacking(entries: map<string, Json>, tag: string): seq<Json> {
    if Truthy(Get(entries, tag)) then [] else [Str(tag)]
  }

  function MissingOf(entries: map<string, Json>, tags: seq<string>): (r: seq<Json>)
    ensures forall v :: v in r <==> exists t :: t in tags && !Truthy(Get(entries, t)) && v == Str(t)
  {
    if tags == [] then []
    else
      var n := |tags| - 1;
      assert forall t :: t in tags <==> t in tags[..n] || t == tags[n];
      MissingOf(entries, tags[..n]) + Lacking(entries, tags[n])
  }

  function CopyFields(fields: seq<string>, entries: map<string, Json>): (r: map<string, Json>)
    ensures forall k :: k in r ==> k in fields
  {
    if fields == [] then map[]
    else
      var last := fields[|fields| - 1];
      var r := CopyFields(fields[..|fields| - 1], entries);
      if Get(entries, last) != Null then r[last := Get(entries, last)] else r
  }

  /** The computed entry finds a date and so writes its key. */
  predicate Fires(lib: Library, c: Computed, entries: map<string, Json>) {
    c.op == "days_until" && DaysLeft(lib, Get(entries, c.source)).Some?
  }

  function AddComputed(lib: Library, cs: seq<Computed>, entries: map<string, Json>, e: map<string, Json>)
    : (r: map<string, Json>)
    ensures forall k :: (exists c :: c in cs && c.key == k && Fires(lib, c, entries)) ==> k in r && r[k].Num?
    ensures forall k :: !(exists c :: c in cs && c.key == k && Fires(lib, c, entries)) ==>
      (k in r <==> k in e) && (k in e ==> r[k] == e[k])
  {
    if cs == [] then e
    else
      var n := |cs| - 1;
      var c := cs[n];
      var r := AddComputed(lib, cs[..n], entries, e);
      assert forall x :: x in cs <==> x in cs[..n] || x == c;
      if Fires(lib, c, entries) then r[c.key := Num(DaysLeft(lib, Get(entries, c.source)).value as real)] else r
  }

  predicate HasTagOp(r: Rule) {
    exists c :: c in r.conditions && c.op == TAG_OP
  }

  /** The configuration as the factory reads it: nothing when no key of it is asked for. */
  function Entries(col: Column): map<string, Json> {
    if col.Mapping? then col.entries else map[]
  }

  /** Building raises when a key of a malformed column is asked for. */
  predicate BuildRaises(r: Rule, s: ResourceSnapshot) {
    (s.config.Malformed? && (r.evidenceFields != [] || exists c :: c in r.computed && c.op == "days_until")) ||
    (s.tags.Malformed? && HasTagOp(r))
  }

  function Evidence(lib: Library, r: Rule, s: ResourceSnapshot): map<string, Json> {
    var base := CopyFields(r.evidenceFields, Entries(s.config));
    var missing := List(MissingOf(Entries(s.tags), RequiredTags(r.conditions)));
    var withTags := if HasTagOp(r) then base[MISSING := missing]["tags" := Object(|Entries(s.tags)|)] else base;
    AddComputed(lib, r.computed, Entries(s.config), withTags)
  }

  function Build(lib: Library, r: Rule, s: ResourceSnapshot): Finding {
    Finding(s.id, s.resourceId, s.resourceType, r.findingType, r.severity, Evidence(lib, r, s))
  }

  /** What one rule makes of one snapshot; nothing also when evaluating or building raises. */
  function Emit(lib: Library, r: Rule, s: ResourceSnapshot): Option<Finding> {
    if Evaluate(lib, r.conditions, s.config, s.tags) == Holds && !BuildRaises(r, s) then Some(Build(lib, r, s))
    else None
  }

  lemma {:induction false} HoldsEach(lib: Library, cs: seq<Condition>, config: Column, tags: Column)
    ensures Evaluate(lib, cs, config, tags) == Holds <==> forall c :: c in cs ==> EvalOne(lib, c, config, tags) == Holds
  {
    if cs != [] {
      HoldsEach(lib, cs[1..], config, tags);
      assert forall c :: c in cs <==> c == cs[0] || c in cs[1..];
    }
  }

  /**
   * A rule yields a finding exactly when all its conditions hold and building it reads no key of a column that is not a
   * mapping: the configuration for evidence and computed dates, the tags for a condition spelled any_tag_missing.
   */
  lemma EmitsIff(lib: Library, r: Rule, s: ResourceSnapshot)
    ensures Emit(lib, r, s).Some? <==>
      (forall c :: c in r.conditions ==> EvalOne(lib, c, s.config, s.tags) == Holds) &&
      (s.config.Malformed? ==> r.evidenceFields == [] && forall c :: c in r.computed ==> c.op != "days_until") &&
      (s.tags.Malformed? ==> forall c :: c in r.conditions ==> c.op != "any_tag_missing")
  {
    HoldsEach(lib, r.conditions, s.config, s.tags);
    hide Evaluate, EvalOne, Build;
  }

  lemma {:induction false} RequiredTagsContain(cs: seq<Condition>, c: Condition)
    requires c in cs && c.op == TAG_OP
    ensures forall t :: t in c.tags ==> t in RequiredTags(cs)
  {
    var n := |cs| - 1;
    assert cs == cs[..n] + [cs[n]];
    if c != cs[n] {
      RequiredTagsContain(cs[..n], c);
    }
  }

  lemma NormalizedTagOp()
    ensures Text.Normalize(TAG_OP) == TAG_OP
  {
    assert Text.Strip(TAG_OP) == TAG_OP;
    assert Text.Lower(TAG_OP) == TAG_OP;
  }

  /** The finding lists missing tags, and every tag it lists is required by the rule and missing from the resource. */
  ghost predicate CarriesMissingTags(f: Finding, r: Rule, s: ResourceSnapshot) {
    MISSING in f.evidence && f.evidence[MISSING].List? && f.evidence[MISSING].items != [] &&
    forall v :: v in f.evidence[MISSING].items <==>
      exists t :: t in RequiredTags(r.conditions) && !Truthy(Get(Entries(s.tags), t)) && v == Str(t)
  }

  /** The evidence has a key that a firing computed entry overwrites. */
  ghost predicate Overwritten(lib: Library, r: Rule, s: ResourceSnapshot) {
    exists c :: c in r.computed && c.key == MISSING && Fires(lib, c, Entries(s.config))
  }

  lemma {:induction false} NothingRequired(cs: seq<Condition>)
    requires forall c :: c in cs ==> c.op != TAG_OP
    ensures RequiredTags(cs) == []
  {
    if cs != [] {
      assert cs[|cs| - 1] in cs;
      NothingRequired(cs[..|cs| - 1]);
    }
  }

  /** What matching a tag rule leaves to report. */
  lemma SomeTagMissing(lib: Library, r: Rule, s: ResourceSnapshot)
    requires Evaluate(lib, r.conditions, s.config, s.tags) == Holds && HasTagOp(r)
    ensures exists t :: t in RequiredTags(r.conditions) && !Truthy(Get(Entries(s.tags), t))
  {
    var c :| c in r.conditions && c.op == TAG_OP;
    NormalizedTagOp();
    HoldsEach(lib, r.conditions, s.config, s.tags);
    RequiredTagsContain(r.conditions, c);
    assert EvalOne(lib, c, s.config, s.tags) == Holds;
    hide Evaluate, EvalField, RequiredTags, Truthy, Text.Normalize;
    var t :| t in c.tags && !Truthy(Get(s.tags.entries, t));
    assert Entries(s.tags) == s.tags.entries;
  }

  /** A rule about missing tags, as the evaluator reads its operators. */
  ghost predicate TagRule(r: Rule) {
    exists c :: c in r.conditions && Text.Normalize(c.op) == TAG_OP
  }

  /**
   * A finding of a tag rule lists the missing tags, and nothing else, exactly when one of its tag conditions is spelled
   * `any_tag_missing` to the letter and no evidence value is computed under the list's own name from a date there is.
   */
  lemma MissingTagsCarried(lib: Library, r: Rule, s: ResourceSnapshot, f: Finding)
    requires Emit(lib, r, s) == Some(f) && TagRule(r)
    ensures CarriesMissingTags(f, r, s) <==> HasTagOp(r) && !Overwritten(lib, r, s)
  {
    hide Evaluate, EvalOne, BuildRaises, Truthy, Fires, RequiredTags, Get;
    if HasTagOp(r) {
      SomeTagMissing(lib, r, s);
      var t :| t in RequiredTags(r.conditions) && !Truthy(Get(Entries(s.tags), t));
      assert Str(t) in MissingOf(Entries(s.tags), RequiredTags(r.conditions));
    } else {
      NothingRequired(r.conditions);
      assert MISSING in f.evidence && f.evidence[MISSING].List? && f.evidence[MISSING].items != [] ==>
        f.evidence[MISSING].items[0] in f.evidence[MISSING].items;
    }
  }

  /** Without the literal spelling, and without a field of the list's name, a finding has no such entry at all. */
  lemma OtherSpellingCarriesNothing(lib: Library, r: Rule, s: ResourceSnapshot, f: Finding)
    requires Emit(lib, r, s) == Some(f) && !HasTagOp(r)
    requires MISSING !in r.evidenceFields && forall c :: c in r.computed ==> c.key != MISSING
    ensures MISSING !in f.evidence
  {
  }

  // ---- the list is lost on real input ---------------------------------------------------------------

  function OwnerTagRule(op: string, computed: seq<Computed>): Rule {
    Rule("tags", true, "vpc", "missing_required_tags", "low",
      [Condition(op, None, Null, [], [], ["owner"])], [], computed)
  }

  function UntaggedVpc(entries: map<string, Json>): ResourceSnapshot {
    ResourceSnapshot(1, 1, 1, "vpc-1", "vpc", 0, Mapping(entries), Mapping(map[]))
  }

  lemma OwnerRuleMatches(lib: Library, op: string, computed: seq<Computed>, entries: map<string, Json>)
    requires Text.Normalize(op) == TAG_OP
    ensures Emit(lib, OwnerTagRule(op, computed), UntaggedVpc(entries)) ==
      Some(Build(lib, OwnerTagRule(op, computed), UntaggedVpc(entries)))
  {
    var c := OwnerTagRule(op, computed).conditions[0];
    assert c.tags[0] in c.tags && !Truthy(Get(map[], "owner"));
    assert EvalOne(lib, c, Mapping(entries), Mapping(map[])) == Holds;
    HoldsEach(lib, [c], Mapping(entries), Mapping(map[]));
    hide Evaluate, EvalOne, Text.Normalize, Build;
  }

  lemma CapitalsNormalize()
    ensures Text.Normalize("Any_Tag_Missing") == TAG_OP
  {
    assert Text.Strip("Any_Tag_Missing") == "Any_Tag_Missing";
    assert Text.Lower("Any_Tag_Missing") == TAG_OP;
  }

  /** A tag rule spelled with capitals finds the resource without an owner, and its finding does not say which tag. */
  lemma CapitalsLoseTheList(lib: Library)
    ensures var f := Emit(lib, OwnerTagRule("Any_Tag_Missing", []), UntaggedVpc(map[]));
      TagRule(OwnerTagRule("Any_Tag_Missing", [])) && f.Some? && MISSING !in f.value.evidence
  {
    var r := OwnerTagRule("Any_Tag_Missing", []);
    CapitalsNormalize();
    assert r.conditions[0] in r.conditions;
    OwnerRuleMatches(lib, "Any_Tag_Missing", [], map[]);
    OtherSpellingCarriesNothing(lib, r, UntaggedVpc(map[]), Build(lib, r, UntaggedVpc(map[])));
  }

  /** A days-until value computed under the list's name replaces the list by a number of days. */
  lemma ComputedDaysReplaceTheList(lib: Library, date: string, days: int)
    requires date != "" && lib.daysUntil(date) == Some(days)
    ensures var f := Emit(lib, OwnerTagRule(TAG_OP, [Computed(MISSING, "days_until", "expiry")]),
                               UntaggedVpc(map["expiry" := Str(date)]));
      f.Some? && MISSING in f.value.evidence && f.value.evidence[MISSING] == Num(days as real)
  {
    var entries := map["expiry" := Str(date)];
    var comp := Computed(MISSING, "days_until", "expiry");
    NormalizedTagOp();
    OwnerRuleMatches(lib, TAG_OP, [comp], entries);
    assert DaysLeft(lib, Get(entries, "expiry")) == Some(days);
    assert [comp][..0] == [];
  }

  // ---- the order of the conditions -------------------------------------------------------------------

  /** One condition's share of the required tags, and one tag's share of the missing ones. */
  function TagBag(): Condition -> multiset<string> {
    (c: Condition) => multiset(TagsOf(c))
  }

  function LackBag(entries: map<string, Json>): string -> multiset<Json> {
    (t: string) => multiset(Lacking(entries, t))
  }

  lemma {:induction false} RequiredTagsSum(cs: seq<Condition>)
    ensures multiset(RequiredTags(cs)) == Bags.Sum(TagBag(), cs)
  {
    if cs != [] {
      RequiredTagsSum(cs[..|cs| - 1]);
    }
  }

  lemma {:induction false} MissingSum(entries: map<string, Json>, tags: seq<string>)
    ensures multiset(MissingOf(entries, tags)) == Bags.Sum(LackBag(entries), tags)
  {
    if tags != [] {
      MissingSum(entries, tags[..|tags| - 1]);
    }
  }

  /** The missing tags form the same bag, whatever the order of the conditions. */
  lemma MissingPermuted(entries: map<string, Json>, a: seq<Condition>, b: seq<Condition>)
    requires multiset(a) == multiset(b)
    ensures multiset(MissingOf(entries, RequiredTags(a))) == multiset(MissingOf(entries, RequiredTags(b)))
  {
    RequiredTagsSum(a);
    RequiredTagsSum(b);
    Bags.SumPermuted(TagBag(), a, b);
    MissingSum(entries, RequiredTags(a));
    MissingSum(entries, RequiredTags(b));
    Bags.SumPermuted(LackBag(entries), RequiredTags(a), RequiredTags(b));
  }

  lemma SameMembers(a: seq<Condition>, b: seq<Condition>)
    requires multiset(a) == multiset(b)
    ensures forall c :: c in a <==> c in b
  {
    forall c ensures c in a <==> c in b {
      assert c in a <==> c in multiset(a);
      assert c in b <==> c in multiset(b);
    }
  }

  /** Equal values, or two lists of the same values in another order. */
  ghost predicate SameUpToOrder(v: Json, w: Json) {
    v == w || (v.List? && w.List? && multiset(v.items) == multiset(w.items))
  }

  /** The same evidence up to the order of the missing tags. */
  ghost predicate Alike(e: map<string, Json>, d: map<string, Json>) {
    e.Keys == d.Keys && forall k :: k in e ==> if k == MISSING then SameUpToOrder(e[k], d[k]) else e[k] == d[k]
  }

  ghost predicate SameFinding(f: Finding, g: Finding) {
    f.(evidence := g.evidence) == g && Alike(f.evidence, g.evidence)
  }

  ghost predicate SameEmitted(f: Option<Finding>, g: Option<Finding>) {
    if f.None? then g.None? else g.Some? && SameFinding(f.value, g.value)
  }

  lemma {:induction false} ComputedAlike(lib: Library, cs: seq<Computed>, entries: map<string, Json>,
                                         e: map<string, Json>, d: map<string, Json>)
    requires Alike(e, d)
    ensures Alike(AddComputed(lib, cs, entries, e), AddComputed(lib, cs, entries, d))
  {
    if cs != [] {
      var n := |cs| - 1;
      ComputedAlike(lib, cs[..n], entries, e, d);
      var e', d' := AddComputed(lib, cs[..n], entries, e), AddComputed(lib, cs[..n], entries, d);
      if Fires(lib, cs[n], entries) {
        SetAlike(e', d', cs[n].key, Num(DaysLeft(lib, Get(entries, cs[n].source)).value as real));
      }
    }
  }

  lemma SetAlike(e: map<string, Json>, d: map<string, Json>, k: string, v: Json)
    requires Alike(e, d)
    ensures Alike(e[k := v], d[k := v])
  {
    assert SameUpToOrder(v, v);
    hide SameUpToOrder;
  }

  lemma ListsAlike(base: map<string, Json>, v: Json, w: Json, tags: Json)
    requires SameUpToOrder(v, w)
    ensures Alike(base[MISSING := v]["tags" := tags], base[MISSING := w]["tags" := tags])
  {
  }

  lemma EvidencePermuted(lib: Library, r: Rule, conditions: seq<Condition>, s: ResourceSnapshot)
    requires multiset(conditions) == multiset(r.conditions)
    ensures Alike(Evidence(lib, r, s), Evidence(lib, r.(conditions := conditions), s))
  {
    SameMembers(conditions, r.conditions);
    MissingPermuted(Entries(s.tags), conditions, r.conditions);
    var base := CopyFields(r.evidenceFields, Entries(s.config));
    var v := List(MissingOf(Entries(s.tags), RequiredTags(r.conditions)));
    var w := List(MissingOf(Entries(s.tags), RequiredTags(conditions)));
    var tags := Object(|Entries(s.tags)|);
    ListsAlike(base, v, w, tags);
    ComputedAlike(lib, r.computed, Entries(s.config), base, base);
    ComputedAlike(lib, r.computed, Entries(s.config),
      base[MISSING := v]["tags" := tags], base[MISSING := w]["tags" := tags]);
    hide Alike, AddComputed, MissingOf, RequiredTags, CopyFields, Entries;
  }

  /**
   * A rule's conditions may be written in any order: it then matches the same resources with the same findings, up to
   * the order of the missing tags, although a condition that raises may come before or after one that fails.
   */
  lemma ConditionOrderDoesNotMatter(lib: Library, r: Rule, conditions: seq<Condition>, s: ResourceSnapshot)
    requires multiset(conditions) == multiset(r.conditions)
    ensures SameEmitted(Emit(lib, r, s), Emit(lib, r.(conditions := conditions), s))
  {
    SameMembers(conditions, r.conditions);
    HoldsEach(lib, r.conditions, s.config, s.tags);
    HoldsEach(lib, conditions, s.config, s.tags);
    EvidencePermuted(lib, r, conditions, s);
    hide Evaluate, EvalOne, Evidence, Alike;
  }
}
