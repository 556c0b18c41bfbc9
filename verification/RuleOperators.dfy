/** What each condition operator means for the values it reads, and what a shipped rule therefore finds. */
module RuleOperators {
  import opened Collections
  import opened RuleModel
  import opened RuleEngine
  import Bags
  import Text

  /** The condition asks this operator of one field, whose value in the configuration is `v` (null when absent). */
  ghost predicate Asks(c: Condition, op: string, config: Column, v: Json) {
    Text.Normalize(c.op) == op && c.field.Some? && config.Mapping? &&
    v == if c.field.value in config.entries then config.entries[c.field.value] else Null
  }

  /** The values that count as false. */
  ghost predicate Falsy(v: Json) {
    v == Null || v == Bool(false) || v == Num(0.0) || v == Str("") || v == List([]) || v == Object(0)
  }

  lemma TruthyIff(v: Json)
    ensures Truthy(v) <==> !Falsy(v)
  {
  }

  lemma AskedField(lib: Library, c: Condition, op: string, config: Column, tags: Column, v: Json)
    requires Asks(c, op, config, v) && op !in {"any_tag_missing", "any_bool_true", "all_bool_false"}
    ensures EvalOne(lib, c, config, tags) == EvalField(lib, op, c, v)
  {
    hide EvalField, Text.Normalize;
  }

  // ---- dates -----------------------------------------------------------------------------------------

  /** Days left of a readable date against a numeric threshold. */
  lemma DateOperators(lib: Library, c: Condition, op: string, config: Column, tags: Column,
                      date: string, days: int, t: real)
    requires Asks(c, op, config, Str(date)) && date != "" && lib.daysUntil(date) == Some(days) && c.value == Num(t)
    ensures op == "days_until_lte" ==> (EvalOne(lib, c, config, tags) == Holds <==> days as real <= t)
    ensures op == "days_until_gt" ==> (EvalOne(lib, c, config, tags) == Holds <==> days as real > t)
  {
    if op in {"days_until_lte", "days_until_gt"} {
      AskedField(lib, c, op, config, tags, Str(date));
    }
    hide EvalOne, Text.Normalize;
  }

  /** Anything that is not a readable date fails both ways. */
  lemma UnreadableDateFails(lib: Library, c: Condition, op: string, config: Column, tags: Column, v: Json)
    requires Asks(c, op, config, v) && op in {"days_until_lte", "days_until_gt"}
    requires v.Str? && v.s != "" ==> lib.daysUntil(v.s) == None
    ensures EvalOne(lib, c, config, tags) == Fails
  {
    AskedField(lib, c, op, config, tags, v);
    hide EvalOne, Text.Normalize;
  }

  // ---- numbers and texts -------------------------------------------------------------------------------

  /** A value as a number: numbers, booleans, and texts that spell a number. */
  ghost predicate Numeric(lib: Library, v: Json, x: real) {
    v == Num(x) || (v == Bool(true) && x == 1.0) || (v == Bool(false) && x == 0.0) ||
    (v.Str? && lib.number(v.s) == Some(x))
  }

  ghost predicate NoNumber(lib: Library, v: Json) {
    v == Null || v.List? || v.Object? || (v.Str? && lib.number(v.s) == None)
  }

  lemma CoerceIff(lib: Library, v: Json, x: real)
    ensures Coerce(lib, v) == Number(x) <==> Numeric(lib, v, x)
    ensures Coerce(lib, v) == NotNumeric <==> NoNumber(lib, v)
    ensures Coerce(lib, v) == Overflow <==> v == Huge
  {
  }

  /** With numbers on both sides the six comparisons compare the numbers. */
  lemma NumberOperators(lib: Library, c: Condition, op: string, config: Column, tags: Column, v: Json, x: real, t: real)
    requires Asks(c, op, config, v) && Numeric(lib, v, x) && Numeric(lib, c.value, t)
    ensures op == "eq" ==> (EvalOne(lib, c, config, tags) == Holds <==> x == t)
    ensures op == "neq" ==> (EvalOne(lib, c, config, tags) == Holds <==> x != t)
    ensures op == "gt" ==> (EvalOne(lib, c, config, tags) == Holds <==> x > t)
    ensures op == "gte" ==> (EvalOne(lib, c, config, tags) == Holds <==> x >= t)
    ensures op == "lt" ==> (EvalOne(lib, c, config, tags) == Holds <==> x < t)
    ensures op == "lte" ==> (EvalOne(lib, c, config, tags) == Holds <==> x <= t)
  {
    CoerceIff(lib, v, x);
    CoerceIff(lib, c.value, t);
    if op in {"eq", "neq", "gt", "gte", "lt", "lte"} {
      AskedField(lib, c, op, config, tags, v);
    }
    hide EvalOne, Text.Normalize, Coerce, Numeric, ShowOr;
  }

  /** The text of a value, empty for a false one. */
  ghost function TextOf(lib: Library, v: Json): string {
    if Falsy(v) then "" else lib.show(v)
  }

  /** With a side that is no number, equality is equality of texts, and an order never holds. */
  lemma TextOperators(lib: Library, c: Condition, op: string, config: Column, tags: Column, v: Json)
    requires Asks(c, op, config, v) && (NoNumber(lib, v) || NoNumber(lib, c.value)) && v != Huge && c.value != Huge
    ensures op == "eq" ==> (EvalOne(lib, c, config, tags) == Holds <==> TextOf(lib, v) == TextOf(lib, c.value))
    ensures op == "neq" ==> (EvalOne(lib, c, config, tags) == Holds <==> TextOf(lib, v) != TextOf(lib, c.value))
    ensures op in {"gt", "gte", "lt", "lte"} ==> EvalOne(lib, c, config, tags) == Fails
  {
    CoerceIff(lib, v, 0.0);
    CoerceIff(lib, c.value, 0.0);
    TruthyIff(v);
    TruthyIff(c.value);
    if op in {"eq", "neq", "gt", "gte", "lt", "lte"} {
      AskedField(lib, c, op, config, tags, v);
    }
    hide EvalOne, Text.Normalize, Coerce, NoNumber, Truthy, Falsy;
  }

  // ---- presence, truth, membership ---------------------------------------------------------------------

  lemma PresenceOperators(lib: Library, c: Condition, op: string, config: Column, tags: Column, v: Json)
    requires Asks(c, op, config, v)
    ensures op == "exists" ==> (EvalOne(lib, c, config, tags) == Holds <==> v != Null)
    ensures op == "missing" ==> (EvalOne(lib, c, config, tags) == Holds <==> v == Null)
    ensures op == "not_empty_list" ==> (EvalOne(lib, c, config, tags) == Holds <==> v.List? && |v.items| > 0)
    ensures op == "bool_true" ==> (EvalOne(lib, c, config, tags) == Holds <==> !Falsy(v))
    ensures op == "bool_false" ==> (EvalOne(lib, c, config, tags) == Holds <==> Falsy(v))
  {
    TruthyIff(v);
    if op in {"exists", "missing", "not_empty_list", "bool_true", "bool_false"} {
      AskedField(lib, c, op, config, tags, v);
    }
    hide EvalOne, Text.Normalize, Truthy, Falsy;
  }

  lemma MembershipOperators(lib: Library, c: Condition, op: string, config: Column, tags: Column, v: Json)
    requires Asks(c, op, config, v)
    ensures op == "in" ==> (EvalOne(lib, c, config, tags) == Holds <==> exists s :: s in c.values && v == Str(s))
    ensures op == "not_in" ==> (EvalOne(lib, c, config, tags) == Holds <==> forall s :: s in c.values ==> v != Str(s))
    ensures op == "startswith_any" ==>
      (EvalOne(lib, c, config, tags) == Holds <==>
        (Text.Normalize(TextOf(lib, v)) != "" &&
         exists s :: s in c.values && Text.Lower(s) <= Text.Normalize(TextOf(lib, v))))
  {
    TruthyIff(v);
    if op in {"in", "not_in", "startswith_any"} {
      AskedField(lib, c, op, config, tags, v);
    }
    hide EvalOne, Text.Normalize, Truthy, Falsy, Text.Lower;
  }

  // ---- several fields, tags, anything else ---------------------------------------------------------------

  ghost predicate SomeTrue(fields: seq<string>, entries: map<string, Json>) {
    exists f :: f in fields && f in entries && !Falsy(entries[f])
  }

  lemma FieldsOperators(lib: Library, c: Condition, config: Column, tags: Column)
    requires config.Mapping?
    ensures Text.Normalize(c.op) == "any_bool_true" ==>
      (EvalOne(lib, c, config, tags) == Holds <==> SomeTrue(c.fields, config.entries))
    ensures Text.Normalize(c.op) == "all_bool_false" ==>
      (EvalOne(lib, c, config, tags) == Holds <==> !SomeTrue(c.fields, config.entries))
  {
    forall f | f in c.fields
      ensures Truthy(Get(config.entries, f)) <==> f in config.entries && !Falsy(config.entries[f])
    {
      TruthyIff(Get(config.entries, f));
    }
    hide EvalField, Text.Normalize, Truthy, Falsy;
  }

  lemma TagOperator(lib: Library, c: Condition, config: Column, tags: Column)
    requires tags.Mapping? && Text.Normalize(c.op) == "any_tag_missing"
    ensures EvalOne(lib, c, config, tags) == Holds <==>
      exists t :: t in c.tags && (t !in tags.entries || Falsy(tags.entries[t]))
  {
    forall t ensures !Truthy(Get(tags.entries, t)) <==> t !in tags.entries || Falsy(tags.entries[t]) {
      TruthyIff(Get(tags.entries, t));
    }
    hide EvalField, Text.Normalize, Truthy, Falsy;
  }

  /** An operator that is none of these never holds. */
  lemma UnknownOperator(lib: Library, c: Condition, op: string, config: Column, tags: Column, v: Json)
    requires Asks(c, op, config, v)
    requires op !in {"any_tag_missing", "any_bool_true", "all_bool_false", "startswith_any", "in", "not_in",
                     "days_until_lte", "days_until_gt", "exists", "missing", "not_empty_list", "bool_true",
                     "bool_false", "eq", "neq", "gt", "gte", "lt", "lte"}
    ensures EvalOne(lib, c, config, tags) == Fails
  {
    AskedField(lib, c, op, config, tags, v);
    hide EvalOne, Text.Normalize;
  }

  // ---- evidence ------------------------------------------------------------------------------------------

  lemma {:induction false} CopiesFields(fields: seq<string>, entries: map<string, Json>, k: string)
    ensures var r := CopyFields(fields, entries);
      (k in r <==> k in fields && k in entries && entries[k] != Null) && (k in r ==> r[k] == entries[k])
  {
    if fields != [] {
      var n := |fields| - 1;
      CopiesFields(fields[..n], entries, k);
      assert k in fields <==> k in fields[..n] || k == fields[n] by {
        assert fields == fields[..n] + [fields[n]];
      }
    }
  }

  /** A key that no computed entry and no tag list writes holds the configuration's value if the rule asks for it. */
  lemma EvidenceOf(lib: Library, r: Rule, s: ResourceSnapshot, k: string)
    requires s.config.Mapping? && k !in {"missing_tags", "tags"} && forall c :: c in r.computed ==> c.key != k
    ensures var e := Build(lib, r, s).evidence;
      (k in e <==> k in r.evidenceFields && k in s.config.entries && s.config.entries[k] != Null) &&
      (k in e ==> e[k] == s.config.entries[k])
  {
    CopiesFields(r.evidenceFields, s.config.entries, k);
    hide CopyFields, HasTagOp, MissingOf, RequiredTags, Fires;
  }

  // ---- the certificate rule ------------------------------------------------------------------------------

  /** app/rules/config/acm.yaml, first rule. */
  function CertificateRule(): Rule {
    Rule("acm_certificate_expiring_soon", true, "acm_certificate", "acm_certificate_expiring_soon", "high",
      [Condition("exists", Some("not_after"), Null, [], [], []),
       Condition("days_until_lte", Some("not_after"), Num(30.0), [], [], []),
       Condition("days_until_gt", Some("not_after"), Num(0.0), [], [], [])],
      ["not_after", "linked_resources"], [Computed("days_remaining", "days_until", "not_after")])
  }

  lemma OperatorsAreNormal()
    ensures Text.Normalize("exists") == "exists" && Text.Normalize("days_until_lte") == "days_until_lte"
    ensures Text.Normalize("days_until_gt") == "days_until_gt"
  {
    assert Text.Strip("exists") == "exists" && Text.Lower("exists") == "exists";
    assert Text.Strip("days_until_lte") == "days_until_lte" && Text.Lower("days_until_lte") == "days_until_lte";
    assert Text.Strip("days_until_gt") == "days_until_gt" && Text.Lower("days_until_gt") == "days_until_gt";
  }

  lemma CertificateMatches(lib: Library, s: ResourceSnapshot, date: string, days: int)
    requires s.config.Mapping? && "not_after" in s.config.entries && s.config.entries["not_after"] == Str(date)
    requires date != "" && lib.daysUntil(date) == Some(days)
    ensures Evaluate(lib, CertificateRule().conditions, s.config, s.tags) == Holds <==> 0 < days <= 30
  {
    var cs := CertificateRule().conditions;
    OperatorsAreNormal();
    PresenceOperators(lib, cs[0], "exists", s.config, s.tags, Str(date));
    DateOperators(lib, cs[1], "days_until_lte", s.config, s.tags, date, days, 30.0);
    DateOperators(lib, cs[2], "days_until_gt", s.config, s.tags, date, days, 0.0);
    HoldsEach(lib, cs, s.config, s.tags);
    assert cs[0] in cs && cs[1] in cs && cs[2] in cs;
    hide EvalOne, Evaluate, Text.Normalize;
  }

  /**
   * The shipped certificate rule finds a certificate with a readable expiry date exactly when that lies one to thirty
   * days ahead, and the finding names the certificate, its date and the days that remain.
   */
  lemma CertificateFound(lib: Library, s: ResourceSnapshot, date: string, days: int)
    requires s.config.Mapping? && "not_after" in s.config.entries && s.config.entries["not_after"] == Str(date)
    requires date != "" && lib.daysUntil(date) == Some(days)
    ensures Emit(lib, CertificateRule(), s).Some? <==> 0 < days <= 30
    ensures Emit(lib, CertificateRule(), s).Some? ==>
      var f := Emit(lib, CertificateRule(), s).value;
      f.snapshot == s.id && f.resourceId == s.resourceId && f.resourceType == s.resourceType &&
      f.findingType == "acm_certificate_expiring_soon" && f.severity == "high" &&
      "not_after" in f.evidence && f.evidence["not_after"] == Str(date) &&
      "days_remaining" in f.evidence && f.evidence["days_remaining"] == Num(days as real)
  {
    CertificateMatches(lib, s, date, days);
    EvidenceOf(lib, CertificateRule(), s, "not_after");
    NoTagCondition();
    DaysRemain(lib, s, date, days);
    hide Evaluate, Evidence, HasTagOp;
  }

  lemma NoTagCondition()
    ensures !HasTagOp(CertificateRule())
  {
  }

  lemma DaysRemain(lib: Library, s: ResourceSnapshot, date: string, days: int)
    requires s.config.Mapping? && "not_after" in s.config.entries && s.config.entries["not_after"] == Str(date)
    requires date != "" && lib.daysUntil(date) == Some(days)
    ensures var e := Build(lib, CertificateRule(), s).evidence;
      "days_remaining" in e && e["days_remaining"] == Num(days as real)
  {
    var cs := CertificateRule().computed;
    assert cs[..0] == [] && cs[0] == Computed("days_remaining", "days_until", "not_after");
    hide CopyFields, HasTagOp, MissingOf, RequiredTags;
  }

  /** A certificate without a readable date is not found. */
  lemma NoDateNotFound(lib: Library, s: ResourceSnapshot, v: Json)
    requires s.config.Mapping? && v == if "not_after" in s.config.entries then s.config.entries["not_after"] else Null
    requires v.Str? && v.s != "" ==> lib.daysUntil(v.s) == None
    ensures Emit(lib, CertificateRule(), s) == None
  {
    var cs := CertificateRule().conditions;
    OperatorsAreNormal();
    UnreadableDateFails(lib, cs[1], "days_until_lte", s.config, s.tags, v);
    HoldsEach(lib, cs, s.config, s.tags);
    assert cs[1] in cs;
    hide EvalOne, Evaluate, Text.Normalize, Build;
  }

  /** The rule is loaded, and no other enabled rule reports under its finding type. */
  ghost predicate Loaded(rules: seq<Rule>) {
    CertificateRule() in rules &&
    forall r :: r in rules && r.enabled && r.findingType == "acm_certificate_expiring_soon" ==> r == CertificateRule()
  }

  /**
   * The engine reports a latest certificate as expiring exactly when its date lies one to thirty days ahead, whatever
   * other rules are loaded.
   */
  lemma CertificateReported(lib: Library, rules: seq<Rule>, rows: seq<ResourceSnapshot>, s: ResourceSnapshot,
                            date: string, days: int)
    requires Loaded(rules) && s in rows && IsLatest(rows, s) && s.resourceType == "acm_certificate"
    requires forall t :: t in rows && t.id == s.id ==> t == s
    requires s.config.Mapping? && "not_after" in s.config.entries && s.config.entries["not_after"] == Str(date)
    requires date != "" && lib.daysUntil(date) == Some(days)
    ensures (exists f :: f in Scan(lib, rules, Bags.Keep(Latest(rows), rows)) && f.snapshot == s.id &&
                         f.findingType == "acm_certificate_expiring_soon") <==> 0 < days <= 30
  {
    var found := Scan(lib, rules, Bags.Keep(Latest(rows), rows));
    CertificateFound(lib, s, date, days);
    if 0 < days <= 30 {
      var f := Emit(lib, CertificateRule(), s).value;
      ScanMembers(lib, rules, rows, f);
      assert f in found;
    }
    forall f | f in found && f.snapshot == s.id && f.findingType == "acm_certificate_expiring_soon"
      ensures 0 < days <= 30
    {
      ScanMembers(lib, rules, rows, f);
      var r, t :| r in rules && t in rows && r.enabled && r.resourceType == t.resourceType && IsLatest(rows, t) &&
        Emit(lib, r, t) == Some(f);
      assert f == Build(lib, r, t);
    }
    hide Scan, Evaluate, Evidence, BuildRaises;
  }
}
