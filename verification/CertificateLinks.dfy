/** Two-way links between content distributions and the certificates they use. */
module CertificateLinks {
  import opened Collections
  import Text

  datatype Ref = Ref(
    resourceType: string, resourceId: string, name: string, relation: string, confidence: string, source: string)

  /** Missing texts are empty; `arn` is the certificate the viewer configuration names. */
  datatype Config = Config(
    domain: string, aliases: seq<string>, arn: string, links: seq<Ref>,
    linkedArn: Option<string>, linkedDomain: Option<string>, linkedStatus: Option<string>, confidence: Option<string>)

  /** A distribution without a configuration is read as if it were empty, and nothing can be written to it. */
  datatype Distribution = Distribution(id: Option<string>, config: Option<Config>)

  datatype Certificate = Certificate(
    id: Option<string>, domain: string, names: seq<string>, status: string, links: seq<Ref>)

  datatype Match = Match(cert: nat, direct: bool)

  function IdOr(id: Option<string>): string {
    if id.Some? then id.value else ""
  }

  /** The id as text; a missing one reads "None". */
  function IdText(id: Option<string>): string {
    if id.Some? then id.value else "None"
  }

  function ConfidenceOf(m: Match): string {
    if m.direct then "direct_arn_match" else "domain_match"
  }

  function SourceOf(m: Match): string {
    if m.direct then "cloudfront.viewer_certificate.acm_arn" else "cloudfront.domain_or_alias_to_acm_domain"
  }

  function Domains(d: Distribution): seq<string> {
    if d.config.Some? then [d.config.value.domain] + d.config.value.aliases else []
  }

  function ArnOf(d: Distribution): string {
    if d.config.Some? then Text.Strip(d.config.value.arn) else ""
  }

  function Names(c: Certificate): seq<string> {
    [c.domain] + c.names
  }

  /** One of the texts normalises to the key. */
  predicate Spells(texts: seq<string>, key: string) {
    exists t :: t in texts && Text.Normalize(t) == key
  }

  /** Distribution and certificate share a domain or alias, trimmed and lower-cased. */
  predicate Shares(d: Distribution, c: Certificate) {
    SharesOne(Domains(d), c)
  }

  predicate SharesOne(domains: seq<string>, c: Certificate) {
    exists t :: t in domains && Text.Normalize(t) != "" && Spells(Names(c), Text.Normalize(t))
  }

  // ---- the plain choice ----------------------------------------------------------------------------

  /** The last certificate with this id. */
  function LastWithId(certs: seq<Certificate>, id: string): (r: Option<nat>)
    ensures r.Some? ==> r.value < |certs| && IdOr(certs[r.value].id) == id
    ensures r.None? ==> forall j :: 0 <= j < |certs| ==> IdOr(certs[j].id) != id
  {
    if certs == [] then None
    else if IdOr(certs[|certs| - 1].id) == id then Some(|certs| - 1)
    else LastWithId(certs[..|certs| - 1], id)
  }

  ghost predicate DistinctIds(certs: seq<Certificate>) {
    (forall j :: 0 <= j < |certs| ==> certs[j].id.Some? && certs[j].id.value != "") &&
    forall i, j :: 0 <= i < j < |certs| ==> certs[i].id != certs[j].id
  }

  /** Without any index: the certificate the ARN names, else the only one that shares a domain or alias. */
  ghost predicate Chosen(certs: seq<Certificate>, d: Distribution, m: Option<Match>) {
    var named := ArnOf(d) != "" && exists j :: 0 <= j < |certs| && certs[j].id == Some(ArnOf(d));
    match m
    case Some(Match(c, true)) => named && c < |certs| && certs[c].id == Some(ArnOf(d))
    case Some(Match(c, false)) =>
      !named && c < |certs| && forall j :: 0 <= j < |certs| ==> (Shares(d, certs[j]) <==> j == c)
    case None => !named && NoOnlySharer(certs, d)
  }

  ghost predicate NoOnlySharer(certs: seq<Certificate>, d: Distribution) {
    forall c :: 0 <= c < |certs| && Shares(d, certs[c]) ==>
      exists j :: 0 <= j < |certs| && j != c && Shares(d, certs[j])
  }

  /** With distinct ids there is one choice. */
  lemma ChoiceIsUnique(certs: seq<Certificate>, d: Distribution, m: Option<Match>, n: Option<Match>)
    requires DistinctIds(certs) && Chosen(certs, d, m) && Chosen(certs, d, n)
    ensures m == n
  {
    hide Shares, ArnOf;
    if m.Some? && !m.value.direct {
      assert Shares(d, certs[m.value.cert]);
    }
    if n.Some? && !n.value.direct {
      assert Shares(d, certs[n.value.cert]);
    }
  }

  /** A text is the distribution's domain or one of its aliases. */
  ghost predicate NamesDistribution(d: Distribution, t: string) {
    d.config.Some? &&
    (t == d.config.value.domain ||
     exists i :: 0 <= i < |d.config.value.aliases| && d.config.value.aliases[i] == t)
  }

  /** A text is the certificate's domain or one of its alternative names. */
  ghost predicate NamesCertificate(c: Certificate, t: string) {
    t == c.domain || exists i :: 0 <= i < |c.names| && c.names[i] == t
  }

  /** Sharing: a domain or alias and a domain or alternative name agree, trimmed and lower-cased, and not blank. */
  lemma SharesIff(d: Distribution, c: Certificate)
    ensures Shares(d, c) <==>
      exists t, u :: NamesDistribution(d, t) && NamesCertificate(c, u) &&
        Text.Normalize(t) == Text.Normalize(u) && Text.Normalize(t) != ""
  {
    hide Text.Normalize;
    forall t ensures t in Domains(d) <==> NamesDistribution(d, t) {}
    forall u ensures u in Names(c) <==> NamesCertificate(c, u) {}
    hide Domains, Names;
    if t, u :| (NamesDistribution(d, t) && NamesCertificate(c, u) &&
                Text.Normalize(t) == Text.Normalize(u) && Text.Normalize(t) != "")
    {
      assert t in Domains(d) && u in Names(c);
      assert Spells(Names(c), Text.Normalize(t));
    }
    if Shares(d, c) {
      var t :| t in Domains(d) && Text.Normalize(t) != "" && Spells(Names(c), Text.Normalize(t));
      var u :| u in Names(c) && Text.Normalize(u) == Text.Normalize(t);
      assert NamesDistribution(d, t) && NamesCertificate(c, u);
    }
  }

  // ---- what linking writes ---------------------------------------------------------------------------

  function ForwardRef(c: Certificate, m: Match): Ref {
    Ref("acm_certificate", IdOr(c.id), if c.domain != "" then c.domain else IdOr(c.id), "uses_certificate",
        ConfidenceOf(m), SourceOf(m))
  }

  function ReverseRef(d: Distribution, m: Match): Ref {
    Ref("cloudfront_distribution", IdOr(d.id), if d.config.Some? then d.config.value.domain else "",
        "used_by_distribution", ConfidenceOf(m), SourceOf(m))
  }

  function Linked(d: Distribution, certs: seq<Certificate>, m: Option<Match>): Distribution
    requires m.Some? ==> m.value.cert < |certs|
  {
    if d.config.None? then d
    else if m.None? then d.(config := Some(d.config.value.(confidence := Some("unknown"))))
    else
      var c := certs[m.value.cert];
      d.(config := Some(d.config.value.(
        links := d.config.value.links + [ForwardRef(c, m.value)],
        linkedArn := Some(IdOr(c.id)), linkedDomain := Some(c.domain), linkedStatus := Some(c.status),
        confidence := Some(ConfidenceOf(m.value)))))
  }

  /**
   * What a link says: the other side by type, id and name, and how the match was found. A certificate without a domain
   * goes by its id, and a missing id is empty.
   */
  lemma LinksSay(d: Distribution, c: Certificate, m: Match)
    requires d.config.Some? && c.id.Some? && d.id.Some?
    ensures var how := if m.direct then ("direct_arn_match", "cloudfront.viewer_certificate.acm_arn")
                       else ("domain_match", "cloudfront.domain_or_alias_to_acm_domain");
      ForwardRef(c, m) == Ref("acm_certificate", c.id.value, if c.domain == "" then c.id.value else c.domain,
                              "uses_certificate", how.0, how.1) &&
      ReverseRef(d, m) == Ref("cloudfront_distribution", d.id.value, d.config.value.domain,
                              "used_by_distribution", how.0, how.1)
    ensures IdText(None) == "None" && IdOr(None) == ""
  {
  }

  /** The links that the first distributions, with these choices, add to certificate `j`. */
  function BackLinks(ds: seq<Distribution>, ms: seq<Option<Match>>, j: nat): seq<Ref>
    requires |ms| <= |ds|
  {
    if ms == [] then []
    else
      var n := |ms| - 1;
      var before := BackLinks(ds, ms[..n], j);
      if ms[n].Some? && ms[n].value.cert == j then before + [ReverseRef(ds[n], ms[n].value)] else before
  }

  ghost predicate InRange(ms: seq<Option<Match>>, certs: seq<Certificate>) {
    forall i :: 0 <= i < |ms| && ms[i].Some? ==> ms[i].value.cert < |certs|
  }

  // ---- the indexes -----------------------------------------------------------------------------------

  /** Certificates by id, the last one on equal ids. */
  ghost predicate ArnIndex(byArn: map<string, nat>, certs: seq<Certificate>) {
    forall a :: (if a in byArn then Some(byArn[a]) else None) == if a == "" then None else LastWithId(certs, a)
  }

  predicate Under(byDomain: map<string, seq<nat>>, key: string, j: nat) {
    key in byDomain && j in byDomain[key]
  }

  /** Certificates by normalised name. */
  ghost predicate DomainIndex(byDomain: map<string, seq<nat>>, certs: seq<Certificate>) {
    forall k, j: nat :: Under(byDomain, k, j) <==> k != "" && j < |certs| && Spells(Names(certs[j]), k)
  }

  method IndexByArn(certs: seq<Certificate>) returns (byArn: map<string, nat>)
    ensures ArnIndex(byArn, certs)
  {
    byArn := map[];
    for i := 0 to |certs|
      invariant ArnIndex(byArn, certs[..i])
    {
      assert certs[..i + 1][..i] == certs[..i];
      var rid := IdOr(certs[i].id);
      if rid != "" {
        byArn := byArn[rid := i];
      }
    }
    assert certs[..|certs|] == certs;
  }

  /** The domain index after certificates before `i` and the first `n` names of certificate `i`. */
  ghost predicate PartialIndex(byDomain: map<string, seq<nat>>, certs: seq<Certificate>, i: nat, n: nat)
    requires i < |certs| ==> n <= |Names(certs[i])|
  {
    forall k, j: nat :: Under(byDomain, k, j) <==>
      k != "" && j < |certs| &&
      ((j < i && Spells(Names(certs[j]), k)) || (j == i && Spells(Names(certs[j])[..n], k)))
  }

  method IndexByDomain(certs: seq<Certificate>) returns (byDomain: map<string, seq<nat>>)
    ensures DomainIndex(byDomain, certs)
  {
    hide Text.Normalize;
    byDomain := map[];
    for i := 0 to |certs|
      invariant PartialIndex(byDomain, certs, i, 0)
    {
      byDomain := IndexNames(byDomain, certs, i);
      NextCertificate(byDomain, certs, i);
    }
  }

  lemma NextCertificate(byDomain: map<string, seq<nat>>, certs: seq<Certificate>, i: nat)
    requires i < |certs| && PartialIndex(byDomain, certs, i, |Names(certs[i])|)
    ensures PartialIndex(byDomain, certs, i + 1, 0)
  {
    hide Text.Normalize;
    assert Names(certs[i])[..|Names(certs[i])|] == Names(certs[i]);
  }

  method IndexNames(before: map<string, seq<nat>>, certs: seq<Certificate>, i: nat)
    returns (byDomain: map<string, seq<nat>>)
    requires i < |certs| && PartialIndex(before, certs, i, 0)
    ensures PartialIndex(byDomain, certs, i, |Names(certs[i])|)
  {
    var names := Names(certs[i]);
    byDomain := before;
    for n := 0 to |names|
      invariant PartialIndex(byDomain, certs, i, n)
    {
      OneMoreName(byDomain, certs, i, n);
      var d := Text.Normalize(names[n]);
      if d != "" {
        byDomain := WithPosition(byDomain, d, i);
      }
    }
  }

  /** The index with the position appended under the key. */
  function WithPosition(byDomain: map<string, seq<nat>>, key: string, i: nat): map<string, seq<nat>> {
    byDomain[key := (if key in byDomain then byDomain[key] else []) + [i]]
  }

  lemma OneMoreName(byDomain: map<string, seq<nat>>, certs: seq<Certificate>, i: nat, n: nat)
    requires i < |certs| && n < |Names(certs[i])| && PartialIndex(byDomain, certs, i, n)
    ensures var d := Text.Normalize(Names(certs[i])[n]);
      PartialIndex(if d != "" then WithPosition(byDomain, d, i) else byDomain, certs, i, n + 1)
  {
    SpellsOneMore(Names(certs[i]), n);
    var d := Text.Normalize(Names(certs[i])[n]);
    UnderOneMore(byDomain, d, i);
    hide Text.Normalize, Spells, Names, WithPosition, Under;
  }

  lemma UnderOneMore(byDomain: map<string, seq<nat>>, d: string, i: nat)
    ensures forall k, j: nat ::
      Under(WithPosition(byDomain, d, i), k, j) <==> (Under(byDomain, k, j) || (k == d && j == i))
  {
    var xs := if d in byDomain then byDomain[d] else [];
    forall j: nat ensures j in xs + [i] <==> (j in xs || j == i) {}
  }

  lemma SpellsOneMore(texts: seq<string>, n: nat)
    requires n < |texts|
    ensures forall k :: Spells(texts[..n + 1], k) <==> Spells(texts[..n], k) || k == Text.Normalize(texts[n])
  {
    assert texts[..n + 1] == texts[..n] + [texts[n]];
    hide Text.Normalize;
    assert texts[n] in texts[..n + 1];
  }

  // ---- one distribution --------------------------------------------------------------------------------

  lemma SharesOneMore(domains: seq<string>, n: nat, certs: seq<Certificate>)
    requires n < |domains|
    ensures forall j :: 0 <= j < |certs| ==>
      (SharesOne(domains[..n + 1], certs[j]) <==>
        (SharesOne(domains[..n], certs[j]) ||
          (Text.Normalize(domains[n]) != "" && Spells(Names(certs[j]), Text.Normalize(domains[n])))))
  {
    hide Text.Normalize, Spells, Names;
    assert domains[..n + 1] == domains[..n] + [domains[n]];
    assert domains[n] in domains[..n + 1];
  }

  /** The certificates found under any of the distribution's domains. */
  method Candidates(d: Distribution, byDomain: map<string, seq<nat>>, certs: seq<Certificate>) returns (found: seq<nat>)
    requires DomainIndex(byDomain, certs)
    ensures forall j: nat :: j in found <==> j < |certs| && Shares(d, certs[j])
  {
    hide Text.Normalize, Spells, Names;
    var domains := Domains(d);
    found := [];
    for n := 0 to |domains|
      invariant forall j: nat :: j in found <==> j < |certs| && SharesOne(domains[..n], certs[j])
    {
      SharesOneMore(domains, n, certs);
      var key := Text.Normalize(domains[n]);
      if key == "" {
        continue;
      }
      ghost var before := found;
      found := found + (if key in byDomain then byDomain[key] else []);
      forall j: nat ensures j in found <==> j in before || Under(byDomain, key, j) {}
    }
    assert domains[..|domains|] == domains;
  }

  /** The certificates found, by the text of their id; a later one replaces an earlier one. */
  function ById(certs: seq<Certificate>, found: seq<nat>): (r: map<string, nat>)
    requires forall j: nat :: j in found ==> j < |certs|
    ensures Keyed(certs, found, r)
  {
    if found == [] then map[]
    else
      var n := |found| - 1;
      assert forall j: nat :: j in found <==> j in found[..n] || j == found[n];
      assert found[n] in found;
      ById(certs, found[..n])[IdText(certs[found[n]].id) := found[n]]
  }

  /** Every key names a certificate found, and every certificate found has its key. */
  ghost predicate Keyed(certs: seq<Certificate>, found: seq<nat>, r: map<string, nat>) {
    (forall j: nat :: j in found ==> j < |certs| && IdText(certs[j].id) in r) &&
    forall k :: k in r ==> r[k] in found && r[k] < |certs| && IdText(certs[r[k]].id) == k
  }

  /** With distinct ids, one key means that only one certificate was found. */
  lemma OneKey(certs: seq<Certificate>, found: seq<nat>, r: map<string, nat>, k: string)
    requires DistinctIds(certs) && Keyed(certs, found, r) && |r.Keys| == 1 && k in r.Keys
    ensures forall j: nat :: j in found <==> j == r[k]
  {
    forall j: nat | j in found ensures j == r[k] {
      OnlyKey(r.Keys, k, IdText(certs[j].id));
    }
  }

  lemma OnlyKey(keys: set<string>, k: string, x: string)
    requires |keys| == 1 && k in keys && x in keys
    ensures x == k
  {
    assert |keys - {k}| == 0;
    assert x in (keys - {k}) + {k};
  }

  /** Any other number of keys means that no certificate found stands alone. */
  lemma SeveralKeys(certs: seq<Certificate>, found: seq<nat>, r: map<string, nat>, i: nat)
    requires Keyed(certs, found, r) && |r.Keys| != 1 && i in found
    ensures exists j: nat :: j in found && j != i
  {
    var k := IdText(certs[i].id);
    assert k in r.Keys && |r.Keys - {k}| == |r.Keys| - 1;
    var x :| x in r.Keys - {k};
    assert r[x] in found && r[x] != i;
  }

  lemma NothingWithoutConfig(d: Distribution, certs: seq<Certificate>)
    ensures d.config.None? ==> ArnOf(d) == "" && forall j :: 0 <= j < |certs| ==> !Shares(d, certs[j])
  {
  }

  method FindByDomain(d: Distribution, certs: seq<Certificate>, byDomain: map<string, seq<nat>>)
    returns (only: Option<nat>)
    requires DomainIndex(byDomain, certs)
    ensures only.Some? ==> only.value < |certs| && Shares(d, certs[only.value])
    ensures DistinctIds(certs) && only.Some? ==>
      forall j :: 0 <= j < |certs| ==> (Shares(d, certs[j]) <==> j == only.value)
    ensures DistinctIds(certs) && only.None? ==> NoOnlySharer(certs, d)
  {
    hide DomainIndex, Shares;
    var found := Candidates(d, byDomain, certs);
    var unique := ById(certs, found);
    hide ById;
    assert |unique| == |unique.Keys|;
    only := None;
    if |unique| == 1 {
      var k :| k in unique.Keys;
      assert unique[k] in found by { hide DistinctIds; }
      only := Some(unique[k]);
      if DistinctIds(certs) {
        OneKey(certs, found, unique, k);
      }
    } else {
      hide DistinctIds;
      forall i: nat | i in found ensures exists j: nat :: j in found && j != i {
        SeveralKeys(certs, found, unique, i);
      }
    }
  }

  method FindMatch(d: Distribution, certs: seq<Certificate>, byArn: map<string, nat>, byDomain: map<string, seq<nat>>)
    returns (m: Option<Match>)
    requires ArnIndex(byArn, certs) && DomainIndex(byDomain, certs)
    ensures m.Some? ==> m.value.cert < |certs|
    ensures DistinctIds(certs) ==> Chosen(certs, d, m)
    ensures d.config.None? ==> m.None?
  {
    NothingWithoutConfig(d, certs);
    hide DomainIndex, Shares, ArnOf;
    var arn := ArnOf(d);
    assert (if arn in byArn then Some(byArn[arn]) else None) == if arn == "" then None else LastWithId(certs, arn);
    if arn != "" && arn in byArn {
      return Some(Match(byArn[arn], true));
    }
    hide ArnIndex, LastWithId;
    var only := FindByDomain(d, certs, byDomain);
    m := if only.Some? then Some(Match(only.value, false)) else None;
  }

  // ---- the whole pass ------------------------------------------------------------------------------------

  class Inventory {
    var distributions: seq<Distribution>
    var certificates: seq<Certificate>

    constructor (ds: seq<Distribution>, cs: seq<Certificate>)
      ensures distributions == ds && certificates == cs
    {
      distributions, certificates := ds, cs;
    }

    /** Links in place; `ms` are the matches made, one per distribution, none at all when either table is empty. */
    method Link() returns (ms: seq<Option<Match>>)
      modifies this
      ensures old(distributions) == [] || old(certificates) == [] ==>
        ms == [] && distributions == old(distributions) && certificates == old(certificates)
      ensures old(distributions) != [] && old(certificates) != [] ==>
        |ms| == |old(distributions)| &&
        AllLinked(old(distributions), old(certificates), ms, distributions, certificates)
      ensures DistinctIds(old(certificates)) ==>
        forall i :: 0 <= i < |ms| ==> Chosen(old(certificates), old(distributions)[i], ms[i])
    {
      ms := [];
      if distributions == [] || certificates == [] {
        return;
      }
      ghost var ds := distributions;
      var cs := certificates;
      var byArn := IndexByArn(cs);
      var byDomain := IndexByDomain(cs);
      hide Chosen, ArnIndex, DomainIndex, Linked, ReverseRef, WithBackLink, AllLinked;
      NothingLinked(ds, cs);
      for i := 0 to |distributions|
        invariant |ms| == i && AllLinked(ds, cs, ms, distributions, certificates)
        invariant DistinctIds(cs) ==> forall k :: 0 <= k < i ==> Chosen(cs, ds[k], ms[k])
      {
        LinkedSizes(ds, cs, ms, distributions, certificates);
        var m := FindMatch(distributions[i], cs, byArn, byDomain);
        OneMoreLinked(ds, cs, ms, distributions, certificates, m);
        LinkOne(i, m);
        ms := ms + [m];
      }
    }

    /** Writes the match of one distribution on both sides. */
    method LinkOne(i: nat, m: Option<Match>)
      requires i < |distributions| && (m.Some? ==> m.value.cert < |certificates|)
      modifies this
      ensures distributions == old(distributions)[i := Linked(old(distributions)[i], old(certificates), m)]
      ensures certificates == WithBackLink(old(certificates), old(distributions)[i], m)
    {
      var d := distributions[i];
      distributions := distributions[i := Linked(d, certificates, m)];
      if m.Some? {
        var c := certificates[m.value.cert];
        certificates := certificates[m.value.cert := c.(links := c.links + [ReverseRef(d, m.value)])];
      }
    }
  }

  function WithBackLink(cs: seq<Certificate>, d: Distribution, m: Option<Match>): seq<Certificate>
    requires m.Some? ==> m.value.cert < |cs|
  {
    if m.None? then cs
    else cs[m.value.cert := cs[m.value.cert].(links := cs[m.value.cert].links + [ReverseRef(d, m.value)])]
  }

  /** Tables after the first |ms| distributions have been linked. */
  ghost predicate AllLinked(ds: seq<Distribution>, cs: seq<Certificate>, ms: seq<Option<Match>>,
                            ds': seq<Distribution>, cs': seq<Certificate>)
  {
    |ds'| == |ds| && |cs'| == |cs| && |ms| <= |ds| && InRange(ms, cs) &&
    (forall i :: 0 <= i < |ds| ==> ds'[i] == if i < |ms| then Linked(ds[i], cs, ms[i]) else ds[i]) &&
    (forall i :: 0 <= i < |ms| && ds[i].config.None? ==> ms[i].None?) &&
    (forall j :: 0 <= j < |cs| ==> cs'[j] == cs[j].(links := cs[j].links + BackLinks(ds, ms, j)))
  }

  lemma NothingLinked(ds: seq<Distribution>, cs: seq<Certificate>)
    ensures AllLinked(ds, cs, [], ds, cs)
  {
    forall j | 0 <= j < |cs| ensures cs[j].links + BackLinks(ds, [], j) == cs[j].links {}
  }

  lemma LinkedSizes(ds: seq<Distribution>, cs: seq<Certificate>, ms: seq<Option<Match>>,
                    ds': seq<Distribution>, cs': seq<Certificate>)
    requires AllLinked(ds, cs, ms, ds', cs')
    ensures |ds'| == |ds| && |cs'| == |cs| && forall i :: |ms| <= i < |ds| ==> ds'[i] == ds[i]
  {
  }

  lemma OneMoreLinked(ds: seq<Distribution>, cs: seq<Certificate>, ms: seq<Option<Match>>,
                      ds': seq<Distribution>, cs': seq<Certificate>, m: Option<Match>)
    requires AllLinked(ds, cs, ms, ds', cs') && |ms| < |ds|
    requires (m.Some? ==> m.value.cert < |cs|) && (ds[|ms|].config.None? ==> m.None?)
    ensures var i := |ms|;
      AllLinked(ds, cs, ms + [m], ds'[i := Linked(ds'[i], cs', m)], WithBackLink(cs', ds'[i], m))
  {
    var i := |ms|;
    LinkedIgnoresLinks(ds[i], cs, cs', m);
    hide Linked, ReverseRef;
    assert (ms + [m])[..i] == ms;
    forall j | 0 <= j < |cs|
      ensures WithBackLink(cs', ds'[i], m)[j] == cs[j].(links := cs[j].links + BackLinks(ds, ms + [m], j))
    {
      if m.Some? && m.value.cert == j {
        assert cs[j].links + (BackLinks(ds, ms, j) + [ReverseRef(ds[i], m.value)]) ==
          cs'[j].links + [ReverseRef(ds[i], m.value)];
      }
    }
  }

  lemma LinkedIgnoresLinks(d: Distribution, cs: seq<Certificate>, cs': seq<Certificate>, m: Option<Match>)
    requires |cs| == |cs'| && (m.Some? ==> m.value.cert < |cs|)
    requires forall j :: 0 <= j < |cs| ==> cs'[j] == cs[j].(links := cs'[j].links)
    ensures Linked(d, cs', m) == Linked(d, cs, m)
  {
  }

  // ---- links go both ways ----------------------------------------------------------------------------------

  ghost predicate LinksTo(links: seq<Ref>, id: string) {
    exists r :: r in links && r.resourceId == id
  }

  ghost predicate NamedDistributions(ds: seq<Distribution>) {
    (forall i :: 0 <= i < |ds| ==> ds[i].id.Some?) &&
    forall i, j :: 0 <= i < j < |ds| ==> ds[i].id != ds[j].id
  }

  lemma {:induction false} BackLinkIffMatched(ds: seq<Distribution>, ms: seq<Option<Match>>, j: nat, i: nat)
    requires |ms| <= |ds| && i < |ds| && NamedDistributions(ds)
    ensures LinksTo(BackLinks(ds, ms, j), IdOr(ds[i].id)) <==> i < |ms| && ms[i].Some? && ms[i].value.cert == j
  {
    if ms != [] {
      var n := |ms| - 1;
      BackLinkIffMatched(ds, ms[..n], j, i);
      var before := BackLinks(ds, ms[..n], j);
      if ms[n].Some? && ms[n].value.cert == j {
        var r := ReverseRef(ds[n], ms[n].value);
        assert forall x :: x in before + [r] <==> x in before || x == r;
        assert r in before + [r];
      }
    }
  }

  function LinksOf(d: Distribution): seq<Ref> {
    if d.config.Some? then d.config.value.links else []
  }

  /**
   * With distinct ids and no links before, a distribution links to a certificate exactly when that certificate links
   * back to it, which is when it was matched; and no distribution has more than one link.
   */
  lemma LinksGoBothWays(ds: seq<Distribution>, cs: seq<Certificate>, ms: seq<Option<Match>>,
                        ds': seq<Distribution>, cs': seq<Certificate>, i: nat, j: nat)
    requires AllLinked(ds, cs, ms, ds', cs') && |ms| == |ds| && i < |ds| && j < |cs|
    requires DistinctIds(cs) && NamedDistributions(ds)
    requires LinksOf(ds[i]) == [] && cs[j].links == []
    ensures LinksTo(LinksOf(ds'[i]), IdOr(cs[j].id)) <==> LinksTo(cs'[j].links, IdOr(ds[i].id))
    ensures LinksTo(LinksOf(ds'[i]), IdOr(cs[j].id)) <==> ms[i].Some? && ms[i].value.cert == j
    ensures |LinksOf(ds'[i])| <= 1
  {
    BackLinkIffMatched(ds, ms, j, i);
    assert cs'[j].links == BackLinks(ds, ms, j);
    if ms[i].Some? {
      var r := ForwardRef(cs[ms[i].value.cert], ms[i].value);
      assert LinksOf(ds'[i]) == [r] && r in [r];
    }
  }
}
