/** Unique organization slugs: the numbered search and why it ends. */
module OrgSlug {
  import opened Collections

  const MAX_SLUG := 255

  datatype SlugRow = SlugRow(id: Id, slug: string)

  predicate IsDigit(c: char) {
    '0' <= c <= '9'
  }

  function Digits(n: nat): (s: string)
    ensures |s| >= 1 && forall i :: 0 <= i < |s| ==> IsDigit(s[i])
    ensures Value(s) == n
  {
    var d := ('0' as int + n % 10) as char;
    if n < 10 then [d]
    else
      assert (Digits(n / 10) + [d])[..|Digits(n / 10)|] == Digits(n / 10);
      Digits(n / 10) + [d]
  }

  function Value(s: string): int {
    if s == [] then 0 else 10 * Value(s[..|s| - 1]) + (s[|s| - 1] as int - '0' as int)
  }

  /** The first `n` characters; a negative bound counts from the end. */
  function Take(base: string, n: int): (r: string)
    ensures r <= base && (n >= 0 ==> |r| <= n)
  {
    var m := if n >= 0 then n else |base| + n;
    if m <= 0 then "" else if m >= |base| then base else base[..m]
  }

  function StripDashes(s: string): string {
    if s != [] && s[|s| - 1] == '-' then StripDashes(s[..|s| - 1]) else s
  }

  function Suffix(n: nat): string {
    "-" + Digits(n)
  }

  function Numbered(base: string, n: nat): string {
    StripDashes(Take(base, MAX_SLUG - |Suffix(n)|) + Suffix(n))
  }

  /** The candidate of the `i`-th try, counted from one. */
  function Candidate(base: string, i: nat): string
    requires i >= 1
  {
    if i == 1 then Take(base, MAX_SLUG) else Numbered(base, i)
  }

  predicate Taken(rows: seq<SlugRow>, exclude: Option<Id>, slug: string) {
    exists o :: o in rows && o.slug == slug && exclude != Some(o.id)
  }

  // ---- numbered candidates are pairwise distinct -------------------------------------------------

  function TrailingDigits(s: string): string {
    if s != [] && IsDigit(s[|s| - 1]) then TrailingDigits(s[..|s| - 1]) + [s[|s| - 1]] else []
  }

  lemma {:induction false} DigitsAfterDash(x: string, d: string)
    requires forall i :: 0 <= i < |d| ==> IsDigit(d[i])
    ensures TrailingDigits(x + "-" + d) == d
  {
    var s := x + "-" + d;
    if d == [] {
      assert s[|s| - 1] == '-';
    } else {
      assert s[..|s| - 1] == x + "-" + d[..|d| - 1];
      DigitsAfterDash(x, d[..|d| - 1]);
    }
  }

  /** The number can be read back from a numbered candidate, so different numbers give different candidates. */
  lemma NumberReadBack(base: string, n: nat)
    ensures Value(TrailingDigits(Numbered(base, n))) == n
    ensures Numbered(base, n) == Take(base, MAX_SLUG - |Suffix(n)|) + Suffix(n)
  {
    var x := Take(base, MAX_SLUG - |Suffix(n)|);
    var s := x + Suffix(n);
    assert s == x + "-" + Digits(n);
    DigitsAfterDash(x, Digits(n));
    assert s[|s| - 1] == Digits(n)[|Digits(n)| - 1];
  }

  lemma NumberedDistinct(base: string, m: nat, n: nat)
    requires m != n
    ensures Numbered(base, m) != Numbered(base, n)
  {
    NumberReadBack(base, m);
    NumberReadBack(base, n);
  }

  lemma SplitAt(base: string, cut: nat, suffix: string)
    requires cut + |suffix| <= |base|
    ensures base[..cut + |suffix|] == base[..cut] + suffix <==> base[cut..cut + |suffix|] == suffix
  {
    var n := cut + |suffix|;
    assert base[..n] == base[..cut] + base[cut..n];
    assert base[..n][cut..] == base[cut..n] && (base[..cut] + suffix)[cut..] == suffix;
  }

  /** The plain candidate repeats a numbered one exactly when the truncated base itself ends in that suffix. */
  lemma PlainRepeatsIff(base: string, n: nat)
    requires n >= 2 && |Suffix(n)| <= MAX_SLUG
    ensures Candidate(base, 1) == Candidate(base, n) <==>
      |base| >= MAX_SLUG && base[MAX_SLUG - |Suffix(n)|..MAX_SLUG] == Suffix(n)
  {
    NumberReadBack(base, n);
    var suffix := Suffix(n);
    var cut := MAX_SLUG - |suffix|;
    assert |suffix| >= 2;
    hide Suffix, Numbered;
    if |base| >= MAX_SLUG {
      SplitAt(base, cut, suffix);
    } else {
      assert |Take(base, MAX_SLUG)| == |base|;
      assert |Take(base, cut) + suffix| != |base|;
    }
  }

  lemma {:induction false} DigitsMonotone(m: nat, n: nat)
    requires m <= n
    ensures |Digits(m)| <= |Digits(n)|
    decreases n
  {
    if m >= 10 {
      DigitsMonotone(m / 10, n / 10);
    }
  }

  lemma CandidateFits(base: string, i: nat, last: nat)
    requires 1 <= i <= last && |Suffix(last)| <= MAX_SLUG
    ensures |Candidate(base, i)| <= MAX_SLUG
  {
    DigitsMonotone(i, last);
    NumberReadBack(base, i);
  }

  // ---- the search -----------------------------------------------------------------------------------

  ghost predicate HasSlug(rows: seq<SlugRow>, slug: string) {
    exists k :: 0 <= k < |rows| && rows[k].slug == slug
  }

  /** Distinct stored slugs are at most as many as the rows. */
  lemma {:induction false} Pigeonhole(rows: seq<SlugRow>, used: seq<string>)
    requires NoDuplicates(used) && forall i :: 0 <= i < |used| ==> HasSlug(rows, used[i])
    ensures |used| <= |rows|
  {
    if used != [] {
      var n := |used| - 1;
      assert HasSlug(rows, used[n]);
      var k :| 0 <= k < |rows| && rows[k].slug == used[n];
      var rest := rows[..k] + rows[k + 1..];
      forall i | 0 <= i < n ensures HasSlug(rest, used[..n][i]) {
        assert HasSlug(rows, used[i]);
        var j :| 0 <= j < |rows| && rows[j].slug == used[i];
        assert rest[if j < k then j else j - 1] == rows[j];
      }
      Pigeonhole(rest, used[..n]);
    }
  }

  /** If numbered candidates 2 to n are all taken, at least n - 1 organizations are stored. */
  lemma TakenCandidatesNeedRows(rows: seq<SlugRow>, exclude: Option<Id>, base: string, n: nat)
    requires n >= 1 && forall i :: 2 <= i <= n ==> Taken(rows, exclude, Candidate(base, i))
    ensures n - 1 <= |rows|
  {
    var used := seq(n - 1, i requires 0 <= i < n - 1 => Candidate(base, i + 2));
    forall i, j | 0 <= i < j < |used| ensures used[i] != used[j] {
      NumberedDistinct(base, i + 2, j + 2);
    }
    forall i | 0 <= i < |used| ensures HasSlug(rows, used[i]) {
      assert Taken(rows, exclude, Candidate(base, i + 2));
    }
    Pigeonhole(rows, used);
  }

  /**
   * Returns the first free candidate, after at most k + 2 tries for k stored organizations. It has at most 255
   * characters as long as the suffix of number k + 2 does.
   */
  method EnsureUniqueOrgSlug(rows: seq<SlugRow>, base: string, exclude: Option<Id>)
    returns (slug: string, tries: nat)
    ensures 1 <= tries <= |rows| + 2
    ensures slug == Candidate(base, tries)
    ensures forall o :: o in rows && o.slug == slug ==> exclude == Some(o.id)
    ensures forall i :: 1 <= i < tries ==> Taken(rows, exclude, Candidate(base, i))
    ensures |Suffix(|rows| + 2)| <= MAX_SLUG ==> |slug| <= MAX_SLUG
  {
    slug := Take(base, MAX_SLUG);
    tries := 1;
    var n := 2;
    while Taken(rows, exclude, slug)
      invariant n == tries + 1 && tries <= |rows| + 2 && slug == Candidate(base, tries)
      invariant forall i :: 1 <= i < tries ==> Taken(rows, exclude, Candidate(base, i))
      decreases |rows| + 2 - tries
    {
      TakenCandidatesNeedRows(rows, exclude, base, tries);
      slug := Numbered(base, n);
      n := n + 1;
      tries := tries + 1;
    }
    if |Suffix(|rows| + 2)| <= MAX_SLUG {
      CandidateFits(base, tries, |rows| + 2);
    }
  }
}
