/** Strings as the services compare them: trimmed of surrounding white space and lower-cased. */
module Text {

  predicate IsSpace(c: char) {
    var n := c as int;
    9 <= n <= 13 || 28 <= n <= 32 || n == 0x85 || n == 0xa0
  }

  function StripLeft(s: string): (r: string)
    ensures r == [] || !IsSpace(r[0])
  {
    if s != [] && IsSpace(s[0]) then StripLeft(s[1..]) else s
  }

  function StripRight(s: string): (r: string)
    ensures r == [] || (s != [] && r[0] == s[0] && !IsSpace(r[|r| - 1]))
  {
    if s != [] && IsSpace(s[|s| - 1]) then StripRight(s[..|s| - 1]) else s
  }

  function Strip(s: string): string {
    StripRight(StripLeft(s))
  }

  function LowerChar(c: char): char {
    if 'A' <= c <= 'Z' then (c as int + 32) as char else c
  }

  function Lower(s: string): string {
    seq(|s|, i requires 0 <= i < |s| => LowerChar(s[i]))
  }

  /** Trimmed and lower-cased. */
  function Normalize(s: string): string {
    Lower(Strip(s))
  }

  /** Tab, line feed, vertical tab, form feed, carriage return, the four separators, space, next line, hard space. */
  const WHITE: string := "\t\n\U{0B}\U{0C}\r\U{1C}\U{1D}\U{1E}\U{1F} \U{85}\U{A0}"

  ghost predicate Blank(s: string) {
    forall i :: 0 <= i < |s| ==> s[i] in WHITE
  }

  lemma WhiteIsSpace(c: char)
    ensures IsSpace(c) <==> c in WHITE
  {
    assert WHITE[0] == 9 as char && WHITE[1] == 10 as char && WHITE[2] == 11 as char && WHITE[3] == 12 as char;
    assert WHITE[4] == 13 as char && WHITE[5] == 28 as char && WHITE[6] == 29 as char && WHITE[7] == 30 as char;
    assert WHITE[8] == 31 as char && WHITE[9] == 32 as char && WHITE[10] == 0x85 as char && WHITE[11] == 0xa0 as char;
  }

  lemma {:induction false} StripsLeft(a: string, s: string)
    requires Blank(a) && (s == [] || s[0] !in WHITE)
    ensures StripLeft(a + s) == s
  {
    if a == [] {
      assert a + s == s;
      if s != [] {
        WhiteIsSpace(s[0]);
      }
    } else {
      WhiteIsSpace(a[0]);
      assert (a + s)[1..] == a[1..] + s;
      StripsLeft(a[1..], s);
    }
  }

  lemma {:induction false} StripsRight(s: string, b: string)
    requires Blank(b) && (s == [] || s[|s| - 1] !in WHITE)
    ensures StripRight(s + b) == s
  {
    if b == [] {
      assert s + b == s;
      if s != [] {
        WhiteIsSpace(s[|s| - 1]);
      }
    } else {
      WhiteIsSpace(b[|b| - 1]);
      assert (s + b)[..|s + b| - 1] == s + b[..|b| - 1];
      StripsRight(s, b[..|b| - 1]);
    }
  }

  /** Normalising takes off the white space on both sides and nothing else, and lowers every letter in place. */
  lemma NormalizeMeans(a: string, s: string, b: string)
    requires Blank(a) && Blank(b) && (s == [] || (s[0] !in WHITE && s[|s| - 1] !in WHITE))
    ensures |Normalize(a + s + b)| == |s|
    ensures forall i :: 0 <= i < |s| ==>
      Normalize(a + s + b)[i] == if 'A' <= s[i] <= 'Z' then s[i] - 'A' + 'a' else s[i]
  {
    assert a + s + b == a + (s + b);
    if s == [] {
      assert s + b == b && a + s + b == (a + b) + [];
      StripsLeft(a + b, []);
    } else {
      StripsLeft(a, s + b);
      StripsRight(s, b);
    }
  }

  /** Normalising twice is normalising once, so a normalised value survives being stored and read back. */
  lemma NormalizeIdempotent(s: string)
    ensures Normalize(Normalize(s)) == Normalize(s)
  {
    var t := Strip(s);
    var n := Lower(t);
    if t != [] {
      assert !IsSpace(t[0]) && !IsSpace(t[|t| - 1]);
      assert StripLeft(n) == n && StripRight(n) == n;
    }
    assert Lower(n) == n;
  }

  // ---- order -------------------------------------------------------------------------------

  /** Lexicographic order by code point. */
  predicate Less(a: string, b: string) {
    b != [] && (a == [] || a[0] < b[0] || (a[0] == b[0] && Less(a[1..], b[1..])))
  }

  lemma {:induction false} LessTransitive(a: string, b: string, c: string)
    requires Less(a, b) && Less(b, c)
    ensures Less(a, c)
  {
    if a != [] && a[0] == b[0] && b[0] == c[0] {
      LessTransitive(a[1..], b[1..], c[1..]);
    }
  }

  lemma {:induction false} LessTotal(a: string, b: string)
    ensures Less(a, b) || a == b || Less(b, a)
    ensures !(Less(a, b) && Less(b, a)) && !Less(a, a)
  {
    if a != [] && b != [] && a[0] == b[0] {
      LessTotal(a[1..], b[1..]);
      assert a == [a[0]] + a[1..] && b == [b[0]] + b[1..];
    }
    if a != [] {
      LessTotal(a[1..], a[1..]);
    }
  }

  ghost predicate IsLeast(x: string, s: set<string>) {
    x in s && forall y :: y in s && y != x ==> Less(x, y)
  }

  lemma {:induction false} LeastExists(s: set<string>)
    requires s != {}
    ensures exists x :: IsLeast(x, s)
  {
    var y :| y in s;
    if s == {y} {
      assert IsLeast(y, s);
    } else {
      LeastExists(s - {y});
      var z :| IsLeast(z, s - {y});
      LessTotal(y, z);
      if Less(y, z) {
        forall w | w in s && w != y ensures Less(y, w) {
          if w != z {
            LessTransitive(y, z, w);
          }
        }
        assert IsLeast(y, s);
      } else {
        assert IsLeast(z, s);
      }
    }
  }

  ghost predicate StrictlySorted(xs: seq<string>) {
    forall i, j :: 0 <= i < j < |xs| ==> Less(xs[i], xs[j])
  }

  /** The members in increasing order. */
  ghost function Sorted(s: set<string>): (r: seq<string>)
    ensures StrictlySorted(r) && (forall x :: x in r <==> x in s) && |r| == |s|
  {
    if s == {} then []
    else
      LeastExists(s);
      var x :| IsLeast(x, s);
      [x] + Sorted(s - {x})
  }

  lemma TailMembers(a: seq<string>, b: seq<string>)
    requires StrictlySorted(a) && a != [] && b != [] && a[0] == b[0] && forall x :: x in a ==> x in b
    ensures forall x :: x in a[1..] ==> x in b[1..]
  {
    forall x | x in a[1..] ensures x in b[1..] {
      var k :| 1 <= k < |a| && a[k] == x;
      LessTotal(a[0], x);
      assert a[k] in a && x in b;
      var m :| 0 <= m < |b| && b[m] == x;
      assert m != 0 && b[1..][m - 1] == x;
    }
  }

  /** Sorting leaves no freedom: there is one strictly sorted sequence with given members. */
  lemma {:induction false} SortedUnique(a: seq<string>, b: seq<string>)
    requires StrictlySorted(a) && StrictlySorted(b) && forall x :: x in a <==> x in b
    ensures a == b
  {
    assert b != [] ==> b[0] in b;
    if a != [] {
      assert a[0] in b && b != [] && b[0] in a;
      LessTotal(a[0], b[0]);
      var i :| 0 <= i < |b| && b[i] == a[0];
      var j :| 0 <= j < |a| && a[j] == b[0];
      assert i == 0;
      TailMembers(a, b);
      TailMembers(b, a);
      SortedUnique(a[1..], b[1..]);
    }
  }

  method SortSet(s: set<string>) returns (r: seq<string>)
    ensures r == Sorted(s)
  {
    r := [];
    var rest := s;
    while rest != {}
      invariant StrictlySorted(r) && rest <= s
      invariant forall x :: x in r <==> x in s - rest
      invariant forall x, y :: x in r && y in rest ==> Less(x, y)
      decreases rest
    {
      LeastExists(rest);
      var x: string :| x in rest && forall y :: y in rest && y != x ==> Less(x, y);
      r := r + [x];
      rest := rest - {x};
    }
    SortedUnique(r, Sorted(s));
  }
}
