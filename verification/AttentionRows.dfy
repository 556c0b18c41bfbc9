/** Scored attention rows: one row per entity, and the final order. */
module AttentionRows {
  import opened Bags
  import opened Collections

  datatype Bucket = Critical | High | Medium | Low
  datatype Action = NoAction | FixFailure | ExecuteNow | Approve | Review | Investigate

  datatype Row = Row(
    kind: string, entityType: string, entityId: string, score: real, bucket: Bucket,
    impact: real, urgency: real, risk: real, readiness: real, friction: real, eligible: bool, action: Action)

  // ---- one row per entity ------------------------------------------------------------------------

  type Key = (string, string)

  function KeyOf(r: Row): Key {
    (r.entityType, r.entityId)
  }

  function FindKey(rows: seq<Row>, key: Key): (i: nat)
    ensures i <= |rows|
    ensures i < |rows| ==> KeyOf(rows[i]) == key
    ensures forall j :: 0 <= j < i ==> KeyOf(rows[j]) != key
  {
    FirstIndex(rows, (r: Row) => KeyOf(r) == key)
  }

  /** A later row of the same entity must score strictly higher to replace the earlier one. */
  function Absorb(best: seq<Row>, r: Row): seq<Row> {
    var i := FindKey(best, KeyOf(r));
    if r.entityId == "" then best
    else if i == |best| then best + [r]
    else if r.score > best[i].score then best[i := r] else best
  }

  /** Rows with an id, one per entity in order of first appearance. */
  function BestRows(rows: seq<Row>): seq<Row> {
    if rows == [] then [] else Absorb(BestRows(rows[..|rows| - 1]), rows[|rows| - 1])
  }

  function WithoutId(r: Row): bool {
    r.entityId == ""
  }

  /** Row `j` is the first highest-scored one of its entity. */
  ghost predicate FirstBest(rows: seq<Row>, j: nat)
    requires j < |rows|
  {
    rows[j].entityId != "" &&
    (forall i :: 0 <= i < j && KeyOf(rows[i]) == KeyOf(rows[j]) ==> rows[i].score < rows[j].score) &&
    (forall i :: j <= i < |rows| && KeyOf(rows[i]) == KeyOf(rows[j]) ==> rows[i].score <= rows[j].score)
  }

  ghost predicate IsFirstBest(rows: seq<Row>, r: Row) {
    exists j :: 0 <= j < |rows| && rows[j] == r && FirstBest(rows, j)
  }

  ghost predicate HasKey(rows: seq<Row>, key: Key) {
    exists b :: 0 <= b < |rows| && KeyOf(rows[b]) == key
  }

  /** `best` holds exactly the first highest-scored row of each entity with an id. */
  ghost predicate Selects(best: seq<Row>, rows: seq<Row>) {
    (forall i, j :: 0 <= i < j < |best| ==> KeyOf(best[i]) != KeyOf(best[j])) &&
    (forall b :: 0 <= b < |best| ==> IsFirstBest(rows, best[b])) &&
    (forall i :: 0 <= i < |rows| && rows[i].entityId != "" ==> HasKey(best, KeyOf(rows[i])))
  }

  /** One more row: what stays first best, and when the new row is. */
  lemma FirstBestGrows(rows: seq<Row>, r: Row, x: Row)
    requires IsFirstBest(rows, x)
    ensures KeyOf(x) != KeyOf(r) || r.score <= x.score ==> IsFirstBest(rows + [r], x)
    ensures KeyOf(x) == KeyOf(r) && r.score > x.score ==> IsFirstBest(rows + [r], r)
  {
    var j :| 0 <= j < |rows| && rows[j] == x && FirstBest(rows, j);
    var more := rows + [r];
    if KeyOf(x) != KeyOf(r) || r.score <= x.score {
      assert more[j] == x && FirstBest(more, j);
    } else {
      assert more[|rows|] == r && FirstBest(more, |rows|);
    }
  }

  lemma NewEntityIsBest(rows: seq<Row>, r: Row)
    requires r.entityId != "" && forall i :: 0 <= i < |rows| ==> KeyOf(rows[i]) != KeyOf(r)
    ensures IsFirstBest(rows + [r], r)
  {
    var more := rows + [r];
    assert more[|rows|] == r && FirstBest(more, |rows|);
  }

  lemma AbsorbSelects(best: seq<Row>, rows: seq<Row>, r: Row)
    requires Selects(best, rows)
    ensures Selects(Absorb(best, r), rows + [r])
  {
    hide IsFirstBest;
    var after, more := Absorb(best, r), rows + [r];
    var at := FindKey(best, KeyOf(r));
    forall b | 0 <= b < |best|
      ensures KeyOf(best[b]) != KeyOf(r) || r.score <= best[b].score ==> IsFirstBest(more, best[b])
      ensures KeyOf(best[b]) == KeyOf(r) && r.score > best[b].score ==> IsFirstBest(more, r)
    {
      FirstBestGrows(rows, r, best[b]);
    }
    if r.entityId != "" && at == |best| {
      NewEntityIsBest(rows, r);
    }
    AbsorbKeepsKeys(best, r);
    forall i | 0 <= i < |more| && more[i].entityId != "" ensures HasKey(after, KeyOf(more[i])) {
      assert i < |rows| ==> more[i] == rows[i];
    }
    assert forall b :: 0 <= b < |best| && b != at ==> KeyOf(best[b]) != KeyOf(r);
    SomeWithoutId(best, rows, r);
  }

  lemma AbsorbKeepsKeys(best: seq<Row>, r: Row)
    ensures forall key :: HasKey(best, key) ==> HasKey(Absorb(best, r), key)
    ensures r.entityId != "" ==> HasKey(Absorb(best, r), KeyOf(r))
  {
    var after := Absorb(best, r);
    forall key | HasKey(best, key) ensures HasKey(after, key) {
      var b :| 0 <= b < |best| && KeyOf(best[b]) == key;
      assert KeyOf(after[b]) == key;
    }
    if r.entityId != "" {
      var at := FindKey(best, KeyOf(r));
      assert KeyOf(after[at]) == KeyOf(r);
    }
  }

  /** Selected rows have ids, so a row without one meets no key of theirs. */
  lemma SomeWithoutId(best: seq<Row>, rows: seq<Row>, r: Row)
    requires Selects(best, rows)
    ensures r.entityId == "" ==> forall b :: 0 <= b < |best| ==> KeyOf(best[b]) != KeyOf(r)
  {
    forall b | 0 <= b < |best| ensures best[b].entityId != "" {
      assert IsFirstBest(rows, best[b]);
    }
  }

  /** One row per entity with an id: its first highest-scored candidate. */
  lemma {:induction false} BestRowsSelect(rows: seq<Row>)
    ensures Selects(BestRows(rows), rows)
  {
    if rows != [] {
      var n := |rows| - 1;
      BestRowsSelect(rows[..n]);
      AbsorbSelects(BestRows(rows[..n]), rows[..n], rows[n]);
      assert rows == rows[..n] + [rows[n]];
    }
  }

  // ---- order -----------------------------------------------------------------------------------------

  ghost predicate Descending(rows: seq<Row>) {
    forall i, j :: 0 <= i < j < |rows| ==> rows[i].score >= rows[j].score
  }

  /** Behind every row that scores at least as much. */
  function InsertDescending(rows: seq<Row>, r: Row): (out: seq<Row>)
    ensures multiset(out) == multiset(rows) + multiset{r} && |out| == |rows| + 1
    ensures forall x :: x in out <==> x in rows || x == r
  {
    if rows == [] || rows[|rows| - 1].score >= r.score then rows + [r]
    else
      var n := |rows| - 1;
      assert rows == rows[..n] + [rows[n]];
      InsertDescending(rows[..n], r) + [rows[n]]
  }

  lemma {:induction false} InsertKeepsOrder(rows: seq<Row>, r: Row)
    requires Descending(rows)
    ensures Descending(InsertDescending(rows, r))
  {
    if rows != [] && rows[|rows| - 1].score < r.score {
      var n := |rows| - 1;
      InsertKeepsOrder(rows[..n], r);
      var out := InsertDescending(rows[..n], r);
      forall i | 0 <= i < |out| ensures out[i].score >= rows[n].score {
        assert out[i] in out;
      }
    }
  }

  /** The stable descending sort. */
  function SortDescending(rows: seq<Row>): (out: seq<Row>)
    ensures multiset(out) == multiset(rows) && Descending(out) && |out| == |rows|
  {
    if rows == [] then []
    else
      var n := |rows| - 1;
      assert rows == rows[..n] + [rows[n]];
      InsertKeepsOrder(SortDescending(rows[..n]), rows[n]);
      InsertDescending(SortDescending(rows[..n]), rows[n])
  }

  function ScoreIs(v: real): Row -> bool {
    (r: Row) => r.score == v
  }

  lemma {:induction false} InsertIsStable(rows: seq<Row>, r: Row, v: real)
    requires Descending(rows)
    ensures Keep(ScoreIs(v), InsertDescending(rows, r)) == Keep(ScoreIs(v), rows + [r])
  {
    assert (rows + [r])[..|rows|] == rows;
    if rows != [] && rows[|rows| - 1].score < r.score {
      var n := |rows| - 1;
      InsertIsStable(rows[..n], r, v);
      var out := InsertDescending(rows[..n], r);
      assert (out + [rows[n]])[..|out|] == out;
      assert (rows[..n] + [r])[..n] == rows[..n];
    }
  }

  /** Rows of equal score keep their order. */
  lemma {:induction false} SortIsStable(rows: seq<Row>, v: real)
    ensures Keep(ScoreIs(v), SortDescending(rows)) == Keep(ScoreIs(v), rows)
  {
    if rows != [] {
      var n := |rows| - 1;
      SortIsStable(rows[..n], v);
      InsertIsStable(SortDescending(rows[..n]), rows[n], v);
      var s := SortDescending(rows[..n]);
      assert (s + [rows[n]])[..|s|] == s;
    }
  }

  /** The rows in their final order, before actions are attached. */
  function Ranked(rows: seq<Row>): (out: seq<Row>)
    ensures multiset(out) == multiset(BestRows(rows) + Keep(WithoutId, rows)) && Descending(out)
  {
    SortDescending(BestRows(rows) + Keep(WithoutId, rows))
  }

  /** The mapping from entity to best row, kept with its insertion order, and the rows without an id. */
  method Deduplicate(rows: seq<Row>) returns (out: seq<Row>)
    ensures out == BestRows(rows) + Keep(WithoutId, rows)
  {
    var best: seq<Row>, noId: seq<Row> := [], [];
    for i := 0 to |rows|
      invariant best == BestRows(rows[..i]) && noId == Keep(WithoutId, rows[..i])
    {
      assert rows[..i + 1][..i] == rows[..i];
      var row := rows[i];
      if row.entityId == "" {
        noId := noId + [row];
        continue;
      }
      var p := FindKey(best, KeyOf(row));
      if p == |best| {
        best := best + [row];
      } else if row.score > best[p].score {
        best := best[p := row];
      }
    }
    assert rows[..|rows|] == rows;
    out := best + noId;
  }
}
