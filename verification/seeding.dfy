/**
 * GET /init: read the row count, then write 2 * N demo rows one insert at a
 * time into partition "P1", the i-th id twice (clusterCol1 "FOO0", then
 * "FOO1").  The first failed insert ends the process, so the store keeps
 * exactly the inserts before it.
 */
module Seeding {
  import opened Wrappers
  import opened KeyCodec
  import opened Strconv
  import opened Records
  import opened RequestParams

  /** A row of demo.demo, columns in table order. */
  datatype Row = Row(
    primaryId: string,
    secondaryId: string,
    clusterCol1: string,
    clusterCol2: string,
    dataCol1: int,
    dataCol2: bool,
    dataCol3: Time)

  /** PRIMARY KEY((primaryId, secondaryId), clusterCol1, clusterCol2). */
  datatype PrimaryKey = PrimaryKey(primaryId: string, secondaryId: string, clusterCol1: string, clusterCol2: string)

  function KeyOf(r: Row): PrimaryKey {
    PrimaryKey(r.primaryId, r.secondaryId, r.clusterCol1, r.clusterCol2)
  }

  /** Component-wise Go string order on primary-key tuples, compared in column order. */
  predicate KeyLess(x: PrimaryKey, y: PrimaryKey) {
    || LexLess(x.primaryId, y.primaryId)
    || (x.primaryId == y.primaryId && LexLess(x.secondaryId, y.secondaryId))
    || (x.primaryId == y.primaryId && x.secondaryId == y.secondaryId && LexLess(x.clusterCol1, y.clusterCol1))
    || (x.primaryId == y.primaryId && x.secondaryId == y.secondaryId && x.clusterCol1 == y.clusterCol1
        && LexLess(x.clusterCol2, y.clusterCol2))
  }

  /** What one insert draws: rand.Intn(100), rand.Intn(2) == 1, and time.Now().UTC(). */
  datatype Draw = Draw(dataCol1: int, dataCol2: bool, now: Time)

  const PayloadBound: int := 100

  /** Each id is written once per clustering variant j = 0, 1. */
  const Variants: nat := 2

  /** The draws rand.Intn(100) can give: dataCol1 in [0, 100). */
  ghost predicate ValidDraws(draws: nat -> Draw) {
    forall k: nat :: 0 <= draws(k).dataCol1 < PayloadBound
  }

  /** The inserts the loops issue for a row count n: none when n <= 0. */
  function InsertCount(n: int): nat {
    if n > 0 then Variants * n else 0
  }

  /** fmt.Sprintf("FOO%d", j). */
  function ClusterLabel(j: int): string {
    "FOO" + FormatDecimal(j, 0)
  }

  /** The row of outer iteration i, inner iteration j, with that insert's draw. */
  function SeedRow(i: int, j: int, d: Draw): Row {
    Row(PartitionKey, Pad13(i), ClusterLabel(j), "BAR", d.dataCol1, d.dataCol2, d.now)
  }

  /** Every insert the seed would issue, in order: insert k is iteration (k / 2, k % 2) with draw k. */
  function SeedPlan(n: int, draws: nat -> Draw): (rows: seq<Row>)
    ensures |rows| == InsertCount(n)
  {
    seq(InsertCount(n), k requires 0 <= k => SeedRow(k / 2, k % 2, draws(k)))
  }

  /** The rows a lookup on (primaryId, secondaryId) = (p, s) finds among rows, in order. */
  function RowsWithKey(rows: seq<Row>, p: string, s: string): (found: seq<Row>)
    ensures |found| <= |rows|
  {
    if |rows| == 0 then []
    else
      var last := rows[|rows| - 1];
      RowsWithKey(rows[..|rows| - 1], p, s) + (if last.primaryId == p && last.secondaryId == s then [last] else [])
  }

  /** A label is "FOO" followed by a rendering that reads back as its variant. */
  lemma ClusterLabelParses(j: int)
    ensures |ClusterLabel(j)| > 3 && ClusterLabel(j)[..3] == "FOO"
    ensures ParseInteger(ClusterLabel(j)[3..]) == Some(j)
  {
    FormatDecimalRoundTrip(j, 0);
    var digits := FormatDecimal(j, 0);
    assert ClusterLabel(j)[3..] == digits;
  }

  lemma ClusterLabels()
    ensures ClusterLabel(0) == "FOO0" && ClusterLabel(1) == "FOO1"
    ensures LexLess(ClusterLabel(0), ClusterLabel(1))
  {
    assert Digits(0) == "0" && Digits(1) == "1";
    assert LexLess("0", "1");
    assert "FOO0"[1..] == "OO0" && "FOO1"[1..] == "OO1";
    assert "OO0"[1..] == "O0" && "OO1"[1..] == "O1";
    assert "O0"[1..] == "0" && "O1"[1..] == "1";
  }

  /**
   * Every planned row is in partition "P1" with clusterCol2 "BAR", one of
   * the two clustering labels and a payload below 100; its secondaryId reads
   * back as an id in [0, n), and is 13 digits wide when n <= 10^13.
   */
  lemma SeedPlanShape(n: int, draws: nat -> Draw)
    requires ValidDraws(draws)
    ensures forall k :: 0 <= k < |SeedPlan(n, draws)| ==>
      var r := SeedPlan(n, draws)[k];
      && r.primaryId == PartitionKey
      && (r.clusterCol1 == "FOO0" || r.clusterCol1 == "FOO1")
      && r.clusterCol2 == "BAR"
      && 0 <= r.dataCol1 < PayloadBound
      && ParseInteger(r.secondaryId) == Some(k / 2) && 0 <= k / 2 < n
      && (n <= Pow10(KeyWidth) ==> |r.secondaryId| == KeyWidth && AllDigits(r.secondaryId))
  {
    var plan := SeedPlan(n, draws);
    ClusterLabels();
    forall k | 0 <= k < |plan|
      ensures plan[k].clusterCol1 == "FOO0" || plan[k].clusterCol1 == "FOO1"
      ensures ParseInteger(plan[k].secondaryId) == Some(k / 2)
      ensures n <= Pow10(KeyWidth) ==> |plan[k].secondaryId| == KeyWidth && AllDigits(plan[k].secondaryId)
    {
      assert plan[k] == SeedRow(k / 2, k % 2, draws(k));
      assert k % 2 == 0 || k % 2 == 1;
      FormatDecimalRoundTrip(k / 2, KeyWidth);
      if n <= Pow10(KeyWidth) {
        Pad13Digits(k / 2);
      }
    }
  }

  /** No two planned inserts share a primary key, whatever n is. */
  lemma SeedPlanKeysDistinct(n: int, draws: nat -> Draw)
    ensures forall a, b :: 0 <= a < b < |SeedPlan(n, draws)| ==>
      KeyOf(SeedPlan(n, draws)[a]) != KeyOf(SeedPlan(n, draws)[b])
  {
    var plan := SeedPlan(n, draws);
    ClusterLabels();
    forall a, b | 0 <= a < b < |plan|
      ensures KeyOf(plan[a]) != KeyOf(plan[b])
    {
      Pad13Injective(a / 2, b / 2);
      assert plan[a] == SeedRow(a / 2, a % 2, draws(a));
      assert plan[b] == SeedRow(b / 2, b % 2, draws(b));
      if a / 2 == b / 2 {
        assert a % 2 == 0 && b % 2 == 1;
        assert plan[a].clusterCol1 == "FOO0" && plan[b].clusterCol1 == "FOO1";
      }
    }
  }

  /**
   * For n <= 10^13 the inserts are issued with strictly ascending keys in
   * component-wise string order: ids ascending, and for each id "FOO0"
   * before "FOO1".  This is the order of issue; the store hashes
   * (primaryId, secondaryId) and does not keep rows in this order.
   */
  lemma SeedPlanAscending(n: int, draws: nat -> Draw)
    requires n <= Pow10(KeyWidth)
    ensures forall a, b :: 0 <= a < b < |SeedPlan(n, draws)| ==>
      KeyLess(KeyOf(SeedPlan(n, draws)[a]), KeyOf(SeedPlan(n, draws)[b]))
  {
    var plan := SeedPlan(n, draws);
    ClusterLabels();
    forall a, b | 0 <= a < b < |plan|
      ensures KeyLess(KeyOf(plan[a]), KeyOf(plan[b]))
    {
      assert 0 <= a / 2 <= b / 2 < Pow10(KeyWidth);
      assert plan[a] == SeedRow(a / 2, a % 2, draws(a));
      assert plan[b] == SeedRow(b / 2, b % 2, draws(b));
      Pad13Order(a / 2, b / 2);
      if a / 2 == b / 2 {
        assert a % 2 == 0 && b % 2 == 1;
        assert plan[a].clusterCol1 == ClusterLabel(0) && plan[b].clusterCol1 == ClusterLabel(1);
      }
    }
  }

  /** Insert 2 * i + j extends the plan's prefix by iteration (i, j)'s row. */
  lemma SeedPlanStep(n: int, draws: nat -> Draw, i: int, j: int)
    requires 0 <= i < n && 0 <= j < Variants
    ensures 2 * i + j < |SeedPlan(n, draws)|
    ensures SeedPlan(n, draws)[..2 * i + j + 1] == SeedPlan(n, draws)[..2 * i + j] + [SeedRow(i, j, draws(2 * i + j))]
  {
    var plan := SeedPlan(n, draws);
    var k := 2 * i + j;
    assert k / 2 == i && k % 2 == j;
    assert plan[k] == SeedRow(i, j, draws(k));
    assert plan[..k + 1] == plan[..k] + [plan[k]];
  }

  lemma SeedPlanSnoc(n: int, draws: nat -> Draw)
    requires n >= 1
    ensures SeedPlan(n, draws) ==
      SeedPlan(n - 1, draws) + [SeedRow(n - 1, 0, draws(2 * n - 2)), SeedRow(n - 1, 1, draws(2 * n - 1))]
  {
  }

  lemma RowsWithKeyAppend(rows: seq<Row>, a: Row, b: Row, p: string, s: string)
    ensures RowsWithKey(rows + [a, b], p, s) ==
      RowsWithKey(rows, p, s)
      + (if a.primaryId == p && a.secondaryId == s then [a] else [])
      + (if b.primaryId == p && b.secondaryId == s then [b] else [])
  {
    assert (rows + [a, b])[..|rows| + 1] == rows + [a];
    assert (rows + [a])[..|rows|] == rows;
  }

  /**
   * After seeding n rows, a lookup on ("P1", Pad13(id)) finds exactly the
   * two rows of id -- "FOO0" then "FOO1" -- when 0 <= id < n, and nothing
   * otherwise.
   */
  lemma SeedLookup(n: int, draws: nat -> Draw, id: int)
    ensures RowsWithKey(SeedPlan(n, draws), PartitionKey, Pad13(id)) ==
      if 0 <= id < n then [SeedRow(id, 0, draws(2 * id)), SeedRow(id, 1, draws(2 * id + 1))] else []
  {
    SeedPlanKeys(n, draws, id);
    PairedLookup(SeedPlan(n, draws), if n > 0 then n else 0, PartitionKey, Pad13(id), id);
    if 0 <= id < n {
      SeedPlanAt(n, draws, 2 * id);
      SeedPlanAt(n, draws, 2 * id + 1);
    }
  }

  lemma SeedPlanAt(n: int, draws: nat -> Draw, k: int)
    requires 0 <= k < |SeedPlan(n, draws)|
    ensures SeedPlan(n, draws)[k] == SeedRow(k / 2, k % 2, draws(k))
  {
  }

  /** Every insert of the plan is in partition "P1" and carries Pad13(id) exactly when it is a row of id. */
  lemma SeedPlanKeys(n: int, draws: nat -> Draw, id: int)
    ensures forall k :: 0 <= k < |SeedPlan(n, draws)| ==>
      && SeedPlan(n, draws)[k].primaryId == PartitionKey
      && (SeedPlan(n, draws)[k].secondaryId == Pad13(id) <==> k / 2 == id)
  {
    var plan := SeedPlan(n, draws);
    forall k | 0 <= k < |plan|
      ensures plan[k].primaryId == PartitionKey
      ensures plan[k].secondaryId == Pad13(id) <==> k / 2 == id
    {
      assert plan[k] == SeedRow(k / 2, k % 2, draws(k));
      Pad13Injective(k / 2, id);
    }
  }

  /**
   * Rows written in pairs, all in partition p, where exactly the pair
   * numbered id carries the secondary key s: the lookup finds that pair.
   */
  lemma {:induction false} PairedLookup(rows: seq<Row>, pairs: nat, p: string, s: string, id: int)
    requires |rows| == 2 * pairs
    requires forall k :: 0 <= k < |rows| ==> rows[k].primaryId == p
    requires forall k :: 0 <= k < |rows| ==> (rows[k].secondaryId == s <==> k / 2 == id)
    ensures RowsWithKey(rows, p, s) == if 0 <= id < pairs then [rows[2 * id], rows[2 * id + 1]] else []
  {
    if pairs > 0 {
      var init := rows[..2 * pairs - 2];
      var a, b := rows[2 * pairs - 2], rows[2 * pairs - 1];
      assert rows == init + [a, b];
      PairedLookup(init, pairs - 1, p, s, id);
      RowsWithKeyAppend(init, a, b, p, s);
      assert (2 * pairs - 2) / 2 == pairs - 1 && (2 * pairs - 1) / 2 == pairs - 1;
    }
  }

  /** The store the seed writes to; which attempts it refuses is the environment's choice. */
  class Store {
    /** The rows written so far, in write order. */
    var rows: seq<Row>
    /** Insert statements received so far. */
    var attempts: nat
    /** The attempt numbers the store fails. */
    const rejects: set<nat>

    constructor (rejects: set<nat>)
      ensures rows == [] && attempts == 0 && this.rejects == rejects
    {
      rows := [];
      attempts := 0;
      this.rejects := rejects;
    }

    /** One INSERT: it fails exactly when this attempt is one the store refuses. */
    method Insert(r: Row) returns (failed: bool)
      modifies this
      ensures failed == (old(attempts) in rejects)
      ensures attempts == old(attempts) + 1
      ensures rows == if failed then old(rows) else old(rows) + [r]
    {
      failed := attempts in rejects;
      attempts := attempts + 1;
      if !failed {
        rows := rows + [r];
      }
    }
  }

  /** Completed: every insert succeeded.  Halted(k): insert k failed and the process stopped. */
  datatype SeedOutcome = Completed | Halted(failedInsert: nat)

  /** The store accepts the count attempts numbered base, base + 1, .... */
  predicate AcceptsRun(rejects: set<nat>, base: nat, count: nat) {
    forall a :: base <= a < base + count ==> a !in rejects
  }

  /** The nested insert loops of InitData for a row count n. */
  method Seed(store: Store, n: int, draws: nat -> Draw) returns (outcome: SeedOutcome)
    modifies store
    ensures outcome.Completed? ==>
      && AcceptsRun(store.rejects, old(store.attempts), InsertCount(n))
      && store.rows == old(store.rows) + SeedPlan(n, draws)
      && store.attempts == old(store.attempts) + InsertCount(n)
    ensures outcome.Halted? ==>
      && outcome.failedInsert < InsertCount(n)
      && AcceptsRun(store.rejects, old(store.attempts), outcome.failedInsert)
      && old(store.attempts) + outcome.failedInsert in store.rejects
      && store.rows == old(store.rows) + SeedPlan(n, draws)[..outcome.failedInsert]
      && store.attempts == old(store.attempts) + outcome.failedInsert + 1
  {
    ghost var plan := SeedPlan(n, draws);
    ghost var base := store.attempts;
    ghost var start := store.rows;
    var i := 0;
    while i < n
      invariant 0 <= i && (n > 0 ==> i <= n) && (n <= 0 ==> i == 0)
      invariant AcceptsRun(store.rejects, base, 2 * i)
      invariant store.rows == start + plan[..2 * i]
      invariant store.attempts == base + 2 * i
    {
      var j := 0;
      while j < 2
        invariant 0 <= j <= 2
        invariant AcceptsRun(store.rejects, base, 2 * i + j)
        invariant store.rows == start + plan[..2 * i + j]
        invariant store.attempts == base + 2 * i + j
      {
        var failed := store.Insert(SeedRow(i, j, draws(2 * i + j)));
        if failed {
          return Halted(2 * i + j);
        }
        SeedPlanStep(n, draws, i, j);
        j := j + 1;
      }
      i := i + 1;
    }
    assert plan[..2 * i] == plan;
    outcome := Completed;
  }

  /**
   * GET /init: the row count comes from the first `rows` value when Atoi
   * accepts it and is 10 000 otherwise; then the seed runs.
   */
  method InitData(store: Store, query: Query, draws: nat -> Draw) returns (outcome: SeedOutcome)
    requires RowsWellFormed(query)
    modifies store
    ensures outcome.Completed? ==>
      && AcceptsRun(store.rejects, old(store.attempts), InsertCount(RowsParam(query)))
      && store.rows == old(store.rows) + SeedPlan(RowsParam(query), draws)
      && store.attempts == old(store.attempts) + InsertCount(RowsParam(query))
    ensures outcome.Halted? ==>
      && outcome.failedInsert < InsertCount(RowsParam(query))
      && AcceptsRun(store.rejects, old(store.attempts), outcome.failedInsert)
      && old(store.attempts) + outcome.failedInsert in store.rejects
      && store.rows == old(store.rows) + SeedPlan(RowsParam(query), draws)[..outcome.failedInsert]
      && store.attempts == old(store.attempts) + outcome.failedInsert + 1
  {
    var dataRows := RowsParam(query);
    outcome := Seed(store, dataRows, draws);
  }
}
