/** The candle table and its two upserts (app/repositories/candle.py). */
module CandleStore {
  import opened Prelude

  datatype Bar = Bar(open: real, high: real, low: real, close: real, volume: real)

  datatype Row = Row(ticker: string, timeframe: string, time: int, bar: Bar)

  /** One incoming candle. */
  datatype Item = Item(time: int, bar: Bar)

  /** The row number of a candle, or the table size when it is not stored. */
  function Find(table: seq<Row>, ticker: string, timeframe: string, time: int): (i: nat)
    ensures i <= |table|
    ensures i < |table| ==> IsKey(table[i], ticker, timeframe, time)
    ensures forall k :: 0 <= k < i ==> !IsKey(table[k], ticker, timeframe, time)
  {
    if table == [] then 0
    else if IsKey(table[0], ticker, timeframe, time) then 0
    else 1 + Find(table[1..], ticker, timeframe, time)
  }

  predicate IsKey(r: Row, ticker: string, timeframe: string, time: int) {
    r.ticker == ticker && r.timeframe == timeframe && r.time == time
  }

  /** The unique constraint: no two rows for the same candle. */
  ghost predicate Unique(table: seq<Row>) {
    forall i, j :: 0 <= i < j < |table| ==> !IsKey(table[i], table[j].ticker, table[j].timeframe, table[j].time)
  }

  /** Update the row of a candle, or append it. */
  function Upsert(table: seq<Row>, ticker: string, timeframe: string, x: Item): seq<Row> {
    var i := Find(table, ticker, timeframe, x.time);
    if i < |table| then table[i := table[i].(bar := x.bar)] else table + [Row(ticker, timeframe, x.time, x.bar)]
  }

  /** One-at-a-time upsert of the first n items. */
  function UpsertEach(table: seq<Row>, ticker: string, timeframe: string, xs: seq<Item>, n: nat): seq<Row>
    requires n <= |xs|
  {
    if n == 0 then table else Upsert(UpsertEach(table, ticker, timeframe, xs, n - 1), ticker, timeframe, xs[n - 1])
  }

  /** The batch consults only the rows that were stored when it began: `stored` is their number. */
  function BatchStep(rows: seq<Row>, stored: nat, ticker: string, timeframe: string, x: Item): seq<Row>
    requires stored <= |rows|
  {
    var i := Find(rows[..stored], ticker, timeframe, x.time);
    if i < stored then rows[i := rows[i].(bar := x.bar)] else rows + [Row(ticker, timeframe, x.time, x.bar)]
  }

  /** The rows in the session after the first n items of a batch, before the commit. */
  function BatchRows(table: seq<Row>, ticker: string, timeframe: string, xs: seq<Item>, n: nat): (rows: seq<Row>)
    requires n <= |xs|
    ensures |table| <= |rows|
    ensures forall i :: 0 <= i < |table| ==> rows[i].(bar := table[i].bar) == table[i]
    ensures forall i :: |table| <= i < |rows| ==> rows[i].ticker == ticker && rows[i].timeframe == timeframe
  {
    if n == 0 then table
    else BatchStep(BatchRows(table, ticker, timeframe, xs, n - 1), |table|, ticker, timeframe, xs[n - 1])
  }

  /** Walking through the batch, some candle not in the table comes up a second time. */
  ghost predicate RepeatsNew(table: seq<Row>, ticker: string, timeframe: string, xs: seq<Item>, n: nat)
    requires n <= |xs|
  {
    n > 0 &&
    (RepeatsNew(table, ticker, timeframe, xs, n - 1)
     || (!Holds(table, ticker, timeframe, xs[n - 1].time) && Brought(xs, n - 1, xs[n - 1].time)))
  }

  /** That is: two items share a timestamp that the table does not have. */
  lemma {:induction false} RepeatsNewMeaning(table: seq<Row>, ticker: string, timeframe: string, xs: seq<Item>, n: nat)
    requires n <= |xs|
    ensures RepeatsNew(table, ticker, timeframe, xs, n)
            <==> exists a, b :: 0 <= a < b < n && xs[a].time == xs[b].time && !Holds(table, ticker, timeframe, xs[b].time)
  {
    if n > 0 { RepeatsNewMeaning(table, ticker, timeframe, xs, n - 1); }
  }

  predicate Holds(rows: seq<Row>, ticker: string, timeframe: string, time: int) {
    Find(rows, ticker, timeframe, time) < |rows|
  }

  /** One of the first n items carries this timestamp. */
  ghost predicate Brought(xs: seq<Item>, n: nat, time: int)
    requires n <= |xs|
  {
    exists a :: 0 <= a < n && xs[a].time == time
  }

  /** Keys do not change, so looking a candle up finds the same row as before. */
  lemma {:induction false} FindKeeps(t: seq<Row>, t': seq<Row>, ticker: string, timeframe: string, time: int)
    requires |t| == |t'| && forall i :: 0 <= i < |t| ==> t'[i].(bar := t[i].bar) == t[i]
    ensures Find(t, ticker, timeframe, time) == Find(t', ticker, timeframe, time)
  {
    if t != [] {
      assert t'[0].(bar := t[0].bar) == t[0];
      FindKeeps(t[1..], t'[1..], ticker, timeframe, time);
    }
  }

  lemma {:induction false} FindConcat(t: seq<Row>, u: seq<Row>, ticker: string, timeframe: string, time: int)
    ensures Find(t + u, ticker, timeframe, time)
            == if Find(t, ticker, timeframe, time) < |t| then Find(t, ticker, timeframe, time)
               else |t| + Find(u, ticker, timeframe, time)
  {
    if t == [] {
      assert t + u == u;
    } else {
      assert (t + u)[1..] == t[1..] + u;
      FindConcat(t[1..], u, ticker, timeframe, time);
    }
  }

  /** Where an item goes in the batch's session: an old row, or the end. */
  lemma StepTarget(table: seq<Row>, rows: seq<Row>, ticker: string, timeframe: string, time: int)
    requires |table| <= |rows| && forall i :: 0 <= i < |table| ==> rows[i].(bar := table[i].bar) == table[i]
    ensures Find(rows[..|table|], ticker, timeframe, time) == Find(table, ticker, timeframe, time)
    ensures Find(table, ticker, timeframe, time) < |table| ==> Find(rows, ticker, timeframe, time) == Find(table, ticker, timeframe, time)
  {
    FindKeeps(table, rows[..|table|], ticker, timeframe, time);
    assert rows == rows[..|table|] + rows[|table|..];
    FindConcat(rows[..|table|], rows[|table|..], ticker, timeframe, time);
  }

  lemma StepIsAppendOrUpdate(table: seq<Row>, ticker: string, timeframe: string, xs: seq<Item>, n: nat)
    requires 0 < n <= |xs|
    ensures var before, after := BatchRows(table, ticker, timeframe, xs, n - 1), BatchRows(table, ticker, timeframe, xs, n);
      var x, i := xs[n - 1], Find(table, ticker, timeframe, xs[n - 1].time);
      if i < |table| then Find(before, ticker, timeframe, x.time) == i && after == before[i := before[i].(bar := x.bar)]
      else after == before + [Row(ticker, timeframe, x.time, x.bar)]
  {
    StepTarget(table, BatchRows(table, ticker, timeframe, xs, n - 1), ticker, timeframe, xs[n - 1].time);
  }

  lemma HoldsAfter(before: seq<Row>, after: seq<Row>, ticker: string, timeframe: string, x: Item, i: nat, time: int)
    requires (i < |before| && after == before[i := before[i].(bar := x.bar)])
             || (i == |before| && after == before + [Row(ticker, timeframe, x.time, x.bar)])
    ensures Holds(after, ticker, timeframe, time) <==> Holds(before, ticker, timeframe, time) || (i == |before| && x.time == time)
  {
    if i < |before| {
      FindKeeps(before, after, ticker, timeframe, time);
    } else {
      FindConcat(before, [Row(ticker, timeframe, x.time, x.bar)], ticker, timeframe, time);
    }
  }

  lemma BroughtStep(xs: seq<Item>, n: nat, time: int)
    requires 0 < n <= |xs|
    ensures Brought(xs, n, time) <==> Brought(xs, n - 1, time) || xs[n - 1].time == time
  {
  }

  /** A candle new to the table is found in the session exactly when an earlier item of the batch brought it. */
  lemma {:induction false} FoundIfBrought(table: seq<Row>, ticker: string, timeframe: string, xs: seq<Item>, n: nat, time: int)
    requires n <= |xs| && !Holds(table, ticker, timeframe, time)
    ensures Holds(BatchRows(table, ticker, timeframe, xs, n), ticker, timeframe, time) <==> Brought(xs, n, time)
  {
    if n > 0 {
      FoundIfBrought(table, ticker, timeframe, xs, n - 1, time);
      FoundStep(table, ticker, timeframe, xs, n, time, BatchRows(table, ticker, timeframe, xs, n - 1));
      BroughtStep(xs, n, time);
    }
  }

  lemma FoundStep(table: seq<Row>, ticker: string, timeframe: string, xs: seq<Item>, n: nat, time: int, before: seq<Row>)
    requires 0 < n <= |xs| && !Holds(table, ticker, timeframe, time) && before == BatchRows(table, ticker, timeframe, xs, n - 1)
    ensures Holds(BatchRows(table, ticker, timeframe, xs, n), ticker, timeframe, time)
            <==> (Holds(before, ticker, timeframe, time) || xs[n - 1].time == time)
  {
    var x := xs[n - 1];
    var i := Find(table, ticker, timeframe, x.time);
    StepIsAppendOrUpdate(table, ticker, timeframe, xs, n);
    HoldsAfter(before, BatchRows(table, ticker, timeframe, xs, n), ticker, timeframe, x, if i < |table| then i else |before|, time);
  }

  lemma {:induction false} FindMiss(t: seq<Row>, ticker: string, timeframe: string, time: int)
    ensures Find(t, ticker, timeframe, time) == |t| <==> forall k :: 0 <= k < |t| ==> !IsKey(t[k], ticker, timeframe, time)
  {
    var i := Find(t, ticker, timeframe, time);
    if i < |t| { assert IsKey(t[i], ticker, timeframe, time); }
  }

  lemma UniqueSnoc(t: seq<Row>, r: Row)
    ensures Unique(t + [r]) <==> Unique(t) && Find(t, r.ticker, r.timeframe, r.time) == |t|
  {
    var u := t + [r];
    FindMiss(t, r.ticker, r.timeframe, r.time);
    assert forall i :: 0 <= i < |t| ==> u[i] == t[i];
    if Unique(u) {
      forall k | 0 <= k < |t| ensures !IsKey(t[k], r.ticker, r.timeframe, r.time) {
        assert !IsKey(u[k], u[|t|].ticker, u[|t|].timeframe, u[|t|].time);
      }
      forall i, j | 0 <= i < j < |t| ensures !IsKey(t[i], t[j].ticker, t[j].timeframe, t[j].time) {
        assert !IsKey(u[i], u[j].ticker, u[j].timeframe, u[j].time);
      }
    }
  }

  lemma UniquePrefix(t: seq<Row>, n: nat)
    requires n <= |t|
    ensures Unique(t) ==> Unique(t[..n])
  {
    if Unique(t) {
      forall i, j | 0 <= i < j < n ensures !IsKey(t[..n][i], t[..n][j].ticker, t[..n][j].timeframe, t[..n][j].time) {
        assert !IsKey(t[i], t[j].ticker, t[j].timeframe, t[j].time);
      }
    }
  }

  lemma UniqueUpdate(t: seq<Row>, i: nat, bar: Bar)
    requires i < |t|
    ensures Unique(t[i := t[i].(bar := bar)]) <==> Unique(t)
  {
    var u := t[i := t[i].(bar := bar)];
    assert forall k :: 0 <= k < |t| ==> u[k].(bar := t[k].bar) == t[k];
    if Unique(u) {
      forall a, b | 0 <= a < b < |t| ensures !IsKey(t[a], t[b].ticker, t[b].timeframe, t[b].time) {
        assert !IsKey(u[a], u[b].ticker, u[b].timeframe, u[b].time);
      }
    }
  }

  /** The bar stored for a candle, if any. */
  function BarOf(table: seq<Row>, ticker: string, timeframe: string, time: int): Option<Bar> {
    var i := Find(table, ticker, timeframe, time);
    if i < |table| then Some(table[i].bar) else None
  }

  /** After an upsert the candle holds the new bar, and every other candle what it held. */
  lemma UpsertStores(t: seq<Row>, ticker: string, timeframe: string, x: Item, ticker': string, timeframe': string, time: int)
    requires Unique(t)
    ensures BarOf(Upsert(t, ticker, timeframe, x), ticker', timeframe', time)
            == if ticker' == ticker && timeframe' == timeframe && time == x.time then Some(x.bar)
               else BarOf(t, ticker', timeframe', time)
  {
    var i := Find(t, ticker, timeframe, x.time);
    if i < |t| {
      FindKeeps(t, t[i := t[i].(bar := x.bar)], ticker', timeframe', time);
    } else {
      FindConcat(t, [Row(ticker, timeframe, x.time, x.bar)], ticker', timeframe', time);
    }
  }

  /** The last item of the first n with this timestamp. */
  function LastBar(xs: seq<Item>, n: nat, time: int): Option<Bar>
    requires n <= |xs|
  {
    if n == 0 then None else if xs[n - 1].time == time then Some(xs[n - 1].bar) else LastBar(xs, n - 1, time)
  }

  /** One-at-a-time upserts leave for each timestamp the last bar that came for it, and all other candles alone. */
  lemma {:induction false} LastBarWins(t: seq<Row>, ticker: string, timeframe: string, xs: seq<Item>, n: nat,
                                       ticker': string, timeframe': string, time: int)
    requires n <= |xs| && Unique(t)
    ensures BarOf(UpsertEach(t, ticker, timeframe, xs, n), ticker', timeframe', time)
            == if ticker' == ticker && timeframe' == timeframe && LastBar(xs, n, time).Some? then LastBar(xs, n, time)
               else BarOf(t, ticker', timeframe', time)
  {
    if n > 0 {
      LastBarWins(t, ticker, timeframe, xs, n - 1, ticker', timeframe', time);
      UpsertEachUnique(t, ticker, timeframe, xs, n - 1);
      UpsertStores(UpsertEach(t, ticker, timeframe, xs, n - 1), ticker, timeframe, xs[n - 1], ticker', timeframe', time);
    }
  }

  /** One-at-a-time upsert keeps candles unique. */
  lemma UpsertKeepsUnique(t: seq<Row>, ticker: string, timeframe: string, x: Item)
    requires Unique(t)
    ensures Unique(Upsert(t, ticker, timeframe, x))
  {
    var i := Find(t, ticker, timeframe, x.time);
    if i < |t| { UniqueUpdate(t, i, x.bar); } else { UniqueSnoc(t, Row(ticker, timeframe, x.time, x.bar)); }
  }

  lemma {:induction false} UniqueUnlessRepeated(table: seq<Row>, ticker: string, timeframe: string, xs: seq<Item>, n: nat)
    requires n <= |xs| && Unique(table)
    ensures Unique(BatchRows(table, ticker, timeframe, xs, n)) <==> !RepeatsNew(table, ticker, timeframe, xs, n)
  {
    if n > 0 {
      UniqueUnlessRepeated(table, ticker, timeframe, xs, n - 1);
      StepUnique(table, ticker, timeframe, xs, n, BatchRows(table, ticker, timeframe, xs, n - 1));
    }
  }

  /**
   For a table without duplicates: the session stays without duplicates exactly when no candle new to the
   table occurs twice, and then the batch has done what one-at-a-time upserts do.
   */
  lemma {:induction false} BatchIsUpsertEach(table: seq<Row>, ticker: string, timeframe: string, xs: seq<Item>, n: nat)
    requires n <= |xs| && Unique(table)
    ensures Unique(BatchRows(table, ticker, timeframe, xs, n)) <==> !RepeatsNew(table, ticker, timeframe, xs, n)
    ensures !RepeatsNew(table, ticker, timeframe, xs, n) ==>
              BatchRows(table, ticker, timeframe, xs, n) == UpsertEach(table, ticker, timeframe, xs, n)
  {
    UniqueUnlessRepeated(table, ticker, timeframe, xs, n);
    if n > 0 && !RepeatsNew(table, ticker, timeframe, xs, n) {
      BatchIsUpsertEach(table, ticker, timeframe, xs, n - 1);
      StepUpserts(table, ticker, timeframe, xs, n, BatchRows(table, ticker, timeframe, xs, n - 1));
    }
  }

  /** One item keeps the session unique unless it repeats a candle new to the table. */
  lemma StepUnique(table: seq<Row>, ticker: string, timeframe: string, xs: seq<Item>, n: nat, before: seq<Row>)
    requires 0 < n <= |xs| && before == BatchRows(table, ticker, timeframe, xs, n - 1)
    ensures Unique(BatchRows(table, ticker, timeframe, xs, n)) <==>
              (Unique(before) && (Holds(table, ticker, timeframe, xs[n - 1].time) || !Brought(xs, n - 1, xs[n - 1].time)))
  {
    var x := xs[n - 1];
    var i := Find(table, ticker, timeframe, x.time);
    StepIsAppendOrUpdate(table, ticker, timeframe, xs, n);
    AppendOrUpdateUnique(before, BatchRows(table, ticker, timeframe, xs, n), ticker, timeframe, x, i, i < |table|);
    if i == |table| { FoundIfBrought(table, ticker, timeframe, xs, n - 1, x.time); }
  }

  lemma AppendOrUpdateUnique(before: seq<Row>, after: seq<Row>, ticker: string, timeframe: string, x: Item, i: nat, old_: bool)
    requires if old_ then i < |before| && after == before[i := before[i].(bar := x.bar)]
             else after == before + [Row(ticker, timeframe, x.time, x.bar)]
    ensures Unique(after) <==> Unique(before) && (old_ || !Holds(before, ticker, timeframe, x.time))
  {
    if old_ { UniqueUpdate(before, i, x.bar); } else { UniqueSnoc(before, Row(ticker, timeframe, x.time, x.bar)); }
  }

  /** One item that does not repeat a new candle is upserted. */
  lemma StepUpserts(table: seq<Row>, ticker: string, timeframe: string, xs: seq<Item>, n: nat, before: seq<Row>)
    requires 0 < n <= |xs| && before == BatchRows(table, ticker, timeframe, xs, n - 1)
    requires Holds(table, ticker, timeframe, xs[n - 1].time) || !Brought(xs, n - 1, xs[n - 1].time)
    ensures BatchRows(table, ticker, timeframe, xs, n) == Upsert(before, ticker, timeframe, xs[n - 1])
  {
    var x := xs[n - 1];
    StepIsAppendOrUpdate(table, ticker, timeframe, xs, n);
    if !Holds(table, ticker, timeframe, x.time) { FoundIfBrought(table, ticker, timeframe, xs, n - 1, x.time); }
  }

  lemma {:induction false} UpsertEachUnique(table: seq<Row>, ticker: string, timeframe: string, xs: seq<Item>, n: nat)
    requires n <= |xs| && Unique(table)
    ensures Unique(UpsertEach(table, ticker, timeframe, xs, n))
  {
    if n > 0 {
      UpsertEachUnique(table, ticker, timeframe, xs, n - 1);
      UpsertKeepsUnique(UpsertEach(table, ticker, timeframe, xs, n - 1), ticker, timeframe, xs[n - 1]);
    }
  }

  /** Distinct timestamps never repeat a new candle, so a batch of them is always one-at-a-time upsert. */
  lemma DistinctBatch(table: seq<Row>, ticker: string, timeframe: string, xs: seq<Item>)
    requires Unique(table) && forall a, b :: 0 <= a < b < |xs| ==> xs[a].time != xs[b].time
    ensures BatchRows(table, ticker, timeframe, xs, |xs|) == UpsertEach(table, ticker, timeframe, xs, |xs|)
    ensures Unique(BatchRows(table, ticker, timeframe, xs, |xs|))
  {
    RepeatsNewMeaning(table, ticker, timeframe, xs, |xs|);
    BatchIsUpsertEach(table, ticker, timeframe, xs, |xs|);
  }

  /** It happens: one new timestamp twice in a batch breaks the unique constraint, while single upserts keep one row. */
  lemma RepeatedNewTimestampFails(old_: Bar, new_: Bar)
    ensures var xs := [Item(1, old_), Item(1, new_)];
      && RepeatsNew([], "T", "5m", xs, 2) && !Unique(BatchRows([], "T", "5m", xs, 2))
      && UpsertEach([], "T", "5m", xs, 2) == [Row("T", "5m", 1, new_)]
  {
    var xs, first := [Item(1, old_), Item(1, new_)], Row("T", "5m", 1, old_);
    assert BatchRows([], "T", "5m", xs, 0) == [] && BatchRows([], "T", "5m", xs, 1) == [first];
    assert BatchRows([], "T", "5m", xs, 1)[..0] == [];
    assert BatchRows([], "T", "5m", xs, 2) == [first, Row("T", "5m", 1, new_)];
    assert UpsertEach([], "T", "5m", xs, 0) == [] && UpsertEach([], "T", "5m", xs, 1) == [first];
    assert Find([first], "T", "5m", 1) == 0;
    assert Upsert([first], "T", "5m", xs[1]) == [Row("T", "5m", 1, new_)];
    assert UpsertEach([], "T", "5m", xs, 2) == Upsert([first], "T", "5m", xs[1]);
    assert Brought(xs, 1, xs[1].time) by { assert xs[0].time == xs[1].time; }
    assert !Holds([], "T", "5m", xs[1].time);
    UniqueUnlessRepeated([], "T", "5m", xs, 2);
  }

  class CandleRepository {
    var table: seq<Row>

    constructor ()
      ensures Valid() && table == []
    {
      table := [];
    }

    ghost predicate Valid()
      reads this
    {
      Unique(table)
    }

    method UpsertIncremental(ticker: string, timeframe: string, x: Item)
      requires Valid()
      modifies this
      ensures Valid() && table == Upsert(old(table), ticker, timeframe, x)
    {
      UpsertKeepsUnique(table, ticker, timeframe, x);
      var i := Find(table, ticker, timeframe, x.time);
      if i < |table| {
        table := table[i := table[i].(bar := x.bar)];
      } else {
        table := table + [Row(ticker, timeframe, x.time, x.bar)];
      }
    }

    /** The unique constraint, as the commit checks it. */
    static method Commits(rows: seq<Row>) returns (ok: bool)
      ensures ok <==> Unique(rows)
    {
      var k := 0;
      ok := true;
      while k < |rows|
        invariant 0 <= k <= |rows| && ok && Unique(rows[..k])
      {
        assert rows[..k + 1] == rows[..k] + [rows[k]];
        UniqueSnoc(rows[..k], rows[k]);
        if Find(rows[..k], rows[k].ticker, rows[k].timeframe, rows[k].time) < k {
          UniquePrefix(rows, k + 1);
          return false;
        }
        k := k + 1;
      }
      assert rows[..k] == rows;
    }

    /**
     The batch: rows stored at the start are updated, everything else is added, then one commit. It fails,
     leaving the table alone, exactly when a candle new to the table occurs twice in the batch; otherwise
     it equals one-at-a-time upsert and counts every item once.
     */
    method UpsertBatch(ticker: string, timeframe: string, xs: seq<Item>) returns (r: Result<(nat, nat), string>)
      requires Valid()
      modifies this
      ensures Valid()
      ensures r.Err? <==> RepeatsNew(old(table), ticker, timeframe, xs, |xs|)
      ensures r.Err? ==> table == old(table)
      ensures r.Ok? ==> table == UpsertEach(old(table), ticker, timeframe, xs, |xs|)
      ensures r.Ok? ==> r.value.0 + r.value.1 == |xs| && |table| == |old(table)| + r.value.0
    {
      var stored := table;
      var rows, inserted, updated := Merge(stored, ticker, timeframe, xs);
      BatchIsUpsertEach(stored, ticker, timeframe, xs, |xs|);
      var ok := Commits(rows);
      if !ok { return Err("unique constraint"); }
      table := rows;
      r := Ok((inserted, updated));
    }

    /** The session's rows before the commit, and how many were added and updated. */
    method Merge(stored: seq<Row>, ticker: string, timeframe: string, xs: seq<Item>)
      returns (rows: seq<Row>, inserted: nat, updated: nat)
      ensures rows == BatchRows(stored, ticker, timeframe, xs, |xs|)
      ensures inserted + updated == |xs| && |rows| == |stored| + inserted
    {
      rows, inserted, updated := stored, 0, 0;
      for n := 0 to |xs|
        invariant rows == BatchRows(stored, ticker, timeframe, xs, n)
        invariant inserted + updated == n && |rows| == |stored| + inserted
      {
        var added;
        rows, added := MergeOne(stored, rows, ticker, timeframe, xs, n);
        if added { inserted := inserted + 1; } else { updated := updated + 1; }
      }
    }

    /** One item of the batch: added unless it is among the rows stored at the start. */
    method MergeOne(stored: seq<Row>, before: seq<Row>, ticker: string, timeframe: string, xs: seq<Item>, n: nat)
      returns (rows: seq<Row>, added: bool)
      requires n < |xs| && before == BatchRows(stored, ticker, timeframe, xs, n)
      ensures rows == BatchRows(stored, ticker, timeframe, xs, n + 1)
      ensures |rows| == |before| + (if added then 1 else 0)
    {
      var i := Find(stored, ticker, timeframe, xs[n].time);
      StepIsAppendOrUpdate(stored, ticker, timeframe, xs, n + 1);
      added := i == |stored|;
      rows := if added then before + [Row(ticker, timeframe, xs[n].time, xs[n].bar)]
              else before[i := before[i].(bar := xs[n].bar)];
    }
  }
}
