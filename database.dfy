/** The SQLite-backed store (`Db`) as in-memory state: the `subscriptions` table as a set of
    chat ids and the `metrics` table as an append-only sequence of rows in insertion
    (autoincrement id) order. Each operation takes a `fault` flag standing for the engine
    reporting an error; a failed statement changes nothing. */
module Database {
  import opened Wrappers

  /** One row of the `metrics` table; `ts` is in whole seconds since the Unix epoch. */
  datatype MetricRow = MetricRow(alias: string, ts: int, latency: real, loss: real)

  predicate SortedByTs(rows: seq<MetricRow>)
  {
    forall i, j :: 0 <= i < j < |rows| ==> rows[i].ts <= rows[j].ts
  }

  /** `WHERE ts >= since`: the rows at or after `since`, in store order. */
  function Since(rows: seq<MetricRow>, since: int): (r: seq<MetricRow>)
    ensures forall x :: x in r <==> x in rows && x.ts >= since
    ensures forall x :: multiset(r)[x] == if x.ts >= since then multiset(rows)[x] else 0
  {
    if rows == [] then []
    else
      var init, last := rows[..|rows| - 1], rows[|rows| - 1];
      assert rows == init + [last];
      Since(init, since) + if last.ts >= since then [last] else []
  }

  /** Inserts `x` into a ts-ordered sequence after every row whose ts is not greater, so that
      rows with equal ts keep their store order. */
  function InsertByTs(sorted: seq<MetricRow>, x: MetricRow): (r: seq<MetricRow>)
    ensures forall y :: y in r ==> y in sorted || y == x
    ensures multiset(r) == multiset(sorted) + multiset{x}
    ensures SortedByTs(sorted) ==> SortedByTs(r)
  {
    if sorted == [] then [x]
    else if sorted[0].ts > x.ts then [x] + sorted
    else
      var head, tail := sorted[0], sorted[1..];
      var rest := InsertByTs(tail, x);
      assert sorted == [head] + tail;
      TailSorted(sorted);
      ConsSorted(head, rest);
      [head] + rest
  }

  lemma TailSorted(rows: seq<MetricRow>)
    requires rows != []
    ensures SortedByTs(rows) ==> SortedByTs(rows[1..]) && forall y :: y in rows[1..] ==> rows[0].ts <= y.ts
  {
  }

  lemma ConsSorted(head: MetricRow, rest: seq<MetricRow>)
    ensures SortedByTs(rest) && (forall y :: y in rest ==> head.ts <= y.ts) ==> SortedByTs([head] + rest)
  {
    var s := [head] + rest;
    if SortedByTs(rest) && forall y :: y in rest ==> head.ts <= y.ts {
      forall i, j | 0 <= i < j < |s| ensures s[i].ts <= s[j].ts {
        assert s[j] == rest[j - 1];
        if i > 0 {
          assert s[i] == rest[i - 1];
        }
      }
    }
  }

  /** `ORDER BY ts`: a stable sort of the rows by timestamp. */
  function SortByTs(rows: seq<MetricRow>): (r: seq<MetricRow>)
    ensures SortedByTs(r)
    ensures multiset(r) == multiset(rows)
  {
    if rows == [] then []
    else
      assert rows == rows[..|rows| - 1] + [rows[|rows| - 1]];
      InsertByTs(SortByTs(rows[..|rows| - 1]), rows[|rows| - 1])
  }

  class Db {
    var subscriptions: set<int>
    var metrics: seq<MetricRow>

    /** `Db::new`: opens the database; `CREATE TABLE IF NOT EXISTS` keeps what is already
        stored, which is given here. */
    constructor Open(storedSubscriptions: set<int>, storedMetrics: seq<MetricRow>)
      ensures subscriptions == storedSubscriptions && metrics == storedMetrics
    {
      subscriptions := storedSubscriptions;
      metrics := storedMetrics;
    }

    /** `INSERT OR IGNORE INTO subscriptions`. */
    method AddSubscription(chatId: int, fault: bool) returns (r: Result<()>)
      modifies this
      ensures r == if fault then Err else Ok(())
      ensures subscriptions == if fault then old(subscriptions) else old(subscriptions) + {chatId}
      ensures metrics == old(metrics)
    {
      if fault {
        return Err;
      }
      subscriptions := subscriptions + {chatId};
      r := Ok(());
    }

    /** `DELETE FROM subscriptions WHERE chat_id = ?`; deleting an absent id succeeds. */
    method RemoveSubscription(chatId: int, fault: bool) returns (r: Result<()>)
      modifies this
      ensures r == if fault then Err else Ok(())
      ensures subscriptions == if fault then old(subscriptions) else old(subscriptions) - {chatId}
      ensures metrics == old(metrics)
    {
      if fault {
        return Err;
      }
      subscriptions := subscriptions - {chatId};
      r := Ok(());
    }

    /** `SELECT EXISTS(...)`. */
    method IsSubscribed(chatId: int, fault: bool) returns (r: Result<bool>)
      ensures fault <==> r.Err?
      ensures r.Ok? ==> (r.value <==> chatId in subscriptions)
    {
      if fault {
        return Err;
      }
      r := Ok(chatId in subscriptions);
    }

    /** `INSERT INTO metrics`: appends exactly one row. */
    method InsertMetric(alias: string, ts: int, latency: real, loss: real, fault: bool) returns (r: Result<()>)
      modifies this
      ensures r == if fault then Err else Ok(())
      ensures metrics == if fault then old(metrics) else old(metrics) + [MetricRow(alias, ts, latency, loss)]
      ensures subscriptions == old(subscriptions)
    {
      if fault {
        return Err;
      }
      metrics := metrics + [MetricRow(alias, ts, latency, loss)];
      r := Ok(());
    }

    /** `SELECT ... WHERE ts >= since ORDER BY ts`: exactly the rows at or after `since`,
        ordered by timestamp; reads only. */
    method QueryMetrics(since: int, fault: bool) returns (r: Result<seq<MetricRow>>)
      ensures fault <==> r.Err?
      ensures r.Ok? ==> SortedByTs(r.value)
      ensures r.Ok? ==> multiset(r.value) == multiset(Since(metrics, since))
      ensures r.Ok? ==> forall x :: x in r.value <==> x in metrics && x.ts >= since
      ensures r.Ok? ==> r.value == SortByTs(Since(metrics, since))
    {
      if fault {
        return Err;
      }
      var rows := SortByTs(Since(metrics, since));
      assert forall x :: x in rows <==> x in multiset(rows);
      r := Ok(rows);
    }
  }
}
