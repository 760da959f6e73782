/**
 * The dashboard endpoint (backend/controllers/dash.controller.js): jobs are
 * grouped by status in the database and the group counts are copied into a
 * record of five counters.
 */
module DashController {
  import opened JobModel

  /** The dashboard counters; the frontend keeps the same record and may drive it below zero. */
  datatype Stats = Stats(total: int, pending: int, running: int, completed: int, failed: int)

  const ZeroStats := Stats(0, 0, 0, 0, 0)

  /** The counter named after a status. */
  function Counter(st: Stats, s: Status): int
  {
    match s
    case Pending => st.pending
    case Running => st.running
    case Completed => st.completed
    case Failed => st.failed
  }

  /** `stats[status] = n`. */
  function SetCounter(st: Stats, s: Status, n: int): (r: Stats)
    ensures Counter(r, s) == n && r.total == st.total
    ensures forall t :: t != s ==> Counter(r, t) == Counter(st, t)
  {
    match s
    case Pending => st.(pending := n)
    case Running => st.(running := n)
    case Completed => st.(completed := n)
    case Failed => st.(failed := n)
  }

  /** Number of jobs with status `s`. */
  function CountStatus(jobs: seq<Job>, s: Status): nat
  {
    if jobs == [] then 0
    else (if jobs[0].status == s then 1 else 0) + CountStatus(jobs[1..], s)
  }

  /** One row of `$group: { _id: "$status", count: { $sum: 1 } }`. */
  datatype GroupRow = GroupRow(status: Status, count: nat)

  /**
   * `rows` is a result of the grouping stage over `jobs`, in whatever order the
   * database returns it: one row per status present, carrying that status's count.
   */
  predicate IsGrouping(jobs: seq<Job>, rows: seq<GroupRow>)
  {
    && DistinctStatuses(rows)
    && (forall i :: 0 <= i < |rows| ==> rows[i].count == CountStatus(jobs, rows[i].status) > 0)
    && (forall s: Status :: CountStatus(jobs, s) > 0 ==> exists i :: 0 <= i < |rows| && rows[i].status == s)
  }

  /** The `rows.forEach` loop: each row's count goes to its status key and into `total`. */
  function ApplyRows(st: Stats, rows: seq<GroupRow>): Stats
    decreases rows
  {
    if rows == [] then st
    else
      var row := rows[0];
      var next := SetCounter(st, row.status, row.count).(total := st.total + row.count);
      ApplyRows(next, rows[1..])
  }

  /** `getDashboard`: all five counters start at 0 and the rows are applied. */
  function GetDashboard(rows: seq<GroupRow>): Stats
  {
    ApplyRows(ZeroStats, rows)
  }

  /** The count a list of rows gives status `s`, 0 when no row names it. */
  function RowCount(rows: seq<GroupRow>, s: Status): nat
  {
    if rows == [] then 0
    else if rows[0].status == s then rows[0].count
    else RowCount(rows[1..], s)
  }

  function SumCounts(rows: seq<GroupRow>): nat
  {
    if rows == [] then 0 else rows[0].count + SumCounts(rows[1..])
  }

  predicate DistinctStatuses(rows: seq<GroupRow>)
  {
    forall i, j :: 0 <= i < j < |rows| ==> rows[i].status != rows[j].status
  }

  /** Applying rows with distinct statuses sets each named counter and adds every count to `total`. */
  lemma {:induction false} ApplyRowsEffect(st: Stats, rows: seq<GroupRow>)
    requires DistinctStatuses(rows)
    ensures ApplyRows(st, rows).total == st.total + SumCounts(rows)
    ensures forall s :: (Counter(ApplyRows(st, rows), s) ==
      (if exists i :: 0 <= i < |rows| && rows[i].status == s then RowCount(rows, s) else Counter(st, s)))
    decreases rows
  {
    if rows != [] {
      var row := rows[0];
      var next := SetCounter(st, row.status, row.count).(total := st.total + row.count);
      assert DistinctStatuses(rows[1..]);
      ApplyRowsEffect(next, rows[1..]);
      forall s ensures Counter(ApplyRows(st, rows), s) ==
        (if exists i :: 0 <= i < |rows| && rows[i].status == s then RowCount(rows, s) else Counter(st, s))
      {
        if s == row.status {
          assert !exists i :: 0 <= i < |rows[1..]| && rows[1..][i].status == s by {
            forall i | 0 <= i < |rows[1..]| ensures rows[1..][i].status != s {
              assert rows[1..][i] == rows[i + 1];
            }
          }
        } else {
          assert (exists i :: 0 <= i < |rows| && rows[i].status == s) <==>
                 (exists i :: 0 <= i < |rows[1..]| && rows[1..][i].status == s) by {
            if exists i :: 0 <= i < |rows| && rows[i].status == s {
              var i :| 0 <= i < |rows| && rows[i].status == s;
              assert rows[1..][i - 1].status == s;
            }
            if exists i :: 0 <= i < |rows[1..]| && rows[1..][i].status == s {
              var i :| 0 <= i < |rows[1..]| && rows[1..][i].status == s;
              assert rows[i + 1].status == s;
            }
          }
        }
      }
    }
  }

  /** With distinct statuses, the counts add up status by status. */
  lemma {:induction false} SumByStatus(rows: seq<GroupRow>)
    requires DistinctStatuses(rows)
    ensures SumCounts(rows) ==
      RowCount(rows, Pending) + RowCount(rows, Running) + RowCount(rows, Completed) + RowCount(rows, Failed)
  {
    if rows != [] {
      assert DistinctStatuses(rows[1..]);
      SumByStatus(rows[1..]);
      RowCountAbsent(rows[1..], rows[0].status);
    }
  }

  lemma {:induction false} RowCountAbsent(rows: seq<GroupRow>, s: Status)
    requires forall i :: 0 <= i < |rows| ==> rows[i].status != s
    ensures RowCount(rows, s) == 0
  {
    if rows != [] {
      RowCountAbsent(rows[1..], s);
    }
  }

  lemma {:induction false} RowCountAt(rows: seq<GroupRow>, i: nat)
    requires DistinctStatuses(rows) && i < |rows|
    ensures RowCount(rows, rows[i].status) == rows[i].count
  {
    if i > 0 {
      assert DistinctStatuses(rows[1..]);
      RowCountAt(rows[1..], i - 1);
    }
  }

  /** Every job has exactly one of the four statuses. */
  lemma {:induction false} CountsCoverJobs(jobs: seq<Job>)
    ensures CountStatus(jobs, Pending) + CountStatus(jobs, Running) + CountStatus(jobs, Completed)
            + CountStatus(jobs, Failed) == |jobs|
  {
    if jobs != [] {
      CountsCoverJobs(jobs[1..]);
    }
  }

  /**
   * Whatever order the groups arrive in, each counter holds the number of jobs
   * with its status (0 for a status no job has) and `total` is the number of jobs.
   */
  lemma DashboardCounts(jobs: seq<Job>, rows: seq<GroupRow>)
    requires IsGrouping(jobs, rows)
    ensures var d := GetDashboard(rows);
      && d.pending == CountStatus(jobs, Pending)
      && d.running == CountStatus(jobs, Running)
      && d.completed == CountStatus(jobs, Completed)
      && d.failed == CountStatus(jobs, Failed)
      && d.total == |jobs|
      && d.total == d.pending + d.running + d.completed + d.failed
  {
    ApplyRowsEffect(ZeroStats, rows);
    SumByStatus(rows);
    CountsCoverJobs(jobs);
    forall s: Status ensures RowCount(rows, s) == CountStatus(jobs, s)
                       && Counter(GetDashboard(rows), s) == CountStatus(jobs, s) {
      if exists i :: 0 <= i < |rows| && rows[i].status == s {
        var i :| 0 <= i < |rows| && rows[i].status == s;
        RowCountAt(rows, i);
      } else {
        RowCountAbsent(rows, s);
      }
    }
    assert Counter(GetDashboard(rows), Pending) == CountStatus(jobs, Pending);
    assert Counter(GetDashboard(rows), Running) == CountStatus(jobs, Running);
    assert Counter(GetDashboard(rows), Completed) == CountStatus(jobs, Completed);
    assert Counter(GetDashboard(rows), Failed) == CountStatus(jobs, Failed);
    assert RowCount(rows, Pending) == CountStatus(jobs, Pending);
    assert RowCount(rows, Running) == CountStatus(jobs, Running);
    assert RowCount(rows, Completed) == CountStatus(jobs, Completed);
    assert RowCount(rows, Failed) == CountStatus(jobs, Failed);
  }
}
