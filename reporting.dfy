/**
 * The summary against the per-row results table (app.py:226-238): the
 * counters the loop keeps agree with the statuses the table ends with.
 */
module Reporting {
  import opened Reconcile
  import opened Batching
  import opened Apply

  /** The number of rows of the results table with the given status. */
  function CountRows(rs: seq<ResultRow>, s: Status): nat {
    |RowsWith(rs, s)|
  }

  /** The positions of the rows with the given status. */
  function RowsWith(rs: seq<ResultRow>, s: Status): set<int> {
    set i | 0 <= i < |rs| && rs[i].status == s
  }

  lemma CountRowsSnoc(rs: seq<ResultRow>, r: ResultRow, s: Status)
    ensures CountRows(rs + [r], s) == CountRows(rs, s) + (if r.status == s then 1 else 0)
  {
    var n := |rs|;
    if r.status == s {
      assert RowsWith(rs + [r], s) == RowsWith(rs, s) + {n};
    } else {
      assert RowsWith(rs + [r], s) == RowsWith(rs, s);
    }
  }

  /** Counting by set and counting row by row agree on the initial table. */
  lemma {:induction false} InitialCounts(rows: seq<MappedRow>, s: Status)
    ensures CountRows(InitialResults(rows), s) == CountStatus(rows, s)
  {
    if rows != [] {
      var n := |rows| - 1;
      InitialCounts(rows[..n], s);
      assert InitialResults(rows) == InitialResults(rows[..n]) + [ResultRow(rows[n], InitialStatus(rows[n]), "")];
      CountRowsSnoc(InitialResults(rows[..n]), ResultRow(rows[n], InitialStatus(rows[n]), ""), s);
    }
  }

  /** Every row has exactly one status, so the per-status counts add up to the number of rows. */
  lemma {:induction false} CountsPartition(rs: seq<ResultRow>)
    ensures CountRows(rs, Blank) + CountRows(rs, Applied) + CountRows(rs, Failed)
            + CountRows(rs, SkippedNoAccount) + CountRows(rs, SkippedNoTag)
            + CountRows(rs, SkippedNoAccountAndTag) + CountRows(rs, SkippedDryRun) == |rs|
  {
    if rs == [] {
      forall s: Status ensures CountRows(rs, s) == 0 {
        assert RowsWith(rs, s) == {};
      }
    } else {
      var n := |rs| - 1;
      CountsPartition(rs[..n]);
      assert rs == rs[..n] + [rs[n]];
      forall s: Status ensures CountRows(rs, s) == CountRows(rs[..n], s) + (if rs[n].status == s then 1 else 0) {
        CountRowsSnoc(rs[..n], rs[n], s);
      }
    }
  }

  /** A duplicate-free sequence has as many distinct elements as it is long. */
  lemma {:induction false} DistinctCard(s: seq<nat>)
    requires forall x :: multiset(s)[x] <= 1
    ensures |Elems(s)| == |s|
  {
    if s == [] {
      assert Elems(s) == {};
    } else {
      var n := |s| - 1;
      var front := s[..n];
      assert s == front + [s[n]];
      assert multiset(s) == multiset(front) + multiset{s[n]};
      forall x ensures multiset(front)[x] <= 1 {
        assert multiset(s)[x] == multiset(front)[x] + multiset{s[n]}[x];
      }
      DistinctCard(front);
      assert multiset(s)[s[n]] == multiset(front)[s[n]] + 1;
      assert s[n] !in Elems(front);
      assert Elems(s) == Elems(front) + {s[n]};
    }
  }

  function Elems(s: seq<nat>): set<nat> {
    set x | x in s
  }

  /** Setting blank rows to a status moves exactly those rows into that status and out of no other. */
  lemma SetStatusCounts(rs: seq<ResultRow>, idx: seq<nat>, s: Status)
    requires forall x :: multiset(idx)[x] <= 1
    requires forall x :: x in idx ==> x < |rs| && rs[x].status == Blank
    requires s != Blank
    ensures CountRows(SetStatus(rs, idx, s), s) == CountRows(rs, s) + |idx|
    ensures forall s' :: s' != s && s' != Blank ==> CountRows(SetStatus(rs, idx, s), s') == CountRows(rs, s')
  {
    var ns := SetStatus(rs, idx, s);
    SetStatusAt(rs, idx, s);
    var b := Elems(idx);
    forall i ensures i in RowsWith(ns, s) <==> i in RowsWith(rs, s) + b {
      if 0 <= i < |rs| {
        assert ns[i] == if i in idx then rs[i].(status := s) else rs[i];
      }
    }
    assert RowsWith(ns, s) == RowsWith(rs, s) + b;
    assert RowsWith(rs, s) !! b;
    DistinctCard(idx);
    forall s' | s' != s && s' != Blank ensures CountRows(ns, s') == CountRows(rs, s') {
      forall i ensures i in RowsWith(ns, s') <==> i in RowsWith(rs, s') {
        if 0 <= i < |rs| {
          assert ns[i] == if i in idx then rs[i].(status := s) else rs[i];
        }
      }
      assert RowsWith(ns, s') == RowsWith(rs, s');
    }
  }

  lemma SetErrorCounts(rs: seq<ResultRow>, idx: seq<nat>, e: string)
    ensures forall s :: CountRows(SetError(rs, idx, e), s) == CountRows(rs, s)
  {
    SetErrorAt(rs, idx, e);
    forall s ensures CountRows(SetError(rs, idx, e), s) == CountRows(rs, s) {
      assert RowsWith(SetError(rs, idx, e), s) == RowsWith(rs, s);
    }
  }

  /** No call's rows repeat, within or across calls. */
  ghost predicate NoRepeats(plan: seq<Batch>) {
    forall x :: multiset(FlatRows(plan))[x] <= 1
  }

  /** Every given row exists in the table and is still blank. */
  ghost predicate AllBlank(rs: seq<ResultRow>, idx: seq<nat>) {
    forall x :: x in idx ==> x < |rs| && rs[x].status == Blank
  }

  /**
   * From `st` to `r`, the APPLIED and FAILED counts of the table grow by
   * exactly what the `applied` and `errors` counters grow by, and no other
   * non-blank status changes count.
   */
  ghost predicate CountsTrack(st: RunState, r: RunState) {
    && CountRows(r.results, Applied) + st.applied == CountRows(st.results, Applied) + r.applied
    && CountRows(r.results, Failed) + st.errors == CountRows(st.results, Failed) + r.errors
    && forall s :: s != Blank && s != Applied && s != Failed ==> CountRows(r.results, s) == CountRows(st.results, s)
  }

  /** Splitting a repeat-free plan before its last call. */
  lemma NoRepeatsSplit(plan: seq<Batch>)
    requires plan != [] && NoRepeats(plan)
    ensures var front := plan[..|plan| - 1];
            var b := plan[|plan| - 1];
            && NoRepeats(front)
            && (forall x :: multiset(b.rows)[x] <= 1)
            && (forall x :: x in b.rows ==> x !in FlatRows(front))
  {
    var front := plan[..|plan| - 1];
    var b := plan[|plan| - 1];
    assert FlatRows(plan) == FlatRows(front) + b.rows;
    assert multiset(FlatRows(plan)) == multiset(FlatRows(front)) + multiset(b.rows);
    forall x ensures multiset(FlatRows(front))[x] <= 1 && multiset(b.rows)[x] <= 1
                     && (x in b.rows ==> x !in FlatRows(front)) {
      assert multiset(FlatRows(plan))[x] == multiset(FlatRows(front))[x] + multiset(b.rows)[x];
    }
  }

  /**
   * Over calls whose rows never repeat and start blank, the status counts
   * of the table track the loop's counters.
   */
  lemma {:induction false} RunStatusCounts(st: RunState, plan: seq<Batch>, dryRun: bool, apply: Caller)
    requires NoRepeats(plan)
    requires AllBlank(st.results, FlatRows(plan))
    ensures CountsTrack(st, Run(st, plan, dryRun, apply))
  {
    if plan != [] {
      var n := |plan| - 1;
      var front := plan[..n];
      var b := plan[n];
      assert FlatRows(plan) == FlatRows(front) + b.rows;
      NoRepeatsSplit(plan);
      forall x | x in FlatRows(front) ensures x < |st.results| && st.results[x].status == Blank {
        assert x in FlatRows(plan);
      }
      RunStatusCounts(st, front, dryRun, apply);
      var mid := Run(st, front, dryRun, apply);
      forall x | x in b.rows ensures x < |mid.results| && mid.results[x].status == Blank {
        assert x in FlatRows(plan);
        RunUntouched(st, front, dryRun, apply, x);
      }
      StepStatusCounts(mid, b, dryRun, apply);
    }
  }

  /** One call over distinct blank rows moves them all to APPLIED or all to FAILED, as its counter records. */
  lemma StepStatusCounts(st: RunState, b: Batch, dryRun: bool, apply: Caller)
    requires forall x :: multiset(b.rows)[x] <= 1
    requires AllBlank(st.results, b.rows)
    ensures CountsTrack(st, Step(st, b, dryRun, apply))
  {
    var o := CallOutcome(|st.logs|, b, dryRun, apply);
    if o.ok {
      SetStatusCounts(st.results, b.rows, Applied);
    } else {
      SetStatusCounts(st.results, b.rows, Failed);
      SetErrorCounts(SetStatus(st.results, b.rows, Failed), b.rows, o.message);
    }
  }

  /**
   * The summary agrees with the results table: `applied` is the number of
   * APPLIED rows, `errors` the number of FAILED rows, each skip counter the
   * number of rows with that skip status, and no row is left blank or
   * carries SKIPPED_DRY_RUN (which only batch log entries carry).
   */
  lemma SummaryMatchesResults(rows: seq<MappedRow>, dryRun: bool, apply: Caller)
    ensures var rep := ApplyRun(rows, dryRun, apply);
            && rep.summary.applied == CountRows(rep.results, Applied)
            && rep.summary.errors == CountRows(rep.results, Failed)
            && rep.summary.skippedAccounts == CountRows(rep.results, SkippedNoAccount)
            && rep.summary.skippedTags == CountRows(rep.results, SkippedNoTag)
            && rep.summary.skippedBoth == CountRows(rep.results, SkippedNoAccountAndTag)
            && CountRows(rep.results, Blank) == 0
            && CountRows(rep.results, SkippedDryRun) == 0
  {
    var init := InitialState(rows);
    var plan := Dispatch(rows);
    var rep := ApplyRun(rows, dryRun, apply);
    forall x ensures multiset(FlatRows(plan))[x] <= 1 {
      CoveredOnce(rows, x);
    }
    forall x | x in FlatRows(plan) ensures x < |init.results| && init.results[x].status == Blank {
      CoveredOnce(rows, x);
    }
    RunStatusCounts(init, plan, dryRun, apply);
    InitialCounts(rows, Applied);
    InitialCounts(rows, Failed);
    InitialCounts(rows, SkippedNoAccount);
    InitialCounts(rows, SkippedNoTag);
    InitialCounts(rows, SkippedNoAccountAndTag);
    InitialCounts(rows, SkippedDryRun);
    NeverInitially(rows, Applied);
    NeverInitially(rows, Failed);
    NeverInitially(rows, SkippedDryRun);
    SummaryAddsUp(rows, dryRun, apply);
    CountsPartition(rep.results);
  }

  /** No row starts APPLIED, FAILED or SKIPPED_DRY_RUN. */
  lemma {:induction false} NeverInitially(rows: seq<MappedRow>, s: Status)
    requires s == Applied || s == Failed || s == SkippedDryRun
    ensures CountStatus(rows, s) == 0
  {
    if rows != [] {
      NeverInitially(rows[..|rows| - 1], s);
    }
  }
}
