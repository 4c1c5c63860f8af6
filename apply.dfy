/**
 * The apply step (app.py:172-238): per-row results start from the
 * classification, every planned call either is skipped (dry run) or goes to
 * the tag-mapping endpoint, the rows it covers are marked APPLIED or FAILED,
 * a batch log entry is appended, and a summary of counts is produced.
 * The endpoint is an oracle: a total function from the call's ordinal, its
 * account ids and its tag id to what `apply_tags_batch` returns.
 */
module Apply {
  import opened Wrappers
  import opened Reconcile
  import opened Batching

  /** What `apply_tags_batch` returns: `(ok, err_msg)`. */
  datatype Outcome = Outcome(ok: bool, message: string)

  /** The tag-mapping endpoint as seen by the apply loop: (call ordinal, account ids, tag id) to outcome. */
  type Caller = (nat, seq<int>, int) -> Outcome

  /**
   * What the tag-mapping POST answers: its status code, the "message" field
   * when the body parses as a JSON object that has one, and the raw text.
   */
  datatype Response = Response(statusCode: int, message: Option<string>, text: string)

  /** The error text when no API key is configured (app.py:74-75). */
  const ApiKeyMissing: string := "SMARTLEAD_API_KEY missing"

  /** How much of a raw error body is kept (app.py:82, 84). */
  const ErrorTextLimit: nat := 300

  /** `s[:n]`: the first n characters, or all of them when there are fewer. */
  function Truncate(s: string, n: nat): (r: string)
    ensures |r| <= |s| && r == s[..|r|]
    ensures |s| <= n ==> r == s
    ensures |s| > n ==> |r| == n
  {
    if |s| <= n then s else s[..n]
  }

  /** `apply_tags_batch` (app.py:73-84) once the POST, if any, has been answered. */
  function TagMappingOutcome(apiKey: string, response: Response): Outcome {
    if apiKey == "" then Outcome(false, ApiKeyMissing)
    else if 200 <= response.statusCode < 300 then Outcome(true, "")
    else
      match response.message
      case Some(m) => Outcome(false, m)
      case None => Outcome(false, Truncate(response.text, ErrorTextLimit))
  }

  /**
   * A call succeeds exactly when an API key is configured and the answer is
   * 2xx, and then carries no error text; a failure carries the missing-key
   * text, the body's "message", or the first 300 characters of the raw body
   * (all of it when it is shorter).
   */
  lemma TagMappingOutcomeMeaning(apiKey: string, response: Response)
    ensures var o := TagMappingOutcome(apiKey, response);
            && (o.ok <==> apiKey != "" && 200 <= response.statusCode < 300)
            && (o.ok ==> o.message == "")
            && (apiKey == "" ==> o.message == ApiKeyMissing)
            && (!o.ok && apiKey != "" ==>
                  (response.message.Some? && o.message == response.message.value)
                  || (response.message.None?
                      && |o.message| == (if |response.text| <= ErrorTextLimit then |response.text| else ErrorTextLimit)
                      && o.message == response.text[..|o.message|]))
  {
  }

  /** The endpoint as the live run sees it: the answer to the k-th POST, read as `apply_tags_batch` reads it. */
  function LiveEndpoint(apiKey: string, respond: (nat, seq<int>, int) -> Response): Caller {
    (k: nat, ids: seq<int>, t: int) => TagMappingOutcome(apiKey, respond(k, ids, t))
  }

  /** One row of the results table: the mapped row with its `status` and `error` columns. */
  datatype ResultRow = ResultRow(row: MappedRow, status: Status, error: string)

  /** One entry of `logs` (app.py:221). */
  datatype BatchLog = BatchLog(tagId: int, batchSize: nat, status: Status, error: string)

  /** The summary dictionary (app.py:230-238). */
  datatype Summary = Summary(
    applied: nat,
    skippedAccounts: nat,
    skippedTags: nat,
    skippedBoth: nat,
    errors: nat,
    totalRows: nat,
    totalBatches: nat)

  /** Everything the apply step leaves behind. */
  datatype Report = Report(results: seq<ResultRow>, logs: seq<BatchLog>, summary: Summary)

  /** The variables the batch loop updates. */
  datatype RunState = RunState(results: seq<ResultRow>, applied: nat, errors: nat, logs: seq<BatchLog>)

  // ---------------------------------------------------------------- the loop as a fold

  /** The results table before any call: the skip reasons set, valid rows blank (app.py:176-186). */
  function InitialResults(rows: seq<MappedRow>): (rs: seq<ResultRow>)
    ensures |rs| == |rows|
  {
    seq(|rows|, i requires 0 <= i < |rows| => ResultRow(rows[i], InitialStatus(rows[i]), ""))
  }

  function InitialState(rows: seq<MappedRow>): RunState {
    RunState(InitialResults(rows), 0, 0, [])
  }

  /** `results.loc[idx, "status"] = s`. */
  function SetStatus(results: seq<ResultRow>, idx: seq<nat>, s: Status): (rs: seq<ResultRow>)
    ensures |rs| == |results|
  {
    if results == [] then []
    else
      var n := |results| - 1;
      SetStatus(results[..n], idx, s) + [if n in idx then results[n].(status := s) else results[n]]
  }

  /** The listed rows get the status, the others stay as they are. */
  lemma {:induction false} SetStatusAt(results: seq<ResultRow>, idx: seq<nat>, s: Status)
    ensures forall i :: 0 <= i < |results| ==>
              SetStatus(results, idx, s)[i] == if i in idx then results[i].(status := s) else results[i]
  {
    if results != [] {
      var n := |results| - 1;
      SetStatusAt(results[..n], idx, s);
    }
  }

  /** `results.loc[idx, "error"] = e`. */
  function SetError(results: seq<ResultRow>, idx: seq<nat>, e: string): (rs: seq<ResultRow>)
    ensures |rs| == |results|
  {
    if results == [] then []
    else
      var n := |results| - 1;
      SetError(results[..n], idx, e) + [if n in idx then results[n].(error := e) else results[n]]
  }

  /** The listed rows get the error text, the others stay as they are. */
  lemma {:induction false} SetErrorAt(results: seq<ResultRow>, idx: seq<nat>, e: string)
    ensures forall i :: 0 <= i < |results| ==>
              SetError(results, idx, e)[i] == if i in idx then results[i].(error := e) else results[i]
  {
    if results != [] {
      var n := |results| - 1;
      SetErrorAt(results[..n], idx, e);
    }
  }

  /** `(ok, err_msg)` of the k-th call: fixed in a dry run, the endpoint's answer otherwise (app.py:203-209). */
  function CallOutcome(k: nat, b: Batch, dryRun: bool, apply: Caller): Outcome {
    if dryRun then Outcome(true, "") else apply(k, b.ids, b.tagId)
  }

  /** `batch_status` (app.py:204, 209). */
  function BatchStatus(dryRun: bool, o: Outcome): Status {
    if dryRun then SkippedDryRun else if o.ok then Applied else Failed
  }

  /** The log entry of the k-th call (app.py:221). */
  function LogOf(k: nat, b: Batch, dryRun: bool, apply: Caller): BatchLog {
    var o := CallOutcome(k, b, dryRun, apply);
    BatchLog(b.tagId, |b.ids|, BatchStatus(dryRun, o), o.message)
  }

  /** One iteration of the inner loop (app.py:202-223). */
  function Step(st: RunState, b: Batch, dryRun: bool, apply: Caller): RunState {
    var o := CallOutcome(|st.logs|, b, dryRun, apply);
    RunState(Mark(st.results, b.rows, o),
             if o.ok then st.applied + |b.rows| else st.applied,
             if o.ok then st.errors else st.errors + |b.rows|,
             st.logs + [LogOf(|st.logs|, b, dryRun, apply)])
  }

  /** The rows of one call marked with its outcome (app.py:213-218). */
  function Mark(results: seq<ResultRow>, idx: seq<nat>, o: Outcome): (rs: seq<ResultRow>)
    ensures |rs| == |results|
  {
    if o.ok then SetStatus(results, idx, Applied)
    else SetError(SetStatus(results, idx, Failed), idx, o.message)
  }

  /** The loop state after running the given calls in order. */
  function Run(st: RunState, plan: seq<Batch>, dryRun: bool, apply: Caller): RunState {
    if plan == [] then st
    else Step(Run(st, plan[..|plan| - 1], dryRun, apply), plan[|plan| - 1], dryRun, apply)
  }

  /** The calls of the apply step, in the order pandas runs them (ascending tag id). */
  function Dispatch(rows: seq<MappedRow>): seq<Batch> {
    Plan(rows, GroupKeys(rows))
  }

  /** The apply step as a whole (app.py:176-238). */
  function ApplyRun(rows: seq<MappedRow>, dryRun: bool, apply: Caller): Report {
    var keys := GroupKeys(rows);
    var st := Run(InitialState(rows), Plan(rows, keys), dryRun, apply);
    Report(st.results, st.logs,
      Summary(st.applied,
              CountStatus(rows, SkippedNoAccount),
              CountStatus(rows, SkippedNoTag),
              CountStatus(rows, SkippedNoAccountAndTag),
              st.errors,
              |st.results|,
              TotalBatches(rows, keys)))
  }

  // ---------------------------------------------------------------- the loop

  /** The apply step as the source runs it: a loop over the tag groups, each running the loop over its chunks. */
  method ApplyTags(rows: seq<MappedRow>, dryRun: bool, apply: Caller)
    returns (results: seq<ResultRow>, logs: seq<BatchLog>, summary: Summary)
    ensures Report(results, logs, summary) == ApplyRun(rows, dryRun, apply)
    ensures summary.applied + summary.skippedAccounts + summary.skippedTags + summary.skippedBoth + summary.errors
            == summary.totalRows == |rows|
    ensures |logs| == summary.totalBatches
    ensures dryRun ==> summary.errors == 0
  {
    results := InitialResults(rows);
    var keys := GroupKeys(rows);
    var totalBatches := TotalBatches(rows, keys);
    logs := [];
    var applied: nat, errors: nat := 0, 0;
    ghost var init := InitialState(rows);

    var g := 0;
    PrefixEnds(keys);
    while g < |keys|
      invariant 0 <= g <= |keys|
      invariant RunState(results, applied, errors, logs) == Run(init, Plan(rows, keys[..g]), dryRun, apply)
    {
      results, applied, errors, logs := ApplyGroup(rows, keys[g], results, applied, errors, logs, dryRun, apply);
      PlanSnoc(rows, keys, g);
      RunAppend(init, Plan(rows, keys[..g]), GroupBatches(rows, keys[g]), dryRun, apply);
      g := g + 1;
    }
    PrefixEnds(keys);

    var skippedAccounts := CountStatus(rows, SkippedNoAccount);
    var skippedTags := CountStatus(rows, SkippedNoTag);
    var skippedBoth := CountStatus(rows, SkippedNoAccountAndTag);
    summary := Summary(applied, skippedAccounts, skippedTags, skippedBoth, errors, |results|, totalBatches);

    SummaryAddsUp(rows, dryRun, apply);
  }

  /** The loop over one tag group's chunk offsets (app.py:200-224). */
  method ApplyGroup(rows: seq<MappedRow>, tagId: int,
                    results0: seq<ResultRow>, applied0: nat, errors0: nat, logs0: seq<BatchLog>,
                    dryRun: bool, apply: Caller)
    returns (results: seq<ResultRow>, applied: nat, errors: nat, logs: seq<BatchLog>)
    ensures RunState(results, applied, errors, logs)
         == Run(RunState(results0, applied0, errors0, logs0), GroupBatches(rows, tagId), dryRun, apply)
  {
    results, applied, errors, logs := results0, applied0, errors0, logs0;
    var sub := GroupIdx(rows, tagId);
    var ids := AccountIds(rows, sub);
    ghost var st0 := RunState(results0, applied0, errors0, logs0);
    ghost var group := GroupBatches(rows, tagId);

    var i := 0;
    ghost var c := 0;
    PrefixEnds(group);
    while i < |ids|
      invariant i == c * EmailBatchLimit
      invariant c <= |group|
      invariant RunState(results, applied, errors, logs) == Run(st0, group[..c], dryRun, apply)
    {
      var hi := Min(i + EmailBatchLimit, |ids|);
      var batch := ids[i..hi];
      var rowsIdx := sub[i..hi];
      GroupStep(rows, tagId, st0, c, i, hi, dryRun, apply);
      results, applied, errors, logs := ApplyChunk(results, applied, errors, logs, tagId, rowsIdx, batch, dryRun, apply);
      i := i + EmailBatchLimit;
      c := c + 1;
    }
    ChunksEnd(|ids|, c);
    PrefixEnds(group);
  }

  /** The c-th call of a group extends the run over its first c calls by one step. */
  lemma GroupStep(rows: seq<MappedRow>, tagId: int, st0: RunState, c: nat, lo: nat, hi: nat, dryRun: bool, apply: Caller)
    requires lo == c * EmailBatchLimit < |AccountIds(rows, GroupIdx(rows, tagId))|
    requires hi == Min(lo + EmailBatchLimit, |AccountIds(rows, GroupIdx(rows, tagId))|)
    ensures c < |GroupBatches(rows, tagId)|
    ensures Run(st0, GroupBatches(rows, tagId)[..c + 1], dryRun, apply)
         == Step(Run(st0, GroupBatches(rows, tagId)[..c], dryRun, apply),
                 Batch(tagId, GroupIdx(rows, tagId)[lo..hi], AccountIds(rows, GroupIdx(rows, tagId))[lo..hi]), dryRun, apply)
  {
    var group := GroupBatches(rows, tagId);
    GroupBatchAt(rows, tagId, c);
    TakeOneMore(group, c);
    RunSnoc(st0, group[..c], group[c], dryRun, apply);
  }

  /** One chunk (app.py:202-223): skip it or call the endpoint, mark its rows, count them and log the call. */
  method ApplyChunk(results0: seq<ResultRow>, applied0: nat, errors0: nat, logs0: seq<BatchLog>,
                    tagId: int, rowsIdx: seq<nat>, batch: seq<int>, dryRun: bool, apply: Caller)
    returns (results: seq<ResultRow>, applied: nat, errors: nat, logs: seq<BatchLog>)
    ensures RunState(results, applied, errors, logs)
         == Step(RunState(results0, applied0, errors0, logs0), Batch(tagId, rowsIdx, batch), dryRun, apply)
  {
    results, applied, errors, logs := results0, applied0, errors0, logs0;
    var ok: bool;
    var errMsg: string;
    var batchStatus: Status;
    if dryRun {
      batchStatus := SkippedDryRun;
      ok := true;
      errMsg := "";
    } else {
      var o := apply(|logs0|, batch, tagId);
      ok, errMsg := o.ok, o.message;
      batchStatus := if ok then Applied else Failed;
    }
    if ok {
      results := SetStatus(results, rowsIdx, Applied);
      applied := applied + |rowsIdx|;
    } else {
      results := SetStatus(results, rowsIdx, Failed);
      results := SetError(results, rowsIdx, errMsg);
      errors := errors + |rowsIdx|;
    }
    logs := logs + [BatchLog(tagId, |batch|, batchStatus, errMsg)];
  }

  lemma PrefixEnds<T>(g: seq<T>)
    ensures g[..0] == [] && g[..|g|] == g
  {
  }

  lemma TakeOneMore<T>(g: seq<T>, c: nat)
    requires c < |g|
    ensures g[..c + 1] == g[..c] + [g[c]]
  {
  }

  lemma PlanSnoc(rows: seq<MappedRow>, keys: seq<int>, g: nat)
    requires g < |keys|
    ensures Plan(rows, keys[..g + 1]) == Plan(rows, keys[..g]) + GroupBatches(rows, keys[g])
  {
    assert keys[..g + 1][..g] == keys[..g];
  }

  /** Running two lists of calls one after the other is running their concatenation. */
  lemma {:induction false} RunAppend(st: RunState, a: seq<Batch>, b: seq<Batch>, dryRun: bool, apply: Caller)
    ensures Run(st, a + b, dryRun, apply) == Run(Run(st, a, dryRun, apply), b, dryRun, apply)
  {
    if b == [] {
      assert a + b == a;
    } else {
      var n := |b| - 1;
      assert (a + b)[..|a + b| - 1] == a + b[..n];
      RunAppend(st, a, b[..n], dryRun, apply);
    }
  }

  lemma RunSnoc(st: RunState, plan: seq<Batch>, b: Batch, dryRun: bool, apply: Caller)
    ensures Run(st, plan + [b], dryRun, apply) == Step(Run(st, plan, dryRun, apply), b, dryRun, apply)
  {
    assert (plan + [b])[..|plan|] == plan;
  }

  // ---------------------------------------------------------------- facts about the fold

  /** The log entries of a list of calls, the first of them being call number k0. */
  function LogsOf(k0: nat, plan: seq<Batch>, dryRun: bool, apply: Caller): (ls: seq<BatchLog>)
    ensures |ls| == |plan|
  {
    if plan == [] then []
    else
      var n := |plan| - 1;
      LogsOf(k0, plan[..n], dryRun, apply) + [LogOf(k0 + n, plan[n], dryRun, apply)]
  }

  lemma {:induction false} LogsOfAt(k0: nat, plan: seq<Batch>, dryRun: bool, apply: Caller)
    ensures forall k :: 0 <= k < |plan| ==> LogsOf(k0, plan, dryRun, apply)[k] == LogOf(k0 + k, plan[k], dryRun, apply)
  {
    if plan != [] {
      var n := |plan| - 1;
      var front := plan[..n];
      LogsOfAt(k0, front, dryRun, apply);
      forall k | 0 <= k < n ensures LogsOf(k0, plan, dryRun, apply)[k] == LogOf(k0 + k, plan[k], dryRun, apply) {
        assert front[k] == plan[k];
      }
    }
  }

  /** The calls append their log entries in order. */
  lemma {:induction false} RunLogsAre(st: RunState, plan: seq<Batch>, dryRun: bool, apply: Caller)
    ensures Run(st, plan, dryRun, apply).logs == st.logs + LogsOf(|st.logs|, plan, dryRun, apply)
  {
    if plan == [] {
      assert st.logs + [] == st.logs;
    } else {
      RunLogsAre(st, plan[..|plan| - 1], dryRun, apply);
      RunLogsStep(st, Run(st, plan[..|plan| - 1], dryRun, apply), plan, dryRun, apply);
    }
  }

  /** One call marks exactly its own rows with its outcome. */
  lemma StepResults(st: RunState, b: Batch, dryRun: bool, apply: Caller)
    ensures Step(st, b, dryRun, apply).results == Mark(st.results, b.rows, CallOutcome(|st.logs|, b, dryRun, apply))
  {
  }

  /** One call appends exactly its own log entry. */
  lemma StepLogs(st: RunState, b: Batch, dryRun: bool, apply: Caller)
    ensures Step(st, b, dryRun, apply).logs == st.logs + [LogOf(|st.logs|, b, dryRun, apply)]
  {
  }

  lemma {:induction false} RunLogsStep(st: RunState, mid: RunState, plan: seq<Batch>, dryRun: bool, apply: Caller)
    requires plan != []
    requires mid.logs == st.logs + LogsOf(|st.logs|, plan[..|plan| - 1], dryRun, apply)
    ensures Step(mid, plan[|plan| - 1], dryRun, apply).logs == st.logs + LogsOf(|st.logs|, plan, dryRun, apply)
  {
    var n := |plan| - 1;
    var a := LogsOf(|st.logs|, plan[..n], dryRun, apply);
    var x := LogOf(|st.logs| + n, plan[n], dryRun, apply);
    assert |mid.logs| == |st.logs| + n;
    StepLogs(mid, plan[n], dryRun, apply);
    assert st.logs + (a + [x]) == (st.logs + a) + [x];
  }

  lemma {:induction false} RunCounters(st: RunState, plan: seq<Batch>, dryRun: bool, apply: Caller)
    ensures var r := Run(st, plan, dryRun, apply);
            && r.applied + r.errors == st.applied + st.errors + |FlatRows(plan)|
            && (dryRun ==> r.errors == st.errors)
            && (!dryRun && (forall k: nat, ids, t :: !apply(k, ids, t).ok) ==> r.applied == st.applied)
  {
    if plan != [] {
      RunCounters(st, plan[..|plan| - 1], dryRun, apply);
    }
  }

  lemma {:induction false} RunKeepsRows(st: RunState, plan: seq<Batch>, dryRun: bool, apply: Caller)
    ensures var r := Run(st, plan, dryRun, apply);
            && |r.results| == |st.results|
            && forall i :: 0 <= i < |st.results| ==> r.results[i].row == st.results[i].row
  {
    if plan != [] {
      var n := |plan| - 1;
      RunKeepsRows(st, plan[..n], dryRun, apply);
      var mid := Run(st, plan[..n], dryRun, apply);
      StepResults(mid, plan[n], dryRun, apply);
      forall i | 0 <= i < |st.results| ensures Run(st, plan, dryRun, apply).results[i].row == st.results[i].row {
        StepAt(mid, plan[n], dryRun, apply, i);
      }
    }
  }

  /** A row of a call with outcome `o`: APPLIED, or FAILED with the call's error text. */
  function Marked(r: ResultRow, o: Outcome): ResultRow {
    if o.ok then r.(status := Applied) else r.(status := Failed, error := o.message)
  }

  /** One call's marking, row by row. */
  lemma MarkAt(results: seq<ResultRow>, idx: seq<nat>, o: Outcome, i: nat)
    requires i < |results|
    ensures Mark(results, idx, o)[i] == if i in idx then Marked(results[i], o) else results[i]
  {
    SetStatusAt(results, idx, if o.ok then Applied else Failed);
    SetErrorAt(SetStatus(results, idx, Failed), idx, o.message);
  }

  /** One call's effect on one row. */
  lemma StepAt(mid: RunState, b: Batch, dryRun: bool, apply: Caller, i: nat)
    requires i < |mid.results|
    ensures var o := CallOutcome(|mid.logs|, b, dryRun, apply);
            && |Step(mid, b, dryRun, apply).results| == |mid.results|
            && Step(mid, b, dryRun, apply).results[i] == if i in b.rows then Marked(mid.results[i], o) else mid.results[i]
  {
    StepResults(mid, b, dryRun, apply);
    MarkAt(mid.results, b.rows, CallOutcome(|mid.logs|, b, dryRun, apply), i);
  }

  /** A row no call covers keeps its status and error. */
  lemma {:induction false} RunUntouched(st: RunState, plan: seq<Batch>, dryRun: bool, apply: Caller, i: nat)
    requires i < |st.results| && i !in FlatRows(plan)
    ensures |Run(st, plan, dryRun, apply).results| == |st.results|
    ensures Run(st, plan, dryRun, apply).results[i] == st.results[i]
  {
    RunKeepsRows(st, plan, dryRun, apply);
    if plan != [] {
      var n := |plan| - 1;
      RunUntouched(st, plan[..n], dryRun, apply, i);
      StepAt(Run(st, plan[..n], dryRun, apply), plan[n], dryRun, apply, i);
    }
  }

  /** A row covered by call k, and by no other call, ends with that call's outcome. */
  lemma {:induction false} RunMarked(st: RunState, plan: seq<Batch>, dryRun: bool, apply: Caller, k: nat, i: nat)
    requires k < |plan| && i < |st.results| && i in plan[k].rows
    requires forall k' :: 0 <= k' < |plan| && k' != k ==> i !in plan[k'].rows
    ensures var r := Run(st, plan, dryRun, apply);
            var o := CallOutcome(|st.logs| + k, plan[k], dryRun, apply);
            |r.results| == |st.results| && r.results[i] == Marked(st.results[i], o)
  {
    var n := |plan| - 1;
    var front := plan[..n];
    var mid := Run(st, front, dryRun, apply);
    RunLogsAre(st, front, dryRun, apply);
    if k == n {
      if i in FlatRows(front) {
        var k' := FlatRowsMember(front, i);
        assert false;
      }
      RunUntouched(st, front, dryRun, apply, i);
    } else {
      forall k' | 0 <= k' < |front| && k' != k ensures i !in front[k'].rows {
        assert front[k'] == plan[k'];
      }
      RunMarked(st, front, dryRun, apply, k, i);
      assert front[k] == plan[k];
    }
    StepAt(mid, plan[n], dryRun, apply, i);
  }

  // ---------------------------------------------------------------- plan membership

  lemma {:induction false} InFlatRows(plan: seq<Batch>, k: nat, i: nat)
    requires k < |plan| && i in plan[k].rows
    ensures i in FlatRows(plan)
  {
    var n := |plan| - 1;
    if k < n {
      InFlatRows(plan[..n], k, i);
    }
  }

  lemma {:induction false} FlatRowsMember(plan: seq<Batch>, i: nat) returns (k: nat)
    requires i in FlatRows(plan)
    ensures k < |plan| && i in plan[k].rows
  {
    var n := |plan| - 1;
    if i in plan[n].rows {
      k := n;
    } else {
      k := FlatRowsMember(plan[..n], i);
    }
  }

  /** A row covered by two different calls occurs at least twice among the covered rows. */
  lemma TwoCallsTwice(plan: seq<Batch>, k: nat, k': nat, i: nat)
    requires k < k' < |plan| && i in plan[k].rows && i in plan[k'].rows
    ensures multiset(FlatRows(plan))[i] >= 2
  {
    var a, b := plan[..k'], plan[k'..];
    assert plan == a + b;
    FlatRowsAppend(a, b);
    InFlatRows(a, k, i);
    InFlatRows(b, 0, i);
  }

  // ---------------------------------------------------------------- the apply step's promises

  /** Each valid row is covered by exactly one call; no other row is covered. */
  lemma CoveredOnce(rows: seq<MappedRow>, i: nat)
    ensures multiset(FlatRows(Dispatch(rows)))[i] == if i < |rows| && IsValid(rows[i]) then 1 else 0
  {
    GroupKeysIsGroupOrder(rows);
    PlanCoversValidOnce(rows, GroupKeys(rows));
    ValidIdxOnce(rows, i);
  }

  /**
   * The summary adds up: applied plus errors is the number of valid rows,
   * and the five buckets add up to the number of rows. Every planned call is
   * logged, whatever the outcome of the calls before it, and a dry run has
   * no errors.
   */
  lemma SummaryAddsUp(rows: seq<MappedRow>, dryRun: bool, apply: Caller)
    ensures var rep := ApplyRun(rows, dryRun, apply);
            var s := rep.summary;
            && s.applied + s.errors == |ValidIdx(rows)|
            && s.applied + s.skippedAccounts + s.skippedTags + s.skippedBoth + s.errors == s.totalRows == |rows|
            && |rep.logs| == s.totalBatches == |Dispatch(rows)|
            && (dryRun ==> s.errors == 0 && s.applied == |ValidIdx(rows)|)
  {
    var keys := GroupKeys(rows);
    var plan := Plan(rows, keys);
    var init := InitialState(rows);
    GroupKeysIsGroupOrder(rows);
    PlanCoversValidOnce(rows, keys);
    assert |FlatRows(plan)| == |multiset(FlatRows(plan))| == |multiset(ValidIdx(rows))| == |ValidIdx(rows)|;
    RunCounters(init, plan, dryRun, apply);
    RunKeepsRows(init, plan, dryRun, apply);
    RunLogsAre(init, plan, dryRun, apply);
    PlanLength(rows, keys);
    BucketsPartition(rows);
  }

  /** The results table keeps the mapped columns of every row, in order. */
  lemma ResultsKeepRows(rows: seq<MappedRow>, dryRun: bool, apply: Caller)
    ensures var rs := ApplyRun(rows, dryRun, apply).results;
            |rs| == |rows| && forall i :: 0 <= i < |rows| ==> rs[i].row == rows[i]
  {
    RunKeepsRows(InitialState(rows), Dispatch(rows), dryRun, apply);
  }

  /** A skipped row keeps its skip status and an empty error. */
  lemma SkippedRowKept(rows: seq<MappedRow>, dryRun: bool, apply: Caller, i: nat)
    requires i < |rows| && !IsValid(rows[i])
    ensures var rs := ApplyRun(rows, dryRun, apply).results;
            |rs| == |rows| && rs[i].status == InitialStatus(rows[i]) && rs[i].error == ""
  {
    CoveredOnce(rows, i);
    RunUntouched(InitialState(rows), Dispatch(rows), dryRun, apply, i);
  }

  /** Every valid row is covered by some call. */
  lemma ValidRowCovered(rows: seq<MappedRow>, i: nat) returns (k: nat)
    requires i < |rows| && IsValid(rows[i])
    ensures k < |Dispatch(rows)| && i in Dispatch(rows)[k].rows
  {
    CoveredOnce(rows, i);
    k := FlatRowsMember(Dispatch(rows), i);
  }

  /**
   * The rows a call covers are valid rows and end APPLIED when the call
   * succeeds (or in a dry run), and otherwise FAILED with that call's error
   * text.
   */
  lemma CallMarksItsRows(rows: seq<MappedRow>, dryRun: bool, apply: Caller, k: nat, i: nat)
    requires k < |Dispatch(rows)| && i in Dispatch(rows)[k].rows
    ensures var rs := ApplyRun(rows, dryRun, apply).results;
            var o := CallOutcome(k, Dispatch(rows)[k], dryRun, apply);
            && i < |rows| && IsValid(rows[i]) && |rs| == |rows|
            && rs[i].status == (if o.ok then Applied else Failed)
            && rs[i].error == (if o.ok then "" else o.message)
  {
    OnlyCall(rows, k, i);
    RunMarkedFromStart(rows, Dispatch(rows), dryRun, apply, k, i);
    ApplyRunResults(rows, dryRun, apply);
  }

  /** Over any calls run on the initial table, a row covered by call k alone ends with call k's outcome. */
  lemma RunMarkedFromStart(rows: seq<MappedRow>, plan: seq<Batch>, dryRun: bool, apply: Caller, k: nat, i: nat)
    requires k < |plan| && i < |rows| && i in plan[k].rows
    requires forall k' :: 0 <= k' < |plan| && k' != k ==> i !in plan[k'].rows
    ensures var rs := Run(InitialState(rows), plan, dryRun, apply).results;
            && |rs| == |rows|
            && rs[i] == Marked(InitialResults(rows)[i], CallOutcome(k, plan[k], dryRun, apply))
            && InitialResults(rows)[i].error == ""
  {
    RunMarked(InitialState(rows), plan, dryRun, apply, k, i);
  }

  /** The results table of the apply step is that of the fold over the planned calls. */
  lemma ApplyRunResults(rows: seq<MappedRow>, dryRun: bool, apply: Caller)
    ensures ApplyRun(rows, dryRun, apply).results == Run(InitialState(rows), Dispatch(rows), dryRun, apply).results
  {
  }

  /** A row covered by call k is a valid row and is covered by no other call. */
  lemma OnlyCall(rows: seq<MappedRow>, k: nat, i: nat)
    requires k < |Dispatch(rows)| && i in Dispatch(rows)[k].rows
    ensures i < |rows| && IsValid(rows[i])
    ensures forall k' :: 0 <= k' < |Dispatch(rows)| && k' != k ==> i !in Dispatch(rows)[k'].rows
  {
    var plan := Dispatch(rows);
    PlanBatchesSound(rows, GroupKeys(rows));
    assert BatchSound(rows, plan[k]);
    CoveredOnce(rows, i);
    forall k' | 0 <= k' < |plan| && k' != k ensures i !in plan[k'].rows {
      if i in plan[k'].rows {
        if k < k' { TwoCallsTwice(plan, k, k', i); } else { TwoCallsTwice(plan, k', k, i); }
      }
    }
  }

  /** The k-th log entry records the k-th call: its tag, its size (1 to 25), its status and error text. */
  lemma CallLogged(rows: seq<MappedRow>, dryRun: bool, apply: Caller, k: nat)
    requires k < |Dispatch(rows)|
    ensures var logs := ApplyRun(rows, dryRun, apply).logs;
            var b := Dispatch(rows)[k];
            var o := CallOutcome(k, b, dryRun, apply);
            && k < |logs|
            && logs[k] == BatchLog(b.tagId, |b.ids|, BatchStatus(dryRun, o), o.message)
            && 1 <= logs[k].batchSize <= EmailBatchLimit
  {
    var plan := Dispatch(rows);
    ApplyRunLogs(rows, dryRun, apply);
    LogsOfAt(0, plan, dryRun, apply);
    assert 1 <= |plan[k].ids| <= EmailBatchLimit by {
      PlanBatchesSound(rows, GroupKeys(rows));
      assert BatchSound(rows, plan[k]);
    }
  }

  /** The log of the apply step holds one entry per planned call, in order. */
  lemma ApplyRunLogs(rows: seq<MappedRow>, dryRun: bool, apply: Caller)
    ensures ApplyRun(rows, dryRun, apply).logs == LogsOf(0, Dispatch(rows), dryRun, apply)
  {
    RunLogsAre(InitialState(rows), Dispatch(rows), dryRun, apply);
    assert [] + LogsOf(0, Dispatch(rows), dryRun, apply) == LogsOf(0, Dispatch(rows), dryRun, apply);
  }

  /** A dry run never consults the endpoint: its report is the same whatever the endpoint would answer. */
  lemma DryRunIgnoresEndpoint(rows: seq<MappedRow>, apply1: Caller, apply2: Caller)
    ensures ApplyRun(rows, true, apply1) == ApplyRun(rows, true, apply2)
  {
    DryRunSame(InitialState(rows), Dispatch(rows), apply1, apply2);
  }

  lemma {:induction false} DryRunSame(st: RunState, plan: seq<Batch>, apply1: Caller, apply2: Caller)
    ensures Run(st, plan, true, apply1) == Run(st, plan, true, apply2)
  {
    if plan != [] {
      DryRunSame(st, plan[..|plan| - 1], apply1, apply2);
    }
  }

  /** In a dry run every call is logged SKIPPED_DRY_RUN with no error, and every valid row ends APPLIED. */
  lemma DryRunOutcome(rows: seq<MappedRow>, apply: Caller)
    ensures var rep := ApplyRun(rows, true, apply);
            && rep.summary.errors == 0
            && (forall k :: 0 <= k < |rep.logs| ==> rep.logs[k].status == SkippedDryRun && rep.logs[k].error == "")
            && |rep.results| == |rows|
            && (forall i :: 0 <= i < |rows| && IsValid(rows[i]) ==>
                  rep.results[i].status == Applied && rep.results[i].error == "")
  {
    var rep := ApplyRun(rows, true, apply);
    SummaryAddsUp(rows, true, apply);
    forall k | 0 <= k < |rep.logs| ensures rep.logs[k].status == SkippedDryRun && rep.logs[k].error == "" {
      CallLogged(rows, true, apply, k);
    }
    forall i | 0 <= i < |rows| && IsValid(rows[i])
      ensures rep.results[i].status == Applied && rep.results[i].error == ""
    {
      var k := ValidRowCovered(rows, i);
      CallMarksItsRows(rows, true, apply, k, i);
    }
    ResultsKeepRows(rows, true, apply);
  }

  /** An endpoint that refuses every call with the same error text. */
  ghost predicate RefusesAll(apply: Caller, msg: string) {
    forall k: nat, ids: seq<int>, t: int :: apply(k, ids, t) == Outcome(false, msg)
  }

  /** Without an API key, `apply_tags_batch` refuses every call with the missing-key text. */
  lemma MissingApiKeyRefusesAll(respond: (nat, seq<int>, int) -> Response)
    ensures RefusesAll(LiveEndpoint("", respond), ApiKeyMissing)
  {
    var apply := LiveEndpoint("", respond);
    forall k: nat, ids: seq<int>, t: int ensures apply(k, ids, t) == Outcome(false, ApiKeyMissing) {
      assert apply(k, ids, t) == TagMappingOutcome("", respond(k, ids, t));
    }
  }

  /**
   * Against an endpoint that refuses every call, a live run applies
   * nothing, counts every valid row as an error and logs every call FAILED
   * with the endpoint's text.
   */
  lemma RefusedRunCounts(rows: seq<MappedRow>, apply: Caller, msg: string)
    requires RefusesAll(apply, msg)
    ensures var rep := ApplyRun(rows, false, apply);
            && rep.summary.applied == 0
            && rep.summary.errors == |ValidIdx(rows)|
            && (forall k :: 0 <= k < |rep.logs| ==> rep.logs[k].status == Failed && rep.logs[k].error == msg)
  {
    var rep := ApplyRun(rows, false, apply);
    SummaryAddsUp(rows, false, apply);
    RunCounters(InitialState(rows), Dispatch(rows), false, apply);
    forall k | 0 <= k < |rep.logs| ensures rep.logs[k].status == Failed && rep.logs[k].error == msg {
      CallLogged(rows, false, apply, k);
    }
  }

  /** ... and every valid row ends FAILED with that text. */
  lemma RefusedRunRow(rows: seq<MappedRow>, apply: Caller, msg: string, i: nat)
    requires RefusesAll(apply, msg)
    requires i < |rows| && IsValid(rows[i])
    ensures var rs := ApplyRun(rows, false, apply).results;
            |rs| == |rows| && rs[i].status == Failed && rs[i].error == msg
  {
    var k := ValidRowCovered(rows, i);
    CallMarksItsRows(rows, false, apply, k, i);
  }
}
