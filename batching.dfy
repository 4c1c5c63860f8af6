/**
 * How the valid rows are cut into apply calls (app.py:13, 191, 199-202):
 * grouped by tag id, in ascending tag order as pandas `groupby` does, and
 * each group's account ids cut into consecutive chunks of at most
 * `EmailBatchLimit`.
 */
module Batching {
  import opened Reconcile

  /** `EMAIL_BATCH_LIMIT` (app.py:13). */
  const EmailBatchLimit: nat := 25

  function Min(a: int, b: int): int {
    if a <= b then a else b
  }

  /** One apply call: its tag, the table rows it marks (`rows_idx`) and the account ids it sends (`batch`). */
  datatype Batch = Batch(tagId: int, rows: seq<nat>, ids: seq<int>)

  predicate Increasing(s: seq<int>) {
    forall j, k :: 0 <= j < k < |s| ==> s[j] < s[k]
  }

  predicate Distinct(s: seq<int>) {
    forall j, k :: 0 <= j < k < |s| ==> s[j] != s[k]
  }

  // ---------------------------------------------------------------- groups

  function MinOf(s: seq<int>): (m: int)
    requires s != []
    ensures m in s && forall x :: x in s ==> m <= x
  {
    if |s| == 1 then s[0]
    else
      var m := MinOf(s[1..]);
      assert s == [s[0]] + s[1..];
      if s[0] <= m then s[0] else m
  }

  function Without(s: seq<int>, x: int): (r: seq<int>)
    ensures forall y :: y in r <==> y in s && y != x
    ensures |r| <= |s| && (x in s ==> |r| < |s|)
  {
    if s == [] then []
    else
      assert s == [s[0]] + s[1..];
      (if s[0] == x then [] else [s[0]]) + Without(s[1..], x)
  }

  /** The distinct values of `s` in ascending order. */
  function Ascending(s: seq<int>): seq<int>
    decreases |s|
  {
    if s == [] then []
    else
      var m := MinOf(s);
      [m] + Ascending(Without(s, m))
  }

  /** `Ascending` lists each value of `s` once, in strictly increasing order. */
  lemma {:induction false} AscendingSpec(s: seq<int>)
    ensures Increasing(Ascending(s))
    ensures forall x :: x in Ascending(s) <==> x in s
    decreases |s|
  {
    if s != [] {
      var m := MinOf(s);
      var rest := Without(s, m);
      AscendingSpec(rest);
      var r := Ascending(rest);
      assert Ascending(s) == [m] + r;
      forall k | 0 <= k < |r| ensures m < r[k] {
        assert r[k] in rest;
      }
      forall j, k | 0 <= j < k < |[m] + r| ensures ([m] + r)[j] < ([m] + r)[k] {
        assert ([m] + r)[k] == r[k - 1];
        if j > 0 {
          assert ([m] + r)[j] == r[j - 1];
        }
      }
    }
  }

  /** The tag ids of the valid rows, in row order, with repetitions. */
  function ValidTags(rows: seq<MappedRow>): seq<int> {
    if rows == [] then []
    else
      var n := |rows| - 1;
      ValidTags(rows[..n]) + (if IsValid(rows[n]) then [rows[n].tagId.value] else [])
  }

  lemma {:induction false} ValidTagsSpec(rows: seq<MappedRow>)
    ensures forall t :: t in ValidTags(rows) <==> exists i :: 0 <= i < |rows| && IsValid(rows[i]) && rows[i].tagId.value == t
  {
    if rows != [] {
      var n := |rows| - 1;
      ValidTagsSpec(rows[..n]);
      assert forall i :: 0 <= i < n ==> rows[..n][i] == rows[i];
    }
  }

  /** The group keys of `valid.groupby("tag_id")`: each tag id of a valid row once, ascending. */
  function GroupKeys(rows: seq<MappedRow>): seq<int> {
    Ascending(ValidTags(rows))
  }

  /** The group keys are strictly increasing and are exactly the tag ids of the valid rows. */
  lemma GroupKeysSpec(rows: seq<MappedRow>)
    ensures Increasing(GroupKeys(rows))
    ensures forall t :: t in GroupKeys(rows) <==> exists i :: 0 <= i < |rows| && IsValid(rows[i]) && rows[i].tagId.value == t
  {
    AscendingSpec(ValidTags(rows));
    ValidTagsSpec(rows);
  }

  /** A group order the plan is proved for: every valid row's tag occurs, and occurs once. */
  predicate GroupOrder(rows: seq<MappedRow>, keys: seq<int>) {
    && Distinct(keys)
    && forall i :: 0 <= i < |rows| && IsValid(rows[i]) ==> rows[i].tagId.value in keys
  }

  lemma GroupKeysIsGroupOrder(rows: seq<MappedRow>)
    ensures GroupOrder(rows, GroupKeys(rows))
  {
    var keys := GroupKeys(rows);
    GroupKeysSpec(rows);
    forall i | 0 <= i < |rows| && IsValid(rows[i]) ensures rows[i].tagId.value in keys {
      assert exists i' :: 0 <= i' < |rows| && IsValid(rows[i']) && rows[i'].tagId.value == rows[i].tagId.value;
    }
  }

  /** The table positions of one tag's group, `sub.index`, in increasing order. */
  function GroupIdx(rows: seq<MappedRow>, t: int): (idx: seq<nat>)
    ensures forall j :: 0 <= j < |idx| ==> idx[j] < |rows| && IsValid(rows[idx[j]]) && rows[idx[j]].tagId.value == t
    ensures forall j, k :: 0 <= j < k < |idx| ==> idx[j] < idx[k]
  {
    if rows == [] then []
    else
      var n := |rows| - 1;
      assert forall i :: 0 <= i < n ==> rows[..n][i] == rows[i];
      GroupIdx(rows[..n], t) + (if IsValid(rows[n]) && rows[n].tagId.value == t then [n] else [])
  }

  /** `sub["email_account_id"].astype(int).tolist()` for the given positions. */
  function AccountIds(rows: seq<MappedRow>, idx: seq<nat>): (ids: seq<int>)
    requires forall j :: 0 <= j < |idx| ==> idx[j] < |rows| && rows[idx[j]].accountId.Some?
    ensures |ids| == |idx|
    ensures forall j :: 0 <= j < |idx| ==> ids[j] == rows[idx[j]].accountId.value
  {
    seq(|idx|, j requires 0 <= j < |idx| => rows[idx[j]].accountId.value)
  }

  // ---------------------------------------------------------------- chunks

  /** The number of chunks of a group of `n` rows, `(n + EMAIL_BATCH_LIMIT - 1) // EMAIL_BATCH_LIMIT`. */
  function NumChunks(n: nat): nat {
    (n + EmailBatchLimit - 1) / EmailBatchLimit
  }

  /** `NumChunks` is the ceiling of n / 25: the fewest chunks of at most 25 that hold n rows. */
  lemma NumChunksIsCeiling(n: nat)
    ensures EmailBatchLimit * NumChunks(n) >= n
    ensures n > 0 ==> EmailBatchLimit * (NumChunks(n) - 1) < n
    ensures n == 0 ==> NumChunks(n) == 0
  {
  }

  /** A walk over chunk offsets that has reached the end has taken exactly `NumChunks(n)` steps. */
  lemma ChunksEnd(n: nat, c: nat)
    requires c * EmailBatchLimit >= n
    requires c <= NumChunks(n)
    ensures c == NumChunks(n)
  {
    NumChunksIsCeiling(n);
  }

  /** `s[i:i+EMAIL_BATCH_LIMIT]` for `i = c * EMAIL_BATCH_LIMIT`. */
  function Chunk<T>(s: seq<T>, c: nat): (r: seq<T>)
    requires c < NumChunks(|s|)
    ensures 1 <= |r| <= EmailBatchLimit
  {
    s[c * EmailBatchLimit .. Min(c * EmailBatchLimit + EmailBatchLimit, |s|)]
  }

  /** The apply calls of one tag group, in order (the inner loop of app.py:201-202, 212). */
  function GroupBatches(rows: seq<MappedRow>, t: int): (bs: seq<Batch>)
    ensures |bs| == NumChunks(|GroupIdx(rows, t)|)
  {
    var idx := GroupIdx(rows, t);
    var ids := AccountIds(rows, idx);
    seq(NumChunks(|idx|), c requires 0 <= c < NumChunks(|idx|) => Batch(t, Chunk(idx, c), Chunk(ids, c)))
  }

  /** The c-th call of a group marks the c-th slice of `sub.index` and sends the c-th slice of its ids. */
  lemma GroupBatchAt(rows: seq<MappedRow>, t: int, c: nat)
    requires c * EmailBatchLimit < |GroupIdx(rows, t)|
    ensures c < |GroupBatches(rows, t)|
    ensures var idx := GroupIdx(rows, t);
            var hi := Min(c * EmailBatchLimit + EmailBatchLimit, |idx|);
            GroupBatches(rows, t)[c] == Batch(t, idx[c * EmailBatchLimit..hi], AccountIds(rows, idx)[c * EmailBatchLimit..hi])
  {
    NumChunksIsCeiling(|GroupIdx(rows, t)|);
  }

  /** All apply calls, group after group in the given key order. */
  function Plan(rows: seq<MappedRow>, keys: seq<int>): seq<Batch> {
    if keys == [] then []
    else Plan(rows, keys[..|keys| - 1]) + GroupBatches(rows, keys[|keys| - 1])
  }

  /** `total_batches` (app.py:191): the sum over the groups of the ceiling of size / 25. */
  function TotalBatches(rows: seq<MappedRow>, keys: seq<int>): nat {
    if keys == [] then 0
    else TotalBatches(rows, keys[..|keys| - 1]) + NumChunks(|GroupIdx(rows, keys[|keys| - 1])|)
  }

  /** The rows marked by a sequence of batches, concatenated. */
  function FlatRows(bs: seq<Batch>): seq<nat> {
    if bs == [] then [] else FlatRows(bs[..|bs| - 1]) + bs[|bs| - 1].rows
  }

  /** The account ids sent by a sequence of batches, concatenated. */
  function FlatIds(bs: seq<Batch>): seq<int> {
    if bs == [] then [] else FlatIds(bs[..|bs| - 1]) + bs[|bs| - 1].ids
  }

  // ---------------------------------------------------------------- properties

  /** The number of calls is `total_batches`. */
  lemma {:induction false} PlanLength(rows: seq<MappedRow>, keys: seq<int>)
    ensures |Plan(rows, keys)| == TotalBatches(rows, keys)
  {
    if keys != [] {
      PlanLength(rows, keys[..|keys| - 1]);
    }
  }

  /**
   * Every call sends between 1 and 25 ids under one tag, and the rows it
   * marks are exactly the rows whose account ids it sends, all of them
   * valid rows of that tag.
   */
  lemma {:induction false} PlanBatchesSound(rows: seq<MappedRow>, keys: seq<int>)
    ensures forall b :: b in Plan(rows, keys) ==> BatchSound(rows, b)
  {
    if keys != [] {
      PlanBatchesSound(rows, keys[..|keys| - 1]);
      GroupBatchesSound(rows, keys[|keys| - 1]);
    }
  }

  predicate BatchSound(rows: seq<MappedRow>, b: Batch) {
    && 1 <= |b.ids| <= EmailBatchLimit
    && |b.rows| == |b.ids|
    && forall j :: 0 <= j < |b.rows| ==>
         && b.rows[j] < |rows|
         && IsValid(rows[b.rows[j]])
         && rows[b.rows[j]].tagId.value == b.tagId
         && b.ids[j] == rows[b.rows[j]].accountId.value
  }

  lemma GroupBatchesSound(rows: seq<MappedRow>, t: int)
    ensures forall b :: b in GroupBatches(rows, t) ==> BatchSound(rows, b)
  {
    var idx := GroupIdx(rows, t);
    var ids := AccountIds(rows, idx);
    var bs := GroupBatches(rows, t);
    forall c | 0 <= c < |bs| ensures BatchSound(rows, bs[c]) {
      var lo := c * EmailBatchLimit;
      var hi := Min(lo + EmailBatchLimit, |idx|);
      assert bs[c].rows == idx[lo..hi] && bs[c].ids == ids[lo..hi];
      assert rows[idx[lo]].tagId.value == t;
    }
  }

  /** The chunks of a group, concatenated, give back the group's rows and ids in order. */
  lemma {:induction false} GroupChunksConcat(rows: seq<MappedRow>, t: int, c: nat)
    requires c <= NumChunks(|GroupIdx(rows, t)|)
    ensures var idx := GroupIdx(rows, t);
            var hi := Min(c * EmailBatchLimit, |idx|);
            && FlatRows(GroupBatches(rows, t)[..c]) == idx[..hi]
            && FlatIds(GroupBatches(rows, t)[..c]) == AccountIds(rows, idx)[..hi]
  {
    var bs := GroupBatches(rows, t);
    var idx := GroupIdx(rows, t);
    if c == 0 {
      assert bs[..0] == [];
    } else {
      var lo := (c - 1) * EmailBatchLimit;
      NumChunksIsCeiling(|idx|);
      GroupChunksConcat(rows, t, c - 1);
      GroupBatchAt(rows, t, c - 1);
      FlatSnoc(bs, c);
      var hi := Min(c * EmailBatchLimit, |idx|);
      SliceJoin(idx, lo, hi);
      SliceJoin(AccountIds(rows, idx), lo, hi);
    }
  }

  /** The first c calls are the first c - 1 calls and then call c - 1. */
  lemma FlatSnoc(bs: seq<Batch>, c: nat)
    requires 0 < c <= |bs|
    ensures FlatRows(bs[..c]) == FlatRows(bs[..c - 1]) + bs[c - 1].rows
    ensures FlatIds(bs[..c]) == FlatIds(bs[..c - 1]) + bs[c - 1].ids
  {
    assert bs[..c][..c - 1] == bs[..c - 1];
  }

  lemma SliceJoin<T>(s: seq<T>, lo: nat, hi: nat)
    requires lo <= hi <= |s|
    ensures s[..lo] + s[lo..hi] == s[..hi]
  {
  }

  lemma GroupChunksWhole(rows: seq<MappedRow>, t: int)
    ensures FlatRows(GroupBatches(rows, t)) == GroupIdx(rows, t)
    ensures FlatIds(GroupBatches(rows, t)) == AccountIds(rows, GroupIdx(rows, t))
  {
    var bs := GroupBatches(rows, t);
    var n := |GroupIdx(rows, t)|;
    GroupChunksConcat(rows, t, |bs|);
    NumChunksIsCeiling(n);
    assert bs[..|bs|] == bs;
  }

  lemma {:induction false} FlatRowsAppend(a: seq<Batch>, b: seq<Batch>)
    ensures FlatRows(a + b) == FlatRows(a) + FlatRows(b)
  {
    if b != [] {
      var n := |b| - 1;
      assert (a + b)[..|a + b| - 1] == a + b[..n];
      FlatRowsAppend(a, b[..n]);
    } else {
      assert a + b == a;
    }
  }

  /** The rows of the groups in key order, concatenated. */
  function ConcatGroups(rows: seq<MappedRow>, keys: seq<int>): seq<nat> {
    if keys == [] then []
    else ConcatGroups(rows, keys[..|keys| - 1]) + GroupIdx(rows, keys[|keys| - 1])
  }

  lemma {:induction false} PlanRowsAreGroups(rows: seq<MappedRow>, keys: seq<int>)
    ensures FlatRows(Plan(rows, keys)) == ConcatGroups(rows, keys)
  {
    if keys != [] {
      var front := keys[..|keys| - 1];
      var t := keys[|keys| - 1];
      PlanRowsAreGroups(rows, front);
      FlatRowsAppend(Plan(rows, front), GroupBatches(rows, t));
      GroupChunksWhole(rows, t);
    }
  }

  lemma GroupIdxSnoc(rows: seq<MappedRow>, r: MappedRow, t: int)
    ensures GroupIdx(rows + [r], t) == GroupIdx(rows, t) + (if IsValid(r) && r.tagId.value == t then [|rows|] else [])
  {
    assert (rows + [r])[..|rows|] == rows;
  }

  lemma {:induction false} ConcatGroupsEmpty(keys: seq<int>)
    ensures ConcatGroups([], keys) == []
  {
    if keys != [] {
      ConcatGroupsEmpty(keys[..|keys| - 1]);
    }
  }

  /** Appending a row adds its position to exactly the group of its tag, if that group is listed. */
  lemma {:induction false} ConcatGroupsSnoc(rows: seq<MappedRow>, r: MappedRow, keys: seq<int>)
    requires Distinct(keys)
    ensures var added: seq<nat> := if IsValid(r) && r.tagId.value in keys then [|rows|] else [];
            multiset(ConcatGroups(rows + [r], keys)) == multiset(ConcatGroups(rows, keys)) + multiset(added)
  {
    if keys != [] {
      var n := |keys| - 1;
      var front, t := keys[..n], keys[n];
      DistinctSnoc(keys);
      ConcatGroupsSnoc(rows, r, front);
      GroupIdxSnoc(rows, r, t);
      var inT := IsValid(r) && r.tagId.value == t;
      var inFront := IsValid(r) && r.tagId.value in front;
      if IsValid(r) {
        InSnoc(keys, r.tagId.value);
      }
      AddOnce(ConcatGroups(rows, front), ConcatGroups(rows + [r], front),
              GroupIdx(rows, t), GroupIdx(rows + [r], t), |rows|, inFront, inT);
    }
  }

  /** Adding one element to at most one of two parts adds it to their concatenation. */
  lemma AddOnce(a: seq<nat>, a': seq<nat>, b: seq<nat>, b': seq<nat>, x: nat, inA: bool, inB: bool)
    requires !(inA && inB)
    requires multiset(a') == multiset(a) + multiset(if inA then [x] else [])
    requires b' == b + (if inB then [x] else [])
    ensures multiset(a' + b') == multiset(a + b) + multiset(if inA || inB then [x] else [])
  {
  }

  lemma InSnoc(s: seq<int>, x: int)
    requires s != []
    ensures x in s <==> x in s[..|s| - 1] || x == s[|s| - 1]
  {
    assert s == s[..|s| - 1] + [s[|s| - 1]];
  }

  lemma DistinctSnoc(keys: seq<int>)
    requires keys != [] && Distinct(keys)
    ensures Distinct(keys[..|keys| - 1]) && keys[|keys| - 1] !in keys[..|keys| - 1]
  {
  }

  /** Every valid row is marked by exactly one call of the plan, and no other row is. */
  lemma {:induction false} PlanCoversValidOnce(rows: seq<MappedRow>, keys: seq<int>)
    requires GroupOrder(rows, keys)
    ensures multiset(FlatRows(Plan(rows, keys))) == multiset(ValidIdx(rows))
  {
    PlanRowsAreGroups(rows, keys);
    GroupsCoverValid(rows, keys);
  }

  lemma {:induction false} GroupsCoverValid(rows: seq<MappedRow>, keys: seq<int>)
    requires GroupOrder(rows, keys)
    ensures multiset(ConcatGroups(rows, keys)) == multiset(ValidIdx(rows))
  {
    if rows == [] {
      ConcatGroupsEmpty(keys);
    } else {
      var n := |rows| - 1;
      var front := rows[..n];
      assert rows == front + [rows[n]];
      assert GroupOrder(front, keys) by {
        forall i | 0 <= i < |front| && IsValid(front[i]) ensures front[i].tagId.value in keys {
          assert front[i] == rows[i];
        }
      }
      GroupsCoverValid(front, keys);
      ConcatGroupsSnoc(front, rows[n], keys);
    }
  }
}
