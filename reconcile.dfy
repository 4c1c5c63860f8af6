/**
 * The mapping step (app.py:122-143) and the classification of mapped rows
 * (app.py:176-188): each uploaded row is resolved against `email_to_id` and
 * `tag_to_id` and falls into exactly one of four categories.
 */
module Reconcile {
  import opened Wrappers
  import opened Normalize
  import opened Lookup

  /** One uploaded CSV cell; pandas reads an empty field as a missing value. */
  datatype Cell = Missing | Text(text: string)

  /** `Series.astype(str)`: a missing value becomes the text "nan". */
  function AsStr(c: Cell): string {
    match c
    case Missing => "nan"
    case Text(s) => s
  }

  /** The two chosen columns of one uploaded row. */
  datatype InputRow = InputRow(email: Cell, tag: Cell)

  /** One row of the mapped table: the working columns with nullable ids. */
  datatype MappedRow = MappedRow(
    email: string,           // trimmed and lowercased, the join key
    emailOriginal: string,   // trimmed only
    tag: string,             // trimmed only, in the case the user typed
    accountId: Option<int>,
    tagId: Option<int>)

  /** The row status vocabulary of the results table; `Blank` is the initial empty string. */
  datatype Status =
    | Blank
    | Applied
    | Failed
    | SkippedNoAccount
    | SkippedNoTag
    | SkippedNoAccountAndTag
    | SkippedDryRun

  /** `Series.map(d)`: the value for the key, or `NA` when the key is absent. */
  function Find(m: map<string, int>, k: string): Option<int> {
    if k in m then Some(m[k]) else None
  }

  /** One row of the mapped table, given the two dictionaries (app.py:130-143). */
  function MapRow(row: InputRow, emailToId: map<string, int>, tagToId: map<string, int>, caseInsensitive: bool): MappedRow {
    var emailOriginal := Trim(Some(AsStr(row.email)));
    var email := Lower(emailOriginal);
    var tag := Trim(Some(AsStr(row.tag)));
    var tagKey := if caseInsensitive then Lower(tag) else tag;
    MappedRow(email, emailOriginal, tag, Find(emailToId, email), Find(tagToId, tagKey))
  }

  /**
   * The mapped table: one mapped row per uploaded row, in order. What each
   * mapped row means is stated by `ResolvedAccount` and `ResolvedTag`; the
   * ensures below only fixes the shape for them.
   */
  function MapRows(rows: seq<InputRow>, accounts: seq<Record>, tags: seq<Record>, caseInsensitive: bool): (out: seq<MappedRow>)
    ensures |out| == |rows|
    ensures forall i :: 0 <= i < |rows| ==>
              out[i] == MapRow(rows[i], LookupIndex(accounts, true), LookupIndex(tags, caseInsensitive), caseInsensitive)
  {
    var emailToId := LookupIndex(accounts, true);
    var tagToId := LookupIndex(tags, caseInsensitive);
    seq(|rows|, i requires 0 <= i < |rows| => MapRow(rows[i], emailToId, tagToId, caseInsensitive))
  }

  lemma LookupIndexKeys(records: seq<Record>, lower: bool, k: string)
    ensures k in LookupIndex(records, lower) <==> exists i :: 0 <= i < |records| && Key(records[i].name, lower) == k
  {
    var es := Entries(records, lower);
    if k in LookupIndex(records, lower) {
      var i :| 0 <= i < |es| && es[i].key == k;
      assert Key(records[i].name, lower) == k;
    }
    if exists i :: 0 <= i < |records| && Key(records[i].name, lower) == k {
      var i :| 0 <= i < |records| && Key(records[i].name, lower) == k;
      assert es[i].key == k;
    }
  }

  /**
   * A row's account id is present exactly when its normalised email is the
   * normalised email of some account, and it is then the id of the last
   * such account (app.py:122, 130, 134).
   */
  lemma ResolvedAccount(rows: seq<InputRow>, accounts: seq<Record>, tags: seq<Record>, caseInsensitive: bool, r: nat)
    requires r < |rows|
    ensures var m := MapRows(rows, accounts, tags, caseInsensitive)[r];
            && m.email == Key(AsStr(rows[r].email), true)
            && m.emailOriginal == Key(AsStr(rows[r].email), false)
            && (m.accountId.Some? <==> exists a :: 0 <= a < |accounts| && Key(accounts[a].name, true) == m.email)
            && (m.accountId.Some? ==>
                  exists a :: 0 <= a < |accounts| && Key(accounts[a].name, true) == m.email
                    && m.accountId.value == accounts[a].id
                    && forall b :: a < b < |accounts| ==> Key(accounts[b].name, true) != m.email)
  {
    var m := MapRows(rows, accounts, tags, caseInsensitive)[r];
    LookupIndexKeys(accounts, true, m.email);
    if m.accountId.Some? {
      var a := LookupIndexLastWins(accounts, true, m.email);
    }
  }

  /**
   * A row's tag id is present exactly when its tag key (trimmed, and
   * lowercased only when matching is case-insensitive) is the key of some
   * tag, and it is then the id of the last such tag (app.py:124-127, 131-132, 135).
   */
  lemma ResolvedTag(rows: seq<InputRow>, accounts: seq<Record>, tags: seq<Record>, caseInsensitive: bool, r: nat)
    requires r < |rows|
    ensures var m := MapRows(rows, accounts, tags, caseInsensitive)[r];
            var k := Key(AsStr(rows[r].tag), caseInsensitive);
            && m.tag == Key(AsStr(rows[r].tag), false)
            && (m.tagId.Some? <==> exists t :: 0 <= t < |tags| && Key(tags[t].name, caseInsensitive) == k)
            && (m.tagId.Some? ==>
                  exists t :: 0 <= t < |tags| && Key(tags[t].name, caseInsensitive) == k
                    && m.tagId.value == tags[t].id
                    && forall b :: t < b < |tags| ==> Key(tags[b].name, caseInsensitive) != k)
  {
    var m := MapRows(rows, accounts, tags, caseInsensitive)[r];
    var k := Key(AsStr(rows[r].tag), caseInsensitive);
    LookupIndexKeys(tags, caseInsensitive, k);
    if m.tagId.Some? {
      var t := LookupIndexLastWins(tags, caseInsensitive, k);
    }
  }

  /** Both ids were found: the row goes to the apply step. */
  predicate IsValid(r: MappedRow) {
    r.accountId.Some? && r.tagId.Some?
  }

  /** The status a row has before any batch runs (app.py:181-188). */
  function InitialStatus(r: MappedRow): (s: Status)
    ensures s == SkippedNoAccount <==> r.accountId.None? && r.tagId.Some?
    ensures s == SkippedNoTag <==> r.accountId.Some? && r.tagId.None?
    ensures s == SkippedNoAccountAndTag <==> r.accountId.None? && r.tagId.None?
    ensures s == Blank <==> IsValid(r)
  {
    match (r.accountId, r.tagId)
    case (None, Some(_)) => SkippedNoAccount
    case (Some(_), None) => SkippedNoTag
    case (None, None) => SkippedNoAccountAndTag
    case (Some(_), Some(_)) => Blank
  }

  /** The number of rows with the given initial status, `mask.sum()` (app.py:226-228). */
  function CountStatus(rows: seq<MappedRow>, s: Status): nat {
    if rows == [] then 0
    else CountStatus(rows[..|rows| - 1], s) + (if InitialStatus(rows[|rows| - 1]) == s then 1 else 0)
  }

  /** The positions of the valid rows, `valid.index` (app.py:188), in increasing order. */
  function ValidIdx(rows: seq<MappedRow>): (idx: seq<nat>)
    ensures forall j :: 0 <= j < |idx| ==> idx[j] < |rows| && IsValid(rows[idx[j]])
    ensures forall j, k :: 0 <= j < k < |idx| ==> idx[j] < idx[k]
    ensures forall i :: 0 <= i < |rows| && IsValid(rows[i]) ==> i in idx
  {
    if rows == [] then []
    else
      var n := |rows| - 1;
      var front := ValidIdx(rows[..n]);
      assert forall i :: 0 <= i < n ==> rows[..n][i] == rows[i];
      if IsValid(rows[n]) then front + [n] else front
  }

  /** The three skip buckets and the valid rows partition the table. */
  lemma {:induction false} BucketsPartition(rows: seq<MappedRow>)
    ensures CountStatus(rows, SkippedNoAccount) + CountStatus(rows, SkippedNoTag)
            + CountStatus(rows, SkippedNoAccountAndTag) + |ValidIdx(rows)| == |rows|
  {
    if rows != [] {
      BucketsPartition(rows[..|rows| - 1]);
    }
  }

  /** Each valid row occurs once in `ValidIdx`, and no other position does. */
  lemma ValidIdxOnce(rows: seq<MappedRow>, i: int)
    ensures multiset(ValidIdx(rows))[i] == if 0 <= i < |rows| && IsValid(rows[i]) then 1 else 0
  {
    var idx := ValidIdx(rows);
    StrictlyIncreasingOnce(idx, i);
  }

  lemma {:induction false} StrictlyIncreasingOnce(s: seq<nat>, x: int)
    requires forall j, k :: 0 <= j < k < |s| ==> s[j] < s[k]
    ensures multiset(s)[x] == if x in s then 1 else 0
  {
    if s != [] {
      var n := |s| - 1;
      assert s == s[..n] + [s[n]];
      StrictlyIncreasingOnce(s[..n], x);
      if x == s[n] {
        assert x !in s[..n];
      }
    }
  }
}
