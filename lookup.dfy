/**
 * The remote lookup tables after they arrive: the filter that drops unusable
 * GraphQL rows (`fetch_email_accounts_graphql_cached`,
 * `fetch_tags_graphql_cached`) and the key-to-id dictionaries built from the
 * kept rows, where a later record overrides an earlier one with the same key.
 */
module Lookup {
  import opened Wrappers
  import opened Normalize

  /** One row of a GraphQL answer, `{id, from_email}` or `{id, name}`; either field may be null. */
  datatype LookupRow = LookupRow(id: Option<int>, name: Option<string>)

  /** A kept lookup record, `{"id": ..., "from_email": ...}` or `{"id": ..., "name": ...}`. */
  datatype Record = Record(id: int, name: string)

  /** A row is kept when its id is present and its name is neither null nor empty. */
  predicate Usable(row: LookupRow) {
    row.id.Some? && row.name.Some? && row.name.value != ""
  }

  function ToRecord(row: LookupRow): Record
    requires Usable(row)
  {
    Record(row.id.value, row.name.value)
  }

  /** The records the filter keeps, in their original order. */
  function Kept(rows: seq<LookupRow>): (out: seq<Record>)
    ensures |out| <= |rows|
  {
    if rows == [] then []
    else
      var last := rows[|rows| - 1];
      Kept(rows[..|rows| - 1]) + (if Usable(last) then [ToRecord(last)] else [])
  }

  /** The loop that builds `out` (app.py:51-56, and identically 66-71 for tags). */
  method KeepUsable(rows: seq<LookupRow>) returns (out: seq<Record>)
    ensures out == Kept(rows)
  {
    out := [];
    for k := 0 to |rows|
      invariant out == Kept(rows[..k])
    {
      var r := rows[k];
      assert rows[..k + 1][..k] == rows[..k];
      if r.id.None? || r.name.None? || r.name.value == "" {
        continue;
      }
      out := out + [Record(r.id.value, r.name.value)];
    }
    assert rows[..|rows|] == rows;
  }

  /** The positions of the usable rows, in increasing order. */
  function UsablePositions(rows: seq<LookupRow>): (pos: seq<nat>)
    ensures forall j :: 0 <= j < |pos| ==> pos[j] < |rows| && Usable(rows[pos[j]])
    ensures forall j, k :: 0 <= j < k < |pos| ==> pos[j] < pos[k]
    ensures forall i :: 0 <= i < |rows| && Usable(rows[i]) ==> i in pos
  {
    if rows == [] then []
    else
      var n := |rows| - 1;
      var p := UsablePositions(rows[..n]);
      assert forall i :: 0 <= i < n ==> rows[..n][i] == rows[i];
      if Usable(rows[n]) then p + [n] else p
  }

  /**
   * The kept records are exactly the usable rows, in their order: the j-th
   * kept record is the record of the j-th usable row.
   */
  lemma {:induction false} KeptIsUsableRows(rows: seq<LookupRow>)
    ensures |Kept(rows)| == |UsablePositions(rows)|
    ensures forall j :: 0 <= j < |Kept(rows)| ==>
              var i := UsablePositions(rows)[j]; i < |rows| && Kept(rows)[j] == ToRecord(rows[i])
  {
    if rows != [] {
      var n := |rows| - 1;
      var front := rows[..n];
      KeptIsUsableRows(front);
      forall j | 0 <= j < |Kept(front)|
        ensures Kept(rows)[j] == ToRecord(rows[UsablePositions(rows)[j]])
      {
        assert front[UsablePositions(front)[j]] == rows[UsablePositions(front)[j]];
      }
    }
  }

  /** A normalised key paired with the id it maps to. */
  datatype Entry = Entry(key: string, id: int)

  /** The dictionary entries of a lookup table: each record's key, trimmed and lowercased when `lower` is set. */
  function Entries(records: seq<Record>, lower: bool): (es: seq<Entry>)
    ensures |es| == |records|
    ensures forall i :: 0 <= i < |records| ==> es[i] == Entry(Key(records[i].name, lower), records[i].id)
  {
    seq(|records|, i requires 0 <= i < |records| => Entry(Key(records[i].name, lower), records[i].id))
  }

  /**
   * The dictionary comprehension `{key: id for ...}`, which inserts the
   * entries in order, so that a later entry overwrites an earlier one with
   * the same key.
   */
  function Index(entries: seq<Entry>): (m: map<string, int>)
    ensures forall k :: k in m <==> exists i :: 0 <= i < |entries| && entries[i].key == k
  {
    if entries == [] then map[]
    else
      var last := entries[|entries| - 1];
      var front := entries[..|entries| - 1];
      assert forall i :: 0 <= i < |front| ==> front[i] == entries[i];
      Index(front)[last.key := last.id]
  }

  /** `email_to_id` (app.py:122) and `tag_to_id` (app.py:124-127). */
  function LookupIndex(records: seq<Record>, lower: bool): map<string, int> {
    Index(Entries(records, lower))
  }

  /** On duplicate keys the last entry wins. */
  lemma {:induction false} IndexLastWins(entries: seq<Entry>, k: string) returns (i: nat)
    requires k in Index(entries)
    ensures i < |entries| && entries[i].key == k
    ensures Index(entries)[k] == entries[i].id
    ensures forall j :: i < j < |entries| ==> entries[j].key != k
  {
    var n := |entries| - 1;
    if entries[n].key == k {
      i := n;
    } else {
      var front := entries[..n];
      i := IndexLastWins(front, k);
      assert front[i] == entries[i];
    }
  }

  /**
   * A normalised key is in `email_to_id` / `tag_to_id` exactly when some
   * record normalises to it, and it then maps to the id of the last such record.
   */
  lemma LookupIndexLastWins(records: seq<Record>, lower: bool, k: string) returns (i: nat)
    requires k in LookupIndex(records, lower)
    ensures i < |records| && Key(records[i].name, lower) == k
    ensures LookupIndex(records, lower)[k] == records[i].id
    ensures forall j :: i < j < |records| ==> Key(records[j].name, lower) != k
  {
    var es := Entries(records, lower);
    i := IndexLastWins(es, k);
    forall j | i < j < |records| ensures Key(records[j].name, lower) != k {
      assert es[j].key == Key(records[j].name, lower);
    }
  }
}
