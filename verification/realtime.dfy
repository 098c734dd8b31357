/**
 * The realtime change handler of `useBookmarks`: each `postgres_changes` event turns the
 * previous bookmark list into the next one. INSERT prepends without looking for the id,
 * UPDATE replaces the rows carrying the id and never adds one, DELETE filters the id out,
 * and any other event type leaves the list alone. Nothing re-sorts the list.
 */
module Realtime {
  import opened Bookmarks
  import opened Seqs

  /**
   * A change event: its `eventType`, the `new` row (meaningful for INSERT and UPDATE)
   * and the id of the `old` row (meaningful for DELETE).
   */
  datatype Payload = Payload(eventType: string, newRow: Bookmark, oldId: string)

  /** How many rows of `bs` carry the id `id`. */
  function CountId(bs: seq<Bookmark>, id: string): (n: nat)
    ensures n <= |bs|
  {
    if bs == [] then 0 else (if bs[0].id == id then 1 else 0) + CountId(bs[1..], id)
  }

  /** No row of `bs` carries the id `id`. */
  predicate Absent(bs: seq<Bookmark>, id: string) {
    forall b :: b in bs ==> b.id != id
  }

  lemma {:induction false} CountZeroIffAbsent(bs: seq<Bookmark>, id: string)
    ensures CountId(bs, id) == 0 <==> Absent(bs, id)
  {
    if bs != [] {
      CountZeroIffAbsent(bs[1..], id);
      assert bs == [bs[0]] + bs[1..];
    }
  }

  /** INSERT: `[payload.new, ...prev]`, the row in front of the whole previous list. */
  function InsertRow(prev: seq<Bookmark>, row: Bookmark): (next: seq<Bookmark>)
    ensures |next| == |prev| + 1 && next[0] == row && next[1..] == prev
  {
    [row] + prev
  }

  /** UPDATE: `prev.map(b => b.id === row.id ? row : b)`. */
  function UpdateRow(prev: seq<Bookmark>, row: Bookmark): (next: seq<Bookmark>)
    ensures |next| == |prev|
    ensures forall i :: 0 <= i < |prev| ==>
              next[i] == (if prev[i].id == row.id then row else prev[i])
  {
    if prev == [] then []
    else [if prev[0].id == row.id then row else prev[0]] + UpdateRow(prev[1..], row)
  }

  /** DELETE: `prev.filter(b => b.id !== id)`. */
  function DeleteRow(prev: seq<Bookmark>, id: string): (next: seq<Bookmark>)
    ensures IsSubsequence(next, prev)
    ensures forall b :: b in next <==> b in prev && b.id != id
  {
    if prev == [] then []
    else
      var rest := DeleteRow(prev[1..], id);
      if prev[0].id != id then
        assert ([prev[0]] + rest)[1..] == rest;
        [prev[0]] + rest
      else
        rest
  }

  /**
   * The handler passed to `.on('postgres_changes', …)`, as one step on the list: only
   * INSERT makes the list longer, UPDATE keeps its length, DELETE may only shorten it
   * and keeps the order of what is left, and any other event changes nothing.
   */
  function ApplyChange(prev: seq<Bookmark>, p: Payload): (next: seq<Bookmark>)
    ensures p.eventType == "INSERT" ==> |next| == |prev| + 1
    ensures p.eventType == "UPDATE" ==> |next| == |prev|
    ensures p.eventType == "DELETE" ==> |next| <= |prev| && IsSubsequence(next, prev)
    ensures p.eventType !in {"INSERT", "UPDATE", "DELETE"} ==> next == prev
  {
    if p.eventType == "INSERT" then InsertRow(prev, p.newRow)
    else if p.eventType == "UPDATE" then UpdateRow(prev, p.newRow)
    else if p.eventType == "DELETE" then
      SubsequenceBounds(DeleteRow(prev, p.oldId), prev);
      DeleteRow(prev, p.oldId)
    else prev
  }

  /**
   * INSERT puts the payload in front of the unchanged previous list. It does not check
   * for the id, so an id already present is present once more afterwards.
   */
  lemma InsertPrepends(prev: seq<Bookmark>, p: Payload)
    requires p.eventType == "INSERT"
    ensures |ApplyChange(prev, p)| == |prev| + 1
    ensures ApplyChange(prev, p)[0] == p.newRow && ApplyChange(prev, p)[1..] == prev
    ensures CountId(ApplyChange(prev, p), p.newRow.id) == CountId(prev, p.newRow.id) + 1
  {
    assert ApplyChange(prev, p)[1..] == prev;
  }

  /** An INSERT of an id the list already holds leaves two rows with that id. */
  lemma InsertDuplicates(prev: seq<Bookmark>, p: Payload)
    requires p.eventType == "INSERT" && !Absent(prev, p.newRow.id)
    ensures CountId(ApplyChange(prev, p), p.newRow.id) >= 2
  {
    CountZeroIffAbsent(prev, p.newRow.id);
    InsertPrepends(prev, p);
  }

  /**
   * UPDATE keeps the length and every position: a row whose id is the payload's
   * becomes the payload, every other row stays as it was.
   */
  lemma UpdateReplacesInPlace(prev: seq<Bookmark>, p: Payload)
    requires p.eventType == "UPDATE"
    ensures |ApplyChange(prev, p)| == |prev|
    ensures forall i :: 0 <= i < |prev| && prev[i].id == p.newRow.id ==> ApplyChange(prev, p)[i] == p.newRow
    ensures forall i :: 0 <= i < |prev| && prev[i].id != p.newRow.id ==> ApplyChange(prev, p)[i] == prev[i]
  {
  }

  /** UPDATE never changes which id stands where, so it never adds nor drops a row. */
  lemma UpdateKeepsIds(prev: seq<Bookmark>, p: Payload)
    requires p.eventType == "UPDATE"
    ensures forall i :: 0 <= i < |prev| ==> ApplyChange(prev, p)[i].id == prev[i].id
    ensures forall id :: CountId(ApplyChange(prev, p), id) == CountId(prev, id)
  {
    forall id ensures CountId(UpdateRow(prev, p.newRow), id) == CountId(prev, id) {
      UpdateCount(prev, p.newRow, id);
    }
  }

  lemma {:induction false} UpdateCount(prev: seq<Bookmark>, row: Bookmark, id: string)
    ensures CountId(UpdateRow(prev, row), id) == CountId(prev, id)
  {
    if prev != [] {
      UpdateCount(prev[1..], row, id);
      assert UpdateRow(prev, row)[1..] == UpdateRow(prev[1..], row);
    }
  }

  /** An UPDATE for an id the list does not hold changes nothing: it does not insert. */
  lemma UpdateAbsentIsNoop(prev: seq<Bookmark>, p: Payload)
    requires p.eventType == "UPDATE" && Absent(prev, p.newRow.id)
    ensures ApplyChange(prev, p) == prev
  {
    var next := UpdateRow(prev, p.newRow);
    forall i | 0 <= i < |prev| ensures next[i] == prev[i] {
      assert prev[i] in prev;
    }
  }

  /** Delivering the same UPDATE twice is the same as delivering it once. */
  lemma UpdateIdempotent(prev: seq<Bookmark>, p: Payload)
    requires p.eventType == "UPDATE"
    ensures ApplyChange(ApplyChange(prev, p), p) == ApplyChange(prev, p)
  {
  }

  /**
   * DELETE removes every row with the id and no other: the rest keep their relative
   * order, and the list shrinks by exactly the number of rows that carried the id.
   */
  lemma DeleteRemovesAll(prev: seq<Bookmark>, p: Payload)
    requires p.eventType == "DELETE"
    ensures IsSubsequence(ApplyChange(prev, p), prev)
    ensures Absent(ApplyChange(prev, p), p.oldId)
    ensures forall b :: b in prev && b.id != p.oldId ==> b in ApplyChange(prev, p)
    ensures |ApplyChange(prev, p)| == |prev| - CountId(prev, p.oldId)
  {
    DeleteCount(prev, p.oldId);
  }

  lemma {:induction false} DeleteCount(prev: seq<Bookmark>, id: string)
    ensures |DeleteRow(prev, id)| == |prev| - CountId(prev, id)
  {
    if prev != [] {
      DeleteCount(prev[1..], id);
    }
  }

  /** Delivering the same DELETE twice is the same as delivering it once. */
  lemma DeleteIdempotent(prev: seq<Bookmark>, p: Payload)
    requires p.eventType == "DELETE"
    ensures ApplyChange(ApplyChange(prev, p), p) == ApplyChange(prev, p)
  {
    var once := DeleteRow(prev, p.oldId);
    DeleteAbsent(once, p.oldId);
  }

  /** A DELETE for an id the list does not hold changes nothing. */
  lemma DeleteAbsentIsNoop(prev: seq<Bookmark>, p: Payload)
    requires p.eventType == "DELETE" && Absent(prev, p.oldId)
    ensures ApplyChange(prev, p) == prev
  {
    DeleteAbsent(prev, p.oldId);
  }

  lemma {:induction false} DeleteAbsent(prev: seq<Bookmark>, id: string)
    requires Absent(prev, id)
    ensures DeleteRow(prev, id) == prev
  {
    if prev != [] {
      assert prev[0] in prev;
      assert forall b :: b in prev[1..] ==> b in prev;
      DeleteAbsent(prev[1..], id);
      assert prev == [prev[0]] + prev[1..];
    }
  }

  /** An event whose type is none of INSERT, UPDATE, DELETE leaves the list as it was. */
  lemma OtherEventIsNoop(prev: seq<Bookmark>, p: Payload)
    requires p.eventType != "INSERT" && p.eventType != "UPDATE" && p.eventType != "DELETE"
    ensures ApplyChange(prev, p) == prev
  {
  }

  /**
   * A DELETE clears an id however many times INSERT added it, duplicates included,
   * and leaves the rest of the list as it was before the INSERT.
   */
  lemma DeleteAfterInsert(prev: seq<Bookmark>, ins: Payload, del: Payload)
    requires ins.eventType == "INSERT" && del.eventType == "DELETE" && del.oldId == ins.newRow.id
    ensures ApplyChange(ApplyChange(prev, ins), del) == ApplyChange(prev, del)
  {
  }
}
