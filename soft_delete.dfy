/**
 * The soft-delete life cycle shared by the in-memory store's tables
 * (households, funds, contributions, documents, children): a record is
 * active until `deletedAt` is set, can be restored by clearing it, and can be
 * removed for good. Bulk operations apply the single-record step to each id
 * in turn and account for every id.
 */
module SoftDelete {
  import opened Wrappers
  import Seqs

  /** A time in milliseconds. */
  type Time = int

  /** One table row: its id, its deletion mark and the rest of the record. */
  datatype Row<D> = Row(id: string, deletedAt: Option<Time>, data: D)

  /** A table with the outcome of one operation on it. */
  datatype Change<D> = Change(table: seq<Row<D>>, success: bool)

  /** An id that a bulk operation could not process, with the reason reported for it. */
  datatype Failure = Failure(id: string, reason: string)

  /** The `{ success, failed }` report of a bulk operation. */
  datatype BulkReport = BulkReport(success: nat, failed: seq<Failure>)

  /** The two soft-delete steps a bulk operation can apply. */
  datatype Step = Remove(at: Time) | Restore

  /** Row `k` is the first row with `id` that is active (`wantDeleted` false) or deleted (`wantDeleted` true). */
  predicate FirstWith<D>(t: seq<Row<D>>, id: string, wantDeleted: bool, k: int)
  {
    && 0 <= k < |t|
    && t[k].id == id && t[k].deletedAt.Some? == wantDeleted
    && forall j :: 0 <= j < k ==> !(t[j].id == id && t[j].deletedAt.Some? == wantDeleted)
  }

  /** Row `k` is the first row with `id`, deleted or not. */
  predicate FirstWithId<D>(t: seq<Row<D>>, id: string, k: int)
  {
    0 <= k < |t| && t[k].id == id && forall j :: 0 <= j < k ==> t[j].id != id
  }

  /** No two rows share an id. */
  predicate UniqueIds<D>(t: seq<Row<D>>)
  {
    forall i, j :: 0 <= i < j < |t| ==> t[i].id != t[j].id
  }

  /** `find(r => r.id === id && !r.deletedAt)` (or `&& r.deletedAt` when `wantDeleted`). */
  function Find<D>(t: seq<Row<D>>, id: string, wantDeleted: bool): (k: Option<nat>)
    ensures k.Some? ==> FirstWith(t, id, wantDeleted, k.value)
    ensures k.None? <==> forall j :: 0 <= j < |t| ==> !(t[j].id == id && t[j].deletedAt.Some? == wantDeleted)
  {
    Seqs.FirstIndex(t, (r: Row<D>) => r.id == id && r.deletedAt.Some? == wantDeleted)
  }

  /** `delete`: marks the first active row with `id` as deleted at `now`; fails when there is none. */
  function Delete<D>(t: seq<Row<D>>, id: string, now: Time): (c: Change<D>)
    ensures c.success <==> exists j :: 0 <= j < |t| && t[j].id == id && t[j].deletedAt.None?
    ensures !c.success ==> c.table == t
    ensures c.success ==> exists k :: FirstWith(t, id, false, k) && c.table == t[k := t[k].(deletedAt := Some(now))]
  {
    match Find(t, id, false)
    case None => Change(t, false)
    case Some(k) => Change(t[k := t[k].(deletedAt := Some(now))], true)
  }

  /** `undelete`: clears the mark of the first deleted row with `id`; fails when there is none. */
  function Undelete<D>(t: seq<Row<D>>, id: string): (c: Change<D>)
    ensures c.success <==> exists j :: 0 <= j < |t| && t[j].id == id && t[j].deletedAt.Some?
    ensures !c.success ==> c.table == t
    ensures c.success ==> exists k :: FirstWith(t, id, true, k) && c.table == t[k := t[k].(deletedAt := None)]
  {
    match Find(t, id, true)
    case None => Change(t, false)
    case Some(k) => Change(t[k := t[k].(deletedAt := None)], true)
  }

  /** `hardDelete`: removes the first row with `id`, deleted or not; fails when there is none. */
  function HardDelete<D>(t: seq<Row<D>>, id: string): (c: Change<D>)
    ensures c.success <==> exists j :: 0 <= j < |t| && t[j].id == id
    ensures !c.success ==> c.table == t
    ensures c.success ==> |c.table| == |t| - 1 && exists k :: FirstWithId(t, id, k) && c.table == t[..k] + t[k + 1..]
  {
    match Seqs.FirstIndex(t, (r: Row<D>) => r.id == id)
    case None => Change(t, false)
    case Some(k) => Change(t[..k] + t[k + 1..], true)
  }

  /** The id of every row, in table order. */
  function Ids<D>(t: seq<Row<D>>): (ids: seq<string>)
    ensures |ids| == |t| && forall k :: 0 <= k < |t| ==> ids[k] == t[k].id
  {
    seq(|t|, k requires 0 <= k < |t| => t[k].id)
  }

  /** Soft delete and undelete only touch the deletion mark: the ids stay as they were. */
  lemma MarkKeepsIds<D>(t: seq<Row<D>>, id: string, now: Time)
    ensures Ids(Delete(t, id, now).table) == Ids(t)
    ensures Ids(Undelete(t, id).table) == Ids(t)
  {
  }

  /** With unique ids, deleting an id a second time fails. */
  lemma SecondDeleteFails<D>(t: seq<Row<D>>, id: string, now: Time, later: Time)
    requires UniqueIds(t)
    ensures !Delete(Delete(t, id, now).table, id, later).success
  {
    var c := Delete(t, id, now);
    if c.success {
      var k :| FirstWith(t, id, false, k) && c.table == t[k := t[k].(deletedAt := Some(now))];
      forall j | 0 <= j < |c.table| && c.table[j].id == id ensures c.table[j].deletedAt.Some? {
        assert j == k;
      }
    }
  }

  /** With unique ids, undoing a successful delete restores the table exactly. */
  lemma UndeleteUndoesDelete<D>(t: seq<Row<D>>, id: string, now: Time)
    requires UniqueIds(t) && Delete(t, id, now).success
    ensures Undelete(Delete(t, id, now).table, id) == Change(t, true)
  {
    var c := Delete(t, id, now);
    var k :| FirstWith(t, id, false, k) && c.table == t[k := t[k].(deletedAt := Some(now))];
    assert c.table[k].id == id && c.table[k].deletedAt.Some?;
    var u := Undelete(c.table, id);
    var k' :| FirstWith(c.table, id, true, k') && u.table == c.table[k' := c.table[k'].(deletedAt := None)];
    assert t[k'].id == id;
    assert k' == k;
    assert u.table == t;
  }

  /** One step of a bulk operation. */
  function Apply<D>(t: seq<Row<D>>, id: string, step: Step): Change<D>
  {
    match step
    case Remove(at) => Delete(t, id, at)
    case Restore => Undelete(t, id)
  }

  /**
   * A bulk operation as the funds, contributions and children tables run it:
   * each id in order gets the single-record step; a success is counted and a
   * failure is reported with `reason`.
   */
  function Bulk<D>(t: seq<Row<D>>, ids: seq<string>, step: Step, reason: string): (r: (seq<Row<D>>, BulkReport))
    ensures r.1.success + |r.1.failed| == |ids|
    ensures |r.0| == |t|
    ensures forall k :: 0 <= k < |r.1.failed| ==> r.1.failed[k].id in ids && r.1.failed[k].reason == reason
  {
    if ids == [] then (t, BulkReport(0, []))
    else
      var (before, report) := Bulk(t, ids[..|ids| - 1], step, reason);
      var id := ids[|ids| - 1];
      var c := Apply(before, id, step);
      var next := if c.success then report.(success := report.success + 1)
                  else report.(failed := report.failed + [Failure(id, reason)]);
      (c.table, next)
  }

  /** A bulk run over one more id is the run over the others followed by that id's single step. */
  lemma BulkStep<D>(t: seq<Row<D>>, ids: seq<string>, id: string, step: Step, reason: string)
    ensures var (before, report) := Bulk(t, ids, step, reason);
            var c := Apply(before, id, step);
            Bulk(t, ids + [id], step, reason)
              == (c.table, if c.success then report.(success := report.success + 1)
                           else report.(failed := report.failed + [Failure(id, reason)]))
  {
    assert (ids + [id])[..|ids|] == ids;
  }

  /** No row with `id` is active. */
  predicate Inactive<D>(t: seq<Row<D>>, id: string)
  {
    forall j :: 0 <= j < |t| && t[j].id == id ==> t[j].deletedAt.Some?
  }

  /** The report lists `id` among its failures. */
  predicate Reported(report: BulkReport, id: string)
  {
    exists k :: 0 <= k < |report.failed| && report.failed[k].id == id
  }

  /**
   * With unique ids, a bulk delete over distinct ids keeps the ids unique, and a
   * requested id is reported failed exactly when none of its rows was active beforehand.
   */
  lemma {:induction false} BulkDeleteFailsOnlyInactive<D>(t: seq<Row<D>>, ids: seq<string>, now: Time, reason: string)
    requires UniqueIds(t) && Seqs.NoDuplicates(ids)
    ensures var (after, report) := Bulk(t, ids, Remove(now), reason);
            && UniqueIds(after) && Ids(after) == Ids(t)
            && (forall k :: 0 <= k < |report.failed| ==> Inactive(t, report.failed[k].id))
            && (forall id :: id in ids && Inactive(t, id) ==> Reported(report, id))
  {
    if ids != [] {
      var init := ids[..|ids| - 1];
      var id := ids[|ids| - 1];
      assert Seqs.NoDuplicates(init);
      BulkDeleteFailsOnlyInactive(t, init, now, reason);
      var (before, report) := Bulk(t, init, Remove(now), reason);
      assert id !in init;
      BulkUntouched(t, init, now, reason, id);
      assert ids == init + [id];
      BulkStep(t, init, id, Remove(now), reason);
      DeleteStepFacts(t, init, id, before, report, now, reason);
    }
  }

  /** The facts of `BulkDeleteFailsOnlyInactive` carry over one more delete of an id not requested before. */
  lemma DeleteStepFacts<D>(t: seq<Row<D>>, init: seq<string>, id: string, before: seq<Row<D>>, report: BulkReport,
                           now: Time, reason: string)
    requires UniqueIds(before) && Ids(before) == Ids(t)
    requires forall k :: 0 <= k < |report.failed| ==> Inactive(t, report.failed[k].id)
    requires forall x :: x in init && Inactive(t, x) ==> Reported(report, x)
    requires forall j :: 0 <= j < |t| && t[j].id == id ==> before[j] == t[j]
    ensures var c := Delete(before, id, now);
            var next := if c.success then report.(success := report.success + 1)
                        else report.(failed := report.failed + [Failure(id, reason)]);
            && UniqueIds(c.table) && Ids(c.table) == Ids(t)
            && (forall k :: 0 <= k < |next.failed| ==> Inactive(t, next.failed[k].id))
            && (forall x :: x in init + [id] && Inactive(t, x) ==> Reported(next, x))
  {
    var c := Delete(before, id, now);
    var next := if c.success then report.(success := report.success + 1)
                else report.(failed := report.failed + [Failure(id, reason)]);
    MarkKeepsIds(before, id, now);
    assert Ids(c.table) == Ids(before);
    assert UniqueIds(c.table) by {
      forall i, j | 0 <= i < j < |c.table| ensures c.table[i].id != c.table[j].id {
        assert Ids(c.table)[i] == Ids(before)[i] && Ids(c.table)[j] == Ids(before)[j];
      }
    }
    assert Inactive(before, id) <==> Inactive(t, id) by {
      forall j | 0 <= j < |t| ensures (before[j].id == id) == (t[j].id == id) {
        assert Ids(before)[j] == Ids(t)[j];
      }
    }
    forall x | x in init + [id] && Inactive(t, x) ensures Reported(next, x) {
      if x == id {
        assert next.failed[|next.failed| - 1].id == id;
      } else {
        assert x in init;
        var k :| 0 <= k < |report.failed| && report.failed[k].id == x;
        assert next.failed[k] == report.failed[k];
      }
    }
  }

  /** Rows whose id is not in the list are left exactly as they were. */
  lemma {:induction false} BulkUntouched<D>(t: seq<Row<D>>, ids: seq<string>, now: Time, reason: string, id: string)
    requires id !in ids
    ensures var after := Bulk(t, ids, Remove(now), reason).0;
            forall j :: 0 <= j < |t| && t[j].id == id ==> after[j] == t[j]
  {
    if ids != [] {
      var init := ids[..|ids| - 1];
      assert id != ids[|ids| - 1];
      assert id !in init;
      BulkUntouched(t, init, now, reason, id);
    }
  }

  /**
   * The household bulk operations as written: each single-record step is an
   * `async` call whose promise is tested for `.success` without being awaited,
   * so the step still runs but every id is reported failed.
   */
  function BulkAsWritten<D>(t: seq<Row<D>>, ids: seq<string>, step: Step, reason: string): (r: (seq<Row<D>>, BulkReport))
    ensures r.0 == Bulk(t, ids, step, reason).0
    ensures r.1.success == 0 && |r.1.failed| == |ids|
    ensures forall k :: 0 <= k < |ids| ==> r.1.failed[k] == Failure(ids[k], reason)
  {
    if ids == [] then (t, BulkReport(0, []))
    else
      var (before, report) := BulkAsWritten(t, ids[..|ids| - 1], step, reason);
      var id := ids[|ids| - 1];
      (Apply(before, id, step).table, BulkReport(0, report.failed + [Failure(id, reason)]))
  }

  /** A household that is deleted by the bulk call is still reported as failed, while the corrected count is one. */
  lemma HouseholdBulkMisreports()
    ensures var t := [Row("h1", None, 0)];
            var reason := "Household not found or already deleted";
            && BulkAsWritten(t, ["h1"], Remove(5), reason).0 == [Row("h1", Some(5), 0)]
            && BulkAsWritten(t, ["h1"], Remove(5), reason).1 == BulkReport(0, [Failure("h1", reason)])
            && Bulk(t, ["h1"], Remove(5), reason).1 == BulkReport(1, [])
  {
    var t := [Row("h1", None, 0)];
    assert FirstWith(t, "h1", false, 0);
    assert ["h1"][..0] == [];
  }
}
