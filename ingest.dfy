/** Reconciliation of a freshly loaded metadata store with the persisted IdP rows
    (`invenio_edugain/ingest.py`). */
module Ingest {
  import opened Base
  import opened JsonValues
  import opened StringOrder
  import opened Models

  /** What one ingestion run did, each list in ascending id order. */
  datatype IdPDataImportItem = IdPDataImportItem(
    addedIdpIds: seq<string>,
    unchangedIdpIds: seq<string>,
    updatedIdpIds: seq<string>)

  datatype Change = Added | Updated | Unchanged

  /** How an id of the metadata store, with its freshly parsed settings, relates to the rows. */
  function ChangeOf(rows: map<string, IdPData>, id: string, settings: Json): Change {
    if id !in rows then Added
    else if rows[id].settings != settings then Updated
    else Unchanged
  }

  /** The row stored for `id` after ingesting `settings` for it: a new row, or the old row with
      only its settings replaced. */
  function Upsert(rows: map<string, IdPData>, id: string, settings: Json): IdPData {
    if id in rows then rows[id].(settings := settings) else NewRow(id, settings)
  }

  /** The table after one ingestion run of the store `mds` (IdP id to settings). Ingestion deletes
      no row, leaves the rows of ids outside the store as they are, and writes no column other
      than `settings` of an existing row. */
  function Reconciled(rows: map<string, IdPData>, mds: map<string, Json>): (r: map<string, IdPData>)
    ensures r.Keys == rows.Keys + mds.Keys
    ensures forall id | id in rows && id !in mds :: r[id] == rows[id]
    ensures forall id | id in rows :: r[id].(settings := rows[id].settings) == rows[id]
    ensures forall id | id in mds :: r[id].settings == mds[id]
  {
    map id | id in rows.Keys + mds.Keys :: if id in mds then Upsert(rows, id, mds[id]) else rows[id]
  }

  /** The report after visiting the ids of `ids` one after the other. */
  function ReportOf(rows: map<string, IdPData>, mds: map<string, Json>, ids: seq<string>): IdPDataImportItem
    requires forall id | id in ids :: id in mds
    decreases |ids|
  {
    if ids == [] then IdPDataImportItem([], [], [])
    else
      var r, id := ReportOf(rows, mds, ids[..|ids| - 1]), ids[|ids| - 1];
      match ChangeOf(rows, id, mds[id])
      case Added => r.(addedIdpIds := r.addedIdpIds + [id])
      case Unchanged => r.(unchangedIdpIds := r.unchangedIdpIds + [id])
      case Updated => r.(updatedIdpIds := r.updatedIdpIds + [id])
  }

  /** The report of one ingestion run. */
  function Report(rows: map<string, IdPData>, mds: map<string, Json>): IdPDataImportItem {
    ReportOf(rows, mds, SortedSet(mds.Keys))
  }

  /** The table after upserting the ids of `ids` one after the other. */
  function UpsertAll(rows: map<string, IdPData>, mds: map<string, Json>, ids: seq<string>): map<string, IdPData>
    requires forall id | id in ids :: id in mds
    decreases |ids|
  {
    if ids == [] then rows
    else
      var last := ids[|ids| - 1];
      UpsertAll(rows, mds, ids[..|ids| - 1])[last := Upsert(rows, last, mds[last])]
  }

  lemma {:induction false} UpsertAllAt(rows: map<string, IdPData>, mds: map<string, Json>, ids: seq<string>)
    requires forall id | id in ids :: id in mds
    ensures UpsertAll(rows, mds, ids).Keys == rows.Keys + set id | id in ids
    ensures forall id | id in UpsertAll(rows, mds, ids) ::
      UpsertAll(rows, mds, ids)[id] == if id in ids then Upsert(rows, id, mds[id]) else rows[id]
    decreases |ids|
  {
    if ids != [] {
      var init := ids[..|ids| - 1];
      UpsertAllAt(rows, mds, init);
      assert ids == init + [ids[|ids| - 1]];
    }
  }

  lemma UpsertAllReconciles(rows: map<string, IdPData>, mds: map<string, Json>, ids: seq<string>)
    requires forall id :: id in ids <==> id in mds
    ensures UpsertAll(rows, mds, ids) == Reconciled(rows, mds)
  {
    UpsertAllAt(rows, mds, ids);
    var a, b := UpsertAll(rows, mds, ids), Reconciled(rows, mds);
    assert a.Keys == b.Keys;
    forall id | id in a ensures a[id] == b[id] { }
  }

  lemma ReconciledValid(rows: map<string, IdPData>, mds: map<string, Json>)
    requires forall id | id in rows :: rows[id].id == id
    ensures forall id | id in Reconciled(rows, mds) :: Reconciled(rows, mds)[id].id == id
  {
  }

  /** One iteration of the ingestion loop: the table after visiting `ids[i]`. */
  lemma UpsertStep(rows: map<string, IdPData>, mds: map<string, Json>, ids: seq<string>, i: nat)
    requires i < |ids| && forall id | id in ids :: id in mds
    ensures UpsertAll(rows, mds, ids[..i + 1]) == UpsertAll(rows, mds, ids[..i])[ids[i] := Upsert(rows, ids[i], mds[ids[i]])]
  {
    assert ids[..i + 1][..i] == ids[..i];
  }

  /** One iteration of the ingestion loop: the report after visiting `ids[i]`. */
  lemma ReportStep(rows: map<string, IdPData>, mds: map<string, Json>, ids: seq<string>, i: nat)
    requires i < |ids| && forall id | id in ids :: id in mds
    ensures ReportOf(rows, mds, ids[..i + 1]) == 
      var r, id := ReportOf(rows, mds, ids[..i]), ids[i];
      match ChangeOf(rows, id, mds[id])
      case Added => r.(addedIdpIds := r.addedIdpIds + [id])
      case Unchanged => r.(unchangedIdpIds := r.unchangedIdpIds + [id])
      case Updated => r.(updatedIdpIds := r.updatedIdpIds + [id])
  {
    assert ids[..i + 1][..i] == ids[..i];
  }

  /** `from_mdstore`: visits the store's ids in ascending order, overwrites changed settings in
      place, creates rows for new ids and reports each id as added, updated or unchanged. */
  method FromMdstore(db: IdPTable, mds: map<string, Json>) returns (item: IdPDataImportItem)
    requires db.Valid()
    modifies db
    ensures db.Valid()
    ensures db.rows == Reconciled(old(db.rows), mds)
    ensures item == Report(old(db.rows), mds)
  {
    var idpIds := SortedSet(mds.Keys);
    item := IngestIds(db, mds, idpIds);
  }

  /** The loop of `from_mdstore`, over the ids in the order given. */
  method IngestIds(db: IdPTable, mds: map<string, Json>, idpIds: seq<string>) returns (item: IdPDataImportItem)
    requires db.Valid()
    requires forall id :: id in idpIds <==> id in mds
    modifies db
    ensures db.Valid()
    ensures db.rows == Reconciled(old(db.rows), mds)
    ensures item == ReportOf(old(db.rows), mds, idpIds)
  {
    var existing := db.rows;
    var addedIds, unchangedIds, updatedIds := [], [], [];
    var i := 0;
    while i < |idpIds|
      invariant 0 <= i <= |idpIds|
      invariant db.rows == UpsertAll(existing, mds, idpIds[..i])
      invariant IdPDataImportItem(addedIds, unchangedIds, updatedIds) == ReportOf(existing, mds, idpIds[..i])
    {
      var idpId := idpIds[i];
      var settings := mds[idpId];
      var row;
      if idpId in existing {
        row := existing[idpId];
        if row.settings != settings {
          row := row.(settings := settings);
          updatedIds := updatedIds + [idpId];
        } else {
          unchangedIds := unchangedIds + [idpId];
        }
      } else {
        row := NewRow(idpId, settings);
        addedIds := addedIds + [idpId];
      }
      db.rows := db.rows[idpId := row];
      UpsertStep(existing, mds, idpIds, i);
      ReportStep(existing, mds, idpIds, i);
      i := i + 1;
    }
    assert idpIds[..i] == idpIds;
    UpsertAllReconciles(existing, mds, idpIds);
    ReconciledValid(existing, mds);
    item := IdPDataImportItem(addedIds, unchangedIds, updatedIds);
  }

  lemma {:induction false} ReportOfMembers(rows: map<string, IdPData>, mds: map<string, Json>, ids: seq<string>, id: string)
    requires forall x | x in ids :: x in mds
    ensures id in ReportOf(rows, mds, ids).addedIdpIds <==> id in ids && ChangeOf(rows, id, mds[id]) == Added
    ensures id in ReportOf(rows, mds, ids).unchangedIdpIds <==> id in ids && ChangeOf(rows, id, mds[id]) == Unchanged
    ensures id in ReportOf(rows, mds, ids).updatedIdpIds <==> id in ids && ChangeOf(rows, id, mds[id]) == Updated
    decreases |ids|
  {
    if ids != [] {
      var init := ids[..|ids| - 1];
      ReportOfMembers(rows, mds, init, id);
      assert ids == init + [ids[|ids| - 1]];
    }
  }

  lemma {:induction false} ReportOfSorted(rows: map<string, IdPData>, mds: map<string, Json>, ids: seq<string>)
    requires forall x | x in ids :: x in mds
    requires StrictlySorted(ids)
    ensures StrictlySorted(ReportOf(rows, mds, ids).addedIdpIds)
    ensures StrictlySorted(ReportOf(rows, mds, ids).unchangedIdpIds)
    ensures StrictlySorted(ReportOf(rows, mds, ids).updatedIdpIds)
    decreases |ids|
  {
    if ids != [] {
      var init, last := ids[..|ids| - 1], ids[|ids| - 1];
      ReportOfSorted(rows, mds, init);
      forall x | x in init ensures Less(x, last) {
        var k :| 0 <= k < |init| && init[k] == x;
      }
      var r := ReportOf(rows, mds, init);
      forall x | x in r.addedIdpIds || x in r.unchangedIdpIds || x in r.updatedIdpIds ensures Less(x, last) {
        ReportOfMembers(rows, mds, init, x);
      }
    }
  }

  lemma {:induction false} ReportOfCount(rows: map<string, IdPData>, mds: map<string, Json>, ids: seq<string>)
    requires forall x | x in ids :: x in mds
    ensures var r := ReportOf(rows, mds, ids);
      |r.addedIdpIds| + |r.unchangedIdpIds| + |r.updatedIdpIds| == |ids|
    decreases |ids|
  {
    if ids != [] { ReportOfCount(rows, mds, ids[..|ids| - 1]); }
  }

  /** The three lists of a report are ascending and partition the ids of the store: every id of
      the store is in exactly one of them, and nothing else is in any. */
  lemma ReportPartitions(rows: map<string, IdPData>, mds: map<string, Json>)
    ensures var r := Report(rows, mds);
      && StrictlySorted(r.addedIdpIds) && StrictlySorted(r.unchangedIdpIds) && StrictlySorted(r.updatedIdpIds)
      && |r.addedIdpIds| + |r.unchangedIdpIds| + |r.updatedIdpIds| == |mds|
      && (forall id :: id in mds <==> id in r.addedIdpIds || id in r.unchangedIdpIds || id in r.updatedIdpIds)
      && (forall id | id in r.addedIdpIds :: id !in r.unchangedIdpIds && id !in r.updatedIdpIds)
      && (forall id | id in r.unchangedIdpIds :: id !in r.updatedIdpIds)
  {
    var ids := SortedSet(mds.Keys);
    ReportOfSorted(rows, mds, ids);
    ReportOfCount(rows, mds, ids);
    assert |mds| == |mds.Keys|;
    forall id ensures (id in mds <==> id in Report(rows, mds).addedIdpIds || id in Report(rows, mds).unchangedIdpIds || id in Report(rows, mds).updatedIdpIds)
      && (id in Report(rows, mds).addedIdpIds ==> id !in Report(rows, mds).unchangedIdpIds && id !in Report(rows, mds).updatedIdpIds)
      && (id in Report(rows, mds).unchangedIdpIds ==> id !in Report(rows, mds).updatedIdpIds)
    {
      ReportOfMembers(rows, mds, ids, id);
    }
  }

  /** What one run does to the row of an id of the store, and how it reports that id. */
  lemma ReconcileEffect(rows: map<string, IdPData>, mds: map<string, Json>, id: string)
    requires id in mds
    ensures id in Reconciled(rows, mds)
    ensures id !in rows ==>
      id in Report(rows, mds).addedIdpIds && Reconciled(rows, mds)[id] == NewRow(id, mds[id])
    ensures id in rows && rows[id].settings != mds[id] ==>
      id in Report(rows, mds).updatedIdpIds && Reconciled(rows, mds)[id] == rows[id].(settings := mds[id])
    ensures id in rows && rows[id].settings == mds[id] ==>
      id in Report(rows, mds).unchangedIdpIds && Reconciled(rows, mds)[id] == rows[id]
  {
    ReportOfMembers(rows, mds, SortedSet(mds.Keys), id);
  }

  /** The report of `ids` is the report of all but the last id, with the last id added to the
      list its change belongs to. */
  lemma ReportOfStep(rows: map<string, IdPData>, mds: map<string, Json>, ids: seq<string>)
    requires ids != [] && forall x | x in ids :: x in mds
    ensures var r, last := ReportOf(rows, mds, ids[..|ids| - 1]), ids[|ids| - 1];
      ReportOf(rows, mds, ids) == match ChangeOf(rows, last, mds[last])
        case Added => r.(addedIdpIds := r.addedIdpIds + [last])
        case Unchanged => r.(unchangedIdpIds := r.unchangedIdpIds + [last])
        case Updated => r.(updatedIdpIds := r.updatedIdpIds + [last])
  {
  }

  lemma {:induction false} ReportOfAllUnchanged(rows: map<string, IdPData>, mds: map<string, Json>, ids: seq<string>)
    requires forall x | x in ids :: x in mds
    requires forall k | 0 <= k < |ids| :: ChangeOf(rows, ids[k], mds[ids[k]]) == Unchanged
    ensures ReportOf(rows, mds, ids) == IdPDataImportItem([], ids, [])
    decreases |ids|
  {
    if ids != [] {
      var init, last := ids[..|ids| - 1], ids[|ids| - 1];
      assert forall k | 0 <= k < |init| :: init[k] == ids[k];
      ReportOfAllUnchanged(rows, mds, init);
      assert ChangeOf(rows, last, mds[last]) == Unchanged;
      ReportOfStep(rows, mds, ids);
      assert init + [last] == ids;
      assert ReportOf(rows, mds, ids) == IdPDataImportItem([], init + [last], []);
    }
  }

  lemma {:induction false} ReportOfAllAdded(rows: map<string, IdPData>, mds: map<string, Json>, ids: seq<string>)
    requires forall x | x in ids :: x in mds
    requires forall k | 0 <= k < |ids| :: ChangeOf(rows, ids[k], mds[ids[k]]) == Added
    ensures ReportOf(rows, mds, ids) == IdPDataImportItem(ids, [], [])
    decreases |ids|
  {
    if ids != [] {
      var init, last := ids[..|ids| - 1], ids[|ids| - 1];
      assert forall k | 0 <= k < |init| :: init[k] == ids[k];
      ReportOfAllAdded(rows, mds, init);
      assert ChangeOf(rows, last, mds[last]) == Added;
      ReportOfStep(rows, mds, ids);
      assert init + [last] == ids;
      assert ReportOf(rows, mds, ids) == IdPDataImportItem(init + [last], [], []);
    }
  }

  /** Ingesting into an empty table adds every id of the store and updates none. */
  lemma IngestIntoEmpty(mds: map<string, Json>)
    ensures Report(map[], mds) == IdPDataImportItem(SortedSet(mds.Keys), [], [])
  {
    ReportOfAllAdded(map[], mds, SortedSet(mds.Keys));
  }

  /** Ingesting the same store a second time adds and updates nothing: every id is unchanged. */
  lemma IngestTwice(rows: map<string, IdPData>, mds: map<string, Json>)
    ensures Report(Reconciled(rows, mds), mds) == IdPDataImportItem([], SortedSet(mds.Keys), [])
  {
    var rows1 := Reconciled(rows, mds);
    forall x | x in mds ensures ChangeOf(rows1, x, mds[x]) == Unchanged {
      ReconcileEffect(rows, mds, x);
    }
    ReportOfAllUnchanged(rows1, mds, SortedSet(mds.Keys));
  }
}
