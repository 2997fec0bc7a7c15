/** The administration commands: `manage` switches IdPs on and off and in and out of the
    discovery feed, `search` finds IdPs by their metadata, and the loader they read the table
    with (`invenio_edugain/cli.py`). */
module Cli {
  import opened Base
  import opened JsonValues
  import opened StringOrder
  import opened Models

  // ---------------------------------------------------------------------------------------------
  // MetadataLoader

  /** The settings of every row. */
  function AllSettings(rows: map<string, IdPData>): (r: map<string, Json>)
    ensures r.Keys == rows.Keys
    ensures forall id | id in r :: r[id] == rows[id].settings
  {
    map id | id in rows :: rows[id].settings
  }

  /** A metadata source over the whole table, enabled or not, that also keeps each row. */
  class MetadataLoader {
    var entity: map<string, Json>
    var idpData: map<string, IdPData>

    constructor ()
      ensures entity == map[] && idpData == map[]
    {
      entity := map[];
      idpData := map[];
    }

    /** `load`: the settings and the columns of every row, in whatever order the database yields
        them. */
    method Load(db: IdPTable)
      modifies this
      ensures entity == old(entity) + AllSettings(db.rows)
      ensures idpData == old(idpData) + db.rows
    {
      var todo := db.rows.Keys;
      while todo != {}
        invariant todo <= db.rows.Keys
        invariant entity == old(entity) + AllSettings(Restrict(db.rows, db.rows.Keys - todo))
        invariant idpData == old(idpData) + Restrict(db.rows, db.rows.Keys - todo)
        decreases todo
      {
        var id :| id in todo;
        entity := entity[id := db.rows[id].settings];
        idpData := idpData[id := db.rows[id]];
        todo := todo - {id};
      }
      assert Restrict(db.rows, db.rows.Keys - todo) == db.rows;
    }
  }

  /** The rows of the ids in `ids`. */
  function Restrict(rows: map<string, IdPData>, ids: set<string>): (r: map<string, IdPData>)
    ensures r.Keys == rows.Keys * ids
    ensures forall id | id in r :: r[id] == rows[id]
  {
    map id | id in rows && id in ids :: rows[id]
  }

  // ---------------------------------------------------------------------------------------------
  // search

  /** What the metadata says about one IdP: its mdui display names, its name and, per mdui
      `<UIInfo>`, the texts of its keywords. */
  datatype IdPMetadata = IdPMetadata(displayNames: seq<string>, name: Option<string>, uiinfoKeywords: seq<seq<string>>)

  /** The texts an IdP is matched on besides its id: display names, then its name when it has a
      non-empty one, then its keywords. */
  function MatchCandidates(md: IdPMetadata): (r: seq<string>)
    ensures forall x :: x in r <==>
      || x in md.displayNames
      || (md.name.Some? && md.name.value != "" && x == md.name.value)
      || exists i | 0 <= i < |md.uiinfoKeywords| :: x in md.uiinfoKeywords[i]
  {
    md.displayNames + (if md.name.Some? && md.name.value != "" then [md.name.value] else []) + Concat(md.uiinfoKeywords)
  }

  /** Whether the pattern (`matches`, a case-insensitive regular-expression search) finds the IdP. */
  predicate Selected(id: string, metadataOf: string -> IdPMetadata, matches: string -> bool) {
    matches(id) || exists c | c in MatchCandidates(metadataOf(id)) :: matches(c)
  }

  function SelectedBy(metadataOf: string -> IdPMetadata, matches: string -> bool): string -> bool {
    id => Selected(id, metadataOf, matches)
  }

  /** One search result: the IdP's row and the texts it was matched on. */
  datatype SearchMatch = SearchMatch(id: string, row: IdPData, matchInfo: seq<string>)

  function Ids(hits: seq<SearchMatch>): (r: seq<string>)
    ensures |r| == |hits| && forall k | 0 <= k < |hits| :: r[k] == hits[k].id
  {
    seq(|hits|, k requires 0 <= k < |hits| => hits[k].id)
  }

  /** A result for `id` as `search` builds it. */
  predicate IsMatchFor(h: SearchMatch, rows: map<string, IdPData>, metadataOf: string -> IdPMetadata) {
    h.id in rows && h.row == rows[h.id] && h.matchInfo == MatchCandidates(metadataOf(h.id))
  }

  /** `search` up to printing: the IdPs of `idps` that the pattern finds, in ascending id order.
      `rows` are the loader's rows and `metadataOf` the metadata store's view of an IdP. */
  method Search(rows: map<string, IdPData>, idps: set<string>, metadataOf: string -> IdPMetadata, matches: string -> bool)
    returns (hits: seq<SearchMatch>)
    requires idps <= rows.Keys
    ensures StrictlySorted(Ids(hits))
    ensures forall id :: id in Ids(hits) <==> id in idps && Selected(id, metadataOf, matches)
    ensures forall h | h in hits :: IsMatchFor(h, rows, metadataOf)
  {
    var sortedIds := SortedSet(idps);
    hits := SearchIds(rows, sortedIds, metadataOf, matches);
    FilterKeepsSorted(sortedIds, SelectedBy(metadataOf, matches));
  }

  /** The loop of `search`, over the ids in the order given. */
  method SearchIds(rows: map<string, IdPData>, ids: seq<string>, metadataOf: string -> IdPMetadata, matches: string -> bool)
    returns (hits: seq<SearchMatch>)
    requires forall id | id in ids :: id in rows
    ensures Ids(hits) == Filter(ids, SelectedBy(metadataOf, matches))
    ensures forall h | h in hits :: IsMatchFor(h, rows, metadataOf)
  {
    hits := [];
    ghost var selected := SelectedBy(metadataOf, matches);
    for i := 0 to |ids|
      invariant Ids(hits) == Filter(ids[..i], selected)
      invariant forall h | h in hits :: IsMatchFor(h, rows, metadataOf)
    {
      var idpId := ids[i];
      var matchCandidates := MatchCandidates(metadataOf(idpId));
      FilterStep(ids, i, selected);
      if matches(idpId) || exists dn | dn in matchCandidates :: matches(dn) {
        assert selected(idpId);
        var hit := SearchMatch(idpId, rows[idpId], matchCandidates);
        IdsSnoc(hits, hit);
        hits := hits + [hit];
      } else {
        assert !selected(idpId);
      }
    }
    assert ids[..|ids|] == ids;
  }

  lemma FilterStep(ids: seq<string>, i: nat, p: string -> bool)
    requires i < |ids|
    ensures Filter(ids[..i + 1], p) == Filter(ids[..i], p) + (if p(ids[i]) then [ids[i]] else [])
  {
    assert ids[..i + 1][..i] == ids[..i];
  }

  lemma IdsSnoc(hits: seq<SearchMatch>, hit: SearchMatch)
    ensures Ids(hits + [hit]) == Ids(hits) + [hit.id]
  {
  }

  // ---------------------------------------------------------------------------------------------
  // manage

  datatype Flags = Flags(disable: bool, enable: bool, hide: bool, show: bool)

  /** A misuse of `manage`, reported before the table is read. */
  datatype UsageError = NoIdpIds | EnableConflict | VisibilityConflict | NoAction

  function UsageMessage(e: UsageError): string {
    match e
    case NoIdpIds => "supply at least one idp-id to change"
    case EnableConflict => "--disable and --enable are mutually exclusive"
    case VisibilityConflict => "--hide and --show are mutually exclusive"
    case NoAction => "command would have no effect, choose at least one action out of --disable, --enable, --hide, --show"
  }

  /** The position of each check in `manage`. */
  function Rank(e: UsageError): nat {
    match e
    case NoIdpIds => 0
    case EnableConflict => 1
    case VisibilityConflict => 2
    case NoAction => 3
  }

  /** Every misuse of `manage` at once, in the order the checks are made. */
  function UsageErrors(idpIds: seq<string>, flags: Flags): (r: seq<UsageError>)
    ensures NoIdpIds in r <==> idpIds == []
    ensures EnableConflict in r <==> flags.disable && flags.enable
    ensures VisibilityConflict in r <==> flags.hide && flags.show
    ensures NoAction in r <==> !(flags.disable || flags.enable || flags.hide || flags.show)
    ensures forall i, j | 0 <= i < j < |r| :: Rank(r[i]) < Rank(r[j])
  {
    (if idpIds == [] then [NoIdpIds] else [])
    + (if flags.disable && flags.enable then [EnableConflict] else [])
    + (if flags.hide && flags.show then [VisibilityConflict] else [])
    + (if !(flags.disable || flags.enable || flags.hide || flags.show) then [NoAction] else [])
  }

  /** The row after the requested actions, in the order `manage` takes them. */
  function Applied(row: IdPData, flags: Flags): (r: IdPData)
    ensures r.(enabled := row.enabled, discoverable := row.discoverable) == row
  {
    var enabled := if flags.enable then true else if flags.disable then false else row.enabled;
    var discoverable := if flags.show then true else if flags.hide then false else row.discoverable;
    row.(enabled := enabled, discoverable := discoverable)
  }

  /** The table after `manage` applied `flags` to the rows of `ids`. */
  function Managed(rows: map<string, IdPData>, ids: seq<string>, flags: Flags): (r: map<string, IdPData>)
    ensures r.Keys == rows.Keys
  {
    map id | id in rows :: if id in ids then Applied(rows[id], flags) else rows[id]
  }

  /** The ids of `ids` whose row the actions change. */
  function ChangedIds(rows: map<string, IdPData>, ids: seq<string>, flags: Flags): (r: set<string>)
    ensures forall id :: id in r <==> id in ids && id in rows && Applied(rows[id], flags) != rows[id]
  {
    set id | id in ids && id in rows && Applied(rows[id], flags) != rows[id]
  }

  /** The given ids that name no row. */
  function UnknownIds(rows: map<string, IdPData>, ids: seq<string>): (r: set<string>)
    ensures forall id :: id in r <==> id in ids && id !in rows
  {
    (set id | id in ids) - rows.Keys
  }

  /** How `manage` ends: exit status 2 with every misuse, exit status 1 with the unknown ids in
      ascending order, or success with the ids whose row changed. */
  datatype ManageResult =
    | UsageFailure(errors: seq<UsageError>)
    | UnknownIdpIds(unknown: seq<string>)
    | Done(updatedIds: set<string>)

  function ExitCode(r: ManageResult): int {
    match r
    case UsageFailure(_) => 2
    case UnknownIdpIds(_) => 1
    case Done(_) => 0
  }

  lemma AppliedIdempotent(row: IdPData, flags: Flags)
    ensures Applied(Applied(row, flags), flags) == Applied(row, flags)
  {
  }

  /** `manage`: validates the arguments, rejects unknown ids, then applies the actions to the
      named rows and reports the ids whose row changed (their number is what it prints). */
  method Manage(db: IdPTable, idpIds: seq<string>, flags: Flags) returns (result: ManageResult)
    requires db.Valid()
    modifies db
    ensures db.Valid()
    ensures UsageErrors(idpIds, flags) != [] ==>
      result == UsageFailure(UsageErrors(idpIds, flags)) && db.rows == old(db.rows)
    ensures UsageErrors(idpIds, flags) == [] && UnknownIds(old(db.rows), idpIds) != {} ==>
      result == UnknownIdpIds(SortedSet(UnknownIds(old(db.rows), idpIds))) && db.rows == old(db.rows)
    ensures UsageErrors(idpIds, flags) == [] && UnknownIds(old(db.rows), idpIds) == {} ==>
      result == Done(ChangedIds(old(db.rows), idpIds, flags)) && db.rows == Managed(old(db.rows), idpIds, flags)
  {
    var errorMsgs := UsageErrors(idpIds, flags);
    if errorMsgs != [] {
      return UsageFailure(errorMsgs);
    }
    var unknownIds := UnknownIds(db.rows, idpIds);
    if unknownIds != {} {
      return UnknownIdpIds(SortedSet(unknownIds));
    }
    var updatedIds := ApplyFlags(db, idpIds, flags);
    return Done(updatedIds);
  }

  /** The update loop of `manage`, over the ids as given (an id may be given twice). */
  method ApplyFlags(db: IdPTable, idpIds: seq<string>, flags: Flags) returns (updatedIds: set<string>)
    requires db.Valid()
    requires forall id | id in idpIds :: id in db.rows
    requires !(flags.disable && flags.enable) && !(flags.hide && flags.show)
    modifies db
    ensures db.Valid()
    ensures db.rows == Managed(old(db.rows), idpIds, flags)
    ensures updatedIds == ChangedIds(old(db.rows), idpIds, flags)
  {
    ghost var rows := db.rows;
    updatedIds := {};
    for i := 0 to |idpIds|
      invariant db.Valid()
      invariant db.rows == Managed(rows, idpIds[..i], flags)
      invariant updatedIds == ChangedIds(rows, idpIds[..i], flags)
    {
      var idpId := idpIds[i];
      ManageStep(rows, idpIds, i, flags);
      var idpData, changed := ApplyToRow(db.rows[idpId], flags);
      if changed {
        updatedIds := updatedIds + {idpId};
      }
      db.rows := db.rows[idpId := idpData];
    }
    assert idpIds[..|idpIds|] == idpIds;
  }

  /** The actions of `manage` on one row, and whether any of them flipped a flag. */
  method ApplyToRow(row: IdPData, flags: Flags) returns (idpData: IdPData, changed: bool)
    requires !(flags.disable && flags.enable) && !(flags.hide && flags.show)
    ensures idpData == Applied(row, flags)
    ensures changed <==> Flips(row, flags)
  {
    idpData := row;
    changed := false;
    if flags.disable && idpData.enabled {
      idpData := idpData.(enabled := false);
      changed := true;
    }
    if flags.enable && !idpData.enabled {
      idpData := idpData.(enabled := true);
      changed := true;
    }
    if flags.hide && idpData.discoverable {
      idpData := idpData.(discoverable := false);
      changed := true;
    }
    if flags.show && !idpData.discoverable {
      idpData := idpData.(discoverable := true);
      changed := true;
    }
  }

  /** Whether one of the actions finds its flag of `row` still to be flipped. */
  predicate Flips(row: IdPData, flags: Flags) {
    || (flags.disable && row.enabled) || (flags.enable && !row.enabled)
    || (flags.hide && row.discoverable) || (flags.show && !row.discoverable)
  }

  /** With consistent actions, an action flips a flag exactly when it changes the row. */
  lemma FlipsIffChanges(row: IdPData, flags: Flags)
    requires !(flags.disable && flags.enable) && !(flags.hide && flags.show)
    ensures Flips(row, flags) <==> Applied(row, flags) != row
  {
    if (flags.disable && row.enabled) || (flags.enable && !row.enabled) {
      assert Applied(row, flags).enabled != row.enabled;
    }
    if (flags.hide && row.discoverable) || (flags.show && !row.discoverable) {
      assert Applied(row, flags).discoverable != row.discoverable;
    }
  }

  /** One more id handled by the loop of `manage`: its row gets the actions applied once more,
      and it counts as updated when that flips a flag. */
  lemma ManageStep(rows: map<string, IdPData>, ids: seq<string>, i: nat, flags: Flags)
    requires i < |ids| && ids[i] in rows
    requires !(flags.disable && flags.enable) && !(flags.hide && flags.show)
    ensures var cur := Managed(rows, ids[..i], flags);
      && Managed(rows, ids[..i + 1], flags) == cur[ids[i] := Applied(cur[ids[i]], flags)]
      && ChangedIds(rows, ids[..i + 1], flags)
         == ChangedIds(rows, ids[..i], flags) + (if Flips(cur[ids[i]], flags) then {ids[i]} else {})
  {
    var id := ids[i];
    assert ids[..i + 1] == ids[..i] + [id];
    AppliedIdempotent(rows[id], flags);
    FlipsIffChanges(Managed(rows, ids[..i], flags)[id], flags);
  }

  /** After a successful `manage`, every named IdP is as the actions ask and every other row is as
      it was; only the two flags of a named row can change. */
  lemma ManagedSatisfiesFlags(rows: map<string, IdPData>, ids: seq<string>, flags: Flags, id: string)
    requires UsageErrors(ids, flags) == [] && id in rows
    ensures id !in ids ==> Managed(rows, ids, flags)[id] == rows[id]
    ensures id in ids ==>
      var r := Managed(rows, ids, flags)[id];
      && (flags.enable ==> r.enabled) && (flags.disable ==> !r.enabled)
      && (flags.show ==> r.discoverable) && (flags.hide ==> !r.discoverable)
      && (!flags.enable && !flags.disable ==> r.enabled == rows[id].enabled)
      && (!flags.show && !flags.hide ==> r.discoverable == rows[id].discoverable)
      && r.(enabled := rows[id].enabled, discoverable := rows[id].discoverable) == rows[id]
  {
  }

  /** An id is reported as updated exactly when one of the requested actions flips a flag of its
      row. */
  lemma ChangedIdsExact(rows: map<string, IdPData>, ids: seq<string>, flags: Flags, id: string)
    requires UsageErrors(ids, flags) == [] && id in rows
    ensures id in ChangedIds(rows, ids, flags) <==> id in ids && Flips(rows[id], flags)
  {
    FlipsIffChanges(rows[id], flags);
  }

  /** Running the same `manage` twice changes nothing the second time. */
  lemma ManageTwice(rows: map<string, IdPData>, ids: seq<string>, flags: Flags)
    ensures Managed(Managed(rows, ids, flags), ids, flags) == Managed(rows, ids, flags)
    ensures ChangedIds(Managed(rows, ids, flags), ids, flags) == {}
  {
    forall id | id in rows && id in ids
      ensures Applied(Managed(rows, ids, flags)[id], flags) == Managed(rows, ids, flags)[id]
    {
      AppliedIdempotent(rows[id], flags);
    }
  }
}
