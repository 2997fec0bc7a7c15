/** The persisted table of identity providers ("edugain_idp_data"). */
module Models {
  import opened JsonValues
  import opened Base

  /** One row. `displayname` and `logoUrl` are `None` on rows that ingestion created, since
      ingestion never derives them; `discoverable` is the flag the admin commands and the
      discovery feed use. */
  datatype IdPData = IdPData(
    id: string,
    displayname: Option<string>,
    enabled: bool,
    logoUrl: Option<string>,
    settings: Json,
    discoverable: bool)

  /** A row as the ORM creates it from only an id and settings: column defaults apply. */
  function NewRow(id: string, settings: Json): (row: IdPData)
    ensures row.id == id && row.settings == settings
    ensures !row.enabled && row.discoverable
  {
    IdPData(id, None, false, None, settings, true)
  }

  /** The table, keyed by primary key. */
  class IdPTable {
    var rows: map<string, IdPData>

    ghost predicate Valid()
      reads this
    {
      forall id | id in rows :: rows[id].id == id
    }

    constructor (initial: map<string, IdPData>)
      requires forall id | id in initial :: initial[id].id == id
      ensures Valid() && rows == initial
    {
      rows := initial;
    }
  }
}
