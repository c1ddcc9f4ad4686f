/** The database: four tables that the repositories update in place. */
module Database {
  import opened Types
  import opened Statements

  class Database {
    var syncs: map<Id, Sync>
    var files: map<Id, File>
    var entities: map<EntityKey, Entity>
    var history: map<HistoryKey, Snapshot>

    constructor ()
      ensures Rows() == Tables(map[], map[], map[], map[])
    {
      syncs, files, entities, history := map[], map[], map[], map[];
    }

    function Rows(): Tables
      reads this
    {
      Tables(syncs, files, entities, history)
    }
  }
}
