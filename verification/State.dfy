/** The state store: what was last applied for each target, in memory and on disk. */
module State {
  import opened Text

  datatype Entry = Entry(hash: string, fingerprint: string, appliedAt: int)

  type Entries = map<string, Entry>

  class Store {
    var entries: Entries
    var disk: Entries

    /** Load: what the disk holds. */
    constructor (disk: Entries)
      ensures entries == disk && this.disk == disk
    {
      entries := disk;
      this.disk := disk;
    }

    function Get(id: string): (r: Option<Entry>)
      reads this
      ensures r == if id in entries then Some(entries[id]) else None
    {
      if id in entries then Some(entries[id]) else None
    }

    /** The entry counts in memory even if it cannot be saved. */
    method Record(id: string, e: Entry) returns (ok: bool)
      modifies this
      ensures entries == old(entries)[id := e]
      ensures disk == if ok then entries else old(disk)
    {
      entries := entries[id := e];
      ok := Save();
    }

    /** Nothing is saved for a target without an entry. */
    method Forget(id: string) returns (ok: bool)
      modifies this
      ensures entries == old(entries) - {id}
      ensures id !in old(entries) ==> ok && disk == old(disk)
      ensures id in old(entries) ==> disk == if ok then entries else old(disk)
    {
      if id !in entries {
        assert entries - {id} == entries;
        return true;
      }
      entries := entries - {id};
      ok := Save();
    }

    /** An atomic write: all or nothing. */
    method Save() returns (ok: bool)
      modifies this`disk
      ensures disk == if ok then entries else old(disk)
    {
      ok := *;
      if ok {
        disk := entries;
      }
    }
  }
}
