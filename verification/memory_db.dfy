/** `MemoryDB`, the in-memory implementation of the `Database` interface
    (store.go; memorydb.go holds an identical copy). A Go map becomes a Dafny
    map, and each mutating method returns the updated table. */
module MemoryDB {
  import opened Base
  import opened PasteRecord
  import PathGen

  type DB = map<string, Paste>

  /** `Get`: the stored paste and no error, or the zero paste and `ErrDatabaseNotFound`. */
  function Get(db: DB, name: string): (r: (Paste, Option<Error>))
    ensures r.1 == None <==> name in db
    ensures name in db ==> r.0 == db[name]
    ensures name !in db ==> r == (ZeroPaste, Some(DatabaseNotFound))
  {
    if name in db then (db[name], None) else (ZeroPaste, Some(DatabaseNotFound))
  }

  /** `Store`: an unconditional upsert that never fails; every other name reads as before. */
  function Store(db: DB, name: string, value: Paste): (r: (DB, Option<Error>))
    ensures r.1 == None
    ensures Get(r.0, name) == (value, None)
    ensures forall k :: k != name ==> Get(r.0, k) == Get(db, k)
    ensures r.0.Keys == db.Keys + {name}
  {
    (db[name := value], None)
  }

  /** `Delete`: afterwards `name` is not found; every other name reads as before. */
  function Delete(db: DB, name: string): (r: DB)
    ensures Get(r, name) == (ZeroPaste, Some(DatabaseNotFound))
    ensures forall k :: k != name ==> Get(r, k) == Get(db, k)
    ensures r.Keys == db.Keys - {name}
  {
    db - {name}
  }

  /** `CreatePastePath`: a fresh candidate for the table as it is now. The table
      is an input only, so no path is reserved. */
  method CreatePastePath(db: DB, length: nat, rolls: seq<seq<nat>>) returns (path: string)
    requires PathGen.AreRolls(rolls, length)
    requires PathGen.SomeRollFresh(db.Keys, length, rolls)
    ensures |path| == length
    ensures forall i :: 0 <= i < |path| ==> path[i] in PathGen.Alphabeth
    ensures Get(db, path).1 == Some(DatabaseNotFound)
  {
    path := PathGen.DrawFresh(db.Keys, length, rolls);
  }

  /** Deleting twice is deleting once. */
  lemma DeleteIdempotent(db: DB, name: string)
    ensures Delete(Delete(db, name), name) == Delete(db, name)
  {
  }

  /** Deleting an absent name changes nothing. */
  lemma DeleteAbsentIsNoOp(db: DB, name: string)
    requires Get(db, name).1.Some?
    ensures Delete(db, name) == db
  {
  }

  /** Storing what `Get` already returns changes nothing; storing twice keeps the last value. */
  lemma StoreOverwrites(db: DB, name: string, first: Paste, second: Paste)
    ensures Store(Store(db, name, first).0, name, second).0 == Store(db, name, second).0
    ensures name in db ==> Store(db, name, Get(db, name).0).0 == db
  {
  }

  /** Deleting a name just stored restores the table when the name was absent. */
  lemma DeleteUndoesFreshStore(db: DB, name: string, value: Paste)
    requires name !in db
    ensures Delete(Store(db, name, value).0, name) == db
  {
  }

  /** Check-then-act: two creators that both generate against the same table may
      get the same path, and the later `Store` silently replaces the earlier
      paste, so the first creator's path now serves the second one's paste. */
  lemma GeneratedPathIsNotReserved(db: DB, length: nat, p: string, first: Paste, second: Paste)
    requires PathGen.MayReturn(db.Keys, length, p)
    ensures exists roll :: PathGen.IsRoll(roll, length) && PathGen.Spell(roll) == p
                           && PathGen.SomeRollFresh(db.Keys, length, [roll])
    ensures Get(Store(Store(db, p, first).0, p, second).0, p) == (second, None)
    ensures first != second ==> Get(Store(Store(db, p, first).0, p, second).0, p).0 != first
  {
    PathGen.EveryFreshCandidateIsDrawable(db.Keys, length, p);
  }
}
