/** The record lock table: per file, per record, at most one owning session. */
module Locks {
  import opened Bytecode

  datatype LockType = ReadULock | WriteULock

  datatype LockEntry = LockEntry(owner: string, kind: LockType)

  /** File and record. */
  type Key = (string, string)

  /** All locks held, without the two-level storage. */
  type Held = map<Key, LockEntry>

  predicate Named(session: string, file: string, id: string) {
    session != "" && file != "" && id != ""
  }

  predicate CanTake(h: Held, session: string, file: string, id: string) {
    Named(session, file, id) && ((file, id) in h ==> h[(file, id)].owner == session)
  }

  predicate Owns(h: Held, session: string, file: string, id: string) {
    (file, id) in h && h[(file, id)].owner == session
  }

  function WithoutSession(h: Held, session: string): Held {
    map k | k in h && h[k].owner != session :: h[k]
  }

  function WithoutFile(h: Held, file: string): Held {
    map k | k in h && k.0 != file :: h[k]
  }

  function OwnedBy(h: Held, session: string): set<Key> {
    set k | k in h && h[k].owner == session
  }

  function InFile(h: Held, file: string): set<Key> {
    set k | k in h && k.0 == file
  }

  type Stored = map<string, map<string, LockEntry>>

  function Flatten(s: Stored): Held {
    map f, r | f in s && r in s[f] :: (f, r) := s[f][r]
  }

  lemma FlatAt(s: Stored, k: Key)
    ensures k in Flatten(s) <==> k.0 in s && k.1 in s[k.0]
    ensures k in Flatten(s) ==> Flatten(s)[k] == s[k.0][k.1]
  {
    assert k == (k.0, k.1);
  }

  /** Storing one entry under a file whose other entries are kept. */
  lemma FlatPut(s: Stored, f: string, r: string, e: LockEntry)
    ensures var inner := if f in s then s[f] else map[];
            Flatten(s[f := inner[r := e]]) == Flatten(s)[(f, r) := e]
  {
    hide Flatten;
    var inner := if f in s then s[f] else map[];
    var s1 := s[f := inner[r := e]];
    var a, b := Flatten(s1), Flatten(s)[(f, r) := e];
    forall k: Key
      ensures (k in a <==> k in b) && (k in a ==> a[k] == b[k])
    {
      FlatAt(s, k);
      FlatAt(s1, k);
      assert k == (k.0, k.1);
    }
    assert a == b;
  }

  function Erased(s: Stored, f: string, r: string): Stored
    requires f in s
  {
    var rest := s[f] - {r};
    if rest == map[] then s - {f} else s[f := rest]
  }

  lemma FlatErase(s: Stored, f: string, r: string)
    requires f in s && r in s[f]
    ensures Flatten(Erased(s, f, r)) == Flatten(s) - {(f, r)}
  {
    hide Flatten;
    var rest := s[f] - {r};
    var s1 := Erased(s, f, r);
    var a, b := Flatten(s1), Flatten(s) - {(f, r)};
    forall k: Key
      ensures (k in a <==> k in b) && (k in a ==> a[k] == b[k])
    {
      FlatAt(s, k);
      FlatAt(s1, k);
      assert k == (k.0, k.1);
      if k.0 == f && k.1 in s[f] && k.1 != r {
        assert k.1 in rest;
      }
    }
    assert a == b;
  }

  lemma FlatDrop(s: Stored, f: string)
    ensures Flatten(s - {f}) == WithoutFile(Flatten(s), f)
    ensures f in s ==> |s[f]| == |InFile(Flatten(s), f)|
    ensures f !in s ==> InFile(Flatten(s), f) == {}
  {
    hide Flatten;
    var a, b := Flatten(s - {f}), WithoutFile(Flatten(s), f);
    forall k: Key
      ensures (k in a <==> k in b) && (k in a ==> a[k] == b[k])
      ensures k in Flatten(s) <==> k.0 in s && k.1 in s[k.0]
    {
      FlatAt(s, k);
      FlatAt(s - {f}, k);
    }
    assert a == b;
    if f in s {
      var keys := InFile(Flatten(s), f);
      forall r | r in s[f].Keys
        ensures (f, r) in keys
      {
        FlatAt(s, (f, r));
      }
      CountFile(s[f].Keys, f, keys);
    }
  }

  class LockTable {
    var locks: Stored

    /** No file is kept without locks. */
    ghost predicate Valid()
      reads this
    {
      forall f | f in locks :: locks[f] != map[]
    }

    ghost function Flat(): Held
      reads this
    {
      Flatten(locks)
    }

    constructor ()
      ensures Valid() && Flat() == map[]
    {
      locks := map[];
    }

    /** Takes the lock, or renews it for its owner; a lock of another session is reported. */
    method TryAcquire(session: string, file: string, id: string, kind: LockType) returns (ok: bool, conflict: Option<LockEntry>)
      requires Valid()
      modifies this
      ensures Valid()
      ensures ok == CanTake(old(Flat()), session, file, id)
      ensures Flat() == if ok then old(Flat())[(file, id) := LockEntry(session, kind)] else old(Flat())
      ensures conflict == if ok || !Named(session, file, id) then None else Some(old(Flat())[(file, id)])
    {
      hide Flatten;
      if session == "" || file == "" || id == "" {
        return false, None;
      }
      FlatAt(locks, (file, id));
      var fileLocks := if file in locks then locks[file] else map[];
      if id in fileLocks && fileLocks[id].owner != session {
        return false, Some(fileLocks[id]);
      }
      FlatPut(locks, file, id, LockEntry(session, kind));
      locks := locks[file := fileLocks[id := LockEntry(session, kind)]];
      return true, None;
    }

    /** Only the owner can release. */
    method Release(session: string, file: string, id: string) returns (ok: bool)
      requires Valid()
      modifies this
      ensures Valid()
      ensures ok == (Named(session, file, id) && Owns(old(Flat()), session, file, id))
      ensures Flat() == if ok then old(Flat()) - {(file, id)} else old(Flat())
    {
      hide Flatten;
      if session == "" || file == "" || id == "" {
        return false;
      }
      FlatAt(locks, (file, id));
      if file !in locks || id !in locks[file] || locks[file][id].owner != session {
        return false;
      }
      EraseRecord(file, id);
      return true;
    }

    /** Removes one lock, and its file when that was the last one. */
    method EraseRecord(file: string, id: string)
      requires Valid() && file in locks && id in locks[file]
      modifies this
      ensures Valid()
      ensures Flat() == old(Flat()) - {(file, id)}
      ensures locks == Erased(old(locks), file, id)
    {
      hide Flatten;
      FlatErase(locks, file, id);
      var rest := locks[file] - {id};
      if rest == map[] {
        locks := locks - {file};
      } else {
        locks := locks[file := rest];
      }
    }

    method Lookup(file: string, id: string) returns (r: Option<LockEntry>)
      ensures r == if file != "" && id != "" && (file, id) in Flat() then Some(Flat()[(file, id)]) else None
    {
      hide Flatten;
      FlatAt(locks, (file, id));
      if file == "" || id == "" || file !in locks || id !in locks[file] {
        return None;
      }
      return Some(locks[file][id]);
    }

    method ReleaseAllForFile(file: string) returns (removed: nat)
      requires Valid()
      modifies this
      ensures Valid()
      ensures file != "" ==> Flat() == WithoutFile(old(Flat()), file) && removed == |InFile(old(Flat()), file)|
      ensures file == "" ==> Flat() == old(Flat()) && removed == 0
    {
      hide Flatten;
      if file == "" {
        return 0;
      }
      FlatDrop(locks, file);
      if file !in locks {
        assert locks - {file} == locks;
        return 0;
      }
      removed := |locks[file]|;
      locks := locks - {file};
    }

    /** Erases the session's locks record by record, file by file, and counts them. */
    method ReleaseAllForSession(session: string) returns (removed: nat)
      requires Valid()
      modifies this
      ensures Valid()
      ensures session != "" ==> Flat() == WithoutSession(old(Flat()), session) && removed == |OwnedBy(old(Flat()), session)|
      ensures session == "" ==> Flat() == old(Flat()) && removed == 0
    {
      hide Flatten;
      if session == "" {
        return 0;
      }
      removed := 0;
      forall k: Key
        ensures k in Flat() ==> k.0 in locks
      {
        FlatAt(locks, k);
      }
      var files := locks.Keys;
      while files != {}
        invariant Valid() && files <= locks.Keys
        invariant WithoutSession(Flat(), session) == WithoutSession(old(Flat()), session)
        invariant removed + |OwnedBy(Flat(), session)| == |OwnedBy(old(Flat()), session)|
        invariant forall k | k in Flat() && k.0 !in files :: Flat()[k].owner != session
        decreases |files|
      {
        var file :| file in files;
        var more := ReleaseInFile(session, file);
        removed := removed + more;
        files := files - {file};
      }
      assert OwnedBy(Flat(), session) == {};
      assert WithoutSession(Flat(), session) == Flat();
    }

    method ReleaseInFile(session: string, file: string) returns (removed: nat)
      requires Valid() && file in locks
      modifies this
      ensures Valid() && old(locks).Keys - {file} <= locks.Keys
      ensures WithoutSession(Flat(), session) == WithoutSession(old(Flat()), session)
      ensures removed + |OwnedBy(Flat(), session)| == |OwnedBy(old(Flat()), session)|
      ensures forall k | k in Flat() :: k in old(Flat()) && Flat()[k] == old(Flat())[k]
      ensures forall k | k in Flat() && k.0 == file :: Flat()[k].owner != session
    {
      hide Flatten, WithoutSession, OwnedBy, Erased;
      removed := 0;
      var ids := locks[file].Keys;
      InFileIds(locks, file);
      while ids != {}
        invariant Valid() && old(locks).Keys - {file} <= locks.Keys
        invariant ids != {} ==> file in locks && ids <= locks[file].Keys
        invariant WithoutSession(Flat(), session) == WithoutSession(old(Flat()), session)
        invariant removed + |OwnedBy(Flat(), session)| == |OwnedBy(old(Flat()), session)|
        invariant forall k | k in Flat() :: k in old(Flat()) && Flat()[k] == old(Flat())[k]
        invariant forall k | k in Flat() && k.0 == file && k.1 !in ids :: Flat()[k].owner != session
        decreases |ids|
      {
        var id :| id in ids;
        ids := ids - {id};
        FlatAt(locks, (file, id));
        if locks[file][id].owner == session {
          ErasedKeys(locks, file, id);
          EraseOwned(Flat(), session, (file, id));
          EraseRecord(file, id);
          removed := removed + 1;
        }
      }
    }

    method ClearAll()
      modifies this
      ensures Valid() && Flat() == map[]
    {
      locks := map[];
    }
  }

  lemma InFileIds(s: Stored, f: string)
    requires f in s
    ensures forall k | k in Flatten(s) && k.0 == f :: k.1 in s[f]
  {
    hide Flatten;
    forall k | k in Flatten(s) && k.0 == f
      ensures k.1 in s[f]
    {
      FlatAt(s, k);
    }
  }

  lemma ErasedKeys(s: Stored, f: string, r: string)
    requires f in s && r in s[f]
    ensures var e := Erased(s, f, r);
            && s.Keys - {f} <= e.Keys
            && (f in e ==> e[f].Keys == s[f].Keys - {r})
            && (f !in e ==> s[f].Keys - {r} == {})
  {
    var rest := s[f] - {r};
    assert rest.Keys == s[f].Keys - {r};
  }

  /** Erasing one lock of a session. */
  lemma EraseOwned(h: Held, session: string, k: Key)
    requires k in h && h[k].owner == session
    ensures WithoutSession(h - {k}, session) == WithoutSession(h, session)
    ensures |OwnedBy(h - {k}, session)| + 1 == |OwnedBy(h, session)|
  {
    assert OwnedBy(h, session) == OwnedBy(h - {k}, session) + {k};
    assert k !in OwnedBy(h - {k}, session);
    assert forall x :: x in WithoutSession(h - {k}, session) <==> x in WithoutSession(h, session);
    assert WithoutSession(h - {k}, session) == WithoutSession(h, session);
  }

  lemma {:induction false} CountFile(ids: set<string>, file: string, keys: set<Key>)
    requires forall k | k in keys :: k.0 == file && k.1 in ids
    requires forall r | r in ids :: (file, r) in keys
    ensures |ids| == |keys|
    decreases |ids|
  {
    if forall r :: r !in ids {
      assert ids == {};
      assert forall k :: k !in keys;
      assert keys == {};
    } else {
      var r :| r in ids;
      CountFile(ids - {r}, file, keys - {(file, r)});
    }
  }
}
