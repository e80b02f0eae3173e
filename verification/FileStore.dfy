/** Records shared by sessions under one lock table: what each access does, isolation of a locked
    record over whole interleavings, and the attribute writes built on whole-record access. */
module FileStore {
  import opened Bytecode
  import opened Locks
  import Records

  type Files = map<string, map<string, string>>

  /** All files with their records, and all locks. */
  datatype World = World(files: Files, locks: Held)

  predicate NameChar(c: char) {
    'a' <= c <= 'z' || 'A' <= c <= 'Z' || '0' <= c <= '9' || c == '_' || c == '-'
  }

  predicate ValidName(name: string) {
    name != "" && forall i | 0 <= i < |name| :: NameChar(name[i])
  }

  /** Refused means locked by another session; Failed stands for every other error. */
  datatype Result = Found(text: string) | Missing | Done | Refused | Failed

  /** One access by a session. An empty session id means that locking is switched off for it. `io` says
      whether the host file operation succeeds. */
  datatype Access =
    | Read(session: string, file: string, id: string, io: bool)
    | Write(session: string, file: string, id: string, text: string, io: bool)
    | ReadU(session: string, file: string, id: string, io: bool)
    | WriteU(session: string, file: string, id: string, text: string, io: bool)
    | Delete(session: string, file: string, id: string, io: bool)
    | Release(session: string, file: string, id: string)
    | LogOff(session: string)
    | CreateFile(file: string, io: bool)
    | DeleteFile(file: string, io: bool)

  predicate Accessible(h: Held, session: string, file: string, id: string) {
    session == "" || (file, id) !in h || h[(file, id)].owner == session
  }

  function ReadRecord(w: World, session: string, file: string, id: string, io: bool): Result {
    if !ValidName(file) || file !in w.files || !ValidName(id) then Failed
    else if !Accessible(w.locks, session, file, id) then Refused
    else if id !in w.files[file] then Missing
    else if io then Found(w.files[file][id]) else Failed
  }

  function WriteRecord(w: World, session: string, file: string, id: string, text: string, io: bool): (World, Result) {
    if !ValidName(file) || file !in w.files || !ValidName(id) then (w, Failed)
    else if !Accessible(w.locks, session, file, id) then (w, Refused)
    else if io then (w.(files := w.files[file := w.files[file][id := text]]), Done)
    else (w, Failed)
  }

  /** The lock is taken before anything else, also on a file or record that does not exist. */
  function TakeLock(w: World, session: string, file: string, id: string, kind: LockType): Option<World> {
    if session == "" then Some(w)
    else if CanTake(w.locks, session, file, id) then Some(w.(locks := w.locks[(file, id) := LockEntry(session, kind)]))
    else None
  }

  function DeleteRecord(w: World, session: string, file: string, id: string, io: bool): (World, Result) {
    if !ValidName(file) || file !in w.files || !ValidName(id) then (w, Failed)
    else if !Accessible(w.locks, session, file, id) then (w, Refused)
    else if !io || id !in w.files[file] then (w, Failed)
    else (World(w.files[file := w.files[file] - {id}], ReleaseLock(w.locks, session, file, id)), Done)
  }

  function ReleaseLock(h: Held, session: string, file: string, id: string): Held {
    if Named(session, file, id) && Owns(h, session, file, id) then h - {(file, id)} else h
  }

  function Step(w: World, a: Access): (World, Result) {
    match a
    case Read(s, f, r, io) => (w, ReadRecord(w, s, f, r, io))
    case Write(s, f, r, text, io) => WriteRecord(w, s, f, r, text, io)
    case ReadU(s, f, r, io) =>
      var t := TakeLock(w, s, f, r, ReadULock);
      if t.None? then (w, Refused) else (t.value, ReadRecord(t.value, s, f, r, io))
    case WriteU(s, f, r, text, io) =>
      var t := TakeLock(w, s, f, r, WriteULock);
      if t.None? then (w, Refused) else WriteRecord(t.value, s, f, r, text, io)
    case Delete(s, f, r, io) => DeleteRecord(w, s, f, r, io)
    case Release(s, f, r) =>
      if Named(s, f, r) && Owns(w.locks, s, f, r) then (w.(locks := w.locks - {(f, r)}), Done) else (w, Failed)
    case LogOff(s) => (if s == "" then w else w.(locks := WithoutSession(w.locks, s)), Done)
    case CreateFile(f, io) =>
      if !ValidName(f) || f in w.files || !io then (w, Failed) else (w.(files := w.files[f := map[]]), Done)
    case DeleteFile(f, io) =>
      if !ValidName(f) then (w, Failed)
      else
        var unlocked := w.(locks := WithoutFile(w.locks, f));
        if f !in w.files || !io then (unlocked, Failed) else (unlocked.(files := w.files - {f}), Done)
  }

  function End(w: World, run: seq<Access>): World
    decreases |run|
  {
    if run == [] then w else End(Step(w, run[0]).0, run[1..])
  }

  // ---------------------------------------------------------------------------------------------
  // Isolation
  // ---------------------------------------------------------------------------------------------

  predicate OnRecord(a: Access, file: string, id: string) {
    (a.Read? || a.Write? || a.ReadU? || a.WriteU? || a.Delete? || a.Release?) && a.file == file && a.id == id
  }

  predicate By(a: Access, session: string) {
    !a.CreateFile? && !a.DeleteFile? && a.session == session
  }

  /** Locking is on for the session, and the access does not end the owner's lock: no release, log-off or
      deletion of the record by the owner, and no deletion of the whole file. */
  predicate KeepsLock(a: Access, owner: string, file: string, id: string) {
    && (a.CreateFile? || a.DeleteFile? || a.session != "")
    && !(By(a, owner) && (a.LogOff? || (OnRecord(a, file, id) && (a.Release? || a.Delete?))))
    && !(a.DeleteFile? && a.file == file)
  }

  predicate Success(r: Result) {
    r.Found? || r.Missing? || r.Done?
  }

  /** While a record is locked, no access of another session to it succeeds or changes anything. */
  lemma OthersRefused(w: World, a: Access, owner: string, file: string, id: string)
    requires Owns(w.locks, owner, file, id) && OnRecord(a, file, id) && a.session != "" && a.session != owner
    ensures !Success(Step(w, a).1) && Step(w, a).0 == w
  {
  }

  predicate CanDelete(w: World, a: Access) {
    a.Delete? && a.io && ValidName(a.file) && ValidName(a.id) && a.file in w.files && a.id in w.files[a.file]
  }

  /** What ends a lock: its owner releases it, logs off or deletes a record that is there, or the file is
      deleted, whether or not it exists. */
  predicate EndsLock(w: World, a: Access, owner: string, file: string, id: string) {
    || (By(a, owner) && (a.LogOff? || (OnRecord(a, file, id) && (a.Release? || CanDelete(w, a)))))
    || (a.DeleteFile? && a.file == file && ValidName(file))
  }

  /** An access takes a lock away from its owner exactly when it is one of those that end it. */
  lemma LockStays(w: World, a: Access, owner: string, file: string, id: string)
    requires Owns(w.locks, owner, file, id)
    ensures Named(owner, file, id) ==> (Owns(Step(w, a).0.locks, owner, file, id) <==> !EndsLock(w, a, owner, file, id))
    ensures KeepsLock(a, owner, file, id) ==> Owns(Step(w, a).0.locks, owner, file, id)
  {
  }

  function Content(w: World, file: string, id: string): Option<string> {
    if file in w.files && id in w.files[file] then Some(w.files[file][id]) else None
  }

  /** Two worlds that cannot be told apart through one record. */
  predicate Alike(v: World, w: World, file: string, id: string) {
    (file in v.files <==> file in w.files) && Content(v, file, id) == Content(w, file, id)
  }

  /** What matters to the record: the owner's accesses to it, and the creation of its file. */
  predicate Relevant(a: Access, owner: string, file: string, id: string) {
    (By(a, owner) && OnRecord(a, file, id)) || (a.CreateFile? && a.file == file)
  }

  function Own(run: seq<Access>, owner: string, file: string, id: string): seq<Access> {
    if run == [] then []
    else (if Relevant(run[0], owner, file, id) then [run[0]] else []) + Own(run[1..], owner, file, id)
  }

  lemma IrrelevantStep(w: World, a: Access, owner: string, file: string, id: string)
    requires Owns(w.locks, owner, file, id) && KeepsLock(a, owner, file, id) && !Relevant(a, owner, file, id)
    ensures Alike(Step(w, a).0, w, file, id)
  {
    if OnRecord(a, file, id) {
      OthersRefused(w, a, owner, file, id);
    }
  }

  lemma RelevantStep(v: World, w: World, a: Access, owner: string, file: string, id: string)
    requires Owns(v.locks, owner, file, id) && Owns(w.locks, owner, file, id) && Alike(v, w, file, id)
    requires Relevant(a, owner, file, id) && KeepsLock(a, owner, file, id)
    ensures Alike(Step(v, a).0, Step(w, a).0, file, id) && Step(v, a).1 == Step(w, a).1
  {
  }

  /** Isolation over every interleaving: as long as the owner keeps its lock, the content of the record
      is what the owner's accesses alone make of it, and the owner still holds the lock. */
  lemma {:induction false} Isolated(v: World, w: World, run: seq<Access>, owner: string, file: string, id: string)
    requires Owns(v.locks, owner, file, id) && Owns(w.locks, owner, file, id) && Alike(v, w, file, id)
    requires forall i | 0 <= i < |run| :: KeepsLock(run[i], owner, file, id)
    ensures Owns(End(v, run).locks, owner, file, id)
    ensures Alike(End(v, run), End(w, Own(run, owner, file, id)), file, id)
    decreases |run|
  {
    hide Step, Alike;
    if run != [] {
      var a, rest := run[0], run[1..];
      LockStays(v, a, owner, file, id);
      var own := Own(rest, owner, file, id);
      if Relevant(a, owner, file, id) {
        LockStays(w, a, owner, file, id);
        RelevantStep(v, w, a, owner, file, id);
        Isolated(Step(v, a).0, Step(w, a).0, rest, owner, file, id);
        assert ([a] + own)[1..] == own;
      } else {
        IrrelevantStep(v, a, owner, file, id);
        AlikeTrans(Step(v, a).0, v, w, file, id);
        Isolated(Step(v, a).0, w, rest, owner, file, id);
        assert [] + own == own;
      }
    }
  }

  lemma AlikeTrans(u: World, v: World, w: World, file: string, id: string)
    requires Alike(u, v, file, id) && Alike(v, w, file, id)
    ensures Alike(u, w, file, id)
  {
  }

  /** From a successful READU or WRITEU on, with nobody ending the lock, a record that its owner does not
      touch again keeps the content it had. */
  lemma UntouchedStays(w: World, take: Access, run: seq<Access>)
    requires (take.ReadU? || take.WriteU?) && take.session != "" && Success(Step(w, take).1)
    requires forall i | 0 <= i < |run| :: KeepsLock(run[i], take.session, take.file, take.id)
    requires forall i | 0 <= i < |run| :: !Relevant(run[i], take.session, take.file, take.id)
    ensures var w1 := Step(w, take).0;
            Content(End(w1, run), take.file, take.id) == Content(w1, take.file, take.id)
  {
    var w1 := Step(w, take).0;
    assert Owns(w1.locks, take.session, take.file, take.id);
    hide Step, Own;
    Isolated(w1, w1, run, take.session, take.file, take.id);
    NothingOwn(run, take.session, take.file, take.id);
  }

  lemma {:induction false} NothingOwn(run: seq<Access>, owner: string, file: string, id: string)
    requires forall i | 0 <= i < |run| :: !Relevant(run[i], owner, file, id)
    ensures Own(run, owner, file, id) == []
  {
    if run != [] {
      NothingOwn(run[1..], owner, file, id);
    }
  }

  /** What was written is what the same session reads next; nothing else on the disk has changed. */
  lemma WriteReadsBack(w: World, a: Access)
    requires (a.Write? || a.WriteU?) && Step(w, a).1.Done?
    ensures var w1 := Step(w, a).0;
            && Step(w1, Read(a.session, a.file, a.id, true)).1 == Found(a.text)
            && (forall f, r | (f, r) != (a.file, a.id) :: Content(w1, f, r) == Content(w, f, r))
            && w1.files.Keys == w.files.Keys
  {
    assert Step(w, a).0.files.Keys == w.files.Keys;
  }

  /** A deleted record is missing, its lock is gone when its owner deleted it, and the rest stays. */
  lemma DeleteRemoves(w: World, a: Access)
    requires a.Delete? && Step(w, a).1.Done?
    ensures var w1 := Step(w, a).0;
            && Step(w1, Read(a.session, a.file, a.id, true)).1 == Missing
            && (a.session != "" ==> (a.file, a.id) !in w1.locks)
            && (forall f, r | (f, r) != (a.file, a.id) :: Content(w1, f, r) == Content(w, f, r))
  {
  }

  /** A READU locks whatever becomes of it, also when record or file is missing: at every point of every
      run that keeps the lock, all other sessions are refused and the record changes only by its owner. */
  lemma LockWithoutRecord(w: World, take: Access, run: seq<Access>, other: Access)
    requires take.ReadU? && CanTake(w.locks, take.session, take.file, take.id)
    requires forall i | 0 <= i < |run| :: KeepsLock(run[i], take.session, take.file, take.id)
    requires OnRecord(other, take.file, take.id) && other.session != "" && other.session != take.session
    ensures var w1 := End(Step(w, take).0, run);
            && !Success(Step(w1, other).1) && Step(w1, other).0 == w1
            && ((forall i | 0 <= i < |run| :: !Relevant(run[i], take.session, take.file, take.id)) ==>
                  Content(w1, take.file, take.id) == Content(w, take.file, take.id))
  {
    var w1 := Step(w, take).0;
    assert Owns(w1.locks, take.session, take.file, take.id) && Content(w1, take.file, take.id) == Content(w, take.file, take.id);
    hide Step, Own, KeepsLock, Relevant;
    Isolated(w1, w1, run, take.session, take.file, take.id);
    OthersRefused(End(w1, run), other, take.session, take.file, take.id);
    if forall i | 0 <= i < |run| :: !Relevant(run[i], take.session, take.file, take.id) {
      NothingOwn(run, take.session, take.file, take.id);
    }
  }

  /** Deleting a file that does not exist fails and yet ends all locks on its records: any session can then
      lock one, and whoever held the lock before is refused as long as that session keeps it. */
  lemma FailedDeleteUnlocks(w: World, file: string, io: bool, take: Access, run: seq<Access>, other: Access)
    requires ValidName(file) && file !in w.files
    requires take.ReadU? && take.file == file && Named(take.session, file, take.id)
    requires forall i | 0 <= i < |run| :: KeepsLock(run[i], take.session, file, take.id)
    requires OnRecord(other, file, take.id) && other.session != "" && other.session != take.session
    ensures var d := Step(w, DeleteFile(file, io));
            && d.1.Failed? && d.0.files == w.files
            && var w1 := End(Step(d.0, take).0, run);
               !Success(Step(w1, other).1) && Step(w1, other).0 == w1
  {
    var d := Step(w, DeleteFile(file, io)).0;
    assert CanTake(d.locks, take.session, file, take.id);
    hide Step, KeepsLock;
    LockWithoutRecord(d, take, run, other);
  }

  // ---------------------------------------------------------------------------------------------
  // The file system as it works
  // ---------------------------------------------------------------------------------------------

  class Disk {
    var files: Files

    constructor ()
      ensures files == map[]
    {
      files := map[];
    }
  }

  /** One session's view: its lock id, and the lock table and disk it shares with the others. */
  class FileSystem {
    const sessionId: string
    const table: LockTable
    const disk: Disk

    constructor (sessionId: string, table: LockTable, disk: Disk)
      ensures this.sessionId == sessionId && this.table == table && this.disk == disk
    {
      this.sessionId, this.table, this.disk := sessionId, table, disk;
    }

    ghost function Now(): World
      reads table, disk
    {
      World(disk.files, table.Flat())
    }

    method RecordAccessible(file: string, id: string) returns (ok: bool)
      requires file != "" && id != ""
      ensures ok == Accessible(table.Flat(), sessionId, file, id)
    {
      if sessionId == "" {
        return true;
      }
      var entry := table.Lookup(file, id);
      return entry.None? || entry.value.owner == sessionId;
    }

    method AcquireRecordLock(file: string, id: string, kind: LockType) returns (ok: bool)
      requires table.Valid()
      modifies table
      ensures table.Valid()
      ensures var t := TakeLock(old(Now()), sessionId, file, id, kind);
              ok == t.Some? && Now() == if ok then t.value else old(Now())
    {
      if sessionId == "" {
        return true;
      }
      var conflict;
      ok, conflict := table.TryAcquire(sessionId, file, id, kind);
    }

    method ReadText(file: string, id: string, io: bool) returns (r: Result)
      ensures r == ReadRecord(Now(), sessionId, file, id, io)
    {
      if !ValidName(file) || file !in disk.files || !ValidName(id) {
        return Failed;
      }
      var ok := RecordAccessible(file, id);
      if !ok {
        return Refused;
      }
      if id !in disk.files[file] {
        return Missing;
      }
      return if io then Found(disk.files[file][id]) else Failed;
    }

    /** The text is stored in canonical form, which is the text itself. */
    method WriteText(file: string, id: string, text: string, io: bool) returns (r: Result)
      modifies disk
      ensures (Now(), r) == WriteRecord(old(Now()), sessionId, file, id, text, io)
    {
      if !ValidName(file) || file !in disk.files || !ValidName(id) {
        return Failed;
      }
      var ok := RecordAccessible(file, id);
      if !ok {
        return Refused;
      }
      var attributes := Records.Load(text);
      var structured := new Records.StructuredRecord(attributes);
      var canonical := structured.ToText();
      Records.ToRawFromRaw(text);
      if !io {
        return Failed;
      }
      disk.files := disk.files[file := disk.files[file][id := canonical]];
      return Done;
    }

    method ReadTextU(file: string, id: string, io: bool) returns (r: Result)
      requires table.Valid()
      modifies table
      ensures table.Valid()
      ensures (Now(), r) == Step(old(Now()), ReadU(sessionId, file, id, io))
    {
      var ok := AcquireRecordLock(file, id, ReadULock);
      if !ok {
        return Refused;
      }
      r := ReadText(file, id, io);
    }

    method WriteTextU(file: string, id: string, text: string, io: bool) returns (r: Result)
      requires table.Valid()
      modifies table, disk
      ensures table.Valid()
      ensures (Now(), r) == Step(old(Now()), WriteU(sessionId, file, id, text, io))
    {
      var ok := AcquireRecordLock(file, id, WriteULock);
      if !ok {
        return Refused;
      }
      r := WriteText(file, id, text, io);
    }

    method DeleteText(file: string, id: string, io: bool) returns (r: Result)
      requires table.Valid()
      modifies table, disk
      ensures table.Valid()
      ensures (Now(), r) == Step(old(Now()), Delete(sessionId, file, id, io))
    {
      if !ValidName(file) || file !in disk.files || !ValidName(id) {
        return Failed;
      }
      var ok := RecordAccessible(file, id);
      if !ok {
        return Refused;
      }
      if !io || id !in disk.files[file] {
        return Failed;
      }
      disk.files := disk.files[file := disk.files[file] - {id}];
      if sessionId != "" {
        ok := table.Release(sessionId, file, id);
      }
      return Done;
    }

    method ReleaseText(file: string, id: string) returns (ok: bool)
      requires table.Valid()
      modifies table
      ensures table.Valid()
      ensures ok == Step(old(Now()), Release(sessionId, file, id)).1.Done?
      ensures Now() == Step(old(Now()), Release(sessionId, file, id)).0
    {
      if sessionId == "" {
        return false;
      }
      ok := table.Release(sessionId, file, id);
    }

    method DeleteWholeFile(file: string, io: bool) returns (r: Result)
      requires table.Valid()
      modifies table, disk
      ensures table.Valid()
      ensures (Now(), r) == Step(old(Now()), DeleteFile(file, io))
    {
      hide WithoutFile, InFile, Flatten, WithoutSession;
      if !ValidName(file) {
        return Failed;
      }
      var removed := table.ReleaseAllForFile(file);
      if file !in disk.files || !io {
        return Failed;
      }
      disk.files := disk.files - {file};
      return Done;
    }

    /** Reads the record, replaces one attribute and writes it back; a missing record counts as empty. */
    method WriteAttributeValue(file: string, id: string, n: int, text: string, io: bool, io': bool) returns (r: Result)
      modifies disk
      ensures var before := ReadRecord(old(Now()), sessionId, file, id, io);
              if before.Found? || before.Missing? then
                (Now(), r) == WriteRecord(old(Now()), sessionId, file, id, Records.WriteAttribute(TextOf(before), n, text), io')
              else Now() == old(Now()) && r == before
    {
      var before := ReadText(file, id, io);
      if !before.Found? && !before.Missing? {
        return before;
      }
      var attributes := Records.Load(TextOf(before));
      var structured := new Records.StructuredRecord(attributes);
      structured.Set(n, text);
      var raw := structured.ToText();
      r := WriteText(file, id, raw, io');
    }

    /** Replaces one value of one attribute; missing values before it become empty. */
    method WriteSubvalue(file: string, id: string, n: int, i: int, text: string, io: bool, io': bool) returns (r: Result)
      modifies disk
      ensures i <= 0 ==> Now() == old(Now()) && r == Failed
      ensures i > 0 ==>
              var before := ReadRecord(old(Now()), sessionId, file, id, io);
              if before.Found? || before.Missing? then
                (Now(), r) == WriteRecord(old(Now()), sessionId, file, id, Records.WriteSubvalue(TextOf(before), n, i, text), io')
              else Now() == old(Now()) && r == before
    {
      if i <= 0 {
        return Failed;
      }
      var before := ReadText(file, id, io);
      if !before.Found? && !before.Missing? {
        return before;
      }
      var attributes := Records.Load(TextOf(before));
      var values := Records.SplitValues(Records.Attribute(attributes, n));
      if i > |values| {
        values := values + seq(i - |values|, _ => "");
      }
      assert values == Records.Padded(Records.Split(Records.Attribute(attributes, n), Records.VALUE_MARK), i);
      values := values[i - 1 := text];
      var joined := Records.JoinValues(values);
      var structured := new Records.StructuredRecord(attributes);
      structured.Set(n, joined);
      var raw := structured.ToText();
      r := WriteText(file, id, raw, io');
    }
  }

  /** A record that is not there is edited as an empty one. */
  function TextOf(r: Result): string {
    if r.Found? then r.text else ""
  }
}
