/**
 Quarantine and restore.  The copies are streams with short reads and failures; the two
 multi-step operations are a state machine in which any step may fail and the service may crash
 between any two steps.
 */
module Quarantine {
  import opened Common

  /** "OPENGUARD-QUARANTINE-V1" and a zero byte. */
  const MAGIC: Bytes := [79, 80, 69, 78, 71, 85, 65, 82, 68, 45, 81, 85, 65, 82, 65, 78, 84, 73, 78, 69, 45, 86, 49, 0]
  const BUFFER: nat := 1024 * 1024

  type Digest = int
  type Hash = Bytes -> Digest

  // ---------- Streams ----------

  datatype IoError = IoError

  /** A byte source that may return fewer bytes than asked for, or fail at any time. */
  class Reader {
    var rest: Bytes

    constructor (bytes: Bytes)
      ensures rest == bytes
    {
      rest := bytes;
    }

    method Read(limit: nat) returns (r: Result<Bytes, IoError>)
      requires limit > 0
      modifies this
      ensures r.Ok? ==> |r.value| <= limit && old(rest) == r.value + rest && (r.value == [] <==> old(rest) == [])
    {
      if * {
        return Err(IoError);
      }
      if rest == [] {
        return Ok([]);
      }
      var n :| 1 <= n <= |rest| && n <= limit;
      r, rest := Ok(rest[..n]), rest[n..];
    }

    /** All of the next bytes, or an error. */
    method ReadExact(count: nat) returns (r: Result<Bytes, IoError>)
      modifies this
      ensures r.Ok? ==> |r.value| == count && old(rest) == r.value + rest
    {
      if |rest| < count {
        return Err(IoError);
      }
      if * {
        return Err(IoError);
      }
      r, rest := Ok(rest[..count]), rest[count..];
    }
  }

  /** A file open for writing.  A failed write may have written any part of its data. */
  class Writer {
    var bytes: Bytes

    constructor ()
      ensures bytes == []
    {
      bytes := [];
    }

    method WriteAll(data: Bytes) returns (ok: bool)
      modifies this
      ensures ok ==> bytes == old(bytes) + data
      ensures !ok ==> exists k :: 0 <= k <= |data| && bytes == old(bytes) + data[..k]
    {
      ok := *;
      if ok {
        bytes := bytes + data;
      } else {
        var k :| 0 <= k <= |data|;
        bytes := bytes + data[..k];
      }
    }
  }

  /** Copies to the end of the source and returns the digest of exactly what was copied. */
  method HashCopy(source: Reader, destination: Writer, hash: Hash) returns (r: Result<Digest, IoError>)
    modifies source, destination
    ensures r.Ok? ==> destination.bytes == old(destination.bytes) + old(source.rest)
    ensures r.Ok? ==> r.value == hash(old(source.rest)) && source.rest == []
    ensures old(destination.bytes) <= destination.bytes
  {
    var hashed: Bytes := [];
    while true
      invariant old(source.rest) == hashed + source.rest
      invariant destination.bytes == old(destination.bytes) + hashed
      decreases |source.rest|
    {
      ghost var before := source.rest;
      var chunk := source.Read(BUFFER);
      if chunk.Err? {
        return Err(IoError);
      }
      if chunk.value == [] {
        assert source.rest == [];
        break;
      }
      assert hashed + before == hashed + chunk.value + source.rest;
      hashed := hashed + chunk.value;
      var ok := destination.WriteAll(chunk.value);
      if !ok {
        return Err(IoError);
      }
    }
    assert hashed + [] == hashed;
    r := Ok(hash(hashed));
  }

  method WriteQuarantinePayload(source: Reader, payload: Writer, hash: Hash) returns (r: Result<Digest, IoError>)
    requires payload.bytes == []
    modifies source, payload
    ensures r.Ok? ==> payload.bytes == MAGIC + old(source.rest) && r.value == hash(old(source.rest))
  {
    var ok := payload.WriteAll(MAGIC);
    if !ok {
      return Err(IoError);
    }
    r := HashCopy(source, payload, hash);
  }

  method RestoreQuarantinePayload(payload: Reader, destination: Writer, hash: Hash) returns (r: Result<Digest, IoError>)
    requires destination.bytes == []
    modifies payload, destination
    ensures r.Ok? ==> old(payload.rest) == MAGIC + destination.bytes && r.value == hash(destination.bytes)
    ensures !(MAGIC <= old(payload.rest)) ==> r.Err? && destination.bytes == []
  {
    var header := payload.ReadExact(|MAGIC|);
    if header.Err? || header.value != MAGIC {
      return Err(IoError);
    }
    r := HashCopy(payload, destination, hash);
    assert [] + old(payload.rest)[|MAGIC|..] == old(payload.rest)[|MAGIC|..];
  }

  /** Quarantine, then restore: when both report success the bytes and both digests agree. */
  method QuarantineThenRestore(content: Bytes, hash: Hash) returns (restored: Option<Bytes>)
    ensures restored.Some? ==> restored.value == content
  {
    var source := new Reader(content);
    var payload := new Writer();
    var stored := WriteQuarantinePayload(source, payload, hash);
    if stored.Err? {
      return None;
    }
    var input := new Reader(payload.bytes);
    var output := new Writer();
    var back := RestoreQuarantinePayload(input, output, hash);
    if back.Err? {
      return None;
    }
    assert MAGIC + content == MAGIC + output.bytes;
    assert (MAGIC + content)[|MAGIC|..] == content && (MAGIC + output.bytes)[|MAGIC|..] == output.bytes;
    assert back.value == stored.value;
    restored := Some(output.bytes);
  }

  // ---------- The protocol ----------

  type Id = nat

  /** Clients' files lie outside the service's quarantine directory; payload names are fresh UUIDs. */
  datatype Path = UserFile(name: string) | Payload(id: Id)

  datatype Record = Record(owner: string, original: Path, sha: Digest, restoredTo: Option<Path>)

  /** The next thing the operation in progress will do. */
  datatype Op =
    | Idle
    // quarantine_finding
    | QCreate(id: Id, owner: string, path: Path, sha: Digest)
    | QHeader(id: Id, owner: string, path: Path, sha: Digest)
    | QCopy(id: Id, owner: string, path: Path, sha: Digest, copied: nat)
    | QRecord(id: Id, owner: string, path: Path, sha: Digest)
    | QRemove(id: Id, path: Path)
    | QUndoRecord(id: Id, path: Path)
    | QCleanup(id: Id, path: Path)
    // restore_quarantine
    | RHeader(id: Id, dest: Path)
    | RCreate(id: Id, dest: Path)
    | RCopy(id: Id, dest: Path, copied: nat)
    | RVerify(id: Id, dest: Path)
    | RDiscard(id: Id, dest: Path)
    | RMark(id: Id, dest: Path)
    | RDrop(id: Id, dest: Path)

  /** Files and records persist; the operation does not.  The last five fields are bookkeeping: what
      was scanned and where, completed restores, records whose compensating delete failed, and those
      among them whose payload was then deleted all the same. */
  datatype State = State(
    files: map<Path, Bytes>,
    records: map<Id, Record>,
    op: Op,
    scanned: map<Id, Bytes>,
    origin: map<Id, Path>,
    restored: map<Id, set<Path>>,
    orphaned: set<Id>,
    dropped: set<Id>)

  const EMPTY := State(map[], map[], Idle, map[], map[], map[], {}, {})

  /** Why a step happened: every file-system and database call may succeed or fail. */
  datatype Step =
    | BeginQuarantine(id: Id, owner: string, path: Path)
    | BeginRestore(id: Id, owner: string, dest: Path)
    | Success(count: nat)
    | Failure(count: nat)
    | Crash
    | OutsideCreate(name: string, bytes: Bytes)

  function Apply(hash: Hash, s: State, step: Step): Option<State> {
    match step
    case Crash => Some(s.(op := Idle))
    case OutsideCreate(name, bytes) =>
      if UserFile(name) in s.files then None else Some(s.(files := s.files[UserFile(name) := bytes]))
    case BeginQuarantine(id, owner, path) =>
      if s.op != Idle || id in s.scanned || Payload(id) in s.files || path !in s.files || path.Payload? then None
      else Some(s.(op := QCreate(id, owner, path, hash(s.files[path])), scanned := s.scanned[id := s.files[path]],
                   origin := s.origin[id := path], restored := s.restored[id := {}]))
    case BeginRestore(id, owner, dest) =>
      if s.op != Idle || id !in s.records || s.records[id].owner != owner || s.records[id].restoredTo.Some?
         || dest.Payload? then None
      else Some(s.(op := RHeader(id, dest)))
    case Success(count) => if s.op == Idle then None else Some(Succeed(hash, s, count))
    case Failure(count) => if s.op == Idle then None else Some(Fail(s, count))
  }

  function Put(s: State, path: Path, bytes: Bytes, op: Op): State {
    s.(files := s.files[path := bytes], op := op)
  }

  function Min(a: nat, b: nat): nat { if a <= b then a else b }

  /** The next `count` bytes of a source, at least one unless it is exhausted. */
  function Chunk(source: Bytes, from: nat, count: nat): Bytes {
    if from >= |source| then [] else source[from..Min(from + 1 + count % BUFFER, |source|)]
  }

  /** What a failed copy of up to one buffer may have left behind. */
  function Torn(source: Bytes, from: nat, count: nat): Bytes {
    if from >= |source| then [] else source[from..Min(from + count % (BUFFER + 1), |source|)]
  }

  predicate IsQuarantine(op: Op) {
    op.QCreate? || op.QHeader? || op.QCopy? || op.QRecord? || op.QRemove? || op.QUndoRecord? || op.QCleanup?
  }

  predicate IsRestore(op: Op) {
    op.RHeader? || op.RCreate? || op.RCopy? || op.RVerify? || op.RDiscard? || op.RMark? || op.RDrop?
  }

  /** One turn of the copy loop into the payload, or its end and the digest comparison. */
  function CopyIn(hash: Hash, s: State, count: nat): State
    requires s.op.QCopy?
  {
    var QCopy(id, owner, path, sha, copied) := s.op;
    if path !in s.files || Payload(id) !in s.files then s.(op := QCleanup(id, path))
    else
      var chunk := Chunk(s.files[path], copied, count);
      if chunk != [] then
        Put(s, Payload(id), s.files[Payload(id)] + chunk, QCopy(id, owner, path, sha, copied + |chunk|))
      else if hash(s.files[Payload(id)][Min(|MAGIC|, |s.files[Payload(id)]|)..]) != sha then s.(op := QCleanup(id, path))
      else s.(op := QRecord(id, owner, path, sha))
  }

  /** One turn of the copy loop out of the payload. */
  function CopyBack(s: State, count: nat): State
    requires s.op.RCopy?
  {
    var RCopy(id, dest, copied) := s.op;
    if Payload(id) !in s.files || dest !in s.files then s.(op := Idle)
    else
      var chunk := Chunk(s.files[Payload(id)], |MAGIC| + copied, count);
      if chunk != [] then Put(s, dest, s.files[dest] + chunk, RCopy(id, dest, copied + |chunk|))
      else s.(op := RVerify(id, dest))
  }

  function QuarantineSucceeds(hash: Hash, s: State, count: nat): State
    requires IsQuarantine(s.op)
  {
    match s.op
    case QCreate(id, owner, path, sha) =>
      if Payload(id) in s.files then s.(op := Idle) else Put(s, Payload(id), [], QHeader(id, owner, path, sha))
    case QHeader(id, owner, path, sha) => Put(s, Payload(id), MAGIC, QCopy(id, owner, path, sha, 0))
    case QCopy(_, _, _, _, _) => CopyIn(hash, s, count)
    case QRecord(id, owner, path, sha) =>
      s.(records := s.records[id := Record(owner, path, sha, None)], op := QRemove(id, path))
    case QRemove(id, path) => s.(files := s.files - {path}, op := Idle)
    case QUndoRecord(id, path) => s.(records := s.records - {id}, op := QCleanup(id, path))
    case QCleanup(id, path) =>
      s.(files := s.files - {Payload(id)}, op := Idle, dropped := if id in s.orphaned then s.dropped + {id} else s.dropped)
  }

  function RestoreSucceeds(hash: Hash, s: State, count: nat): State
    requires IsRestore(s.op)
  {
    match s.op
    case RHeader(id, dest) =>
      if Payload(id) in s.files && MAGIC <= s.files[Payload(id)] then s.(op := RCreate(id, dest)) else s.(op := Idle)
    case RCreate(id, dest) =>
      if dest in s.files then s.(op := Idle) else Put(s, dest, [], RCopy(id, dest, 0))
    case RCopy(_, _, _) => CopyBack(s, count)
    case RVerify(id, dest) =>
      if id in s.records && dest in s.files && hash(s.files[dest]) == s.records[id].sha && id in s.restored
      then s.(op := RMark(id, dest), restored := s.restored[id := s.restored[id] + {dest}])
      else s.(op := RDiscard(id, dest))
    case RDiscard(id, dest) => s.(files := s.files - {dest}, op := Idle)
    case RMark(id, dest) =>
      if id in s.records && s.records[id].restoredTo.None?
      then s.(records := s.records[id := s.records[id].(restoredTo := Some(dest))], op := RDrop(id, dest))
      else s.(op := RDrop(id, dest))
    case RDrop(id, dest) => s.(files := s.files - {Payload(id)}, op := Idle)
  }

  function Succeed(hash: Hash, s: State, count: nat): State
    requires s.op != Idle
  {
    if IsRestore(s.op) then RestoreSucceeds(hash, s, count) else QuarantineSucceeds(hash, s, count)
  }

  /** A failing write may leave part of its data; compensation follows only where the code has it. */
  function Fail(s: State, count: nat): State
    requires s.op != Idle
  {
    match s.op
    case QHeader(id, owner, path, sha) => Put(s, Payload(id), MAGIC[..Min(count, |MAGIC|)], Idle)
    case QCopy(id, owner, path, sha, copied) =>
      if path in s.files && Payload(id) in s.files
      then Put(s, Payload(id), s.files[Payload(id)] + Torn(s.files[path], copied, count), QCleanup(id, path))
      else s.(op := QCleanup(id, path))
    case QRecord(id, owner, path, sha) => s.(op := QCleanup(id, path))
    case QRemove(id, path) => s.(op := QUndoRecord(id, path))
    case QUndoRecord(id, path) => s.(op := QCleanup(id, path), orphaned := s.orphaned + {id})
    case RCopy(id, dest, copied) =>
      if Payload(id) in s.files && dest in s.files
      then Put(s, dest, s.files[dest] + Torn(s.files[Payload(id)], |MAGIC| + copied, count), Idle)
      else s.(op := Idle)
    case _ => s.(op := Idle)
  }

  /** The state after a run, if every step of it was possible. */
  function Run(hash: Hash, steps: seq<Step>): Option<State> {
    if steps == [] then Some(EMPTY)
    else match Run(hash, steps[..|steps| - 1])
      case None => None
      case Some(s) => Apply(hash, s, steps[|steps| - 1])
  }

  // ---------- The invariant ----------

  /** The one file the operation in progress may still change or delete as incomplete. */
  ghost function Flux(op: Op): Option<Path> {
    match op
    case QHeader(id, _, _, _) => Some(Payload(id))
    case QCopy(id, _, _, _, _) => Some(Payload(id))
    case QRecord(id, _, _, _) => Some(Payload(id))
    case QRemove(id, _) => Some(Payload(id))
    case QUndoRecord(id, _) => Some(Payload(id))
    case QCleanup(id, _) => Some(Payload(id))
    case RCopy(_, dest, _) => Some(dest)
    case RVerify(_, dest) => Some(dest)
    case RDiscard(_, dest) => Some(dest)
    case _ => None
  }

  /** A settled file with these contents. */
  ghost predicate At(s: State, p: Path, bytes: Bytes) {
    p in s.files && s.files[p] == bytes && Some(p) != Flux(s.op)
  }

  ghost predicate HeldBy(s: State, id: Id)
    requires id in s.scanned && id in s.origin && id in s.restored
  {
    || At(s, s.origin[id], s.scanned[id])
    || At(s, Payload(id), MAGIC + s.scanned[id])
    || exists d :: d in s.restored[id] && At(s, d, s.scanned[id])
  }

  /** The scanned bytes exist complete: at the original path, in a payload after the magic header,
      or at a completed restore destination. */
  ghost predicate Preserved(s: State, id: Id)
    requires Aligned(s) && id in s.scanned
  {
    exists holder :: holder in s.scanned && s.scanned[holder] == s.scanned[id] && HeldBy(s, holder)
  }

  ghost predicate Aligned(s: State) {
    s.scanned.Keys == s.origin.Keys == s.restored.Keys
  }

  ghost predicate Shape(s: State) {
    && Aligned(s)
    && s.records.Keys <= s.scanned.Keys && s.dropped <= s.orphaned <= s.records.Keys
    && (forall id :: Payload(id) in s.files ==> id in s.scanned)
    && (forall id :: id in s.origin ==> s.origin[id].UserFile?)
    && (forall id, d :: id in s.restored && d in s.restored[id] ==> d.UserFile?)
  }

  ghost predicate PayloadComplete(s: State, id: Id)
    requires id in s.scanned
  {
    Payload(id) in s.files && s.files[Payload(id)] == MAGIC + s.scanned[id]
  }

  /** An unrestored record has its complete payload, unless that was deleted in spite of the record. */
  ghost predicate RecordOk(hash: Hash, s: State, id: Id)
    requires id in s.records && id in s.scanned && id in s.restored
  {
    && s.records[id].sha == hash(s.scanned[id])
    && (s.records[id].restoredTo.None? ==> if id in s.dropped then Payload(id) !in s.files else PayloadComplete(s, id))
    && (s.records[id].restoredTo.Some? ==> s.records[id].restoredTo.value in s.restored[id])
  }

  ghost predicate OriginalIntact(hash: Hash, s: State, id: Id, path: Path) {
    && id in s.scanned && id in s.origin && s.origin[id] == path && path.UserFile?
    && path in s.files && s.files[path] == s.scanned[id]
  }

  ghost predicate Restoring(s: State, id: Id, dest: Path) {
    id in s.records && id in s.scanned && dest.UserFile? && PayloadComplete(s, id)
  }

  ghost predicate OpOk(hash: Hash, s: State) {
    match s.op
    case Idle => true
    case QCreate(id, owner, path, sha) =>
      OriginalIntact(hash, s, id, path) && sha == hash(s.scanned[id]) && id !in s.records && Payload(id) !in s.files
    case QHeader(id, owner, path, sha) =>
      OriginalIntact(hash, s, id, path) && sha == hash(s.scanned[id]) && id !in s.records
    case QCopy(id, owner, path, sha, copied) =>
      && OriginalIntact(hash, s, id, path) && sha == hash(s.scanned[id]) && id !in s.records
      && copied <= |s.scanned[id]|
      && Payload(id) in s.files && s.files[Payload(id)] == MAGIC + s.scanned[id][..copied]
    case QRecord(id, owner, path, sha) =>
      OriginalIntact(hash, s, id, path) && sha == hash(s.scanned[id]) && id !in s.records && PayloadComplete(s, id)
    case QRemove(id, path) =>
      OriginalIntact(hash, s, id, path) && PayloadComplete(s, id) && id in s.records && s.records[id].restoredTo.None?
      && id !in s.orphaned
    case QUndoRecord(id, path) =>
      OriginalIntact(hash, s, id, path) && id in s.records && s.records[id].restoredTo.None? && id !in s.orphaned
    case QCleanup(id, path) =>
      OriginalIntact(hash, s, id, path) && (id in s.records <==> id in s.orphaned)
      && (id in s.records ==> s.records[id].restoredTo.None?)
    case RHeader(id, dest) => id in s.records && s.records[id].restoredTo.None? && dest.UserFile?
    case RCreate(id, dest) => Restoring(s, id, dest) && s.records[id].restoredTo.None?
    case RCopy(id, dest, copied) =>
      && Restoring(s, id, dest) && s.records[id].restoredTo.None?
      && copied <= |s.scanned[id]| && dest in s.files && s.files[dest] == s.scanned[id][..copied]
    case RVerify(id, dest) =>
      Restoring(s, id, dest) && s.records[id].restoredTo.None? && dest in s.files && s.files[dest] == s.scanned[id]
    case RDiscard(id, dest) => false
    case RMark(id, dest) =>
      && Restoring(s, id, dest) && s.records[id].restoredTo.None?
      && id in s.restored && dest in s.restored[id] && dest in s.files && s.files[dest] == s.scanned[id]
    case RDrop(id, dest) =>
      && Restoring(s, id, dest) && s.records[id].restoredTo.Some?
      && id in s.restored && dest in s.restored[id] && dest in s.files && s.files[dest] == s.scanned[id]
  }

  ghost predicate Conserved(s: State)
    requires Shape(s)
  {
    forall id :: id in s.scanned ==> Preserved(s, id)
  }

  ghost predicate RecordsOk(hash: Hash, s: State)
    requires Shape(s)
  {
    forall id :: id in s.records ==> RecordOk(hash, s, id)
  }

  ghost predicate Inv(hash: Hash, s: State) {
    Shape(s) && OpOk(hash, s) && RecordsOk(hash, s) && Conserved(s)
  }

  // ---------- Every step keeps it ----------

  /** A step that leaves every settled file settled and unchanged loses nothing. */
  ghost predicate KeepsSettled(s: State, t: State, removed: Option<Path>) {
    && s.scanned.Keys <= t.scanned.Keys && s.origin.Keys <= t.origin.Keys && s.restored.Keys <= t.restored.Keys
    && (forall id :: id in s.scanned ==> t.scanned[id] == s.scanned[id])
    && (forall id :: id in s.origin ==> t.origin[id] == s.origin[id])
    && (forall id :: id in s.restored ==> s.restored[id] <= t.restored[id])
    && (forall p :: p in s.files && Some(p) != Flux(s.op) && Some(p) != removed ==>
          p in t.files && t.files[p] == s.files[p] && Some(p) != Flux(t.op))
  }

  lemma HeldStays(s: State, t: State, id: Id)
    requires Shape(s) && Shape(t) && id in s.scanned && HeldBy(s, id) && KeepsSettled(s, t, None)
    ensures HeldBy(t, id)
  {
    if d :| d in s.restored[id] && At(s, d, s.scanned[id]) {
      assert At(t, d, t.scanned[id]);
    }
  }

  lemma PreservedStays(s: State, t: State, id: Id)
    requires Shape(s) && Shape(t) && id in s.scanned && Preserved(s, id) && KeepsSettled(s, t, None)
    ensures id in t.scanned && Preserved(t, id)
  {
    hide HeldBy, Flux;
    var holder :| holder in s.scanned && s.scanned[holder] == s.scanned[id] && HeldBy(s, holder);
    HeldStays(s, t, holder);
    assert t.scanned[holder] == s.scanned[holder] == t.scanned[id];
  }

  lemma ConservedStays(s: State, t: State)
    requires Shape(s) && Shape(t) && Conserved(s) && KeepsSettled(s, t, None)
    requires forall id :: id in t.scanned && id !in s.scanned ==> HeldBy(t, id)
    ensures Conserved(t)
  {
    hide KeepsSettled, HeldBy, Preserved;
    forall id | id in t.scanned ensures Preserved(t, id) {
      if id in s.scanned {
        PreservedStays(s, t, id);
      } else {
        HeldIsPreserved(t, id);
      }
    }
  }

  lemma HeldIsPreserved(s: State, id: Id)
    requires Shape(s) && id in s.scanned && HeldBy(s, id)
    ensures Preserved(s, id)
  {
  }

  /** Without one user file, an id is still held, unless that file had exactly its bytes. */
  lemma HolderMoves(s: State, t: State, holder: Id, path: Path)
    requires Shape(s) && holder in s.scanned && HeldBy(s, holder)
    requires path.UserFile? && path in s.files && t == s.(files := s.files - {path}, op := Idle)
    ensures HeldBy(t, holder) || s.scanned[holder] == s.files[path]
  {
    if d :| d in s.restored[holder] && At(s, d, s.scanned[holder]) {
      if d != path { assert At(t, d, t.scanned[holder]); }
    }
  }

  /** Removing the original after the payload is recorded: whatever was held there is held again
      by the new payload. */
  lemma OriginalRemoved(hash: Hash, s: State, t: State, x: Id)
    requires Shape(s) && Shape(t) && OpOk(hash, s) && s.op.QRemove? && x in s.scanned && Preserved(s, x)
    requires t == s.(files := s.files - {s.op.path}, op := Idle)
    ensures Preserved(t, x)
  {
    var id, path := s.op.id, s.op.path;
    assert At(t, Payload(id), MAGIC + t.scanned[id]);
    assert HeldBy(t, id) && path in s.files && s.files[path] == s.scanned[id] && path.UserFile?;
    hide HeldBy, Flux, OpOk;
    var holder :| holder in s.scanned && s.scanned[holder] == s.scanned[x] && HeldBy(s, holder);
    HolderMoves(s, t, holder, path);
  }

  lemma HolderKeeps(s: State, t: State, holder: Id, id: Id)
    requires Shape(s) && holder in s.scanned && HeldBy(s, holder) && holder != id
    requires t == s.(files := s.files - {Payload(id)}, op := Idle)
    ensures HeldBy(t, holder)
  {
    if d :| d in s.restored[holder] && At(s, d, s.scanned[holder]) {
      assert holder in s.restored && d.UserFile?;
      assert At(t, d, t.scanned[holder]);
    }
  }

  /** Dropping the payload after a restore: the restored file holds what the payload held. */
  lemma PayloadDropped(hash: Hash, s: State, t: State, x: Id)
    requires Shape(s) && Shape(t) && OpOk(hash, s) && s.op.RDrop? && x in s.scanned && Preserved(s, x)
    requires t == s.(files := s.files - {Payload(s.op.id)}, op := Idle)
    ensures Preserved(t, x)
  {
    var id, dest := s.op.id, s.op.dest;
    assert At(t, dest, t.scanned[id]);
    assert HeldBy(t, id);
    hide HeldBy, Flux, OpOk;
    var holder :| holder in s.scanned && s.scanned[holder] == s.scanned[x] && HeldBy(s, holder);
    if holder != id { HolderKeeps(s, t, holder, id); }
  }

  lemma QuarantineShape(hash: Hash, s: State, count: nat)
    requires Shape(s) && OpOk(hash, s) && IsQuarantine(s.op) && !s.op.QCopy?
    ensures Shape(QuarantineSucceeds(hash, s, count)) && QuarantineSucceeds(hash, s, count).scanned == s.scanned
  {
    hide MAGIC, CopyIn;
  }

  lemma QuarantineOpOk(hash: Hash, s: State, count: nat)
    requires Shape(s) && OpOk(hash, s) && RecordsOk(hash, s) && IsQuarantine(s.op) && !s.op.QCopy?
    ensures OpOk(hash, QuarantineSucceeds(hash, s, count))
  {
    hide MAGIC, CopyIn;
  }

  lemma QuarantineRecords(hash: Hash, s: State, count: nat)
    requires Shape(s) && OpOk(hash, s) && RecordsOk(hash, s) && IsQuarantine(s.op) && !s.op.QCopy?
    ensures Shape(QuarantineSucceeds(hash, s, count)) && RecordsOk(hash, QuarantineSucceeds(hash, s, count))
  {
    hide MAGIC, CopyIn;
    QuarantineShape(hash, s, count);
  }

  lemma QuarantineSettled(hash: Hash, s: State, count: nat)
    requires Shape(s) && OpOk(hash, s) && IsQuarantine(s.op) && !s.op.QCopy? && !s.op.QRemove?
    ensures KeepsSettled(s, QuarantineSucceeds(hash, s, count), None)
  {
    hide MAGIC, CopyIn;
  }

  lemma CopyInShape(hash: Hash, s: State, count: nat)
    requires Shape(s) && OpOk(hash, s) && s.op.QCopy?
    ensures Shape(CopyIn(hash, s, count)) && CopyIn(hash, s, count).scanned == s.scanned
  {
    hide MAGIC;
  }

  lemma NextChunk(header: Bytes, body: Bytes, copied: nat, count: nat)
    requires copied <= |body|
    ensures var chunk := Chunk(header + body, |header| + copied, count);
            && copied + |chunk| <= |body| && body[..copied] + chunk == body[..copied + |chunk|]
            && (chunk == [] ==> copied == |body|)
  {
    var chunk := Chunk(header + body, |header| + copied, count);
    assert forall i :: 0 <= i < |chunk| ==> chunk[i] == (header + body)[|header| + copied + i] == body[copied + i];
  }

  lemma PayloadGrows(body: Bytes, copied: nat, count: nat)
    requires copied <= |body|
    ensures var chunk, payload := Chunk(body, copied, count), MAGIC + body[..copied];
            && copied + |chunk| <= |body| && payload + chunk == MAGIC + body[..copied + |chunk|]
            && (chunk == [] ==> payload == MAGIC + body)
            && payload[Min(|MAGIC|, |payload|)..] == body[..copied]
  {
    assert [] + body == body && body[..|body|] == body;
    NextChunk([], body, copied, count);
    var chunk := Chunk(body, copied, count);
    hide MAGIC, Chunk;
    Appended(MAGIC, body[..copied], chunk, body[..copied + |chunk|]);
  }

  lemma Appended(header: Bytes, before: Bytes, chunk: Bytes, after: Bytes)
    requires before + chunk == after
    ensures header + before + chunk == header + after && (header + before)[|header|..] == before
  {
    assert header + before + chunk == header + (before + chunk);
  }

  lemma CopyInOpOk(hash: Hash, s: State, count: nat)
    requires Shape(s) && OpOk(hash, s) && RecordsOk(hash, s) && s.op.QCopy?
    ensures OpOk(hash, CopyIn(hash, s, count))
  {
    PayloadGrows(s.scanned[s.op.id], s.op.copied, count);
    hide MAGIC, Chunk, Shape, RecordsOk;
  }

  lemma CopyInRecords(hash: Hash, s: State, count: nat)
    requires Shape(s) && OpOk(hash, s) && RecordsOk(hash, s) && s.op.QCopy?
    ensures Shape(CopyIn(hash, s, count)) && RecordsOk(hash, CopyIn(hash, s, count))
  {
    hide MAGIC;
    CopyInShape(hash, s, count);
  }

  lemma CopyInSettled(hash: Hash, s: State, count: nat)
    requires Shape(s) && OpOk(hash, s) && s.op.QCopy?
    ensures KeepsSettled(s, CopyIn(hash, s, count), None)
  {
    hide MAGIC;
  }

  lemma RestoreShape(hash: Hash, s: State, count: nat)
    requires Shape(s) && OpOk(hash, s) && IsRestore(s.op) && !s.op.RCopy?
    ensures Shape(RestoreSucceeds(hash, s, count)) && RestoreSucceeds(hash, s, count).scanned == s.scanned
  {
    RestoreFacts(hash, s);
    hide MAGIC, CopyBack, OpOk;
  }

  lemma RestoreOpOk(hash: Hash, s: State, count: nat)
    requires Shape(s) && OpOk(hash, s) && RecordsOk(hash, s) && IsRestore(s.op) && !s.op.RCopy?
    ensures OpOk(hash, RestoreSucceeds(hash, s, count))
  {
    hide MAGIC, CopyBack;
  }

  lemma RestoreRecords(hash: Hash, s: State, count: nat)
    requires Shape(s) && OpOk(hash, s) && RecordsOk(hash, s) && IsRestore(s.op) && !s.op.RCopy?
    ensures Shape(RestoreSucceeds(hash, s, count)) && RecordsOk(hash, RestoreSucceeds(hash, s, count))
  {
    RestoreShape(hash, s, count);
    hide MAGIC, CopyBack, Shape, RecordOk;
    var t := RestoreSucceeds(hash, s, count);
    forall id | id in t.records ensures RecordOk(hash, t, id) {
      assert Shape(s) && id in s.scanned by { RestoreKeys(hash, s, count, id); }
      assert RecordOk(hash, s, id);
      RestoreFacts(hash, s);
      RestoreRecord(hash, s, count, id);
    }
  }

  ghost predicate DestinationKnown(s: State) {
    && (s.op.RMark? ==> s.op.id in s.restored && s.op.dest in s.restored[s.op.id])
    && (s.op.RDrop? ==> s.op.id in s.records && s.records[s.op.id].restoredTo.Some?)
    && (s.op.RCreate? || s.op.RVerify? ==> s.op.dest.UserFile?)
    && !s.op.RDiscard?
  }

  lemma RestoreFacts(hash: Hash, s: State)
    requires OpOk(hash, s) && IsRestore(s.op)
    ensures DestinationKnown(s)
  {
  }

  lemma RestoreKeys(hash: Hash, s: State, count: nat, id: Id)
    requires Shape(s) && IsRestore(s.op) && !s.op.RCopy? && id in RestoreSucceeds(hash, s, count).records
    ensures id in s.records && id in s.scanned && id in s.restored
  {
    hide MAGIC, CopyBack;
  }

  lemma RestoreRecord(hash: Hash, s: State, count: nat, id: Id)
    requires Shape(s) && DestinationKnown(s) && IsRestore(s.op) && !s.op.RCopy?
    requires id in s.records && RecordOk(hash, s, id)
    ensures var t := RestoreSucceeds(hash, s, count);
            id in t.records && id in t.scanned && id in t.restored && RecordOk(hash, t, id)
  {
    if s.op.RMark? || s.op.RVerify? {
      MarkRecord(hash, s, count, id);
    } else {
      hide MAGIC, CopyBack;
    }
  }

  lemma MarkRecord(hash: Hash, s: State, count: nat, id: Id)
    requires Shape(s) && DestinationKnown(s) && (s.op.RMark? || s.op.RVerify?)
    requires id in s.records && RecordOk(hash, s, id)
    ensures var t := RestoreSucceeds(hash, s, count);
            id in t.records && id in t.scanned && id in t.restored && RecordOk(hash, t, id)
  {
    hide MAGIC, CopyBack;
  }

  lemma RestoreSettled(hash: Hash, s: State, count: nat)
    requires Shape(s) && OpOk(hash, s) && IsRestore(s.op) && !s.op.RCopy? && !s.op.RDrop?
    ensures KeepsSettled(s, RestoreSucceeds(hash, s, count), None)
  {
    hide MAGIC, CopyBack;
  }

  lemma CopyBackShape(hash: Hash, s: State, count: nat)
    requires Shape(s) && OpOk(hash, s) && s.op.RCopy?
    ensures Shape(CopyBack(s, count)) && CopyBack(s, count).scanned == s.scanned
  {
    hide MAGIC;
  }

  lemma CopyBackOpOk(hash: Hash, s: State, count: nat)
    requires Shape(s) && OpOk(hash, s) && RecordsOk(hash, s) && s.op.RCopy?
    ensures OpOk(hash, CopyBack(s, count))
  {
    NextChunk(MAGIC, s.scanned[s.op.id], s.op.copied, count);
    hide MAGIC, Chunk, Shape, RecordsOk;
    assert s.scanned[s.op.id][..|s.scanned[s.op.id]|] == s.scanned[s.op.id];
  }

  lemma CopyBackRecords(hash: Hash, s: State, count: nat)
    requires Shape(s) && OpOk(hash, s) && RecordsOk(hash, s) && s.op.RCopy?
    ensures Shape(CopyBack(s, count)) && RecordsOk(hash, CopyBack(s, count))
  {
    hide MAGIC;
    CopyBackShape(hash, s, count);
  }

  lemma CopyBackSettled(hash: Hash, s: State, count: nat)
    requires Shape(s) && OpOk(hash, s) && s.op.RCopy?
    ensures KeepsSettled(s, CopyBack(s, count), None)
  {
    hide MAGIC;
  }

  lemma FailShape(hash: Hash, s: State, count: nat)
    requires Shape(s) && OpOk(hash, s) && s.op != Idle
    ensures Shape(Fail(s, count)) && Fail(s, count).scanned == s.scanned
  {
    hide MAGIC;
  }

  lemma FailOpOk(hash: Hash, s: State, count: nat)
    requires Shape(s) && OpOk(hash, s) && RecordsOk(hash, s) && s.op != Idle
    ensures OpOk(hash, Fail(s, count))
  {
    hide MAGIC;
  }

  lemma FailRecords(hash: Hash, s: State, count: nat)
    requires Shape(s) && OpOk(hash, s) && RecordsOk(hash, s) && s.op != Idle
    ensures Shape(Fail(s, count)) && RecordsOk(hash, Fail(s, count))
  {
    hide MAGIC;
    FailShape(hash, s, count);
  }

  lemma FailSettled(hash: Hash, s: State, count: nat)
    requires Shape(s) && OpOk(hash, s) && s.op != Idle
    ensures KeepsSettled(s, Fail(s, count), None)
  {
    hide MAGIC;
  }

  lemma SucceedKeeps(hash: Hash, s: State, count: nat)
    requires Inv(hash, s) && s.op != Idle
    ensures Inv(hash, Succeed(hash, s, count))
  {
    hide OpOk, RecordsOk, Preserved, KeepsSettled, HeldBy, CopyIn, CopyBack;
    var t := Succeed(hash, s, count);
    if s.op.QCopy? {
      CopyInShape(hash, s, count);
      CopyInOpOk(hash, s, count);
      CopyInRecords(hash, s, count);
      CopyInSettled(hash, s, count);
      ConservedStays(s, t);
    } else if s.op.RCopy? {
      CopyBackShape(hash, s, count);
      CopyBackOpOk(hash, s, count);
      CopyBackRecords(hash, s, count);
      CopyBackSettled(hash, s, count);
      ConservedStays(s, t);
    } else if IsRestore(s.op) {
      RestoreShape(hash, s, count);
      RestoreOpOk(hash, s, count);
      RestoreRecords(hash, s, count);
      if s.op.RDrop? {
        forall x | x in s.scanned ensures Preserved(t, x) { PayloadDropped(hash, s, t, x); }
      } else {
        RestoreSettled(hash, s, count);
        ConservedStays(s, t);
      }
    } else {
      QuarantineShape(hash, s, count);
      QuarantineOpOk(hash, s, count);
      QuarantineRecords(hash, s, count);
      if s.op.QRemove? {
        forall x | x in s.scanned ensures Preserved(t, x) { OriginalRemoved(hash, s, t, x); }
      } else {
        QuarantineSettled(hash, s, count);
        ConservedStays(s, t);
      }
    }
  }

  lemma FailKeeps(hash: Hash, s: State, count: nat)
    requires Inv(hash, s) && s.op != Idle
    ensures Inv(hash, Fail(s, count))
  {
    hide Shape, OpOk, RecordsOk, Preserved, KeepsSettled, HeldBy;
    FailShape(hash, s, count);
    FailOpOk(hash, s, count);
    FailRecords(hash, s, count);
    FailSettled(hash, s, count);
    ConservedStays(s, Fail(s, count));
  }

  lemma CrashKeeps(hash: Hash, s: State)
    requires Inv(hash, s)
    ensures Inv(hash, s.(op := Idle))
  {
    hide MAGIC, HeldBy, Preserved;
    ConservedStays(s, s.(op := Idle));
  }

  lemma OutsideKeeps(hash: Hash, s: State, name: string, bytes: Bytes)
    requires Inv(hash, s) && UserFile(name) !in s.files
    ensures Inv(hash, s.(files := s.files[UserFile(name) := bytes]))
  {
    hide MAGIC, HeldBy, Preserved;
    var t := s.(files := s.files[UserFile(name) := bytes]);
    OutsideRest(hash, s, name, bytes);
    hide Shape, OpOk, RecordOk;
    ConservedStays(s, t);
  }

  lemma OutsideRest(hash: Hash, s: State, name: string, bytes: Bytes)
    requires Shape(s) && OpOk(hash, s) && RecordsOk(hash, s) && UserFile(name) !in s.files
    ensures var t := s.(files := s.files[UserFile(name) := bytes]);
            Shape(t) && OpOk(hash, t) && RecordsOk(hash, t) && KeepsSettled(s, t, None)
  {
    hide MAGIC;
  }

  lemma BeginKeeps(hash: Hash, s: State, step: Step)
    requires Inv(hash, s) && (step.BeginQuarantine? || step.BeginRestore?) && Apply(hash, s, step).Some?
    ensures Inv(hash, Apply(hash, s, step).value)
  {
    hide MAGIC, Preserved;
    var t := Apply(hash, s, step).value;
    BeginRest(hash, s, step);
    BeginSettled(hash, s, step);
    hide OpOk, RecordsOk, Shape, KeepsSettled, Apply;
    ConservedStays(s, t);
  }

  lemma BeginRest(hash: Hash, s: State, step: Step)
    requires Shape(s) && OpOk(hash, s) && RecordsOk(hash, s)
    requires (step.BeginQuarantine? || step.BeginRestore?) && Apply(hash, s, step).Some?
    ensures var t := Apply(hash, s, step).value; Shape(t) && OpOk(hash, t) && RecordsOk(hash, t)
  {
    hide MAGIC;
  }

  lemma BeginSettled(hash: Hash, s: State, step: Step)
    requires Shape(s) && (step.BeginQuarantine? || step.BeginRestore?) && Apply(hash, s, step).Some?
    ensures KeepsSettled(s, Apply(hash, s, step).value, None)
    ensures step.BeginQuarantine? ==>
              var t := Apply(hash, s, step).value;
              step.id in t.scanned && At(t, step.path, t.scanned[step.id])
  {
    hide MAGIC;
  }

  lemma {:induction false} RunKeeps(hash: Hash, steps: seq<Step>)
    requires Run(hash, steps).Some?
    ensures Inv(hash, Run(hash, steps).value)
  {
    hide Inv, Succeed, Fail;
    if steps == [] {
      EmptyInv(hash);
    } else {
      var n := |steps| - 1;
      RunKeeps(hash, steps[..n]);
      var s := Run(hash, steps[..n]).value;
      match steps[n]
      case Success(count) => SucceedKeeps(hash, s, count);
      case Failure(count) => FailKeeps(hash, s, count);
      case Crash => CrashKeeps(hash, s);
      case OutsideCreate(name, bytes) => OutsideKeeps(hash, s, name, bytes);
      case _ => BeginKeeps(hash, s, steps[n]);
    }
  }

  lemma EmptyInv(hash: Hash)
    ensures Inv(hash, EMPTY)
  {
  }

  // ---------- What clients may rely on ----------

  lemma PreservedSomewhere(s: State, id: Id)
    requires Aligned(s) && id in s.scanned && Preserved(s, id)
    ensures exists p :: p in s.files && (s.files[p] == s.scanned[id] || s.files[p] == MAGIC + s.scanned[id])
  {
    hide MAGIC;
    var holder :| holder in s.scanned && s.scanned[holder] == s.scanned[id] && HeldBy(s, holder);
    if d :| d in s.restored[holder] && At(s, d, s.scanned[holder]) {
      assert d in s.files;
    }
  }

  /** In every state of every run each scanned file exists complete somewhere. */
  lemma ContentSurvives(hash: Hash, steps: seq<Step>, s: State, id: Id)
    requires Run(hash, steps) == Some(s) && id in s.scanned
    ensures Aligned(s) && Preserved(s, id)
    ensures exists p :: p in s.files && (s.files[p] == s.scanned[id] || s.files[p] == MAGIC + s.scanned[id])
  {
    hide MAGIC, HeldBy, Run, OpOk, RecordsOk, Preserved;
    RunKeeps(hash, steps);
    PreservedSomewhere(s, id);
  }

  ghost predicate Untouched(s: State, t: State, p: Path)
    requires p in s.files
  {
    || (p in t.files && t.files[p] == s.files[p])
    || Flux(s.op) == Some(p)
    || (s.op.QRemove? && s.op.path == p && s.op.id in t.scanned && PayloadComplete(t, s.op.id)
        && t.scanned[s.op.id] == s.files[p])
  }

  lemma StepUntouched(hash: Hash, s: State, step: Step, p: Path)
    requires Shape(s) && OpOk(hash, s) && Apply(hash, s, step).Some? && p.UserFile? && p in s.files
    ensures Untouched(s, Apply(hash, s, step).value, p)
  {
    hide MAGIC;
    match step
    case Success(count) =>
      if s.op.QCopy? {
        CopyInSettled(hash, s, count);
      } else if s.op.RCopy? {
        CopyBackSettled(hash, s, count);
      } else if IsRestore(s.op) {
        if !s.op.RDrop? { RestoreSettled(hash, s, count); }
      } else if !s.op.QRemove? {
        QuarantineSettled(hash, s, count);
      }
    case Failure(count) => FailSettled(hash, s, count);
    case _ =>
  }

  /** No step overwrites or deletes a client's file, except the original of a verified payload and
      the destination this very restore created. */
  lemma NeverOverwrites(hash: Hash, steps: seq<Step>, s: State, step: Step, t: State, p: Path)
    requires Run(hash, steps) == Some(s) && Apply(hash, s, step) == Some(t)
    requires p.UserFile? && p in s.files
    ensures Untouched(s, t, p)
  {
    hide Run, Shape, OpOk, Apply, Untouched, RecordsOk, Conserved;
    RunKeeps(hash, steps);
    StepUntouched(hash, s, step, p);
  }

  lemma StepRestores(hash: Hash, s: State, step: Step, id: Id)
    requires Shape(s) && OpOk(hash, s) && Apply(hash, s, step).Some?
    requires var t := Apply(hash, s, step).value;
             id in s.records && id in t.records && s.records[id].restoredTo.None? && t.records[id].restoredTo.Some?
    ensures s.op.RMark? && s.op.id == id && step.Success?
    ensures var t := Apply(hash, s, step).value;
            t.files == s.files && t.records[id].restoredTo == Some(s.op.dest)
  {
    hide MAGIC, OpOk;
  }

  /** A record becomes restored only when its destination holds exactly the scanned bytes. */
  lemma RestoredExactly(hash: Hash, steps: seq<Step>, s: State, step: Step, t: State, id: Id)
    requires Run(hash, steps) == Some(s) && Apply(hash, s, step) == Some(t)
    requires id in s.records && id in t.records && s.records[id].restoredTo.None? && t.records[id].restoredTo.Some?
    ensures id in s.scanned && t.records[id].restoredTo.value in t.files
    ensures t.files[t.records[id].restoredTo.value] == s.scanned[id]
  {
    hide Run, Apply, OpOk, RecordsOk, Conserved, MAGIC;
    RunKeeps(hash, steps);
    StepRestores(hash, s, step, id);
    MarkFacts(hash, s);
  }

  lemma MarkFacts(hash: Hash, s: State)
    requires OpOk(hash, s) && s.op.RMark?
    ensures s.op.id in s.scanned && s.op.dest in s.files && s.files[s.op.dest] == s.scanned[s.op.id]
  {
    hide MAGIC;
  }

  /** In every run an unrestored record has its complete payload if and only if the payload was not
      deleted after the compensating delete of the record failed. */
  lemma UnrestoredHasPayload(hash: Hash, steps: seq<Step>, s: State, id: Id)
    requires Run(hash, steps) == Some(s) && id in s.records && s.records[id].restoredTo.None?
    ensures id in s.scanned && s.records[id].sha == hash(s.scanned[id])
    ensures PayloadComplete(s, id) <==> id !in s.dropped
    ensures id in s.dropped ==> id in s.orphaned && Payload(id) !in s.files
  {
    hide Run, OpOk, Conserved, MAGIC;
    RunKeeps(hash, steps);
    assert RecordOk(hash, s, id);
  }

  const X := UserFile("x")

  /** A quarantine of an empty file, up to the point where the original is to be removed. */
  function AtRemoval(hash: Hash): State {
    State(map[X := [], Payload(0) := MAGIC], map[0 := Record("o", X, hash([]), None)], QRemove(0, X),
          map[0 := []], map[0 := X], map[0 := {}], {}, {})
  }

  lemma Extend(hash: Hash, steps: seq<Step>, step: Step, s: State, t: State)
    requires Run(hash, steps) == Some(s) && Apply(hash, s, step) == Some(t)
    ensures Run(hash, steps + [step]) == Some(t)
  {
    hide Apply;
    assert (steps + [step])[..|steps|] == steps;
  }

  lemma ReachCreate(hash: Hash) returns (steps: seq<Step>, s: State)
    ensures Run(hash, steps) == Some(s)
    ensures s == State(map[X := []], map[], QCreate(0, "o", X, hash([])), map[0 := []], map[0 := X], map[0 := {}], {}, {})
  {
    hide MAGIC, Run;
    steps, s := [], EMPTY;
    assert Run(hash, steps) == Some(s) by { RunNothing(hash); }
    var s1 := EMPTY.(files := map[X := []]);
    Extend(hash, steps, OutsideCreate("x", []), s, s1);
    steps := steps + [OutsideCreate("x", [])];
    s := s1.(op := QCreate(0, "o", X, hash([])), scanned := map[0 := []], origin := map[0 := X], restored := map[0 := {}]);
    Extend(hash, steps, BeginQuarantine(0, "o", X), s1, s);
    steps := steps + [BeginQuarantine(0, "o", X)];
  }

  lemma ReachCopy(hash: Hash) returns (steps: seq<Step>, s: State)
    ensures Run(hash, steps) == Some(s)
    ensures s == State(map[X := [], Payload(0) := MAGIC], map[], QCopy(0, "o", X, hash([]), 0),
                       map[0 := []], map[0 := X], map[0 := {}], {}, {})
  {
    hide MAGIC, Run;
    var s2;
    steps, s2 := ReachCreate(hash);
    var s3 := Put(s2, Payload(0), [], QHeader(0, "o", X, hash([])));
    Extend(hash, steps, Success(0), s2, s3);
    steps := steps + [Success(0)];
    s := Put(s3, Payload(0), MAGIC, QCopy(0, "o", X, hash([]), 0));
    Extend(hash, steps, Success(0), s3, s);
    steps := steps + [Success(0)];
  }

  lemma RunNothing(hash: Hash)
    ensures Run(hash, []) == Some(EMPTY)
  {
  }

  lemma ReachRemoval(hash: Hash) returns (steps: seq<Step>)
    ensures Run(hash, steps) == Some(AtRemoval(hash))
  {
    hide Run;
    var s;
    steps, s := ReachCopy(hash);
    assert MAGIC[|MAGIC|..] == [];
    hide MAGIC;
    var s1 := s.(op := QRecord(0, "o", X, hash([])));
    Extend(hash, steps, Success(0), s, s1);
    steps := steps + [Success(0)];
    Extend(hash, steps, Success(0), s1, AtRemoval(hash));
    steps := steps + [Success(0)];
  }

  /** ... and the exception is real: the original could not be deleted, nor could the record, but
      the payload could. */
  lemma OrphanedRecord(hash: Hash) returns (steps: seq<Step>, s: State)
    ensures Run(hash, steps) == Some(s)
    ensures 0 in s.records && s.records[0].restoredTo.None? && Payload(0) !in s.files && s.dropped == {0}
  {
    hide Run, MAGIC;
    steps := ReachRemoval(hash);
    s := AtRemoval(hash);
    var s1 := s.(op := QUndoRecord(0, X));
    Extend(hash, steps, Failure(0), s, s1);
    steps := steps + [Failure(0)];
    var s2 := s1.(op := QCleanup(0, X), orphaned := {} + {0});
    Extend(hash, steps, Failure(0), s1, s2);
    steps := steps + [Failure(0)];
    s := s2.(files := s2.files - {Payload(0)}, op := Idle, dropped := {} + {0});
    Extend(hash, steps, Success(0), s2, s);
    steps := steps + [Success(0)];
  }
}
