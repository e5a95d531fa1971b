// Uploads, attach-from-Brain, deletes, sweeps and room changes interleaved at the
// points where they take row locks, write files and commit.
module BlobProtocol {
  import opened Common
  import opened BlobStore

  // One transaction in progress. Holding a row lock is part of the phase.
  datatype Actor =
    | Done
      // an upload, its content already streamed to a temp file
    | UpWait(room: nat, hash: nat, size: nat, temp: bool)
    | UpRoom(room: nat, hash: nat, size: nat, temp: bool)                  // room row locked, checks passed
    | UpDedup(room: nat, hash: nat)                                        // ... and the existing blob row locked
    | UpNoRow(room: nat, hash: nat, size: nat, temp: bool)                 // ... no blob row was found
    | UpStats(room: nat, hash: nat, size: nat, temp: bool, seenTotal: int) // ... counter row locked, ceiling passed
    | UpPlaced(room: nat, hash: nat, size: nat, seenTotal: int)            // ... file at its final path
      // attach from Brain
    | BrWait(room: nat, doc: nat, hash: nat)
    | BrRoom(room: nat, doc: nat, hash: nat)
      // reclaim of one candidate
    | RcWait(hash: nat, cutoff: int)
    | RcLocked(hash: nat, cutoff: int)
    | RcCleared(hash: nat, cutoff: int)                                    // found unreferenced
    | RcStats(hash: nat, cutoff: int, seenTotal: int)
    | RcUnlink(hash: nat)                                                  // committed, file not yet unlinked

  function RoomLock(a: Actor): Option<nat> {
    match a
    case UpRoom(r, _, _, _) => Some(r)
    case UpDedup(r, _) => Some(r)
    case UpNoRow(r, _, _, _) => Some(r)
    case UpStats(r, _, _, _, _) => Some(r)
    case UpPlaced(r, _, _, _) => Some(r)
    case BrRoom(r, _, _) => Some(r)
    case _ => None
  }

  function BlobLock(a: Actor): Option<nat> {
    match a
    case UpDedup(_, h) => Some(h)
    case RcLocked(h, _) => Some(h)
    case RcCleared(h, _) => Some(h)
    case RcStats(h, _, _) => Some(h)
    case _ => None
  }

  predicate StatsLock(a: Actor) {
    a.UpStats? || a.UpPlaced? || a.RcStats?
  }

  // Reclaims that have already found their blob unreferenced.
  predicate HasCutoff(a: Actor) {
    a.RcCleared? || a.RcStats?
  }

  // No two transactions hold the same row.
  predicate Compatible(a: Actor, b: Actor) {
    && (RoomLock(a).Some? ==> RoomLock(a) != RoomLock(b))
    && (BlobLock(a).Some? ==> BlobLock(a) != BlobLock(b))
    && !(StatsLock(a) && StatsLock(b))
  }

  datatype Sys = Sys(db: Db, files: set<nat>, now: int, actors: seq<Actor>)

  predicate RoomFree(s: Sys, r: nat) {
    forall i :: 0 <= i < |s.actors| ==> RoomLock(s.actors[i]) != Some(r)
  }

  predicate BlobFree(s: Sys, h: nat) {
    forall i :: 0 <= i < |s.actors| ==> BlobLock(s.actors[i]) != Some(h)
  }

  predicate StatsFree(s: Sys) {
    forall i :: 0 <= i < |s.actors| ==> !StatsLock(s.actors[i])
  }

  datatype Step =
    | Tick(amount: nat)
    | CreateRoom(room: nat)
    | CloseRoom(room: nat)
    | DropRoom(room: nat)
    | DropAttachment(att: nat)
    | AddDocument(doc: nat)
    | LinkDocument(doc: nat, hash: nat)
    | Spawn(actor: Actor)
    | Advance(i: nat, newId: nat)  // the actor's next statement
    | GiveUp(i: nat)               // rollback: every lock released, no row written

  // ---------- One actor's next statement ----------

  // Whether the statement can run now: a locked row makes it wait.
  predicate CanAdvance(s: Sys, a: Actor, newId: nat) {
    match a
    case Done => false
    case UpWait(r, _, _, _) => RoomFree(s, r)
    case UpRoom(_, h, _, _) => h in s.db.blobs ==> BlobFree(s, h)
    case UpNoRow(_, _, _, _) => StatsFree(s)
    case UpStats(_, _, _, _, _) => true
    case UpPlaced(_, _, _, _) => newId !in s.db.attachments
    case UpDedup(_, _) => newId !in s.db.attachments
    case BrWait(r, _, _) => RoomFree(s, r)
    case BrRoom(_, _, h) => BlobFree(s, h) && newId !in s.db.attachments
    case RcWait(h, _) => h in s.db.blobs ==> BlobFree(s, h)
    case RcLocked(_, _) => true
    case RcCleared(_, _) => StatsFree(s)
    case RcStats(h, _, _) => h in s.db.blobs
    case RcUnlink(_) => true
  }

  // The room accepts one more file.
  predicate Admits(l: Limits, db: Db, r: nat) {
    r in db.rooms && db.rooms[r].isOpen && |RoomFiles(db, r)| < l.filesPerRoom
  }

  function NextActor(l: Limits, s: Sys, a: Actor): Actor {
    match a
    case Done => Done
    case UpWait(r, h, size, temp) => if Admits(l, s.db, r) then UpRoom(r, h, size, temp) else Done
    case UpRoom(r, h, size, temp) => if h in s.db.blobs then UpDedup(r, h) else UpNoRow(r, h, size, temp)
    case UpNoRow(r, h, size, temp) =>
      if l.ceiling < s.db.totalBytes + size then Done else UpStats(r, h, size, temp, s.db.totalBytes)
    case UpStats(r, h, size, temp, seen) =>
      if h !in s.files && !temp then Done else UpPlaced(r, h, size, seen)
    // a row with this hash appeared meanwhile: unique violation, rollback, retry
    case UpPlaced(r, h, size, _) => if h in s.db.blobs then UpWait(r, h, size, false) else Done
    case UpDedup(_, _) => Done
    case BrWait(r, d, h) => if Admits(l, s.db, r) then BrRoom(r, d, h) else Done
    case BrRoom(r, d, h) => if h in s.db.blobs then Done else BrWait(r, d, h)
    case RcWait(h, cutoff) => if h in s.db.blobs then RcLocked(h, cutoff) else Done
    case RcLocked(h, cutoff) => if Protected(s.db, h, cutoff) then Done else RcCleared(h, cutoff)
    case RcCleared(h, cutoff) => RcStats(h, cutoff, s.db.totalBytes)
    case RcStats(h, _, _) => RcUnlink(h)
    case RcUnlink(_) => Done
  }

  function NextDb(s: Sys, a: Actor, newId: nat): Db
    requires CanAdvance(s, a, newId)
  {
    match a
    case UpPlaced(r, h, size, seen) =>
      if h in s.db.blobs then s.db else WithAttachment(WithBlob(s.db, h, size, seen), newId, r, h)
    case UpDedup(r, h) => WithAttachment(s.db, newId, r, h)
    case BrRoom(r, _, h) => if h in s.db.blobs then WithAttachment(s.db, newId, r, h) else s.db
    case RcStats(h, _, seen) => Reclaimed(s.db, h, seen)
    case _ => s.db
  }

  function NextFiles(s: Sys, a: Actor): set<nat> {
    match a
    case UpStats(_, h, _, temp, _) => if h !in s.files && temp then s.files + {h} else s.files
    case RcUnlink(h) => s.files - {h}
    case _ => s.files
  }

  predicate IsRequest(l: Limits, s: Sys, a: Actor) {
    match a
    case UpWait(_, _, size, temp) => 0 < size && temp
    case BrWait(_, d, h) => d in s.db.documents && s.db.documents[d] == Some(h)
    case RcWait(_, cutoff) => cutoff == s.now - l.grace
    case _ => false
  }

  predicate Enabled(l: Limits, s: Sys, step: Step) {
    match step
    case Tick(_) => true
    case CreateRoom(r) => r !in s.db.rooms
    case CloseRoom(r) => r in s.db.rooms && s.db.rooms[r].isOpen && RoomFree(s, r)
    case DropRoom(r) => r in s.db.rooms && RoomFree(s, r)
    case DropAttachment(a) => a in s.db.attachments
    case AddDocument(d) => d !in s.db.documents
    case LinkDocument(d, h) => d in s.db.documents && s.db.documents[d] == None && h in s.db.blobs && BlobFree(s, h)
    case Spawn(a) => IsRequest(l, s, a)
    case Advance(i, newId) => i < |s.actors| && CanAdvance(s, s.actors[i], newId)
    case GiveUp(i) => i < |s.actors|
  }

  function DbStep(s: Sys, step: Step): Db
    requires step.CloseRoom? ==> step.room in s.db.rooms
  {
    match step
    case CreateRoom(r) => s.db.(rooms := s.db.rooms[r := Room(true, None)])
    case CloseRoom(r) => WithRoomClosed(s.db, r, s.now)
    case DropRoom(r) => WithoutRoom(s.db, r)
    case DropAttachment(a) => WithoutAttachment(s.db, a)
    case AddDocument(d) => s.db.(documents := s.db.documents[d := None])
    case LinkDocument(d, h) => s.db.(documents := s.db.documents[d := Some(h)])
    case _ => s.db
  }

  function Next(l: Limits, s: Sys, step: Step): Sys
    requires Enabled(l, s, step)
  {
    match step
    case Tick(amount) => s.(now := s.now + amount)
    case Spawn(a) => s.(actors := s.actors + [a])
    case GiveUp(i) => s.(actors := s.actors[i := Done])
    case Advance(i, newId) =>
      var a := s.actors[i];
      Sys(NextDb(s, a, newId), NextFiles(s, a), s.now, s.actors[i := NextActor(l, s, a)])
    case _ => s.(db := DbStep(s, step))
  }

  // ---------- What each phase may rely on ----------

  // What was read under a lock is still true of the committed tables.
  predicate ActorInv(l: Limits, db: Db, now: int, a: Actor) {
    && (RoomLock(a).Some? ==> Admits(l, db, RoomLock(a).value))
    && (BlobLock(a).Some? ==> BlobLock(a).value in db.blobs)
    && (a.UpStats? || a.UpPlaced? ==> a.seenTotal == db.totalBytes && a.seenTotal + a.size <= l.ceiling)
    && (a.RcStats? ==> a.seenTotal == db.totalBytes)
    && (a.RcWait? || a.RcLocked? || a.RcCleared? || a.RcStats? ==> a.cutoff <= now - l.grace)
    && (HasCutoff(a) ==> !Protected(db, a.hash, a.cutoff))
    && (a.BrWait? || a.BrRoom? ==> a.doc in db.documents && db.documents[a.doc] == Some(a.hash))
  }

  ghost predicate Inv(l: Limits, s: Sys) {
    && DbInv(l, s.db)
    && (forall i :: 0 <= i < |s.actors| ==> ActorInv(l, s.db, s.now, s.actors[i]))
    && (forall i, j :: 0 <= i < j < |s.actors| ==> Compatible(s.actors[i], s.actors[j]))
  }

  // ---------- Other transactions are not disturbed ----------

  // Facts about the tables that every phase in `a` needs are untouched.
  lemma FrameAttach(l: Limits, db: Db, now: int, newId: nat, r: nat, h: nat, a: Actor)
    requires ActorInv(l, db, now, a) && newId !in db.attachments
    requires RoomLock(a) != Some(r)
    requires HasCutoff(a) ==> a.hash != h
    ensures ActorInv(l, WithAttachment(db, newId, r, h), now, a)
  {
    var t := WithAttachment(db, newId, r, h);
    if RoomLock(a).Some? {
      OneMoreFile(db, newId, r, h, RoomLock(a).value);
    }
    if HasCutoff(a) {
      HeldByRoomMono(t, db, a.hash, a.cutoff);
    }
  }

  lemma FrameBlob(l: Limits, db: Db, now: int, h: nat, size: nat, a: Actor)
    requires ActorInv(l, db, now, a) && h !in db.blobs && !StatsLock(a)
    ensures ActorInv(l, WithBlob(db, h, size, db.totalBytes), now, a)
  {
    var t := WithBlob(db, h, size, db.totalBytes);
    SameReferences(db, t, a);
    if RoomLock(a).Some? {
      assert RoomFiles(t, RoomLock(a).value) == RoomFiles(db, RoomLock(a).value);
    }
  }

  lemma SameReferences(db: Db, t: Db, a: Actor)
    requires t.attachments == db.attachments && t.rooms == db.rooms && t.documents == db.documents
    ensures HasCutoff(a) ==> (Protected(t, a.hash, a.cutoff) <==> Protected(db, a.hash, a.cutoff))
  {
  }

  // Taking references away never protects anything, and only makes room.
  lemma FrameFewer(l: Limits, db: Db, t: Db, now: int, a: Actor)
    requires ActorInv(l, db, now, a)
    requires t.documents == db.documents && t.rooms.Keys <= db.rooms.Keys
    requires forall x :: x in t.attachments ==> x in db.attachments && t.attachments[x] == db.attachments[x]
    requires forall r :: r in t.rooms && RoomProtects(t.rooms[r], if HasCutoff(a) then a.cutoff else 0)
               ==> RoomProtects(db.rooms[r], if HasCutoff(a) then a.cutoff else 0)
    requires RoomLock(a).Some? ==> RoomLock(a).value in t.rooms && t.rooms[RoomLock(a).value].isOpen
    requires BlobLock(a).Some? ==> BlobLock(a).value in t.blobs
    requires StatsLock(a) ==> t.totalBytes == db.totalBytes
    ensures ActorInv(l, t, now, a)
  {
    if RoomLock(a).Some? {
      FewerFiles(db, t, RoomLock(a).value);
    }
    if HasCutoff(a) {
      HeldByRoomMono(t, db, a.hash, a.cutoff);
    }
  }

  // ---------- One advance ----------

  lemma AdvanceDb(l: Limits, s: Sys, a: Actor, newId: nat)
    requires DbInv(l, s.db) && ActorInv(l, s.db, s.now, a) && CanAdvance(s, a, newId)
    ensures DbInv(l, NextDb(s, a, newId))
  {
    match a
    case UpPlaced(r, h, size, seen) =>
      if h !in s.db.blobs {
        BlobKeepsDbInv(l, s.db, h, size);
        var t := WithBlob(s.db, h, size, seen);
        assert RoomFiles(t, r) == RoomFiles(s.db, r);
        AttachKeepsDbInv(l, t, newId, r, h);
      }
    case UpDedup(r, h) => AttachKeepsDbInv(l, s.db, newId, r, h);
    case BrRoom(r, _, h) => if h in s.db.blobs { AttachKeepsDbInv(l, s.db, newId, r, h); }
    case RcStats(h, _, _) => ReclaimKeepsDbInv(l, s.db, h);
    case _ =>
  }

  lemma AdvanceSelf(l: Limits, s: Sys, a: Actor, newId: nat)
    requires DbInv(l, s.db) && ActorInv(l, s.db, s.now, a) && CanAdvance(s, a, newId)
    ensures ActorInv(l, NextDb(s, a, newId), s.now, NextActor(l, s, a))
  {
  }

  lemma AdvanceOther(l: Limits, s: Sys, a: Actor, newId: nat, b: Actor)
    requires DbInv(l, s.db) && ActorInv(l, s.db, s.now, a) && CanAdvance(s, a, newId)
    requires ActorInv(l, s.db, s.now, b) && Compatible(a, b)
    requires a.BrRoom? ==> BlobLock(b) != Some(a.hash)
    ensures ActorInv(l, NextDb(s, a, newId), s.now, b)
  {
    match a
    case UpPlaced(r, h, size, seen) =>
      if h !in s.db.blobs {
        FrameBlob(l, s.db, s.now, h, size, b);
        FrameAttach(l, WithBlob(s.db, h, size, seen), s.now, newId, r, h, b);
      }
    case UpDedup(r, h) => FrameAttach(l, s.db, s.now, newId, r, h, b);
    case BrRoom(r, _, h) => if h in s.db.blobs { FrameAttach(l, s.db, s.now, newId, r, h, b); }
    case RcStats(h, _, seen) => FrameFewer(l, s.db, Reclaimed(s.db, h, seen), s.now, b);
    case _ =>
  }

  // A newly taken lock was free.
  lemma AdvanceLocks(l: Limits, s: Sys, i: nat, newId: nat, j: nat)
    requires i < |s.actors| && j < |s.actors| && i != j && CanAdvance(s, s.actors[i], newId)
    requires Compatible(s.actors[i], s.actors[j]) && Compatible(s.actors[j], s.actors[i])
    ensures Compatible(NextActor(l, s, s.actors[i]), s.actors[j])
    ensures Compatible(s.actors[j], NextActor(l, s, s.actors[i]))
  {
  }

  lemma PairCompatible(l: Limits, s: Sys, i: nat, j: nat)
    requires Inv(l, s) && i < |s.actors| && j < |s.actors| && i != j
    ensures Compatible(s.actors[i], s.actors[j]) && Compatible(s.actors[j], s.actors[i])
  {
    if i < j {
      assert Compatible(s.actors[i], s.actors[j]);
    } else {
      assert Compatible(s.actors[j], s.actors[i]);
    }
  }

  lemma AdvanceInv(l: Limits, s: Sys, i: nat, newId: nat)
    requires Inv(l, s) && Enabled(l, s, Advance(i, newId))
    ensures Inv(l, Next(l, s, Advance(i, newId)))
  {
    var a, t := s.actors[i], Next(l, s, Advance(i, newId));
    AdvanceDb(l, s, a, newId);
    forall j | 0 <= j < |t.actors| ensures ActorInv(l, t.db, t.now, t.actors[j]) {
      if j == i {
        AdvanceSelf(l, s, a, newId);
      } else {
        PairCompatible(l, s, i, j);
        AdvanceOther(l, s, a, newId, s.actors[j]);
      }
    }
    forall j, k | 0 <= j < k < |t.actors| ensures Compatible(t.actors[j], t.actors[k]) {
      if j == i {
        PairCompatible(l, s, i, k);
        AdvanceLocks(l, s, i, newId, k);
      } else if k == i {
        PairCompatible(l, s, i, j);
        AdvanceLocks(l, s, i, newId, j);
      }
    }
  }

  // ---------- The other steps ----------

  lemma DbStepDb(l: Limits, s: Sys, step: Step)
    requires DbInv(l, s.db) && Enabled(l, s, step)
    requires !step.Tick? && !step.Spawn? && !step.GiveUp? && !step.Advance?
    ensures DbInv(l, DbStep(s, step))
  {
    var t := DbStep(s, step);
    match step
    case CreateRoom(room) =>
      assert RoomFiles(s.db, room) == {};
      forall r | r in t.rooms ensures |RoomFiles(t, r)| <= l.filesPerRoom {
        assert RoomFiles(t, r) == RoomFiles(s.db, r);
      }
    case CloseRoom(r) => CloseKeepsDbInv(l, s.db, r, s.now);
    case DropRoom(r) => RoomRemovalKeepsDbInv(l, s.db, r);
    case DropAttachment(a) => DetachKeepsDbInv(l, s.db, a);
    case AddDocument(_) => SameRooms(l, s.db, t);
    case LinkDocument(_, _) => SameRooms(l, s.db, t);
  }

  lemma SameRooms(l: Limits, db: Db, t: Db)
    requires DbInv(l, db) && t.rooms == db.rooms && t.attachments == db.attachments
    ensures forall r :: r in t.rooms ==> |RoomFiles(t, r)| <= l.filesPerRoom
  {
    forall r | r in t.rooms ensures |RoomFiles(t, r)| <= l.filesPerRoom {
      assert RoomFiles(t, r) == RoomFiles(db, r);
    }
  }

  lemma DbStepActor(l: Limits, s: Sys, step: Step, a: Actor)
    requires DbInv(l, s.db) && Enabled(l, s, step) && ActorInv(l, s.db, s.now, a)
    requires step.CloseRoom? || step.DropRoom? ==> RoomLock(a) != Some(step.room)
    requires step.LinkDocument? ==> BlobLock(a) != Some(step.hash)
    requires !step.Tick? && !step.Spawn? && !step.GiveUp? && !step.Advance?
    ensures ActorInv(l, DbStep(s, step), s.now, a)
  {
    var t := DbStep(s, step);
    match step
    case CreateRoom(room) => NewRoomProtectsNothing(l, s.db, t, room, s.now, a);
    case CloseRoom(r) =>
      if HasCutoff(a) && RoomProtects(t.rooms[r], a.cutoff) {
        assert RoomProtects(s.db.rooms[r], a.cutoff);
      }
      FrameFewer(l, s.db, t, s.now, a);
    case DropRoom(_) => FrameFewer(l, s.db, t, s.now, a);
    case DropAttachment(_) => FrameFewer(l, s.db, t, s.now, a);
    case AddDocument(_) =>
      FrameDocuments(l, s.db, t, s.now, a);
    case LinkDocument(_, _) =>
      FrameDocuments(l, s.db, t, s.now, a);
  }

  lemma NewRoomProtectsNothing(l: Limits, db: Db, t: Db, room: nat, now: int, a: Actor)
    requires DbInv(l, db) && ActorInv(l, db, now, a) && room !in db.rooms
    requires t == db.(rooms := db.rooms[room := Room(true, None)])
    ensures ActorInv(l, t, now, a)
  {
    if RoomLock(a).Some? {
      assert RoomFiles(t, RoomLock(a).value) == RoomFiles(db, RoomLock(a).value);
    }
    if HasCutoff(a) {
      assert LinkedToDocument(t, a.hash) <==> LinkedToDocument(db, a.hash);
      HeldByRoomMono(t, db, a.hash, a.cutoff);
    }
  }

  lemma FrameDocuments(l: Limits, db: Db, t: Db, now: int, a: Actor)
    requires ActorInv(l, db, now, a)
    requires t == db.(documents := t.documents)
    requires forall d :: d in db.documents && db.documents[d].Some? ==> d in t.documents && t.documents[d] == db.documents[d]
    requires forall d :: HasCutoff(a) && d in t.documents && t.documents[d] == Some(a.hash)
               ==> d in db.documents && db.documents[d] == Some(a.hash)
    ensures ActorInv(l, t, now, a)
  {
    if RoomLock(a).Some? {
      assert RoomFiles(t, RoomLock(a).value) == RoomFiles(db, RoomLock(a).value);
    }
    if HasCutoff(a) {
      assert HeldByRoom(t, a.hash, a.cutoff) <==> HeldByRoom(db, a.hash, a.cutoff);
      assert LinkedToDocument(t, a.hash) ==> LinkedToDocument(db, a.hash);
    }
  }

  lemma InvNext(l: Limits, s: Sys, step: Step)
    requires Inv(l, s) && Enabled(l, s, step)
    ensures Inv(l, Next(l, s, step))
  {
    match step
    case Tick(_) =>
    case GiveUp(i) =>
    case Advance(i, newId) => AdvanceInv(l, s, i, newId);
    case Spawn(a) =>
    case _ => DbStepInv(l, s, step);
  }

  // The steps that change the tables in one statement.
  lemma DbStepInv(l: Limits, s: Sys, step: Step)
    requires Inv(l, s) && Enabled(l, s, step)
    requires !step.Tick? && !step.Spawn? && !step.GiveUp? && !step.Advance?
    ensures Inv(l, Next(l, s, step))
  {
    assert Next(l, s, step) == s.(db := DbStep(s, step));
    DbStepDb(l, s, step);
    forall i | 0 <= i < |s.actors| ensures ActorInv(l, DbStep(s, step), s.now, s.actors[i]) {
      DbStepActor(l, s, step, s.actors[i]);
    }
  }

  // ---------- Whole runs ----------

  predicate Runs(l: Limits, s: Sys, steps: seq<Step>)
    decreases |steps|
  {
    steps == [] || (Enabled(l, s, steps[0]) && Runs(l, Next(l, s, steps[0]), steps[1..]))
  }

  function After(l: Limits, s: Sys, steps: seq<Step>): Sys
    requires Runs(l, s, steps)
    decreases |steps|
  {
    if steps == [] then s else After(l, Next(l, s, steps[0]), steps[1..])
  }

  // Consistent tables, every stored blob on disk, nothing in progress.
  ghost predicate Init(l: Limits, s: Sys) {
    DbInv(l, s.db) && s.db.blobs.Keys <= s.files && s.actors == []
  }

  lemma {:induction false} RunInv(l: Limits, s: Sys, steps: seq<Step>)
    requires Inv(l, s) && Runs(l, s, steps)
    ensures Inv(l, After(l, s, steps))
    decreases |steps|
  {
    if steps != [] {
      InvNext(l, s, steps[0]);
      RunInv(l, Next(l, s, steps[0]), steps[1..]);
    }
  }

  // In every interleaving the counter is the sum of the stored sizes and below the
  // ceiling, no room is over its file cap, and no reference dangles.
  lemma AccountingHolds(l: Limits, s: Sys, steps: seq<Step>)
    requires Init(l, s) && Runs(l, s, steps)
    ensures var db := After(l, s, steps).db;
            && db.totalBytes == SumSizes(db.blobs) <= l.ceiling
            && (forall r :: r in db.rooms ==> |RoomFiles(db, r)| <= l.filesPerRoom)
            && (forall a :: a in db.attachments ==> db.attachments[a].blob in db.blobs)
            && (forall d :: d in db.documents && db.documents[d].Some? ==> db.documents[d].value in db.blobs)
  {
    RunInv(l, s, steps);
  }

  // A step never deletes a blob that is protected when the step is taken, and
  // never alters a stored size.
  lemma OnlyUnprotectedRemoved(l: Limits, s: Sys, steps: seq<Step>, step: Step, h: nat)
    requires Init(l, s) && Runs(l, s, steps) && Enabled(l, After(l, s, steps), step)
    requires h in After(l, s, steps).db.blobs
    ensures var t := After(l, s, steps);
            var u := Next(l, t, step);
            && (h !in u.db.blobs ==> !Protected(t.db, h, t.now - l.grace))
            && (h in u.db.blobs ==> u.db.blobs[h] == t.db.blobs[h])
  {
    var t := After(l, s, steps);
    RunInv(l, s, steps);
    if step.Advance? && t.actors[step.i].RcStats? && t.actors[step.i].hash == h {
      var a := t.actors[step.i];
      assert ActorInv(l, t.db, t.now, a);
      LaterCutoff(t.db, h, a.cutoff, t.now - l.grace);
    }
  }

  lemma LaterCutoff(db: Db, h: nat, early: int, late: int)
    requires early <= late
    ensures !Protected(db, h, early) ==> !Protected(db, h, late)
  {
    if Protected(db, h, late) {
      EarlierCutoffProtectsMore(db, h, early, late);
    }
  }

  // Attaching a saved document never meets a missing blob: its retry is dead code.
  lemma BrainAttachNeverConflicts(l: Limits, s: Sys, steps: seq<Step>, i: nat)
    requires Init(l, s) && Runs(l, s, steps)
    requires i < |After(l, s, steps).actors| && After(l, s, steps).actors[i].BrRoom?
    ensures NextActor(l, After(l, s, steps), After(l, s, steps).actors[i]) == Done
  {
    RunInv(l, s, steps);
    assert ActorInv(l, After(l, s, steps).db, After(l, s, steps).now, After(l, s, steps).actors[i]);
  }

  // ---------- Every blob row has its file ----------

  // Between the commit of a reclaim and its unlink.
  predicate InWindow(s: Sys, h: nat) {
    exists j :: 0 <= j < |s.actors| && s.actors[j] == RcUnlink(h)
  }

  // The upload looks for the file at its final path while no unlink of it is pending.
  predicate OutsideWindow(s: Sys, step: Step) {
    step.Advance? && step.i < |s.actors| && s.actors[step.i].UpStats? ==> !InWindow(s, s.actors[step.i].hash)
  }

  predicate FileInv(s: Sys) {
    && s.db.blobs.Keys <= s.files
    && (forall i :: 0 <= i < |s.actors| && s.actors[i].UpPlaced? ==> s.actors[i].hash in s.files)
    && (forall i :: 0 <= i < |s.actors| && s.actors[i].RcUnlink? ==> s.actors[i].hash !in s.db.blobs)
    && (forall i, j :: 0 <= i < |s.actors| && 0 <= j < |s.actors| && s.actors[i].RcUnlink? && s.actors[j].UpPlaced?
          ==> s.actors[i].hash != s.actors[j].hash)
  }

  lemma FileInvNext(l: Limits, s: Sys, step: Step)
    requires Inv(l, s) && FileInv(s) && Enabled(l, s, step) && OutsideWindow(s, step)
    ensures FileInv(Next(l, s, step))
  {
    if step.Advance? {
      var i := step.i;
      var a, t := s.actors[i], Next(l, s, step);
      forall j | 0 <= j < |s.actors| && j != i
        ensures Compatible(a, s.actors[j]) && t.actors[j] == s.actors[j]
      {
        PairCompatible(l, s, i, j);
      }
      if a.UpStats? {
        assert !InWindow(s, a.hash);
        assert forall j :: 0 <= j < |s.actors| && s.actors[j].RcUnlink? ==> s.actors[j].hash != a.hash by {
          forall j | 0 <= j < |s.actors| && s.actors[j].RcUnlink? ensures s.actors[j].hash != a.hash {
            assert s.actors[j] == RcUnlink(s.actors[j].hash);
          }
        }
      }
    }
  }

  // A pending unlink still has its file to remove, and is the only one for that hash.
  predicate PendingInv(s: Sys) {
    && (forall i :: 0 <= i < |s.actors| && s.actors[i].RcUnlink? ==> s.actors[i].hash in s.files)
    && (forall i, j :: 0 <= i < j < |s.actors| && s.actors[i].RcUnlink? && s.actors[j].RcUnlink?
          ==> s.actors[i].hash != s.actors[j].hash)
  }

  lemma PendingInvNext(l: Limits, s: Sys, step: Step)
    requires Inv(l, s) && FileInv(s) && PendingInv(s) && Enabled(l, s, step)
    ensures PendingInv(Next(l, s, step))
  {
    if step.Advance? {
      var i, t := step.i, Next(l, s, step);
      forall j | 0 <= j < |s.actors| && j != i ensures t.actors[j] == s.actors[j] {
      }
    }
  }

  predicate AllOutsideWindow(l: Limits, s: Sys, steps: seq<Step>)
    requires Runs(l, s, steps)
    decreases |steps|
  {
    steps == [] || (OutsideWindow(s, steps[0]) && AllOutsideWindow(l, Next(l, s, steps[0]), steps[1..]))
  }

  lemma {:induction false} RunFileInv(l: Limits, s: Sys, steps: seq<Step>)
    requires Inv(l, s) && FileInv(s) && PendingInv(s) && Runs(l, s, steps) && AllOutsideWindow(l, s, steps)
    ensures FileInv(After(l, s, steps)) && PendingInv(After(l, s, steps)) && Inv(l, After(l, s, steps))
    decreases |steps|
  {
    if steps != [] {
      InvNext(l, s, steps[0]);
      FileInvNext(l, s, steps[0]);
      PendingInvNext(l, s, steps[0]);
      RunFileInv(l, Next(l, s, steps[0]), steps[1..]);
    }
  }

  predicate AllRowsHaveFiles(s: Sys) {
    s.db.blobs.Keys <= s.files
  }

  // If no upload looks inside a commit-to-unlink window, every row has its file.
  lemma EveryRowHasFile(l: Limits, s: Sys, steps: seq<Step>)
    requires Init(l, s) && Runs(l, s, steps) && AllOutsideWindow(l, s, steps)
    ensures AllRowsHaveFiles(After(l, s, steps))
  {
    RunFileInv(l, s, steps);
  }

  // ---------- The condition is exact ----------

  // Some continuation after `step`, itself outside every window, ends with a row and
  // no file.
  ghost predicate LosesFileAfter(l: Limits, s: Sys, step: Step)
    requires Enabled(l, s, step)
  {
    exists more :: Runs(l, Next(l, s, step), more) && AllOutsideWindow(l, Next(l, s, step), more)
                   && !AllRowsHaveFiles(After(l, Next(l, s, step), more))
  }

  // The upload has found the old file in place; its commit and the pending unlink follow.
  lemma PlacedThenUnlinked(l: Limits, s: Sys, i: nat, j: nat, id: nat)
    requires i < |s.actors| && j < |s.actors| && s.actors[i].UpPlaced? && s.actors[j] == RcUnlink(s.actors[i].hash)
    requires s.actors[i].hash !in s.db.blobs && id !in s.db.attachments
    ensures var more := [Advance(i, id), Advance(j, id)];
            && Runs(l, s, more) && AllOutsideWindow(l, s, more)
            && s.actors[i].hash in After(l, s, more).db.blobs && s.actors[i].hash !in After(l, s, more).files
  {
    var h := s.actors[i].hash;
    var s2 := Next(l, s, Advance(i, id));
    var s3 := Next(l, s2, Advance(j, id));
    assert s2.actors[j] == RcUnlink(h) && h in s2.db.blobs;
    var more, last := [Advance(i, id), Advance(j, id)], [Advance(j, id)];
    assert more[1..] == last && last[1..] == [];
    assert Runs(l, s3, []) && After(l, s3, []) == s3 && AllOutsideWindow(l, s3, []);
    assert Runs(l, s2, last) && After(l, s2, last) == s3 && AllOutsideWindow(l, s2, last);
    assert Runs(l, s, more) && After(l, s, more) == After(l, s2, last);
  }

  // An upload that looks inside a window can always be completed into a lost file.
  lemma WindowLosesFile(l: Limits, s: Sys, i: nat, id: nat)
    requires Inv(l, s) && FileInv(s) && PendingInv(s)
    requires i < |s.actors| && s.actors[i].UpStats? && InWindow(s, s.actors[i].hash)
    ensures LosesFileAfter(l, s, Advance(i, id))
  {
    var h := s.actors[i].hash;
    var j :| 0 <= j < |s.actors| && s.actors[j] == RcUnlink(h);
    var t := Next(l, s, Advance(i, id));
    var free := FreshId(s.db.attachments.Keys);
    assert t.actors[j] == s.actors[j] && t.db == s.db && t.actors[i].UpPlaced?;
    PlacedThenUnlinked(l, t, i, j, free);
  }

  lemma FreshId(used: set<nat>) returns (id: nat)
    ensures id !in used && forall x :: x in used ==> x < id
    decreases |used|
  {
    if used == {} { return 0; }
    var x :| x in used;
    var rest := used - {x};
    id := FreshId(rest);
    if id <= x { id := x + 1; }
    assert used == rest + {x};
  }

  // For every run that has kept outside the windows so far, and every step it may take
  // next: that step can be completed into a lost file if and only if it is an upload
  // looking inside a window.
  lemma LosesFileIff(l: Limits, s: Sys, steps: seq<Step>, step: Step)
    requires Init(l, s) && Runs(l, s, steps) && AllOutsideWindow(l, s, steps)
    requires Enabled(l, After(l, s, steps), step)
    ensures LosesFileAfter(l, After(l, s, steps), step) <==> !OutsideWindow(After(l, s, steps), step)
  {
    var t := After(l, s, steps);
    RunFileInv(l, s, steps);
    if OutsideWindow(t, step) {
      InvNext(l, t, step);
      FileInvNext(l, t, step);
      PendingInvNext(l, t, step);
      NeverLost(l, Next(l, t, step));
    } else {
      WindowLosesFile(l, t, step.i, step.newId);
    }
  }

  lemma NeverLost(l: Limits, s: Sys)
    requires Inv(l, s) && FileInv(s) && PendingInv(s)
    ensures forall more :: Runs(l, s, more) && AllOutsideWindow(l, s, more) ==> AllRowsHaveFiles(After(l, s, more))
  {
    forall more | Runs(l, s, more) && AllOutsideWindow(l, s, more) ensures AllRowsHaveFiles(After(l, s, more)) {
      RunFileInv(l, s, more);
    }
  }

  lemma {:induction false} RunsSnoc(l: Limits, s: Sys, steps: seq<Step>, step: Step)
    requires Runs(l, s, steps) && Enabled(l, After(l, s, steps), step)
    ensures Runs(l, s, steps + [step]) && After(l, s, steps + [step]) == Next(l, After(l, s, steps), step)
    decreases |steps|
  {
    if steps == [] {
      assert [step][1..] == [] && steps + [step] == [step];
    } else {
      assert (steps + [step])[1..] == steps[1..] + [step];
      RunsSnoc(l, Next(l, s, steps[0]), steps[1..], step);
    }
  }

  lemma {:induction false} RunsAppend(l: Limits, s: Sys, first: seq<Step>, rest: seq<Step>)
    requires Runs(l, s, first) && Runs(l, After(l, s, first), rest)
    ensures Runs(l, s, first + rest) && After(l, s, first + rest) == After(l, After(l, s, first), rest)
    decreases |first|
  {
    if first == [] {
      assert first + rest == rest;
    } else {
      assert (first + rest)[1..] == first[1..] + rest;
      RunsAppend(l, Next(l, s, first[0]), first[1..], rest);
    }
  }

  // A run in which the window is entered: upload, owner delete, reclaim up to its
  // commit, and a second upload of the same bytes up to its file check.
  const SMALL := Limits(10, 5, 0)
  const ONE_ROOM := Sys(Db(map[0 := Room(true, None)], map[], map[], map[], 0), {}, 0, [])

  // The system after the upload's first `k` statements.
  function UploadAt(k: nat): Sys
    requires k <= 5
  {
    if k == 0 then Sys(ONE_ROOM.db, {}, 0, [UpWait(0, 7, 1, true)])
    else if k == 1 then Sys(ONE_ROOM.db, {}, 0, [UpRoom(0, 7, 1, true)])
    else if k == 2 then Sys(ONE_ROOM.db, {}, 0, [UpNoRow(0, 7, 1, true)])
    else if k == 3 then Sys(ONE_ROOM.db, {}, 0, [UpStats(0, 7, 1, true, 0)])
    else if k == 4 then Sys(ONE_ROOM.db, {7}, 0, [UpPlaced(0, 7, 1, 0)])
    else Sys(Db(ONE_ROOM.db.rooms, map[0 := Attachment(0, 7)], map[], map[7 := 1], 1), {7}, 0, [Done])
  }

  lemma UploadStatement(k: nat)
    requires k < 5
    ensures Enabled(SMALL, UploadAt(k), Advance(0, 0)) && Next(SMALL, UploadAt(k), Advance(0, 0)) == UploadAt(k + 1)
  {
    assert RoomFiles(ONE_ROOM.db, 0) == {};
  }

  lemma FirstUploadRun() returns (steps: seq<Step>)
    ensures Runs(SMALL, ONE_ROOM, steps)
    ensures After(SMALL, ONE_ROOM, steps)
         == Sys(Db(map[0 := Room(true, None)], map[], map[], map[7 := 1], 1), {7}, 0, [Done])
  {
    steps := [];
    RunsSnoc(SMALL, ONE_ROOM, steps, Spawn(UpWait(0, 7, 1, true)));
    steps := steps + [Spawn(UpWait(0, 7, 1, true))];
    for k := 0 to 5
      invariant Runs(SMALL, ONE_ROOM, steps) && After(SMALL, ONE_ROOM, steps) == UploadAt(k)
    {
      UploadStatement(k);
      RunsSnoc(SMALL, ONE_ROOM, steps, Advance(0, 0));
      steps := steps + [Advance(0, 0)];
    }
    RunsSnoc(SMALL, ONE_ROOM, steps, DropAttachment(0));
    steps := steps + [DropAttachment(0)];
  }

  lemma ReclaimRun() returns (steps: seq<Step>)
    ensures Runs(SMALL, ONE_ROOM, steps)
    ensures After(SMALL, ONE_ROOM, steps) == Sys(ONE_ROOM.db, {7}, 0, [Done, RcUnlink(7)])
  {
    steps := FirstUploadRun();
    var full := After(SMALL, ONE_ROOM, steps).db;
    RunsSnoc(SMALL, ONE_ROOM, steps, Spawn(RcWait(7, 0)));
    steps := steps + [Spawn(RcWait(7, 0))];
    var k := 0;
    while k < 4
      invariant 0 <= k <= 4 && Runs(SMALL, ONE_ROOM, steps)
      invariant var t := After(SMALL, ONE_ROOM, steps);
                t == if k < 4 then Sys(full, {7}, 0, [Done, [RcWait(7, 0), RcLocked(7, 0),
                                        RcCleared(7, 0), RcStats(7, 0, 1)][k]])
                     else Sys(ONE_ROOM.db, {7}, 0, [Done, RcUnlink(7)])
    {
      RunsSnoc(SMALL, ONE_ROOM, steps, Advance(1, 0));
      steps := steps + [Advance(1, 0)];
      k := k + 1;
    }
  }

  lemma SecondUploadRun() returns (steps: seq<Step>)
    ensures Runs(SMALL, ONE_ROOM, steps)
    ensures After(SMALL, ONE_ROOM, steps) == Sys(ONE_ROOM.db, {7}, 0, [Done, RcUnlink(7), UpStats(0, 7, 1, true, 0)])
  {
    steps := ReclaimRun();
    RunsSnoc(SMALL, ONE_ROOM, steps, Spawn(UpWait(0, 7, 1, true)));
    steps := steps + [Spawn(UpWait(0, 7, 1, true))];
    assert RoomFiles(ONE_ROOM.db, 0) == {};
    var k := 0;
    while k < 3
      invariant 0 <= k <= 3 && Runs(SMALL, ONE_ROOM, steps)
      invariant After(SMALL, ONE_ROOM, steps)
             == Sys(ONE_ROOM.db, {7}, 0, [Done, RcUnlink(7), [UpWait(0, 7, 1, true), UpRoom(0, 7, 1, true),
                                          UpNoRow(0, 7, 1, true), UpStats(0, 7, 1, true, 0)][k]])
    {
      RunsSnoc(SMALL, ONE_ROOM, steps, Advance(2, 1));
      steps := steps + [Advance(2, 1)];
      k := k + 1;
    }
  }

  // Without the condition the promise fails: a concrete run from consistent tables
  // ends with a stored row whose file is gone.
  lemma RowWithoutFileReachable() returns (steps: seq<Step>)
    ensures Init(SMALL, ONE_ROOM) && Runs(SMALL, ONE_ROOM, steps)
    ensures 7 in After(SMALL, ONE_ROOM, steps).db.blobs && 7 !in After(SMALL, ONE_ROOM, steps).files
  {
    assert RoomFiles(ONE_ROOM.db, 0) == {};
    steps := SecondUploadRun();
    var s := After(SMALL, ONE_ROOM, steps);
    RunsSnoc(SMALL, ONE_ROOM, steps, Advance(2, 1));
    steps := steps + [Advance(2, 1)];
    var t := Next(SMALL, s, Advance(2, 1));
    var last := [Advance(2, 1), Advance(1, 1)];
    PlacedThenUnlinked(SMALL, t, 2, 1, 1);
    RunsAppend(SMALL, ONE_ROOM, steps, last);
    steps := steps + last;
  }
}
