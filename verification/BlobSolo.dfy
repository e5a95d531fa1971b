// One transaction with nothing beside it: the protocol's statements, run in a row, do
// exactly what the sequential operations do.
module BlobSolo {
  import opened Common
  import opened BlobStore
  import opened BlobProtocol

  // No transaction in progress holds a row.
  predicate Quiescent(s: Sys) {
    forall i :: 0 <= i < |s.actors| ==>
      RoomLock(s.actors[i]) == None && BlobLock(s.actors[i]) == None && !StatsLock(s.actors[i])
  }

  // The system with one more transaction, the last.
  function With(s: Sys, db: Db, files: set<nat>, a: Actor): Sys {
    Sys(db, files, s.now, s.actors + [a])
  }

  lemma Locks(s: Sys, db: Db, files: set<nat>, a: Actor)
    requires Quiescent(s)
    ensures var t := With(s, db, files, a);
            && (forall r: nat :: RoomLock(a) != Some(r) ==> RoomFree(t, r))
            && (forall h: nat :: BlobLock(a) != Some(h) ==> BlobFree(t, h))
            && (!StatsLock(a) ==> StatsFree(t))
  {
  }

  // The transaction's next statement, when it need not wait.
  lemma Statement(l: Limits, s: Sys, db: Db, files: set<nat>, a: Actor, id: nat)
    requires Quiescent(s) && CanAdvance(With(s, db, files, a), a, id)
    ensures var t := With(s, db, files, a);
            && Enabled(l, t, Advance(|s.actors|, id))
            && Next(l, t, Advance(|s.actors|, id)) == With(s, NextDb(t, a, id), NextFiles(t, a), NextActor(l, t, a))
  {
    var t := With(s, db, files, a);
    var n := NextActor(l, t, a);
    assert t.actors[|s.actors| := n] == s.actors + [n];
  }

  // The statements of one transaction, up to `n` of them, until it is done.
  lemma {:induction false} Statements(l: Limits, s: Sys, db: Db, files: set<nat>, a: Actor, id: nat, n: nat) returns (steps: seq<Step>)
    requires Quiescent(s) && Unhindered(l, s, db, files, a, id, n)
    ensures var t := With(s, db, files, a);
            Runs(l, t, steps) && After(l, t, steps) == Outcome(l, s, db, files, a, id, n)
    decreases n
  {
    var t := With(s, db, files, a);
    if n == 0 || a == Done {
      steps := [];
    } else {
      Statement(l, s, db, files, a, id);
      var rest := Statements(l, s, NextDb(t, a, id), NextFiles(t, a), NextActor(l, t, a), id, n - 1);
      steps := [Advance(|s.actors|, id)] + rest;
      assert steps[1..] == rest;
    }
  }

  predicate Unhindered(l: Limits, s: Sys, db: Db, files: set<nat>, a: Actor, id: nat, n: nat)
    decreases n
  {
    n == 0 || a == Done
    || (var t := With(s, db, files, a);
        CanAdvance(t, a, id) && Unhindered(l, s, NextDb(t, a, id), NextFiles(t, a), NextActor(l, t, a), id, n - 1))
  }

  function Outcome(l: Limits, s: Sys, db: Db, files: set<nat>, a: Actor, id: nat, n: nat): Sys
    requires Unhindered(l, s, db, files, a, id, n)
    decreases n
  {
    var t := With(s, db, files, a);
    if n == 0 || a == Done then t else Outcome(l, s, NextDb(t, a, id), NextFiles(t, a), NextActor(l, t, a), id, n - 1)
  }

  // ---------- An upload ----------

  predicate UploadFits(l: Limits, db: Db, room: nat, h: nat, size: nat) {
    && room in db.rooms && db.rooms[room].isOpen && |RoomFiles(db, room)| < l.filesPerRoom
    && (h in db.blobs || db.totalBytes + size <= l.ceiling)
  }

  lemma UploadStatements(l: Limits, s: Sys, room: nat, h: nat, size: nat, id: nat)
    requires DbInv(l, s.db) && Quiescent(s) && id !in s.db.attachments
    ensures Unhindered(l, s, s.db, s.files, UpWait(room, h, size, true), id, 5)
    ensures var t := Outcome(l, s, s.db, s.files, UpWait(room, h, size, true), id, 5);
            && t.actors == s.actors + [Done]
            && t.db == (if !UploadFits(l, s.db, room, h, size) then s.db
                        else if h in s.db.blobs then WithAttachment(s.db, id, room, h)
                        else WithAttachment(WithBlob(s.db, h, size, s.db.totalBytes), id, room, h))
            && t.files == (if UploadFits(l, s.db, room, h, size) && h !in s.db.blobs then s.files + {h} else s.files)
  {
    var wait, locked := UpWait(room, h, size, true), UpRoom(room, h, size, true);
    Locks(s, s.db, s.files, wait);
    Locks(s, s.db, s.files, locked);
    if Admits(l, s.db, room) {
      if h in s.db.blobs {
        Locks(s, s.db, s.files, UpDedup(room, h));
      } else {
        NewBlobStatements(l, s, room, h, size, id);
      }
    }
  }

  lemma NewBlobStatements(l: Limits, s: Sys, room: nat, h: nat, size: nat, id: nat)
    requires Quiescent(s) && id !in s.db.attachments && h !in s.db.blobs
    ensures Unhindered(l, s, s.db, s.files, UpNoRow(room, h, size, true), id, 3)
    ensures var t := Outcome(l, s, s.db, s.files, UpNoRow(room, h, size, true), id, 3);
            var fits := s.db.totalBytes + size <= l.ceiling;
            && t.actors == s.actors + [Done]
            && t.db == (if fits then WithAttachment(WithBlob(s.db, h, size, s.db.totalBytes), id, room, h) else s.db)
            && t.files == (if fits then s.files + {h} else s.files)
  {
    Locks(s, s.db, s.files, UpNoRow(room, h, size, true));
    var files := if h in s.files then s.files else s.files + {h};
    assert files == s.files + {h};
  }

  // Alone, an upload ends done, having attached exactly when the sequential operation
  // does, with the same tables and files.
  lemma SoloUpload(l: Limits, s: Sys, room: nat, h: nat, size: nat, id: nat) returns (steps: seq<Step>)
    requires DbInv(l, s.db) && Quiescent(s) && id !in s.db.attachments && 0 < size
    ensures Runs(l, s, steps)
    ensures var t, fits := After(l, s, steps), UploadFits(l, s.db, room, h, size);
            && t.actors == s.actors + [Done]
            && t.db == (if !fits then s.db else if h in s.db.blobs then WithAttachment(s.db, id, room, h)
                        else WithAttachment(WithBlob(s.db, h, size, s.db.totalBytes), id, room, h))
            && t.files == (if fits && h !in s.db.blobs then s.files + {h} else s.files)
  {
    var a := UpWait(room, h, size, true);
    UploadStatements(l, s, room, h, size, id);
    var rest := Statements(l, s, s.db, s.files, a, id, 5);
    steps := StartWith(l, s, a, rest);
  }

  // An upload that lost the race for its hash (another one's row came first) goes round
  // again and attaches to the winner's blob, if the room still admits it.
  lemma LoserAttaches(l: Limits, s: Sys, room: nat, h: nat, size: nat, seen: int, id: nat) returns (steps: seq<Step>)
    requires Quiescent(s) && id !in s.db.attachments && h in s.db.blobs
    ensures Runs(l, With(s, s.db, s.files, UpPlaced(room, h, size, seen)), steps)
    ensures After(l, With(s, s.db, s.files, UpPlaced(room, h, size, seen)), steps)
         == With(s, if Admits(l, s.db, room) then WithAttachment(s.db, id, room, h) else s.db, s.files, Done)
  {
    LoserStatements(l, s, room, h, size, seen, id);
    steps := Statements(l, s, s.db, s.files, UpPlaced(room, h, size, seen), id, 4);
  }

  lemma LoserStatements(l: Limits, s: Sys, room: nat, h: nat, size: nat, seen: int, id: nat)
    requires Quiescent(s) && id !in s.db.attachments && h in s.db.blobs
    ensures Unhindered(l, s, s.db, s.files, UpPlaced(room, h, size, seen), id, 4)
    ensures Outcome(l, s, s.db, s.files, UpPlaced(room, h, size, seen), id, 4)
         == With(s, if Admits(l, s.db, room) then WithAttachment(s.db, id, room, h) else s.db, s.files, Done)
  {
    var a := UpWait(room, h, size, false);
    Locks(s, s.db, s.files, a);
    Locks(s, s.db, s.files, UpRoom(room, h, size, false));
    Locks(s, s.db, s.files, UpDedup(room, h));
    assert Unhindered(l, s, s.db, s.files, a, id, 3);
    assert Outcome(l, s, s.db, s.files, a, id, 3)
        == With(s, if Admits(l, s.db, room) then WithAttachment(s.db, id, room, h) else s.db, s.files, Done);
  }

  lemma StartWith(l: Limits, s: Sys, a: Actor, rest: seq<Step>) returns (steps: seq<Step>)
    requires IsRequest(l, s, a) && Runs(l, With(s, s.db, s.files, a), rest)
    ensures Runs(l, s, steps) && After(l, s, steps) == After(l, With(s, s.db, s.files, a), rest)
  {
    steps := [Spawn(a)] + rest;
    assert steps[1..] == rest && Next(l, s, Spawn(a)) == With(s, s.db, s.files, a);
  }

  // ---------- A reclaim ----------

  lemma ReclaimStatements(l: Limits, s: Sys, h: nat)
    requires Quiescent(s)
    ensures Unhindered(l, s, s.db, s.files, RcWait(h, s.now - l.grace), 0, 5)
    ensures var t := Outcome(l, s, s.db, s.files, RcWait(h, s.now - l.grace), 0, 5);
            var gone := h in s.db.blobs && !Protected(s.db, h, s.now - l.grace);
            && t.actors == s.actors + [Done]
            && t.db == (if gone then Reclaimed(s.db, h, s.db.totalBytes) else s.db)
            && t.files == (if gone then s.files - {h} else s.files)
  {
    var cutoff := s.now - l.grace;
    Locks(s, s.db, s.files, RcWait(h, cutoff));
    Locks(s, s.db, s.files, RcCleared(h, cutoff));
    if h in s.db.blobs && !Protected(s.db, h, cutoff) {
      ClearedStatements(l, s, h, cutoff);
    }
  }

  lemma ClearedStatements(l: Limits, s: Sys, h: nat, cutoff: int)
    requires Quiescent(s) && h in s.db.blobs
    ensures Unhindered(l, s, s.db, s.files, RcCleared(h, cutoff), 0, 3)
    ensures Outcome(l, s, s.db, s.files, RcCleared(h, cutoff), 0, 3)
         == With(s, Reclaimed(s.db, h, s.db.totalBytes), s.files - {h}, Done)
  {
    Locks(s, s.db, s.files, RcCleared(h, cutoff));
    var t := Reclaimed(s.db, h, s.db.totalBytes);
    assert Unhindered(l, s, t, s.files, RcUnlink(h), 0, 1);
  }

  // Alone, a reclaim removes row, counter and file exactly of a blob nothing needs.
  lemma SoloReclaim(l: Limits, s: Sys, h: nat) returns (steps: seq<Step>)
    requires DbInv(l, s.db) && Quiescent(s)
    ensures Runs(l, s, steps)
    ensures var t, gone := After(l, s, steps), h in s.db.blobs && !Needed(s.db, h, s.now, l.grace);
            && t.actors == s.actors + [Done]
            && t.db == (if gone then Reclaimed(s.db, h, s.db.totalBytes) else s.db)
            && t.files == (if gone then s.files - {h} else s.files)
  {
    var a := RcWait(h, s.now - l.grace);
    ProtectedIff(l, s.db, h, s.now);
    ReclaimStatements(l, s, h);
    var rest := Statements(l, s, s.db, s.files, a, 0, 5);
    steps := StartWith(l, s, a, rest);
  }

  // ---------- Attach from Brain ----------

  lemma AttachStatements(l: Limits, s: Sys, room: nat, doc: nat, h: nat, id: nat)
    requires Quiescent(s) && id !in s.db.attachments && h in s.db.blobs
    ensures Unhindered(l, s, s.db, s.files, BrWait(room, doc, h), id, 2)
    ensures Outcome(l, s, s.db, s.files, BrWait(room, doc, h), id, 2)
         == With(s, if Admits(l, s.db, room) then WithAttachment(s.db, id, room, h) else s.db, s.files, Done)
  {
    Locks(s, s.db, s.files, BrWait(room, doc, h));
    Locks(s, s.db, s.files, BrRoom(room, doc, h));
  }

  // Alone, attaching a saved document adds its reference exactly when the room admits it.
  lemma SoloBrainAttach(l: Limits, s: Sys, room: nat, doc: nat, h: nat, id: nat) returns (steps: seq<Step>)
    requires DbInv(l, s.db) && Quiescent(s) && id !in s.db.attachments
    requires doc in s.db.documents && s.db.documents[doc] == Some(h)
    ensures Runs(l, s, steps)
    ensures var t := After(l, s, steps);
            var admitted := room in s.db.rooms && s.db.rooms[room].isOpen && |RoomFiles(s.db, room)| < l.filesPerRoom;
            && t.actors == s.actors + [Done] && t.files == s.files
            && t.db == if admitted then WithAttachment(s.db, id, room, h) else s.db
  {
    var a := BrWait(room, doc, h);
    AttachStatements(l, s, room, doc, h, id);
    var rest := Statements(l, s, s.db, s.files, a, id, 2);
    steps := StartWith(l, s, a, rest);
  }
}
