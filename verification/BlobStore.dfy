// Content-addressed, reference-counted blobs: the tables, when a blob is
// protected, what one reclaim does, and the sweep run to completion.
module BlobStore {
  import opened Common

  // Hashes, rooms, attachments and documents are named by numbers: hashing is
  // injective and identifiers are fresh.
  datatype Room = Room(isOpen: bool, closedAt: Option<int>)

  datatype Attachment = Attachment(room: nat, blob: nat)

  datatype Db = Db(
    rooms: map<nat, Room>,
    attachments: map<nat, Attachment>,
    documents: map<nat, Option<nat>>, // a document's link to a blob, if any
    blobs: map<nat, nat>,             // hash to byte size
    totalBytes: int)

  datatype Limits = Limits(ceiling: nat, filesPerRoom: nat, grace: nat)

  // ---------- Totals and counts ----------

  ghost function SumSizes(blobs: map<nat, nat>): nat {
    if blobs == map[] then 0
    else
      var h :| h in blobs;
      blobs[h] + SumSizes(blobs - {h})
  }

  lemma {:induction false} SumSizesRemove(blobs: map<nat, nat>, h: nat)
    requires h in blobs
    ensures SumSizes(blobs) == blobs[h] + SumSizes(blobs - {h})
    decreases |blobs|
  {
    var k :| k in blobs && SumSizes(blobs) == blobs[k] + SumSizes(blobs - {k});
    if k != h {
      SumSizesRemove(blobs - {k}, h);
      SumSizesRemove(blobs - {h}, k);
      assert (blobs - {k}) - {h} == (blobs - {h}) - {k};
    }
  }

  lemma SumSizesAdd(blobs: map<nat, nat>, h: nat, size: nat)
    requires h !in blobs
    ensures SumSizes(blobs[h := size]) == SumSizes(blobs) + size
  {
    SumSizesRemove(blobs[h := size], h);
    assert blobs[h := size] - {h} == blobs;
  }

  function RoomFiles(db: Db, room: nat): set<nat> {
    set a | a in db.attachments && db.attachments[a].room == room
  }

  // ---------- Protection ----------

  // A room keeps its files while open and until it has been closed for the grace period.
  predicate RoomProtects(r: Room, cutoff: int) {
    r.isOpen || r.closedAt == None || cutoff < r.closedAt.value
  }

  predicate LinkedToDocument(db: Db, h: nat) {
    exists d :: d in db.documents && db.documents[d] == Some(h)
  }

  predicate HeldByRoom(db: Db, h: nat, cutoff: int) {
    exists a :: a in db.attachments && db.attachments[a].blob == h
             && db.attachments[a].room in db.rooms && RoomProtects(db.rooms[db.attachments[a].room], cutoff)
  }

  // True when the blob must not be deleted.
  predicate Protected(db: Db, h: nat, cutoff: int) {
    LinkedToDocument(db, h) || HeldByRoom(db, h, cutoff)
  }

  // An earlier cutoff only protects more.
  lemma EarlierCutoffProtectsMore(db: Db, h: nat, early: int, late: int)
    requires early <= late && Protected(db, h, late)
    ensures Protected(db, h, early)
  {
    if HeldByRoom(db, h, late) {
      var a :| a in db.attachments && db.attachments[a].blob == h && db.attachments[a].room in db.rooms
            && RoomProtects(db.rooms[db.attachments[a].room], late);
      assert RoomProtects(db.rooms[db.attachments[a].room], early);
    }
  }

  // Protection through rooms carries over when every reference and room that
  // protects in `t` already does in `db`.
  lemma HeldByRoomMono(t: Db, db: Db, h: nat, cutoff: int)
    requires forall a :: a in t.attachments && t.attachments[a].blob == h
               ==> a in db.attachments && db.attachments[a] == t.attachments[a]
    requires forall a :: a in t.attachments && t.attachments[a].blob == h && t.attachments[a].room in t.rooms
                      && RoomProtects(t.rooms[t.attachments[a].room], cutoff)
               ==> t.attachments[a].room in db.rooms && RoomProtects(db.rooms[t.attachments[a].room], cutoff)
    ensures HeldByRoom(t, h, cutoff) ==> HeldByRoom(db, h, cutoff)
  {
    if HeldByRoom(t, h, cutoff) {
      var a :| a in t.attachments && t.attachments[a].blob == h
            && t.attachments[a].room in t.rooms && RoomProtects(t.rooms[t.attachments[a].room], cutoff);
      assert db.attachments[a].blob == h;
    }
  }

  // ---------- Consistency of the tables ----------

  ghost predicate DbInv(l: Limits, db: Db) {
    && db.totalBytes == SumSizes(db.blobs) <= l.ceiling
    && (forall a :: a in db.attachments ==> db.attachments[a].blob in db.blobs && db.attachments[a].room in db.rooms)
    && (forall d :: d in db.documents && db.documents[d].Some? ==> db.documents[d].value in db.blobs)
    && (forall r :: r in db.rooms ==> |RoomFiles(db, r)| <= l.filesPerRoom)
    && (forall r :: r in db.rooms ==> (db.rooms[r].isOpen <==> db.rooms[r].closedAt == None))
  }

  // ---------- The committed effect of each transaction ----------

  function WithAttachment(db: Db, a: nat, room: nat, h: nat): Db {
    db.(attachments := db.attachments[a := Attachment(room, h)])
  }

  function WithBlob(db: Db, h: nat, size: nat, seenTotal: int): Db {
    db.(blobs := db.blobs[h := size], totalBytes := seenTotal + size)
  }

  // Reclaim: the leftover attachment rows, then the counter, then the blob row.
  function Reclaimed(db: Db, h: nat, seenTotal: int): Db
    requires h in db.blobs
  {
    db.(attachments := map a | a in db.attachments && db.attachments[a].blob != h :: db.attachments[a],
        totalBytes := seenTotal - db.blobs[h],
        blobs := db.blobs - {h})
  }

  function WithoutRoom(db: Db, room: nat): Db {
    db.(rooms := db.rooms - {room},
        attachments := map a | a in db.attachments && db.attachments[a].room != room :: db.attachments[a])
  }

  function WithoutAttachment(db: Db, a: nat): Db {
    db.(attachments := db.attachments - {a})
  }

  function WithRoomClosed(db: Db, room: nat, now: int): Db
    requires room in db.rooms
  {
    db.(rooms := db.rooms[room := Room(false, Some(now))])
  }

  lemma FewerFiles(db: Db, fewer: Db, r: nat)
    requires forall a :: a in fewer.attachments ==> a in db.attachments && fewer.attachments[a] == db.attachments[a]
    ensures |RoomFiles(fewer, r)| <= |RoomFiles(db, r)|
  {
    SubsetSize(RoomFiles(fewer, r), RoomFiles(db, r));
  }

  lemma SubsetSize<T>(a: set<T>, b: set<T>)
    requires a <= b
    ensures |a| <= |b|
  {
    assert b == a + (b - a);
  }

  lemma OneMoreFile(db: Db, a: nat, room: nat, h: nat, r: nat)
    requires a !in db.attachments
    ensures |RoomFiles(WithAttachment(db, a, room, h), r)| == |RoomFiles(db, r)| + (if r == room then 1 else 0)
  {
    var more := RoomFiles(WithAttachment(db, a, room, h), r);
    assert more == if r == room then RoomFiles(db, r) + {a} else RoomFiles(db, r);
    assert a !in RoomFiles(db, r);
  }

  lemma AttachKeepsDbInv(l: Limits, db: Db, a: nat, room: nat, h: nat)
    requires DbInv(l, db) && a !in db.attachments
    requires room in db.rooms && h in db.blobs && |RoomFiles(db, room)| < l.filesPerRoom
    ensures DbInv(l, WithAttachment(db, a, room, h))
  {
    var t := WithAttachment(db, a, room, h);
    forall r | r in t.rooms ensures |RoomFiles(t, r)| <= l.filesPerRoom {
      OneMoreFile(db, a, room, h, r);
    }
  }

  lemma BlobKeepsDbInv(l: Limits, db: Db, h: nat, size: nat)
    requires DbInv(l, db) && h !in db.blobs && db.totalBytes + size <= l.ceiling
    ensures DbInv(l, WithBlob(db, h, size, db.totalBytes))
  {
    var t := WithBlob(db, h, size, db.totalBytes);
    SumSizesAdd(db.blobs, h, size);
    forall r | r in t.rooms ensures |RoomFiles(t, r)| <= l.filesPerRoom {
      FewerFiles(db, t, r);
    }
  }

  lemma ReclaimKeepsDbInv(l: Limits, db: Db, h: nat)
    requires DbInv(l, db) && h in db.blobs && !LinkedToDocument(db, h)
    ensures DbInv(l, Reclaimed(db, h, db.totalBytes))
  {
    var t := Reclaimed(db, h, db.totalBytes);
    SumSizesRemove(db.blobs, h);
    forall r | r in t.rooms ensures |RoomFiles(t, r)| <= l.filesPerRoom {
      FewerFiles(db, t, r);
    }
    forall d | d in t.documents && t.documents[d].Some? ensures t.documents[d].value in t.blobs {
      assert db.documents[d] != Some(h);
    }
  }

  lemma RoomRemovalKeepsDbInv(l: Limits, db: Db, room: nat)
    requires DbInv(l, db)
    ensures DbInv(l, WithoutRoom(db, room))
  {
    var t := WithoutRoom(db, room);
    forall r | r in t.rooms ensures |RoomFiles(t, r)| <= l.filesPerRoom {
      FewerFiles(db, t, r);
    }
  }

  lemma DetachKeepsDbInv(l: Limits, db: Db, a: nat)
    requires DbInv(l, db)
    ensures DbInv(l, WithoutAttachment(db, a))
  {
    var t := WithoutAttachment(db, a);
    forall r | r in t.rooms ensures |RoomFiles(t, r)| <= l.filesPerRoom {
      FewerFiles(db, t, r);
    }
  }

  lemma CloseKeepsDbInv(l: Limits, db: Db, room: nat, now: int)
    requires DbInv(l, db) && room in db.rooms
    ensures DbInv(l, WithRoomClosed(db, room, now))
  {
    var t := WithRoomClosed(db, room, now);
    forall r | r in t.rooms ensures |RoomFiles(t, r)| <= l.filesPerRoom {
      FewerFiles(db, t, r);
    }
  }

  // ---------- Several reclaims in a row ----------

  // The blobs a room's attachments point at.
  function RoomHashes(db: Db, room: nat): set<nat> {
    set a | a in db.attachments && db.attachments[a].room == room :: db.attachments[a].blob
  }

  function Reclaimable(db: Db, candidates: set<nat>, cutoff: int): set<nat> {
    set h | h in candidates && h in db.blobs && !Protected(db, h, cutoff)
  }

  // `t` is `db` with the blobs in `gone`, and every attachment of theirs, removed.
  ghost predicate Purged(db: Db, t: Db, gone: set<nat>) {
    && t.rooms == db.rooms && t.documents == db.documents
    && t.blobs == db.blobs - gone
    && t.attachments == map a | a in db.attachments && db.attachments[a].blob !in gone :: db.attachments[a]
  }

  lemma PurgeOneMore(db: Db, mid: Db, gone: set<nat>, h: nat)
    requires Purged(db, mid, gone) && h in mid.blobs
    ensures Purged(db, Reclaimed(mid, h, mid.totalBytes), gone + {h})
  {
    assert mid.blobs - {h} == db.blobs - (gone + {h});
  }

  lemma PurgeKeepsProtection(db: Db, t: Db, gone: set<nat>, h: nat, cutoff: int)
    requires Purged(db, t, gone) && h !in gone
    ensures Protected(t, h, cutoff) <==> Protected(db, h, cutoff)
  {
    if HeldByRoom(db, h, cutoff) {
      var a :| a in db.attachments && db.attachments[a].blob == h && db.attachments[a].room in db.rooms
            && RoomProtects(db.rooms[db.attachments[a].room], cutoff);
      assert a in t.attachments && t.attachments[a] == db.attachments[a];
    }
    assert LinkedToDocument(t, h) <==> LinkedToDocument(db, h);
  }

  // ---------- The operations with nothing running beside them ----------

  // Open, or closed at a time less than the grace period ago.
  predicate NeedsFiles(r: Room, now: int, grace: nat) {
    r.isOpen || (r.closedAt.Some? && now < r.closedAt.value + grace)
  }

  predicate Needed(db: Db, h: nat, now: int, grace: nat) {
    || (exists d :: d in db.documents && db.documents[d] == Some(h))
    || (exists a :: a in db.attachments && db.attachments[a].blob == h && db.attachments[a].room in db.rooms
                    && NeedsFiles(db.rooms[db.attachments[a].room], now, grace))
  }

  // Protection at the sweep's cutoff is need at its clock.
  lemma ProtectedIff(l: Limits, db: Db, h: nat, now: int)
    requires DbInv(l, db)
    ensures Protected(db, h, now - l.grace) <==> Needed(db, h, now, l.grace)
  {
    if HeldByRoom(db, h, now - l.grace) {
      var a :| a in db.attachments && db.attachments[a].blob == h && db.attachments[a].room in db.rooms
               && RoomProtects(db.rooms[db.attachments[a].room], now - l.grace);
      assert NeedsFiles(db.rooms[db.attachments[a].room], now, l.grace);
    }
    if exists a :: a in db.attachments && db.attachments[a].blob == h && db.attachments[a].room in db.rooms
                   && NeedsFiles(db.rooms[db.attachments[a].room], now, l.grace) {
      var a :| a in db.attachments && db.attachments[a].blob == h && db.attachments[a].room in db.rooms
               && NeedsFiles(db.rooms[db.attachments[a].room], now, l.grace);
      assert RoomProtects(db.rooms[db.attachments[a].room], now - l.grace);
    }
  }

  // What the room's row and members say about the sender of an upload: a member (or the
  // owner), agent uploads switched on, and no other machine in the seat.
  datatype Sender = Sender(owner: bool, member: bool, uploadsAllowed: bool, seatFree: bool)

  predicate Admitted(who: Sender) {
    (who.owner || (who.member && who.uploadsAllowed)) && who.seatFree
  }

  class AttachmentStore {
    const limits: Limits
    var db: Db
    var files: set<nat> // blob files on disk

    ghost predicate Valid() reads this {
      DbInv(limits, db) && db.blobs.Keys <= files
    }

    constructor (limits: Limits)
      ensures Valid() && this.limits == limits
      ensures db == Db(map[], map[], map[], map[], 0) && files == {}
    {
      this.limits := limits;
      db := Db(map[], map[], map[], map[], 0);
      files := {};
    }

    // Dedup-or-create: an existing row is reused, a new one must fit the ceiling.
    method GetOrCreateBlob(h: nat, size: nat) returns (ok: bool)
      requires Valid()
      modifies this
      ensures Valid()
      ensures ok <==> h in old(db).blobs || old(db).totalBytes + size <= limits.ceiling
      ensures db == if ok && h !in old(db).blobs then WithBlob(old(db), h, size, old(db).totalBytes) else old(db)
      ensures ok ==>
                && h in db.blobs && db.blobs[h] == (if h in old(db).blobs then old(db).blobs[h] else size)
                && db.totalBytes == old(db).totalBytes + (if h in old(db).blobs then 0 else size)
      ensures files == if ok && h !in old(db).blobs then old(files) + {h} else old(files)
    {
      if h in db.blobs { return true; }
      if limits.ceiling < db.totalBytes + size { return false; }
      BlobKeepsDbInv(limits, db, h, size);
      files := files + {h};
      db := db.(blobs := db.blobs[h := size]);
      db := db.(totalBytes := db.totalBytes + size);
      ok := true;
    }

    // One more reference in an open room with space left, for an admitted sender; `a` is
    // a fresh identifier.
    method AddRoomAttachment(a: nat, room: nat, h: nat, size: nat, who: Sender) returns (ok: bool)
      requires Valid() && a !in db.attachments
      modifies this
      ensures Valid()
      ensures ok <==> (room in old(db).rooms && old(db).rooms[room].isOpen && Admitted(who)
                       && |RoomFiles(old(db), room)| < limits.filesPerRoom
                       && (h in old(db).blobs || old(db).totalBytes + size <= limits.ceiling))
      ensures db == if !ok then old(db)
                    else if h in old(db).blobs then WithAttachment(old(db), a, room, h)
                    else WithAttachment(WithBlob(old(db), h, size, old(db).totalBytes), a, room, h)
      ensures ok ==>
                && h in db.blobs && a in db.attachments && db.attachments[a].room == room && db.attachments[a].blob == h
                && db.attachments.Keys == old(db).attachments.Keys + {a}
      ensures files == if ok && h !in old(db).blobs then old(files) + {h} else old(files)
    {
      if room !in db.rooms || !db.rooms[room].isOpen { return false; }
      if !who.owner && (!who.member || !who.uploadsAllowed) { return false; }
      if !who.seatFree { return false; }
      if limits.filesPerRoom <= |RoomFiles(db, room)| { return false; }
      ghost var before := db;
      ok := GetOrCreateBlob(h, size);
      if ok {
        assert RoomFiles(db, room) == RoomFiles(before, room);
        AttachKeepsDbInv(limits, db, a, room, h);
        db := db.(attachments := db.attachments[a := Attachment(room, h)]);
      }
    }

    method ReclaimBlobIfUnreferenced(h: nat, cutoff: int) returns (deleted: bool)
      requires Valid()
      modifies this
      ensures Valid()
      ensures deleted <==> h in old(db).blobs && !Protected(old(db), h, cutoff)
      // That is: no document links it, and every room attaching it closed at or before the cutoff.
      ensures deleted <==>
                h in old(db).blobs
                && (forall d :: d in old(db).documents ==> old(db).documents[d] != Some(h))
                && (forall a :: a in old(db).attachments && old(db).attachments[a].blob == h ==>
                      old(db).attachments[a].room in old(db).rooms
                      && old(db).rooms[old(db).attachments[a].room].closedAt.Some?
                      && old(db).rooms[old(db).attachments[a].room].closedAt.value <= cutoff)
      ensures db == if deleted then Reclaimed(old(db), h, old(db).totalBytes) else old(db)
      ensures deleted ==>
                && db.blobs.Keys == old(db).blobs.Keys - {h} && db.totalBytes == old(db).totalBytes - old(db).blobs[h]
                && forall a :: a in db.attachments <==> a in old(db).attachments && old(db).attachments[a].blob != h
      ensures files == if deleted then old(files) - {h} else old(files)
    {
      if h !in db.blobs { return false; }
      if Protected(db, h, cutoff) { return false; }
      ReclaimKeepsDbInv(limits, db, h);
      var left := map a | a in db.attachments && db.attachments[a].blob != h :: db.attachments[a];
      db := db.(attachments := left);
      db := db.(totalBytes := db.totalBytes - db.blobs[h]);
      db := db.(blobs := db.blobs - {h});
      files := files - {h};
      deleted := true;
    }

    // Works through the candidates; each survives exactly if it is protected.
    method ReclaimEach(candidates: set<nat>, cutoff: int) returns (reclaimed: set<nat>)
      requires Valid()
      modifies this
      ensures Valid()
      ensures reclaimed == Reclaimable(old(db), candidates, cutoff)
      ensures Purged(old(db), db, reclaimed) && files == old(files) - reclaimed
    {
      reclaimed := {};
      var todo := candidates;
      while todo != {}
        invariant Valid() && todo <= candidates
        invariant reclaimed == Reclaimable(old(db), candidates - todo, cutoff)
        invariant Purged(old(db), db, reclaimed) && files == old(files) - reclaimed
      {
        var h :| h in todo;
        ghost var before := db;
        PurgeKeepsProtection(old(db), db, reclaimed, h, cutoff);
        var deleted := ReclaimBlobIfUnreferenced(h, cutoff);
        if deleted {
          PurgeOneMore(old(db), before, reclaimed, h);
          reclaimed := reclaimed + {h};
        }
        todo := todo - {h};
      }
    }

    // A sweep leaves precisely the protected blobs.
    method SweepExpiredBlobs(now: int) returns (deleted: set<nat>)
      requires Valid()
      modifies this
      ensures Valid()
      ensures db.blobs.Keys == set h | h in old(db).blobs && Protected(old(db), h, now - limits.grace)
      ensures deleted == old(db).blobs.Keys - db.blobs.Keys
      // A blob survives exactly if a document links it or some room attaching it is open
      // or has been closed for less than the grace period.
      ensures forall h :: h in old(db).blobs ==> (h in db.blobs <==> Needed(old(db), h, now, limits.grace))
      ensures Purged(old(db), db, deleted) && files == old(files) - deleted
      ensures forall h :: h in db.blobs ==> Protected(db, h, now - limits.grace)
    {
      var cutoff := now - limits.grace;
      deleted := ReclaimEach(db.blobs.Keys, cutoff);
      forall h | h in old(db).blobs ensures h in db.blobs <==> Needed(old(db), h, now, limits.grace) {
        ProtectedIff(limits, old(db), h, now);
      }
      forall h | h in db.blobs ensures Protected(db, h, cutoff) {
        PurgeKeepsProtection(old(db), db, deleted, h, cutoff);
      }
    }

    // A hard delete takes the room's references at once; its blobs survive only
    // if something else protects them.
    method DeleteRoom(room: nat, now: int) returns (found: bool)
      requires Valid()
      modifies this
      ensures Valid()
      ensures found <==> room in old(db).rooms
      ensures !found ==> db == old(db) && files == old(files)
      ensures found ==>
                var rest := WithoutRoom(old(db), room);
                var gone := Reclaimable(rest, RoomHashes(old(db), room), now - limits.grace);
                && Purged(rest, db, gone) && files == old(files) - gone
      // Told plainly: the room is gone, and of the blobs it attached those nothing else needs.
      ensures found ==> db.rooms.Keys == old(db).rooms.Keys - {room} && forall a :: a in db.attachments ==> db.attachments[a].room != room
      ensures found ==> forall h :: h in old(db).blobs ==>
                (h in db.blobs <==>
                  ((forall a :: a in old(db).attachments && old(db).attachments[a].room == room ==> old(db).attachments[a].blob != h)
                   || Needed(WithoutRoom(old(db), room), h, now, limits.grace)))
    {
      if room !in db.rooms { return false; }
      var hashes := RemoveRoomRows(room);
      ghost var rest := db;
      forall h | h in old(db).blobs ensures Protected(rest, h, now - limits.grace) <==> Needed(rest, h, now, limits.grace) {
        ProtectedIff(limits, rest, h, now);
      }
      var reclaimed := ReleaseBlobsForDeletedRoom(hashes, now);
      found := true;
    }

    // The deleting transaction: attachment rows first, then the room row.
    method RemoveRoomRows(room: nat) returns (hashes: set<nat>)
      requires Valid()
      modifies this`db
      ensures Valid() && db == WithoutRoom(old(db), room) && hashes == RoomHashes(old(db), room)
    {
      hashes := RoomHashes(db, room);
      RoomRemovalKeepsDbInv(limits, db, room);
      var left := map a | a in db.attachments && db.attachments[a].room != room :: db.attachments[a];
      db := db.(attachments := left);
      db := db.(rooms := db.rooms - {room});
    }

    method ReleaseBlobsForDeletedRoom(candidates: set<nat>, now: int) returns (reclaimed: set<nat>)
      requires Valid()
      modifies this
      ensures Valid()
      ensures reclaimed == Reclaimable(old(db), candidates, now - limits.grace)
      ensures Purged(old(db), db, reclaimed) && files == old(files) - reclaimed
    {
      reclaimed := ReclaimEach(candidates, now - limits.grace);
    }

    // Deletes one reference, then reclaims its blob if nothing protects it.
    method DeleteRoomAttachment(a: nat, room: nat, now: int) returns (h: Option<nat>)
      requires Valid()
      modifies this
      ensures Valid()
      ensures h == if a in old(db).attachments && old(db).attachments[a].room == room
                   then Some(old(db).attachments[a].blob) else None
      ensures h == None ==> db == old(db) && files == old(files)
      ensures h.Some? ==>
                var rest := WithoutAttachment(old(db), a);
                var keep := Protected(rest, h.value, now - limits.grace);
                && db == (if keep then rest else Reclaimed(rest, h.value, rest.totalBytes))
                && files == (if keep then old(files) else old(files) - {h.value})
      ensures h.Some? ==> a !in db.attachments
      ensures h.Some? && h.value in old(db).blobs ==>
                (h.value in db.blobs <==> Needed(WithoutAttachment(old(db), a), h.value, now, limits.grace))
    {
      if a !in db.attachments || db.attachments[a].room != room { return None; }
      h := Some(db.attachments[a].blob);
      DetachKeepsDbInv(limits, db, a);
      db := db.(attachments := db.attachments - {a});
      ProtectedIff(limits, db, h.value, now);
      var deleted := ReclaimBlobIfUnreferenced(h.value, now - limits.grace);
    }
  }
}
