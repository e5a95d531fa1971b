// One cycle of the background sweeper over all rooms: close what has expired, warn
// what is about to, with one room's failure isolated from the others.
module RoomSweeper {
  import opened Common
  import opened Rooms
  import opened RoomInvariants
  import opened RoomRows
  import BlobStore

  const WARN_SECONDS := 120
  const CLOSING_NUDGE := "About 2 minutes left: post your closing statements now."

  predicate Expired(r: Room, now: int) {
    r.status == Open && r.expiresAt.Some? && r.expiresAt.value <= now
  }

  predicate Closing(r: Room, now: int) {
    r.status == Open && r.expiresAt.Some? && r.closingWarnedAt == None && r.expiresAt.value <= now + WARN_SECONDS
  }

  function Nudged(r: Room, now: int): Room {
    Appended(r, SYSTEM, System, CLOSING_NUDGE).(closingWarnedAt := Some(now))
  }

  class RoomTable {
    var rooms: map<nat, Room>

    constructor (rooms: map<nat, Room>)
      ensures this.rooms == rooms
    {
      this.rooms := rooms;
    }

    // `failing` are the rooms whose own transaction raises this cycle.
    method CloseExpiredRooms(now: int, failing: set<nat>) returns (closed: set<nat>)
      modifies this
      ensures closed == set id | id in old(rooms) && Expired(old(rooms)[id], now) && id !in failing
      ensures rooms == map id | id in old(rooms) ::
                if id in closed then ClosedWith(old(rooms)[id], TimeReason, now) else old(rooms)[id]
    {
      var scanned := set id | id in rooms && Expired(rooms[id], now);
      var todo := scanned;
      closed := {};
      while todo != {}
        invariant todo <= scanned && closed == scanned - todo - failing
        invariant rooms == map id | id in old(rooms) ::
                    if id in closed then ClosedWith(old(rooms)[id], TimeReason, now) else old(rooms)[id]
      {
        var id :| id in todo;
        if id !in failing {
          var row := new RoomRow(rooms[id]);
          row.CloseRoom(Some(TimeReason), now);
          var after := row.Current();
          rooms := rooms[id := after];
          closed := closed + {id};
        }
        todo := todo - {id};
      }
    }

    method WarnClosingRooms(now: int, failing: set<nat>) returns (warned: set<nat>)
      modifies this
      ensures warned == set id | id in old(rooms) && Closing(old(rooms)[id], now) && id !in failing
      ensures rooms == map id | id in old(rooms) ::
                if id in warned then Nudged(old(rooms)[id], now) else old(rooms)[id]
    {
      var scanned := set id | id in rooms && Closing(rooms[id], now);
      var todo := scanned;
      warned := {};
      while todo != {}
        invariant todo <= scanned && warned == scanned - todo - failing
        invariant rooms == map id | id in old(rooms) ::
                    if id in warned then Nudged(old(rooms)[id], now) else old(rooms)[id]
      {
        var id :| id in todo;
        if id !in failing {
          var row := new RoomRow(rooms[id]);
          var posted := row.PostClosingNudge(CLOSING_NUDGE, now);
          var after := row.Current();
          rooms := rooms[id := after];
          if posted { warned := warned + {id}; }
        }
        todo := todo - {id};
      }
    }

    // After a cycle without failures no open room is past the deadline of the first scan,
    // every open room inside the window of the second has been warned, and no room is both
    // closed and warned. The blob pass comes last and leaves exactly the protected blobs,
    // or nothing is touched when it fails. Each pass reads its own clock.
    method SweepOnce(now: int, later: int, last: int, failing: set<nat>, store: BlobStore.AttachmentStore, blobsFail: bool)
      returns (closed: set<nat>, warned: set<nat>, reclaimed: set<nat>)
      requires now <= later && store.Valid()
      modifies this, store
      ensures store.Valid()
      ensures closed == set id | id in old(rooms) && Expired(old(rooms)[id], now) && id !in failing
      ensures warned == set id | id in old(rooms) && id !in closed && Closing(old(rooms)[id], later) && id !in failing
      // By deadline and clock: closed when due at the first scan; warned when open, not
      // warned before, and due within two minutes of the second.
      ensures forall id :: id in closed <==>
                (id in old(rooms) && id !in failing && old(rooms)[id].status == Open && old(rooms)[id].expiresAt.Some?
                 && old(rooms)[id].expiresAt.value <= now)
      ensures forall id :: id in warned <==>
                (id in old(rooms) && id !in failing && id !in closed && old(rooms)[id].status == Open
                 && old(rooms)[id].expiresAt.Some? && old(rooms)[id].closingWarnedAt == None
                 && old(rooms)[id].expiresAt.value <= later + 120)
      ensures forall id :: id in closed ==>
                id in rooms && rooms[id].status == Closed && rooms[id].closedAt == Some(now) && rooms[id].closeReason == Some(TimeReason)
      ensures forall id :: id in warned ==>
                id in rooms && rooms[id].closingWarnedAt == Some(later) && |rooms[id].rows| == |old(rooms)[id].rows| + 1
      ensures rooms.Keys == old(rooms).Keys
      ensures forall id :: id in rooms && id !in failing ==> !Expired(rooms[id], now) && !Closing(rooms[id], later)
      ensures forall id :: id in rooms ==>
                rooms[id] == if id in closed then ClosedWith(old(rooms)[id], TimeReason, now)
                             else if id in warned then Nudged(old(rooms)[id], later) else old(rooms)[id]
      ensures blobsFail ==> reclaimed == {} && store.db == old(store.db) && store.files == old(store.files)
      ensures !blobsFail ==>
                && reclaimed == old(store.db).blobs.Keys - store.db.blobs.Keys
                && store.db.blobs.Keys == set h | h in old(store.db).blobs
                                            && BlobStore.Needed(old(store.db), h, last, store.limits.grace)
    {
      closed := CloseExpiredRooms(now, failing);
      warned := WarnClosingRooms(later, failing);
      reclaimed := {};
      if !blobsFail {
        reclaimed := store.SweepExpiredBlobs(last);
      }
    }
  }

  // The scan and the pre-check of a sweeping close agree on what is due.
  lemma ExpiredIsPreChecked(r: Room, now: int)
    ensures Expired(r, now) <==> PreCheck(r, SweepClose, now) == None
  {
  }

  // A cycle keeps every room's invariant.
  lemma CycleKeepsRooms(r: Room, now: int)
    requires RoomInv(r)
    ensures RoomInv(ClosedWith(r, TimeReason, now)) && RoomInv(Nudged(r, now))
  {
    CloseKeepsInv(r, TimeReason, now);
    SystemRowKeepsInv(r, CLOSING_NUDGE);
    FieldsKeepInv(Appended(r, SYSTEM, System, CLOSING_NUDGE), Nudged(r, now));
  }
}
