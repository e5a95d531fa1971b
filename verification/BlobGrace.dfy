// How long a room's files live, told by the run alone: by when the room was closed and
// what the clock says, in every interleaving.
module BlobGrace {
  import opened Common
  import opened BlobStore
  import opened BlobProtocol

  // The state after the first `k` steps.
  function At(l: Limits, s: Sys, steps: seq<Step>, k: nat): Sys
    requires Runs(l, s, steps) && k <= |steps|
    decreases k
  {
    if k == 0 then s else At(l, Next(l, s, steps[0]), steps[1..], k - 1)
  }

  lemma {:induction false} AtNext(l: Limits, s: Sys, steps: seq<Step>, k: nat)
    requires Runs(l, s, steps) && k < |steps|
    ensures Enabled(l, At(l, s, steps, k), steps[k])
    ensures At(l, s, steps, k + 1) == Next(l, At(l, s, steps, k), steps[k])
    decreases k
  {
    if k > 0 {
      AtNext(l, Next(l, s, steps[0]), steps[1..], k - 1);
    } else {
      assert At(l, Next(l, s, steps[0]), steps[1..], 0) == Next(l, s, steps[0]);
    }
  }

  lemma {:induction false} AtPrefix(l: Limits, s: Sys, steps: seq<Step>, k: nat)
    requires Runs(l, s, steps) && k <= |steps|
    ensures Runs(l, s, steps[..k]) && After(l, s, steps[..k]) == At(l, s, steps, k)
    decreases k
  {
    if k > 0 {
      AtPrefix(l, Next(l, s, steps[0]), steps[1..], k - 1);
      assert steps[..k][1..] == steps[1..][..k - 1];
    }
  }

  lemma {:induction false} ClockGoesOn(l: Limits, s: Sys, steps: seq<Step>, j: nat, k: nat)
    requires Runs(l, s, steps) && j <= k <= |steps|
    ensures At(l, s, steps, j).now <= At(l, s, steps, k).now
  {
    if j < k {
      ClockGoesOn(l, s, steps, j, k - 1);
      AtNext(l, s, steps, k - 1);
    }
  }

  // A step leaves a room's entry alone, or creates, closes or removes it.
  lemma RoomStep(l: Limits, s: Sys, step: Step, r: nat)
    requires Enabled(l, s, step)
    ensures var t := Next(l, s, step);
            r in t.db.rooms ==>
              if step == CloseRoom(r) then t.db.rooms[r] == Room(false, Some(s.now))
              else if step == CreateRoom(r) then t.db.rooms[r] == Room(true, None)
              else r in s.db.rooms && t.db.rooms[r] == s.db.rooms[r]
  {
  }

  // The other steps that change tables, each with its whole effect.
  lemma OwnerSteps(l: Limits, s: Sys, step: Step)
    requires Enabled(l, s, step) && !step.Advance?
    ensures var t := Next(l, s, step);
            && t.files == s.files && t.db.blobs == s.db.blobs && t.db.totalBytes == s.db.totalBytes
            && t.db.rooms.Keys == (if step.CreateRoom? then s.db.rooms.Keys + {step.room}
                                   else if step.DropRoom? then s.db.rooms.Keys - {step.room} else s.db.rooms.Keys)
            && (forall a :: a in t.db.attachments <==>
                  (a in s.db.attachments && step != DropAttachment(a) && step != DropRoom(s.db.attachments[a].room)))
            && (forall a :: a in t.db.attachments ==> t.db.attachments[a] == s.db.attachments[a])
            && t.db.documents == (if step.AddDocument? then s.db.documents[step.doc := None]
                                  else if step.LinkDocument? then s.db.documents[step.doc := Some(step.hash)]
                                  else s.db.documents)
            && t.now == s.now + (if step.Tick? then step.amount else 0)
  {
  }

  // A room closed at step `j` is, as long as it is stored, closed no earlier than that
  // (it may have been removed and created anew in between).
  lemma {:induction false} ClosedSince(l: Limits, s: Sys, steps: seq<Step>, j: nat, k: nat, r: nat)
    requires Runs(l, s, steps) && j < k <= |steps| && steps[j] == CloseRoom(r)
    ensures var t := At(l, s, steps, k);
            r in t.db.rooms ==>
              t.db.rooms[r].isOpen
              || (t.db.rooms[r].closedAt.Some? && At(l, s, steps, j).now <= t.db.rooms[r].closedAt.value)
  {
    AtNext(l, s, steps, k - 1);
    RoomStep(l, At(l, s, steps, k - 1), steps[k - 1], r);
    ClockGoesOn(l, s, steps, j, k - 1);
    if j < k - 1 {
      ClosedSince(l, s, steps, j, k - 1, r);
    }
  }

  // What a step may not take away: a blob some document links, or some attachment of an
  // open room, or of one closed for less than the grace period.
  lemma NeededBlobStays(l: Limits, s: Sys, steps: seq<Step>, k: nat, h: nat)
    requires Init(l, s) && Runs(l, s, steps) && k < |steps|
    requires Needed(At(l, s, steps, k).db, h, At(l, s, steps, k).now, l.grace)
    ensures h in At(l, s, steps, k).db.blobs && h in At(l, s, steps, k + 1).db.blobs
  {
    var t := At(l, s, steps, k);
    AtPrefix(l, s, steps, k);
    AtNext(l, s, steps, k);
    RunInv(l, s, steps[..k]);
    ProtectedIff(l, t.db, h, t.now);
    OnlyUnprotectedRemoved(l, s, steps[..k], steps[k], h);
  }

  // In every run: within the grace period after a room's close, no step removes a blob
  // that an attachment of the room still holds; nor while the room is open.
  lemma GraceRespected(l: Limits, s: Sys, steps: seq<Step>, j: nat, k: nat, r: nat, a: nat)
    requires Init(l, s) && Runs(l, s, steps) && j < k < |steps| && steps[j] == CloseRoom(r)
    requires At(l, s, steps, k).now < At(l, s, steps, j).now + l.grace
    requires var db := At(l, s, steps, k).db; a in db.attachments && db.attachments[a].room == r
    ensures At(l, s, steps, k).db.attachments[a].blob in At(l, s, steps, k + 1).db.blobs
  {
    var t := At(l, s, steps, k);
    AtPrefix(l, s, steps, k);
    RunInv(l, s, steps[..k]);
    ClosedSince(l, s, steps, j, k, r);
    assert NeedsFiles(t.db.rooms[r], t.now, l.grace) && Needed(t.db, t.db.attachments[a].blob, t.now, l.grace);
    NeededBlobStays(l, s, steps, k, t.db.attachments[a].blob);
  }

  lemma OpenRoomsKeepTheirFiles(l: Limits, s: Sys, steps: seq<Step>, k: nat, a: nat)
    requires Init(l, s) && Runs(l, s, steps) && k < |steps|
    requires var db := At(l, s, steps, k).db;
             a in db.attachments && db.attachments[a].room in db.rooms && db.rooms[db.attachments[a].room].isOpen
    ensures At(l, s, steps, k).db.attachments[a].blob in At(l, s, steps, k + 1).db.blobs
  {
    var t := At(l, s, steps, k);
    assert Needed(t.db, t.db.attachments[a].blob, t.now, l.grace);
    NeededBlobStays(l, s, steps, k, t.db.attachments[a].blob);
  }
}
