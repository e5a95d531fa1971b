// When can the two members of a debate or critique room close it as agreed by
// posting? Exactly when the remaining objections fit below the message cap.
module RoomConsensus {
  import opened Common
  import opened Rooms
  import opened RoomInvariants
  import opened RoomRuns

  // One call to the posting endpoint; a refused post changes nothing.
  function PlayPost(r: Room, req: Request, now: int): Room {
    if PreCheck(r, req, now).Some? then r
    else
      var o := Body(r, req, now);
      if o.Committed? then o.room else r
  }

  function Play(r: Room, posts: seq<Request>, now: int): Room
    decreases |posts|
  {
    if posts == [] then r else Play(PlayPost(r, posts[0], now), posts[1..], now)
  }

  // Posts under the members' own names only.
  predicate ByMembers(r: Room, posts: seq<Request>) {
    forall i :: 0 <= i < |posts| ==> posts[i].Post? && IsMember(r, posts[i].sender)
  }

  predicate HasAgreedDone(r: Room) {
    exists k :: 0 <= k < |r.rows| && r.rows[k].kind == Done && r.rows[k].sender != OWNER
  }

  predicate TwoMembers(r: Room) {
    |r.members| == 2 && r.members[0].name != r.members[1].name
  }

  function Missing(r: Room): nat
    requires TwoMembers(r)
  {
    (if HasObjected(r.rows, r.members[0].name) then 0 else 1)
    + (if HasObjected(r.rows, r.members[1].name) then 0 else 1)
  }

  // An open debate or critique room in which agents may speak.
  predicate Ready(r: Room) {
    && RoomInv(r) && TwoMembers(r) && Gated(r.mode)
    && r.status == Open && (r.openedAt.Some? || !r.requiresOwnerOpen)
  }

  predicate RoomForAgreement(r: Room)
    requires TwoMembers(r)
  {
    Missing(r) == 0 || r.messageCount + Missing(r) < r.maxMessages
  }

  // ---------- Enough room: a closing run exists ----------

  // The credentials a member posts with: its seat's machine, or any if the seat is free.
  function CredentialsOf(r: Room, name: string): Principal {
    if name == OWNER then OwnerToken
    else
      var seat := SeatOf(r.members, name);
      MachineToken(if seat == None then 0 else seat.value)
  }

  lemma {:induction false} OwnMachineIsSeated(members: seq<Member>, name: string, id: nat)
    requires SeatOf(members, name) == None || SeatOf(members, name) == Some(id)
    ensures BoundSeats(members, name, MachineToken(id)).Some?
  {
    if members != [] && members[0].name != name {
      OwnMachineIsSeated(members[1..], name, id);
    }
  }

  lemma MemberPostCommits(r: Room, name: string, kind: Kind, now: int)
    requires Ready(r) && IsMember(r, name) && kind != System && MayCloseAsAgreed(r, name, kind)
    ensures var req := Post(name, "text", kind, CredentialsOf(r, name));
            && PreCheck(r, req, now) == None && Body(r, req, now).Committed?
            && PlayPost(r, req, now) == Body(r, req, now).room
  {
    if name != OWNER {
      OwnMachineIsSeated(r.members, name, CredentialsOf(r, name).id);
    }
  }

  lemma ObjectedSnoc(rows: seq<Row>, row: Row, name: string)
    ensures HasObjected(rows + [row], name) <==>
            HasObjected(rows, name) || (row.kind == Objection && row.sender == name)
  {
    if HasObjected(rows, name) {
      var i :| 0 <= i < |rows| && rows[i].kind == Objection && rows[i].sender == name;
      assert (rows + [row])[i] == rows[i];
    }
    assert (rows + [row])[|rows|] == row;
  }

  // A member's post that does not close leaves the room ready, one message longer.
  lemma MemberPostEffect(r: Room, name: string, kind: Kind, now: int)
    requires Ready(r) && IsMember(r, name) && kind != System && kind != Done
    requires r.messageCount + 1 < r.maxMessages
    ensures var t := PlayPost(r, Post(name, "text", kind, CredentialsOf(r, name)), now);
            && Ready(t) && SameNames(r.members, t.members)
            && t.messageCount == r.messageCount + 1
            && t.maxMessages == r.maxMessages && t.consensusFloor == r.consensusFloor
            && t.rows == r.rows + [Row(MaxSeq(r.rows) + 1, name, kind, "text", false)]
  {
    var p := CredentialsOf(r, name);
    MemberPostCommits(r, name, kind, now);
    PostKeepsInv(r, name, "text", kind, p, now);
    PostWrites(r, name, "text", kind, p, now);
    PostOpens(r, name, "text", kind, p, now);
    BoundSeatsNames(r.members, name, p);
  }

  lemma ByMembersAfter(r: Room, t: Room, posts: seq<Request>)
    requires SameNames(r.members, t.members) && ByMembers(t, posts)
    ensures ByMembers(r, posts)
  {
    forall i | 0 <= i < |posts| ensures posts[i].Post? && IsMember(r, posts[i].sender) {
      var k :| 0 <= k < |t.members| && t.members[k].name == posts[i].sender;
      assert r.members[k].name == posts[i].sender;
    }
  }

  // What is still owed before the closing post.
  function Owed(r: Room): nat
    requires TwoMembers(r)
  {
    Missing(r) + (if r.messageCount < r.consensusFloor then r.consensusFloor - r.messageCount else 0)
  }

  function NextPost(r: Room): Request
    requires TwoMembers(r)
  {
    var a, b := r.members[0].name, r.members[1].name;
    var speaker := if a != OWNER then a else b;
    var name := if Owed(r) == 0 then speaker else if !HasObjected(r.rows, a) then a
                else if !HasObjected(r.rows, b) then b else speaker;
    Post(name, "text", if 0 < Missing(r) then Objection else if Owed(r) == 0 then Done else Message, CredentialsOf(r, name))
  }

  lemma NextPostProgress(r: Room, now: int)
    requires Ready(r) && RoomForAgreement(r) && 0 < Owed(r)
    ensures var t := PlayPost(r, NextPost(r), now);
            Ready(t) && RoomForAgreement(t) && Owed(t) < Owed(r) && SameNames(r.members, t.members)
    ensures NextPost(r).Post? && IsMember(r, NextPost(r).sender)
  {
    assert IsMember(r, r.members[0].name) && IsMember(r, r.members[1].name);
    var req := NextPost(r);
    MemberPostEffect(r, req.sender, req.kind, now);
    OwesLess(r, PlayPost(r, req, now), Row(MaxSeq(r.rows) + 1, req.sender, req.kind, "text", false));
  }

  // The next row either adds a missing objection or brings the floor nearer.
  lemma OwesLess(r: Room, t: Room, row: Row)
    requires TwoMembers(r) && TwoMembers(t) && SameNames(r.members, t.members) && RoomForAgreement(r) && 0 < Owed(r)
    requires t.rows == r.rows + [row] && t.messageCount == r.messageCount + 1
    requires t.maxMessages == r.maxMessages && t.consensusFloor == r.consensusFloor < r.maxMessages
    requires row.sender == NextPost(r).sender && row.kind == NextPost(r).kind
    ensures RoomForAgreement(t) && Owed(t) < Owed(r)
  {
    ObjectedSnoc(r.rows, row, r.members[0].name);
    ObjectedSnoc(r.rows, row, r.members[1].name);
  }

  lemma LastPostCloses(r: Room, now: int)
    requires Ready(r) && RoomForAgreement(r) && Owed(r) == 0
    ensures var t := PlayPost(r, NextPost(r), now);
            HasAgreedDone(t) && t.status == Closed && t.closeReason == Some(DoneReason)
    ensures NextPost(r).Post? && IsMember(r, NextPost(r).sender)
  {
    assert IsMember(r, r.members[0].name) && IsMember(r, r.members[1].name);
    var req := NextPost(r);
    MemberPostCommits(r, req.sender, Done, now);
    PostWrites(r, req.sender, "text", Done, req.principal, now);
    var t := PlayPost(r, req, now);
    assert t.rows[|r.rows|].kind == Done && t.rows[|r.rows|].sender != OWNER;
  }

  // The members close the room: outstanding objections, fillers up to the floor, done.
  lemma AgreedCloseReachable(r: Room, now: int) returns (posts: seq<Request>)
    requires Ready(r) && RoomForAgreement(r)
    ensures ByMembers(r, posts) && HasAgreedDone(Play(r, posts, now))
    ensures Play(r, posts, now).status == Closed && Play(r, posts, now).closeReason == Some(DoneReason)
    decreases Owed(r)
  {
    var req := NextPost(r);
    var t := PlayPost(r, req, now);
    if 0 < Owed(r) {
      NextPostProgress(r, now);
      var rest := AgreedCloseReachable(t, now);
      posts := [req] + rest;
      ByMembersAfter(r, t, rest);
      OnePostMore(r, req, rest, now);
    } else {
      LastPostCloses(r, now);
      posts := [req] + [];
      OnePostMore(r, req, [], now);
    }
  }

  lemma OnePostMore(r: Room, req: Request, rest: seq<Request>, now: int)
    ensures Play(r, [req] + rest, now) == Play(PlayPost(r, req, now), rest, now)
    ensures ByMembers(r, rest) && req.Post? && IsMember(r, req.sender) ==> ByMembers(r, [req] + rest)
  {
    assert ([req] + rest)[1..] == rest;
  }

  // ---------- Too little room: no run closes it as agreed ----------

  // Closed otherwise, or open with more objections outstanding than the cap admits.
  predicate Stuck(r: Room) {
    && RoomInv(r) && TwoMembers(r) && Gated(r.mode) && !HasAgreedDone(r)
    && (r.status == Open ==> !RoomForAgreement(r))
  }

  lemma StuckStays(r: Room, req: Request, now: int)
    requires Stuck(r) && req.Post?
    ensures Stuck(PlayPost(r, req, now)) && SameNames(r.members, PlayPost(r, req, now).members)
  {
    var o := Body(r, req, now);
    if PreCheck(r, req, now) == None && o.Committed? {
      var t := o.room;
      var row := Row(MaxSeq(r.rows) + 1, req.sender, req.kind, req.text, false);
      PostKeepsInv(r, req.sender, req.text, req.kind, req.principal, now);
      PostWrites(r, req.sender, req.text, req.kind, req.principal, now);
      BoundSeatsNames(r.members, req.sender, req.principal);
      ObjectedSnoc(r.rows, row, r.members[0].name);
      ObjectedSnoc(r.rows, row, r.members[1].name);
      NotAgreedSnoc(r, t, row);
    }
  }

  lemma NotAgreedSnoc(r: Room, t: Room, row: Row)
    requires !HasAgreedDone(r) && t.rows == r.rows + [row] && (row.kind == Done ==> row.sender == OWNER)
    ensures !HasAgreedDone(t)
  {
    forall k | 0 <= k < |t.rows| ensures !(t.rows[k].kind == Done && t.rows[k].sender != OWNER) {
      assert k < |r.rows| ==> t.rows[k] == r.rows[k];
    }
  }

  lemma {:induction false} StuckForGood(r: Room, posts: seq<Request>, now: int)
    requires Stuck(r) && forall i :: 0 <= i < |posts| ==> posts[i].Post?
    ensures !HasAgreedDone(Play(r, posts, now))
    decreases |posts|
  {
    if posts != [] {
      StuckStays(r, posts[0], now);
      StuckForGood(PlayPost(r, posts[0], now), posts[1..], now);
    }
  }

  lemma OpenHasNoDone(r: Room)
    requires Ready(r)
    ensures !HasAgreedDone(r)
  {
  }

  // Some posts under the members' names alone end in an agreed close.
  ghost predicate AgreedReachable(r: Room, now: int) {
    exists posts :: ByMembers(r, posts) && HasAgreedDone(Play(r, posts, now))
  }

  // The exact condition, for every ready room.
  lemma AgreedCloseIff(r: Room, now: int)
    requires Ready(r)
    ensures AgreedReachable(r, now) <==> RoomForAgreement(r)
  {
    if RoomForAgreement(r) {
      var posts := AgreedCloseReachable(r, now);
    } else {
      OpenHasNoDone(r);
      forall posts | ByMembers(r, posts) ensures !HasAgreedDone(Play(r, posts, now)) {
        StuckForGood(r, posts, now);
      }
    }
  }

  // ---------- From creation ----------

  // What unlocks a created room: the requirement switched off, or the owner's message.
  function ToggledOpen(r: Room, note: string, now: int): Room {
    var o := Body(r, SetOwnerOpen(false, note), now);
    if o.Committed? then o.room else r
  }

  function OpenedByOwner(r: Room, text: string, now: int): Room {
    PlayPost(r, Post(OWNER, text, Message, OwnerToken), now)
  }

  // Unlocking adds one row to an empty room and leaves both objections missing.
  lemma UnlockedRoom(c: Room, t: Room, row: Row)
    requires RoomInv(c) && TwoMembers(c) && c.rows == [] && c.messageCount == 0
    requires RoomInv(t) && t.rows == [row] && row.kind != Objection && t.messageCount == 1
    requires t.maxMessages == c.maxMessages && t.members == c.members
    ensures TwoMembers(t) && (RoomForAgreement(t) <==> 4 <= t.maxMessages)
  {
    assert forall name :: !HasObjected(t.rows, name);
  }

  lemma OwnerUnlocks(c: Room, text: string, now: int)
    requires RoomInv(c) && TwoMembers(c) && Gated(c.mode) && c.status == Open
    requires c.rows == [] && c.openedAt == None && 1 <= c.consensusFloor
    ensures var t := OpenedByOwner(c, text, now);
            Ready(t) && t.maxMessages == c.maxMessages && (RoomForAgreement(t) <==> 4 <= t.maxMessages)
  {
    var t := OpenedByOwner(c, text, now);
    assert c.messageCount == 0;
    PostKeepsInv(c, OWNER, text, Message, OwnerToken, now);
    PostWrites(c, OWNER, text, Message, OwnerToken, now);
    PostOpens(c, OWNER, text, Message, OwnerToken, now);
    assert [] + [Row(1, OWNER, Message, text, false)] == [Row(1, OWNER, Message, text, false)];
    UnlockedRoom(c, t, Row(1, OWNER, Message, text, false));
  }

  lemma ToggleUnlocks(c: Room, note: string, now: int)
    requires RoomInv(c) && TwoMembers(c) && Gated(c.mode) && c.status == Open
    requires c.rows == [] && c.openedAt == None && 1 <= c.consensusFloor
    ensures var t := ToggledOpen(c, note, now);
            Ready(t) && t.maxMessages == c.maxMessages && (RoomForAgreement(t) <==> 4 <= t.maxMessages)
  {
    var t := ToggledOpen(c, note, now);
    assert c.messageCount == 0;
    BodyKeepsInv(c, SetOwnerOpen(false, note), now);
    assert [] + [Row(1, SYSTEM, System, note, false)] == [Row(1, SYSTEM, System, note, false)];
    UnlockedRoom(c, t, Row(1, SYSTEM, System, note, false));
  }

  // The members of a created debate or critique room, once it is unlocked either way, can
  // close it as agreed if and only if its cap is at least four. The check at creation
  // asks only for a cap above the floor.
  lemma CreatedAgreeIff(names: seq<string>, cap: Option<int>, mode: Mode, duration: Option<int>, expiresAt: Option<int>,
                        floor: Option<int>, seats: map<string, nat>, note: string, made: int, now: int)
    requires CreateRoom(names, cap, mode, duration, expiresAt, floor, seats, made).Created? && Gated(mode)
    ensures var c := CreateRoom(names, cap, mode, duration, expiresAt, floor, seats, made).room;
            && (AgreedReachable(ToggledOpen(c, note, now), now) <==> 4 <= c.maxMessages)
            && (AgreedReachable(OpenedByOwner(c, note, now), now) <==> 4 <= c.maxMessages)
  {
    var c := CreateRoom(names, cap, mode, duration, expiresAt, floor, seats, made).room;
    CreatedSatisfiesInv(names, cap, mode, duration, expiresAt, floor, seats, made);
    ToggleUnlocks(c, note, now);
    OwnerUnlocks(c, note, now);
    AgreedCloseIff(ToggledOpen(c, note, now), now);
    AgreedCloseIff(OpenedByOwner(c, note, now), now);
  }

  // Three messages above a floor of two pass the check at creation and never agree.
  lemma CapOfThreeCannotAgree(note: string, now: int)
    ensures var c := CreateRoom(["a", "b"], Some(3), Debate, None, None, Some(2), map[], now);
            && c.Created? && c.room.consensusFloor < c.room.maxMessages
            && !AgreedReachable(ToggledOpen(c.room, note, now), now)
            && !AgreedReachable(OpenedByOwner(c.room, note, now), now)
  {
    assert "a"[0] != "b"[0];
    CreatedAgreeIff(["a", "b"], Some(3), Debate, None, None, Some(2), map[], note, now, now);
  }

  // The premise of the gate holds throughout every run: floor below cap, two members.
  lemma GatedRoomsStayReachable(w: World, steps: seq<Step>, i: nat)
    requires Init(w) && Runs(w, steps) && TwoMembers(w.history[0]) && i < |After(w, steps).history|
    ensures var r := After(w, steps).history[i];
            TwoMembers(r) && (Gated(r.mode) ==> r.consensusFloor < r.maxMessages)
  {
    RunsKeepInv(w, steps);
    FirstVersionStays(w, steps);
    HistoryFollows(After(w, steps), 0, i);
    assert RoomInv(After(w, steps).history[i]);
  }

  lemma {:induction false} FirstVersionStays(w: World, steps: seq<Step>)
    requires w.history != [] && Runs(w, steps)
    ensures After(w, steps).history != [] && After(w, steps).history[0] == w.history[0]
    decreases |steps|
  {
    if steps != [] {
      FirstVersionStays(Next(w, steps[0]), steps[1..]);
    }
  }
}
