// The room row as the mutators see it: fields updated in place under the row lock.
module RoomRows {
  import opened Common
  import opened Rooms
  import opened RoomInvariants

  class RoomRow {
    const maxMessages: int
    const consensusFloor: int
    var status: Status
    var closedAt: Option<int>
    var closeReason: Option<Reason>
    var messageCount: int
    var rows: seq<Row>
    var members: seq<Member>
    var mode: Mode
    var requiresOwnerOpen: bool
    var openedAt: Option<int>
    var pendingDuration: Option<nat>
    var expiresAt: Option<int>
    var closingWarnedAt: Option<int>
    var agentUploadsAllowed: bool

    ghost function Value(): Room reads this {
      Room(status, closedAt, closeReason, maxMessages, messageCount, rows, members, mode, consensusFloor,
           requiresOwnerOpen, openedAt, pendingDuration, expiresAt, closingWarnedAt, agentUploadsAllowed)
    }

    constructor (r: Room)
      ensures Value() == r
    {
      maxMessages, consensusFloor := r.maxMessages, r.consensusFloor;
      status, closedAt, closeReason := r.status, r.closedAt, r.closeReason;
      messageCount, rows, members := r.messageCount, r.rows, r.members;
      mode, requiresOwnerOpen, openedAt := r.mode, r.requiresOwnerOpen, r.openedAt;
      pendingDuration, expiresAt, closingWarnedAt := r.pendingDuration, r.expiresAt, r.closingWarnedAt;
      agentUploadsAllowed := r.agentUploadsAllowed;
    }

    method Current() returns (r: Room)
      ensures r == Value()
    {
      r := Room(status, closedAt, closeReason, maxMessages, messageCount, rows, members, mode, consensusFloor,
                requiresOwnerOpen, openedAt, pendingDuration, expiresAt, closingWarnedAt, agentUploadsAllowed);
    }

    method NextSeq() returns (num: nat)
      ensures num == MaxSeq(rows) + 1
      ensures forall i :: 0 <= i < |rows| ==> rows[i].num < num
    {
      var max := 0;
      for i := 0 to |rows|
        invariant max == MaxSeq(rows[..i])
        invariant forall k :: 0 <= k < i ==> rows[k].num <= max
      {
        assert rows[..i + 1][..i] == rows[..i];
        if max < rows[i].num { max := rows[i].num; }
      }
      assert rows[..|rows|] == rows;
      num := max + 1;
    }

    method Append(sender: string, kind: Kind, text: string)
      modifies this`rows, this`messageCount
      ensures Value() == Appended(old(Value()), sender, kind, text)
    {
      var num := NextSeq();
      rows := rows + [Row(num, sender, kind, text, false)];
      messageCount := messageCount + 1;
    }

    // Every server announcement: next sequence number, counted, no cap check.
    method PostSystem(note: string)
      modifies this`rows, this`messageCount
      ensures Value() == Appended(old(Value()), SYSTEM, System, note)
    {
      Append(SYSTEM, System, note);
    }

    method CheckAndBindSeat(sender: string, principal: Principal) returns (ok: bool)
      modifies this`members
      ensures ok <==> BoundSeats(old(members), sender, principal).Some?
      ensures members == if ok then BoundSeats(old(members), sender, principal).value else old(members)
    {
      if principal == OwnerToken {
        return true;
      }
      for i := 0 to |members|
        invariant members == old(members)
        invariant forall k :: 0 <= k < i ==> members[k].name != sender
      {
        if members[i].name == sender {
          BoundSeatsAt(members, sender, principal, i);
          if members[i].bound == None {
            members := members[i := Member(sender, Some(principal.id))];
            return true;
          }
          return members[i].bound == Some(principal.id);
        }
      }
      NoSuchSeat(members, sender, principal);
      ok := true;
    }

    // Floor reached and both members on record?
    method ConsensusGateOk(sender: string, kind: Kind) returns (ok: bool)
      ensures ok <==> MayCloseAsAgreed(Value(), sender, kind)
    {
      if sender == OWNER || kind != Done || !Gated(mode) { return true; }
      if messageCount < consensusFloor { return false; }
      for i := 0 to |members|
        invariant forall k :: 0 <= k < i ==> HasObjected(rows, members[k].name)
      {
        if !HasObjected(rows, members[i].name) { return false; }
      }
      ok := true;
    }

    method ApplyClose(reason: Reason, now: int)
      modifies this`status, this`closedAt, this`closeReason
      ensures Value() == ClosedWith(old(Value()), reason, now)
    {
      status := Closed;
      closedAt := Some(now);
      closeReason := Some(reason);
    }

    method ResolveDeadline(now: int)
      modifies this`expiresAt, this`pendingDuration
      ensures Value() == DeadlineResolved(old(Value()), now)
    {
      if pendingDuration.Some? {
        expiresAt := Some(now + pendingDuration.value);
        pendingDuration := None;
      }
    }

    method OpenIfOwner(sender: string, now: int)
      modifies this`openedAt, this`expiresAt, this`pendingDuration
      ensures Value() == OpenedBy(old(Value()), sender, now)
    {
      if sender == OWNER && openedAt == None {
        openedAt := Some(now);
        ResolveDeadline(now);
      }
    }

    method InsertMessageAndMaybeClose(sender: string, text: string, kind: Kind, now: int)
      modifies this
      ensures Value() == Inserted(old(Value()), sender, text, kind, now)
    {
      OpenIfOwner(sender, now);
      Append(sender, kind, text);
      if kind == Done {
        ApplyClose(DoneReason, now);
      } else if maxMessages <= messageCount {
        ApplyClose(CapReason, now);
      }
    }

    // The locked part of a post; on refusal nothing is written.
    method PostMessage(sender: string, text: string, kind: Kind, principal: Principal, now: int)
      returns (err: Option<Error>)
      modifies this
      ensures var o := PostBody(old(Value()), sender, text, kind, principal, now);
              && (o.Committed? ==> err == None && Value() == o.room)
              && (o.Refused? ==> err == Some(o.error) && Value() == old(Value()))
      ensures old(RoomInv(Value())) && kind != System ==> RoomInv(Value())
    {
      ghost var before := Value();
      if RoomInv(before) && kind != System { PostKept(before, sender, text, kind, principal, now); }
      if status != Open { return Some(RoomClosed); }
      var gate := ConsensusGateOk(sender, kind);
      if !gate { return Some(CloseAsAgreedNotPermitted); }
      var seated := CheckAndBindSeat(sender, principal);
      if !seated { return Some(SeatBoundToOtherMachine); }
      InsertMessageAndMaybeClose(sender, text, kind, now);
      err := None;
    }

    method Delete(num: nat) returns (err: Option<Error>)
      modifies this`rows, this`messageCount
      ensures var o := DeleteBody(old(Value()), num);
              && Value() == (if o.Committed? then o.room else old(Value()))
              && err == (if o.Refused? then Some(o.error) else None)
      ensures old(RoomInv(Value())) ==> RoomInv(Value())
    {
      ghost var before := Value();
      if RoomInv(before) { Kept(before, DeleteMessage(num), 0); }
      if !exists i :: 0 <= i < |rows| && rows[i].num == num { return Some(MessageNotFound); }
      err := None;
      var i := IndexOf(rows, num);
      if !rows[i].deleted {
        rows := rows[i := rows[i].(text := DELETED_MESSAGE_MARKER)];
        rows := rows[i := rows[i].(deleted := true)];
        messageCount := if messageCount - 1 < 0 then 0 else messageCount - 1;
      }
    }

    // Idempotent: the first closer's reason and time stand.
    method CloseRoom(reason: Option<Reason>, now: int)
      modifies this`status, this`closedAt, this`closeReason
      ensures var o := CloseBody(old(Value()), reason, now);
              Value() == if o.Committed? then o.room else old(Value())
      ensures old(RoomInv(Value())) ==> RoomInv(Value())
    {
      ghost var before := Value();
      if RoomInv(before) { Kept(before, Close(reason), now); }
      if status == Closed { return; }
      ApplyClose(if reason == None then OwnerReason else reason.value, now);
    }

    method PostClosingNudge(note: string, now: int) returns (posted: bool)
      modifies this`rows, this`messageCount, this`closingWarnedAt
      ensures var o := NudgeBody(old(Value()), note, now);
              posted == o.Committed? && Value() == if o.Committed? then o.room else old(Value())
      ensures old(RoomInv(Value())) ==> RoomInv(Value())
    {
      ghost var before := Value();
      if RoomInv(before) { Kept(before, Nudge(note), now); }
      if status != Open || closingWarnedAt.Some? { return false; }
      PostSystem(note);
      closingWarnedAt := Some(now);
      posted := true;
    }

    method SwitchRoomMode(newMode: Mode, note: string) returns (err: Option<Error>)
      modifies this`mode, this`rows, this`messageCount
      ensures var o := SwitchModeBody(old(Value()), newMode, note);
              && Value() == (if o.Committed? then o.room else old(Value()))
              && err == (if o.Refused? then Some(o.error) else None)
      ensures old(RoomInv(Value())) ==> RoomInv(Value())
    {
      ghost var before := Value();
      if RoomInv(before) { Kept(before, SwitchMode(newMode, note), 0); }
      if status != Open { return Some(RoomClosed); }
      if Gated(newMode) && maxMessages <= consensusFloor { return Some(ConsensusFloorUnreachable); }
      mode := newMode;
      PostSystem(note);
      err := None;
    }

    method SetAgentUploadsAllowed(allowed: bool, note: string) returns (err: Option<Error>)
      modifies this`agentUploadsAllowed, this`rows, this`messageCount
      ensures var o := Body(old(Value()), SetAgentUploads(allowed, note), 0);
              && Value() == (if o.Committed? then o.room else old(Value()))
              && err == (if o.Refused? then Some(o.error) else None)
      ensures old(RoomInv(Value())) ==> RoomInv(Value())
    {
      ghost var before := Value();
      if RoomInv(before) { Kept(before, SetAgentUploads(allowed, note), 0); }
      if status != Open { return Some(RoomClosed); }
      agentUploadsAllowed := allowed;
      PostSystem(note);
      err := None;
    }

    method SetRequiresOwnerOpen(required: bool, note: string, now: int) returns (err: Option<Error>)
      modifies this`requiresOwnerOpen, this`expiresAt, this`pendingDuration, this`rows, this`messageCount
      ensures var o := SetOwnerOpenBody(old(Value()), required, note, now);
              && Value() == (if o.Committed? then o.room else old(Value()))
              && err == (if o.Refused? then Some(o.error) else None)
      ensures old(RoomInv(Value())) ==> RoomInv(Value())
    {
      ghost var before := Value();
      if RoomInv(before) { Kept(before, SetOwnerOpen(required, note), now); }
      if status != Open { return Some(RoomClosed); }
      var openedByThisToggle := !required && openedAt == None && requiresOwnerOpen;
      if openedByThisToggle { ResolveDeadline(now); }
      requiresOwnerOpen := required;
      PostSystem(note);
      err := None;
    }

    method SetRoomMemberSeat(name: string, machine: Option<nat>, standing: Standing, note: string)
      returns (err: Option<Error>)
      modifies this`members, this`rows, this`messageCount
      ensures var o := Body(old(Value()), SetSeat(name, machine, standing, note), 0);
              && Value() == (if o.Committed? then o.room else old(Value()))
              && err == (if o.Refused? then Some(o.error) else None)
      ensures old(RoomInv(Value())) ==> RoomInv(Value())
    {
      ghost var before := Value();
      if RoomInv(before) { Kept(before, SetSeat(name, machine, standing, note), 0); }
      if status != Open { return Some(RoomClosed); }
      if !exists i :: 0 <= i < |members| && members[i].name == name { return Some(MemberNotFound); }
      if machine != None {
        if standing == NoSuchMachine { return Some(UnknownSeatMachine); }
        if standing != ActiveMachine { return Some(SeatMachineNotActive); }
      }
      members := WithSeat(members, name, machine);
      PostSystem(note);
      err := None;
    }
  }

  lemma Kept(r: Room, req: Request, now: int)
    requires RoomInv(r) && !req.Post?
    ensures Body(r, req, now).Committed? ==> RoomInv(Body(r, req, now).room)
  {
    if Body(r, req, now).Committed? { BodyKeepsInv(r, req, now); }
  }

  lemma PostKept(r: Room, sender: string, text: string, kind: Kind, p: Principal, now: int)
    requires RoomInv(r) && kind != System
    ensures PostBody(r, sender, text, kind, p, now).Committed? ==> RoomInv(PostBody(r, sender, text, kind, p, now).room)
  {
    if PostBody(r, sender, text, kind, p, now).Committed? { PostKeepsInv(r, sender, text, kind, p, now); }
  }

  lemma {:induction false} BoundSeatsAt(members: seq<Member>, sender: string, p: Principal, i: nat)
    requires i < |members| && members[i].name == sender && p.MachineToken?
    requires forall k :: 0 <= k < i ==> members[k].name != sender
    ensures BoundSeats(members, sender, p) ==
            if members[i].bound == None then Some(members[i := Member(sender, Some(p.id))])
            else if members[i].bound == Some(p.id) then Some(members) else None
  {
    if i > 0 {
      BoundSeatsAt(members[1..], sender, p, i - 1);
      assert [members[0]] + members[1..] == members;
      assert [members[0]] + members[1..][i - 1 := Member(sender, Some(p.id))] == members[i := Member(sender, Some(p.id))];
    } else {
      assert [Member(sender, Some(p.id))] + members[1..] == members[0 := Member(sender, Some(p.id))];
    }
  }

  lemma {:induction false} NoSuchSeat(members: seq<Member>, sender: string, p: Principal)
    requires forall k :: 0 <= k < |members| ==> members[k].name != sender
    ensures BoundSeats(members, sender, p) == Some(members)
  {
    if members != [] {
      NoSuchSeat(members[1..], sender, p);
      assert [members[0]] + members[1..] == members;
    }
  }
}
