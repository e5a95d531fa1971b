// One chat room: its row, its messages and what each mutator does to them while it
// holds the room's row lock.
module Rooms {
  import opened Common

  datatype Mode = Freeform | Collaborate | Brainstorm | Debate | Critique

  datatype Kind = Message | Done | Objection | System

  // `num` (the row's sequence number) identifies a message within its room.
  datatype Row = Row(num: nat, sender: string, kind: Kind, text: string, deleted: bool)

  datatype Member = Member(name: string, bound: Option<nat>)

  datatype Status = Open | Closed

  datatype Reason = DoneReason | OwnerReason | CapReason | StallReason | TimeReason

  datatype Principal = OwnerToken | MachineToken(id: nat)

  datatype Room = Room(
    status: Status, closedAt: Option<int>, closeReason: Option<Reason>,
    maxMessages: int, messageCount: int, rows: seq<Row>, members: seq<Member>,
    mode: Mode, consensusFloor: int,
    requiresOwnerOpen: bool, openedAt: Option<int>,
    pendingDuration: Option<nat>, expiresAt: Option<int>, closingWarnedAt: Option<int>,
    agentUploadsAllowed: bool)

  datatype Error =
    | InvalidMessageKind | RoomClosed | OwnerSenderRequiresOwnerToken | RoomNotOpened | SenderNotMember | SeatBoundToOtherMachine
    | CloseAsAgreedNotPermitted | ConsensusFloorUnreachable | MessageNotFound | MemberNotFound
    | UnknownSeatMachine | SeatMachineNotActive
    | InvalidMembers | DuplicateMembers | InvalidMaxMessages | InvalidConsensusFloor | InvalidDeadline

  const OWNER := "owner"
  const SYSTEM := "system"
  const DELETED_MESSAGE_MARKER := "[message deleted by owner]"
  const MAX_MESSAGES_MAX := 10000
  const DEFAULT_MAX_MESSAGES := 100
  const DEFAULT_CONSENSUS_FLOOR := 20
  const MAX_DURATION_SECONDS := 30 * 24 * 3600

  predicate Gated(mode: Mode) {
    mode == Debate || mode == Critique
  }

  // ---------- Reading the message table ----------

  function MaxSeq(rows: seq<Row>): nat {
    if rows == [] then 0
    else
      var m := MaxSeq(rows[..|rows| - 1]);
      if m < rows[|rows| - 1].num then rows[|rows| - 1].num else m
  }

  // Untombstoned rows; with `users`, only those not written by the server.
  function Live(rows: seq<Row>, users: bool): nat {
    if rows == [] then 0
    else
      var last := rows[|rows| - 1];
      Live(rows[..|rows| - 1], users) + (if last.deleted || (users && last.kind == System) then 0 else 1)
  }

  predicate HasObjected(rows: seq<Row>, name: string) {
    exists i :: 0 <= i < |rows| && rows[i].kind == Objection && rows[i].sender == name
  }

  predicate IsMember(r: Room, name: string) {
    exists i :: 0 <= i < |r.members| && r.members[i].name == name
  }

  // ---------- The requests and what they do under the lock ----------

  datatype Request =
    | Post(sender: string, text: string, kind: Kind, principal: Principal)
    | DeleteMessage(num: nat)
    | Close(reason: Option<Reason>)
    | SweepClose
    | Nudge(note: string)
    | SwitchMode(mode: Mode, note: string)
    | SetAgentUploads(allowed: bool, note: string)
    | SetOwnerOpen(required: bool, note: string)
    | SetSeat(name: string, machine: Option<nat>, standing: Standing, note: string)
    | AttachmentNote(note: string)
    | BindSeat(sender: string, principal: Principal)  // the bind-or-check of both attach paths

  // How the machine a seat is assigned to is registered.
  datatype Standing = ActiveMachine | InactiveMachine | NoSuchMachine

  function SeatRefusal(machine: Option<nat>, standing: Standing): Option<Error> {
    if machine == None || standing == ActiveMachine then None
    else if standing == NoSuchMachine then Some(UnknownSeatMachine) else Some(SeatMachineNotActive)
  }

  datatype Outcome = Committed(room: Room) | Unchanged | Refused(error: Error)

  function Appended(r: Room, sender: string, kind: Kind, text: string): Room {
    r.(rows := r.rows + [Row(MaxSeq(r.rows) + 1, sender, kind, text, false)], messageCount := r.messageCount + 1)
  }

  // A pending duration becomes a deadline at the event that opens the room.
  function DeadlineResolved(r: Room, now: int): Room {
    if r.pendingDuration == None then r
    else r.(expiresAt := Some(now + r.pendingDuration.value), pendingDuration := None)
  }

  function OpenedBy(r: Room, sender: string, now: int): Room {
    if sender == OWNER && r.openedAt == None then DeadlineResolved(r.(openedAt := Some(now)), now) else r
  }

  // None when the seat belongs to another machine; otherwise the seats afterwards.
  function BoundSeats(members: seq<Member>, sender: string, principal: Principal): Option<seq<Member>> {
    if principal == OwnerToken || members == [] then Some(members)
    else if members[0].name == sender then
      if members[0].bound == None then Some([Member(sender, Some(principal.id))] + members[1..])
      else if members[0].bound == Some(principal.id) then Some(members) else None
    else
      match BoundSeats(members[1..], sender, principal)
      case None => None
      case Some(rest) => Some([members[0]] + rest)
  }

  // The gate on an agent's agreed close of a debate or critique room.
  predicate MayCloseAsAgreed(r: Room, sender: string, kind: Kind) {
    sender == OWNER || kind != Done || !Gated(r.mode) ||
    (r.consensusFloor <= r.messageCount
     && forall i :: 0 <= i < |r.members| ==> HasObjected(r.rows, r.members[i].name))
  }

  function ClosedWith(r: Room, reason: Reason, now: int): Room {
    r.(status := Closed, closedAt := Some(now), closeReason := Some(reason))
  }

  function PostBody(r: Room, sender: string, text: string, kind: Kind, principal: Principal, now: int): Outcome {
    if r.status != Open then Refused(RoomClosed)
    else if !MayCloseAsAgreed(r, sender, kind) then Refused(CloseAsAgreedNotPermitted)
    else
      var seats := BoundSeats(r.members, sender, principal);
      if seats == None then Refused(SeatBoundToOtherMachine)
      else Committed(Inserted(r.(members := seats.value), sender, text, kind, now))
  }

  // The insert, and in the same commit the close it may trigger.
  function Inserted(r: Room, sender: string, text: string, kind: Kind, now: int): Room {
    var posted := Appended(OpenedBy(r, sender, now), sender, kind, text);
    if kind == Done then ClosedWith(posted, DoneReason, now)
    else if posted.maxMessages <= posted.messageCount then ClosedWith(posted, CapReason, now)
    else posted
  }

  function DeleteBody(r: Room, num: nat): Outcome {
    if !exists i :: 0 <= i < |r.rows| && r.rows[i].num == num then Refused(MessageNotFound)
    else
      var i := IndexOf(r.rows, num);
      if r.rows[i].deleted then Unchanged
      else Committed(r.(rows := r.rows[i := r.rows[i].(text := DELETED_MESSAGE_MARKER, deleted := true)],
                        messageCount := if r.messageCount - 1 < 0 then 0 else r.messageCount - 1))
  }

  function IndexOf(rows: seq<Row>, num: nat): (i: nat)
    requires exists i :: 0 <= i < |rows| && rows[i].num == num
    ensures i < |rows| && rows[i].num == num
  {
    if rows[0].num == num then 0
    else
      assert exists i :: 0 <= i < |rows[1..]| && rows[1..][i].num == num by {
        var i :| 0 <= i < |rows| && rows[i].num == num;
        assert rows[1..][i - 1].num == num;
      }
      1 + IndexOf(rows[1..], num)
  }

  function CloseBody(r: Room, reason: Option<Reason>, now: int): Outcome {
    if r.status == Closed then Unchanged
    else Committed(ClosedWith(r, if reason == None then OwnerReason else reason.value, now))
  }

  function NudgeBody(r: Room, note: string, now: int): Outcome {
    if r.status != Open || r.closingWarnedAt.Some? then Unchanged
    else Committed(Appended(r, SYSTEM, System, note).(closingWarnedAt := Some(now)))
  }

  function SwitchModeBody(r: Room, mode: Mode, note: string): Outcome {
    if r.status != Open then Refused(RoomClosed)
    else if Gated(mode) && r.maxMessages <= r.consensusFloor then Refused(ConsensusFloorUnreachable)
    else Committed(Appended(r.(mode := mode), SYSTEM, System, note))
  }

  function SetOwnerOpenBody(r: Room, required: bool, note: string, now: int): Outcome {
    if r.status != Open then Refused(RoomClosed)
    else
      var opening := !required && r.openedAt == None && r.requiresOwnerOpen;
      var resolved := if opening then DeadlineResolved(r, now) else r;
      Committed(Appended(resolved.(requiresOwnerOpen := required), SYSTEM, System, note))
  }

  function WithSeat(members: seq<Member>, name: string, machine: Option<nat>): seq<Member> {
    if members == [] then []
    else if members[0].name == name then [Member(name, machine)] + members[1..]
    else [members[0]] + WithSeat(members[1..], name, machine)
  }

  function Body(r: Room, req: Request, now: int): Outcome {
    match req
    case Post(sender, text, kind, principal) => PostBody(r, sender, text, kind, principal, now)
    case DeleteMessage(num) => DeleteBody(r, num)
    case Close(reason) => CloseBody(r, reason, now)
    case SweepClose => CloseBody(r, Some(TimeReason), now)
    case Nudge(note) => NudgeBody(r, note, now)
    case SwitchMode(mode, note) => SwitchModeBody(r, mode, note)
    case SetAgentUploads(allowed, note) =>
      if r.status != Open then Refused(RoomClosed)
      else Committed(Appended(r.(agentUploadsAllowed := allowed), SYSTEM, System, note))
    case SetOwnerOpen(required, note) => SetOwnerOpenBody(r, required, note, now)
    case SetSeat(name, machine, standing, note) =>
      if r.status != Open then Refused(RoomClosed)
      else if !IsMember(r, name) then Refused(MemberNotFound)
      else if SeatRefusal(machine, standing).Some? then Refused(SeatRefusal(machine, standing).value)
      else Committed(Appended(r.(members := WithSeat(r.members, name, machine)), SYSTEM, System, note))
    case AttachmentNote(note) => Committed(Appended(r, SYSTEM, System, note))
    case BindSeat(sender, principal) =>
      if r.status != Open then Refused(RoomClosed)
      else
        match BoundSeats(r.members, sender, principal)
        case None => Refused(SeatBoundToOtherMachine)
        case Some(seats) => Committed(r.(members := seats))
  }

  // The unlocked checks before the lock is requested.
  function PreCheck(r: Room, req: Request, now: int): Option<Error> {
    match req
    case Post(sender, _, kind, principal) =>
      if kind == System then Some(InvalidMessageKind)
      else if r.status != Open then Some(RoomClosed)
      else if sender == OWNER && principal != OwnerToken then Some(OwnerSenderRequiresOwnerToken)
      else if sender != OWNER && r.requiresOwnerOpen && r.openedAt == None then Some(RoomNotOpened)
      else if sender != OWNER && !IsMember(r, sender) then Some(SenderNotMember)
      else None
    // the sweeper's scan: open rooms whose deadline has passed
    case SweepClose => if r.status == Open && r.expiresAt.Some? && r.expiresAt.value <= now then None else Some(RoomClosed)
    case _ => None
  }

  // ---------- Creation ----------

  datatype Creation = Created(room: Room) | Rejected(error: Error)

  // A relative duration is stashed until the room opens; an explicit deadline is not.
  function CreateRoom(names: seq<string>, maxMessages: Option<int>, mode: Mode, duration: Option<int>,
                      expiresAt: Option<int>, consensusFloor: Option<int>, seats: map<string, nat>, now: int): Creation
  {
    var cap := if maxMessages == None then DEFAULT_MAX_MESSAGES else maxMessages.value;
    var floor := if consensusFloor == None then DEFAULT_CONSENSUS_FLOOR else consensusFloor.value;
    if |names| != 2 || names[0] == "" || names[1] == "" then Rejected(InvalidMembers)
    else if names[0] == names[1] then Rejected(DuplicateMembers)
    else if !(1 <= cap <= MAX_MESSAGES_MAX) then Rejected(InvalidMaxMessages)
    else if !(1 <= floor <= MAX_MESSAGES_MAX) then Rejected(InvalidConsensusFloor)
    else if Gated(mode) && cap <= floor then Rejected(ConsensusFloorUnreachable)
    else if duration.Some? && expiresAt.Some? then Rejected(InvalidDeadline)
    else if duration.Some? && !(1 <= duration.value <= MAX_DURATION_SECONDS) then Rejected(InvalidDeadline)
    else if expiresAt.Some? && !(now < expiresAt.value <= now + MAX_DURATION_SECONDS) then Rejected(InvalidDeadline)
    else
      var seat := (n: string) => Member(n, if n in seats then Some(seats[n]) else None);
      Created(Room(
        Open, None, None, cap, 0, [], [seat(names[0]), seat(names[1])], mode, floor, true, None,
        if duration == None then None else Some(duration.value as nat), expiresAt, None, true))
  }
}
