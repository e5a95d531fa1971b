// What each request does to each column of the room, told by the requests alone; and
// what every version of a run therefore shows.
module RoomSettings {
  import opened Common
  import opened Rooms
  import opened RoomInvariants
  import opened RoomRuns

  // ---------- One locked body ----------

  // The settings an open room ends with.
  lemma BodySettings(r: Room, req: Request, now: int)
    requires Body(r, req, now).Committed?
    ensures var t := Body(r, req, now).room;
            && t.mode == (if req.SwitchMode? then req.mode else r.mode)
            && t.agentUploadsAllowed == (if req.SetAgentUploads? then req.allowed else r.agentUploadsAllowed)
            && t.requiresOwnerOpen == (if req.SetOwnerOpen? then req.required else r.requiresOwnerOpen)
            && t.closingWarnedAt == (if req.Nudge? then Some(now) else r.closingWarnedAt)
            && t.maxMessages == r.maxMessages && t.consensusFloor == r.consensusFloor
  {
    if req.Post? { PostWrites(r, req.sender, req.text, req.kind, req.principal, now); }
  }

  function ReasonFor(req: Request): Reason {
    match req
    case Close(Some(reason)) => reason
    case Close(None) => OwnerReason
    case Post(_, _, Done, _) => DoneReason
    case Post(_, _, _, _) => CapReason
    case _ => TimeReason
  }

  // Who closes a room, when and why.
  lemma BodyStatus(r: Room, req: Request, now: int)
    requires CloseInv(r) && Body(r, req, now).Committed?
    ensures var t := Body(r, req, now).room;
            && (t.status == Closed <==>
                  (r.status == Closed || req.Close? || req.SweepClose?
                   || (req.Post? && (req.kind == Done || r.maxMessages <= r.messageCount + 1))))
            && (r.status == Open && t.status == Closed ==> t.closedAt == Some(now) && t.closeReason == Some(ReasonFor(req)))
  {
    if req.Post? { PostCloses(r, req, now); }
  }

  lemma PostCloses(r: Room, req: Request, now: int)
    requires CloseInv(r) && req.Post? && Body(r, req, now).Committed?
    ensures var t := Body(r, req, now).room;
            && (t.status == Closed <==> req.kind == Done || r.maxMessages <= r.messageCount + 1)
            && (t.status == Closed ==> t.closedAt == Some(now) && t.closeReason == Some(ReasonFor(req)))
  {
    PostWrites(r, req.sender, req.text, req.kind, req.principal, now);
    OpenedByWrites(r.(members := BoundSeats(r.members, req.sender, req.principal).value), req.sender, now);
  }

  // The owner's first message opens the room; nothing else does.
  lemma BodyOpens(r: Room, req: Request, now: int)
    requires Body(r, req, now).Committed?
    ensures Body(r, req, now).room.openedAt
         == if req.Post? && req.sender == OWNER && r.openedAt == None then Some(now) else r.openedAt
  {
    if req.Post? { PostOpens(r, req.sender, req.text, req.kind, req.principal, now); }
  }

  // ---------- When a request is refused ----------

  predicate SeatFree(members: seq<Member>, sender: string, principal: Principal) {
    principal == OwnerToken || SeatOf(members, sender) == None || SeatOf(members, sender) == Some(principal.id)
  }

  lemma {:induction false} SeatFreeIff(members: seq<Member>, sender: string, principal: Principal)
    ensures BoundSeats(members, sender, principal).Some? <==> SeatFree(members, sender, principal)
  {
    if members != [] && members[0].name != sender && principal != OwnerToken {
      SeatFreeIff(members[1..], sender, principal);
    }
  }

  // An agent's `done` in a debate or critique room needs the floor and every objection.
  predicate DoneAllowed(r: Room, sender: string, kind: Kind) {
    sender == OWNER || kind != Done || (r.mode != Debate && r.mode != Critique)
    || (r.consensusFloor <= r.messageCount
        && forall m :: 0 <= m < |r.members| ==> OnRecord(r.rows, r.members[m].name))
  }

  predicate OnRecord(rows: seq<Row>, name: string) {
    exists i :: 0 <= i < |rows| && rows[i].kind == Objection && rows[i].sender == name
  }

  predicate Stored(r: Room, num: nat) {
    exists i :: 0 <= i < |r.rows| && r.rows[i].num == num
  }

  // What each request needs to go through under the lock, and how it fails otherwise.
  predicate Commits(r: Room, req: Request) {
    match req
    case Post(sender, _, kind, principal) =>
      r.status == Open && DoneAllowed(r, sender, kind) && SeatFree(r.members, sender, principal)
    case DeleteMessage(num) => Stored(r, num) && !r.rows[IndexOf(r.rows, num)].deleted
    case Close(_) => r.status == Open
    case SweepClose => r.status == Open
    case Nudge(_) => r.status == Open && r.closingWarnedAt == None
    case SwitchMode(mode, _) =>
      r.status == Open && ((mode == Debate || mode == Critique) ==> r.consensusFloor < r.maxMessages)
    case SetAgentUploads(_, _) => r.status == Open
    case SetOwnerOpen(_, _) => r.status == Open
    case SetSeat(name, machine, standing, _) =>
      r.status == Open && IsMember(r, name) && (machine == None || standing == ActiveMachine)
    case AttachmentNote(_) => true
    case BindSeat(sender, principal) => r.status == Open && SeatFree(r.members, sender, principal)
  }

  lemma CommitsIff(r: Room, req: Request, now: int)
    ensures Body(r, req, now).Committed? <==> Commits(r, req)
  {
    if req.Post? || req.BindSeat? { SeatFreeIff(r.members, req.sender, req.principal); }
    if req.Post? { GateIff(r, req.sender, req.kind); }
  }

  lemma GateIff(r: Room, sender: string, kind: Kind)
    ensures MayCloseAsAgreed(r, sender, kind) <==> DoneAllowed(r, sender, kind)
  {
    assert forall m :: 0 <= m < |r.members| ==>
             (HasObjected(r.rows, r.members[m].name) <==> OnRecord(r.rows, r.members[m].name));
  }

  // A request that goes through nowhere is refused, except where repeating is harmless:
  // an owner's or sweeper's close, a nudge, and the deletion of a deleted message.
  lemma UnchangedIff(r: Room, req: Request, now: int)
    ensures Body(r, req, now).Unchanged? <==>
            (!Commits(r, req) && (req.Close? || req.SweepClose? || req.Nudge? || (req.DeleteMessage? && Stored(r, req.num))))
    ensures Body(r, req, now).Refused? ==>
              Body(r, req, now).error ==
                if req.DeleteMessage? then MessageNotFound
                else if r.status != Open then RoomClosed
                else if req.SwitchMode? then ConsensusFloorUnreachable
                else if req.SetSeat? then
                  (if !IsMember(r, req.name) then MemberNotFound
                   else if req.standing == NoSuchMachine then UnknownSeatMachine else SeatMachineNotActive)
                else if req.Post? && !DoneAllowed(r, req.sender, req.kind) then CloseAsAgreedNotPermitted
                else SeatBoundToOtherMachine
  {
    CommitsIff(r, req, now);
    if req.Post? { GateIff(r, req.sender, req.kind); }
  }

  // A request to delete a stored message leaves it deleted, marked and in its place.
  lemma DeletedAfterwards(r: Room, num: nat, now: int)
    requires RoomInv(r) && 1 <= num <= |r.rows|
    ensures var o := Body(r, DeleteMessage(num), now);
            var t := if o.Committed? then o.room else r;
            && |t.rows| == |r.rows| && t.rows[num - 1].deleted && t.rows[num - 1].num == num
            && (o.Committed? ==> t.rows[num - 1].text == DELETED_MESSAGE_MARKER)
            && forall i :: 0 <= i < |r.rows| && i != num - 1 ==> t.rows[i] == r.rows[i]
  {
    assert r.rows[num - 1].num == num;
    assert r.rows[IndexOf(r.rows, num)].num == num;
  }

  // ---------- Before the lock ----------

  lemma PreCheckIff(r: Room, req: Request, now: int)
    ensures PreCheck(r, req, now) == None <==>
            && (req.Post? ==>
                  && req.kind != System && r.status == Open && (req.sender == OWNER ==> req.principal == OwnerToken)
                  && (req.sender != OWNER ==> (!r.requiresOwnerOpen || r.openedAt.Some?) && IsMember(r, req.sender)))
            && (req.SweepClose? ==> r.status == Open && r.expiresAt.Some? && r.expiresAt.value <= now)
  {
  }

  // Which error the unlocked checks give, in order.
  lemma PreCheckError(r: Room, req: Request, now: int)
    requires PreCheck(r, req, now).Some? && req.Post?
    ensures PreCheck(r, req, now).value ==
            if req.kind == System then InvalidMessageKind
            else if r.status == Closed then RoomClosed
            else if req.sender == OWNER then OwnerSenderRequiresOwnerToken
            else if r.requiresOwnerOpen && r.openedAt == None then RoomNotOpened else SenderNotMember
  {
  }

  // ---------- Every version of every run ----------

  // What the last committed switch before version `k` asked for, or the setting at creation.
  function AskedMode(log: seq<Commit>, k: nat, created: Mode): Mode
    requires k <= |log|
  {
    if k == 0 then created
    else if log[k - 1].req.SwitchMode? then log[k - 1].req.mode else AskedMode(log, k - 1, created)
  }

  function AskedUploads(log: seq<Commit>, k: nat, created: bool): bool
    requires k <= |log|
  {
    if k == 0 then created
    else if log[k - 1].req.SetAgentUploads? then log[k - 1].req.allowed else AskedUploads(log, k - 1, created)
  }

  function AskedOwnerOpen(log: seq<Commit>, k: nat, created: bool): bool
    requires k <= |log|
  {
    if k == 0 then created
    else if log[k - 1].req.SetOwnerOpen? then log[k - 1].req.required else AskedOwnerOpen(log, k - 1, created)
  }

  lemma VersionStep(w: World, k: nat)
    requires WorldInv(w) && k < |w.log|
    ensures var a, b, req := w.history[k], w.history[k + 1], w.log[k].req;
            && b.mode == (if req.SwitchMode? then req.mode else a.mode)
            && b.agentUploadsAllowed == (if req.SetAgentUploads? then req.allowed else a.agentUploadsAllowed)
            && b.requiresOwnerOpen == (if req.SetOwnerOpen? then req.required else a.requiresOwnerOpen)
            && b.openedAt == (if req.Post? && req.sender == OWNER && a.openedAt == None then Some(w.log[k].at) else a.openedAt)
  {
    assert Serial(w, k);
    BodySettings(w.history[k], w.log[k].req, w.log[k].at);
    BodyOpens(w.history[k], w.log[k].req, w.log[k].at);
  }

  lemma {:induction false} VersionAsAsked(w: World, k: nat)
    requires WorldInv(w) && k <= |w.log|
    ensures w.history[k].mode == AskedMode(w.log, k, w.history[0].mode)
    ensures w.history[k].agentUploadsAllowed == AskedUploads(w.log, k, w.history[0].agentUploadsAllowed)
    ensures w.history[k].requiresOwnerOpen == AskedOwnerOpen(w.log, k, w.history[0].requiresOwnerOpen)
  {
    if k > 0 {
      VersionAsAsked(w, k - 1);
      VersionStep(w, k - 1);
    }
  }

  // In every run the mode and both switches of any version are the ones asked last.
  lemma SettingsAsAsked(w: World, steps: seq<Step>, k: nat)
    requires Init(w) && Runs(w, steps) && k < |After(w, steps).history|
    ensures var t := After(w, steps);
            && k <= |t.log|
            && t.history[k].mode == AskedMode(t.log, k, t.history[0].mode)
            && t.history[k].agentUploadsAllowed == AskedUploads(t.log, k, t.history[0].agentUploadsAllowed)
            && t.history[k].requiresOwnerOpen == AskedOwnerOpen(t.log, k, t.history[0].requiresOwnerOpen)
  {
    RunsKeepInv(w, steps);
    VersionAsAsked(After(w, steps), k);
  }

  // The commit that closes the room decides the time and the reason, and is a close of
  // the owner, a sweep, a `done`, or the message that reaches the cap.
  lemma ClosedByRequest(w: World, steps: seq<Step>, k: nat)
    requires Init(w) && Runs(w, steps) && k < |After(w, steps).log|
    ensures var t := After(w, steps);
            k + 1 < |t.history| &&
            (t.history[k].status == Open && t.history[k + 1].status == Closed ==>
               var req := t.log[k].req;
               && t.history[k + 1].closedAt == Some(t.log[k].at) && t.history[k + 1].closeReason == Some(ReasonFor(req))
               && (req.Close? || req.SweepClose?
                   || (req.Post? && (req.kind == Done || t.history[k].maxMessages <= t.history[k].messageCount + 1))))
  {
    RunsKeepInv(w, steps);
    var t := After(w, steps);
    if t.history[k].status == Open && t.history[k + 1].status == Closed { ClosingStep(t, k); }
  }

  lemma ClosingStep(t: World, k: nat)
    requires WorldInv(t) && k < |t.log| && t.history[k].status == Open && t.history[k + 1].status == Closed
    ensures var req := t.log[k].req;
            && t.history[k + 1].closedAt == Some(t.log[k].at) && t.history[k + 1].closeReason == Some(ReasonFor(req))
            && (req.Close? || req.SweepClose?
                || (req.Post? && (req.kind == Done || t.history[k].maxMessages <= t.history[k].messageCount + 1)))
  {
    assert Serial(t, k) && RoomInv(t.history[k]);
    BodyStatus(t.history[k], t.log[k].req, t.log[k].at);
  }

  // ---------- A request with nobody beside it ----------

  // Asked, checked, locked, carried out and landed, one after another: the body's room
  // becomes the next version, or nothing changes.
  lemma SoloRequest(w: World, req: Request) returns (steps: seq<Step>)
    requires WorldInv(w) && LockFree(w) && !w.gone
    ensures Runs(w, steps)
    ensures var t, r := After(w, steps), Current(w);
            var goes := PreCheck(r, req, w.now) == None && Commits(r, req);
            && t.actors == w.actors + [Over] && t.now == w.now
            && (goes ==> Body(r, req, w.now).Committed? && t.history == w.history + [Body(r, req, w.now).room]
                         && |t.log| == |w.log| + 1 && t.log[|w.log|].req == req && t.log[|w.log|].at == w.now)
            && (!goes ==> t.history == w.history && t.log == w.log)
  {
    var i, r := |w.actors|, Current(w);
    var g := Glance(|w.history| - 1, w.now);
    steps := OneMore(w, [], w, Ask(req));
    var w1 := w.(actors := w.actors + [Asked(req)]);
    steps := OneMore(w, steps, w1, Check(i));
    if PreCheck(r, req, w.now).Some? {
      assert w1.actors[i := Over] == w.actors + [Over];
      return;
    }
    var w2 := w.(actors := w.actors + [Cleared(req, g)]);
    assert w1.actors[i := Cleared(req, g)] == w2.actors;
    steps := LockedHalf(w, steps, req, g);
  }

  lemma LockedHalf(w: World, before: seq<Step>, req: Request, g: Glance) returns (steps: seq<Step>)
    requires WorldInv(w) && LockFree(w) && !w.gone && PreCheck(Current(w), req, w.now) == None
    requires Runs(w, before) && After(w, before) == w.(actors := w.actors + [Cleared(req, g)])
    ensures Runs(w, steps)
    ensures var t, r := After(w, steps), Current(w);
            && t.actors == w.actors + [Over] && t.now == w.now
            && (Commits(r, req) ==>
                  && Body(r, req, w.now).Committed? && t.history == w.history + [Body(r, req, w.now).room]
                  && |t.log| == |w.log| + 1 && t.log[|w.log|].req == req && t.log[|w.log|].at == w.now)
            && (!Commits(r, req) ==> t.history == w.history && t.log == w.log)
  {
    var i, r := |w.actors|, Current(w);
    CommitsIff(r, req, w.now);
    var w2 := w.(actors := w.actors + [Cleared(req, g)]);
    steps := OneMore(w, before, w2, Acquire(i));
    var w3 := w.(actors := w.actors + [Holding(req, g, r)]);
    assert w2.actors[i := Holding(req, g, r)] == w3.actors;
    steps := OneMore(w, steps, w3, RunBody(i));
    var o := Body(r, req, w.now);
    if !o.Committed? {
      assert w3.actors[i := Over] == w.actors + [Over];
      return;
    }
    var w4 := w.(actors := w.actors + [Drafted(req, g, r, w.now, o.room)]);
    assert w3.actors[i := Drafted(req, g, r, w.now, o.room)] == w4.actors;
    DraftFitsBase(r, req, w.now);
    steps := OneMore(w, steps, w4, Land(i));
    assert w4.actors[i := Over] == w.actors + [Over];
  }

  lemma OneMore(w: World, steps: seq<Step>, t: World, step: Step) returns (more: seq<Step>)
    requires w.history != [] && Runs(w, steps) && After(w, steps) == t && t.history != [] && Enabled(t, step)
    requires Next(t, step).history != []
    ensures more == steps + [step] && Runs(w, more) && After(w, more) == Next(t, step)
  {
    more := steps + [step];
    RunsSnoc(w, steps, step);
  }

  lemma {:induction false} RunsSnoc(w: World, steps: seq<Step>, step: Step)
    requires w.history != [] && Runs(w, steps) && After(w, steps).history != []
    requires Enabled(After(w, steps), step) && Next(After(w, steps), step).history != []
    ensures Runs(w, steps + [step]) && After(w, steps + [step]) == Next(After(w, steps), step)
    decreases |steps|
  {
    if steps == [] {
      assert [step][1..] == [] && steps + [step] == [step];
    } else {
      assert (steps + [step])[1..] == steps[1..] + [step];
      RunsSnoc(Next(w, steps[0]), steps[1..], step);
    }
  }

  // ---------- Creation and seats ----------

  // An accepted creation is the room asked for, with the defaults filled in.
  lemma CreatedAsAsked(names: seq<string>, cap: Option<int>, mode: Mode, duration: Option<int>, expiresAt: Option<int>,
                       floor: Option<int>, seats: map<string, nat>, now: int)
    requires CreateRoom(names, cap, mode, duration, expiresAt, floor, seats, now).Created?
    ensures var r := CreateRoom(names, cap, mode, duration, expiresAt, floor, seats, now).room;
            && r.status == Open && r.mode == mode && r.agentUploadsAllowed && r.closingWarnedAt == None
            && r.maxMessages == (if cap == None then 100 else cap.value)
            && r.consensusFloor == (if floor == None then 20 else floor.value)
            && (duration == None <==> r.pendingDuration == None)
            && (duration.Some? ==> r.pendingDuration.value == duration.value) && r.expiresAt == expiresAt
            && (forall m :: 0 <= m < 2 ==>
                  r.members[m].name == names[m]
                  && r.members[m].bound == if names[m] in seats then Some(seats[names[m]]) else None)
  {
  }

  // What creation demands: two different names, cap and floor in range, the floor below
  // the cap in a debate or critique, and at most one deadline, within thirty days.
  lemma CreatedIff(names: seq<string>, cap: Option<int>, mode: Mode, duration: Option<int>, expiresAt: Option<int>,
                   floor: Option<int>, seats: map<string, nat>, now: int)
    ensures var c, f := if cap == None then 100 else cap.value, if floor == None then 20 else floor.value;
            CreateRoom(names, cap, mode, duration, expiresAt, floor, seats, now).Created? <==>
              (&& |names| == 2 && names[0] != "" && names[1] != "" && names[0] != names[1]
               && 1 <= c <= 10000 && 1 <= f <= 10000 && (mode == Debate || mode == Critique ==> f < c)
               && (duration == None || expiresAt == None)
               && (duration.Some? ==> 1 <= duration.value <= 2592000)
               && (expiresAt.Some? ==> now < expiresAt.value <= now + 2592000))
  {
  }

  // Which error a refused creation gives: the first demand not met.
  lemma RejectedCreation(names: seq<string>, cap: Option<int>, mode: Mode, duration: Option<int>, expiresAt: Option<int>,
                         floor: Option<int>, seats: map<string, nat>, now: int)
    requires CreateRoom(names, cap, mode, duration, expiresAt, floor, seats, now).Rejected?
    ensures var c, f := if cap == None then 100 else cap.value, if floor == None then 20 else floor.value;
            CreateRoom(names, cap, mode, duration, expiresAt, floor, seats, now).error ==
              if |names| != 2 || names[0] == "" || names[1] == "" then InvalidMembers
              else if names[0] == names[1] then DuplicateMembers
              else if c < 1 || 10000 < c then InvalidMaxMessages
              else if f < 1 || 10000 < f then InvalidConsensusFloor
              else if (mode == Debate || mode == Critique) && c <= f then ConsensusFloorUnreachable else InvalidDeadline
  {
  }

  // The owner's assignment is what the seat then holds.
  lemma {:induction false} SeatAssigned(members: seq<Member>, name: string, machine: Option<nat>)
    requires exists i :: 0 <= i < |members| && members[i].name == name
    ensures SeatOf(WithSeat(members, name, machine), name) == machine
  {
    if members[0].name == name {
      assert ([Member(name, machine)] + members[1..])[0] == Member(name, machine);
    } else {
      var i :| 0 <= i < |members| && members[i].name == name;
      assert members[1..][i - 1].name == name;
      SeatAssigned(members[1..], name, machine);
      assert ([members[0]] + WithSeat(members[1..], name, machine))[1..] == WithSeat(members[1..], name, machine);
    }
  }

  lemma SeatAsAssigned(w: World, steps: seq<Step>, k: nat)
    requires Init(w) && Runs(w, steps) && k < |After(w, steps).log| && After(w, steps).log[k].req.SetSeat?
    ensures var t := After(w, steps);
            k + 1 < |t.history| && SeatOf(t.history[k + 1].members, t.log[k].req.name) == t.log[k].req.machine
    ensures After(w, steps).log[k].req.machine.Some? ==> After(w, steps).log[k].req.standing == ActiveMachine
  {
    RunsKeepInv(w, steps);
    ReseatStep(After(w, steps), k);
  }

  lemma ReseatStep(t: World, k: nat)
    requires WorldInv(t) && k < |t.log| && t.log[k].req.SetSeat?
    ensures SeatOf(t.history[k + 1].members, t.log[k].req.name) == t.log[k].req.machine
    ensures t.log[k].req.machine.Some? ==> t.log[k].req.standing == ActiveMachine
  {
    var r, req := t.history[k], t.log[k].req;
    assert Serial(t, k);
    CommitsIff(r, req, t.log[k].at);
    BodySeats(r, req, t.log[k].at);
    SeatAssigned(r.members, req.name, req.machine);
  }
}
