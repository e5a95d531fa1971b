// What every mutator keeps: message numbering, the counter, the cap, the close
// fields, the deferred deadline, the opening mark and the agreed-close record.
module RoomInvariants {
  import opened Common
  import opened Rooms

  predicate NumberedFromOne(rows: seq<Row>) {
    forall i :: 0 <= i < |rows| ==> rows[i].num == i + 1
  }

  predicate CapInv(r: Room) {
    && 1 <= r.maxMessages
    && Live(r.rows, true) <= r.maxMessages
    && (r.status == Open ==> Live(r.rows, true) < r.maxMessages)
  }

  predicate CloseInv(r: Room) {
    && (r.status == Open ==> r.closedAt == None && r.closeReason == None)
    && (r.status == Closed ==> r.closedAt.Some? && r.closeReason.Some?)
  }

  predicate DeadlineInv(r: Room) {
    r.pendingDuration.Some? ==> r.openedAt == None && r.requiresOwnerOpen && r.expiresAt == None
  }

  predicate OwnerPosted(rows: seq<Row>) {
    exists i :: 0 <= i < |rows| && rows[i].sender == OWNER && rows[i].kind != System
  }

  // Every member is on record before row `k`, and the floor was reached.
  predicate AgreedAt(r: Room, k: nat)
    requires k < |r.rows|
  {
    && r.consensusFloor < r.rows[k].num
    && forall i :: 0 <= i < |r.members| ==> HasObjected(r.rows[..k], r.members[i].name)
  }

  predicate DoneInv(r: Room) {
    forall k :: 0 <= k < |r.rows| && r.rows[k].kind == Done ==>
      r.status == Closed && (r.rows[k].sender != OWNER && Gated(r.mode) ==> AgreedAt(r, k))
  }

  predicate RoomInv(r: Room) {
    && NumberedFromOne(r.rows)
    && r.messageCount == Live(r.rows, false)
    && CapInv(r)
    && CloseInv(r)
    && DeadlineInv(r)
    && (r.openedAt.Some? <==> OwnerPosted(r.rows))
    && (Gated(r.mode) ==> r.consensusFloor < r.maxMessages)
    && DoneInv(r)
  }

  // ---------- Facts about the message table ----------

  lemma {:induction false} MaxSeqIsLength(rows: seq<Row>)
    requires NumberedFromOne(rows)
    ensures MaxSeq(rows) == |rows|
  {
    if rows != [] {
      MaxSeqIsLength(rows[..|rows| - 1]);
    }
  }

  lemma LiveSnoc(rows: seq<Row>, row: Row, users: bool)
    ensures Live(rows + [row], users) ==
            Live(rows, users) + (if row.deleted || (users && row.kind == System) then 0 else 1)
  {
    assert (rows + [row])[..|rows|] == rows;
  }

  lemma {:induction false} LiveTombstone(rows: seq<Row>, i: nat, row: Row, users: bool)
    requires i < |rows| && !rows[i].deleted && row.deleted && row.kind == rows[i].kind
    ensures Live(rows[i := row], users) ==
            Live(rows, users) - (if users && row.kind == System then 0 else 1)
  {
    var n := |rows| - 1;
    if i == n {
      assert rows[i := row][..n] == rows[..n];
    } else {
      assert rows[i := row][..n] == rows[..n][i := row];
      LiveTombstone(rows[..n], i, row, users);
    }
  }

  lemma {:induction false} UsersAreLive(rows: seq<Row>)
    ensures Live(rows, true) <= Live(rows, false)
  {
    if rows != [] {
      UsersAreLive(rows[..|rows| - 1]);
    }
  }

  // The next insert can never collide with a stored sequence number.
  lemma NextSeqIsFresh(r: Room)
    requires NumberedFromOne(r.rows)
    ensures forall i :: 0 <= i < |r.rows| ==> r.rows[i].num != MaxSeq(r.rows) + 1
    ensures NumberedFromOne(r.rows + [Row(MaxSeq(r.rows) + 1, SYSTEM, System, "", false)])
  {
    MaxSeqIsLength(r.rows);
  }

  // ---------- Seats keep their names ----------

  predicate SameNames(a: seq<Member>, b: seq<Member>) {
    |a| == |b| && forall i :: 0 <= i < |a| ==> a[i].name == b[i].name
  }

  lemma {:induction false} BoundSeatsNames(members: seq<Member>, sender: string, p: Principal)
    ensures BoundSeats(members, sender, p).Some? ==> SameNames(members, BoundSeats(members, sender, p).value)
  {
    if p != OwnerToken && members != [] && members[0].name != sender {
      BoundSeatsNames(members[1..], sender, p);
    }
  }

  lemma {:induction false} WithSeatNames(members: seq<Member>, name: string, machine: Option<nat>)
    ensures SameNames(members, WithSeat(members, name, machine))
  {
    if members != [] && members[0].name != name {
      WithSeatNames(members[1..], name, machine);
    }
  }

  // ---------- Appending a row ----------

  // Adding a message that is not a `done` leaves earlier closes as they were.
  lemma AppendKeepsDone(r: Room, t: Room)
    requires DoneInv(r) && |r.rows| < |t.rows| && t.rows[..|r.rows|] == r.rows && |t.rows| == |r.rows| + 1
    requires t.rows[|r.rows|].kind != Done && t.status == r.status
    requires t.mode == r.mode || r.status == Open
    requires t.consensusFloor == r.consensusFloor && SameNames(r.members, t.members)
    ensures DoneInv(t)
  {
    forall k | 0 <= k < |t.rows| && t.rows[k].kind == Done
      ensures t.status == Closed && (t.rows[k].sender != OWNER && Gated(t.mode) ==> AgreedAt(t, k))
    {
      assert t.rows[k] == r.rows[k];
      assert t.rows[..k] == r.rows[..k];
      if t.rows[k].sender != OWNER && Gated(t.mode) {
        assert AgreedAt(r, k);
        forall i | 0 <= i < |t.members| ensures HasObjected(t.rows[..k], t.members[i].name) {
          assert r.members[i].name == t.members[i].name;
        }
      }
    }
  }

  lemma SystemRowKeepsInv(r: Room, note: string)
    requires RoomInv(r)
    ensures RoomInv(Appended(r, SYSTEM, System, note))
  {
    var t := Appended(r, SYSTEM, System, note);
    MaxSeqIsLength(r.rows);
    LiveSnoc(r.rows, t.rows[|r.rows|], false);
    LiveSnoc(r.rows, t.rows[|r.rows|], true);
    AppendKeepsDone(r, t);
    OwnerPostedSnoc(r.rows, t.rows[|r.rows|]);
  }

  lemma OwnerPostedSnoc(rows: seq<Row>, row: Row)
    ensures OwnerPosted(rows + [row]) <==> OwnerPosted(rows) || (row.sender == OWNER && row.kind != System)
  {
    if OwnerPosted(rows) {
      var i :| 0 <= i < |rows| && rows[i].sender == OWNER && rows[i].kind != System;
      assert (rows + [row])[i] == rows[i];
    }
    assert (rows + [row])[|rows|] == row;
  }

  // Changes that touch no message, counter or close field.
  lemma FieldsKeepInv(r: Room, t: Room)
    requires RoomInv(r) && SameNames(r.members, t.members)
    requires t == r.(members := t.members, agentUploadsAllowed := t.agentUploadsAllowed,
                     closingWarnedAt := t.closingWarnedAt, mode := t.mode,
                     requiresOwnerOpen := t.requiresOwnerOpen, pendingDuration := t.pendingDuration,
                     expiresAt := t.expiresAt)
    requires t.mode == r.mode || (r.status == Open && (Gated(t.mode) ==> r.consensusFloor < r.maxMessages))
    requires DeadlineInv(t)
    ensures RoomInv(t)
  {
    forall k | 0 <= k < |t.rows| && t.rows[k].kind == Done
      ensures t.status == Closed && (t.rows[k].sender != OWNER && Gated(t.mode) ==> AgreedAt(t, k))
    {
      if t.rows[k].sender != OWNER && Gated(t.mode) {
        assert AgreedAt(r, k);
        forall i | 0 <= i < |t.members| ensures HasObjected(t.rows[..k], t.members[i].name) {
          assert r.members[i].name == t.members[i].name;
        }
      }
    }
  }

  // ---------- The posting step ----------

  // A new `done` that passed the gate; earlier rows of an open room hold none.
  lemma NewRowAgrees(r: Room, t: Room, row: Row)
    requires RoomInv(r) && r.status == Open && t.rows == r.rows + [row]
    requires t.members == r.members && t.mode == r.mode && t.consensusFloor == r.consensusFloor
    requires row.num == |r.rows| + 1 && (row.kind == Done ==> t.status == Closed)
    requires MayCloseAsAgreed(r, row.sender, row.kind)
    ensures DoneInv(t)
  {
    assert t.rows[..|r.rows|] == r.rows;
    assert forall k :: 0 <= k < |r.rows| ==> t.rows[k] == r.rows[k] && r.rows[k].kind != Done;
    CountWithinRows(r.rows);
    forall k | 0 <= k < |t.rows| && t.rows[k].kind == Done
      ensures t.status == Closed && (t.rows[k].sender != OWNER && Gated(t.mode) ==> AgreedAt(t, k))
    {
      assert k == |r.rows|;
    }
  }

  lemma GateGivesAgreement(r: Room, sender: string, text: string, kind: Kind, now: int)
    requires RoomInv(r) && r.status == Open && MayCloseAsAgreed(r, sender, kind) && kind != System
    ensures DoneInv(Inserted(r, sender, text, kind, now))
  {
    MaxSeqIsLength(r.rows);
    InsertedFields(r, sender, text, kind, now);
    NewRowAgrees(r, Inserted(r, sender, text, kind, now), Row(MaxSeq(r.rows) + 1, sender, kind, text, false));
  }

  lemma {:induction false} CountWithinRows(rows: seq<Row>)
    ensures Live(rows, false) <= |rows|
  {
    if rows != [] {
      CountWithinRows(rows[..|rows| - 1]);
    }
  }

  lemma InsertedFields(r: Room, sender: string, text: string, kind: Kind, now: int)
    requires r.status == Open && CloseInv(r)
    ensures var t := Inserted(r, sender, text, kind, now);
            && t.rows == r.rows + [Row(MaxSeq(r.rows) + 1, sender, kind, text, false)]
            && t.messageCount == r.messageCount + 1 && t.maxMessages == r.maxMessages
            && t.members == r.members && t.mode == r.mode && t.consensusFloor == r.consensusFloor
            && (t.status == Closed <==> kind == Done || t.maxMessages <= t.messageCount)
            && CloseInv(t)
  {
  }

  lemma CountsAfterInsert(r: Room, t: Room, row: Row)
    requires NumberedFromOne(r.rows) && r.messageCount == Live(r.rows, false) && CapInv(r) && r.status == Open
    requires row.num == |r.rows| + 1 && !row.deleted && row.kind != System
    requires t.rows == r.rows + [row] && t.messageCount == r.messageCount + 1 && t.maxMessages == r.maxMessages
    requires t.maxMessages <= t.messageCount ==> t.status == Closed
    ensures NumberedFromOne(t.rows) && t.messageCount == Live(t.rows, false) && CapInv(t)
  {
    UserRowCounts(r.rows, row);
  }

  lemma UserRowCounts(rows: seq<Row>, row: Row)
    requires NumberedFromOne(rows) && row.num == |rows| + 1 && !row.deleted && row.kind != System
    ensures NumberedFromOne(rows + [row])
    ensures Live(rows + [row], false) == Live(rows, false) + 1
    ensures Live(rows + [row], true) == Live(rows, true) + 1 <= Live(rows, false) + 1
  {
    LiveSnoc(rows, row, false);
    LiveSnoc(rows, row, true);
    UsersAreLive(rows);
  }

  lemma InsertedOpening(r: Room, sender: string, text: string, kind: Kind, now: int)
    requires DeadlineInv(r) && (r.openedAt.Some? <==> OwnerPosted(r.rows)) && kind != System
    ensures var t := Inserted(r, sender, text, kind, now);
            DeadlineInv(t) && (t.openedAt.Some? <==> OwnerPosted(t.rows))
  {
    OwnerPostedSnoc(r.rows, Row(MaxSeq(r.rows) + 1, sender, kind, text, false));
  }

  lemma InsertedKeepsInv(r: Room, sender: string, text: string, kind: Kind, now: int)
    requires RoomInv(r) && r.status == Open && MayCloseAsAgreed(r, sender, kind) && kind != System
    ensures RoomInv(Inserted(r, sender, text, kind, now))
  {
    MaxSeqIsLength(r.rows);
    InsertedFields(r, sender, text, kind, now);
    CountsAfterInsert(r, Inserted(r, sender, text, kind, now), Row(MaxSeq(r.rows) + 1, sender, kind, text, false));
    InsertedOpening(r, sender, text, kind, now);
    GateGivesAgreement(r, sender, text, kind, now);
  }

  lemma GateIgnoresSeats(r: Room, members: seq<Member>, sender: string, kind: Kind)
    requires SameNames(r.members, members)
    ensures MayCloseAsAgreed(r, sender, kind) <==> MayCloseAsAgreed(r.(members := members), sender, kind)
  {
    assert forall i :: 0 <= i < |members| ==> members[i].name == r.members[i].name;
  }

  lemma PostKeepsInv(r: Room, sender: string, text: string, kind: Kind, p: Principal, now: int)
    requires RoomInv(r) && kind != System && PostBody(r, sender, text, kind, p, now).Committed?
    ensures RoomInv(PostBody(r, sender, text, kind, p, now).room)
  {
    BoundSeatsNames(r.members, sender, p);
    var seated := r.(members := BoundSeats(r.members, sender, p).value);
    FieldsKeepInv(r, seated);
    GateIgnoresSeats(r, seated.members, sender, kind);
    InsertedKeepsInv(seated, sender, text, kind, now);
  }

  // ---------- Tombstones and closes ----------

  // Objections survive later tombstoning: only text and the deletion mark change.
  lemma TombstoneKeepsObjections(rows: seq<Row>, i: nat, row: Row, name: string)
    requires i < |rows| && row.kind == rows[i].kind && row.sender == rows[i].sender
    ensures HasObjected(rows[i := row], name) <==> HasObjected(rows, name)
  {
    var t := rows[i := row];
    assert forall k :: 0 <= k < |rows| ==> t[k].kind == rows[k].kind && t[k].sender == rows[k].sender;
    if HasObjected(t, name) {
      var k :| 0 <= k < |t| && t[k].kind == Objection && t[k].sender == name;
      assert rows[k].kind == Objection && rows[k].sender == name;
    }
    if HasObjected(rows, name) {
      var k :| 0 <= k < |rows| && rows[k].kind == Objection && rows[k].sender == name;
      assert t[k].kind == Objection && t[k].sender == name;
    }
  }

  lemma DeleteKeepsInv(r: Room, num: nat)
    requires RoomInv(r) && DeleteBody(r, num).Committed?
    ensures RoomInv(DeleteBody(r, num).room)
    ensures DeleteBody(r, num).room.messageCount == r.messageCount - 1  // the clamp never binds
  {
    var t := DeleteBody(r, num).room;
    var i := IndexOf(r.rows, num);
    LiveTombstone(r.rows, i, t.rows[i], false);
    LiveTombstone(r.rows, i, t.rows[i], true);
    TombstoneKeepsDone(r, t, i);
    SameSenders(r.rows, t.rows);
  }

  lemma TombstoneKeepsDone(r: Room, t: Room, i: nat)
    requires DoneInv(r) && i < |r.rows| && t == r.(rows := t.rows, messageCount := t.messageCount)
    requires t.rows == r.rows[i := r.rows[i].(text := DELETED_MESSAGE_MARKER, deleted := true)]
    ensures DoneInv(t)
  {
    forall k | 0 <= k < |t.rows| && t.rows[k].kind == Done
      ensures t.status == Closed && (t.rows[k].sender != OWNER && Gated(t.mode) ==> AgreedAt(t, k))
    {
      assert r.rows[k].kind == Done;
      if t.rows[k].sender != OWNER && Gated(t.mode) {
        assert AgreedAt(r, k);
        TombstoneKeepsAgreement(r, t, i, k);
      }
    }
  }

  lemma TombstoneKeepsAgreement(r: Room, t: Room, i: nat, k: nat)
    requires i < |r.rows| && k < |r.rows| && AgreedAt(r, k) && t == r.(rows := t.rows, messageCount := t.messageCount)
    requires t.rows == r.rows[i := r.rows[i].(text := DELETED_MESSAGE_MARKER, deleted := true)]
    ensures AgreedAt(t, k)
  {
    forall m | 0 <= m < |t.members| ensures HasObjected(t.rows[..k], t.members[m].name) {
      if i < k {
        assert t.rows[..k] == r.rows[..k][i := t.rows[i]];
        TombstoneKeepsObjections(r.rows[..k], i, t.rows[i], t.members[m].name);
      } else {
        assert t.rows[..k] == r.rows[..k];
      }
    }
  }

  lemma SameSenders(a: seq<Row>, b: seq<Row>)
    requires |a| == |b| && forall k :: 0 <= k < |a| ==> a[k].kind == b[k].kind && a[k].sender == b[k].sender
    ensures OwnerPosted(a) <==> OwnerPosted(b)
  {
    if OwnerPosted(a) {
      var i :| 0 <= i < |a| && a[i].sender == OWNER && a[i].kind != System;
      assert b[i].sender == OWNER && b[i].kind != System;
    }
    if OwnerPosted(b) {
      var i :| 0 <= i < |b| && b[i].sender == OWNER && b[i].kind != System;
      assert a[i].sender == OWNER && a[i].kind != System;
    }
  }

  lemma CloseKeepsInv(r: Room, reason: Reason, now: int)
    requires RoomInv(r)
    ensures RoomInv(ClosedWith(r, reason, now))
  {
    var t := ClosedWith(r, reason, now);
    forall k | 0 <= k < |t.rows| && t.rows[k].kind == Done
      ensures t.status == Closed && (t.rows[k].sender != OWNER && Gated(t.mode) ==> AgreedAt(t, k))
    {
      assert r.rows[k].kind == Done;
      assert AgreedAt(r, k) ==> AgreedAt(t, k);
    }
  }

  // ---------- Every mutator keeps the invariant ----------

  lemma BodyKeepsInv(r: Room, req: Request, now: int)
    requires RoomInv(r) && (req.Post? ==> req.kind != System)
    requires Body(r, req, now).Committed?
    ensures RoomInv(Body(r, req, now).room)
  {
    match req
    case Post(sender, text, kind, p) => PostKeepsInv(r, sender, text, kind, p, now);
    case DeleteMessage(num) => DeleteKeepsInv(r, num);
    case Close(reason) => CloseKeepsInv(r, if reason == None then OwnerReason else reason.value, now);
    case SweepClose => CloseKeepsInv(r, TimeReason, now);
    case _ => SettingKeepsInv(r, req, now);
  }

  // The mutators that announce themselves with a server message, and seat binding.
  lemma SettingKeepsInv(r: Room, req: Request, now: int)
    requires RoomInv(r) && Body(r, req, now).Committed?
    requires !req.Post? && !req.DeleteMessage? && !req.Close? && !req.SweepClose?
    ensures RoomInv(Body(r, req, now).room)
  {
    match req
    case Nudge(note) => NudgeKeepsInv(r, note, now);
    case SwitchMode(mode, note) => SwitchKeepsInv(r, mode, note);
    case SetAgentUploads(allowed, note) => ChangeThenNote(r, r.(agentUploadsAllowed := allowed), note);
    case SetOwnerOpen(required, note) => OwnerOpenKeepsInv(r, required, note, now);
    case SetSeat(name, machine, _, note) => ReseatKeepsInv(r, name, machine, note);
    case AttachmentNote(note) => SystemRowKeepsInv(r, note);
    case BindSeat(sender, p) => BindingKeepsInv(r, sender, p);
  }

  lemma NudgeKeepsInv(r: Room, note: string, now: int)
    requires RoomInv(r) && NudgeBody(r, note, now).Committed?
    ensures RoomInv(NudgeBody(r, note, now).room)
  {
    SystemRowKeepsInv(r, note);
    FieldsKeepInv(Appended(r, SYSTEM, System, note), NudgeBody(r, note, now).room);
  }

  lemma SwitchKeepsInv(r: Room, mode: Mode, note: string)
    requires RoomInv(r) && SwitchModeBody(r, mode, note).Committed?
    ensures RoomInv(SwitchModeBody(r, mode, note).room)
  {
    ChangeThenNote(r, r.(mode := mode), note);
  }

  lemma ReseatKeepsInv(r: Room, name: string, machine: Option<nat>, note: string)
    requires RoomInv(r)
    ensures RoomInv(Appended(r.(members := WithSeat(r.members, name, machine)), SYSTEM, System, note))
  {
    WithSeatNames(r.members, name, machine);
    ChangeThenNote(r, r.(members := WithSeat(r.members, name, machine)), note);
  }

  lemma BindingKeepsInv(r: Room, sender: string, p: Principal)
    requires RoomInv(r) && BoundSeats(r.members, sender, p).Some?
    ensures RoomInv(r.(members := BoundSeats(r.members, sender, p).value))
  {
    BoundSeatsNames(r.members, sender, p);
    FieldsKeepInv(r, r.(members := BoundSeats(r.members, sender, p).value));
  }

  // A change of the settings, announced in the same commit.
  lemma ChangeThenNote(r: Room, t: Room, note: string)
    requires RoomInv(r) && SameNames(r.members, t.members)
    requires t == r.(members := t.members, agentUploadsAllowed := t.agentUploadsAllowed,
                     closingWarnedAt := t.closingWarnedAt, mode := t.mode,
                     requiresOwnerOpen := t.requiresOwnerOpen, pendingDuration := t.pendingDuration,
                     expiresAt := t.expiresAt)
    requires t.mode == r.mode || (r.status == Open && (Gated(t.mode) ==> r.consensusFloor < r.maxMessages))
    requires DeadlineInv(t)
    ensures RoomInv(Appended(t, SYSTEM, System, note))
  {
    FieldsKeepInv(r, t);
    SystemRowKeepsInv(t, note);
  }

  lemma OwnerOpenKeepsInv(r: Room, required: bool, note: string, now: int)
    requires RoomInv(r) && SetOwnerOpenBody(r, required, note, now).Committed?
    ensures RoomInv(SetOwnerOpenBody(r, required, note, now).room)
  {
    var opening := !required && r.openedAt == None && r.requiresOwnerOpen;
    ChangeThenNote(r, (if opening then DeadlineResolved(r, now) else r).(requiresOwnerOpen := required), note);
  }

  lemma CreatedSatisfiesInv(names: seq<string>, maxMessages: Option<int>, mode: Mode, duration: Option<int>,
                            expiresAt: Option<int>, floor: Option<int>, seats: map<string, nat>, now: int)
    ensures var c := CreateRoom(names, maxMessages, mode, duration, expiresAt, floor, seats, now);
            c.Created? ==>
              && RoomInv(c.room) && c.room.rows == [] && c.room.openedAt == None && c.room.requiresOwnerOpen
              && |c.room.members| == 2 && c.room.members[0].name != c.room.members[1].name
              && (c.room.expiresAt.Some? ==> now < c.room.expiresAt.value)
  {
  }

  // ---------- What one body writes ----------

  predicate AddsRow(r: Room, t: Room, sender: string, kind: Kind, text: string) {
    t.rows == r.rows + [Row(MaxSeq(r.rows) + 1, sender, kind, text, false)]
  }

  predicate Tombstones(r: Room, t: Room, num: nat) {
    exists i :: 0 <= i < |r.rows| && r.rows[i].num == num
             && t.rows == r.rows[i := r.rows[i].(text := DELETED_MESSAGE_MARKER, deleted := true)]
  }

  lemma OpenedByWrites(r: Room, sender: string, now: int)
    ensures var t := OpenedBy(r, sender, now);
            var opening := sender == OWNER && r.openedAt == None;
            t == r.(openedAt := if opening then Some(now) else r.openedAt,
                    pendingDuration := if opening then None else r.pendingDuration,
                    expiresAt := if opening && r.pendingDuration.Some? then Some(now + r.pendingDuration.value)
                                 else r.expiresAt)
  {
  }

  lemma PostOpens(r: Room, sender: string, text: string, kind: Kind, p: Principal, now: int)
    requires PostBody(r, sender, text, kind, p, now).Committed?
    ensures var t := PostBody(r, sender, text, kind, p, now).room;
            var opening := sender == OWNER && r.openedAt == None;
            && t.openedAt == (if opening then Some(now) else r.openedAt)
            && t.pendingDuration == (if opening then None else r.pendingDuration)
            && t.expiresAt == (if opening && r.pendingDuration.Some? then Some(now + r.pendingDuration.value)
                               else r.expiresAt)
  {
    OpenedByWrites(r.(members := BoundSeats(r.members, sender, p).value), sender, now);
  }

  lemma PostWrites(r: Room, sender: string, text: string, kind: Kind, p: Principal, now: int)
    requires PostBody(r, sender, text, kind, p, now).Committed?
    ensures var t := PostBody(r, sender, text, kind, p, now).room;
            && r.status == Open && BoundSeats(r.members, sender, p) == Some(t.members)
            && AddsRow(r, t, sender, kind, text) && t.messageCount == r.messageCount + 1
            && t.maxMessages == r.maxMessages && t.consensusFloor == r.consensusFloor && t.mode == r.mode
            && t.requiresOwnerOpen == r.requiresOwnerOpen && t.closingWarnedAt == r.closingWarnedAt
            && t.agentUploadsAllowed == r.agentUploadsAllowed
            && (t.status == Closed <==> kind == Done || t.maxMessages <= t.messageCount)
  {
    OpenedByWrites(r.(members := BoundSeats(r.members, sender, p).value), sender, now);
  }

  // Every body adds one numbered row, tombstones one, or leaves the messages alone.
  lemma BodyRows(r: Room, req: Request, now: int)
    requires Body(r, req, now).Committed?
    ensures var t := Body(r, req, now).room;
            match req
            case Post(sender, text, kind, _) => AddsRow(r, t, sender, kind, text)
            case DeleteMessage(num) => Tombstones(r, t, num)
            case Close(_) => t.rows == r.rows
            case SweepClose => t.rows == r.rows
            case BindSeat(_, _) => t.rows == r.rows
            case _ => AddsRow(r, t, SYSTEM, System, req.note)
  {
    if req.Post? {
      PostWrites(r, req.sender, req.text, req.kind, req.principal, now);
    }
  }

  lemma BodySeats(r: Room, req: Request, now: int)
    requires Body(r, req, now).Committed?
    ensures var t := Body(r, req, now).room;
            match req
            case Post(sender, _, _, p) => BoundSeats(r.members, sender, p) == Some(t.members)
            case BindSeat(sender, p) => BoundSeats(r.members, sender, p) == Some(t.members)
            case SetSeat(name, machine, _, _) => t.members == WithSeat(r.members, name, machine)
            case _ => t.members == r.members
  {
    if req.Post? {
      PostWrites(r, req.sender, req.text, req.kind, req.principal, now);
    }
  }

  // Only the opening event touches the deadline.
  lemma BodyDeadline(r: Room, req: Request, now: int)
    requires DeadlineInv(r) && Body(r, req, now).Committed?
    ensures var t := Body(r, req, now).room;
            || (t.expiresAt == r.expiresAt && t.pendingDuration == r.pendingDuration)
            || (r.openedAt == None && (t.openedAt == Some(now) || !t.requiresOwnerOpen)
                && t.pendingDuration == None
                && t.expiresAt == if r.pendingDuration == None then r.expiresAt else Some(now + r.pendingDuration.value))
    ensures var t := Body(r, req, now).room;
            r.openedAt.Some? ==> t.openedAt == r.openedAt
  {
    if req.Post? {
      PostOpens(r, req.sender, req.text, req.kind, req.principal, now);
    }
  }
}
