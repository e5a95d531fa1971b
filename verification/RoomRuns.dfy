// Many callers on one room: unlocked pre-checks, the row lock, the body, the
// commit, in any order. Every reachable world is a serial history of the bodies.
module RoomRuns {
  import opened Common
  import opened Rooms
  import opened RoomInvariants

  // Which committed version the unlocked pre-check read, and when.
  datatype Glance = Glance(version: nat, at: int)

  datatype Commit = Commit(req: Request, at: int, glance: Glance)

  datatype Actor =
    | Asked(req: Request)
    | Cleared(req: Request, glance: Glance)                                     // pre-checks passed
    | Holding(req: Request, glance: Glance, base: Room)                         // lock held, row re-read
    | Drafted(req: Request, glance: Glance, base: Room, at: int, draft: Room)   // writes not committed yet
    | Collided(req: Request)                                                    // unique (room, seq) violated
    | Over

  datatype World = World(history: seq<Room>, gone: bool, log: seq<Commit>, now: int, actors: seq<Actor>)

  datatype Step =
    | Tick(amount: nat)
    | Ask(req: Request)
    | Check(i: nat)
    | Acquire(i: nat)
    | RunBody(i: nat)
    | Land(i: nat)
    | GiveUp(i: nat)
    | DropRoom

  predicate HoldsLock(a: Actor) {
    a.Holding? || a.Drafted?
  }

  predicate LockFree(w: World) {
    forall i :: 0 <= i < |w.actors| ==> !HoldsLock(w.actors[i])
  }

  function Current(w: World): Room
    requires w.history != []
  {
    w.history[|w.history| - 1]
  }

  // The unique index on (room, seq) refuses a row whose number is already stored.
  predicate Collides(stored: Room, base: Room, draft: Room) {
    exists i, j :: |base.rows| <= i < |draft.rows| && 0 <= j < |stored.rows| && draft.rows[i].num == stored.rows[j].num
  }

  predicate Enabled(w: World, step: Step) {
    match step
    case Tick(_) => true
    case Ask(_) => true
    case Check(i) => i < |w.actors| && w.actors[i].Asked?
    case Acquire(i) => i < |w.actors| && w.actors[i].Cleared? && LockFree(w)
    case RunBody(i) => i < |w.actors| && w.actors[i].Holding?
    case Land(i) => i < |w.actors| && w.actors[i].Drafted?
    case GiveUp(i) => i < |w.actors|
    case DropRoom => LockFree(w)
  }

  function Next(w: World, step: Step): World
    requires w.history != [] && Enabled(w, step)
  {
    match step
    case Tick(amount) => w.(now := w.now + amount)
    case Ask(req) => w.(actors := w.actors + [Asked(req)])
    case Check(i) =>
      var req := w.actors[i].req;
      w.(actors := w.actors[i := if w.gone || PreCheck(Current(w), req, w.now).Some? then Over
                                 else Cleared(req, Glance(|w.history| - 1, w.now))])
    case Acquire(i) =>
      var a := w.actors[i];
      w.(actors := w.actors[i := if w.gone then Over else Holding(a.req, a.glance, Current(w))])
    case RunBody(i) =>
      var a := w.actors[i];
      var o := Body(a.base, a.req, w.now);
      w.(actors := w.actors[i := if o.Committed? then Drafted(a.req, a.glance, a.base, w.now, o.room) else Over])
    case Land(i) =>
      var a := w.actors[i];
      if Collides(Current(w), a.base, a.draft) then w.(actors := w.actors[i := Collided(a.req)])
      else w.(history := w.history + [a.draft], log := w.log + [Commit(a.req, a.at, a.glance)],
              actors := w.actors[i := Over])
    case GiveUp(i) => w.(actors := w.actors[i := Over])
    case DropRoom => w.(gone := true)
  }

  // ---------- The invariant of the world ----------

  predicate GlanceOk(history: seq<Room>, req: Request, g: Glance, latest: int) {
    g.version < |history| && g.at <= latest && PreCheck(history[g.version], req, g.at) == None
  }

  predicate ActorInv(w: World, a: Actor)
    requires w.history != []
  {
    match a
    case Cleared(req, g) => GlanceOk(w.history, req, g, w.now)
    case Holding(req, g, base) => GlanceOk(w.history, req, g, w.now) && base == Current(w)
    case Drafted(req, g, base, at, draft) =>
      && GlanceOk(w.history, req, g, at) && at <= w.now && base == Current(w)
      && Body(base, req, at) == Committed(draft)
    case Collided(_) => false
    case _ => true
  }

  // Entry `k` of the log turned version `k` into version `k + 1`.
  predicate Serial(w: World, k: nat)
    requires k < |w.log| && |w.history| == |w.log| + 1
  {
    && Body(w.history[k], w.log[k].req, w.log[k].at) == Committed(w.history[k + 1])
    && w.log[k].glance.version <= k
    && GlanceOk(w.history, w.log[k].req, w.log[k].glance, w.log[k].at)
  }

  predicate WorldInv(w: World) {
    && |w.history| == |w.log| + 1
    && (forall k :: 0 <= k < |w.history| ==> RoomInv(w.history[k]))
    && (forall k :: 0 <= k < |w.log| ==> Serial(w, k))
    && (forall i :: 0 <= i < |w.actors| ==> ActorInv(w, w.actors[i]))
    && (forall i, j :: 0 <= i < j < |w.actors| ==> !(HoldsLock(w.actors[i]) && HoldsLock(w.actors[j])))
  }

  lemma NoUserSystemPost(history: seq<Room>, req: Request, g: Glance, latest: int)
    requires GlanceOk(history, req, g, latest)
    ensures req.Post? ==> req.kind != System
    ensures req.Post? && req.sender == OWNER ==> req.principal == OwnerToken
  {
  }

  // A body adds at most one row, numbered past everything stored.
  lemma DraftFitsBase(r: Room, req: Request, now: int)
    requires NumberedFromOne(r.rows) && Body(r, req, now).Committed?
    ensures !Collides(r, r, Body(r, req, now).room)
  {
    MaxSeqIsLength(r.rows);
    BodyRows(r, req, now);
  }

  lemma LandKeepsInv(w: World, i: nat)
    requires WorldInv(w) && Enabled(w, Land(i))
    ensures WorldInv(Next(w, Land(i)))
  {
    var a, t := w.actors[i], Next(w, Land(i));
    assert ActorInv(w, a);
    DraftFitsBase(Current(w), a.req, a.at);
    NoUserSystemPost(w.history, a.req, a.glance, a.at);
    BodyKeepsInv(Current(w), a.req, a.at);
    forall k | 0 <= k < |t.log| ensures Serial(t, k) {
      if k < |w.log| {
        assert Serial(w, k);
        assert t.log[k] == w.log[k] && t.history[k] == w.history[k] && t.history[k + 1] == w.history[k + 1];
      }
    }
    forall j | 0 <= j < |t.actors| ensures ActorInv(t, t.actors[j]) {
      if j != i {
        assert ActorInv(w, w.actors[j]);
        assert !HoldsLock(w.actors[j]);
      }
    }
  }

  lemma WorldInvNext(w: World, step: Step)
    requires WorldInv(w) && Enabled(w, step)
    ensures WorldInv(Next(w, step))
  {
    if step.Land? {
      LandKeepsInv(w, step.i);
    } else {
      OtherStepsKeepInv(w, step);
    }
  }

  lemma OtherStepsKeepInv(w: World, step: Step)
    requires WorldInv(w) && Enabled(w, step) && !step.Land?
    ensures WorldInv(Next(w, step))
  {
    var t := Next(w, step);
    assert t.history == w.history && t.log == w.log;
    forall k | 0 <= k < |t.log| ensures Serial(t, k) {
      assert Serial(w, k);
    }
    forall j: nat | j < |t.actors| ensures ActorInv(t, t.actors[j]) {
      OtherStepsKeepActor(w, step, j);
    }
  }

  lemma OtherStepsKeepActor(w: World, step: Step, j: nat)
    requires WorldInv(w) && Enabled(w, step) && !step.Land? && j < |Next(w, step).actors|
    ensures ActorInv(Next(w, step), Next(w, step).actors[j])
  {
    assert j < |w.actors| ==> ActorInv(w, w.actors[j]);
  }

  // ---------- Runs ----------

  predicate Runs(w: World, steps: seq<Step>)
    requires w.history != []
    decreases |steps|
  {
    steps == [] || (Enabled(w, steps[0]) && Next(w, steps[0]).history != [] && Runs(Next(w, steps[0]), steps[1..]))
  }

  function After(w: World, steps: seq<Step>): World
    requires w.history != [] && Runs(w, steps)
    decreases |steps|
  {
    if steps == [] then w else After(Next(w, steps[0]), steps[1..])
  }

  // A freshly created room with nobody acting on it.
  predicate Init(w: World) {
    && |w.history| == 1 && w.log == [] && w.actors == [] && !w.gone
    && RoomInv(w.history[0]) && w.history[0].rows == []
  }

  lemma {:induction false} RunsKeepInv(w: World, steps: seq<Step>)
    requires WorldInv(w) && Runs(w, steps)
    ensures WorldInv(After(w, steps))
    decreases |steps|
  {
    if steps != [] {
      WorldInvNext(w, steps[0]);
      RunsKeepInv(Next(w, steps[0]), steps[1..]);
    }
  }

  // Every interleaving commits a serial history of locked bodies, each of which had
  // passed its pre-check on an earlier committed version.
  lemma EveryRunIsSerial(w: World, steps: seq<Step>)
    requires Init(w) && Runs(w, steps)
    ensures WorldInv(After(w, steps))
    ensures var t := After(w, steps);
            forall k :: 0 <= k < |t.log| ==> Body(t.history[k], t.log[k].req, t.log[k].at) == Committed(t.history[k + 1])
  {
    RunsKeepInv(w, steps);
    var t := After(w, steps);
    forall k | 0 <= k < |t.log| ensures Body(t.history[k], t.log[k].req, t.log[k].at) == Committed(t.history[k + 1]) {
      assert Serial(t, k);
    }
  }

  // The sequence-conflict retry of a post is never entered.
  lemma SeqConflictUnreachable(w: World, steps: seq<Step>, i: nat)
    requires Init(w) && Runs(w, steps) && i < |After(w, steps).actors|
    ensures !After(w, steps).actors[i].Collided?
  {
    RunsKeepInv(w, steps);
    assert ActorInv(After(w, steps), After(w, steps).actors[i]);
  }

  // ---------- What later versions keep of earlier ones ----------

  predicate SameMessage(a: Row, b: Row) {
    && a.num == b.num && a.sender == b.sender && a.kind == b.kind
    && (a.deleted ==> b.deleted)
    && (b.text == a.text || (b.deleted && b.text == DELETED_MESSAGE_MARKER))
  }

  predicate Follows(r: Room, t: Room) {
    && |r.rows| <= |t.rows|
    && (forall k :: 0 <= k < |r.rows| ==> SameMessage(r.rows[k], t.rows[k]))
    && t.maxMessages == r.maxMessages && t.consensusFloor == r.consensusFloor && SameNames(r.members, t.members)
    // closed is absorbing, and only the server writes to a closed room
    && (r.status == Closed ==>
          && t.status == Closed && t.closedAt == r.closedAt && t.closeReason == r.closeReason && t.mode == r.mode
          && forall k :: |r.rows| <= k < |t.rows| ==> t.rows[k].kind == System)
    && (r.openedAt.Some? ==> t.openedAt == r.openedAt)
    && (r.expiresAt.Some? ==> t.expiresAt == r.expiresAt)
    && (r.pendingDuration == None ==> t.pendingDuration == None && t.expiresAt == r.expiresAt)
    && (r.closingWarnedAt.Some? ==> t.closingWarnedAt == r.closingWarnedAt)
  }

  lemma FollowsSelf(r: Room)
    ensures Follows(r, r)
  {
  }

  lemma FollowsTransitive(a: Room, b: Room, c: Room)
    requires Follows(a, b) && Follows(b, c)
    ensures Follows(a, c)
  {
    forall k | 0 <= k < |a.rows| ensures SameMessage(a.rows[k], c.rows[k]) {
      assert SameMessage(a.rows[k], b.rows[k]) && SameMessage(b.rows[k], c.rows[k]);
    }
    if a.status == Closed {
      forall k | |a.rows| <= k < |c.rows| ensures c.rows[k].kind == System {
        if k < |b.rows| {
          assert SameMessage(b.rows[k], c.rows[k]);
        }
      }
    }
  }

  lemma BodyFollows(r: Room, req: Request, now: int)
    requires RoomInv(r) && Body(r, req, now).Committed?
    ensures Follows(r, Body(r, req, now).room)
  {
    BodyRows(r, req, now);
    BodyDeadline(r, req, now);
    BodyNames(r, req, now);
    BodyCloses(r, req, now);
  }

  lemma BodyNames(r: Room, req: Request, now: int)
    requires Body(r, req, now).Committed?
    ensures SameNames(r.members, Body(r, req, now).room.members)
  {
    BodySeats(r, req, now);
    match req
    case Post(sender, _, _, p) => BoundSeatsNames(r.members, sender, p);
    case SetSeat(name, machine, _, _) => WithSeatNames(r.members, name, machine);
    case BindSeat(sender, p) => BoundSeatsNames(r.members, sender, p);
    case _ =>
  }

  lemma BodyCloses(r: Room, req: Request, now: int)
    requires Body(r, req, now).Committed?
    ensures var t := Body(r, req, now).room;
            && t.maxMessages == r.maxMessages && t.consensusFloor == r.consensusFloor
            && (r.status == Closed ==>
                  t.status == Closed && t.closedAt == r.closedAt && t.closeReason == r.closeReason && t.mode == r.mode
                  && (req.DeleteMessage? || req.AttachmentNote?))
            && (r.closingWarnedAt.Some? ==> t.closingWarnedAt == r.closingWarnedAt)
  {
    if req.Post? {
      PostWrites(r, req.sender, req.text, req.kind, req.principal, now);
    }
  }

  lemma StepFollows(w: World, k: nat)
    requires WorldInv(w) && k < |w.log|
    ensures Follows(w.history[k], w.history[k + 1])
  {
    assert Serial(w, k);
    BodyFollows(w.history[k], w.log[k].req, w.log[k].at);
  }

  lemma {:induction false} HistoryFollows(w: World, i: nat, j: nat)
    requires WorldInv(w) && i <= j < |w.history|
    ensures Follows(w.history[i], w.history[j])
  {
    if i == j {
      FollowsSelf(w.history[i]);
    } else {
      HistoryFollows(w, i, j - 1);
      StepFollows(w, j - 1);
      FollowsTransitive(w.history[i], w.history[j - 1], w.history[j]);
    }
  }

  // ---------- Facts of every run ----------

  // A room closes once: the first winner's time and reason stand for ever, and no
  // user message is committed afterwards.
  lemma ClosesOnce(w: World, steps: seq<Step>, i: nat, j: nat)
    requires Init(w) && Runs(w, steps) && i <= j < |After(w, steps).history|
    ensures var h := After(w, steps).history;
            h[i].status == Closed ==>
              && h[j].status == Closed && h[i].closedAt.Some? && h[i].closeReason.Some?
              && h[j].closedAt == h[i].closedAt && h[j].closeReason == h[i].closeReason
              && forall k :: |h[i].rows| <= k < |h[j].rows| ==> h[j].rows[k].kind == System
  {
    RunsKeepInv(w, steps);
    HistoryFollows(After(w, steps), i, j);
  }

  // The counter is the number of untombstoned rows; live user messages never exceed
  // the cap and stay below it while the room is open.
  lemma MessagesConserved(w: World, steps: seq<Step>, i: nat)
    requires Init(w) && Runs(w, steps) && i < |After(w, steps).history|
    ensures var r := After(w, steps).history[i];
            && r.messageCount == Live(r.rows, false)
            && Live(r.rows, true) <= r.maxMessages
            && (r.status == Open ==> Live(r.rows, true) < r.maxMessages)
            && forall k :: 0 <= k < |r.rows| ==> r.rows[k].num == k + 1
  {
    RunsKeepInv(w, steps);
    assert RoomInv(After(w, steps).history[i]);
  }

  // A committed agent message means the room had been open to agents earlier in the
  // run: the owner had posted, or the requirement was off.
  lemma AgentNeedsOpening(w: World, steps: seq<Step>, k: nat)
    requires Init(w) && Runs(w, steps) && k < |After(w, steps).log|
    requires var req := After(w, steps).log[k].req; req.Post? && req.sender != OWNER
    ensures var t := After(w, steps);
            k < |t.history| &&
            exists j :: 0 <= j <= k && (OwnerPosted(t.history[j].rows) || !t.history[j].requiresOwnerOpen)
  {
    RunsKeepInv(w, steps);
    var t := After(w, steps);
    assert Serial(t, k);
    var j := t.log[k].glance.version;
    assert RoomInv(t.history[j]);
    assert OwnerPosted(t.history[j].rows) || !t.history[j].requiresOwnerOpen;
  }

  // An agreed close is on record whatever is deleted afterwards: in a debate or
  // critique room closed by a member's `done`, every member objected earlier and the
  // floor had been reached.
  lemma AgreedCloseOnRecord(w: World, steps: seq<Step>, i: nat, k: nat)
    requires Init(w) && Runs(w, steps) && i < |After(w, steps).history|
    requires var r := After(w, steps).history[i];
             k < |r.rows| && r.rows[k].kind == Done && r.rows[k].sender != OWNER && Gated(r.mode)
    ensures var r := After(w, steps).history[i];
            && r.status == Closed && r.consensusFloor < r.rows[k].num
            && forall m :: 0 <= m < |r.members| ==> ObjectedBefore(r, r.members[m].name, k)
  {
    RunsKeepInv(w, steps);
    var r := After(w, steps).history[i];
    assert RoomInv(r) && AgreedAt(r, k);
    forall m | 0 <= m < |r.members| ensures ObjectedBefore(r, r.members[m].name, k) {
      var prior := r.rows[..k];
      assert HasObjected(prior, r.members[m].name);
      var j :| 0 <= j < |prior| && prior[j].kind == Objection && prior[j].sender == r.members[m].name;
      assert r.rows[j] == prior[j] && r.rows[j].num < r.rows[k].num;
    }
  }

  // An objection of `name`, deleted or not, with a smaller sequence number than row `k`.
  predicate ObjectedBefore(r: Room, name: string, k: nat)
    requires k < |r.rows|
  {
    exists j :: 0 <= j < |r.rows| && r.rows[j].kind == Objection && r.rows[j].sender == name
             && r.rows[j].num < r.rows[k].num
  }

  // The deferred deadline exists only before opening, and a deadline once written
  // never changes.
  lemma DeadlineWrittenOnce(w: World, steps: seq<Step>, i: nat, j: nat)
    requires Init(w) && Runs(w, steps) && i <= j < |After(w, steps).history|
    ensures var h := After(w, steps).history;
            && (h[i].pendingDuration.Some? ==>
                  h[i].openedAt == None && h[i].requiresOwnerOpen && h[i].expiresAt == None && !OwnerPosted(h[i].rows))
            && (h[i].expiresAt.Some? ==> h[j].expiresAt == h[i].expiresAt)
            && (h[i].pendingDuration == None ==> h[j].expiresAt == h[i].expiresAt)
  {
    RunsKeepInv(w, steps);
    assert RoomInv(After(w, steps).history[i]);
    HistoryFollows(After(w, steps), i, j);
  }

  // The commit that writes the deadline is the one that opens the room, and it adds
  // the pending duration to that commit's time.
  lemma DeadlineWrittenAtOpening(w: World, steps: seq<Step>, k: nat)
    requires Init(w) && Runs(w, steps) && k < |After(w, steps).log|
    requires var h := After(w, steps).history; k + 1 < |h| && h[k].expiresAt != h[k + 1].expiresAt
    ensures var t := After(w, steps);
            && t.history[k].pendingDuration.Some?
            && t.history[k + 1].expiresAt == Some(t.log[k].at + t.history[k].pendingDuration.value)
            && t.history[k].openedAt == None && t.history[k].requiresOwnerOpen
            && (t.history[k + 1].openedAt == Some(t.log[k].at) || !t.history[k + 1].requiresOwnerOpen)
  {
    RunsKeepInv(w, steps);
    StepDeadline(After(w, steps), k);
  }

  lemma StepDeadline(t: World, k: nat)
    requires WorldInv(t) && k < |t.log| && t.history[k].expiresAt != t.history[k + 1].expiresAt
    ensures t.history[k].pendingDuration.Some?
         && t.history[k + 1].expiresAt == Some(t.log[k].at + t.history[k].pendingDuration.value)
         && t.history[k].openedAt == None && t.history[k].requiresOwnerOpen
         && (t.history[k + 1].openedAt == Some(t.log[k].at) || !t.history[k + 1].requiresOwnerOpen)
  {
    assert Serial(t, k) && RoomInv(t.history[k]);
    BodyDeadline(t.history[k], t.log[k].req, t.log[k].at);
  }

  // The sweeper scans without the lock and closes without looking again; still no
  // room is swept before its deadline.
  lemma SweepNeverEarly(w: World, steps: seq<Step>, k: nat)
    requires Init(w) && Runs(w, steps) && k < |After(w, steps).log| && After(w, steps).log[k].req.SweepClose?
    ensures var t := After(w, steps);
            k + 1 < |t.history| && t.history[k].expiresAt.Some? && t.history[k].expiresAt.value <= t.log[k].at
            && t.history[k + 1].closedAt == Some(t.log[k].at) && t.history[k + 1].closeReason == Some(TimeReason)
  {
    RunsKeepInv(w, steps);
    var t := After(w, steps);
    assert Serial(t, k);
    HistoryFollows(t, t.log[k].glance.version, k);
  }

  // At most one closing nudge is ever posted.
  lemma NudgedOnce(w: World, steps: seq<Step>, i: nat, j: nat)
    requires Init(w) && Runs(w, steps) && i < j < |After(w, steps).log|
    ensures !(After(w, steps).log[i].req.Nudge? && After(w, steps).log[j].req.Nudge?)
  {
    RunsKeepInv(w, steps);
    var t := After(w, steps);
    if t.log[i].req.Nudge? {
      NudgeMarks(t, i);
      HistoryFollows(t, i + 1, j);
    }
    if t.log[j].req.Nudge? { NudgeMarks(t, j); }
  }

  lemma NudgeMarks(t: World, k: nat)
    requires WorldInv(t) && k < |t.log| && t.log[k].req.Nudge?
    ensures t.history[k].closingWarnedAt == None && t.history[k + 1].closingWarnedAt.Some?
  {
    assert Serial(t, k);
  }

  // ---------- Seats ----------

  function SeatOf(members: seq<Member>, name: string): Option<nat> {
    if members == [] then None
    else if members[0].name == name then members[0].bound
    else SeatOf(members[1..], name)
  }

  lemma {:induction false} BindingEffect(members: seq<Member>, sender: string, p: Principal, name: string)
    requires BoundSeats(members, sender, p).Some?
    ensures var after := BoundSeats(members, sender, p).value;
            && (SeatOf(members, name).Some? ==> SeatOf(after, name) == SeatOf(members, name))
            && (p.MachineToken? && (exists i :: 0 <= i < |members| && members[i].name == sender) ==>
                  SeatOf(after, sender) == Some(p.id))
  {
    if p.MachineToken? && members != [] && members[0].name != sender {
      BindingEffect(members[1..], sender, p, name);
      var rest := BoundSeats(members[1..], sender, p).value;
      assert ([members[0]] + rest)[1..] == rest;
      if i :| 0 <= i < |members| && members[i].name == sender {
        assert members[1..][i - 1].name == sender;
      }
    } else if p.MachineToken? && members != [] {
      assert ([Member(sender, Some(p.id))] + members[1..])[1..] == members[1..];
    }
  }

  lemma {:induction false} ReseatEffect(members: seq<Member>, name: string, machine: Option<nat>, other: string)
    requires other != name
    ensures SeatOf(WithSeat(members, name, machine), other) == SeatOf(members, other)
  {
    if members != [] {
      if members[0].name == name {
        assert ([Member(name, machine)] + members[1..])[1..] == members[1..];
      } else {
        ReseatEffect(members[1..], name, machine, other);
        assert ([members[0]] + WithSeat(members[1..], name, machine))[1..] == WithSeat(members[1..], name, machine);
      }
    }
  }

  predicate Reseats(req: Request, name: string) {
    req.SetSeat? && req.name == name
  }

  // A machine's post leaves the seat it used bound to it.
  lemma PostBindsSeat(w: World, k: nat)
    requires WorldInv(w) && k < |w.log| && w.log[k].req.Post?
    requires w.log[k].req.principal.MachineToken?
    ensures SeatOf(w.history[k + 1].members, w.log[k].req.sender) == Some(w.log[k].req.principal.id)
  {
    var r, req := w.history[k], w.log[k].req;
    assert Serial(w, k);
    var g := w.log[k].glance;
    HistoryFollows(w, g.version, k);
    assert IsMember(w.history[g.version], req.sender);
    var i :| 0 <= i < |w.history[g.version].members| && w.history[g.version].members[i].name == req.sender;
    assert r.members[i].name == req.sender;
    BodySeats(r, req, w.log[k].at);
    BindingEffect(r.members, req.sender, req.principal, req.sender);
  }

  lemma {:induction false} SeatStays(w: World, i: nat, j: nat, name: string)
    requires WorldInv(w) && i <= j < |w.history| && SeatOf(w.history[i].members, name).Some?
    requires forall k :: i <= k < j ==> !Reseats(w.log[k].req, name)
    ensures SeatOf(w.history[j].members, name) == SeatOf(w.history[i].members, name)
  {
    if i < j {
      SeatStays(w, i, j - 1, name);
      assert !Reseats(w.log[j - 1].req, name);
      SeatStepAt(w, j - 1, name);
    }
  }

  lemma SeatStepAt(w: World, k: nat, name: string)
    requires WorldInv(w) && k < |w.log| && SeatOf(w.history[k].members, name).Some? && !Reseats(w.log[k].req, name)
    ensures SeatOf(w.history[k + 1].members, name) == SeatOf(w.history[k].members, name)
  {
    assert Serial(w, k);
    SeatStep(w.history[k], w.log[k].req, w.log[k].at, name);
  }

  lemma SeatStep(r: Room, req: Request, now: int, name: string)
    requires Body(r, req, now).Committed? && SeatOf(r.members, name).Some? && !Reseats(req, name)
    ensures SeatOf(Body(r, req, now).room.members, name) == SeatOf(r.members, name)
  {
    BodySeats(r, req, now);
    match req
    case Post(sender, _, _, p) => BindingEffect(r.members, sender, p, name);
    case BindSeat(sender, p) => BindingEffect(r.members, sender, p, name);
    case SetSeat(n, machine, _, _) => ReseatEffect(r.members, n, machine, name);
    case _ =>
  }

  // Between two owner reassignments of a seat, one machine alone posts from it.
  lemma OneMachinePerSeat(w: World, steps: seq<Step>, i: nat, j: nat)
    requires Init(w) && Runs(w, steps) && i < j < |After(w, steps).log|
    requires var log := After(w, steps).log;
             && log[i].req.Post? && log[j].req.Post? && log[i].req.sender == log[j].req.sender
             && log[i].req.principal.MachineToken? && log[j].req.principal.MachineToken?
             && forall k :: i < k < j ==> !Reseats(log[k].req, log[i].req.sender)
    ensures After(w, steps).log[i].req.principal == After(w, steps).log[j].req.principal
  {
    RunsKeepInv(w, steps);
    var t := After(w, steps);
    PostBindsSeat(t, i);
    PostBindsSeat(t, j);
    SeatStays(t, i + 1, j + 1, t.log[i].req.sender);
  }

  // ---------- The clock and the deletion of the room ----------

  lemma ClockAndDeletion(w: World, step: Step)
    requires w.history != [] && Enabled(w, step)
    ensures Next(w, step).now == w.now + (if step.Tick? then step.amount else 0)
    ensures Next(w, step).gone <==> w.gone || step.DropRoom?
  {
  }

  // Once the room is deleted, nothing is ever written to it again, whatever callers were
  // on their way.
  lemma {:induction false} NothingAfterDeletion(w: World, steps: seq<Step>)
    requires w.history != [] && Runs(w, steps) && w.gone && LockFree(w)
    ensures var t := After(w, steps); t.gone && t.history == w.history && t.log == w.log
    decreases |steps|
  {
    if steps != [] {
      DeletedStep(w, steps[0]);
      NothingAfterDeletion(Next(w, steps[0]), steps[1..]);
    }
  }

  lemma DeletedStep(w: World, step: Step)
    requires w.history != [] && Enabled(w, step) && w.gone && LockFree(w)
    ensures var t := Next(w, step); t.gone && LockFree(t) && t.history == w.history && t.log == w.log
  {
  }
}
