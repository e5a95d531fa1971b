// Any number of deposit calls racing: look up, validate, insert in one transaction
// (three attempts), answer. Calls may share a deposit id, whatever their bodies.
module DepositLog {
  import opened Common
  import opened Knowledge

  const MAX_INSERT_ATTEMPTS := 3

  datatype Body = Body(id: nat, project: nat, events: nat, handoff: bool, items: seq<Item>, paths: seq<nat>)
  datatype Doc = Doc(project: nat, path: nat, version: nat, deposit: nat)
  datatype Row = Row(project: nat, stub: bool, knowledge: seq<Ack>, documents: seq<Doc>)

  // Created entries and raised flags, with the deposit that wrote them.
  datatype NewEntry = NewEntry(id: nat, supersedes: seq<nat>, deposit: nat)
  datatype NewFlag = NewFlag(entry: nat, related: nat, deposit: nat)

  // The knowledge compartment of one attempt: which entries it created, which flags it
  // raised and which stored entries it marked superseded or retired.
  datatype Work = Work(acks: seq<Ack>, entries: seq<NewEntry>, flags: seq<NewFlag>, marks: map<nat, Status>)

  // Projects and entries stored before the first call.
  datatype Before = Before(projects: set<nat>, status: map<nat, Status>)

  // `events` and `handoffs` hold a deposit's id once per stored row; `status` is the
  // status column of every entry.
  datatype Db = Db(projects: set<nat>, deposits: map<nat, Row>, events: multiset<nat>, handoffs: multiset<nat>,
                   entries: seq<NewEntry>, status: map<nat, Status>, flags: seq<NewFlag>, docs: seq<Doc>)

  // What one attempt has flushed but not committed; the knowledge comes before the documents.
  datatype Txn = Txn(stub: bool, work: Option<Work>, docs: seq<Doc>)

  datatype Answer =
    | Accepted(id: nat, replayed: bool, project: nat, stub: bool, events: nat, handoff: bool,
               knowledge: seq<Ack>, documents: seq<Doc>)
    | Rejected
    | ConflictRetry

  datatype Phase =
    | Arrived
    | Unknown                                  // the id was not stored when looked up
    | Ready(attempt: nat)
    | Inserting(attempt: nat, txn: Txn)
    | RolledBack(attempt: nat)
    | Answering(row: Row, replayed: bool)
    | Done(answer: Answer)

  datatype Call = Call(body: Body, phase: Phase)
  datatype Commit = Commit(call: nat, body: Body, txn: Txn)

  // `log` is the history of commits, oldest first.
  datatype State = State(start: Before, db: Db, calls: seq<Call>, log: seq<Commit>)

  // ---------- Document versions ----------

  predicate IsKey(d: Doc, project: nat, path: nat) {
    d.project == project && d.path == path
  }

  function Count(docs: seq<Doc>, project: nat, path: nat): nat {
    if docs == [] then 0
    else Count(docs[..|docs| - 1], project, path) + (if IsKey(docs[|docs| - 1], project, path) then 1 else 0)
  }

  // Zero when there is none.
  function MaxVersion(docs: seq<Doc>, project: nat, path: nat): nat {
    if docs == [] then 0
    else
      var before := MaxVersion(docs[..|docs| - 1], project, path);
      var last := docs[|docs| - 1];
      if IsKey(last, project, path) && last.version > before then last.version else before
  }

  predicate Taken(docs: seq<Doc>, d: Doc) {
    exists o :: o in docs && IsKey(o, d.project, d.path) && o.version == d.version
  }

  predicate AllFree(committed: seq<Doc>, own: seq<Doc>) {
    forall k :: 0 <= k < |own| ==> !Taken(committed, own[k])
  }

  // In commit order, every path of every project counts 1, 2, 3, ...
  ghost predicate Contiguous(docs: seq<Doc>) {
    forall k :: 0 <= k < |docs| ==> docs[k].version == 1 + Count(docs[..k], docs[k].project, docs[k].path)
  }

  lemma CountSnoc(docs: seq<Doc>, d: Doc, project: nat, path: nat)
    ensures Count(docs + [d], project, path) == Count(docs, project, path) + if IsKey(d, project, path) then 1 else 0
    ensures MaxVersion(docs + [d], project, path) ==
            if IsKey(d, project, path) && d.version > MaxVersion(docs, project, path) then d.version
            else MaxVersion(docs, project, path)
  {
    assert (docs + [d])[..|docs|] == docs;
  }

  lemma ContiguousSnoc(docs: seq<Doc>, d: Doc)
    requires Contiguous(docs) && d.version == 1 + Count(docs, d.project, d.path)
    ensures Contiguous(docs + [d])
  {
    forall k | 0 <= k < |docs + [d]|
      ensures (docs + [d])[k].version == 1 + Count((docs + [d])[..k], (docs + [d])[k].project, (docs + [d])[k].path)
    {
      assert (docs + [d])[..k] == docs[..k];
    }
  }

  lemma ContiguousPrefix(docs: seq<Doc>)
    requires Contiguous(docs) && docs != []
    ensures Contiguous(docs[..|docs| - 1])
  {
    var rest := docs[..|docs| - 1];
    forall k | 0 <= k < |rest| ensures rest[k].version == 1 + Count(rest[..k], rest[k].project, rest[k].path) {
      assert rest[..k] == docs[..k] && rest[k] == docs[k];
    }
  }

  lemma {:induction false} ContiguousMax(docs: seq<Doc>, project: nat, path: nat)
    requires Contiguous(docs)
    ensures MaxVersion(docs, project, path) == Count(docs, project, path)
  {
    if docs != [] {
      ContiguousPrefix(docs);
      ContiguousMax(docs[..|docs| - 1], project, path);
    }
  }

  // A contiguous table holds every version from 1 to the count, once, and no other.
  lemma {:induction false} VersionsAreExactly(docs: seq<Doc>, project: nat, path: nat, v: nat)
    requires Contiguous(docs)
    ensures |VersionHolders(docs, project, path, v)| == if 1 <= v <= Count(docs, project, path) then 1 else 0
  {
    if docs != [] {
      ContiguousPrefix(docs);
      VersionsAreExactly(docs[..|docs| - 1], project, path, v);
    }
  }

  function VersionHolders(docs: seq<Doc>, project: nat, path: nat, v: nat): (r: seq<Doc>)
    ensures forall d :: d in r <==> d in docs && IsKey(d, project, path) && d.version == v
  {
    if docs == [] then []
    else
      var last := docs[|docs| - 1];
      assert docs == docs[..|docs| - 1] + [last];
      VersionHolders(docs[..|docs| - 1], project, path, v)
      + (if IsKey(last, project, path) && last.version == v then [last] else [])
  }

  lemma VersionsUpToCountAreTaken(docs: seq<Doc>, d: Doc)
    requires Contiguous(docs)
    ensures 1 <= d.version <= Count(docs, d.project, d.path) ==> Taken(docs, d)
  {
    VersionsAreExactly(docs, d.project, d.path, d.version);
    var held := VersionHolders(docs, d.project, d.path, d.version);
    if 1 <= d.version <= Count(docs, d.project, d.path) {
      assert held[0] in held;
    }
  }

  // ---------- One attempt ----------

  // The version the next document of an attempt gets: its reads see the committed
  // table and the attempt's own rows.
  function NextDoc(committed: seq<Doc>, body: Body, own: seq<Doc>): Doc
    requires |own| < |body.paths|
  {
    var path := body.paths[|own|];
    var a, b := MaxVersion(committed, body.project, path), MaxVersion(own, body.project, path);
    Doc(body.project, path, (if a > b then a else b) + 1, body.id)
  }

  // ---------- The knowledge compartment ----------

  // One acknowledgment per item, one entry per created item, in order.
  predicate Answers(items: seq<Item>, acks: seq<Ack>, entries: seq<NewEntry>) {
    if items == [] then acks == [] && entries == []
    else
      acks != [] &&
      match items[0]
      case Retire(t) => acks[0] == RetiredAck(t) && Answers(items[1..], acks[1..], entries)
      case Create(supersedes, _, _, _, _) =>
        && entries != [] && acks[0] == CreatedAck(entries[0].id) && entries[0].supersedes == supersedes
        && Answers(items[1..], acks[1..], entries[1..])
  }

  // Some item retires or supersedes the entry; some item retires it.
  predicate Names(items: seq<Item>, x: nat) {
    exists i :: 0 <= i < |items| && (if items[i].Retire? then items[i].target == x else x in items[i].supersedes)
  }

  predicate Retires(items: seq<Item>, x: nat) {
    exists i :: 0 <= i < |items| && items[i].Retire? && items[i].target == x
  }

  // Only named entries are marked, and a retired one always is. A superseded one is left
  // alone only when it was seen inactive, which is then for ever; seen active, it is
  // written even if another deposit has changed it since.
  ghost predicate MarksOk(status: map<nat, Status>, items: seq<Item>, marks: map<nat, Status>) {
    && (forall x :: x in marks ==> Names(items, x) && marks[x] == if Retires(items, x) then Retired else Superseded)
    && (forall x :: Retires(items, x) ==> x in marks)
    && (forall x :: Names(items, x) ==> x in status && (x in marks || status[x] != Active))
  }

  // Which identifiers are drawn, which inactive parents were seen active and which flags
  // are raised depends on what the attempt's statements see, and is left open.
  ghost predicate WorkOk(status: map<nat, Status>, body: Body, w: Work) {
    && Answers(body.items, w.acks, w.entries)
    && (forall e :: e in w.entries ==> e.deposit == body.id)
    && (forall i, j :: 0 <= i < j < |w.entries| ==> w.entries[i].id != w.entries[j].id)
    && (forall f :: f in w.flags ==> f.deposit == body.id)
    && MarksOk(status, body.items, w.marks)
  }

  function CreatedStatus(entries: seq<NewEntry>): map<nat, Status> {
    map e | e in entries :: e.id := Active
  }

  function StatusAfter(status: map<nat, Status>, w: Work): map<nat, Status> {
    status + CreatedStatus(w.entries) + w.marks
  }

  // ---------- Commits ----------

  function WorkOf(txn: Txn): Work {
    if txn.work.Some? then txn.work.value else Work([], [], [], map[])
  }

  function RowOf(c: Commit): Row {
    Row(c.body.project, c.txn.stub, WorkOf(c.txn).acks, c.txn.docs)
  }

  function Applied(db: Db, c: Commit): Db {
    var w := WorkOf(c.txn);
    Db(db.projects + {c.body.project},
       db.deposits[c.body.id := RowOf(c)],
       db.events + multiset{}[c.body.id := c.body.events],
       db.handoffs + (if c.body.handoff then multiset{c.body.id} else multiset{}),
       db.entries + w.entries, StatusAfter(db.status, w), db.flags + w.flags,
       db.docs + c.txn.docs)
  }

  function Effects(start: Before, log: seq<Commit>): Db {
    if log == [] then Db(start.projects, map[], multiset{}, multiset{}, [], start.status, [], [])
    else Applied(Effects(start, log[..|log| - 1]), log[|log| - 1])
  }

  // The unique keys a commit needs: the deposit id, the stub's name, each new entry's
  // identifier, each version.
  predicate CanCommit(db: Db, body: Body, txn: Txn) {
    && txn.work.Some? && |txn.docs| == |body.paths|
    && body.id !in db.deposits
    && (txn.stub ==> body.project !in db.projects)
    && FreshIds(db.status, txn.work.value.entries)
    && AllFree(db.docs, txn.docs)
  }

  predicate FreshIds(status: map<nat, Status>, entries: seq<NewEntry>) {
    forall e :: e in entries ==> e.id !in status
  }

  function BuildAck(db: Db, id: nat, row: Row, replayed: bool): Answer {
    Accepted(id, replayed, row.project, row.stub, db.events[id], db.handoffs[id] > 0, row.knowledge, row.documents)
  }

  // ---------- Steps ----------

  datatype Step =
    | Lookup(a: nat)
    | Validate(a: nat, ok: bool)
    | Start(a: nat)
    | Knowledge(a: nat, work: Option<Work>)       // None: a retire target went inactive
    | InsertDocument(a: nat)
    | CommitIt(a: nat)
    | Collide(a: nat)                             // a unique index refused a row
    | Recover(a: nat)
    | Reply(a: nat)

  ghost predicate Enabled(s: State, t: Step) {
    t.a < |s.calls|
    && var body, phase := s.calls[t.a].body, s.calls[t.a].phase;
       match t
       case Lookup(_) => phase.Arrived?
       case Validate(_, _) => phase.Unknown?
       case Start(_) => phase.Ready?
       case Knowledge(_, work) =>
         phase.Inserting? && phase.txn.work == None && (work.Some? ==> WorkOk(s.db.status, body, work.value))
       case InsertDocument(_) => phase.Inserting? && phase.txn.work.Some? && |phase.txn.docs| < |body.paths|
       case CommitIt(_) => phase.Inserting? && CanCommit(s.db, body, phase.txn)
       case Collide(_) => phase.Inserting?
       case Recover(_) => phase.RolledBack?
       case Reply(_) => phase.Answering?
  }

  function NextPhase(db: Db, body: Body, phase: Phase, t: Step): Phase {
    match t
    case Lookup(_) => if body.id in db.deposits then Answering(db.deposits[body.id], true) else Unknown
    case Validate(_, ok) => if ok then Ready(1) else Done(Rejected)
    case Start(_) => if phase.Ready? then Inserting(phase.attempt, Txn(body.project !in db.projects, None, [])) else phase
    case Knowledge(_, work) =>
      if work == None || !phase.Inserting? then Done(Rejected) else phase.(txn := phase.txn.(work := work))
    case InsertDocument(_) =>
      if phase.Inserting? && |phase.txn.docs| < |body.paths|
      then phase.(txn := phase.txn.(docs := phase.txn.docs + [NextDoc(db.docs, body, phase.txn.docs)])) else phase
    case CommitIt(_) => if phase.Inserting? then Answering(RowOf(Commit(t.a, body, phase.txn)), false) else phase
    case Collide(_) => if phase.Inserting? then RolledBack(phase.attempt) else phase
    case Recover(_) =>
      if body.id in db.deposits then Answering(db.deposits[body.id], true)
      else if phase.RolledBack? && phase.attempt < MAX_INSERT_ATTEMPTS then Ready(phase.attempt + 1)
      else Done(ConflictRetry)
    case Reply(_) => if phase.Answering? then Done(BuildAck(db, body.id, phase.row, phase.replayed)) else phase
  }

  ghost function Next(s: State, t: Step): State
    requires Enabled(s, t)
  {
    var call := s.calls[t.a];
    var calls := s.calls[t.a := call.(phase := NextPhase(s.db, call.body, call.phase, t))];
    if t.CommitIt? then
      var c := Commit(t.a, call.body, call.phase.txn);
      State(s.start, Applied(s.db, c), calls, s.log + [c])
    else State(s.start, s.db, calls, s.log)
  }

  ghost predicate Runs(s: State, steps: seq<Step>)
    decreases |steps|
  {
    steps == [] || (Enabled(s, steps[0]) && Runs(Next(s, steps[0]), steps[1..]))
  }

  ghost function After(s: State, steps: seq<Step>): State
    requires Runs(s, steps)
    decreases |steps|
  {
    if steps == [] then s else After(Next(s, steps[0]), steps[1..])
  }

  predicate Init(s: State) {
    && s.db == Effects(s.start, []) && s.log == []
    && forall i :: 0 <= i < |s.calls| ==> s.calls[i].phase == Arrived
  }

  // ---------- What each deposit left in the tables ----------

  predicate IdsDistinct(log: seq<Commit>) {
    forall i, j :: 0 <= i < j < |log| ==> log[i].body.id != log[j].body.id
  }

  predicate Logged(log: seq<Commit>, id: nat) {
    exists c :: c in log && c.body.id == id
  }

  // Everything a commit writes carries its deposit's id.
  predicate OwnRows(c: Commit) {
    && (forall d :: d in c.txn.docs ==> d.deposit == c.body.id)
    && (forall e :: e in WorkOf(c.txn).entries ==> e.deposit == c.body.id)
    && (forall f :: f in WorkOf(c.txn).flags ==> f.deposit == c.body.id)
  }

  function DocOwner(d: Doc): nat { d.deposit }
  function EntryOwner(e: NewEntry): nat { e.deposit }
  function FlagOwner(f: NewFlag): nat { f.deposit }

  // The rows of a table that belong to one deposit.
  function Of<T>(rows: seq<T>, owner: T -> nat, id: nat): seq<T> {
    if rows == [] then []
    else Of(rows[..|rows| - 1], owner, id) + (if owner(rows[|rows| - 1]) == id then [rows[|rows| - 1]] else [])
  }

  lemma {:induction false} OfAppend<T>(a: seq<T>, b: seq<T>, owner: T -> nat, id: nat)
    ensures Of(a + b, owner, id) == Of(a, owner, id) + Of(b, owner, id)
  {
    if b == [] {
      assert a + b == a;
    } else {
      var rest, last := b[..|b| - 1], b[|b| - 1];
      assert (a + b)[..|a + b| - 1] == a + rest;
      OfAppend(a, rest, owner, id);
    }
  }

  lemma {:induction false} OfOne<T>(rows: seq<T>, owner: T -> nat, own: nat, id: nat)
    requires forall r :: r in rows ==> owner(r) == own
    ensures Of(rows, owner, id) == if id == own then rows else []
  {
    if rows != [] {
      var rest := rows[..|rows| - 1];
      assert rows == rest + [rows[|rows| - 1]];
      OfOne(rest, owner, own, id);
    }
  }

  // What one more commit adds to the rows of deposit `id`.
  lemma CommitAddsRows(db: Db, c: Commit, id: nat)
    requires OwnRows(c)
    ensures var t, w := Applied(db, c), WorkOf(c.txn);
            && Of(t.docs, DocOwner, id) == Of(db.docs, DocOwner, id) + (if id == c.body.id then c.txn.docs else [])
            && Of(t.entries, EntryOwner, id) == Of(db.entries, EntryOwner, id) + (if id == c.body.id then w.entries else [])
            && Of(t.flags, FlagOwner, id) == Of(db.flags, FlagOwner, id) + (if id == c.body.id then w.flags else [])
  {
    var w := WorkOf(c.txn);
    OfAppend(db.docs, c.txn.docs, DocOwner, id);
    OfAppend(db.entries, w.entries, EntryOwner, id);
    OfAppend(db.flags, w.flags, FlagOwner, id);
    OfOne(c.txn.docs, DocOwner, c.body.id, id);
    OfOne(w.entries, EntryOwner, c.body.id, id);
    OfOne(w.flags, FlagOwner, c.body.id, id);
  }

  predicate NothingOf(db: Db, id: nat) {
    && id !in db.deposits && db.events[id] == 0 && db.handoffs[id] == 0
    && Of(db.docs, DocOwner, id) == [] && Of(db.entries, EntryOwner, id) == [] && Of(db.flags, FlagOwner, id) == []
  }

  lemma {:induction false} NothingStoredFor(start: Before, log: seq<Commit>, id: nat)
    requires !Logged(log, id) && forall c :: c in log ==> OwnRows(c)
    ensures NothingOf(Effects(start, log), id)
  {
    if log != [] {
      var rest, last := log[..|log| - 1], log[|log| - 1];
      assert last in log;
      NothingStoredFor(start, rest, id);
      CommitAddsRows(Effects(start, rest), last, id);
    }
  }

  // Row, events, handoff, created entries, flags and documents: those of `c`, once.
  predicate StoredOnce(db: Db, c: Commit) {
    var id, w := c.body.id, WorkOf(c.txn);
    && id in db.deposits && db.deposits[id] == RowOf(c)
    && db.events[id] == c.body.events && db.handoffs[id] == (if c.body.handoff then 1 else 0)
    && Of(db.docs, DocOwner, id) == c.txn.docs
    && Of(db.entries, EntryOwner, id) == w.entries && Of(db.flags, FlagOwner, id) == w.flags
  }

  // Everything the tables hold for a committed deposit is what that one commit wrote.
  lemma {:induction false} StoredExactlyOnce(start: Before, log: seq<Commit>, k: nat)
    requires k < |log| && IdsDistinct(log) && forall c :: c in log ==> OwnRows(c)
    ensures StoredOnce(Effects(start, log), log[k])
  {
    var rest, last := log[..|log| - 1], log[|log| - 1];
    assert log == rest + [last] && last in log;
    if k < |rest| {
      StoredExactlyOnce(start, rest, k);
      OtherCommitKeeps(Effects(start, rest), last, log[k]);
    } else {
      NothingStoredFor(start, rest, last.body.id);
      FirstCommitStores(Effects(start, rest), last);
    }
  }

  lemma OtherCommitKeeps(db: Db, next: Commit, c: Commit)
    requires StoredOnce(db, c) && OwnRows(next) && next.body.id != c.body.id
    ensures StoredOnce(Applied(db, next), c)
  {
    CommitAddsRows(db, next, c.body.id);
  }

  lemma FirstCommitStores(db: Db, c: Commit)
    requires OwnRows(c) && NothingOf(db, c.body.id)
    ensures StoredOnce(Applied(db, c), c)
  {
    CommitAddsRows(db, c, c.body.id);
  }

  // ---------- Statuses ----------

  // A commit creates entries under new identifiers and marks what its items name.
  ghost predicate StatusStep(status: map<nat, Status>, c: Commit) {
    FreshIds(status, WorkOf(c.txn).entries) && MarksOk(status, c.body.items, WorkOf(c.txn).marks)
  }

  ghost predicate StatusSteps(status: map<nat, Status>, log: seq<Commit>) {
    log == [] || (StatusSteps(status, log[..|log| - 1])
                  && StatusStep(Statuses(status, log[..|log| - 1]), log[|log| - 1]))
  }

  function Statuses(status: map<nat, Status>, log: seq<Commit>): map<nat, Status> {
    if log == [] then status else StatusAfter(Statuses(status, log[..|log| - 1]), WorkOf(log[|log| - 1].txn))
  }

  lemma {:induction false} EffectsStatus(start: Before, log: seq<Commit>)
    ensures Effects(start, log).status == Statuses(start.status, log)
  {
    if log != [] {
      EffectsStatus(start, log[..|log| - 1]);
    }
  }

  // Some commit of the log created the entry; some commit's items retire or supersede it.
  predicate CreatedBy(log: seq<Commit>, x: nat) {
    log != [] && (CreatedBy(log[..|log| - 1], x) || x in CreatedStatus(WorkOf(log[|log| - 1].txn).entries))
  }

  predicate NamedBy(log: seq<Commit>, x: nat) {
    log != [] && (NamedBy(log[..|log| - 1], x) || Names(log[|log| - 1].body.items, x))
  }

  // Although parents are not locked and later marks overwrite earlier ones: an entry is
  // stored exactly if it was there before or some commit created it, and it is active
  // exactly if it began active and no commit's items retire or supersede it.
  lemma {:induction false} StatusIff(before: map<nat, Status>, log: seq<Commit>, x: nat)
    requires StatusSteps(before, log)
    ensures var status := Statuses(before, log);
            && (x in status <==> x in before || CreatedBy(log, x))
            && (NamedBy(log, x) ==> x in status)
            && (x in status ==> (status[x] == Active <==> (x in before ==> before[x] == Active) && !NamedBy(log, x)))
  {
    if log != [] {
      var rest, last := log[..|log| - 1], log[|log| - 1];
      StatusIff(before, rest, x);
      AppliedStatus(Statuses(before, rest), last, x);
    }
  }

  lemma AppliedStatus(status: map<nat, Status>, c: Commit, x: nat)
    requires StatusStep(status, c)
    ensures var w := WorkOf(c.txn); var t := StatusAfter(status, w);
            && (x in t <==> x in status || x in CreatedStatus(w.entries))
            && (Names(c.body.items, x) ==> x in status && x in t && t[x] != Active)
            && (x in status ==> x !in CreatedStatus(w.entries))
            && (x in status && status[x] != Active ==> x in t && t[x] != Active)
            && (x in t && !Names(c.body.items, x) ==> t[x] == if x in status then status[x] else Active)
  {
    if x in WorkOf(c.txn).marks { assert Names(c.body.items, x); }
  }

  // ---------- Lineages ----------

  // The parents of an acknowledged entry are named by its deposit's items.
  lemma {:induction false} ParentsAreNamed(items: seq<Item>, acks: seq<Ack>, entries: seq<NewEntry>, e: NewEntry, p: nat)
    requires Answers(items, acks, entries) && e in entries && p in e.supersedes
    ensures Names(items, p)
    decreases |items|
  {
    var rest := items[1..];
    if items[0].Create? && e == entries[0] {
      assert p in items[0].supersedes;
    } else {
      var later := if items[0].Create? then entries[1..] else entries;
      assert items[0].Create? ==> entries == [entries[0]] + later;
      ParentsAreNamed(rest, acks[1..], later, e, p);
      var i :| 0 <= i < |rest| && (if rest[i].Retire? then rest[i].target == p else p in rest[i].supersedes);
      assert items[i + 1] == rest[i];
    }
  }

  lemma {:induction false} StatusStepsPrefix(before: map<nat, Status>, log: seq<Commit>, k: nat)
    requires StatusSteps(before, log) && k < |log|
    ensures StatusSteps(before, log[..k]) && StatusStep(Statuses(before, log[..k]), log[k])
  {
    var rest := log[..|log| - 1];
    if k < |rest| {
      StatusStepsPrefix(before, rest, k);
      assert rest[..k] == log[..k];
    }
  }

  lemma {:induction false} CreatedStays(log: seq<Commit>, k: nat, x: nat)
    requires k <= |log| && CreatedBy(log[..k], x)
    ensures CreatedBy(log, x)
  {
    if k < |log| {
      var rest := log[..|log| - 1];
      assert rest[..k] == log[..k];
      CreatedStays(rest, k, x);
    } else {
      assert log[..k] == log;
    }
  }

  // What was there when commit `k` came: not its own entries, but all their parents.
  lemma ParentsPrecede(before: map<nat, Status>, log: seq<Commit>, k: nat, e: NewEntry, p: nat)
    requires StatusSteps(before, log) && k < |log| && CommitOk(log[k])
    requires e in WorkOf(log[k].txn).entries
    ensures e.id !in before && !CreatedBy(log[..k], e.id)
    ensures p in e.supersedes ==> p in before || CreatedBy(log[..k], p)
  {
    StatusStepsPrefix(before, log, k);
    StatusIff(before, log[..k], e.id);
    if p in e.supersedes {
      ParentsAreNamed(log[k].body.items, WorkOf(log[k].txn).acks, WorkOf(log[k].txn).entries, e, p);
      StatusIff(before, log[..k], p);
    }
  }

  lemma CreatedAt(log: seq<Commit>, k: nat, e: NewEntry)
    requires k < |log| && e in WorkOf(log[k].txn).entries
    ensures CreatedBy(log[..k + 1], e.id)
  {
    assert log[..k + 1][..k] == log[..k];
    assert e.id in CreatedStatus(WorkOf(log[k].txn).entries);
  }

  // An entry named as a parent, if a deposit created it, was created by an earlier commit.
  lemma ParentIsEarlier(before: map<nat, Status>, log: seq<Commit>, k: nat, e: NewEntry, j: nat, parent: NewEntry)
    requires StatusSteps(before, log) && k < |log| && CommitOk(log[k]) && e in WorkOf(log[k].txn).entries
    requires j < |log| && CommitOk(log[j]) && parent in WorkOf(log[j].txn).entries && parent.id in e.supersedes
    ensures j < k
  {
    ParentsPrecede(before, log, k, e, parent.id);
    ParentsPrecede(before, log, j, parent, 0);
    if k <= j {
      assert log[..j][..k] == log[..k];
      CreatedStays(log[..j], k, parent.id);
    }
  }

  // A walk along `supersedes` through entries that deposits created: `at[i]` is the
  // commit that created `path[i]`.
  predicate IsLineage(log: seq<Commit>, path: seq<NewEntry>, at: seq<nat>) {
    && |path| == |at|
    && (forall i :: 0 <= i < |at| ==> at[i] < |log| && path[i] in WorkOf(log[at[i]].txn).entries)
    && forall i :: 0 <= i < |at| - 1 ==> path[i + 1].id in path[i].supersedes
  }

  lemma {:induction false} LineageGoesBack(before: map<nat, Status>, log: seq<Commit>, path: seq<NewEntry>, at: seq<nat>, i: nat, j: nat)
    requires StatusSteps(before, log) && (forall c :: c in log ==> CommitOk(c))
    requires IsLineage(log, path, at) && i < j < |at|
    ensures at[j] < at[i]
  {
    assert path[j - 1 + 1].id in path[j - 1].supersedes;
    ParentIsEarlier(before, log, at[j - 1], path[j - 1], at[j], path[j]);
    if i < j - 1 {
      LineageGoesBack(before, log, path, at, i, j - 1);
    }
  }

  // ---------- The invariant ----------

  // Each own version is beyond the attempt's earlier ones and no more than one past
  // whatever is committed by now.
  ghost predicate TxnInv(committed: seq<Doc>, body: Body, own: seq<Doc>) {
    && |own| <= |body.paths|
    && forall k :: 0 <= k < |own| ==> OwnDocOk(committed, body, own, k)
  }

  ghost predicate OwnDocOk(committed: seq<Doc>, body: Body, own: seq<Doc>, k: nat)
    requires k < |own| <= |body.paths|
  {
    var d, m := own[k], MaxVersion(own[..k], body.project, body.paths[k]);
    && d.project == body.project && d.path == body.paths[k] && d.deposit == body.id
    && m < d.version
    && (d.version <= 1 + m || d.version <= 1 + Count(committed, d.project, d.path))
  }

  function AckOf(c: Commit, replayed: bool): Answer {
    Accepted(c.body.id, replayed, c.body.project, c.txn.stub, c.body.events, c.body.handoff, WorkOf(c.txn).acks, c.txn.docs)
  }

  ghost predicate WorkInv(status: map<nat, Status>, body: Body, txn: Txn) {
    txn.work.Some? ==> WorkOk(status, body, txn.work.value)
  }

  // A commit did its body's items, and wrote only rows of its own.
  predicate CommitOk(c: Commit) {
    && OwnRows(c) && Answers(c.body.items, WorkOf(c.txn).acks, WorkOf(c.txn).entries)
    && |c.txn.docs| == |c.body.paths|
    && (forall k :: 0 <= k < |c.txn.docs| ==> IsKey(c.txn.docs[k], c.body.project, c.body.paths[k]))
  }

  // A commit creates the stub of its project exactly when nothing registered it before.
  predicate StubsOk(start: Before, log: seq<Commit>) {
    log == [] || (StubsOk(start, log[..|log| - 1])
                  && var last := log[|log| - 1];
                     last.txn.stub <==> last.body.project !in Effects(start, log[..|log| - 1]).projects)
  }

  predicate Registers(log: seq<Commit>, project: nat) {
    exists c :: c in log && c.body.project == project
  }

  lemma {:induction false} ProjectsIff(start: Before, log: seq<Commit>, project: nat)
    ensures project in Effects(start, log).projects <==> project in start.projects || Registers(log, project)
  {
    if log != [] {
      var rest, last := log[..|log| - 1], log[|log| - 1];
      assert log == rest + [last];
      ProjectsIff(start, rest, project);
      assert last in log && forall c :: c in rest ==> c in log;
    }
  }

  lemma {:induction false} StubsPrefix(start: Before, log: seq<Commit>, k: nat)
    requires StubsOk(start, log) && k < |log|
    ensures log[k].txn.stub <==> log[k].body.project !in Effects(start, log[..k]).projects
  {
    var rest := log[..|log| - 1];
    if k < |rest| {
      StubsPrefix(start, rest, k);
      assert rest[..k] == log[..k];
    }
  }

  // A call's commit is in the log exactly when it owes, or gave, a first answer.
  predicate Committer(phase: Phase) {
    (phase.Answering? && !phase.replayed) || (phase.Done? && phase.answer.Accepted? && !phase.answer.replayed)
  }

  ghost predicate CallInv(s: State, i: nat)
    requires i < |s.calls|
  {
    var body, phase := s.calls[i].body, s.calls[i].phase;
    && (phase.Inserting? ==> TxnInv(s.db.docs, body, phase.txn.docs) && WorkInv(s.db.status, body, phase.txn)
                             && (phase.txn.stub || body.project in s.db.projects))
    && (phase.Answering? ==> exists c :: c in s.log && c.body.id == body.id && phase.row == RowOf(c))
    && (phase.Done? && phase.answer.Accepted? ==>
          exists c :: c in s.log && c.body.id == body.id && phase.answer == AckOf(c, phase.answer.replayed))
    && (Committer(phase) <==> exists c :: c in s.log && c.call == i)
  }

  // Distinct ids, one commit per call, each in order.
  predicate LogIdsInv(log: seq<Commit>, calls: seq<Call>) {
    && IdsDistinct(log)
    && (forall i, j :: 0 <= i < j < |log| ==> log[i].call != log[j].call)
    && (forall c :: c in log ==> CommitOk(c) && c.call < |calls| && calls[c.call].body == c.body)
  }

  ghost predicate LogInv(s: State) {
    LogIdsInv(s.log, s.calls) && StatusSteps(s.start.status, s.log) && StubsOk(s.start, s.log)
  }

  ghost predicate Inv(s: State) {
    && s.db == Effects(s.start, s.log) && Contiguous(s.db.docs) && LogInv(s)
    && forall i: nat :: i < |s.calls| ==> CallInv(s, i)
  }

  // ---------- Commits keep versions contiguous ----------

  // Of an attempt's first `k` documents, those on one path: how many, and the highest.
  ghost predicate OwnSoFar(committed: seq<Doc>, before: seq<Doc>, project: nat, path: nat) {
    && Count(committed + before, project, path) == Count(committed, project, path) + Count(before, project, path)
    && MaxVersion(before, project, path) ==
         if Count(before, project, path) == 0 then 0 else Count(committed + before, project, path)
  }

  lemma NextVersion(committed: seq<Doc>, body: Body, own: seq<Doc>, k: nat)
    requires Contiguous(committed) && k < |own| <= |body.paths| && OwnDocOk(committed, body, own, k)
    requires !Taken(committed, own[k]) && OwnSoFar(committed, own[..k], body.project, body.paths[k])
    ensures own[k].version == 1 + Count(committed + own[..k], own[k].project, own[k].path)
  {
    VersionsUpToCountAreTaken(committed, own[k]);
  }

  lemma OwnGrows(committed: seq<Doc>, before: seq<Doc>, d: Doc, project: nat, path: nat)
    requires OwnSoFar(committed, before, project, path)
    requires d.version == 1 + Count(committed + before, d.project, d.path)
    ensures OwnSoFar(committed, before + [d], project, path)
  {
    assert committed + (before + [d]) == (committed + before) + [d];
    CountSnoc(before, d, project, path);
    CountSnoc(committed + before, d, project, path);
  }

  lemma {:induction false} OwnVersions(committed: seq<Doc>, body: Body, own: seq<Doc>, k: nat)
    requires Contiguous(committed) && TxnInv(committed, body, own) && AllFree(committed, own) && k <= |own|
    ensures Contiguous(committed + own[..k])
    ensures forall path :: OwnSoFar(committed, own[..k], body.project, path)
  {
    if k == 0 {
      assert committed + own[..0] == committed;
    } else {
      OwnVersions(committed, body, own, k - 1);
      OwnVersionsStep(committed, body, own, own[..k - 1]);
      assert own[..k] == own[..k - 1] + [own[k - 1]];
    }
  }

  lemma OwnVersionsStep(committed: seq<Doc>, body: Body, own: seq<Doc>, before: seq<Doc>)
    requires TxnInv(committed, body, own) && AllFree(committed, own) && Contiguous(committed)
    requires |before| < |own| && before == own[..|before|] && Contiguous(committed + before)
    requires forall path :: OwnSoFar(committed, before, body.project, path)
    ensures Contiguous(committed + (before + [own[|before|]]))
    ensures forall path :: OwnSoFar(committed, before + [own[|before|]], body.project, path)
  {
    var d := own[|before|];
    NextVersion(committed, body, own, |before|);
    ContiguousSnoc(committed + before, d);
    assert committed + (before + [d]) == (committed + before) + [d];
    forall path ensures OwnSoFar(committed, before + [d], body.project, path) {
      OwnGrows(committed, before, d, body.project, path);
    }
  }

  lemma CommitKeepsContiguous(db: Db, body: Body, txn: Txn)
    requires Contiguous(db.docs) && TxnInv(db.docs, body, txn.docs) && CanCommit(db, body, txn)
    ensures Contiguous(db.docs + txn.docs)
  {
    OwnVersions(db.docs, body, txn.docs, |txn.docs|);
    assert txn.docs[..|txn.docs|] == txn.docs;
  }

  lemma {:induction false} CountGrows(a: seq<Doc>, b: seq<Doc>, project: nat, path: nat)
    ensures Count(a, project, path) <= Count(a + b, project, path)
  {
    if b == [] {
      assert a + b == a;
    } else {
      var rest := b[..|b| - 1];
      CountGrows(a, rest, project, path);
      assert a + b == (a + rest) + [b[|b| - 1]];
      CountSnoc(a + rest, b[|b| - 1], project, path);
    }
  }

  lemma TxnSurvivesCommit(committed: seq<Doc>, more: seq<Doc>, body: Body, own: seq<Doc>)
    requires TxnInv(committed, body, own)
    ensures TxnInv(committed + more, body, own)
  {
    forall k | 0 <= k < |own| ensures OwnDocOk(committed + more, body, own, k) {
      assert OwnDocOk(committed, body, own, k);
      CountGrows(committed, more, own[k].project, own[k].path);
    }
  }

  lemma InsertKeepsTxn(committed: seq<Doc>, body: Body, own: seq<Doc>)
    requires Contiguous(committed) && TxnInv(committed, body, own) && |own| < |body.paths|
    ensures TxnInv(committed, body, own + [NextDoc(committed, body, own)])
  {
    var d := NextDoc(committed, body, own);
    ContiguousMax(committed, body.project, d.path);
    forall k | 0 <= k < |own + [d]| ensures OwnDocOk(committed, body, own + [d], k) {
      assert (own + [d])[..k] == own[..k];
      if k < |own| {
        assert OwnDocOk(committed, body, own, k);
      } else {
        assert own[..k] == own;
      }
    }
  }

  // ---------- Every step keeps the invariant ----------

  lemma RowAndAck(s: State, id: nat, row: Row, replayed: bool, c: Commit)
    requires Inv(s) && c in s.log && c.body.id == id && row == RowOf(c)
    ensures BuildAck(s.db, id, row, replayed) == AckOf(c, replayed)
  {
    var k :| 0 <= k < |s.log| && s.log[k] == c;
    StoredExactlyOnce(s.start, s.log, k);
  }

  lemma StoredRowIsLogged(s: State, id: nat)
    requires Inv(s)
    ensures id in s.db.deposits <==> Logged(s.log, id)
    ensures id in s.db.deposits ==> exists c :: c in s.log && c.body.id == id && s.db.deposits[id] == RowOf(c)
  {
    if Logged(s.log, id) {
      var c :| c in s.log && c.body.id == id;
      var k :| 0 <= k < |s.log| && s.log[k] == c;
      StoredExactlyOnce(s.start, s.log, k);
    } else {
      NothingStoredFor(s.start, s.log, id);
    }
  }

  ghost predicate FoundIfStored(s: State, id: nat) {
    id in s.db.deposits ==> exists c :: c in s.log && c.body.id == id && s.db.deposits[id] == RowOf(c)
  }

  // The two looks at the stored deposit: on arrival, and after a rollback.
  lemma LookupKeepsCall(s: State, t: Step)
    requires Enabled(s, t) && (t.Lookup? || t.Recover?) && CallInv(s, t.a)
    requires FoundIfStored(s, s.calls[t.a].body.id)
    ensures CallInv(Next(s, t), t.a)
  {
    var n, id := Next(s, t), s.calls[t.a].body.id;
    if id in s.db.deposits {
      var c :| c in s.log && c.body.id == id && s.db.deposits[id] == RowOf(c);
      FoundIsOk(n, t.a, c);
    } else {
      NotFoundIsOk(n, t.a);
    }
  }

  lemma FoundIsOk(n: State, i: nat, c: Commit)
    requires i < |n.calls| && n.calls[i].phase == Answering(RowOf(c), true)
    requires c in n.log && c.body.id == n.calls[i].body.id && !exists d :: d in n.log && d.call == i
    ensures CallInv(n, i)
  {
  }

  lemma NotFoundIsOk(n: State, i: nat)
    requires i < |n.calls| && !exists d :: d in n.log && d.call == i
    requires n.calls[i].phase.Unknown? || n.calls[i].phase.Ready? || n.calls[i].phase == Done(ConflictRetry)
    ensures CallInv(n, i)
  {
  }

  lemma PlainStepKeepsCall(s: State, t: Step)
    requires Inv(s) && Enabled(s, t) && (t.Validate? || t.Start? || t.Collide? || t.Knowledge?)
    ensures CallInv(Next(s, t), t.a)
  {
    assert CallInv(s, t.a);
  }

  lemma InsertKeepsCall(s: State, t: Step)
    requires Inv(s) && Enabled(s, t) && t.InsertDocument?
    ensures CallInv(Next(s, t), t.a)
  {
    assert CallInv(s, t.a);
    InsertKeepsTxn(s.db.docs, s.calls[t.a].body, s.calls[t.a].phase.txn.docs);
  }

  lemma ReplyKeepsCall(s: State, t: Step)
    requires Inv(s) && Enabled(s, t) && t.Reply?
    ensures CallInv(Next(s, t), t.a)
  {
    assert CallInv(s, t.a);
    var call := s.calls[t.a];
    var c :| c in s.log && c.body.id == call.body.id && call.phase.row == RowOf(c);
    RowAndAck(s, call.body.id, call.phase.row, call.phase.replayed, c);
    ReplyIsOk(s, t, c);
  }

  lemma ReplyIsOk(s: State, t: Step, c: Commit)
    requires Enabled(s, t) && t.Reply? && CallInv(s, t.a) && c in s.log && c.body.id == s.calls[t.a].body.id
    requires var phase := s.calls[t.a].phase;
             BuildAck(s.db, c.body.id, phase.row, phase.replayed) == AckOf(c, phase.replayed)
    ensures CallInv(Next(s, t), t.a)
  {
  }

  lemma OwnStepKeepsCall(s: State, t: Step)
    requires Inv(s) && Enabled(s, t) && !t.CommitIt?
    ensures CallInv(Next(s, t), t.a)
  {
    assert CallInv(s, t.a);
    if t.InsertDocument? { InsertKeepsCall(s, t); }
    else if t.Reply? { ReplyKeepsCall(s, t); }
    else if t.Lookup? || t.Recover? {
      StoredRowIsLogged(s, s.calls[t.a].body.id);
      LookupKeepsCall(s, t);
    }
    else { PlainStepKeepsCall(s, t); }
  }

  // Only a commit touches the tables and the log; a step changes one call's phase.
  lemma StepFrame(s: State, t: Step)
    requires Enabled(s, t) && !t.CommitIt?
    ensures var n := Next(s, t);
            && n.start == s.start && n.db == s.db && n.log == s.log && |n.calls| == |s.calls|
            && n.calls[t.a].body == s.calls[t.a].body
            && forall i :: 0 <= i < |s.calls| && i != t.a ==> n.calls[i] == s.calls[i]
  {
  }

  lemma OtherStepKeepsInv(s: State, t: Step)
    requires Inv(s) && Enabled(s, t) && !t.CommitIt?
    ensures Inv(Next(s, t))
  {
    var n := Next(s, t);
    StepFrame(s, t);
    SameBodies(s.log, s.calls, n.calls);
    forall i: nat | i < |n.calls| ensures CallInv(n, i) {
      if i == t.a { OwnStepKeepsCall(s, t); } else { SameCall(s, n, i); }
    }
  }

  lemma SameBodies(log: seq<Commit>, calls: seq<Call>, after: seq<Call>)
    requires LogIdsInv(log, calls) && |after| == |calls|
    requires forall i :: 0 <= i < |calls| ==> after[i].body == calls[i].body
    ensures LogIdsInv(log, after)
  {
  }

  lemma SameCall(s: State, n: State, i: nat)
    requires Inv(s) && n.db == s.db && n.log == s.log && i < |s.calls| == |n.calls| && n.calls[i] == s.calls[i]
    ensures CallInv(n, i)
  {
    assert CallInv(s, i);
  }

  lemma CommitIsOk(db: Db, c: Commit)
    requires TxnInv(db.docs, c.body, c.txn.docs) && WorkInv(db.status, c.body, c.txn) && CanCommit(db, c.body, c.txn)
    ensures CommitOk(c) && StatusStep(db.status, c)
  {
    forall k | 0 <= k < |c.txn.docs| ensures IsKey(c.txn.docs[k], c.body.project, c.body.paths[k]) {
      assert OwnDocOk(db.docs, c.body, c.txn.docs, k);
    }
    forall d | d in c.txn.docs ensures d.deposit == c.body.id {
      var k :| 0 <= k < |c.txn.docs| && c.txn.docs[k] == d;
      assert OwnDocOk(db.docs, c.body, c.txn.docs, k);
    }
  }

  lemma CommitKeepsLog(s: State, t: Step)
    requires Inv(s) && Enabled(s, t) && t.CommitIt?
    ensures LogIdsInv(Next(s, t).log, Next(s, t).calls)
  {
    var call := s.calls[t.a];
    var c := Commit(t.a, call.body, call.phase.txn);
    assert CallInv(s, t.a);
    CommitIsOk(s.db, c);
    StoredRowIsLogged(s, call.body.id);
    LogGrows(s.log, s.calls, Next(s, t).calls, c);
  }

  lemma LogGrows(log: seq<Commit>, calls: seq<Call>, after: seq<Call>, c: Commit)
    requires LogIdsInv(log, calls) && CommitOk(c) && !Logged(log, c.body.id)
    requires c.call < |calls| && calls[c.call].body == c.body && !exists d :: d in log && d.call == c.call
    requires |after| == |calls| && forall i :: 0 <= i < |calls| ==> after[i].body == calls[i].body
    ensures LogIdsInv(log + [c], after)
  {
    assert forall k :: 0 <= k < |log| ==> log[k] in log;
  }

  lemma CommitKeepsStatus(s: State, t: Step)
    requires Inv(s) && Enabled(s, t) && t.CommitIt?
    ensures StatusSteps(s.start.status, Next(s, t).log) && StubsOk(s.start, Next(s, t).log)
  {
    var call := s.calls[t.a];
    var c, log := Commit(t.a, call.body, call.phase.txn), Next(s, t).log;
    assert CallInv(s, t.a);
    CommitIsOk(s.db, c);
    EffectsStatus(s.start, s.log);
    assert log[..|log| - 1] == s.log;
  }

  // A commit elsewhere removes no entry and makes none active again, so what an attempt
  // has flushed stays in order.
  lemma WorkSurvivesCommit(db: Db, c: Commit, body: Body, txn: Txn)
    requires WorkInv(db.status, body, txn) && StatusStep(db.status, c)
    ensures WorkInv(Applied(db, c).status, body, txn)
  {
    if txn.work.Some? {
      forall x | Names(body.items, x)
        ensures x in Applied(db, c).status && (x in txn.work.value.marks || Applied(db, c).status[x] != Active)
      {
        AppliedStatus(db.status, c, x);
      }
    }
  }

  lemma CommitKeepsInv(s: State, t: Step)
    requires Inv(s) && Enabled(s, t) && t.CommitIt?
    ensures Inv(Next(s, t))
  {
    var n, call := Next(s, t), s.calls[t.a];
    assert CallInv(s, t.a);
    CommitKeepsLog(s, t);
    CommitKeepsStatus(s, t);
    CommitKeepsContiguous(s.db, call.body, call.phase.txn);
    assert n.log[..|n.log| - 1] == s.log;
    forall i: nat | i < |n.calls| ensures CallInv(n, i) {
      if i == t.a { CommitKeepsOwnCall(s, t); } else { CommitKeepsOtherCall(s, t, i); }
    }
  }

  lemma CommitKeepsOwnCall(s: State, t: Step)
    requires Inv(s) && Enabled(s, t) && t.CommitIt?
    ensures CallInv(Next(s, t), t.a)
  {
    var c := Commit(t.a, s.calls[t.a].body, s.calls[t.a].phase.txn);
    assert c in Next(s, t).log;
  }

  lemma CommitKeepsOtherCall(s: State, t: Step, i: nat)
    requires Inv(s) && Enabled(s, t) && t.CommitIt? && i < |s.calls| && i != t.a
    ensures CallInv(Next(s, t), i)
  {
    var c := Commit(t.a, s.calls[t.a].body, s.calls[t.a].phase.txn);
    var n := Next(s, t);
    assert CallInv(s, i) && CallInv(s, t.a);
    CommitIsOk(s.db, c);
    assert forall x :: x in n.log <==> x in s.log || x == c;
    if s.calls[i].phase.Inserting? {
      TxnSurvivesCommit(s.db.docs, c.txn.docs, s.calls[i].body, s.calls[i].phase.txn.docs);
      WorkSurvivesCommit(s.db, c, s.calls[i].body, s.calls[i].phase.txn);
    }
  }

  lemma InvNext(s: State, t: Step)
    requires Inv(s) && Enabled(s, t)
    ensures Inv(Next(s, t))
  {
    if t.CommitIt? { CommitKeepsInv(s, t); } else { OtherStepKeepsInv(s, t); }
  }

  lemma InitInv(s: State)
    requires Init(s)
    ensures Inv(s)
  {
  }

  lemma {:induction false} RunInv(s: State, steps: seq<Step>)
    requires Inv(s) && Runs(s, steps)
    ensures Inv(After(s, steps))
    decreases |steps|
  {
    if steps != [] {
      InvNext(s, steps[0]);
      RunInv(Next(s, steps[0]), steps[1..]);
    }
  }

  // `t` is a state of some run that starts with every call just arrived.
  ghost predicate Reachable(s: State, steps: seq<Step>, t: State) {
    Init(s) && Runs(s, steps) && t == After(s, steps)
  }

  lemma ReachableInv(s: State, steps: seq<Step>, t: State)
    requires Reachable(s, steps, t)
    ensures Inv(t)
  {
    InitInv(s);
    RunInv(s, steps);
  }

  // ---------- Main results ----------

  // A deposit id's effects are in the tables at most once, and are those of one call:
  // row, events, handoff, flags, documents, one new entry per created item, and every
  // entry its items retire or supersede is inactive.
  lemma ExactlyOnce(s: State, steps: seq<Step>, t: State, i: nat, j: nat)
    requires Reachable(s, steps, t) && i < |t.log| && j < |t.log|
    ensures t.db == Effects(t.start, t.log) && StoredOnce(t.db, t.log[i])
    ensures var c := t.log[i];
            Answers(c.body.items, t.db.deposits[c.body.id].knowledge, Of(t.db.entries, EntryOwner, c.body.id))
    ensures forall x :: Names(t.log[i].body.items, x) ==> x in t.db.status && t.db.status[x] != Active
    ensures t.log[i].body.id == t.log[j].body.id || t.log[i].call == t.log[j].call ==> i == j
    ensures t.log[i].call < |t.calls| && t.calls[t.log[i].call].body == t.log[i].body
  {
    ReachableInv(s, steps, t);
    LoggedOnce(t, i, j);
    forall x | Names(t.log[i].body.items, x) ensures x in t.db.status && t.db.status[x] != Active {
      LoggedNames(t.log, i, x);
      EffectsStatus(t.start, t.log);
      StatusIff(t.start.status, t.log, x);
    }
  }

  lemma {:induction false} LoggedNames(log: seq<Commit>, i: nat, x: nat)
    requires i < |log| && Names(log[i].body.items, x)
    ensures NamedBy(log, x)
  {
    if i < |log| - 1 { LoggedNames(log[..|log| - 1], i, x); }
  }

  lemma LoggedOnce(s: State, i: nat, j: nat)
    requires s.db == Effects(s.start, s.log) && LogInv(s) && i < |s.log| && j < |s.log|
    ensures StoredOnce(s.db, s.log[i]) && CommitOk(s.log[i])
    ensures s.log[i].body.id == s.log[j].body.id || s.log[i].call == s.log[j].call ==> i == j
    ensures s.log[i].call < |s.calls| && s.calls[s.log[i].call].body == s.log[i].body
  {
    StoredExactlyOnce(s.start, s.log, i);
    assert s.log[i] in s.log;
    OneCommitEach(s.log, i, j);
  }

  // A finished call committed exactly if its answer is a first acceptance: refused for
  // any reason, or answered as a replay, it stored nothing of its own.
  lemma RefusedStoresNothing(s: State, steps: seq<Step>, t: State, i: nat)
    requires Reachable(s, steps, t) && i < |t.calls| && t.calls[i].phase.Done?
    ensures (exists c :: c in t.log && c.call == i) <==>
            (t.calls[i].phase.answer.Accepted? && !t.calls[i].phase.answer.replayed)
  {
    ReachableInv(s, steps, t);
    assert CallInv(t, i);
  }

  predicate Succeeded(c: Call) {
    c.phase.Done? && c.phase.answer.Accepted?
  }

  // All successful answers for one id say the same, whenever they were built; only
  // the call that committed is told it was first.
  lemma AnswersAgree(s: State, steps: seq<Step>, t: State, i: nat, j: nat)
    requires Reachable(s, steps, t) && i < |t.calls| && j < |t.calls|
    requires Succeeded(t.calls[i]) && Succeeded(t.calls[j]) && t.calls[i].body.id == t.calls[j].body.id
    ensures var a, b := t.calls[i].phase.answer, t.calls[j].phase.answer;
            && a.(replayed := true) == b.(replayed := true)
            && (!a.replayed && !b.replayed ==> i == j)
            && exists c :: c in t.log && a == AckOf(c, a.replayed)
  {
    ReachableInv(s, steps, t);
    assert CallInv(t, i) && CallInv(t, j);
    DistinctIdsUnique(t.log);
  }

  lemma OneCommitEach(log: seq<Commit>, i: nat, j: nat)
    requires IdsDistinct(log) && i < |log| && j < |log|
    requires forall a, b :: 0 <= a < b < |log| ==> log[a].call != log[b].call
    ensures log[i].body.id == log[j].body.id || log[i].call == log[j].call ==> i == j
  {
    assert i < j || i == j || j < i;
  }

  lemma DistinctIdsUnique(log: seq<Commit>)
    requires IdsDistinct(log)
    ensures forall c, d :: c in log && d in log && c.body.id == d.body.id ==> c == d
  {
    forall c, d | c in log && d in log && c.body.id == d.body.id ensures c == d {
      var i :| 0 <= i < |log| && log[i] == c;
      var j :| 0 <= j < |log| && log[j] == d;
      assert i == j;
    }
  }

  // An answer, once given, is still the one a fresh lookup would build.
  lemma LaterReplaySaysTheSame(s: State, steps: seq<Step>, t: State, i: nat)
    requires Reachable(s, steps, t) && i < |t.calls| && Succeeded(t.calls[i])
    ensures var id := t.calls[i].body.id;
            && id in t.db.deposits
            && BuildAck(t.db, id, t.db.deposits[id], true) == t.calls[i].phase.answer.(replayed := true)
  {
    var id := t.calls[i].body.id;
    ReachableInv(s, steps, t);
    assert CallInv(t, i);
    StoredRowIsLogged(t, id);
    DistinctIdsUnique(t.log);
    var c :| c in t.log && c.body.id == id && t.db.deposits[id] == RowOf(c);
    RowAndAck(t, id, t.db.deposits[id], true, c);
  }

  // In every run, whatever the interleaving: an entry is stored exactly if it was there
  // before or one accepted deposit created it, and active exactly if it began active and
  // no accepted deposit has an item retiring or superseding it.
  lemma StatusesAreTheCommits(s: State, steps: seq<Step>, t: State, x: nat)
    requires Reachable(s, steps, t)
    ensures x in t.db.status <==> x in t.start.status || CreatedBy(t.log, x)
    ensures x in t.db.status ==>
              (t.db.status[x] == Active <==> (x in t.start.status ==> t.start.status[x] == Active) && !NamedBy(t.log, x))
  {
    ReachableInv(s, steps, t);
    EffectsStatus(t.start, t.log);
    StatusIff(t.start.status, t.log, x);
  }

  // Supersession is acyclic under racing deposits too: along a lineage the creating
  // commits go strictly back, and no entry occurs twice.
  lemma RacingLineagesAreAcyclic(s: State, steps: seq<Step>, t: State, path: seq<NewEntry>, at: seq<nat>, i: nat, j: nat)
    requires Reachable(s, steps, t) && IsLineage(t.log, path, at) && i < j < |at|
    ensures at[j] < at[i] && path[i].id != path[j].id
  {
    ReachableInv(s, steps, t);
    LineageGoesBack(t.start.status, t.log, path, at, i, j);
    assert t.log[at[i]] in t.log;
    ParentsPrecede(t.start.status, t.log, at[i], path[i], 0);
    CreatedAt(t.log, at[j], path[j]);
    if path[i].id == path[j].id {
      assert t.log[..at[i]][..at[j] + 1] == t.log[..at[j] + 1];
      CreatedStays(t.log[..at[i]], at[j] + 1, path[j].id);
    }
  }

  // Each parent was stored, and each entry's identifier unused, when its deposit committed.
  lemma RacingParentsPrecede(s: State, steps: seq<Step>, t: State, k: nat, e: NewEntry, p: nat)
    requires Reachable(s, steps, t) && k < |t.log| && e in WorkOf(t.log[k].txn).entries
    ensures e.id !in t.start.status && !CreatedBy(t.log[..k], e.id)
    ensures p in e.supersedes ==> p in t.start.status || CreatedBy(t.log[..k], p)
  {
    ReachableInv(s, steps, t);
    assert t.log[k] in t.log;
    ParentsPrecede(t.start.status, t.log, k, e, p);
  }

  // The documents of a commit are its body's paths in order, under its project; its stub
  // is reported exactly by the first deposit of a project nobody had registered.
  lemma CommitAnswersBody(s: State, steps: seq<Step>, t: State, k: nat)
    requires Reachable(s, steps, t) && k < |t.log|
    ensures var c := t.log[k];
            && |c.txn.docs| == |c.body.paths|
            && (forall d :: 0 <= d < |c.txn.docs| ==>
                  c.txn.docs[d].project == c.body.project && c.txn.docs[d].path == c.body.paths[d])
            && (c.txn.stub <==> c.body.project !in t.start.projects && !Registers(t.log[..k], c.body.project))
  {
    ReachableInv(s, steps, t);
    assert t.log[k] in t.log;
    StubsPrefix(t.start, t.log, k);
    ProjectsIff(t.start, t.log[..k], t.log[k].body.project);
  }

  // Committed versions of every document are exactly 1..n, repeated paths included.
  lemma CommittedVersions(s: State, steps: seq<Step>, t: State, project: nat, path: nat, v: nat)
    requires Reachable(s, steps, t)
    ensures |VersionHolders(t.db.docs, project, path, v)| ==
            if 1 <= v <= Count(t.db.docs, project, path) then 1 else 0
  {
    ReachableInv(s, steps, t);
    VersionsAreExactly(t.db.docs, project, path, v);
  }

  predicate AttemptOk(phase: Phase) {
    phase.Ready? || phase.Inserting? || phase.RolledBack? ==> 1 <= phase.attempt <= MAX_INSERT_ATTEMPTS
  }

  // No call ever starts a fourth attempt.
  lemma {:induction false} AttemptsBounded(s: State, steps: seq<Step>, i: nat)
    requires Runs(s, steps) && i < |s.calls| && AttemptOk(s.calls[i].phase)
    ensures i < |After(s, steps).calls| && AttemptOk(After(s, steps).calls[i].phase)
    decreases |steps|
  {
    if steps != [] {
      StepKeepsAttempt(s, steps[0], i);
      AttemptsBounded(Next(s, steps[0]), steps[1..], i);
    }
  }

  lemma StepKeepsAttempt(s: State, t: Step, i: nat)
    requires Enabled(s, t) && i < |s.calls| && AttemptOk(s.calls[i].phase)
    ensures AttemptOk(Next(s, t).calls[i].phase)
  {
  }

  // ---------- An undisturbed attempt ----------

  function ApplyAll(committed: seq<Doc>, body: Body, own: seq<Doc>): seq<Doc>
    requires |own| <= |body.paths|
    decreases |body.paths| - |own|
  {
    if |own| == |body.paths| then own else ApplyAll(committed, body, own + [NextDoc(committed, body, own)])
  }

  lemma {:induction false} MaxBounds(docs: seq<Doc>, d: Doc)
    requires d in docs
    ensures d.version <= MaxVersion(docs, d.project, d.path)
  {
    var rest, last := docs[..|docs| - 1], docs[|docs| - 1];
    assert docs == rest + [last];
    if d in rest { MaxBounds(rest, d); }
  }

  lemma {:induction false} ApplyAllIsFree(committed: seq<Doc>, body: Body, own: seq<Doc>)
    requires |own| <= |body.paths| && AllFree(committed, own)
    ensures var all := ApplyAll(committed, body, own);
            |all| == |body.paths| && AllFree(committed, all)
    decreases |body.paths| - |own|
  {
    if |own| < |body.paths| {
      var d := NextDoc(committed, body, own);
      if Taken(committed, d) {
        var o :| o in committed && IsKey(o, d.project, d.path) && o.version == d.version;
        MaxBounds(committed, o);
      }
      ApplyAllIsFree(committed, body, own + [d]);
    }
  }

  // With no commit in between, an attempt at an unknown id cannot collide.
  lemma UndisturbedAttemptCommits(db: Db, body: Body, txn: Txn)
    requires body.id !in db.deposits && txn.work.Some? && FreshIds(db.status, txn.work.value.entries)
    requires txn.stub <==> body.project !in db.projects
    requires txn.docs == ApplyAll(db.docs, body, [])
    ensures CanCommit(db, body, txn)
  {
    ApplyAllIsFree(db.docs, body, []);
  }

  // The insert loop over one attempt's documents, nothing else committing meanwhile.
  method ApplyDocuments(committed: seq<Doc>, body: Body) returns (own: seq<Doc>)
    requires Contiguous(committed)
    ensures own == ApplyAll(committed, body, [])
    ensures TxnInv(committed, body, own) && Contiguous(committed + own)
  {
    own := [];
    while |own| < |body.paths|
      invariant TxnInv(committed, body, own)
      invariant ApplyAll(committed, body, own) == ApplyAll(committed, body, [])
      decreases |body.paths| - |own|
    {
      InsertKeepsTxn(committed, body, own);
      own := own + [NextDoc(committed, body, own)];
    }
    ApplyAllIsFree(committed, body, []);
    OwnVersions(committed, body, own, |own|);
    assert own[..|own|] == own;
  }
}
