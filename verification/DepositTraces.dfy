// What each deposit call went through, read off the run alone: what was refused, what was
// replayed, what gave up, and that nothing is stored that was not validated first.
module DepositTraces {
  import opened Common
  import opened Knowledge
  import opened DepositLog

  // The state after the first `k` steps.
  ghost function At(s: State, steps: seq<Step>, k: nat): State
    requires Runs(s, steps) && k <= |steps|
    decreases k
  {
    if k == 0 then s else At(Next(s, steps[0]), steps[1..], k - 1)
  }

  lemma {:induction false} AtNext(s: State, steps: seq<Step>, k: nat)
    requires Runs(s, steps) && k < |steps|
    ensures Enabled(At(s, steps, k), steps[k]) && At(s, steps, k + 1) == Next(At(s, steps, k), steps[k])
    decreases k
  {
    if k > 0 {
      AtNext(Next(s, steps[0]), steps[1..], k - 1);
    } else {
      assert At(Next(s, steps[0]), steps[1..], 0) == Next(s, steps[0]);
    }
  }

  lemma {:induction false} AtEnd(s: State, steps: seq<Step>)
    requires Runs(s, steps)
    ensures At(s, steps, |steps|) == After(s, steps)
    decreases |steps|
  {
    if steps != [] { AtEnd(Next(s, steps[0]), steps[1..]); }
  }

  // ---------- What a run has done for call `i` among its first `k` steps ----------

  predicate Did(steps: seq<Step>, k: nat, t: Step) {
    exists j :: 0 <= j < k && j < |steps| && steps[j] == t
  }

  predicate RefusedIn(steps: seq<Step>, k: nat, i: nat) {
    Did(steps, k, Validate(i, false)) || Did(steps, k, Knowledge(i, None))
  }

  function Collisions(steps: seq<Step>, k: nat, i: nat): nat
    requires k <= |steps|
  {
    if k == 0 then 0 else Collisions(steps, k - 1, i) + (if steps[k - 1] == Collide(i) then 1 else 0)
  }

  predicate Looks(t: Step, i: nat) {
    t == Lookup(i) || t == Recover(i)
  }

  // One of the two looks of call `i` met its id in the tables.
  ghost predicate FoundIn(s: State, steps: seq<Step>, k: nat, i: nat)
    requires Runs(s, steps) && k <= |steps| && i < |s.calls|
  {
    exists j :: 0 <= j < k && Looks(steps[j], i) && s.calls[i].body.id in At(s, steps, j).db.deposits
  }

  predicate Replaying(phase: Phase) {
    (phase.Answering? && phase.replayed) || (phase.Done? && phase.answer.Accepted? && phase.answer.replayed)
  }

  predicate AttemptsTell(phase: Phase, collisions: nat) {
    && (phase.Arrived? || phase.Unknown? ==> collisions == 0)
    && (phase.Ready? || phase.Inserting? ==> phase.attempt == collisions + 1)
    && (phase.RolledBack? ==> phase.attempt == collisions)
    && (phase == Done(ConflictRetry) ==> collisions == MAX_INSERT_ATTEMPTS)
    && collisions <= MAX_INSERT_ATTEMPTS
  }

  ghost predicate Traced(s: State, steps: seq<Step>, k: nat, i: nat)
    requires Runs(s, steps) && k <= |steps| && i < |s.calls|
  {
    var t := At(s, steps, k);
    && i < |t.calls| && t.calls[i].body == s.calls[i].body
    && var phase := t.calls[i].phase;
       && (RefusedIn(steps, k, i) <==> phase == Done(Rejected))
       && (phase.Ready? || phase.Inserting? || phase.RolledBack? ==> Did(steps, k, Validate(i, true)))
       && (FoundIn(s, steps, k, i) <==> Replaying(phase))
       && (Did(steps, k, CommitIt(i)) <==> Committer(phase))
       && (Did(steps, k, CommitIt(i)) ==> Did(steps, k, Validate(i, true)))
       && AttemptsTell(phase, Collisions(steps, k, i)) && AttemptOk(phase)
  }

  lemma DidNext(steps: seq<Step>, k: nat, t: Step)
    requires k < |steps|
    ensures Did(steps, k + 1, t) <==> Did(steps, k, t) || steps[k] == t
  {
  }

  lemma FoundNext(s: State, steps: seq<Step>, k: nat, i: nat)
    requires Runs(s, steps) && k < |steps| && i < |s.calls|
    ensures FoundIn(s, steps, k + 1, i) <==>
            FoundIn(s, steps, k, i) || (Looks(steps[k], i) && s.calls[i].body.id in At(s, steps, k).db.deposits)
  {
  }

  // One step of the call itself, and a step of another call.
  lemma OwnStep(t: State, step: Step, i: nat)
    requires Enabled(t, step) && i < |t.calls|
    ensures var n := Next(t, step);
            && |n.calls| == |t.calls| && n.calls[i].body == t.calls[i].body
            && (step.a != i ==> n.calls[i] == t.calls[i])
  {
  }

  lemma TracedNext(s: State, steps: seq<Step>, k: nat, i: nat)
    requires Runs(s, steps) && k < |steps| && i < |s.calls| && Traced(s, steps, k, i)
    ensures Traced(s, steps, k + 1, i)
  {
    AtNext(s, steps, k);
    OwnStep(At(s, steps, k), steps[k], i);
    DidNext(steps, k, Validate(i, false));
    DidNext(steps, k, Validate(i, true));
    DidNext(steps, k, Knowledge(i, None));
    DidNext(steps, k, CommitIt(i));
    FoundNext(s, steps, k, i);
  }

  lemma {:induction false} EveryCallTraced(s: State, steps: seq<Step>, k: nat, i: nat)
    requires Init(s) && Runs(s, steps) && k <= |steps| && i < |s.calls|
    ensures Traced(s, steps, k, i)
  {
    if k > 0 {
      EveryCallTraced(s, steps, k - 1, i);
      TracedNext(s, steps, k - 1, i);
    }
  }

  lemma ReachableTraced(s: State, steps: seq<Step>, t: State, i: nat)
    requires Reachable(s, steps, t) && i < |s.calls|
    ensures Traced(s, steps, |steps|, i) && t == At(s, steps, |steps|) && Inv(t)
  {
    EveryCallTraced(s, steps, |steps|, i);
    AtEnd(s, steps);
    ReachableInv(s, steps, t);
  }

  // ---------- Main results ----------

  // A call is answered as rejected exactly when validation refused its body or a retire
  // target had gone inactive, and then nothing of it is ever stored.
  lemma RejectedIff(s: State, steps: seq<Step>, t: State, i: nat)
    requires Reachable(s, steps, t) && i < |s.calls|
    ensures i < |t.calls| && (t.calls[i].phase == Done(Rejected) <==> RefusedIn(steps, |steps|, i))
    ensures RefusedIn(steps, |steps|, i) ==> forall c :: c in t.log ==> c.call != i
  {
    ReachableTraced(s, steps, t, i);
    assert CallInv(t, i);
  }

  // Nothing is stored that was not validated first.
  lemma CommittedWasValidated(s: State, steps: seq<Step>, t: State, i: nat)
    requires Reachable(s, steps, t) && i < |s.calls| && exists c :: c in t.log && c.call == i
    ensures exists v, w :: 0 <= v < w < |steps| && steps[v] == Validate(i, true) && steps[w] == CommitIt(i)
  {
    ReachableTraced(s, steps, t, i);
    assert CallInv(t, i);
    var w :| 0 <= w < |steps| && steps[w] == CommitIt(i);
    EveryCallTraced(s, steps, w, i);
    AtNext(s, steps, w);
    var v :| 0 <= v < w && v < |steps| && steps[v] == Validate(i, true);
  }

  // A call is answered as a replay exactly when one of its looks found its id stored, and
  // as the first exactly when it committed.
  lemma ReplayedIff(s: State, steps: seq<Step>, t: State, i: nat)
    requires Reachable(s, steps, t) && i < |s.calls|
    ensures i < |t.calls| && (Replaying(t.calls[i].phase) <==> FoundIn(s, steps, |steps|, i))
    ensures Committer(t.calls[i].phase) <==> Did(steps, |steps|, CommitIt(i))
  {
    ReachableTraced(s, steps, t, i);
  }

  // Giving up takes three collisions and an id still unknown; three collisions, once
  // looked into, end in giving up or a replay.
  lemma ConflictIff(s: State, steps: seq<Step>, t: State, i: nat)
    requires Reachable(s, steps, t) && i < |s.calls|
    ensures i < |t.calls| && Collisions(steps, |steps|, i) <= MAX_INSERT_ATTEMPTS
    ensures t.calls[i].phase == Done(ConflictRetry) <==>
            (Collisions(steps, |steps|, i) == MAX_INSERT_ATTEMPTS && !FoundIn(s, steps, |steps|, i)
             && !t.calls[i].phase.RolledBack?)
  {
    ReachableTraced(s, steps, t, i);
    GaveUp(s, steps, |steps|, i);
  }

  // After the third collision a call is rolled back, replays or gives up.
  lemma {:induction false} GaveUp(s: State, steps: seq<Step>, k: nat, i: nat)
    requires Init(s) && Runs(s, steps) && k <= |steps| && i < |s.calls|
    ensures i < |At(s, steps, k).calls|
    ensures Collisions(steps, k, i) == MAX_INSERT_ATTEMPTS ==>
              var phase := At(s, steps, k).calls[i].phase;
              phase.RolledBack? || Replaying(phase) || phase == Done(ConflictRetry)
  {
    EveryCallTraced(s, steps, k, i);
    if k > 0 {
      GaveUp(s, steps, k - 1, i);
      EveryCallTraced(s, steps, k - 1, i);
      AtNext(s, steps, k - 1);
      OwnStep(At(s, steps, k - 1), steps[k - 1], i);
    }
  }

  // ---------- A call with nobody beside it ----------

  lemma {:induction false} Snoc(s: State, steps: seq<Step>, t: Step)
    requires Runs(s, steps) && Enabled(After(s, steps), t)
    ensures Runs(s, steps + [t]) && After(s, steps + [t]) == Next(After(s, steps), t)
    decreases |steps|
  {
    if steps == [] {
      assert [t][1..] == [] && steps + [t] == [t];
    } else {
      assert (steps + [t])[1..] == steps[1..] + [t];
      Snoc(Next(s, steps[0]), steps[1..], t);
    }
  }

  // `s` with call `i` in another phase.
  function InPhase(s: State, i: nat, phase: Phase): State
    requires i < |s.calls|
  {
    State(s.start, s.db, s.calls[i := s.calls[i].(phase := phase)], s.log)
  }

  lemma OnePhase(s: State, i: nat, steps: seq<Step>, from: Phase, t: Step, to: Phase) returns (more: seq<Step>)
    requires i < |s.calls| && Runs(s, steps) && After(s, steps) == InPhase(s, i, from)
    requires Enabled(InPhase(s, i, from), t) && Next(InPhase(s, i, from), t) == InPhase(s, i, to)
    ensures Runs(s, more) && After(s, more) == InPhase(s, i, to)
  {
    more := steps + [t];
    Snoc(s, steps, t);
  }

  lemma {:induction false} InsertRest(s: State, i: nat, steps: seq<Step>, txn: Txn) returns (more: seq<Step>)
    requires i < |s.calls| && Runs(s, steps) && After(s, steps) == InPhase(s, i, Inserting(1, txn))
    requires txn.work.Some? && |txn.docs| <= |s.calls[i].body.paths|
    ensures Runs(s, more)
    ensures After(s, more) == InPhase(s, i, Inserting(1, txn.(docs := ApplyAll(s.db.docs, s.calls[i].body, txn.docs))))
    decreases |s.calls[i].body.paths| - |txn.docs|
  {
    var body := s.calls[i].body;
    if |txn.docs| == |body.paths| {
      more := steps;
    } else {
      var next := txn.(docs := txn.docs + [NextDoc(s.db.docs, body, txn.docs)]);
      more := OnePhase(s, i, steps, Inserting(1, txn), InsertDocument(i), Inserting(1, next));
      more := InsertRest(s, i, more, next);
    }
  }

  // A valid body under a new id, with no other commit in between, is stored at the first
  // attempt and acknowledged as first, saying what it stored.
  lemma SoloDeposit(s: State, i: nat, w: Work) returns (steps: seq<Step>)
    requires Inv(s) && i < |s.calls| && s.calls[i].phase == Arrived
    requires var body := s.calls[i].body;
             body.id !in s.db.deposits && WorkOk(s.db.status, body, w) && FreshIds(s.db.status, w.entries)
    ensures Runs(s, steps)
    ensures var t, body := After(s, steps), s.calls[i].body;
            var docs, stub := ApplyAll(s.db.docs, body, []), body.project !in s.db.projects;
            && t.log == s.log + [Commit(i, body, Txn(stub, Some(w), docs))]
            && i < |t.calls| && t.calls[i].phase
               == Done(Accepted(body.id, false, body.project, stub, body.events, body.handoff, w.acks, docs))
  {
    var body := s.calls[i].body;
    var txn := Txn(body.project !in s.db.projects, Some(w), []);
    steps := Started(s, i, w);
    steps := InsertRest(s, i, steps, txn);
    var full := txn.(docs := ApplyAll(s.db.docs, body, []));
    UndisturbedAttemptCommits(s.db, body, full);
    steps := Finished(s, i, steps, full);
  }

  lemma Started(s: State, i: nat, w: Work) returns (steps: seq<Step>)
    requires i < |s.calls| && s.calls[i].phase == Arrived && s.calls[i].body.id !in s.db.deposits
    requires WorkOk(s.db.status, s.calls[i].body, w)
    ensures Runs(s, steps)
    ensures After(s, steps) == InPhase(s, i, Inserting(1, Txn(s.calls[i].body.project !in s.db.projects, Some(w), [])))
  {
    var empty := Txn(s.calls[i].body.project !in s.db.projects, None, []);
    assert InPhase(s, i, Arrived) == s;
    steps := [];
    steps := OnePhase(s, i, steps, Arrived, Lookup(i), Unknown);
    steps := OnePhase(s, i, steps, Unknown, Validate(i, true), Ready(1));
    steps := OnePhase(s, i, steps, Ready(1), Start(i), Inserting(1, empty));
    steps := OnePhase(s, i, steps, Inserting(1, empty), Knowledge(i, Some(w)), Inserting(1, empty.(work := Some(w))));
  }

  lemma Finished(s: State, i: nat, steps: seq<Step>, txn: Txn) returns (more: seq<Step>)
    requires Inv(s) && i < |s.calls| && Runs(s, steps) && After(s, steps) == InPhase(s, i, Inserting(1, txn))
    requires CanCommit(s.db, s.calls[i].body, txn)
    ensures Runs(s, more)
    ensures var t, c := After(s, more), Commit(i, s.calls[i].body, txn);
            && t.log == s.log + [c] && i < |t.calls| && t.calls[i].phase == Done(AckOf(c, false))
  {
    var t := InPhase(s, i, Inserting(1, txn));
    var c := Commit(i, s.calls[i].body, txn);
    Snoc(s, steps, CommitIt(i));
    var u := Next(t, CommitIt(i));
    StoredRowIsLogged(s, c.body.id);
    assert c.body.id !in s.db.deposits;
    FirstCommitStoresRow(s, c);
    Snoc(s, steps + [CommitIt(i)], Reply(i));
    more := steps + [CommitIt(i)] + [Reply(i)];
  }

  lemma FirstCommitStoresRow(s: State, c: Commit)
    requires Inv(s) && !Logged(s.log, c.body.id)
    ensures BuildAck(Applied(s.db, c), c.body.id, RowOf(c), false) == AckOf(c, false)
  {
    NothingStoredFor(s.start, s.log, c.body.id);
  }

  // A call whose id is stored is answered from the tables, whatever its body.
  lemma SoloReplay(s: State, i: nat) returns (steps: seq<Step>)
    requires Inv(s) && i < |s.calls| && s.calls[i].phase == Arrived && s.calls[i].body.id in s.db.deposits
    ensures Runs(s, steps) && After(s, steps).log == s.log && After(s, steps).db == s.db
    ensures i < |After(s, steps).calls|
    ensures exists c :: c in s.log && c.body.id == s.calls[i].body.id
                        && After(s, steps).calls[i].phase == Done(AckOf(c, true))
  {
    var id := s.calls[i].body.id;
    StoredRowIsLogged(s, id);
    var c :| c in s.log && c.body.id == id && s.db.deposits[id] == RowOf(c);
    RowAndAck(s, id, RowOf(c), true, c);
    steps := FoundAndAnswered(s, i, RowOf(c));
  }

  lemma FoundAndAnswered(s: State, i: nat, row: Row) returns (steps: seq<Step>)
    requires i < |s.calls| && s.calls[i].phase == Arrived && s.calls[i].body.id in s.db.deposits
    requires row == s.db.deposits[s.calls[i].body.id]
    ensures Runs(s, steps)
    ensures After(s, steps) == InPhase(s, i, Done(BuildAck(s.db, s.calls[i].body.id, row, true)))
  {
    assert InPhase(s, i, Arrived) == s;
    steps := [];
    steps := OnePhase(s, i, steps, Arrived, Lookup(i), Answering(row, true));
    steps := OnePhase(s, i, steps, Answering(row, true), Reply(i), Done(BuildAck(s.db, s.calls[i].body.id, row, true)));
  }
}
