// The queue over any number of runs: the work is bounded, and undisturbed runs empty it.
module LibrarianQueue {
  import opened Common
  import opened Knowledge
  import opened Merging
  import opened Librarian
  import opened LibrarianFacts

  // One scheduled run: its limits and what it meets.
  datatype Night = Night(maxFailures: nat, maxCalls: nat, script: Script)

  function NightRun(lib: Library, resolved: set<nat>, n: Night): Run {
    WholeRun(NewRun(lib, resolved, n.maxFailures, n.maxCalls), n.script)
  }

  // Flags disposed of, and lessons harvested, over consecutive runs.
  function DisposedOver(lib: Library, resolved: set<nat>, nights: seq<Night>): nat
    decreases |nights|
  {
    if nights == [] then 0
    else
      var end := NightRun(lib, resolved, nights[0]);
      Disposed(end) + DisposedOver(end.lib, end.resolved, nights[1..])
  }

  function HarvestedOver(lib: Library, resolved: set<nat>, nights: seq<Night>): nat
    decreases |nights|
  {
    if nights == [] then 0
    else
      var end := NightRun(lib, resolved, nights[0]);
      end.lessons.harvested + HarvestedOver(end.lib, end.resolved, nights[1..])
  }

  // Unresolved flags after consecutive runs.
  function OpenAfter(lib: Library, resolved: set<nat>, nights: seq<Night>): nat
    decreases |nights|
  {
    if nights == [] then OpenFlags(|lib.flags|, resolved)
    else
      var end := NightRun(lib, resolved, nights[0]);
      OpenAfter(end.lib, end.resolved, nights[1..])
  }

  function StoredPotential(lib: Library, resolved: set<nat>): nat {
    6 * ActiveCount(lib.entries) + OpenFlags(|lib.flags|, resolved)
  }

  lemma NightFollows(lib: Library, resolved: set<nat>, n: Night)
    requires LibraryOk(lib, resolved)
    ensures var end := NightRun(lib, resolved, n);
            && LibraryOk(end.lib, end.resolved)
            && StoredPotential(end.lib, end.resolved) + Disposed(end)
               <= StoredPotential(lib, resolved) + 11 * end.lessons.harvested
  {
    PhasesFollow(NewRun(lib, resolved, n.maxFailures, n.maxCalls), n.script);
  }

  // However many runs there are, whatever the model answers and whatever fails: six
  // times the active entries plus the unresolved flags bound all disposals, eleven
  // more for each lesson harvested.
  lemma {:induction false} WorkIsBounded(lib: Library, resolved: set<nat>, nights: seq<Night>)
    requires LibraryOk(lib, resolved)
    ensures DisposedOver(lib, resolved, nights)
         <= StoredPotential(lib, resolved) + 11 * HarvestedOver(lib, resolved, nights)
    decreases |nights|
  {
    if nights != [] {
      var end := NightRun(lib, resolved, nights[0]);
      NightFollows(lib, resolved, nights[0]);
      WorkIsBounded(end.lib, end.resolved, nights[1..]);
    }
  }

  // ---------- Undisturbed runs ----------

  predicate Smooth(v: Verdict) {
    v.crash == NoCrash && Answered(v.llm)
  }

  // No failing item, no provider failure on flags, no harvest, caps and budget of at
  // least one.
  predicate Quiet(s: Script) {
    && s.duplicates != [] && s.forks != [] && s.outage == None
    && (forall i :: 0 <= i < |s.duplicates| ==> Smooth(s.duplicates[i]))
    && (forall i :: 0 <= i < |s.forks| ==> Smooth(s.forks[i]))
    && (forall i :: 0 <= i < |s.events| ==> s.events[i].covered || !s.events[i].llm.Approved?)
  }

  lemma {:induction false} OpenHasFlag(n: nat, resolved: set<nat>) returns (k: nat)
    requires 0 < OpenFlags(n, resolved)
    ensures k < n && k !in resolved
  {
    if n - 1 in resolved {
      k := OpenHasFlag(n - 1, resolved);
    } else {
      k := n - 1;
    }
  }

  lemma {:induction false} NoOpenFlag(n: nat, resolved: set<nat>, k: nat)
    requires OpenFlags(n, resolved) == 0 && k < n
    ensures k in resolved
  {
    if k < n - 1 { NoOpenFlag(n - 1, resolved, k); }
  }

  // A phase with something in its queue disposes of the first flag at least.
  lemma PhaseWorks(r: Run, dup: bool, script: seq<Verdict>)
    requires RunInv(r) && Granted(r.budget) && script != [] && Smooth(script[0])
    requires Page(r.lib, r.resolved, dup, |script|, |r.lib.flags|) != []
    ensures Disposed(r) < Disposed(FlagPhase(r, dup, |script|, script))
  {
    var ids := Page(r.lib, r.resolved, dup, |script|, |r.lib.flags|);
    assert Listed(r.lib, r.resolved, dup, ids[0]);
    ProcessedFlagDescends(r, dup, ids[0], script[0]);
    FlagFollows(r, dup, ids[0], script[0]);
    FlagsFollow(HandleFlag(r, dup, ids[0], script[0]), dup, ids[1..], script[1..]);
  }

  lemma EmptyPhase(r: Run, dup: bool, script: seq<Verdict>)
    requires Page(r.lib, r.resolved, dup, |script|, |r.lib.flags|) == []
    ensures FlagPhase(r, dup, |script|, script) == r
  {
  }

  lemma {:induction false} LessonsQuiet(r: Run, events: seq<Lesson>)
    requires RunInv(r) && forall i :: 0 <= i < |events| ==> events[i].covered || !events[i].llm.Approved?
    ensures var b := HandleLessons(r, events);
            b.lib == r.lib && b.resolved == r.resolved && Disposed(b) == Disposed(r)
            && b.lessons.harvested == r.lessons.harvested
    decreases |events|
  {
    if events != [] && r.budget.abort == None {
      QuietLessonFollows(r, events[0]);
      QuietLessonTallies(r, events[0]);
      LessonsQuiet(HandleLesson(r, events[0]), events[1..]);
    }
  }

  lemma QuietLessonTallies(r: Run, l: Lesson)
    requires l.covered || !l.llm.Approved?
    ensures var b := HandleLesson(r, l); Disposed(b) == Disposed(r) && b.lessons.harvested == r.lessons.harvested
  {
  }

  lemma {:induction false} FlagsHarvestNothing(r: Run, dup: bool, ids: seq<nat>, script: seq<Verdict>)
    requires |ids| <= |script|
    ensures HandleFlags(r, dup, ids, script).lessons == r.lessons
    decreases |ids|
  {
    if ids != [] && r.budget.abort == None {
      LessonsUntouched(r, dup, ids[0], script[0]);
      FlagsHarvestNothing(HandleFlag(r, dup, ids[0], script[0]), dup, ids[1..], script[1..]);
    }
  }

  lemma PhaseHarvestsNothing(r: Run, dup: bool, script: seq<Verdict>)
    ensures FlagPhase(r, dup, |script|, script).lessons == r.lessons
  {
    FlagsHarvestNothing(r, dup, Page(r.lib, r.resolved, dup, |script|, |r.lib.flags|), script);
  }

  lemma QuietHarvestsNothing(r: Run, s: Script)
    requires RunInv(r) && Quiet(s)
    ensures Worked(r, s).lessons.harvested == r.lessons.harvested
  {
    PhaseHarvestsNothing(r, true, s.duplicates);
    PhaseFollows(r, true, s.duplicates);
    RestHarvestsNothing(FlagPhase(r, true, |s.duplicates|, s.duplicates), s);
  }

  lemma RestHarvestsNothing(a: Run, s: Script)
    requires RunInv(a) && Quiet(s)
    ensures var b := FlagPhase(a, false, |s.forks|, s.forks);
            b.lessons == a.lessons && HandleLessons(b, s.events).lessons.harvested == a.lessons.harvested
  {
    PhaseHarvestsNothing(a, false, s.forks);
    PhaseFollows(a, false, s.forks);
    LessonsQuiet(FlagPhase(a, false, |s.forks|, s.forks), s.events);
  }

  // With flags waiting, such a run disposes of at least one.
  lemma QuietRunWorks(r: Run, s: Script)
    requires RunInv(r) && Granted(r.budget) && Quiet(s) && 0 < Open(r)
    ensures Disposed(r) < Disposed(Worked(r, s))
  {
    if Page(r.lib, r.resolved, true, |s.duplicates|, |r.lib.flags|) != [] {
      DuplicatesWork(r, s);
    } else {
      var f := OpenHasFlag(|r.lib.flags|, r.resolved);
      ForksWork(r, s, f);
    }
  }

  lemma DuplicatesWork(r: Run, s: Script)
    requires RunInv(r) && Granted(r.budget) && Quiet(s)
    requires Page(r.lib, r.resolved, true, |s.duplicates|, |r.lib.flags|) != []
    ensures Disposed(r) < Disposed(Worked(r, s))
  {
    PhaseWorks(r, true, s.duplicates);
    LaterPhasesDispose(r, s);
  }

  lemma LaterPhasesDispose(r: Run, s: Script)
    requires RunInv(r) && Quiet(s)
    ensures Disposed(FlagPhase(r, true, |s.duplicates|, s.duplicates)) <= Disposed(Worked(r, s))
  {
    PhaseFollows(r, true, s.duplicates);
    RestDisposes(FlagPhase(r, true, |s.duplicates|, s.duplicates), s);
  }

  // The later phases never take a disposal back.
  lemma RestDisposes(a: Run, s: Script)
    requires RunInv(a) && Quiet(s)
    ensures var b := FlagPhase(a, false, |s.forks|, s.forks);
            Disposed(a) <= Disposed(b) == Disposed(HandleLessons(b, s.events))
  {
    PhaseFollows(a, false, s.forks);
    LessonsQuiet(FlagPhase(a, false, |s.forks|, s.forks), s.events);
  }

  lemma ForksWork(r: Run, s: Script, f: nat)
    requires RunInv(r) && Granted(r.budget) && Quiet(s) && f < |r.lib.flags| && f !in r.resolved
    requires Page(r.lib, r.resolved, true, |s.duplicates|, |r.lib.flags|) == []
    ensures Disposed(r) < Disposed(Worked(r, s))
  {
    EmptyPhase(r, true, s.duplicates);
    var dup := r.lib.flags[f].Duplicate?;
    PageIsNewest(r.lib, r.resolved, dup, if dup then |s.duplicates| else |s.forks|, |r.lib.flags|, f);
    PhaseWorks(r, false, s.forks);
    RestDisposes(r, s);
  }

  // With none waiting, nothing changes but the summary.
  lemma QuietRunIdles(r: Run, s: Script)
    requires RunInv(r) && Quiet(s) && Open(r) == 0
    ensures Worked(r, s).lib == r.lib && Worked(r, s).resolved == r.resolved
  {
    NothingListed(r, true, |s.duplicates|);
    NothingListed(r, false, |s.forks|);
    EmptyPhase(r, true, s.duplicates);
    EmptyPhase(r, false, s.forks);
    LessonsQuiet(r, s.events);
  }

  lemma NothingListed(r: Run, dup: bool, cap: nat)
    requires Open(r) == 0
    ensures Page(r.lib, r.resolved, dup, cap, |r.lib.flags|) == []
  {
    var page := Page(r.lib, r.resolved, dup, cap, |r.lib.flags|);
    if page != [] {
      assert Listed(r.lib, r.resolved, dup, page[0]);
      NoOpenFlag(|r.lib.flags|, r.resolved, page[0]);
    }
  }

  // Enough consecutive undisturbed runs leave no flag unresolved.
  lemma {:induction false} QueueEmpties(lib: Library, resolved: set<nat>, nights: seq<Night>)
    requires LibraryOk(lib, resolved)
    requires forall i :: 0 <= i < |nights| ==> Quiet(nights[i].script) && 1 <= nights[i].maxCalls
    requires StoredPotential(lib, resolved) <= |nights| || OpenFlags(|lib.flags|, resolved) == 0
    ensures OpenAfter(lib, resolved, nights) == 0
    decreases |nights|
  {
    if nights != [] {
      var n := nights[0];
      var r := NewRun(lib, resolved, n.maxFailures, n.maxCalls);
      var end := NightRun(lib, resolved, n);
      NightFollows(lib, resolved, n);
      QuietHarvestsNothing(r, n.script);
      if Open(r) == 0 {
        QuietRunIdles(r, n.script);
      } else {
        QuietRunWorks(r, n.script);
      }
      QueueEmpties(end.lib, end.resolved, nights[1..]);
    }
  }
}
