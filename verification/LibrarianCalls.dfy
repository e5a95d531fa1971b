// The call budget of a whole run, told by the calls it recorded: how many, how many
// failed, and when the provider counts as down.
module LibrarianCalls {
  import opened Common
  import opened Knowledge
  import opened Librarian
  import opened LibrarianFacts

  // ---------- The calls a run records; true is a provider failure ----------

  function Recorded(llm: Llm): seq<bool> {
    if llm.ProviderFailure? then [true] else if Answered(llm) then [false] else []
  }

  predicate MayAsk(r: Run) {
    r.budget.abort == None && r.budget.calls < r.budget.maxCalls
  }

  function FlagCalls(r: Run, k: nat, v: Verdict): seq<bool> {
    if v.crash != AtLoad && k !in r.resolved && LivePair(r.lib, k) && MayAsk(r) then Recorded(v.llm) else []
  }

  function LessonCalls(r: Run, l: Lesson): seq<bool> {
    if l.crash != AtLoad && !l.covered && MayAsk(r) then Recorded(l.llm) else []
  }

  function FlagsCalls(r: Run, dup: bool, ids: seq<nat>, script: seq<Verdict>): seq<bool>
    requires |ids| <= |script|
    decreases |ids|
  {
    if ids == [] || r.budget.abort != None then []
    else FlagCalls(r, ids[0], script[0])
         + FlagsCalls(HandleFlag(r, dup, ids[0], script[0]), dup, ids[1..], script[1..])
  }

  function LessonsCalls(r: Run, events: seq<Lesson>): seq<bool>
    decreases |events|
  {
    if events == [] || r.budget.abort != None then []
    else LessonCalls(r, events[0]) + LessonsCalls(HandleLesson(r, events[0]), events[1..])
  }

  function PhaseCalls(r: Run, dup: bool, script: seq<Verdict>): seq<bool> {
    FlagsCalls(r, dup, Page(r.lib, r.resolved, dup, |script|, |r.lib.flags|), script)
  }

  // In order: duplicates, forks, lessons, as far as the run gets.
  function RunCalls(r: Run, s: Script): seq<bool> {
    if s.outage == Some(DuplicatePhase) then []
    else
      var a := FlagPhase(r, true, |s.duplicates|, s.duplicates);
      var first := PhaseCalls(r, true, s.duplicates);
      if a.budget.abort != None || s.outage == Some(ForkPhase) then first
      else
        var b := FlagPhase(a, false, |s.forks|, s.forks);
        var both := first + PhaseCalls(a, false, s.forks);
        if b.budget.abort != None || s.outage == Some(LessonPhase) then both
        else both + LessonsCalls(b, s.events)
  }

  // ---------- What a budget says about the calls ----------

  function Failures(calls: seq<bool>): nat {
    if calls == [] then 0 else Failures(calls[..|calls| - 1]) + (if calls[|calls| - 1] then 1 else 0)
  }

  // How many calls at the end failed in a row.
  function Streak(calls: seq<bool>): nat {
    if calls == [] || !calls[|calls| - 1] then 0 else Streak(calls[..|calls| - 1]) + 1
  }

  lemma {:induction false} StreakIff(calls: seq<bool>, m: nat)
    ensures m <= Streak(calls) <==> m <= |calls| && forall i :: |calls| - m <= i < |calls| ==> calls[i]
    decreases |calls|
  {
    if m > 0 && calls != [] && calls[|calls| - 1] {
      var rest := calls[..|calls| - 1];
      StreakIff(rest, m - 1);
      assert forall i :: 0 <= i < |rest| ==> rest[i] == calls[i];
    }
  }

  ghost predicate Tells(b: Budget, calls: seq<bool>) {
    && b.calls == |calls| <= b.maxCalls && b.failures == Failures(calls) && b.consecutive == Streak(calls)
    && (b.abort == Some(ProviderDown) <==> 0 < Streak(calls) && b.maxFailures <= Streak(calls))
    && (b.abort == Some(BudgetReached) ==> |calls| == b.maxCalls)
  }

  lemma RecordedTells(b: Budget, calls: seq<bool>, llm: Llm)
    requires Tells(b, calls) && b.abort == None && b.calls < b.maxCalls
    ensures llm.ProviderFailure? ==> Tells(AfterFailure(b), calls + Recorded(llm))
    ensures Answered(llm) ==> Tells(AfterSuccess(b), calls + Recorded(llm))
    ensures llm.CallRaised? ==> Tells(b, calls + Recorded(llm))
  {
    var more := calls + Recorded(llm);
    if llm.CallRaised? {
      assert more == calls;
    } else {
      assert more[..|calls|] == calls;
    }
  }

  lemma AskTells(b: Budget, calls: seq<bool>)
    requires Tells(b, calls) && b.abort == None
    ensures !Granted(b) ==> Tells(AfterAsk(b), calls)
  {
  }

  // Resolving a flag or filing a deposit spends no call.
  lemma JudgedBudget(r: Run, dup: bool, k: nat, v: Verdict)
    requires LivePair(r.lib, k)
    ensures Judged(r, dup, k, v).budget ==
            if !Granted(r.budget) then AfterAsk(r.budget)
            else if v.llm.ProviderFailure? then AfterFailure(r.budget)
            else if v.llm.CallRaised? then r.budget else AfterSuccess(r.budget)
  {
  }

  lemma UnaskedBudget(r: Run, dup: bool, k: nat, v: Verdict)
    requires k < |r.lib.flags| && !LivePair(r.lib, k)
    ensures Considered(r, dup, k, v).budget == r.budget
  {
  }

  lemma FlagTells(r: Run, dup: bool, k: nat, v: Verdict, calls: seq<bool>)
    requires Tells(r.budget, calls) && r.budget.abort == None
    ensures Tells(HandleFlag(r, dup, k, v).budget, calls + FlagCalls(r, k, v))
  {
    assert calls + [] == calls;
    if v.crash != AtLoad && k < |r.lib.flags| && k !in r.resolved {
      var s := CountSeen(r, dup);
      assert s.budget == r.budget;
      if LivePair(r.lib, k) {
        JudgedBudget(s, dup, k, v);
        AskTells(r.budget, calls);
        if Granted(r.budget) { RecordedTells(r.budget, calls, v.llm); }
      } else {
        UnaskedBudget(s, dup, k, v);
      }
    }
  }

  lemma LessonBudget(r: Run, l: Lesson)
    ensures HandleLesson(r, l).budget ==
            if l.crash == AtLoad || l.covered then r.budget
            else if !Granted(r.budget) then AfterAsk(r.budget)
            else if l.llm.ProviderFailure? then AfterFailure(r.budget)
            else if l.llm.CallRaised? then r.budget else AfterSuccess(r.budget)
  {
  }

  lemma LessonTells(r: Run, l: Lesson, calls: seq<bool>)
    requires Tells(r.budget, calls) && r.budget.abort == None
    ensures Tells(HandleLesson(r, l).budget, calls + LessonCalls(r, l))
  {
    assert calls + [] == calls;
    LessonBudget(r, l);
    AskTells(r.budget, calls);
    if Granted(r.budget) { RecordedTells(r.budget, calls, l.llm); }
  }

  lemma {:induction false} FlagsTell(r: Run, dup: bool, ids: seq<nat>, script: seq<Verdict>, calls: seq<bool>)
    requires |ids| <= |script| && Tells(r.budget, calls)
    ensures Tells(HandleFlags(r, dup, ids, script).budget, calls + FlagsCalls(r, dup, ids, script))
    decreases |ids|
  {
    if ids == [] || r.budget.abort != None {
      assert calls + [] == calls;
    } else {
      var next, more := HandleFlag(r, dup, ids[0], script[0]), FlagCalls(r, ids[0], script[0]);
      FlagTells(r, dup, ids[0], script[0], calls);
      FlagsTell(next, dup, ids[1..], script[1..], calls + more);
      var rest := FlagsCalls(next, dup, ids[1..], script[1..]);
      assert (calls + more) + rest == calls + (more + rest);
    }
  }

  lemma {:induction false} LessonsTell(r: Run, events: seq<Lesson>, calls: seq<bool>)
    requires Tells(r.budget, calls)
    ensures Tells(HandleLessons(r, events).budget, calls + LessonsCalls(r, events))
    decreases |events|
  {
    if events == [] || r.budget.abort != None {
      assert calls + [] == calls;
    } else {
      var next, more := HandleLesson(r, events[0]), LessonCalls(r, events[0]);
      LessonTells(r, events[0], calls);
      LessonsTell(next, events[1..], calls + more);
      var rest := LessonsCalls(next, events[1..]);
      assert (calls + more) + rest == calls + (more + rest);
    }
  }

  lemma RunTells(r: Run, s: Script)
    requires Tells(r.budget, [])
    ensures Tells(Worked(r, s).budget, RunCalls(r, s))
  {
    var a := FlagPhase(r, true, |s.duplicates|, s.duplicates);
    var b := FlagPhase(a, false, |s.forks|, s.forks);
    var first, second := PhaseCalls(r, true, s.duplicates), PhaseCalls(a, false, s.forks);
    FlagsTell(r, true, Page(r.lib, r.resolved, true, |s.duplicates|, |r.lib.flags|), s.duplicates, []);
    assert [] + first == first;
    FlagsTell(a, false, Page(a.lib, a.resolved, false, |s.forks|, |a.lib.flags|), s.forks, first);
    LessonsTell(b, s.events, first + second);
  }

  // ---------- Main results ----------

  // The books of the budget: every recorded call and every failure, within the maximum.
  lemma BudgetCountsCalls(lib: Library, resolved: set<nat>, maxFailures: nat, maxCalls: nat, s: Script)
    ensures var r := NewRun(lib, resolved, maxFailures, maxCalls);
            var end, calls := WholeRun(r, s), RunCalls(r, s);
            && end.budget.calls == |calls| <= maxCalls && end.budget.failures == Failures(calls)
            && (end.budget.abort == Some(BudgetReached) ==> |calls| == maxCalls)
  {
    RunTells(NewRun(lib, resolved, maxFailures, maxCalls), s);
    LimitsKept(NewRun(lib, resolved, maxFailures, maxCalls), s);
  }

  // The provider counts as down if and only if the last `maxFailures` recorded calls all
  // failed: a success in between starts the count anew.
  lemma ProviderDownIff(lib: Library, resolved: set<nat>, maxFailures: nat, maxCalls: nat, s: Script)
    requires 0 < maxFailures
    ensures var r := NewRun(lib, resolved, maxFailures, maxCalls);
            var calls := RunCalls(r, s);
            WholeRun(r, s).budget.abort == Some(ProviderDown) <==>
            (maxFailures <= |calls| && forall i :: |calls| - maxFailures <= i < |calls| ==> calls[i])
  {
    var r := NewRun(lib, resolved, maxFailures, maxCalls);
    RunTells(r, s);
    LimitsKept(r, s);
    StreakIff(RunCalls(r, s), maxFailures);
  }

  // The `m` calls before position `e` all failed.
  predicate AllFailed(calls: seq<bool>, e: nat, m: nat) {
    m <= e <= |calls| && forall i :: e - m <= i < e ==> calls[i]
  }

  // A run without that many failures in a row is never given up on the provider.
  lemma NoStreakNoAbort(lib: Library, resolved: set<nat>, maxFailures: nat, maxCalls: nat, s: Script)
    requires 0 < maxFailures
    requires var calls := RunCalls(NewRun(lib, resolved, maxFailures, maxCalls), s);
             forall e: nat :: !AllFailed(calls, e, maxFailures)
    ensures WholeRun(NewRun(lib, resolved, maxFailures, maxCalls), s).budget.abort != Some(ProviderDown)
  {
    ProviderDownIff(lib, resolved, maxFailures, maxCalls, s);
    var calls := RunCalls(NewRun(lib, resolved, maxFailures, maxCalls), s);
    assert !AllFailed(calls, |calls|, maxFailures);
  }

  lemma {:induction false} FlagsKeepLimits(r: Run, dup: bool, ids: seq<nat>, script: seq<Verdict>)
    requires |ids| <= |script|
    ensures var b := HandleFlags(r, dup, ids, script).budget;
            b.maxFailures == r.budget.maxFailures && b.maxCalls == r.budget.maxCalls
    decreases |ids|
  {
    if ids != [] && r.budget.abort == None {
      FlagsKeepLimits(HandleFlag(r, dup, ids[0], script[0]), dup, ids[1..], script[1..]);
    }
  }

  lemma {:induction false} LessonsKeepLimits(r: Run, events: seq<Lesson>)
    ensures var b := HandleLessons(r, events).budget;
            b.maxFailures == r.budget.maxFailures && b.maxCalls == r.budget.maxCalls
    decreases |events|
  {
    if events != [] && r.budget.abort == None {
      LessonsKeepLimits(HandleLesson(r, events[0]), events[1..]);
    }
  }

  lemma LimitsKept(r: Run, s: Script)
    ensures var b := Worked(r, s).budget; b.maxFailures == r.budget.maxFailures && b.maxCalls == r.budget.maxCalls
  {
    var a := FlagPhase(r, true, |s.duplicates|, s.duplicates);
    var b := FlagPhase(a, false, |s.forks|, s.forks);
    FlagsKeepLimits(r, true, Page(r.lib, r.resolved, true, |s.duplicates|, |r.lib.flags|), s.duplicates);
    FlagsKeepLimits(a, false, Page(a.lib, a.resolved, false, |s.forks|, |a.lib.flags|), s.forks);
    LessonsKeepLimits(b, s.events);
  }
}
