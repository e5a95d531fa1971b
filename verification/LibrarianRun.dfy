// A librarian run as the program performs it: the budget, the tallies and the library
// updated step by step.
module LibrarianRuns {
  import opened Common
  import opened Knowledge
  import opened Librarian
  import opened LibrarianFacts

  datatype RunStatus = OkStatus | ErrorStatus | SkippedStatus

  class LibrarianRun {
    const store: KnowledgeStore
    const budget: CallBudget
    var resolved: set<nat>
    var duplicates: Tally
    var forks: Tally
    var lessons: LessonTally
    var errors: nat

    constructor (store: KnowledgeStore, resolved: set<nat>, maxFailures: nat, maxCalls: nat)
      ensures this.store == store && fresh(budget)
      ensures View() == NewRun(store.lib, resolved, maxFailures, maxCalls) && BudgetInv(budget.View())
    {
      this.store, this.resolved := store, resolved;
      budget := new CallBudget(maxFailures, maxCalls);
      duplicates, forks, lessons, errors := Tally(0, 0, 0, 0), Tally(0, 0, 0, 0), LessonTally(0, 0, 0), 0;
    }

    function View(): Run
      reads this, store, budget
    {
      Run(store.lib, resolved, duplicates, forks, lessons, errors, budget.View())
    }

    method ResolveFlag(dup: bool, k: nat, o: Outcome, crash: Crash)
      modifies this
      ensures View() == Resolve(old(View()), dup, k, o, crash)
    {
      if crash == AtResolve {
        errors := errors + 1;
        return;
      }
      resolved := resolved + {k};
      if dup { duplicates := Tallied(duplicates, o); } else { forks := Tallied(forks, o); }
    }

    method ProcessFlag(dup: bool, k: nat, v: Verdict)
      requires BudgetInv(budget.View())
      modifies this, store, budget
      ensures View() == HandleFlag(old(View()), dup, k, v) && BudgetInv(budget.View())
    {
      if v.crash == AtLoad {
        errors := errors + 1;
        return;
      }
      if k >= |store.lib.flags| || k in resolved { return; }
      MarkSeen(dup);
      ConsiderFlag(dup, k, v);
    }

    method MarkSeen(dup: bool)
      modifies this
      ensures View() == CountSeen(old(View()), dup)
    {
      if dup {
        duplicates := duplicates.(seen := duplicates.seen + 1);
      } else {
        forks := forks.(seen := forks.seen + 1);
      }
    }

    method ConsiderFlag(dup: bool, k: nat, v: Verdict)
      requires BudgetInv(budget.View()) && k < |store.lib.flags|
      modifies this, store, budget
      ensures View() == Considered(old(View()), dup, k, v) && BudgetInv(budget.View())
    {
      var f, es := store.lib.flags[k], store.lib.entries;
      if f.entry >= |es| || f.related >= |es| {
        ResolveFlag(dup, k, Distinctly, v.crash);
        return;
      }
      if es[f.entry].proposal || es[f.related].proposal {
        ResolveFlag(dup, k, Distinctly, v.crash);
        return;
      }
      if es[f.entry].status != Active || es[f.related].status != Active {
        ResolveFlag(dup, k, Stale, v.crash);
        return;
      }
      JudgeFlag(dup, k, v);
    }

    method JudgeFlag(dup: bool, k: nat, v: Verdict)
      requires BudgetInv(budget.View()) && LivePair(store.lib, k)
      modifies this, store, budget
      ensures View() == Judged(old(View()), dup, k, v) && BudgetInv(budget.View())
    {
      var ok := budget.CanCall();
      if !ok { return; }
      if v.llm.ProviderFailure? {
        budget.RecordFailure();
        return;
      }
      if v.llm.CallRaised? {
        errors := errors + 1;
        return;
      }
      budget.RecordSuccess();
      if v.llm.Declined? {
        ResolveFlag(dup, k, Distinctly, v.crash);
        return;
      }
      DepositMerge(dup, k, v.llm.similar, v.crash);
    }

    // Two transactions: the merge deposit commits, then the flag is resolved.
    method DepositMerge(dup: bool, k: nat, similar: seq<nat>, crash: Crash)
      requires LivePair(store.lib, k)
      modifies this, store
      ensures View() == Merge(old(View()), dup, k, similar, crash)
    {
      if crash == AtDeposit {
        errors := errors + 1;
        return;
      }
      var acks := store.CreateDeposit(MergeBatch(store.lib, store.lib.flags[k], similar));
      if acks == None {
        errors := errors + 1;
        return;
      }
      ResolveFlag(dup, k, Merged, crash);
    }

    method ProcessFlagType(dup: bool, cap: nat, script: seq<Verdict>)
      requires BudgetInv(budget.View()) && cap <= |script|
      modifies this, store, budget
      ensures View() == FlagPhase(old(View()), dup, cap, script) && BudgetInv(budget.View())
    {
      var ids := Page(store.lib, resolved, dup, cap, |store.lib.flags|);
      var i := 0;
      while i < |ids|
        invariant 0 <= i <= |ids| && BudgetInv(budget.View())
        invariant HandleFlags(View(), dup, ids[i..], script[i..]) == FlagPhase(old(View()), dup, cap, script)
      {
        if budget.abort != None { break; }
        assert ids[i..][1..] == ids[i + 1..] && script[i..][1..] == script[i + 1..];
        ProcessFlag(dup, ids[i], script[i]);
        i := i + 1;
      }
    }

    method HarvestLesson(l: Lesson)
      requires BudgetInv(budget.View())
      modifies this, store, budget
      ensures View() == HandleLesson(old(View()), l) && BudgetInv(budget.View())
    {
      if l.crash == AtLoad {
        errors := errors + 1;
        return;
      }
      lessons := lessons.(seen := lessons.seen + 1);
      if l.covered {
        lessons := lessons.(skipped := lessons.skipped + 1);
        return;
      }
      var ok := budget.CanCall();
      if !ok { return; }
      if l.llm.ProviderFailure? {
        budget.RecordFailure();
        return;
      }
      if l.llm.CallRaised? {
        errors := errors + 1;
        return;
      }
      budget.RecordSuccess();
      if l.llm.Declined? {
        lessons := lessons.(skipped := lessons.skipped + 1);
        return;
      }
      if l.crash == AtDeposit {
        errors := errors + 1;
        return;
      }
      var acks := store.CreateDeposit(LessonBatch(l, l.llm.similar));
      if acks == None {
        errors := errors + 1;
        return;
      }
      lessons := lessons.(harvested := lessons.harvested + 1);
    }

    method HarvestLessons(events: seq<Lesson>)
      requires BudgetInv(budget.View())
      modifies this, store, budget
      ensures View() == HandleLessons(old(View()), events) && BudgetInv(budget.View())
    {
      var i := 0;
      while i < |events|
        invariant 0 <= i <= |events| && BudgetInv(budget.View())
        invariant HandleLessons(View(), events[i..]) == HandleLessons(old(View()), events)
      {
        if budget.abort != None { break; }
        assert events[i..][1..] == events[i + 1..];
        HarvestLesson(events[i]);
        i := i + 1;
      }
    }

    // The phases up to the summary; true if a listing raised.
    method RunPhases(s: Script) returns (interrupted: bool)
      requires BudgetInv(budget.View())
      modifies this, store, budget
      ensures View() == Worked(old(View()), s) && BudgetInv(budget.View())
      ensures interrupted <==> Interrupted(old(View()), s)
    {
      if s.outage == Some(DuplicatePhase) {
        errors := errors + 1;
        return true;
      }
      ProcessFlagType(true, |s.duplicates|, s.duplicates);
      if budget.abort != None { return false; }
      if s.outage == Some(ForkPhase) {
        errors := errors + 1;
        return true;
      }
      ProcessFlagType(false, |s.forks|, s.forks);
      if budget.abort != None { return false; }
      if s.outage == Some(LessonPhase) {
        errors := errors + 1;
        return true;
      }
      HarvestLessons(s.events);
      interrupted := false;
    }

    method WriteSummary(filed: bool)
      modifies this, store
      ensures View() == Summarised(old(View()), filed)
    {
      if filed {
        assert Deposited(store.lib, Batch(SUMMARY_PROJECT, [])).Some?;
        var acks := store.CreateDeposit(Batch(SUMMARY_PROJECT, []));
      } else {
        errors := errors + 1;
      }
    }

    // No provider, or a revoked librarian: nothing happens. Otherwise the whole run,
    // which keeps the library sound and its books exact up to what slipped.
    method RunLibrarian(configured: bool, provisioned: bool, revoked: bool, s: Script) returns (status: RunStatus)
      requires BudgetInv(budget.View())
      modifies this, store, budget
      ensures configured && provisioned && !revoked ==>
                && View() == WholeRun(old(View()), s)
                && status == (if budget.abort != None || Interrupted(old(View()), s) || !s.summarised
                              then ErrorStatus else OkStatus)
      ensures old(RunInv(View())) && configured && provisioned && !revoked ==>
                && RunInv(View()) && Touches(old(store.lib), store.lib)
                && View().budget.calls <= budget.maxCalls
                && Actives(View()) == old(Actives(View())) - (MergedTotal(View()) - old(MergedTotal(View())))
                                      + (lessons.harvested - old(lessons.harvested)) - RunSlips(old(View()), s).hidden
      ensures !configured || (provisioned && revoked) ==> status == SkippedStatus && View() == old(View())
      ensures configured && !provisioned ==> status == ErrorStatus && View() == old(View())
    {
      if !configured { return SkippedStatus; }
      if !provisioned { return ErrorStatus; }
      if revoked { return SkippedStatus; }
      ghost var before := View();
      if RunInv(before) { RunKeeps(before, s); }
      var interrupted := RunPhases(s);
      status := if budget.abort != None || interrupted || !s.summarised then ErrorStatus else OkStatus;
      WriteSummary(s.summarised);
    }
  }

  lemma RunKeeps(r: Run, s: Script)
    requires RunInv(r)
    ensures var end := WholeRun(r, s);
            && RunInv(end) && Touches(r.lib, end.lib) && end.budget.maxCalls == r.budget.maxCalls
            && Actives(end) == Actives(r) - (MergedTotal(end) - MergedTotal(r))
                               + (end.lessons.harvested - r.lessons.harvested) - RunSlips(r, s).hidden
  {
    PhasesFollow(r, s);
  }
}
