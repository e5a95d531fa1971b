// One librarian run: judge duplicate flags, then fork flags, then harvest lessons,
// under a call budget; then file a summary. Language-model outcomes and failures of
// single items are inputs.
module Librarian {
  import opened Common
  import opened Knowledge

  // ---------- The call budget ----------

  datatype AbortReason = BudgetReached | ProviderDown

  datatype Budget = Budget(maxFailures: nat, maxCalls: nat, calls: nat, consecutive: nat, failures: nat,
                           abort: Option<AbortReason>)

  predicate Granted(b: Budget) {
    b.abort == None && b.calls < b.maxCalls
  }

  function AfterAsk(b: Budget): Budget {
    if b.abort == None && b.calls >= b.maxCalls then b.(abort := Some(BudgetReached)) else b
  }

  function AfterSuccess(b: Budget): Budget {
    b.(calls := b.calls + 1, consecutive := 0)
  }

  function AfterFailure(b: Budget): Budget {
    b.(calls := b.calls + 1, consecutive := b.consecutive + 1, failures := b.failures + 1,
       abort := if b.consecutive + 1 >= b.maxFailures then Some(ProviderDown) else b.abort)
  }

  predicate BudgetInv(b: Budget) {
    && b.calls <= b.maxCalls && b.consecutive <= b.failures <= b.calls
    && (b.abort == None ==> b.consecutive == 0 || b.consecutive < b.maxFailures)
    && (b.abort == Some(BudgetReached) ==> b.calls == b.maxCalls)
    && (b.abort == Some(ProviderDown) ==> b.consecutive >= b.maxFailures)
  }

  class CallBudget {
    const maxFailures: nat
    const maxCalls: nat
    var calls: nat
    var consecutive: nat
    var failures: nat
    var abort: Option<AbortReason>

    function View(): Budget
      reads this
    {
      Budget(maxFailures, maxCalls, calls, consecutive, failures, abort)
    }

    constructor (maxFailures: nat, maxCalls: nat)
      ensures View() == Budget(maxFailures, maxCalls, 0, 0, 0, None) && BudgetInv(View())
    {
      this.maxFailures, this.maxCalls := maxFailures, maxCalls;
      calls, consecutive, failures, abort := 0, 0, 0, None;
    }

    method CanCall() returns (ok: bool)
      requires BudgetInv(View())
      modifies this
      ensures View() == AfterAsk(old(View())) && BudgetInv(View())
      ensures ok <==> Granted(old(View()))
    {
      if abort != None { return false; }
      if calls >= maxCalls {
        abort := Some(BudgetReached);
        return false;
      }
      ok := true;
    }

    method RecordSuccess()
      requires BudgetInv(View()) && Granted(View())
      modifies this
      ensures View() == AfterSuccess(old(View())) && BudgetInv(View())
    {
      calls, consecutive := calls + 1, 0;
    }

    method RecordFailure()
      requires BudgetInv(View()) && Granted(View())
      modifies this
      ensures View() == AfterFailure(old(View())) && BudgetInv(View())
    {
      calls, consecutive, failures := calls + 1, consecutive + 1, failures + 1;
      if consecutive >= maxFailures { abort := Some(ProviderDown); }
    }
  }

  // ---------- A run's state ----------

  // CallRaised: an unexpected exception in the call itself, unknown to the budget.
  // Declined: unparseable, not a duplicate, low confidence or empty text.
  datatype Llm = ProviderFailure | CallRaised | Declined | Approved(similar: seq<nat>)

  predicate Answered(llm: Llm) {
    llm.Declined? || llm.Approved?
  }

  datatype Crash = NoCrash | AtLoad | AtDeposit | AtResolve

  datatype Verdict = Verdict(llm: Llm, crash: Crash)
  datatype Lesson = Lesson(project: nat, covered: bool, llm: Llm, crash: Crash)

  datatype Tally = Tally(seen: nat, merged: nat, distinct: nat, stale: nat)
  datatype LessonTally = LessonTally(seen: nat, harvested: nat, skipped: nat)

  datatype Run = Run(lib: Library, resolved: set<nat>, duplicates: Tally, forks: Tally, lessons: LessonTally,
                     errors: nat, budget: Budget)

  datatype Phase = DuplicatePhase | ForkPhase | LessonPhase

  // What one run meets: a page size and the outcomes per flag type, the lesson
  // candidates, the phase whose listing raises, and whether the summary is filed.
  datatype Script = Script(duplicates: seq<Verdict>, forks: seq<Verdict>, events: seq<Lesson>,
                           outage: Option<Phase>, summarised: bool)

  const LESSONS: nat := 0          // the namespace harvested lessons are filed under
  const SUMMARY_PROJECT: nat := 0  // the project of run summaries

  function TallyOf(r: Run, dup: bool): Tally {
    if dup then r.duplicates else r.forks
  }

  function WithTally(r: Run, dup: bool, t: Tally): Run {
    if dup then r.(duplicates := t) else r.(forks := t)
  }

  // ---------- The queue ----------

  predicate Listed(lib: Library, resolved: set<nat>, dup: bool, k: nat) {
    k < |lib.flags| && k !in resolved && lib.flags[k].Duplicate? == dup
  }

  // Unresolved flags of one type among the first `k`, newest first, at most `cap`.
  function Page(lib: Library, resolved: set<nat>, dup: bool, cap: nat, k: nat): (page: seq<nat>)
    requires k <= |lib.flags|
    ensures |page| <= cap
    ensures forall i :: 0 <= i < |page| ==> page[i] < k && Listed(lib, resolved, dup, page[i])
    ensures forall i :: 0 <= i < |page| ==>
              page[i] < |lib.flags| && page[i] !in resolved && (lib.flags[page[i]].Duplicate? <==> dup)
    ensures forall i, j :: 0 <= i < j < |page| ==> page[i] > page[j]
  {
    if k == 0 || cap == 0 then []
    else if Listed(lib, resolved, dup, k - 1) then [k - 1] + Page(lib, resolved, dup, cap - 1, k - 1)
    else Page(lib, resolved, dup, cap, k - 1)
  }

  // A waiting flag is left out only when the page is full of newer ones.
  lemma {:induction false} PageIsNewest(lib: Library, resolved: set<nat>, dup: bool, cap: nat, k: nat, f: nat)
    requires f < k <= |lib.flags| && Listed(lib, resolved, dup, f)
    ensures var page := Page(lib, resolved, dup, cap, k);
            f in page || (|page| == cap && forall x :: x in page ==> f < x)
  {
    if cap > 0 && f < k - 1 {
      if Listed(lib, resolved, dup, k - 1) {
        PageIsNewest(lib, resolved, dup, cap - 1, k - 1, f);
      } else {
        PageIsNewest(lib, resolved, dup, cap, k - 1, f);
      }
    }
  }

  // ---------- One item ----------

  datatype Outcome = Merged | Distinctly | Stale

  function Tallied(t: Tally, o: Outcome): Tally {
    match o
    case Merged => t.(merged := t.merged + 1)
    case Distinctly => t.(distinct := t.distinct + 1)
    case Stale => t.(stale := t.stale + 1)
  }

  function Failed(r: Run): Run {
    r.(errors := r.errors + 1)
  }

  function Resolve(r: Run, dup: bool, k: nat, o: Outcome, crash: Crash): Run {
    if crash == AtResolve then Failed(r)
    else WithTally(r, dup, Tallied(TallyOf(r, dup), o)).(resolved := r.resolved + {k})
  }

  // Namespace of the newer entry; project if both agree, universal otherwise; filed
  // under either entry's project.
  function MergeBatch(lib: Library, f: Flag, similar: seq<nat>): Batch
    requires f.entry < |lib.entries| && f.related < |lib.entries|
  {
    var a, b := lib.entries[f.entry], lib.entries[f.related];
    var project := if a.project == b.project && a.project.Some? then Named(a.project.value) else Universal;
    var own := if a.project.Some? then a.project.value else if b.project.Some? then b.project.value else SUMMARY_PROJECT;
    Batch(own, [Create([f.entry, f.related], false, a.namespace, project, similar)])
  }

  function LessonBatch(l: Lesson, similar: seq<nat>): Batch {
    Batch(l.project, [Create([], false, LESSONS, Named(l.project), similar)])
  }

  // A flag whose entries are both active and no proposals.
  predicate LivePair(lib: Library, k: nat) {
    k < |lib.flags|
    && var f, es := lib.flags[k], lib.entries;
       && f.entry < |es| && es[f.entry].status == Active && !es[f.entry].proposal
       && f.related < |es| && es[f.related].status == Active && !es[f.related].proposal
  }

  // Two live library entries: ask the model, budget permitting.
  function Judged(r: Run, dup: bool, k: nat, v: Verdict): Run
    requires LivePair(r.lib, k)
  {
    if !Granted(r.budget) then r.(budget := AfterAsk(r.budget))
    else
      match v.llm
      case ProviderFailure => r.(budget := AfterFailure(r.budget))
      case CallRaised => Failed(r)
      case Declined => Resolve(r.(budget := AfterSuccess(r.budget)), dup, k, Distinctly, v.crash)
      case Approved(similar) => Merge(r.(budget := AfterSuccess(r.budget)), dup, k, similar, v.crash)
  }

  function Merge(r: Run, dup: bool, k: nat, similar: seq<nat>, crash: Crash): Run
    requires LivePair(r.lib, k)
  {
    AfterMerge(r, Deposited(r.lib, MergeBatch(r.lib, r.lib.flags[k], similar)), dup, k, crash)
  }

  function AfterMerge(r: Run, d: Option<(Library, seq<Ack>)>, dup: bool, k: nat, crash: Crash): Run {
    if crash == AtDeposit || d == None then Failed(r)
    else Resolve(r.(lib := d.value.0), dup, k, Merged, crash)
  }

  function CountSeen(r: Run, dup: bool): (s: Run)
    ensures s.lib == r.lib
  {
    var t := TallyOf(r, dup);
    WithTally(r, dup, t.(seen := t.seen + 1))
  }

  function HandleFlag(r0: Run, dup: bool, k: nat, v: Verdict): Run {
    if v.crash == AtLoad then Failed(r0)
    else if k >= |r0.lib.flags| || k in r0.resolved then r0
    else Considered(CountSeen(r0, dup), dup, k, v)
  }

  function Considered(r: Run, dup: bool, k: nat, v: Verdict): Run
    requires k < |r.lib.flags|
  {
    var f, es := r.lib.flags[k], r.lib.entries;
    if f.entry >= |es| || f.related >= |es| then Resolve(r, dup, k, Distinctly, v.crash)
    else if es[f.entry].proposal || es[f.related].proposal then Resolve(r, dup, k, Distinctly, v.crash)
    else if es[f.entry].status != Active || es[f.related].status != Active then Resolve(r, dup, k, Stale, v.crash)
    else Judged(r, dup, k, v)
  }

  function CountLesson(r: Run): Run {
    r.(lessons := r.lessons.(seen := r.lessons.seen + 1))
  }

  function Skipped(r: Run): Run {
    r.(lessons := r.lessons.(skipped := r.lessons.skipped + 1))
  }

  function HandleLesson(r0: Run, l: Lesson): Run {
    if l.crash == AtLoad then Failed(r0)
    else
      var r := CountLesson(r0);
      if l.covered then Skipped(r)
      else if !Granted(r.budget) then r.(budget := AfterAsk(r.budget))
      else
        match l.llm
        case ProviderFailure => r.(budget := AfterFailure(r.budget))
        case CallRaised => Failed(r)
        case Declined => Skipped(r.(budget := AfterSuccess(r.budget)))
        case Approved(similar) => Harvest(r.(budget := AfterSuccess(r.budget)), l, similar)
  }

  function Harvest(r: Run, l: Lesson, similar: seq<nat>): Run {
    AfterHarvest(r, Deposited(r.lib, LessonBatch(l, similar)), l.crash)
  }

  function AfterHarvest(r: Run, d: Option<(Library, seq<Ack>)>, crash: Crash): Run {
    if crash == AtDeposit || d == None then Failed(r)
    else r.(lib := d.value.0, lessons := r.lessons.(harvested := r.lessons.harvested + 1))
  }

  // ---------- The loops ----------

  function HandleFlags(r: Run, dup: bool, ids: seq<nat>, script: seq<Verdict>): Run
    requires |ids| <= |script|
    decreases |ids|
  {
    if ids == [] || r.budget.abort != None then r
    else HandleFlags(HandleFlag(r, dup, ids[0], script[0]), dup, ids[1..], script[1..])
  }

  function HandleLessons(r: Run, events: seq<Lesson>): Run
    decreases |events|
  {
    if events == [] || r.budget.abort != None then r
    else HandleLessons(HandleLesson(r, events[0]), events[1..])
  }

  function FlagPhase(r: Run, dup: bool, cap: nat, script: seq<Verdict>): Run
    requires cap <= |script|
  {
    HandleFlags(r, dup, Page(r.lib, r.resolved, dup, cap, |r.lib.flags|), script)
  }

  // The phases in order; the rest is skipped once the run is aborted or a listing raises.
  function Worked(r: Run, s: Script): Run {
    if s.outage == Some(DuplicatePhase) then Failed(r)
    else
      var a := FlagPhase(r, true, |s.duplicates|, s.duplicates);
      if a.budget.abort != None then a
      else if s.outage == Some(ForkPhase) then Failed(a)
      else
        var b := FlagPhase(a, false, |s.forks|, s.forks);
        if b.budget.abort != None then b
        else if s.outage == Some(LessonPhase) then Failed(b)
        else HandleLessons(b, s.events)
  }

  // Whether the run gets as far as the listing that raises.
  predicate Interrupted(r: Run, s: Script) {
    s.outage.Some? &&
    (s.outage.value == DuplicatePhase ||
     (var a := FlagPhase(r, true, |s.duplicates|, s.duplicates);
      a.budget.abort == None &&
      (s.outage.value == ForkPhase || FlagPhase(a, false, |s.forks|, s.forks).budget.abort == None)))
  }

  // The summary is an ordinary deposit without knowledge items.
  function Summarised(r: Run, filed: bool): Run {
    if !filed then Failed(r)
    else r.(lib := r.lib.(deposits := r.lib.deposits + 1, projects := r.lib.projects + {SUMMARY_PROJECT}))
  }

  function WholeRun(r: Run, s: Script): Run {
    Summarised(Worked(r, s), s.summarised)
  }

  function NewRun(lib: Library, resolved: set<nat>, maxFailures: nat, maxCalls: nat): Run {
    Run(lib, resolved, Tally(0, 0, 0, 0), Tally(0, 0, 0, 0), LessonTally(0, 0, 0), 0,
        Budget(maxFailures, maxCalls, 0, 0, 0, None))
  }
}
