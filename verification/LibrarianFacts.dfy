// What every librarian run keeps: the balance of active entries, the accounting of
// what was seen, a bound on all future work, and which entries it may touch.
module LibrarianFacts {
  import opened Common
  import opened Knowledge
  import opened KnowledgeGraph
  import opened Merging
  import opened Librarian

  // Unresolved flags among the first `n`.
  function OpenFlags(n: nat, resolved: set<nat>): nat {
    if n == 0 then 0 else OpenFlags(n - 1, resolved) + (if n - 1 in resolved then 0 else 1)
  }

  lemma {:induction false} ResolvingCloses(n: nat, resolved: set<nat>, k: nat)
    requires k !in resolved
    ensures OpenFlags(n, resolved + {k}) == OpenFlags(n, resolved) - (if k < n then 1 else 0)
  {
    if n > 0 {
      ResolvingCloses(n - 1, resolved, k);
    }
  }

  lemma {:induction false} NewFlagsAreOpen(n: nat, m: nat, resolved: set<nat>)
    requires n <= m && forall x :: x in resolved ==> x < n
    ensures OpenFlags(m, resolved) == OpenFlags(n, resolved) + (m - n)
  {
    if n < m {
      NewFlagsAreOpen(n, m - 1, resolved);
    }
  }

  function Open(r: Run): nat {
    OpenFlags(|r.lib.flags|, r.resolved)
  }

  function Actives(r: Run): nat {
    ActiveCount(r.lib.entries)
  }

  ghost predicate RunInv(r: Run) {
    LibraryInv(r.lib) && BudgetInv(r.budget) && forall k :: k in r.resolved ==> k < |r.lib.flags|
  }

  // ---------- Totals ----------

  function Seen(r: Run): nat {
    r.duplicates.seen + r.forks.seen + r.lessons.seen
  }

  function MergedTotal(r: Run): nat {
    r.duplicates.merged + r.forks.merged
  }

  // Flags a run disposed of.
  function Disposed(r: Run): nat {
    MergedTotal(r) + r.duplicates.distinct + r.forks.distinct + r.duplicates.stale + r.forks.stale
  }

  function Accounted(r: Run): nat {
    Disposed(r) + r.lessons.harvested + r.lessons.skipped + r.budget.failures
    + (if r.budget.abort == Some(BudgetReached) then 1 else 0)
  }

  // Each merge trades one active entry for at most five new flags.
  function Potential(r: Run): nat {
    (MAX_DUPLICATE_HINTS + 1) * Actives(r) + Open(r)
  }

  // ---------- How one run state follows another ----------

  // Where tallies and library part: `hidden` merges were committed but not tallied,
  // `lost` items were seen but not accounted for.
  datatype Slips = Slips(hidden: nat, lost: nat)

  function Plus(a: Slips, b: Slips): Slips {
    Slips(a.hidden + b.hidden, a.lost + b.lost)
  }

  const NO_SLIPS := Slips(0, 0)

  // A merge costs one active entry, a harvest adds one, and each is one deposit.
  predicate Balanced(a: Run, b: Run, s: Slips) {
    && MergedTotal(a) <= MergedTotal(b) && a.lessons.harvested <= b.lessons.harvested
    && var merges, harvests := MergedTotal(b) - MergedTotal(a) + s.hidden, b.lessons.harvested - a.lessons.harvested;
       && Actives(b) == Actives(a) - merges + harvests
       && b.lib.deposits == a.lib.deposits + merges + harvests
  }

  predicate Accounts(a: Run, b: Run, s: Slips) {
    && Disposed(a) <= Disposed(b)
    && Seen(b) - Seen(a) == Accounted(b) - Accounted(a) + s.lost
    && s.hidden <= s.lost <= b.errors - a.errors
  }

  // Work done is paid for out of the potential; only a harvest adds to it.
  predicate Pays(a: Run, b: Run) {
    && a.lessons.harvested <= b.lessons.harvested
    && Potential(b) + (Disposed(b) - Disposed(a))
       <= Potential(a) + (2 * MAX_DUPLICATE_HINTS + 1) * (b.lessons.harvested - a.lessons.harvested)
  }

  // Entries keep their links; only active library entries change, becoming superseded;
  // flags are only added, and only duplicate hints.
  ghost predicate Touches(a: Library, b: Library) {
    && SameLinks(a.entries, b.entries)
    && (forall i :: 0 <= i < |a.entries| && b.entries[i].status != a.entries[i].status ==>
          a.entries[i].status == Active && b.entries[i].status == Superseded && !a.entries[i].proposal)
    && a.flags <= b.flags
    && (forall k :: |a.flags| <= k < |b.flags| ==> b.flags[k].Duplicate?)
  }

  ghost predicate Follows(a: Run, b: Run, s: Slips) {
    && RunInv(b) && Balanced(a, b, s) && Accounts(a, b, s) && Pays(a, b)
    && Touches(a.lib, b.lib) && a.resolved <= b.resolved && b.budget.maxCalls == a.budget.maxCalls
  }

  // Fewer active entries, or as many and fewer unresolved flags.
  predicate Descends(a: Run, b: Run) {
    Actives(b) < Actives(a) || (Actives(b) == Actives(a) && Open(b) < Open(a))
  }

  // The flag was disposed of, or nothing was.
  predicate Moves(a: Run, b: Run, disposed: bool) {
    Disposed(b) == Disposed(a) + (if disposed then 1 else 0) && (disposed ==> Descends(a, b))
  }

  lemma FollowsSelf(a: Run)
    requires RunInv(a)
    ensures Follows(a, a, NO_SLIPS) && Moves(a, a, false)
  {
  }

  lemma TouchesTransitive(a: Library, b: Library, c: Library)
    requires Touches(a, b) && Touches(b, c)
    ensures Touches(a, c)
  {
    forall i | 0 <= i < |a.entries| && c.entries[i].status != a.entries[i].status
      ensures a.entries[i].status == Active && c.entries[i].status == Superseded && !a.entries[i].proposal
    {
      assert b.entries[i].proposal == a.entries[i].proposal;
    }
  }

  lemma FollowsTransitive(a: Run, b: Run, c: Run, s: Slips, t: Slips)
    requires Follows(a, b, s) && Follows(b, c, t)
    ensures Follows(a, c, Plus(s, t))
  {
    TouchesTransitive(a.lib, b.lib, c.lib);
  }

  // ---------- One flag ----------

  // Exactly when a step commits a merge it does not tally, or sees a flag it does not
  // account for.
  function FlagSlips(r: Run, k: nat, v: Verdict): Slips {
    if v.crash == AtLoad || k >= |r.lib.flags| || k in r.resolved then NO_SLIPS
    else SeenSlips(r, k, v)
  }

  function SeenSlips(r: Run, k: nat, v: Verdict): Slips {
    if !LivePair(r.lib, k) then Slips(0, if v.crash == AtResolve then 1 else 0)
    else if !Granted(r.budget) || v.llm.ProviderFailure? then NO_SLIPS
    else if v.llm.CallRaised? then Slips(0, 1)
    else if v.llm.Declined? then Slips(0, if v.crash == AtResolve then 1 else 0)
    else MergeSlips(v.crash)
  }

  function MergeSlips(crash: Crash): Slips {
    if crash == AtResolve then Slips(1, 1) else if crash == AtDeposit then Slips(0, 1) else NO_SLIPS
  }

  // Exactly when a step disposes of its flag.
  predicate Disposes(r: Run, k: nat, v: Verdict) {
    && v.crash != AtLoad && k < |r.lib.flags| && k !in r.resolved
    && SeenDisposes(r, k, v)
  }

  predicate SeenDisposes(r: Run, k: nat, v: Verdict) {
    && v.crash != AtResolve
    && (LivePair(r.lib, k) ==>
          && Granted(r.budget) && Answered(v.llm)
          && (v.llm.Approved? ==> v.crash != AtDeposit))
  }

  lemma ResolveFollows(r: Run, dup: bool, k: nat, o: Outcome, crash: Crash)
    requires RunInv(r) && k < |r.lib.flags| && k !in r.resolved
    ensures var b := Resolve(r, dup, k, o, crash);
            && RunInv(b) && b.lib == r.lib && b.budget == r.budget && Seen(b) == Seen(r) && b.lessons == r.lessons
            && r.resolved <= b.resolved
            && if crash == AtResolve then b.errors == r.errors + 1 && Disposed(b) == Disposed(r) && Open(b) == Open(r)
                                          && MergedTotal(b) == MergedTotal(r)
               else b.errors == r.errors && Disposed(b) == Disposed(r) + 1 && Open(b) == Open(r) - 1
                    && MergedTotal(b) == MergedTotal(r) + (if o == Merged then 1 else 0)
  {
    ResolvingCloses(|r.lib.flags|, r.resolved, k);
  }

  // `r` is `r0` with flag `k` counted as seen and perhaps one successful call recorded.
  ghost predicate JustSeen(r0: Run, r: Run, k: nat) {
    && RunInv(r0) && RunInv(r) && k < |r0.lib.flags| && k !in r0.resolved
    && r.lib == r0.lib && r.resolved == r0.resolved && r.lessons == r0.lessons && r.errors == r0.errors
    && r.budget.failures == r0.budget.failures && r.budget.abort == r0.budget.abort
    && r.budget.maxCalls == r0.budget.maxCalls
    && Seen(r) == Seen(r0) + 1 && Disposed(r) == Disposed(r0) && MergedTotal(r) == MergedTotal(r0)
  }

  lemma SettleFollows(r0: Run, r: Run, dup: bool, k: nat, o: Outcome, crash: Crash)
    requires JustSeen(r0, r, k) && o != Merged
    ensures var b := Resolve(r, dup, k, o, crash);
            && Follows(r0, b, Slips(0, if crash == AtResolve then 1 else 0)) && Moves(r0, b, crash != AtResolve)
  {
    ResolveFollows(r, dup, k, o, crash);
  }

  // One active entry fewer, no fork flag, at most five hints.
  ghost predicate MergedLibrary(a: Library, b: Library) {
    && LibraryInv(b) && Touches(a, b) && b.deposits == a.deposits + 1
    && ActiveCount(b.entries) == ActiveCount(a.entries) - 1
    && |b.flags| <= |a.flags| + MAX_DUPLICATE_HINTS
  }

  // Validation never refuses a merge of two live entries.
  lemma MergeLibrary(lib: Library, k: nat, similar: seq<nat>)
    requires LibraryInv(lib) && LivePair(lib, k)
    ensures var d := Deposited(lib, MergeBatch(lib, lib.flags[k], similar));
            d.Some? && MergedLibrary(lib, d.value.0)
  {
    var b := MergeBatch(lib, lib.flags[k], similar);
    FlagsNamePairs(lib, k);
    assert Mergeable(lib.entries, b.items[0].supersedes);
    MergeAccepted(lib, b);
    EntryEffect(lib, b);
  }

  lemma MergedFollows(r0: Run, r: Run, lib: Library, dup: bool, k: nat, crash: Crash)
    requires JustSeen(r0, r, k) && MergedLibrary(r.lib, lib) && crash != AtDeposit
    ensures var b := Resolve(r.(lib := lib), dup, k, Merged, crash);
            Follows(r0, b, MergeSlips(crash)) && Moves(r0, b, crash != AtResolve)
  {
    var m := r.(lib := lib);
    NewFlagsAreOpen(|r.lib.flags|, |lib.flags|, r.resolved);
    assert Seen(m) == Seen(r) && Disposed(m) == Disposed(r) && MergedTotal(m) == MergedTotal(r);
    ResolveFollows(m, dup, k, Merged, crash);
    MergeBalances(r0, m, Resolve(m, dup, k, Merged, crash), crash == AtResolve);
  }

  // The arithmetic of a merge, whether or not its flag got resolved.
  lemma MergeBalances(r0: Run, m: Run, b: Run, hidden: bool)
    requires RunInv(b) && b.lib == m.lib && b.budget == m.budget && b.lessons == r0.lessons
    requires MergedLibrary(r0.lib, m.lib) && r0.resolved <= b.resolved && b.budget.maxCalls == r0.budget.maxCalls
    requires m.budget.failures == r0.budget.failures && m.budget.abort == r0.budget.abort
    requires Open(m) <= Open(r0) + MAX_DUPLICATE_HINTS && Seen(b) == Seen(r0) + 1
    requires hidden ==> b.errors == r0.errors + 1 && Disposed(b) == Disposed(r0) && Open(b) == Open(m)
                        && MergedTotal(b) == MergedTotal(r0)
    requires !hidden ==> b.errors == r0.errors && Disposed(b) == Disposed(r0) + 1 && Open(b) == Open(m) - 1
                         && MergedTotal(b) == MergedTotal(r0) + 1
    ensures Follows(r0, b, if hidden then Slips(1, 1) else NO_SLIPS) && Moves(r0, b, !hidden)
  {
  }

  lemma MergeFollows(r0: Run, r: Run, dup: bool, k: nat, similar: seq<nat>, crash: Crash)
    requires JustSeen(r0, r, k) && LivePair(r.lib, k)
    ensures var b := Merge(r, dup, k, similar, crash);
            Follows(r0, b, MergeSlips(crash)) && Moves(r0, b, crash != AtResolve && crash != AtDeposit)
  {
    MergeLibrary(r.lib, k, similar);
    AfterMergeFollows(r0, r, Deposited(r.lib, MergeBatch(r.lib, r.lib.flags[k], similar)), dup, k, crash);
  }

  lemma AfterMergeFollows(r0: Run, r: Run, d: Option<(Library, seq<Ack>)>, dup: bool, k: nat, crash: Crash)
    requires JustSeen(r0, r, k) && d.Some? && MergedLibrary(r.lib, d.value.0)
    ensures var b := AfterMerge(r, d, dup, k, crash);
            Follows(r0, b, MergeSlips(crash)) && Moves(r0, b, crash != AtResolve && crash != AtDeposit)
  {
    if crash != AtDeposit {
      MergedFollows(r0, r, d.value.0, dup, k, crash);
    } else {
      RefusedFollows(r0, r, k);
    }
  }

  lemma RefusedFollows(r0: Run, r: Run, k: nat)
    requires JustSeen(r0, r, k)
    ensures Follows(r0, Failed(r), Slips(0, 1)) && Moves(r0, Failed(r), false)
  {
  }

  lemma JudgedFollows(r0: Run, r: Run, dup: bool, k: nat, v: Verdict)
    requires JustSeen(r0, r, k) && r.budget == r0.budget && r.budget.abort == None && LivePair(r.lib, k)
    ensures var b := Judged(r, dup, k, v);
            Follows(r0, b, SeenSlips(r0, k, v)) && Moves(r0, b, SeenDisposes(r0, k, v))
  {
    if Granted(r.budget) && v.llm.CallRaised? {
      RefusedFollows(r0, r, k);
    } else if Granted(r.budget) && !v.llm.ProviderFailure? {
      var asked := r.(budget := AfterSuccess(r.budget));
      assert Seen(asked) == Seen(r) && Disposed(asked) == Disposed(r) && MergedTotal(asked) == MergedTotal(r);
      if v.llm.Declined? {
        SettleFollows(r0, asked, dup, k, Distinctly, v.crash);
      } else {
        MergeFollows(r0, asked, dup, k, v.llm.similar, v.crash);
      }
    } else {
      UnaskedFollows(r0, r, k);
    }
  }

  // No call allowed, or the call failed: the flag waits for another run.
  lemma UnaskedFollows(r0: Run, r: Run, k: nat)
    requires JustSeen(r0, r, k) && r.budget == r0.budget && r.budget.abort == None
    ensures !Granted(r.budget) ==>
              var b := r.(budget := AfterAsk(r.budget)); Follows(r0, b, NO_SLIPS) && Moves(r0, b, false)
    ensures Granted(r.budget) ==>
              var b := r.(budget := AfterFailure(r.budget)); Follows(r0, b, NO_SLIPS) && Moves(r0, b, false)
  {
  }

  lemma FlagFollows(r: Run, dup: bool, k: nat, v: Verdict)
    requires RunInv(r) && r.budget.abort == None
    ensures var b := HandleFlag(r, dup, k, v);
            Follows(r, b, FlagSlips(r, k, v)) && Moves(r, b, Disposes(r, k, v))
  {
    if v.crash == AtLoad {
      FailedFollows(r);
    } else if k >= |r.lib.flags| || k in r.resolved {
      FollowsSelf(r);
    } else {
      CountedFollows(r, CountSeen(r, dup), dup, k, v);
    }
  }

  lemma CountedFollows(r: Run, s: Run, dup: bool, k: nat, v: Verdict)
    requires RunInv(r) && r.budget.abort == None && k < |r.lib.flags| && k !in r.resolved
    requires s == CountSeen(r, dup)
    ensures k < |s.lib.flags|
    ensures var b := Considered(s, dup, k, v);
            Follows(r, b, SeenSlips(r, k, v)) && Moves(r, b, SeenDisposes(r, k, v))
  {
    CountingSees(r, dup, k);
    FlagsNamePairs(r.lib, k);
    SeenFollows(r, s, dup, k, v);
  }

  lemma FailedFollows(r: Run)
    requires RunInv(r)
    ensures Follows(r, Failed(r), NO_SLIPS) && Moves(r, Failed(r), false)
  {
  }

  lemma CountingSees(r: Run, dup: bool, k: nat)
    requires RunInv(r) && k < |r.lib.flags| && k !in r.resolved
    ensures JustSeen(r, CountSeen(r, dup), k) && CountSeen(r, dup).budget == r.budget
  {
  }

  lemma SeenFollows(r0: Run, r: Run, dup: bool, k: nat, v: Verdict)
    requires JustSeen(r0, r, k) && r.budget == r0.budget && r.budget.abort == None
    requires r.lib.flags[k].entry < |r.lib.entries| && r.lib.flags[k].related < |r.lib.entries|
    ensures var b := Considered(r, dup, k, v);
            Follows(r0, b, SeenSlips(r0, k, v)) && Moves(r0, b, SeenDisposes(r0, k, v))
  {
    var f, es := r.lib.flags[k], r.lib.entries;
    if es[f.entry].proposal || es[f.related].proposal {
      SettleFollows(r0, r, dup, k, Distinctly, v.crash);
    } else if es[f.entry].status != Active || es[f.related].status != Active {
      SettleFollows(r0, r, dup, k, Stale, v.crash);
    } else {
      JudgedFollows(r0, r, dup, k, v);
    }
  }

  // A flag processed without failures is always disposed of, and that strictly
  // decreases (active entries, unresolved flags).
  lemma ProcessedFlagDescends(r: Run, dup: bool, k: nat, v: Verdict)
    requires RunInv(r) && k < |r.lib.flags| && k !in r.resolved
    requires v.crash == NoCrash && Granted(r.budget) && Answered(v.llm)
    ensures var b := HandleFlag(r, dup, k, v);
            Disposed(b) == Disposed(r) + 1 && Descends(r, b)
  {
    FlagFollows(r, dup, k, v);
  }

  // ---------- One lesson ----------

  function LessonSlips(r: Run, l: Lesson): Slips {
    if l.crash == AtLoad || l.covered || !Granted(r.budget) then NO_SLIPS
    else if l.llm.CallRaised? || (l.llm.Approved? && l.crash == AtDeposit) then Slips(0, 1) else NO_SLIPS
  }

  ghost predicate HarvestedLibrary(a: Library, b: Library) {
    && LibraryInv(b) && Touches(a, b) && b.deposits == a.deposits + 1
    && ActiveCount(b.entries) == ActiveCount(a.entries) + 1
    && |b.flags| <= |a.flags| + MAX_DUPLICATE_HINTS
  }

  lemma HarvestLibrary(lib: Library, l: Lesson, similar: seq<nat>)
    requires LibraryInv(lib)
    ensures var d := Deposited(lib, LessonBatch(l, similar));
            d.Some? && HarvestedLibrary(lib, d.value.0)
  {
    var b := LessonBatch(l, similar);
    MergeAccepted(lib, b);
    EntryEffect(lib, b);
  }

  // `s` is `r` with one lesson counted as seen and one successful call recorded.
  ghost predicate LessonSeen(r: Run, s: Run) {
    && RunInv(r) && BudgetInv(s.budget) && s == r.(budget := s.budget, lessons := s.lessons)
    && s.budget.failures == r.budget.failures && s.budget.abort == r.budget.abort
    && s.budget.maxCalls == r.budget.maxCalls
    && s.lessons == r.lessons.(seen := r.lessons.seen + 1)
  }

  lemma AfterHarvestFollows(r: Run, s: Run, d: Option<(Library, seq<Ack>)>, crash: Crash)
    requires LessonSeen(r, s) && d.Some? && HarvestedLibrary(r.lib, d.value.0)
    ensures Follows(r, AfterHarvest(s, d, crash), if crash == AtDeposit then Slips(0, 1) else NO_SLIPS)
  {
    if crash != AtDeposit {
      HarvestFollows(r, s, d.value.0);
    }
  }

  lemma HarvestFollows(r: Run, s: Run, lib: Library)
    requires LessonSeen(r, s) && HarvestedLibrary(r.lib, lib)
    ensures Follows(r, s.(lib := lib, lessons := s.lessons.(harvested := s.lessons.harvested + 1)), NO_SLIPS)
  {
    NewFlagsAreOpen(|r.lib.flags|, |lib.flags|, r.resolved);
  }

  lemma LessonFollows(r: Run, l: Lesson)
    requires RunInv(r) && r.budget.abort == None
    ensures Follows(r, HandleLesson(r, l), LessonSlips(r, l))
  {
    if l.crash != AtLoad && !l.covered && Granted(r.budget) && l.llm.Approved? {
      ApprovedLessonFollows(r, l);
    } else {
      QuietLessonFollows(r, l);
    }
  }

  lemma ApprovedLessonFollows(r: Run, l: Lesson)
    requires RunInv(r) && l.crash != AtLoad && !l.covered && Granted(r.budget) && l.llm.Approved?
    ensures Follows(r, HandleLesson(r, l), LessonSlips(r, l))
  {
    var c := CountLesson(r);
    HarvestedFollows(r, c.(budget := AfterSuccess(c.budget)), l, l.llm.similar);
  }

  lemma HarvestedFollows(r: Run, s: Run, l: Lesson, similar: seq<nat>)
    requires LessonSeen(r, s)
    ensures Follows(r, Harvest(s, l, similar), if l.crash == AtDeposit then Slips(0, 1) else NO_SLIPS)
  {
    HarvestLibrary(s.lib, l, similar);
    AfterHarvestFollows(r, s, Deposited(s.lib, LessonBatch(l, similar)), l.crash);
  }

  // Nothing harvested: the library is left alone.
  lemma QuietLessonFollows(r: Run, l: Lesson)
    requires RunInv(r) && r.budget.abort == None
    requires l.crash == AtLoad || l.covered || !Granted(r.budget) || !l.llm.Approved?
    ensures var b := HandleLesson(r, l);
            Follows(r, b, LessonSlips(r, l)) && b.lib == r.lib && b.resolved == r.resolved
  {
  }

  // ---------- Whole loops, phases and runs ----------

  function FlagsSlips(r: Run, dup: bool, ids: seq<nat>, script: seq<Verdict>): Slips
    requires |ids| <= |script|
    decreases |ids|
  {
    if ids == [] || r.budget.abort != None then NO_SLIPS
    else Plus(FlagSlips(r, ids[0], script[0]),
              FlagsSlips(HandleFlag(r, dup, ids[0], script[0]), dup, ids[1..], script[1..]))
  }

  function LessonsSlips(r: Run, events: seq<Lesson>): Slips
    decreases |events|
  {
    if events == [] || r.budget.abort != None then NO_SLIPS
    else Plus(LessonSlips(r, events[0]), LessonsSlips(HandleLesson(r, events[0]), events[1..]))
  }

  function PhaseSlips(r: Run, dup: bool, script: seq<Verdict>): Slips {
    FlagsSlips(r, dup, Page(r.lib, r.resolved, dup, |script|, |r.lib.flags|), script)
  }

  function RunSlips(r: Run, s: Script): Slips {
    if s.outage == Some(DuplicatePhase) then NO_SLIPS
    else
      var a := FlagPhase(r, true, |s.duplicates|, s.duplicates);
      var first := PhaseSlips(r, true, s.duplicates);
      if a.budget.abort != None || s.outage == Some(ForkPhase) then first
      else
        var b := FlagPhase(a, false, |s.forks|, s.forks);
        var both := Plus(first, PhaseSlips(a, false, s.forks));
        if b.budget.abort != None || s.outage == Some(LessonPhase) then both
        else Plus(both, LessonsSlips(b, s.events))
  }

  lemma {:induction false} FlagsFollow(r: Run, dup: bool, ids: seq<nat>, script: seq<Verdict>)
    requires RunInv(r) && |ids| <= |script|
    ensures Follows(r, HandleFlags(r, dup, ids, script), FlagsSlips(r, dup, ids, script))
    decreases |ids|
  {
    if ids == [] || r.budget.abort != None {
      FollowsSelf(r);
    } else {
      var next := HandleFlag(r, dup, ids[0], script[0]);
      FlagFollows(r, dup, ids[0], script[0]);
      FlagsFollow(next, dup, ids[1..], script[1..]);
      FollowsTransitive(r, next, HandleFlags(next, dup, ids[1..], script[1..]),
                        FlagSlips(r, ids[0], script[0]), FlagsSlips(next, dup, ids[1..], script[1..]));
    }
  }

  lemma {:induction false} LessonsFollow(r: Run, events: seq<Lesson>)
    requires RunInv(r)
    ensures Follows(r, HandleLessons(r, events), LessonsSlips(r, events))
    decreases |events|
  {
    if events == [] || r.budget.abort != None {
      FollowsSelf(r);
    } else {
      var next := HandleLesson(r, events[0]);
      LessonFollows(r, events[0]);
      LessonsFollow(next, events[1..]);
      FollowsTransitive(r, next, HandleLessons(next, events[1..]),
                        LessonSlips(r, events[0]), LessonsSlips(next, events[1..]));
    }
  }

  lemma PhaseFollows(r: Run, dup: bool, script: seq<Verdict>)
    requires RunInv(r)
    ensures Follows(r, FlagPhase(r, dup, |script|, script), PhaseSlips(r, dup, script))
  {
    FlagsFollow(r, dup, Page(r.lib, r.resolved, dup, |script|, |r.lib.flags|), script);
  }

  lemma PhasesFollow(r: Run, s: Script)
    requires RunInv(r)
    ensures Follows(r, Worked(r, s), RunSlips(r, s))
  {
    if s.outage == Some(DuplicatePhase) {
      FailedFollows(r);
    } else {
      var a := FlagPhase(r, true, |s.duplicates|, s.duplicates);
      PhaseFollows(r, true, s.duplicates);
      if a.budget.abort == None {
        if s.outage == Some(ForkPhase) {
          FailedAfter(r, a, PhaseSlips(r, true, s.duplicates));
        } else {
          LaterPhasesFollow(r, a, s);
        }
      }
    }
  }

  lemma FailedAfter(r: Run, a: Run, s: Slips)
    requires Follows(r, a, s)
    ensures Follows(r, Failed(a), s)
  {
    FailedFollows(a);
    FollowsTransitive(r, a, Failed(a), s, NO_SLIPS);
  }

  lemma LaterPhasesFollow(r: Run, a: Run, s: Script)
    requires RunInv(r) && Follows(r, a, PhaseSlips(r, true, s.duplicates)) && a.budget.abort == None
    requires a == FlagPhase(r, true, |s.duplicates|, s.duplicates)
    requires s.outage != Some(DuplicatePhase) && s.outage != Some(ForkPhase)
    ensures Follows(r, Worked(r, s), RunSlips(r, s))
  {
    var b := FlagPhase(a, false, |s.forks|, s.forks);
    var first, second := PhaseSlips(r, true, s.duplicates), PhaseSlips(a, false, s.forks);
    PhaseFollows(a, false, s.forks);
    FollowsTransitive(r, a, b, first, second);
    if b.budget.abort == None {
      if s.outage == Some(LessonPhase) {
        FailedAfter(r, b, Plus(first, second));
      } else {
        LessonsFollow(b, s.events);
        FollowsTransitive(r, b, HandleLessons(b, s.events), Plus(first, second), LessonsSlips(b, s.events));
      }
    }
  }

  ghost predicate LibraryOk(lib: Library, resolved: set<nat>) {
    LibraryInv(lib) && forall k :: k in resolved ==> k < |lib.flags|
  }

  // The books of a whole run, exactly: what is missing from the tallies is what slipped.
  lemma RunConserves(lib: Library, resolved: set<nat>, maxFailures: nat, maxCalls: nat, s: Script)
    requires LibraryOk(lib, resolved)
    ensures var r := NewRun(lib, resolved, maxFailures, maxCalls);
            var end, slips := WholeRun(r, s), RunSlips(r, s);
            && RunInv(end) && Touches(lib, end.lib) && end.budget.calls <= maxCalls
            && Actives(end) == ActiveCount(lib.entries) - MergedTotal(end) + end.lessons.harvested - slips.hidden
            && Seen(end) == Accounted(end) + slips.lost
            && slips.hidden <= slips.lost <= end.errors
  {
    PhasesFollow(NewRun(lib, resolved, maxFailures, maxCalls), s);
  }

  // So the balance holds if and only if no merge was committed whose flag then failed
  // to resolve, and the accounting if and only if no item failed after being seen.
  lemma BalanceIff(lib: Library, resolved: set<nat>, maxFailures: nat, maxCalls: nat, s: Script)
    requires LibraryOk(lib, resolved)
    ensures var r := NewRun(lib, resolved, maxFailures, maxCalls);
            var end := WholeRun(r, s);
            && (Actives(end) == ActiveCount(lib.entries) - MergedTotal(end) + end.lessons.harvested
                <==> RunSlips(r, s).hidden == 0)
            && (Seen(end) == Accounted(end) <==> RunSlips(r, s).lost == 0)
  {
    RunConserves(lib, resolved, maxFailures, maxCalls, s);
  }

  // The step that parts them, for every flag and state.
  lemma StepHidesMergeIff(r: Run, dup: bool, k: nat, v: Verdict)
    requires RunInv(r) && r.budget.abort == None
    ensures var b := HandleFlag(r, dup, k, v);
            Actives(b) - Actives(r) == -(MergedTotal(b) - MergedTotal(r)) <==>
            !(v.crash == AtResolve && v.llm.Approved? && LivePair(r.lib, k) && k !in r.resolved && Granted(r.budget))
  {
    FlagFollows(r, dup, k, v);
    LessonsUntouched(r, dup, k, v);
  }

  lemma LessonsUntouched(r: Run, dup: bool, k: nat, v: Verdict)
    ensures HandleFlag(r, dup, k, v).lessons == r.lessons
  {
  }

  // An approved merge whose flag cannot be resolved afterwards.
  const UNRESOLVABLE := Verdict(Approved([]), AtResolve)

  predicate Resolvable(script: seq<Verdict>) {
    forall i :: 0 <= i < |script| ==> !(script[i].crash == AtResolve && script[i].llm.Approved?)
  }

  // A script without such a verdict, whatever else fails, keeps the balance.
  lemma CalmRunConserves(lib: Library, resolved: set<nat>, maxFailures: nat, maxCalls: nat, s: Script)
    requires LibraryOk(lib, resolved) && Resolvable(s.duplicates) && Resolvable(s.forks)
    ensures var end := WholeRun(NewRun(lib, resolved, maxFailures, maxCalls), s);
            Actives(end) == ActiveCount(lib.entries) - MergedTotal(end) + end.lessons.harvested
  {
    RunConserves(lib, resolved, maxFailures, maxCalls, s);
    RunHidesNothing(NewRun(lib, resolved, maxFailures, maxCalls), s);
  }

  lemma RunHidesNothing(r: Run, s: Script)
    requires Resolvable(s.duplicates) && Resolvable(s.forks)
    ensures RunSlips(r, s).hidden == 0
  {
    var a := FlagPhase(r, true, |s.duplicates|, s.duplicates);
    PhaseHidesNothing(r, true, s.duplicates);
    PhaseHidesNothing(a, false, s.forks);
    LessonsHideNothing(FlagPhase(a, false, |s.forks|, s.forks), s.events);
  }

  lemma PhaseHidesNothing(r: Run, dup: bool, script: seq<Verdict>)
    requires Resolvable(script)
    ensures PhaseSlips(r, dup, script).hidden == 0
  {
    NothingHidden(r, dup, Page(r.lib, r.resolved, dup, |script|, |r.lib.flags|), script);
  }

  lemma {:induction false} NothingHidden(r: Run, dup: bool, ids: seq<nat>, script: seq<Verdict>)
    requires |ids| <= |script| && Resolvable(script)
    ensures FlagsSlips(r, dup, ids, script).hidden == 0
    decreases |ids|
  {
    if ids != [] && r.budget.abort == None {
      NothingHidden(HandleFlag(r, dup, ids[0], script[0]), dup, ids[1..], script[1..]);
    }
  }

  lemma {:induction false} LessonsHideNothing(r: Run, events: seq<Lesson>)
    ensures LessonsSlips(r, events).hidden == 0
    decreases |events|
  {
    if events != [] && r.budget.abort == None {
      LessonsHideNothing(HandleLesson(r, events[0]), events[1..]);
    }
  }

  // ---------- The witness: a merge the run does not count ----------

  const FIRST := Batch(0, [Create([], false, 0, Universal, [])])
  const TWIN := Batch(0, [Create([], false, 0, Universal, [0])])
  const LONE := Library([Entry([], Active, false, 0, None, 0)], [], 1, {0})

  lemma FirstDeposited()
    ensures Deposited(EMPTY, FIRST).Some? && Deposited(EMPTY, FIRST).value.0 == LONE
  {
    MergeAccepted(EMPTY, FIRST);
    assert DuplicateFlags(0, []) == [];
  }

  lemma TwinDeposited()
    ensures Deposited(LONE, TWIN).Some?
    ensures var lib := Deposited(LONE, TWIN).value.0;
            lib.flags == [Duplicate(1, 0)]
            && lib.entries == [Entry([], Active, false, 0, None, 0), Entry([], Active, false, 0, None, 1)]
  {
    TwinApplied();
    MergeAccepted(LONE, TWIN);
  }

  lemma TwinApplied()
    ensures var q := ApplyCreate(Progress(LONE.entries, [], [], 0), TWIN.items[0], 1);
            && q.entries == [Entry([], Active, false, 0, None, 0), Entry([], Active, false, 0, None, 1)]
            && q.flags == [Duplicate(1, 0)]
  {
    var es := LONE.entries + [Entry([], Active, false, 0, None, 1)];
    TwinHints(es);
    assert Unique([]) == [] && MarkAll(es, []) == es && ForkFlags(es, 1, []) == [];
  }

  lemma TwinHints(es: seq<Entry>)
    requires es == [Entry([], Active, false, 0, None, 0), Entry([], Active, false, 0, None, 1)]
    ensures DuplicateFlags(1, Hints(es, 1, [0])) == [Duplicate(1, 0)]
  {
    assert [0][..0] == [] && Hints(es, 1, []) == [] && IsCandidate(es, 1, 0);
    assert Hints(es, 1, [0]) == [0];
  }

  // Two deposits make two active entries and one duplicate flag.
  lemma TwinsDeposited()
    ensures var lib := Deposits(EMPTY, [FIRST, TWIN]);
            && lib.flags == [Duplicate(1, 0)]
            && lib.entries == [Entry([], Active, false, 0, None, 0), Entry([], Active, false, 0, None, 1)]
  {
    FirstDeposited();
    TwinDeposited();
    assert [FIRST, TWIN][1..] == [TWIN] && [TWIN][1..] == [];
    var two := Deposited(LONE, TWIN).value.0;
    assert Deposits(two, []) == two;
    assert Deposits(LONE, [TWIN]) == two;
  }

  const HIDING := Script([UNRESOLVABLE], [], [], None, true)

  // From that reachable library one run merges the twins, counts an error and no
  // merge, and leaves the flag unresolved.
  lemma RunHidesMerge()
    ensures var lib := Deposits(EMPTY, [FIRST, TWIN]);
            var end := WholeRun(NewRun(lib, {}, 3, 100), HIDING);
            && LibraryOk(lib, {}) && ActiveCount(lib.entries) == 2
            && Actives(end) == 1 && MergedTotal(end) == 0 && end.lessons.harvested == 0 && end.resolved == {}
  {
    var lib := Deposits(EMPTY, [FIRST, TWIN]);
    TwinsDeposited();
    DepositsKeepInv(EMPTY, [FIRST, TWIN]);
    TwinsActive(lib.entries);
    LoneFlagPage(lib);
    var r := NewRun(lib, {}, 3, 100);
    OneFlagRun(r);
    RunConserves(lib, {}, 3, 100, HIDING);
  }

  lemma LoneFlagPage(lib: Library)
    requires lib.flags == [Duplicate(1, 0)]
    ensures Page(lib, {}, true, 1, 1) == [0]
  {
    assert Page(lib, {}, true, 0, 0) == [];
  }

  lemma OneFlagRun(r: Run)
    requires RunInv(r) && Page(r.lib, r.resolved, true, 1, |r.lib.flags|) == [0]
    requires LivePair(r.lib, 0) && 0 !in r.resolved && Granted(r.budget)
    ensures var w := Worked(r, HIDING);
            && RunSlips(r, HIDING).hidden == 1
            && MergedTotal(w) == MergedTotal(r) && w.resolved == r.resolved && w.lessons == r.lessons
  {
    OneStepPhase(r);
    IdlePhases(FlagPhase(r, true, 1, HIDING.duplicates));
  }

  lemma IdlePhases(a: Run)
    ensures FlagPhase(a, false, 0, []) == a && PhaseSlips(a, false, []) == NO_SLIPS
    ensures HandleLessons(a, []) == a && LessonsSlips(a, []) == NO_SLIPS
  {
    assert Page(a.lib, a.resolved, false, 0, |a.lib.flags|) == [];
  }

  lemma TwinsActive(es: seq<Entry>)
    requires |es| == 2 && es[0].status == Active && es[1].status == Active
    ensures ActiveCount(es) == 2
  {
    assert es[..1][..0] == [] && ActiveCount(es[..1]) == 1 && es[..|es| - 1] == es[..1];
  }

  lemma OneStepPhase(r: Run)
    requires RunInv(r) && Page(r.lib, r.resolved, true, 1, |r.lib.flags|) == [0]
    requires LivePair(r.lib, 0) && 0 !in r.resolved && Granted(r.budget)
    ensures var a := FlagPhase(r, true, 1, [UNRESOLVABLE]);
            && PhaseSlips(r, true, [UNRESOLVABLE]) == Slips(1, 1)
            && MergedTotal(a) == MergedTotal(r) && a.resolved == r.resolved && a.lessons == r.lessons
  {
    UnresolvedTalliesNothing(r, true, 0, UNRESOLVABLE);
    LessonsUntouched(r, true, 0, UNRESOLVABLE);
    OneFlag(r, true, 0, UNRESOLVABLE);
  }

  lemma OneFlag(r: Run, dup: bool, k: nat, v: Verdict)
    requires r.budget.abort == None
    ensures HandleFlags(r, dup, [k], [v]) == HandleFlag(r, dup, k, v)
    ensures FlagsSlips(r, dup, [k], [v]) == Plus(FlagSlips(r, k, v), NO_SLIPS)
  {
    var a := HandleFlag(r, dup, k, v);
    assert [k][1..] == [] && [v][1..] == [];
    NoFlags(a, dup);
  }

  lemma NoFlags(a: Run, dup: bool)
    ensures HandleFlags(a, dup, [], []) == a && FlagsSlips(a, dup, [], []) == NO_SLIPS
  {
  }

  lemma UnresolvedTalliesNothing(r: Run, dup: bool, k: nat, v: Verdict)
    requires v.crash == AtResolve
    ensures var b := HandleFlag(r, dup, k, v); MergedTotal(b) == MergedTotal(r) && b.resolved == r.resolved
  {
  }
}
