// Which tally each flag and lesson ends in, and what a merge or a harvest files.
module LibrarianFates {
  import opened Common
  import opened Knowledge
  import opened KnowledgeGraph
  import opened Merging
  import opened Librarian
  import opened LibrarianFacts

  // A flag that names a proposal or a missing entry is never judged.
  predicate Barred(lib: Library, k: nat) {
    k < |lib.flags|
    && var f, es := lib.flags[k], lib.entries;
       f.entry >= |es| || f.related >= |es| || es[f.entry].proposal || es[f.related].proposal
  }

  // Otherwise a flag is stale when one of its entries is no longer active.
  predicate Outdated(lib: Library, k: nat) {
    k < |lib.flags| && !Barred(lib, k)
    && (lib.entries[lib.flags[k].entry].status != Active || lib.entries[lib.flags[k].related].status != Active)
  }

  function One(b: bool): nat { if b then 1 else 0 }

  // One undisturbed flag: seen once, and in exactly the tally its case demands.
  lemma FlagTallied(r: Run, dup: bool, k: nat, v: Verdict)
    requires RunInv(r) && r.budget.abort == None && k < |r.lib.flags| && k !in r.resolved && v.crash == NoCrash
    ensures var b, live := HandleFlag(r, dup, k, v), LivePair(r.lib, k) && Granted(r.budget);
            && TallyOf(b, !dup) == TallyOf(r, !dup) && b.lessons == r.lessons
            && TallyOf(b, dup) == Tally(TallyOf(r, dup).seen + 1,
                                        TallyOf(r, dup).merged + One(live && v.llm.Approved?),
                                        TallyOf(r, dup).distinct + One(Barred(r.lib, k) || (live && v.llm.Declined?)),
                                        TallyOf(r, dup).stale + One(Outdated(r.lib, k)))
            && (k in b.resolved <==> Barred(r.lib, k) || Outdated(r.lib, k) || (live && Answered(v.llm)))
            && b.errors == r.errors + One(live && v.llm.CallRaised?)
  {
    var s := CountSeen(r, dup);
    if LivePair(r.lib, k) {
      LiveTallied(s, dup, k, v);
    } else {
      DeadTallied(s, dup, k, v);
    }
  }

  lemma DeadTallied(r: Run, dup: bool, k: nat, v: Verdict)
    requires k < |r.lib.flags| && !LivePair(r.lib, k) && v.crash == NoCrash
    ensures var b := Considered(r, dup, k, v);
            && TallyOf(b, !dup) == TallyOf(r, !dup) && b.lessons == r.lessons && b.errors == r.errors
            && k in b.resolved && (Barred(r.lib, k) || Outdated(r.lib, k))
            && TallyOf(b, dup) == TallyOf(r, dup).(distinct := TallyOf(r, dup).distinct + One(Barred(r.lib, k)),
                                                   stale := TallyOf(r, dup).stale + One(Outdated(r.lib, k)))
  {
  }

  lemma LiveTallied(r: Run, dup: bool, k: nat, v: Verdict)
    requires LibraryInv(r.lib) && LivePair(r.lib, k) && k !in r.resolved && v.crash == NoCrash
    ensures var b, asked := Considered(r, dup, k, v), Granted(r.budget);
            && TallyOf(b, !dup) == TallyOf(r, !dup) && b.lessons == r.lessons
            && b.errors == r.errors + One(asked && v.llm.CallRaised?)
            && (k in b.resolved <==> asked && Answered(v.llm))
            && TallyOf(b, dup) == TallyOf(r, dup).(merged := TallyOf(r, dup).merged + One(asked && v.llm.Approved?),
                                                   distinct := TallyOf(r, dup).distinct + One(asked && v.llm.Declined?))
  {
    if Granted(r.budget) && v.llm.Approved? {
      MergeLibrary(r.lib, k, v.llm.similar);
      var d := Deposited(r.lib, MergeBatch(r.lib, r.lib.flags[k], v.llm.similar));
      MergeTallied(r.(budget := AfterSuccess(r.budget)), d, dup, k);
    } else {
      UnmergedTallied(r, dup, k, v);
    }
  }

  lemma MergeTallied(r: Run, d: Option<(Library, seq<Ack>)>, dup: bool, k: nat)
    requires d.Some?
    ensures var b := AfterMerge(r, d, dup, k, NoCrash);
            && TallyOf(b, !dup) == TallyOf(r, !dup) && b.lessons == r.lessons && b.errors == r.errors && k in b.resolved
            && TallyOf(b, dup) == TallyOf(r, dup).(merged := TallyOf(r, dup).merged + 1)
  {
  }

  lemma UnmergedTallied(r: Run, dup: bool, k: nat, v: Verdict)
    requires LivePair(r.lib, k) && k !in r.resolved && v.crash == NoCrash && !(Granted(r.budget) && v.llm.Approved?)
    ensures var b, asked := Judged(r, dup, k, v), Granted(r.budget);
            && TallyOf(b, !dup) == TallyOf(r, !dup) && b.lessons == r.lessons
            && b.errors == r.errors + One(asked && v.llm.CallRaised?)
            && (k in b.resolved <==> asked && v.llm.Declined?)
            && TallyOf(b, dup) == TallyOf(r, dup).(distinct := TallyOf(r, dup).distinct + One(asked && v.llm.Declined?))
  {
  }

  // One undisturbed lesson.
  lemma LessonTallied(r: Run, l: Lesson)
    requires RunInv(r) && l.crash == NoCrash
    ensures var b, asked := HandleLesson(r, l), !l.covered && Granted(r.budget);
            && b.duplicates == r.duplicates && b.forks == r.forks && b.resolved == r.resolved
            && b.lessons == LessonTally(r.lessons.seen + 1, r.lessons.harvested + One(asked && l.llm.Approved?),
                                        r.lessons.skipped + One(l.covered || (asked && l.llm.Declined?)))
            && b.errors == r.errors + One(asked && l.llm.CallRaised?)
  {
    if l.llm.Approved? { HarvestLibrary(r.lib, l, l.llm.similar); }
  }

  // ---------- What is filed ----------

  // A merge files one library entry superseding both, under the newer one's namespace, and
  // under their project if they agree on one.
  lemma MergedEntry(lib: Library, k: nat, similar: seq<nat>)
    requires LibraryInv(lib) && LivePair(lib, k)
    ensures var f := lib.flags[k];
            var d, a, b := Deposited(lib, MergeBatch(lib, f, similar)), lib.entries[f.entry], lib.entries[f.related];
            d.Some? && |d.value.0.entries| == |lib.entries| + 1 &&
            var e := d.value.0.entries[|lib.entries|];
            && e.supersedes == [f.entry, f.related] && e.status == Active && !e.proposal
            && e.namespace == a.namespace && e.project == (if a.project == b.project then a.project else None)
            && d.value.0.entries[f.entry].status == Superseded && d.value.0.entries[f.related].status == Superseded
            && d.value.0.projects == lib.projects + {if a.project.Some? then a.project.value
                                                     else if b.project.Some? then b.project.value else SUMMARY_PROJECT}
  {
    var b := MergeBatch(lib, lib.flags[k], similar);
    FlagsNamePairs(lib, k);
    assert Mergeable(lib.entries, b.items[0].supersedes);
    FiledEntry(lib, b);
  }

  // A harvest files one lesson under its event's project.
  lemma HarvestedEntry(lib: Library, l: Lesson, similar: seq<nat>)
    requires LibraryInv(lib)
    ensures var d := Deposited(lib, LessonBatch(l, similar));
            d.Some? && |d.value.0.entries| == |lib.entries| + 1 &&
            var e := d.value.0.entries[|lib.entries|];
            && e.supersedes == [] && e.status == Active && !e.proposal
            && e.namespace == LESSONS && e.project == Some(l.project)
            && d.value.0.projects == lib.projects + {l.project}
  {
    FiledEntry(lib, LessonBatch(l, similar));
  }

  lemma FiledEntry(lib: Library, b: Batch)
    requires LibraryInv(lib) && FilesOne(lib, b)
    ensures var d, item := Deposited(lib, b), b.items[0];
            d.Some? && |d.value.0.entries| == |lib.entries| + 1 && d.value.0.projects == lib.projects + {b.project} &&
            var e := d.value.0.entries[|lib.entries|];
            && e.supersedes == item.supersedes && e.status == Active && !e.proposal && e.namespace == item.namespace
            && e.project == (if item.project.Inherited? then Some(b.project)
                             else if item.project.Universal? then None else Some(item.project.name))
            && forall x :: x in item.supersedes ==> d.value.0.entries[x].status == Superseded
  {
    MergeAccepted(lib, b);
    EntryEffect(lib, b);
    CreatedEntries(Progress(lib.entries, lib.flags, [], b.project), b.items[0], lib.deposits);
  }
}
