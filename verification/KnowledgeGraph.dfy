// What any sequence of deposits keeps about supersession: no cycles, statuses that
// tell the truth, lineages that never cross the proposal boundary, exact fork flags.
module KnowledgeGraph {
  import opened Common
  import opened Knowledge

  ghost predicate HasChild(es: seq<Entry>, i: nat) {
    exists c :: 0 <= c < |es| && i in es[c].supersedes
  }

  // Parents are stored entries of strictly earlier deposits, on the same side of the
  // proposal boundary.
  ghost predicate LinksInv(es: seq<Entry>) {
    forall i: nat :: i < |es| ==> ParentsOk(es, es[i].supersedes, es[i].deposit, es[i].proposal)
  }

  ghost predicate ParentsOk(es: seq<Entry>, parents: seq<nat>, deposit: nat, proposal: bool) {
    forall x :: x in parents ==> x < |es| && es[x].deposit < deposit && es[x].proposal == proposal
  }

  ghost predicate StatusInv(es: seq<Entry>) {
    forall i :: 0 <= i < |es| ==>
      && (es[i].status == Active ==> !HasChild(es, i))
      && (es[i].status == Superseded ==> HasChild(es, i))
  }

  // Both entries name the parent, `r` the earlier one.
  ghost predicate AreFork(es: seq<Entry>, e: nat, r: nat, parent: nat) {
    r < e < |es| && parent in es[e].supersedes && parent in es[r].supersedes
  }

  ghost predicate ForkInv(es: seq<Entry>, fs: seq<Flag>) {
    forall e, r, p :: Occurs(fs, Fork(e, r, p)) == if AreFork(es, e, r, p) then 1 else 0
  }

  ghost predicate DuplicatesInv(es: seq<Entry>, fs: seq<Flag>) {
    forall k :: 0 <= k < |fs| && fs[k].Duplicate? ==> HintOk(es, fs[k].entry, fs[k].related)
  }

  // Two library entries of one namespace, neither the new entry's parent.
  ghost predicate HintOk(es: seq<Entry>, e: nat, r: nat) {
    && e < |es| && r < |es| && r != e
    && !es[e].proposal && !es[r].proposal && es[e].namespace == es[r].namespace
    && r !in es[e].supersedes
  }

  ghost predicate ProgressInv(p: Progress, deposit: nat) {
    && LinksInv(p.entries) && StatusInv(p.entries)
    && ForkInv(p.entries, p.flags) && DuplicatesInv(p.entries, p.flags)
    && forall i :: 0 <= i < |p.entries| ==> p.entries[i].deposit <= deposit
  }

  ghost predicate LibraryInv(lib: Library) {
    && LinksInv(lib.entries) && StatusInv(lib.entries)
    && ForkInv(lib.entries, lib.flags) && DuplicatesInv(lib.entries, lib.flags)
    && ProjectsInv(lib.entries, lib.projects)
    && forall i :: 0 <= i < |lib.entries| ==> lib.entries[i].deposit < lib.deposits
  }

  // No entry names an unregistered project.
  ghost predicate ProjectsInv(es: seq<Entry>, projects: set<nat>) {
    forall i :: 0 <= i < |es| && es[i].project.Some? ==> es[i].project.value in projects
  }

  // What validation against the stored library gives an item.
  ghost predicate ItemFits(es: seq<Entry>, item: Item, deposit: nat) {
    item.Create? ==> ParentsOk(es, item.supersedes, deposit, item.proposal)
  }

  // ---------- Counting fork flags ----------

  function Occurs(fs: seq<Flag>, f: Flag): nat {
    if fs == [] then 0 else Occurs(fs[..|fs| - 1], f) + (if fs[|fs| - 1] == f then 1 else 0)
  }

  lemma {:induction false} OccursAppend(a: seq<Flag>, b: seq<Flag>, f: Flag)
    ensures Occurs(a + b, f) == Occurs(a, f) + Occurs(b, f)
  {
    if b == [] {
      assert a + b == a;
    } else {
      assert (a + b)[..|a + b| - 1] == a + b[..|b| - 1];
      OccursAppend(a, b[..|b| - 1], f);
    }
  }

  lemma {:induction false} OccursIffIn(fs: seq<Flag>, f: Flag)
    ensures Occurs(fs, f) > 0 <==> f in fs
  {
    if fs != [] {
      OccursIffIn(fs[..|fs| - 1], f);
      assert fs == fs[..|fs| - 1] + [fs[|fs| - 1]];
    }
  }

  lemma {:induction false} SiblingFlagsCount(es: seq<Entry>, n: nat, parent: nat, k: nat, e: nat, r: nat, p: nat)
    requires k <= |es|
    ensures Occurs(SiblingFlags(es, n, parent, k), Fork(e, r, p)) ==
            if e == n && p == parent && r < k && r != n && parent in es[r].supersedes then 1 else 0
  {
    if k > 0 {
      SiblingFlagsCount(es, n, parent, k - 1, e, r, p);
      var rest := SiblingFlags(es, n, parent, k - 1);
      var last: seq<Flag> := if k - 1 != n && parent in es[k - 1].supersedes then [Fork(n, k - 1, parent)] else [];
      assert SiblingFlags(es, n, parent, k) == rest + last;
      OccursAppend(rest, last, Fork(e, r, p));
    }
  }

  lemma DistinctPrefix(ids: seq<nat>, x: nat)
    requires Distinct(ids) && ids != []
    ensures var rest, last := ids[..|ids| - 1], ids[|ids| - 1];
            Distinct(rest) && (x in ids <==> x in rest || x == last) && last !in rest
  {
    var rest, last := ids[..|ids| - 1], ids[|ids| - 1];
    assert ids == rest + [last];
    assert forall i :: 0 <= i < |rest| ==> rest[i] == ids[i];
  }

  lemma {:induction false} ForkFlagsCount(es: seq<Entry>, n: nat, parents: seq<nat>, e: nat, r: nat, p: nat)
    requires Distinct(parents)
    ensures Occurs(ForkFlags(es, n, parents), Fork(e, r, p)) ==
            if e == n && p in parents && r < |es| && r != n && p in es[r].supersedes then 1 else 0
  {
    if parents != [] {
      var rest, last := parents[..|parents| - 1], parents[|parents| - 1];
      ForkFlagsCount(es, n, rest, e, r, p);
      SiblingFlagsCount(es, n, last, |es|, e, r, p);
      DistinctPrefix(parents, p);
      OccursAppend(ForkFlags(es, n, rest), SiblingFlags(es, n, last, |es|), Fork(e, r, p));
    }
  }

  lemma DuplicateFlagsCount(n: nat, hints: seq<nat>, e: nat, r: nat, p: nat)
    ensures Occurs(DuplicateFlags(n, hints), Fork(e, r, p)) == 0
  {
    OccursIffIn(DuplicateFlags(n, hints), Fork(e, r, p));
  }

  // ---------- One created entry ----------

  lemma CreatedEntries(p: Progress, item: Item, deposit: nat)
    requires item.Create? && !MissingParent(p.entries, item)
    ensures var n, es := |p.entries|, ApplyCreate(p, item, deposit).entries;
            && |es| == n + 1 && SameLinks(p.entries, es)
            && es[n].supersedes == item.supersedes && es[n].proposal == item.proposal && es[n].namespace == item.namespace
            && es[n].deposit == deposit && es[n].status == Active && es[n].project == NewRow(item, p.project, deposit).project
            && forall i :: 0 <= i < n ==>
                 es[i].status == if p.entries[i].status == Active && i in item.supersedes then Superseded
                                 else p.entries[i].status
  {
    var grown := p.entries + [NewRow(item, p.project, deposit)];
    UniqueFacts(item.supersedes);
    assert forall i :: 0 <= i < |Unique(item.supersedes)| ==> Unique(item.supersedes)[i] in item.supersedes;
    MarkAllFacts(grown, Unique(item.supersedes));
  }

  lemma ChildrenAfterCreate(p: Progress, item: Item, deposit: nat, i: nat)
    requires item.Create? && !MissingParent(p.entries, item)
    ensures HasChild(ApplyCreate(p, item, deposit).entries, i) <==> HasChild(p.entries, i) || i in item.supersedes
  {
    CreatedEntries(p, item, deposit);
    ChildrenAfterGrowth(p.entries, ApplyCreate(p, item, deposit).entries, item.supersedes, i);
  }

  lemma ChildrenAfterGrowth(a: seq<Entry>, b: seq<Entry>, parents: seq<nat>, i: nat)
    requires SameLinks(a, b) && |b| == |a| + 1 && b[|a|].supersedes == parents
    ensures HasChild(b, i) <==> HasChild(a, i) || i in parents
  {
    if HasChild(a, i) {
      var c :| 0 <= c < |a| && i in a[c].supersedes;
      assert i in b[c].supersedes;
    }
    if i in parents {
      assert i in b[|a|].supersedes;
    }
    if HasChild(b, i) && !(i in parents) {
      var c :| 0 <= c < |b| && i in b[c].supersedes;
      assert i in a[c].supersedes;
    }
  }

  lemma NoChildYet(es: seq<Entry>, i: nat)
    requires LinksInv(es) && |es| <= i
    ensures !HasChild(es, i)
  {
    forall c | 0 <= c < |es| ensures i !in es[c].supersedes {
      assert ParentsOk(es, es[c].supersedes, es[c].deposit, es[c].proposal);
    }
  }

  lemma CreateKeepsStatus(p: Progress, item: Item, deposit: nat)
    requires LinksInv(p.entries) && StatusInv(p.entries) && item.Create? && !MissingParent(p.entries, item)
    ensures StatusInv(ApplyCreate(p, item, deposit).entries)
  {
    CreatedEntries(p, item, deposit);
    var es := ApplyCreate(p, item, deposit).entries;
    forall i | 0 <= i < |es|
      ensures (es[i].status == Active ==> !HasChild(es, i)) && (es[i].status == Superseded ==> HasChild(es, i))
    {
      ChildrenAfterCreate(p, item, deposit, i);
      if i == |p.entries| {
        NoChildYet(p.entries, i);
      }
    }
  }

  lemma CreateKeepsForks(p: Progress, item: Item, deposit: nat)
    requires LinksInv(p.entries) && ForkInv(p.entries, p.flags) && item.Create? && !MissingParent(p.entries, item)
    ensures ForkInv(ApplyCreate(p, item, deposit).entries, ApplyCreate(p, item, deposit).flags)
  {
    CreatedEntries(p, item, deposit);
    var q := ApplyCreate(p, item, deposit);
    var n := |p.entries|;
    forall e, r, x ensures Occurs(q.flags, Fork(e, r, x)) == if AreFork(q.entries, e, r, x) then 1 else 0 {
      ForksAfterCreate(p, item, deposit, e, r, x);
    }
  }

  lemma ForksAfterCreate(p: Progress, item: Item, deposit: nat, e: nat, r: nat, x: nat)
    requires ForkInv(p.entries, p.flags) && item.Create? && !MissingParent(p.entries, item)
    ensures var q := ApplyCreate(p, item, deposit);
            Occurs(q.flags, Fork(e, r, x)) == if AreFork(q.entries, e, r, x) then 1 else 0
  {
    FlagsAfterCreate(p, item, deposit, e, r, x);
    PairsAfterCreate(p, item, deposit, e, r, x);
    assert Occurs(p.flags, Fork(e, r, x)) == if AreFork(p.entries, e, r, x) then 1 else 0;
  }

  // The pairs the new entry forms with its elder siblings.
  ghost predicate NewPair(p: Progress, item: Item, e: nat, r: nat, x: nat)
    requires item.Create?
  {
    e == |p.entries| && r < |p.entries| && x in item.supersedes && x in p.entries[r].supersedes
  }

  lemma FlagsAfterCreate(p: Progress, item: Item, deposit: nat, e: nat, r: nat, x: nat)
    requires item.Create? && !MissingParent(p.entries, item)
    ensures Occurs(ApplyCreate(p, item, deposit).flags, Fork(e, r, x))
         == Occurs(p.flags, Fork(e, r, x)) + if NewPair(p, item, e, r, x) then 1 else 0
  {
    var n := |p.entries|;
    var grown := p.entries + [NewRow(item, p.project, deposit)];
    var parents := Unique(item.supersedes);
    UniqueFacts(item.supersedes);
    var forks := ForkFlags(grown, n, parents);
    var hints := if item.proposal then [] else Hints(ApplyCreate(p, item, deposit).entries, n, item.similar);
    ForkFlagsCount(grown, n, parents, e, r, x);
    DuplicateFlagsCount(n, hints, e, r, x);
    FlagsOfCreate(p, item, deposit);
    OccursAppend(p.flags + forks, DuplicateFlags(n, hints), Fork(e, r, x));
    OccursAppend(p.flags, forks, Fork(e, r, x));
  }

  lemma FlagsOfCreate(p: Progress, item: Item, deposit: nat)
    requires item.Create? && !MissingParent(p.entries, item)
    ensures var n := |p.entries|;
            var grown := p.entries + [NewRow(item, p.project, deposit)];
            var q := ApplyCreate(p, item, deposit);
            && |q.entries| == n + 1
            && q.flags == p.flags + ForkFlags(grown, n, Unique(item.supersedes))
                        + DuplicateFlags(n, if item.proposal then [] else Hints(q.entries, n, item.similar))
  {
    CreatedEntries(p, item, deposit);
    assert DuplicateFlags(|p.entries|, []) == [];
  }

  lemma PairsAfterCreate(p: Progress, item: Item, deposit: nat, e: nat, r: nat, x: nat)
    requires item.Create? && !MissingParent(p.entries, item)
    ensures AreFork(ApplyCreate(p, item, deposit).entries, e, r, x)
       <==> AreFork(p.entries, e, r, x) || NewPair(p, item, e, r, x)
    ensures !(AreFork(p.entries, e, r, x) && NewPair(p, item, e, r, x))
  {
    CreatedEntries(p, item, deposit);
    PairsAfterGrowth(p.entries, ApplyCreate(p, item, deposit).entries, item.supersedes, e, r, x);
  }

  lemma PairsAfterGrowth(a: seq<Entry>, b: seq<Entry>, parents: seq<nat>, e: nat, r: nat, x: nat)
    requires SameLinks(a, b) && |b| == |a| + 1 && b[|a|].supersedes == parents
    ensures AreFork(b, e, r, x) <==> AreFork(a, e, r, x) || (e == |a| && r < |a| && x in parents && x in a[r].supersedes)
  {
  }

  lemma {:induction false} SiblingFlagsAreForks(es: seq<Entry>, n: nat, parent: nat, k: nat)
    requires k <= |es|
    ensures forall f :: f in SiblingFlags(es, n, parent, k) ==> f.Fork?
  {
    if k > 0 {
      SiblingFlagsAreForks(es, n, parent, k - 1);
    }
  }

  lemma {:induction false} ForkFlagsAreForks(es: seq<Entry>, n: nat, parents: seq<nat>)
    ensures forall f :: f in ForkFlags(es, n, parents) ==> f.Fork?
  {
    if parents != [] {
      ForkFlagsAreForks(es, n, parents[..|parents| - 1]);
      SiblingFlagsAreForks(es, n, parents[|parents| - 1], |es|);
    }
  }

  lemma HintSurvivesGrowth(a: seq<Entry>, b: seq<Entry>, e: nat, r: nat)
    requires SameLinks(a, b) && HintOk(a, e, r)
    ensures HintOk(b, e, r)
  {
  }

  lemma {:induction false} NewHintsOk(p: Progress, item: Item, deposit: nat, h: nat)
    requires item.Create? && !item.proposal && !MissingParent(p.entries, item)
    requires var es := ApplyCreate(p, item, deposit).entries;
             |es| == |p.entries| + 1 && h in Hints(es, |p.entries|, item.similar)
    ensures HintOk(ApplyCreate(p, item, deposit).entries, |p.entries|, h)
  {
    CreatedEntries(p, item, deposit);
  }

  lemma CreateKeepsDuplicates(p: Progress, item: Item, deposit: nat)
    requires DuplicatesInv(p.entries, p.flags) && item.Create? && !MissingParent(p.entries, item)
    ensures DuplicatesInv(ApplyCreate(p, item, deposit).entries, ApplyCreate(p, item, deposit).flags)
  {
    var q := ApplyCreate(p, item, deposit);
    var n := |p.entries|;
    var grown := p.entries + [NewRow(item, p.project, deposit)];
    var forks := ForkFlags(grown, n, Unique(item.supersedes));
    CreatedEntries(p, item, deposit);
    ForkFlagsAreForks(grown, n, Unique(item.supersedes));
    FlagsOfCreate(p, item, deposit);
    var hints := if item.proposal then [] else Hints(q.entries, n, item.similar);
    forall h | h in hints ensures HintOk(q.entries, n, h) {
      NewHintsOk(p, item, deposit, h);
    }
    DuplicatesJoin(p.entries, q.entries, p.flags, forks, n, hints);
  }

  lemma DuplicatesJoin(a: seq<Entry>, b: seq<Entry>, fs: seq<Flag>, forks: seq<Flag>, n: nat, hints: seq<nat>)
    requires SameLinks(a, b) && DuplicatesInv(a, fs)
    requires forall f :: f in forks ==> f.Fork?
    requires forall h :: h in hints ==> HintOk(b, n, h)
    ensures DuplicatesInv(b, fs + forks + DuplicateFlags(n, hints))
  {
    var all := fs + forks + DuplicateFlags(n, hints);
    assert forall i :: 0 <= i < |forks| ==> forks[i] in forks;
    forall k | 0 <= k < |all| && all[k].Duplicate? ensures HintOk(b, all[k].entry, all[k].related) {
      if k < |fs| {
        HintSurvivesGrowth(a, b, fs[k].entry, fs[k].related);
      } else if |fs| + |forks| <= k {
        assert hints[k - |fs| - |forks|] in hints;
      }
    }
  }

  lemma ItemKeepsInv(p: Progress, item: Item, deposit: nat)
    requires ProgressInv(p, deposit) && ItemFits(p.entries, item, deposit) && !MissingParent(p.entries, item)
    requires ApplyItem(p, item, deposit).Some?
    ensures ProgressInv(ApplyItem(p, item, deposit).value, deposit)
  {
    if item.Create? {
      CreateKeepsLinks(p, item, deposit);
      CreateKeepsStatus(p, item, deposit);
      CreateKeepsForks(p, item, deposit);
      CreateKeepsDuplicates(p, item, deposit);
    } else {
      RetireKeepsInv(p, item.target, deposit);
    }
  }

  lemma CreateKeepsLinks(p: Progress, item: Item, deposit: nat)
    requires LinksInv(p.entries) && forall i :: 0 <= i < |p.entries| ==> p.entries[i].deposit <= deposit
    requires item.Create? && ItemFits(p.entries, item, deposit) && !MissingParent(p.entries, item)
    ensures var es := ApplyCreate(p, item, deposit).entries;
            LinksInv(es) && forall i :: 0 <= i < |es| ==> es[i].deposit <= deposit
  {
    CreatedEntries(p, item, deposit);
    LinksAfterGrowth(p.entries, ApplyCreate(p, item, deposit).entries, item, deposit);
  }

  lemma LinksAfterGrowth(a: seq<Entry>, b: seq<Entry>, item: Item, deposit: nat)
    requires LinksInv(a) && SameLinks(a, b) && |b| == |a| + 1
    requires item.Create? && ItemFits(a, item, deposit)
    requires var e := b[|a|]; e.supersedes == item.supersedes && e.proposal == item.proposal && e.deposit == deposit
    requires forall i :: 0 <= i < |a| ==> a[i].deposit <= deposit
    ensures LinksInv(b) && forall i :: 0 <= i < |b| ==> b[i].deposit <= deposit
  {
    forall i: nat | i < |b| ensures ParentsOk(b, b[i].supersedes, b[i].deposit, b[i].proposal) {
      if i < |a| {
        assert ParentsOk(a, a[i].supersedes, a[i].deposit, a[i].proposal);
      } else {
        assert ParentsOk(a, item.supersedes, deposit, item.proposal);
      }
    }
  }

  lemma RetireKeepsInv(p: Progress, t: nat, deposit: nat)
    requires ProgressInv(p, deposit) && t < |p.entries| && p.entries[t].status == Active
    ensures ProgressInv(p.(entries := p.entries[t := p.entries[t].(status := Retired)]), deposit)
  {
    var es := p.entries[t := p.entries[t].(status := Retired)];
    SameLinksSameGraph(p.entries, es, p.flags);
  }

  lemma SameLinksSameGraph(a: seq<Entry>, b: seq<Entry>, fs: seq<Flag>)
    requires SameLinks(a, b) && |a| == |b|
    requires LinksInv(a) && ForkInv(a, fs) && DuplicatesInv(a, fs)
    ensures LinksInv(b) && ForkInv(b, fs) && DuplicatesInv(b, fs)
    ensures forall i :: HasChild(b, i) <==> HasChild(a, i)
  {
    forall i ensures HasChild(b, i) <==> HasChild(a, i) {
      if HasChild(a, i) {
        var c :| 0 <= c < |a| && i in a[c].supersedes;
        assert i in b[c].supersedes;
      }
      if HasChild(b, i) {
        var c :| 0 <= c < |b| && i in b[c].supersedes;
        assert i in a[c].supersedes;
      }
    }
    forall i: nat | i < |b| ensures ParentsOk(b, b[i].supersedes, b[i].deposit, b[i].proposal) {
      assert ParentsOk(a, a[i].supersedes, a[i].deposit, a[i].proposal);
    }
    forall e, r, x ensures Occurs(fs, Fork(e, r, x)) == if AreFork(b, e, r, x) then 1 else 0 {
      assert AreFork(b, e, r, x) <==> AreFork(a, e, r, x);
    }
  }

  // ---------- A batch, a deposit, a sequence of deposits ----------

  lemma FitsAfterGrowth(a: seq<Entry>, b: seq<Entry>, item: Item, deposit: nat)
    requires SameLinks(a, b) && ItemFits(a, item, deposit)
    ensures ItemFits(b, item, deposit)
  {
  }

  lemma {:induction false} ItemsKeepInv(p: Progress, items: seq<Item>, deposit: nat)
    requires ProgressInv(p, deposit)
    requires forall i :: 0 <= i < |items| ==> ItemFits(p.entries, items[i], deposit) && !MissingParent(p.entries, items[i])
    requires ApplyItems(p, items, deposit).Some?
    ensures ProgressInv(ApplyItems(p, items, deposit).value, deposit)
    decreases |items|
  {
    if items != [] {
      var q := ApplyItem(p, items[0], deposit).value;
      ItemKeepsInv(p, items[0], deposit);
      ItemGrows(p, items[0], deposit);
      forall i | 0 <= i < |items[1..]|
        ensures ItemFits(q.entries, items[1..][i], deposit) && !MissingParent(q.entries, items[1..][i])
      {
        assert items[1..][i] == items[i + 1];
        FitsAfterGrowth(p.entries, q.entries, items[i + 1], deposit);
        assert !MissingParent(p.entries, items[i + 1]);
      }
      ItemsKeepInv(q, items[1..], deposit);
    }
  }

  lemma {:induction false} ItemsKeepProjects(p: Progress, items: seq<Item>, deposit: nat, projects: set<nat>)
    requires ProjectsInv(p.entries, projects) && p.project in projects
    requires forall i :: 0 <= i < |items| ==> !MissingParent(p.entries, items[i])
    requires forall i :: 0 <= i < |items| ==> !UnknownProject(projects, p.project, items[i])
    requires ApplyItems(p, items, deposit).Some?
    ensures ProjectsInv(ApplyItems(p, items, deposit).value.entries, projects)
    decreases |items|
  {
    if items != [] {
      var q := ApplyItem(p, items[0], deposit).value;
      TailAfterItem(p, items, deposit);
      ItemGrows(p, items[0], deposit);
      ItemKeepsProjects(p, items[0], deposit, projects);
      assert forall i :: 0 <= i < |items[1..]| ==> items[1..][i] == items[i + 1];
      ItemsKeepProjects(q, items[1..], deposit, projects);
    }
  }

  lemma ItemKeepsProjects(p: Progress, item: Item, deposit: nat, projects: set<nat>)
    requires ProjectsInv(p.entries, projects) && p.project in projects && !MissingParent(p.entries, item)
    requires !UnknownProject(projects, p.project, item) && ApplyItem(p, item, deposit).Some?
    ensures ProjectsInv(ApplyItem(p, item, deposit).value.entries, projects)
  {
    if item.Create? { CreateKeepsProjects(p, item, deposit, projects); }
  }

  lemma CreateKeepsProjects(p: Progress, item: Item, deposit: nat, projects: set<nat>)
    requires ProjectsInv(p.entries, projects) && p.project in projects && item.Create?
    requires !MissingParent(p.entries, item) && !UnknownProject(projects, p.project, item)
    ensures ProjectsInv(ApplyCreate(p, item, deposit).entries, projects)
  {
    CreatedEntries(p, item, deposit);
    ProjectsAfterGrowth(p.entries, ApplyCreate(p, item, deposit).entries, projects, NewRow(item, p.project, deposit).project);
  }

  lemma ProjectsAfterGrowth(a: seq<Entry>, b: seq<Entry>, projects: set<nat>, project: Option<nat>)
    requires ProjectsInv(a, projects) && SameLinks(a, b) && |b| == |a| + 1 && b[|a|].project == project
    requires project.Some? ==> project.value in projects
    ensures ProjectsInv(b, projects)
  {
  }

  lemma ValidatedItemsFit(lib: Library, items: seq<Item>, i: nat)
    requires LibraryInv(lib) && ReferencesOk(lib.entries, items) && i < |items|
    ensures ItemFits(lib.entries, items[i], lib.deposits)
  {
    if items[i].Create? {
      forall x | x in items[i].supersedes
        ensures x < |lib.entries| && lib.entries[x].deposit < lib.deposits && lib.entries[x].proposal == items[i].proposal
      {
        assert !MissingParent(lib.entries, items[i]) && !CrossesBoundary(lib.entries, items[i], items[i].proposal);
      }
    }
  }

  lemma DepositKeepsInv(lib: Library, b: Batch)
    requires LibraryInv(lib) && Deposited(lib, b).Some?
    ensures LibraryInv(Deposited(lib, b).value.0)
  {
    var items := b.items;
    forall i | 0 <= i < |items|
      ensures ItemFits(lib.entries, items[i], lib.deposits) && !MissingParent(lib.entries, items[i])
    {
      ValidatedItemsFit(lib, items, i);
    }
    var start := Progress(lib.entries, lib.flags, [], b.project);
    ItemsKeepInv(start, items, lib.deposits);
    ItemsKeepProjects(start, items, lib.deposits, lib.projects + {b.project});
  }

  // Serial deposits, rejected ones changing nothing.
  function Deposits(lib: Library, batches: seq<Batch>): Library
    decreases |batches|
  {
    if batches == [] then lib
    else
      var d := Deposited(lib, batches[0]);
      Deposits(if d == None then lib else d.value.0, batches[1..])
  }

  lemma {:induction false} DepositsKeepInv(lib: Library, batches: seq<Batch>)
    requires LibraryInv(lib)
    ensures LibraryInv(Deposits(lib, batches))
    decreases |batches|
  {
    if batches != [] {
      var d := Deposited(lib, batches[0]);
      if d.Some? { DepositKeepsInv(lib, batches[0]); }
      DepositsKeepInv(if d == None then lib else d.value.0, batches[1..]);
    }
  }

  // ---------- Consequences ----------

  const EMPTY := Library([], [], 0, {})

  // A walk along `supersedes`, from an entry towards its ancestors.
  ghost predicate IsLineage(es: seq<Entry>, path: seq<nat>) {
    && path != [] && (forall k :: 0 <= k < |path| ==> path[k] < |es|)
    && forall k :: 0 <= k < |path| - 1 ==> path[k + 1] in es[path[k]].supersedes
  }

  lemma {:induction false} LineageDescends(es: seq<Entry>, path: seq<nat>, i: nat, j: nat)
    requires LinksInv(es) && IsLineage(es, path) && i < j < |path|
    ensures es[path[j]].deposit < es[path[i]].deposit && es[path[j]].proposal == es[path[i]].proposal
  {
    var near := es[path[j - 1]];
    assert path[j - 1 + 1] in near.supersedes && ParentsOk(es, near.supersedes, near.deposit, near.proposal);
    if i < j - 1 {
      LineageDescends(es, path, i, j - 1);
    }
  }

  // No entry is its own ancestor, and a lineage never crosses the proposal boundary.
  lemma SupersessionIsAcyclic(batches: seq<Batch>, path: seq<nat>, i: nat, j: nat)
    requires var es := Deposits(EMPTY, batches).entries; IsLineage(es, path) && i < j < |path|
    ensures var es := Deposits(EMPTY, batches).entries;
            && path[i] != path[j]
            && path[i] < |es| && path[j] < |es| && es[path[i]].proposal == es[path[j]].proposal
  {
    DepositsKeepInv(EMPTY, batches);
    LineageDescends(Deposits(EMPTY, batches).entries, path, i, j);
  }

  // Active means exactly: not retired, and nothing supersedes it.
  lemma ActiveIff(batches: seq<Batch>, i: nat)
    requires i < |Deposits(EMPTY, batches).entries|
    ensures var es := Deposits(EMPTY, batches).entries;
            es[i].status == Active <==> es[i].status != Retired && !HasChild(es, i)
  {
    DepositsKeepInv(EMPTY, batches);
  }

  // For each parent, exactly one fork flag per unordered pair of entries naming it,
  // raised by the later of the two; none otherwise.
  lemma ForkFlagsExact(batches: seq<Batch>, a: nat, b: nat, parent: nat)
    requires var es := Deposits(EMPTY, batches).entries; a < b < |es|
    ensures var lib := Deposits(EMPTY, batches);
            var both := parent in lib.entries[a].supersedes && parent in lib.entries[b].supersedes;
            && Occurs(lib.flags, Fork(b, a, parent)) == (if both then 1 else 0)
            && Occurs(lib.flags, Fork(a, b, parent)) == 0
  {
    DepositsKeepInv(EMPTY, batches);
  }

  // An entry's project is always registered, although only a deposit's own project
  // is registered on arrival.
  lemma EntryProjectsRegistered(batches: seq<Batch>, i: nat)
    requires i < |Deposits(EMPTY, batches).entries|
    ensures var lib := Deposits(EMPTY, batches);
            lib.entries[i].project.Some? ==> lib.entries[i].project.value in lib.projects
  {
    DepositsKeepInv(EMPTY, batches);
  }

  // ---------- Terminal statuses ----------

  ghost predicate StatusesSettle(a: seq<Entry>, b: seq<Entry>) {
    SameLinks(a, b) && forall i :: 0 <= i < |a| && a[i].status != Active ==> b[i].status == a[i].status
  }

  lemma {:induction false} ItemsSettle(p: Progress, items: seq<Item>, deposit: nat)
    requires forall i :: 0 <= i < |items| ==> !MissingParent(p.entries, items[i])
    requires ApplyItems(p, items, deposit).Some?
    ensures StatusesSettle(p.entries, ApplyItems(p, items, deposit).value.entries)
    decreases |items|
  {
    if items != [] {
      var q := ApplyItem(p, items[0], deposit).value;
      ItemGrows(p, items[0], deposit);
      if items[0].Create? { CreatedEntries(p, items[0], deposit); }
      assert forall i :: 0 <= i < |items[1..]| ==>
        items[1..][i] == items[i + 1] && !MissingParent(p.entries, items[i + 1]);
      ItemsSettle(q, items[1..], deposit);
    }
  }

  // Superseded and retired are for ever, and links never change.
  lemma {:induction false} SettledForEver(lib: Library, batches: seq<Batch>)
    ensures StatusesSettle(lib.entries, Deposits(lib, batches).entries)
    decreases |batches|
  {
    if batches != [] {
      var d := Deposited(lib, batches[0]);
      if d.Some? {
        ItemsSettle(Progress(lib.entries, lib.flags, [], batches[0].project), batches[0].items, lib.deposits);
      }
      SettledForEver(if d == None then lib else d.value.0, batches[1..]);
    }
  }

  // ---------- The acknowledgment ----------

  function CreatesBefore(items: seq<Item>, k: nat): nat
    requires k <= |items|
  {
    if k == 0 then 0 else CreatesBefore(items, k - 1) + (if items[k - 1].Create? then 1 else 0)
  }

  function ExpectedAck(stored: nat, items: seq<Item>, k: nat): Ack
    requires k < |items|
  {
    if items[k].Retire? then RetiredAck(items[k].target) else CreatedAck(stored + CreatesBefore(items, k))
  }

  lemma {:induction false} CreatesBeforeTail(items: seq<Item>, k: nat)
    requires 0 < k <= |items|
    ensures CreatesBefore(items, k) == (if items[0].Create? then 1 else 0) + CreatesBefore(items[1..], k - 1)
  {
    if k > 1 {
      CreatesBeforeTail(items, k - 1);
    }
  }

  lemma TailAfterItem(p: Progress, items: seq<Item>, deposit: nat)
    requires items != [] && forall i :: 0 <= i < |items| ==> !MissingParent(p.entries, items[i])
    requires ApplyItems(p, items, deposit).Some?
    ensures ApplyItem(p, items[0], deposit).Some?
    ensures var q := ApplyItem(p, items[0], deposit).value;
            && (forall i :: 0 <= i < |items[1..]| ==> !MissingParent(q.entries, items[1..][i]))
            && ApplyItems(p, items, deposit) == ApplyItems(q, items[1..], deposit)
            && |q.entries| == |p.entries| + (if items[0].Create? then 1 else 0)
            && q.acks == p.acks + [ExpectedAck(|p.entries|, items, 0)]
  {
    ItemGrows(p, items[0], deposit);
    assert forall i :: 0 <= i < |items[1..]| ==>
      items[1..][i] == items[i + 1] && !MissingParent(p.entries, items[i + 1]);
  }

  lemma {:induction false} ItemsAcknowledged(p: Progress, items: seq<Item>, deposit: nat, k: nat)
    requires forall i :: 0 <= i < |items| ==> !MissingParent(p.entries, items[i])
    requires ApplyItems(p, items, deposit).Some?
    ensures var acks := ApplyItems(p, items, deposit).value.acks;
            && |acks| == |p.acks| + |items| && p.acks <= acks
            && (k < |items| ==> acks[|p.acks| + k] == ExpectedAck(|p.entries|, items, k))
    decreases |items|
  {
    if items != [] {
      TailAfterItem(p, items, deposit);
      var q := ApplyItem(p, items[0], deposit).value;
      ItemsAcknowledged(q, items[1..], deposit, if k == 0 then 0 else k - 1);
      if 0 < k < |items| {
        CreatesBeforeTail(items, k);
      }
    }
  }

  // One acknowledgment per item, in order; created entries are numbered as stored.
  lemma DepositAcknowledged(lib: Library, b: Batch, k: nat)
    requires Deposited(lib, b).Some? && k < |b.items|
    ensures var acks := Deposited(lib, b).value.1;
            |acks| == |b.items| && acks[k] == ExpectedAck(|lib.entries|, b.items, k)
  {
    ItemsAcknowledged(Progress(lib.entries, lib.flags, [], b.project), b.items, lib.deposits, k);
  }

  // ---------- What a created entry says, and its duplicate hints ----------

  // The entry created by an item: its fields, and its project by inheritance, by name, or
  // universal.
  lemma CreatedAsAsked(p: Progress, item: Item, deposit: nat)
    requires item.Create? && !MissingParent(p.entries, item)
    ensures var e := ApplyCreate(p, item, deposit).entries;
            && |e| == |p.entries| + 1
            && e[|p.entries|].supersedes == item.supersedes && e[|p.entries|].proposal == item.proposal
            && e[|p.entries|].namespace == item.namespace && e[|p.entries|].deposit == deposit
            && (item.project == Inherited ==> e[|p.entries|].project == Some(p.project))
            && (item.project == Universal ==> e[|p.entries|].project == None)
            && (item.project.Named? ==> e[|p.entries|].project == Some(item.project.name))
  {
    CreatedEntries(p, item, deposit);
  }

  // Hints keep the ranking's order and skip a candidate only once five are found.
  lemma {:induction false} HintsComplete(es: seq<Entry>, n: nat, similar: seq<nat>, i: nat)
    requires n < |es| && i < |similar|
    requires similar[i] < |es| && similar[i] != n && es[similar[i]].status == Active
    requires es[similar[i]].namespace == es[n].namespace && !es[similar[i]].proposal
    ensures similar[i] in Hints(es, n, similar) || |Hints(es, n, similar)| == 5
  {
    var rest := similar[..|similar| - 1];
    if i < |rest| {
      assert rest[i] == similar[i];
      HintsComplete(es, n, rest, i);
    }
  }

  // Every hint was ranked, and the better ranked of two comes first.
  lemma {:induction false} HintsRanked(es: seq<Entry>, n: nat, similar: seq<nat>)
    requires n < |es|
    ensures IsSubsequence(Hints(es, n, similar), similar)
  {
    if similar != [] {
      HintsRanked(es, n, similar[..|similar| - 1]);
    }
  }

  predicate IsSubsequence(a: seq<nat>, b: seq<nat>) {
    if a == [] then true
    else if b == [] then false
    else IsSubsequence(a, b[..|b| - 1])
         || (a[|a| - 1] == b[|b| - 1] && IsSubsequence(a[..|a| - 1], b[..|b| - 1]))
  }
}
