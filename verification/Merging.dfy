// What one created entry does to the library when every parent it names is active:
// the effect of a merge (two parents) and of a harvested lesson (none).
module Merging {
  import opened Common
  import opened Knowledge
  import opened KnowledgeGraph

  function ActiveCount(es: seq<Entry>): nat {
    if es == [] then 0
    else ActiveCount(es[..|es| - 1]) + (if es[|es| - 1].status == Active then 1 else 0)
  }

  // Parents a merge may name: stored, active, not proposals, each once.
  predicate Mergeable(es: seq<Entry>, parents: seq<nat>) {
    Distinct(parents) && forall x :: x in parents ==> x < |es| && es[x].status == Active && !es[x].proposal
  }

  lemma ActiveCountSnoc(es: seq<Entry>, e: Entry)
    ensures ActiveCount(es + [e]) == ActiveCount(es) + if e.status == Active then 1 else 0
  {
    assert (es + [e])[..|es|] == es;
  }

  lemma {:induction false} ActiveCountUpdate(es: seq<Entry>, i: nat, s: Status)
    requires i < |es| && es[i].status == Active && s != Active
    ensures ActiveCount(es[i := es[i].(status := s)]) == ActiveCount(es) - 1
  {
    var after := es[i := es[i].(status := s)];
    if i < |es| - 1 {
      ActiveCountUpdate(es[..|es| - 1], i, s);
      assert after[..|es| - 1] == es[..|es| - 1][i := es[i].(status := s)];
    } else {
      assert after[..|es| - 1] == es[..|es| - 1];
    }
  }

  lemma {:induction false} MarkAllActive(es: seq<Entry>, parents: seq<nat>)
    requires Distinct(parents) && forall x :: x in parents ==> x < |es| && es[x].status == Active
    ensures forall i :: 0 <= i < |parents| ==> parents[i] in parents
    ensures ActiveCount(MarkAll(es, parents)) == ActiveCount(es) - |parents|
  {
    if parents != [] {
      var rest, last := parents[..|parents| - 1], parents[|parents| - 1];
      assert forall x :: x in rest ==> x in parents;
      MarkAllActive(es, rest);
      MarkAllFacts(es, rest);
      assert last in parents && last !in rest;
      ActiveCountUpdate(MarkAll(es, rest), last, Superseded);
    }
  }

  lemma {:induction false} UniqueOfDistinct(ids: seq<nat>)
    requires Distinct(ids)
    ensures Unique(ids) == ids
  {
    if ids != [] {
      var rest := ids[..|ids| - 1];
      UniqueOfDistinct(rest);
      assert ids == rest + [ids[|ids| - 1]];
    }
  }

  ghost predicate NamedByNoneBut(es: seq<Entry>, n: nat, x: nat) {
    forall s: nat :: s < |es| && s != n ==> x !in es[s].supersedes
  }

  lemma {:induction false} NoSiblings(es: seq<Entry>, n: nat, parent: nat, k: nat)
    requires k <= |es| && NamedByNoneBut(es, n, parent)
    ensures SiblingFlags(es, n, parent, k) == []
  {
    if k > 0 {
      NoSiblings(es, n, parent, k - 1);
    }
  }

  lemma {:induction false} NoForks(es: seq<Entry>, n: nat, parents: seq<nat>)
    requires forall x :: x in parents ==> NamedByNoneBut(es, n, x)
    ensures ForkFlags(es, n, parents) == []
  {
    if parents != [] {
      var rest := parents[..|parents| - 1];
      assert parents == rest + [parents[|parents| - 1]] && forall x :: x in rest ==> x in parents;
      NoForks(es, n, rest);
      NoSiblings(es, n, parents[|parents| - 1], |es|);
    }
  }

  // An active entry has no children, so naming it raises no fork flag.
  lemma MergeRaisesNoFork(es: seq<Entry>, parents: seq<nat>, e: Entry)
    requires StatusInv(es) && Mergeable(es, parents)
    ensures ForkFlags(es + [e], |es|, parents) == []
  {
    forall x | x in parents ensures NamedByNoneBut(es + [e], |es|, x) {
      assert !HasChild(es, x);
    }
    NoForks(es + [e], |es|, parents);
  }

  // A deposit of one library entry in the form a merge or a harvest files it.
  predicate FilesOne(lib: Library, b: Batch) {
    && |b.items| == 1 && b.items[0].Create? && !b.items[0].proposal
    && Mergeable(lib.entries, b.items[0].supersedes)
    && !UnknownProject(lib.projects, b.project, b.items[0])
  }

  lemma MergeAccepted(lib: Library, b: Batch)
    requires FilesOne(lib, b)
    ensures !MissingParent(lib.entries, b.items[0]) && Deposited(lib, b).Some?
    ensures var q := ApplyCreate(Progress(lib.entries, lib.flags, [], b.project), b.items[0], lib.deposits);
            Deposited(lib, b).value.0 == Library(q.entries, q.flags, lib.deposits + 1, lib.projects + {b.project})
  {
    var p, item := Progress(lib.entries, lib.flags, [], b.project), b.items[0];
    assert !MissingParent(lib.entries, item) && !BadRetire(lib.entries, item);
    assert !CrossesBoundary(lib.entries, item, true) && !CrossesBoundary(lib.entries, item, false);
    var q := ApplyCreate(p, item, lib.deposits);
    assert b.items[1..] == [];
    assert ApplyItem(p, item, lib.deposits) == Some(q);
    assert ApplyItems(p, b.items, lib.deposits) == ApplyItems(q, [], lib.deposits);
  }

  // The library a merge or a harvest leaves behind.
  function WithEntry(lib: Library, b: Batch): (r: Library)
    requires FilesOne(lib, b)
    ensures r.deposits == lib.deposits + 1
  {
    MergeAccepted(lib, b);
    Deposited(lib, b).value.0
  }

  // Statuses move only from active to superseded, and only for the named parents.
  predicate OnlySuperseded(a: seq<Entry>, b: seq<Entry>, parents: seq<nat>) {
    && SameLinks(a, b)
    && forall i :: 0 <= i < |a| ==> b[i].status == if i in parents then Superseded else a[i].status
  }

  ghost predicate OnlyHintsAdded(before: seq<Flag>, after: seq<Flag>, n: nat) {
    && before <= after && |after| <= |before| + MAX_DUPLICATE_HINTS
    && forall k :: |before| <= k < |after| ==> after[k].Duplicate? && after[k].entry == n
  }

  // The active count moves by one minus the parents; no fork flag, at most five hints.
  lemma EntryEffect(lib: Library, b: Batch)
    requires LibraryInv(lib) && FilesOne(lib, b)
    ensures var after, parents := WithEntry(lib, b), b.items[0].supersedes;
            && LibraryInv(after)
            && |after.entries| == |lib.entries| + 1 && after.entries[|lib.entries|].status == Active
            && ActiveCount(after.entries) == ActiveCount(lib.entries) + 1 - |parents|
            && OnlySuperseded(lib.entries, after.entries, parents)
            && OnlyHintsAdded(lib.flags, after.flags, |lib.entries|)
  {
    MergeAccepted(lib, b);
    DepositKeepsInv(lib, b);
    CreatedEntries(Progress(lib.entries, lib.flags, [], b.project), b.items[0], lib.deposits);
    EntryCounts(lib, b);
    EntryFlags(lib, b);
  }

  lemma EntryCounts(lib: Library, b: Batch)
    requires FilesOne(lib, b)
    ensures ActiveCount(WithEntry(lib, b).entries) == ActiveCount(lib.entries) + 1 - |b.items[0].supersedes|
  {
    MergeAccepted(lib, b);
    UniqueOfDistinct(b.items[0].supersedes);
    var e := NewRow(b.items[0], b.project, lib.deposits);
    ActiveCountSnoc(lib.entries, e);
    MarkAllActive(lib.entries + [e], b.items[0].supersedes);
  }

  lemma EntryFlags(lib: Library, b: Batch)
    requires StatusInv(lib.entries) && FilesOne(lib, b)
    ensures OnlyHintsAdded(lib.flags, WithEntry(lib, b).flags, |lib.entries|)
  {
    MergeAccepted(lib, b);
    UniqueOfDistinct(b.items[0].supersedes);
    FlagsOfCreate(Progress(lib.entries, lib.flags, [], b.project), b.items[0], lib.deposits);
    MergeRaisesNoFork(lib.entries, b.items[0].supersedes, NewRow(b.items[0], b.project, lib.deposits));
  }

  // Every flag names two different stored entries, both proposals or neither.
  lemma FlagsNamePairs(lib: Library, k: nat)
    requires LibraryInv(lib) && k < |lib.flags|
    ensures var f := lib.flags[k];
            f.entry < |lib.entries| && f.related < |lib.entries| && f.entry != f.related
  {
    var f := lib.flags[k];
    if f.Fork? {
      OccursIffIn(lib.flags, f);
      assert f == Fork(f.entry, f.related, f.parent);
      assert Occurs(lib.flags, Fork(f.entry, f.related, f.parent)) ==
             if AreFork(lib.entries, f.entry, f.related, f.parent) then 1 else 0;
    } else {
      assert HintOk(lib.entries, f.entry, f.related);
    }
  }
}
