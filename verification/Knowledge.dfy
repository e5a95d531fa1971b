// The library: entries superseding and retiring one another, fork and duplicate
// flags raised on arrival, and deposits applied as one atomic batch.
module Knowledge {
  import opened Common

  datatype Status = Active | Superseded | Retired

  // An entry's identifier is its position; `deposit` is the batch that created it.
  // Universal knowledge has no project.
  datatype Entry = Entry(supersedes: seq<nat>, status: Status, proposal: bool, namespace: nat,
                         project: Option<nat>, deposit: nat)

  datatype Flag = Fork(entry: nat, related: nat, parent: nat) | Duplicate(entry: nat, related: nat)

  datatype Library = Library(entries: seq<Entry>, flags: seq<Flag>, deposits: nat, projects: set<nat>)

  // An item without a project inherits the deposit's; an explicit null is universal.
  datatype ItemProject = Inherited | Universal | Named(name: nat)

  // `similar` is the text ranking's answer for a new entry, best first.
  datatype Item =
    | Retire(target: nat)
    | Create(supersedes: seq<nat>, proposal: bool, namespace: nat, project: ItemProject, similar: seq<nat>)

  // A deposit: its own project, registered on arrival, and its items.
  datatype Batch = Batch(project: nat, items: seq<Item>)

  datatype Ack = RetiredAck(id: nat) | CreatedAck(id: nat)

  datatype Error =
    | UnknownEntryProject(items: seq<nat>)
    | UnknownSupersedes(items: seq<nat>)
    | ProposalSupersedesLibrary(items: seq<nat>)
    | LibrarySupersedesProposal(items: seq<nat>)
    | InvalidRetireTarget(items: seq<nat>)

  const MAX_DUPLICATE_HINTS := 5

  // ---------- Checking references against the stored library ----------

  predicate MissingParent(es: seq<Entry>, item: Item) {
    item.Create? && exists x :: x in item.supersedes && |es| <= x
  }

  // A proposal naming a library entry, or the reverse.
  predicate CrossesBoundary(es: seq<Entry>, item: Item, proposal: bool) {
    item.Create? && item.proposal == proposal
    && exists x :: x in item.supersedes && x < |es| && es[x].proposal != proposal
  }

  predicate BadRetire(es: seq<Entry>, item: Item) {
    item.Retire? && !(item.target < |es| && es[item.target].status == Active)
  }

  // Only the deposit's own project may be new.
  predicate UnknownProject(projects: set<nat>, own: nat, item: Item) {
    item.Create? && item.project.Named? && item.project.name != own && item.project.name !in projects
  }

  predicate AtFault(lib: Library, own: nat, item: Item, err: Error) {
    match err
    case UnknownEntryProject(_) => UnknownProject(lib.projects, own, item)
    case UnknownSupersedes(_) => MissingParent(lib.entries, item)
    case ProposalSupersedesLibrary(_) => CrossesBoundary(lib.entries, item, true)
    case LibrarySupersedesProposal(_) => CrossesBoundary(lib.entries, item, false)
    case InvalidRetireTarget(_) => BadRetire(lib.entries, item)
  }

  predicate ProjectsOk(projects: set<nat>, b: Batch) {
    forall i :: 0 <= i < |b.items| ==> !UnknownProject(projects, b.project, b.items[i])
  }

  predicate ReferencesOk(es: seq<Entry>, items: seq<Item>) {
    forall i :: 0 <= i < |items| ==>
      && !MissingParent(es, items[i]) && !BadRetire(es, items[i])
      && !CrossesBoundary(es, items[i], true) && !CrossesBoundary(es, items[i], false)
  }

  // ---------- Applying one item ----------

  predicate Distinct(ids: seq<nat>) {
    forall i, j :: 0 <= i < j < |ids| ==> ids[i] != ids[j]
  }

  // First-seen order, each identifier once.
  function Unique(ids: seq<nat>): seq<nat> {
    if ids == [] then []
    else
      var before := Unique(ids[..|ids| - 1]);
      var last := ids[|ids| - 1];
      if last in before then before else before + [last]
  }

  // One fork flag per entry below `k`, other than `n`, that already names the parent.
  function SiblingFlags(es: seq<Entry>, n: nat, parent: nat, k: nat): seq<Flag>
    requires k <= |es|
  {
    if k == 0 then []
    else SiblingFlags(es, n, parent, k - 1)
         + (if k - 1 != n && parent in es[k - 1].supersedes then [Fork(n, k - 1, parent)] else [])
  }

  function ForkFlags(es: seq<Entry>, n: nat, parents: seq<nat>): seq<Flag> {
    if parents == [] then []
    else ForkFlags(es, n, parents[..|parents| - 1]) + SiblingFlags(es, n, parents[|parents| - 1], |es|)
  }

  function Mark(es: seq<Entry>, parent: nat): seq<Entry>
    requires parent < |es|
  {
    if es[parent].status == Active then es[parent := es[parent].(status := Superseded)] else es
  }

  function MarkAll(es: seq<Entry>, parents: seq<nat>): (r: seq<Entry>)
    requires forall i :: 0 <= i < |parents| ==> parents[i] < |es|
    ensures |r| == |es|
  {
    if parents == [] then es
    else Mark(MarkAll(es, parents[..|parents| - 1]), parents[|parents| - 1])
  }

  // Entries the duplicate check may name for entry `n`: other, active, same
  // namespace, not a proposal.
  predicate IsCandidate(es: seq<Entry>, n: nat, id: nat)
    requires n < |es|
  {
    id < |es| && id != n && es[id].status == Active && es[id].namespace == es[n].namespace && !es[id].proposal
  }

  function Hints(es: seq<Entry>, n: nat, similar: seq<nat>): (r: seq<nat>)
    requires n < |es|
    ensures |r| <= MAX_DUPLICATE_HINTS
    ensures forall i :: 0 <= i < |r| ==> IsCandidate(es, n, r[i])
    ensures forall i, j :: 0 <= i < j < |r| ==> r[i] != r[j]
  {
    if similar == [] then []
    else
      var before := Hints(es, n, similar[..|similar| - 1]);
      var last := similar[|similar| - 1];
      if IsCandidate(es, n, last) && last !in before && |before| < MAX_DUPLICATE_HINTS then before + [last] else before
  }

  function DuplicateFlags(n: nat, hints: seq<nat>): seq<Flag> {
    seq(|hints|, i requires 0 <= i < |hints| => Duplicate(n, hints[i]))
  }

  // `project` is the deposit's own.
  datatype Progress = Progress(entries: seq<Entry>, flags: seq<Flag>, acks: seq<Ack>, project: nat)

  function NewRow(item: Item, own: nat, deposit: nat): Entry
    requires item.Create?
  {
    var project := match item.project
                   case Inherited => Some(own)
                   case Universal => None
                   case Named(name) => Some(name);
    Entry(item.supersedes, Active, item.proposal, item.namespace, project, deposit)
  }

  function ApplyCreate(p: Progress, item: Item, deposit: nat): Progress
    requires item.Create? && !MissingParent(p.entries, item)
  {
    var n := |p.entries|;
    var grown := p.entries + [NewRow(item, p.project, deposit)];
    var parents := Unique(item.supersedes);
    UniqueFacts(item.supersedes);
    assert forall i :: 0 <= i < |parents| ==> parents[i] in item.supersedes;
    var marked := MarkAll(grown, parents);
    var forks := ForkFlags(grown, n, parents);
    var dups := if item.proposal then [] else DuplicateFlags(n, Hints(marked, n, item.similar));
    Progress(marked, p.flags + forks + dups, p.acks + [CreatedAck(n)], p.project)
  }

  // None: a retire target stopped being active earlier in the same batch.
  function ApplyItem(p: Progress, item: Item, deposit: nat): Option<Progress>
    requires !MissingParent(p.entries, item)
  {
    match item
    case Retire(t) =>
      if t < |p.entries| && p.entries[t].status == Active
      then Some(Progress(p.entries[t := p.entries[t].(status := Retired)], p.flags, p.acks + [RetiredAck(t)], p.project))
      else None
    case Create(_, _, _, _, _) => Some(ApplyCreate(p, item, deposit))
  }

  function ApplyItems(p: Progress, items: seq<Item>, deposit: nat): Option<Progress>
    requires forall i :: 0 <= i < |items| ==> !MissingParent(p.entries, items[i])
    decreases |items|
  {
    if items == [] then Some(p)
    else
      var next := ApplyItem(p, items[0], deposit);
      if next == None then None
      else
        ItemGrows(p, items[0], deposit);
        assert forall i :: 0 <= i < |items[1..]| ==>
          items[1..][i] == items[i + 1] && !MissingParent(p.entries, items[i + 1]);
        ApplyItems(next.value, items[1..], deposit)
  }

  lemma {:induction false} UniqueFacts(ids: seq<nat>)
    ensures forall x :: x in Unique(ids) <==> x in ids
    ensures Distinct(Unique(ids))
  {
    if ids != [] {
      var rest := ids[..|ids| - 1];
      UniqueFacts(rest);
      assert ids == rest + [ids[|ids| - 1]];
    }
  }

  // What marking parents leaves alone.
  predicate SameLinks(a: seq<Entry>, b: seq<Entry>) {
    |a| <= |b| && forall i :: 0 <= i < |a| ==>
      b[i].supersedes == a[i].supersedes && b[i].proposal == a[i].proposal
      && b[i].namespace == a[i].namespace && b[i].deposit == a[i].deposit && b[i].project == a[i].project
  }

  lemma {:induction false} MarkAllFacts(es: seq<Entry>, parents: seq<nat>)
    requires forall i :: 0 <= i < |parents| ==> parents[i] < |es|
    ensures SameLinks(es, MarkAll(es, parents))
    ensures forall i :: 0 <= i < |es| ==>
              MarkAll(es, parents)[i].status == (if es[i].status == Active && i in parents then Superseded else es[i].status)
  {
    if parents != [] {
      var rest := parents[..|parents| - 1];
      MarkAllFacts(es, rest);
      assert parents == rest + [parents[|parents| - 1]];
    }
  }

  lemma {:induction false} SiblingFlagsSameLinks(a: seq<Entry>, b: seq<Entry>, n: nat, parent: nat, k: nat)
    requires SameLinks(a, b) && |a| == |b| && k <= |a|
    ensures SiblingFlags(a, n, parent, k) == SiblingFlags(b, n, parent, k)
  {
    if k > 0 {
      SiblingFlagsSameLinks(a, b, n, parent, k - 1);
    }
  }

  // One more parent: its siblings as the partly marked table shows them, then its mark.
  lemma LinkOneMore(grown: seq<Entry>, n: nat, parents: seq<nat>, k: nat)
    requires k < |parents| && forall i :: 0 <= i < |parents| ==> parents[i] < |grown|
    ensures var es := MarkAll(grown, parents[..k]);
            && MarkAll(grown, parents[..k + 1]) == Mark(es, parents[k])
            && ForkFlags(grown, n, parents[..k + 1])
               == ForkFlags(grown, n, parents[..k]) + SiblingFlags(es, n, parents[k], |es|)
  {
    MarkAllFacts(grown, parents[..k]);
    assert parents[..k + 1][..k] == parents[..k];
    SiblingFlagsSameLinks(grown, MarkAll(grown, parents[..k]), n, parents[k], |grown|);
  }

  lemma ItemGrows(p: Progress, item: Item, deposit: nat)
    requires !MissingParent(p.entries, item) && ApplyItem(p, item, deposit).Some?
    ensures var q := ApplyItem(p, item, deposit).value;
            && SameLinks(p.entries, q.entries)
            && |q.entries| == |p.entries| + (if item.Create? then 1 else 0)
            && |q.acks| == |p.acks| + 1 && q.project == p.project
  {
    if item.Create? {
      UniqueFacts(item.supersedes);
      assert forall i :: 0 <= i < |Unique(item.supersedes)| ==> Unique(item.supersedes)[i] in item.supersedes;
      MarkAllFacts(p.entries + [NewRow(item, p.project, deposit)], Unique(item.supersedes));
    }
  }

  // ---------- A whole deposit ----------

  // The library after the deposit; None when it is rejected and nothing changes.
  function Deposited(lib: Library, b: Batch): Option<(Library, seq<Ack>)> {
    if !ProjectsOk(lib.projects, b) || !ReferencesOk(lib.entries, b.items) then None
    else
      var done := ApplyItems(Progress(lib.entries, lib.flags, [], b.project), b.items, lib.deposits);
      if done == None then None
      else Some((Library(done.value.entries, done.value.flags, lib.deposits + 1, lib.projects + {b.project}),
                 done.value.acks))
  }

  class KnowledgeStore {
    var lib: Library

    constructor ()
      ensures lib == Library([], [], 0, {})
    {
      lib := Library([], [], 0, {});
    }

    // Lists every offending item of the first kind of fault found.
    method ValidateKnowledgeReferences(b: Batch) returns (err: Option<Error>)
      ensures err == None <==> ProjectsOk(lib.projects, b) && ReferencesOk(lib.entries, b.items)
      ensures err.Some? ==>
                && err.value.items != []
                && forall i: nat :: i in err.value.items <==> (i < |b.items| && AtFault(lib, b.project, b.items[i], err.value))
      // The kinds in order: projects, missing parents, the boundary either way, retirements.
      ensures err.Some? && !err.value.UnknownEntryProject? ==> ProjectsOk(lib.projects, b)
      ensures err.Some? && !err.value.UnknownEntryProject? && !err.value.UnknownSupersedes? ==>
                forall i :: 0 <= i < |b.items| ==> !MissingParent(lib.entries, b.items[i])
      ensures err.Some? && (err.value.LibrarySupersedesProposal? || err.value.InvalidRetireTarget?) ==>
                forall i :: 0 <= i < |b.items| ==> !CrossesBoundary(lib.entries, b.items[i], true)
      ensures err.Some? && err.value.InvalidRetireTarget? ==>
                forall i :: 0 <= i < |b.items| ==> !CrossesBoundary(lib.entries, b.items[i], false)
    {
      var unknown := UnknownProjects(b);
      if unknown != [] { assert unknown[0] in unknown; return Some(UnknownEntryProject(unknown)); }
      var items := b.items;
      var missing: seq<nat>, proposals: seq<nat>, libraries: seq<nat>, retires: seq<nat> := [], [], [], [];
      for i := 0 to |items|
        invariant forall k: nat :: k in missing <==> k < i && MissingParent(lib.entries, items[k])
        invariant forall k: nat :: k in proposals <==> k < i && CrossesBoundary(lib.entries, items[k], true)
        invariant forall k: nat :: k in libraries <==> k < i && CrossesBoundary(lib.entries, items[k], false)
        invariant forall k: nat :: k in retires <==> k < i && BadRetire(lib.entries, items[k])
      {
        if items[i].Retire? {
          if BadRetire(lib.entries, items[i]) { retires := retires + [i]; }
        } else {
          if MissingParent(lib.entries, items[i]) { missing := missing + [i]; }
          if CrossesBoundary(lib.entries, items[i], true) { proposals := proposals + [i]; }
          if CrossesBoundary(lib.entries, items[i], false) { libraries := libraries + [i]; }
        }
      }
      if missing != [] { assert missing[0] in missing; return Some(UnknownSupersedes(missing)); }
      if proposals != [] { assert proposals[0] in proposals; return Some(ProposalSupersedesLibrary(proposals)); }
      if libraries != [] { assert libraries[0] in libraries; return Some(LibrarySupersedesProposal(libraries)); }
      if retires != [] { assert retires[0] in retires; return Some(InvalidRetireTarget(retires)); }
      err := None;
    }

    method UnknownProjects(b: Batch) returns (unknown: seq<nat>)
      ensures forall k: nat :: k in unknown <==> k < |b.items| && UnknownProject(lib.projects, b.project, b.items[k])
      ensures unknown == [] <==> ProjectsOk(lib.projects, b)
    {
      unknown := [];
      for i := 0 to |b.items|
        invariant forall k: nat :: k in unknown <==> k < i && UnknownProject(lib.projects, b.project, b.items[k])
      {
        if UnknownProject(lib.projects, b.project, b.items[i]) { unknown := unknown + [i]; }
      }
      if unknown != [] { assert unknown[0] in unknown; }
    }

    // Other entries already naming the parent are siblings: one fork flag each.
    method RaiseForkFlags(es: seq<Entry>, flags: seq<Flag>, n: nat, parent: nat) returns (fs: seq<Flag>)
      ensures fs == flags + SiblingFlags(es, n, parent, |es|)
    {
      fs := flags;
      for s := 0 to |es|
        invariant fs == flags + SiblingFlags(es, n, parent, s)
      {
        if s != n && parent in es[s].supersedes {
          fs := fs + [Fork(n, s, parent)];
        }
      }
    }

    method RaiseDuplicateFlags(es: seq<Entry>, flags: seq<Flag>, n: nat, similar: seq<nat>) returns (fs: seq<Flag>)
      requires n < |es|
      ensures fs == flags + DuplicateFlags(n, Hints(es, n, similar))
    {
      var hints := Hints(es, n, similar);
      fs := flags;
      for h := 0 to |hints|
        invariant fs == flags + DuplicateFlags(n, hints[..h])
      {
        assert DuplicateFlags(n, hints[..h + 1]) == DuplicateFlags(n, hints[..h]) + [Duplicate(n, hints[h])];
        fs := fs + [Duplicate(n, hints[h])];
      }
      assert hints[..|hints|] == hints;
    }

    // For each distinct parent: its fork flags, then active becomes superseded.
    method LinkParents(grown: seq<Entry>, flags: seq<Flag>, n: nat, parents: seq<nat>)
      returns (es: seq<Entry>, fs: seq<Flag>)
      requires forall i :: 0 <= i < |parents| ==> parents[i] < |grown|
      ensures es == MarkAll(grown, parents) && fs == flags + ForkFlags(grown, n, parents)
    {
      es, fs := grown, flags;
      for k := 0 to |parents|
        invariant es == MarkAll(grown, parents[..k])
        invariant fs == flags + ForkFlags(grown, n, parents[..k])
      {
        LinkOneMore(grown, n, parents, k);
        es, fs := LinkParent(es, fs, n, parents[k]);
      }
      assert parents[..|parents|] == parents;
    }

    method LinkParent(before: seq<Entry>, flags: seq<Flag>, n: nat, parent: nat) returns (es: seq<Entry>, fs: seq<Flag>)
      requires parent < |before|
      ensures es == Mark(before, parent) && fs == flags + SiblingFlags(before, n, parent, |before|)
    {
      es := before;
      fs := RaiseForkFlags(es, flags, n, parent);
      if es[parent].status == Active {
        es := es[parent := es[parent].(status := Superseded)];
      }
    }

    // One new entry: its links and fork flags, then duplicate hints unless a proposal.
    method CreateEntry(entries: seq<Entry>, flags: seq<Flag>, item: Item, own: nat, deposit: nat)
      returns (es: seq<Entry>, fs: seq<Flag>)
      requires item.Create? && !MissingParent(entries, item)
      ensures var q := ApplyCreate(Progress(entries, flags, [], own), item, deposit);
              es == q.entries && fs == q.flags
    {
      var n := |entries|;
      es := entries + [NewRow(item, own, deposit)];
      var parents := Unique(item.supersedes);
      UniqueFacts(item.supersedes);
      assert forall i :: 0 <= i < |parents| ==> parents[i] in item.supersedes;
      es, fs := LinkParents(es, flags, n, parents);
      if !item.proposal {
        fs := RaiseDuplicateFlags(es, fs, n, item.similar);
      }
    }

    // The items in list order, inside one transaction: all of them or none.
    method ApplyKnowledge(b: Batch) returns (acks: Option<seq<Ack>>)
      requires ProjectsOk(lib.projects, b) && ReferencesOk(lib.entries, b.items)
      modifies this
      ensures var d := Deposited(old(lib), b);
              if d == None then acks == None && lib == old(lib) else lib == d.value.0 && acks == Some(d.value.1)
    {
      var es, fs, done, items := lib.entries, lib.flags, [], b.items;
      ghost var start := Progress(lib.entries, lib.flags, [], b.project);
      var i := 0;
      while i < |items|
        invariant 0 <= i <= |items| && SameLinks(lib.entries, es)
        invariant forall k :: 0 <= k < |items| ==> !MissingParent(es, items[k])
        invariant lib == old(lib)
        invariant ApplyItems(start, items, lib.deposits)
               == ApplyItems(Progress(es, fs, done, b.project), items[i..], lib.deposits)
      {
        ghost var p := Progress(es, fs, done, b.project);
        assert items[i..][0] == items[i] && items[i..][1..] == items[i + 1..];
        if items[i].Retire? {
          var t := items[i].target;
          if !(t < |es| && es[t].status == Active) { return None; }
          es := es[t := es[t].(status := Retired)];
          done := done + [RetiredAck(t)];
        } else {
          var n := |es|;
          es, fs := CreateEntry(es, fs, items[i], b.project, lib.deposits);
          done := done + [CreatedAck(n)];
        }
        ItemGrows(p, items[i], lib.deposits);
        assert ApplyItem(p, items[i], lib.deposits) == Some(Progress(es, fs, done, b.project));
        i := i + 1;
      }
      lib := Library(es, fs, lib.deposits + 1, lib.projects + {b.project});
      acks := Some(done);
    }

    method CreateDeposit(b: Batch) returns (acks: Option<seq<Ack>>)
      modifies this
      ensures var d := Deposited(old(lib), b);
              if d == None then acks == None && lib == old(lib) else lib == d.value.0 && acks == Some(d.value.1)
    {
      var err := ValidateKnowledgeReferences(b);
      if err != None { return None; }
      acks := ApplyKnowledge(b);
    }
  }
}
