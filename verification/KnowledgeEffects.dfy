// Which deposits are accepted, and what exactly an accepted one does to every entry.
module KnowledgeEffects {
  import opened Common
  import opened Knowledge
  import opened KnowledgeGraph

  // ---------- One item, one batch ----------

  // What the first `k` items do to a stored entry that was active.
  predicate RetiredBy(items: seq<Item>, k: nat, x: nat) {
    exists i :: 0 <= i < k && i < |items| && items[i].Retire? && items[i].target == x
  }

  predicate SupersededBy(items: seq<Item>, k: nat, x: nat) {
    exists i :: 0 <= i < k && i < |items| && items[i].Create? && x in items[i].supersedes
  }

  function StatusFor(before: Status, retired: bool, superseded: bool): Status {
    if before != Active then before else if retired then Retired else if superseded then Superseded else Active
  }

  lemma ItemEffect(p: Progress, item: Item, deposit: nat, x: nat)
    requires !MissingParent(p.entries, item) && ApplyItem(p, item, deposit).Some? && x < |p.entries|
    ensures var q := ApplyItem(p, item, deposit).value;
            x < |q.entries| && q.entries[x].status == StatusFor(p.entries[x].status, item == Retire(x),
                                                              item.Create? && x in item.supersedes)
  {
    if item.Create? { CreatedEntries(p, item, deposit); }
  }

  lemma TailNames(items: seq<Item>, x: nat)
    requires items != []
    ensures RetiredBy(items, |items|, x) <==> items[0] == Retire(x) || RetiredBy(items[1..], |items| - 1, x)
    ensures SupersededBy(items, |items|, x) <==>
            (items[0].Create? && x in items[0].supersedes) || SupersededBy(items[1..], |items| - 1, x)
  {
    if RetiredBy(items, |items|, x) && items[0] != Retire(x) {
      var i :| 0 <= i < |items| && items[i].Retire? && items[i].target == x;
      assert items[1..][i - 1] == items[i];
    }
    if RetiredBy(items[1..], |items| - 1, x) {
      var i :| 0 <= i < |items| - 1 && items[1..][i].Retire? && items[1..][i].target == x;
      assert items[i + 1] == items[1..][i];
    }
    if SupersededBy(items, |items|, x) && !(items[0].Create? && x in items[0].supersedes) {
      var i :| 0 <= i < |items| && items[i].Create? && x in items[i].supersedes;
      assert items[1..][i - 1] == items[i];
    }
    if SupersededBy(items[1..], |items| - 1, x) {
      var i :| 0 <= i < |items| - 1 && items[1..][i].Create? && x in items[1..][i].supersedes;
      assert items[i + 1] == items[1..][i];
    }
  }

  // No item retires an entry that an earlier item of the batch retired or superseded, and
  // every retired one is stored and active.
  predicate InOrder(es: seq<Entry>, items: seq<Item>) {
    forall i :: 0 <= i < |items| && items[i].Retire? ==>
      var t := items[i].target;
      t < |es| && es[t].status == Active && !RetiredBy(items, i, t) && !SupersededBy(items, i, t)
  }

  lemma {:induction false} ItemsEffect(p: Progress, items: seq<Item>, deposit: nat, x: nat)
    requires forall i :: 0 <= i < |items| ==> !MissingParent(p.entries, items[i])
    requires ApplyItems(p, items, deposit).Some? && x < |p.entries|
    ensures var q := ApplyItems(p, items, deposit).value;
            x < |q.entries| && |q.entries| >= |p.entries|
            && q.entries[x].status == StatusFor(p.entries[x].status, RetiredBy(items, |items|, x), SupersededBy(items, |items|, x))
            && (RetiredBy(items, |items|, x) ==> q.entries[x].status == Retired)
    decreases |items|
  {
    if items != [] {
      var q := ApplyItem(p, items[0], deposit).value;
      TailAfterItem(p, items, deposit);
      ItemEffect(p, items[0], deposit, x);
      ItemsEffect(q, items[1..], deposit, x);
      TailNames(items, x);
    }
  }

  // The batch goes through exactly when its retirements are in order.
  lemma {:induction false} ItemsApplyIff(p: Progress, items: seq<Item>, deposit: nat, stored: nat)
    requires forall i :: 0 <= i < |items| ==> !MissingParent(p.entries, items[i])
    requires stored <= |p.entries| && forall i :: 0 <= i < |items| && items[i].Retire? ==> items[i].target < stored
    ensures ApplyItems(p, items, deposit).Some? <==> InOrder(p.entries, items)
    decreases |items|
  {
    if items != [] {
      var item, rest := items[0], items[1..];
      assert items[0] == item && (item.Retire? ==> !RetiredBy(items, 0, item.target) && !SupersededBy(items, 0, item.target));
      if ApplyItem(p, item, deposit).Some? {
        var q := ApplyItem(p, item, deposit).value;
        ItemGrows(p, item, deposit);
        assert forall i :: 0 <= i < |rest| ==> rest[i] == items[i + 1] && !MissingParent(p.entries, items[i + 1]);
        ItemsApplyIff(q, rest, deposit, stored);
        OrderAfterItem(p, q, items, deposit, stored);
      }
    }
  }

  lemma OrderAfterItem(p: Progress, q: Progress, items: seq<Item>, deposit: nat, stored: nat)
    requires items != [] && !MissingParent(p.entries, items[0]) && ApplyItem(p, items[0], deposit) == Some(q)
    requires |p.entries| <= |q.entries| && stored <= |p.entries|
    requires forall i :: 0 <= i < |items| && items[i].Retire? ==> items[i].target < stored
    ensures InOrder(p.entries, items) <==> InOrder(q.entries, items[1..])
  {
    var rest := items[1..];
    forall i | 0 < i < |items| && items[i].Retire?
      ensures OrderAt(p.entries, items, i) <==> OrderAt(q.entries, rest, i - 1)
    {
      var t := items[i].target;
      assert rest[i - 1] == items[i];
      ItemEffect(p, items[0], deposit, t);
      PrefixNames(items, i, t);
    }
    assert items[0].Retire? ==> OrderAt(p.entries, items, 0);
    assert forall i :: 0 <= i < |items| && items[i].Retire? ==> (i == 0 || rest[i - 1] == items[i]);
    assert InOrder(p.entries, items) <==> forall i: nat :: i < |items| && items[i].Retire? ==> OrderAt(p.entries, items, i);
    assert InOrder(q.entries, rest) <==> forall i: nat :: i < |rest| && rest[i].Retire? ==> OrderAt(q.entries, rest, i);
    forall i: nat | i < |rest| && rest[i].Retire? ensures OrderAt(q.entries, rest, i) <==> OrderAt(p.entries, items, i + 1) {
      assert items[i + 1] == rest[i];
    }
  }

  predicate OrderAt(es: seq<Entry>, items: seq<Item>, i: nat)
    requires i < |items| && items[i].Retire?
  {
    var t := items[i].target;
    t < |es| && es[t].status == Active && !RetiredBy(items, i, t) && !SupersededBy(items, i, t)
  }

  lemma PrefixNames(items: seq<Item>, k: nat, x: nat)
    requires 0 < k <= |items|
    ensures RetiredBy(items, k, x) <==> items[0] == Retire(x) || RetiredBy(items[1..], k - 1, x)
    ensures SupersededBy(items, k, x) <==>
            (items[0].Create? && x in items[0].supersedes) || SupersededBy(items[1..], k - 1, x)
  {
    var a := items[..k];
    assert a[0] == items[0] && a[1..] == items[1..][..k - 1];
    TailNames(a, x);
    assert forall i :: 0 <= i < k ==> a[i] == items[i];
    assert forall i :: 0 <= i < k - 1 ==> a[1..][i] == items[1..][i];
  }

  // ---------- A whole deposit ----------

  // A retired entry is stored and active, every parent stored and on the item's side of
  // the proposal boundary.
  predicate ItemOk(es: seq<Entry>, item: Item) {
    match item
    case Retire(t) => t < |es| && es[t].status == Active
    case Create(supersedes, proposal, _, _, _) => forall x :: x in supersedes ==> x < |es| && es[x].proposal == proposal
  }

  // The project an item names is the deposit's own or a registered one.
  predicate ProjectOk(projects: set<nat>, own: nat, item: Item) {
    match item
    case Create(_, _, _, Named(name), _) => name == own || name in projects
    case _ => true
  }

  lemma ItemOkIff(es: seq<Entry>, item: Item)
    ensures ItemOk(es, item) <==>
            (!MissingParent(es, item) && !BadRetire(es, item)
             && !CrossesBoundary(es, item, true) && !CrossesBoundary(es, item, false))
  {
  }

  lemma ReferencesIff(es: seq<Entry>, items: seq<Item>)
    ensures ReferencesOk(es, items) <==> forall i :: 0 <= i < |items| ==> ItemOk(es, items[i])
  {
    forall i | 0 <= i < |items|
      ensures ItemOk(es, items[i]) <==>
              (!MissingParent(es, items[i]) && !BadRetire(es, items[i])
               && !CrossesBoundary(es, items[i], true) && !CrossesBoundary(es, items[i], false))
    {
      ItemOkIff(es, items[i]);
    }
  }

  // A deposit is accepted if and only if every item is in order by itself, names a known
  // project, and retires nothing an earlier item of the batch retired or superseded.
  lemma AcceptedIff(lib: Library, b: Batch)
    ensures Deposited(lib, b).Some? <==>
            (&& (forall i :: 0 <= i < |b.items| ==> ItemOk(lib.entries, b.items[i]))
             && (forall i :: 0 <= i < |b.items| ==> ProjectOk(lib.projects, b.project, b.items[i]))
             && InOrder(lib.entries, b.items))
  {
    ReferencesIff(lib.entries, b.items);
    assert forall i :: 0 <= i < |b.items| ==>
             (UnknownProject(lib.projects, b.project, b.items[i]) <==> !ProjectOk(lib.projects, b.project, b.items[i]));
    if ReferencesOk(lib.entries, b.items) {
      ReferencesGive(lib.entries, b.items);
      ItemsApplyIff(Progress(lib.entries, lib.flags, [], b.project), b.items, lib.deposits, |lib.entries|);
    }
  }

  lemma ReferencesGive(es: seq<Entry>, items: seq<Item>)
    requires ReferencesOk(es, items)
    ensures forall i :: 0 <= i < |items| ==> !MissingParent(es, items[i])
    ensures forall i :: 0 <= i < |items| && items[i].Retire? ==> items[i].target < |es|
  {
    assert forall i :: 0 <= i < |items| ==> !MissingParent(es, items[i]) && !BadRetire(es, items[i]);
  }

  // What an accepted deposit does to a stored entry: retired if an item retires it, else
  // superseded if an item names it and it was active, else as before.
  lemma DepositEffect(lib: Library, b: Batch, x: nat)
    requires Deposited(lib, b).Some? && x < |lib.entries|
    ensures var after := Deposited(lib, b).value.0;
            && x < |after.entries|
            && (RetiredBy(b.items, |b.items|, x) ==> after.entries[x].status == Retired)
            && (!RetiredBy(b.items, |b.items|, x) && SupersededBy(b.items, |b.items|, x) ==>
                  after.entries[x].status == (if lib.entries[x].status == Active then Superseded else lib.entries[x].status))
            && (!RetiredBy(b.items, |b.items|, x) && !SupersededBy(b.items, |b.items|, x) ==>
                  after.entries[x] == lib.entries[x])
            && after.deposits == lib.deposits + 1 && after.projects == lib.projects + {b.project}
  {
    var start := Progress(lib.entries, lib.flags, [], b.project);
    ReferencesGive(lib.entries, b.items);
    AcceptedIff(lib, b);
    ItemsEffect(start, b.items, lib.deposits, x);
    ItemsSettle(start, b.items, lib.deposits);
    if RetiredBy(b.items, |b.items|, x) {
      var i :| 0 <= i < |b.items| && b.items[i].Retire? && b.items[i].target == x;
    }
  }
}
