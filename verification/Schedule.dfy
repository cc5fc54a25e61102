/** The capped dispatch order (kernel/src/schedule.rs). */
module Schedule {
  import opened Json
  import opened Sorting
  import KernelState

  const GIB := 1024 * 1024 * 1024
  const STORAGE_FLOOR_BYTES := 5 * GIB
  const MEMORY_FLOOR_BYTES := 2 * GIB

  datatype PressurePolicy = DelayWhenPressed | PermitWhenPressed

  datatype ReadinessFacts = ReadinessFacts(
    predecessorGatesMet: bool, blockersClear: bool, unitFree: bool, baseReady: bool, routeReady: bool,
    preflightPassed: bool)
  {
    predicate AllMet() {
      predecessorGatesMet && blockersClear && unitFree && baseReady && routeReady && preflightPassed
    }
  }

  datatype ResourceFacts = ResourceFacts(
    freeStorage: nat, projectedStorage: nat, availableMemory: nat, physicalMemory: nat)

  datatype WorkItem = WorkItem(
    id: string, capacityClass: string, launchWave: nat, remainingPath: nat, unitOrder: nat,
    readiness: ReadinessFacts, policy: PressurePolicy)

  datatype View = View(
    parallelCap: nat, cappedClass: string, activeCapped: nat, resources: ResourceFacts, items: seq<WorkItem>)

  function Max(a: nat, b: nat): nat { if a < b then b else a }

  function StorageFloor(projected: nat): nat {
    Max(STORAGE_FLOOR_BYTES, if 2 * projected > KernelState.U64_MAX then KernelState.U64_MAX else 2 * projected)
  }

  function MemoryFloor(physical: nat): nat {
    Max(MEMORY_FLOOR_BYTES, physical / 10)
  }

  predicate Pressed(r: ResourceFacts) {
    r.freeStorage < StorageFloor(r.projectedStorage) || r.availableMemory < MemoryFloor(r.physicalMemory)
  }

  predicate Eligible(item: WorkItem, r: ResourceFacts) {
    item.readiness.AllMet() && (item.policy == PermitWhenPressed || !Pressed(r))
  }

  function EligibleItems(items: seq<WorkItem>, r: ResourceFacts): seq<WorkItem> {
    if items == [] then []
    else (if Eligible(items[0], r) then [items[0]] else []) + EligibleItems(items[1..], r)
  }

  /** `compare_items`: wave, then longest remaining path, then unit order, then id. */
  predicate Before(a: WorkItem, b: WorkItem) {
    if a.launchWave != b.launchWave then a.launchWave < b.launchWave
    else if a.remainingPath != b.remainingPath then a.remainingPath > b.remainingPath
    else if a.unitOrder != b.unitOrder then a.unitOrder < b.unitOrder
    else Less(a.id, b.id)
  }

  function Ordered(view: View): seq<WorkItem> {
    SortBy(EligibleItems(view.items, view.resources), Before)
  }

  function OpenSlots(view: View): nat {
    if view.parallelCap > view.activeCapped then view.parallelCap - view.activeCapped else 0
  }

  function CappedCount(items: seq<WorkItem>, cappedClass: string): nat {
    if items == [] then 0
    else CappedCount(items[..|items| - 1], cappedClass) + if items[|items| - 1].capacityClass == cappedClass then 1 else 0
  }

  /** An item is dispatched unless its class is capped and the slots went to earlier capped items. */
  predicate Dispatched(ordered: seq<WorkItem>, i: nat, cappedClass: string, open: nat)
    requires i < |ordered|
  {
    ordered[i].capacityClass != cappedClass || CappedCount(ordered[..i], cappedClass) < open
  }

  /** The dispatched items, in order. */
  function Selection(ordered: seq<WorkItem>, cappedClass: string, open: nat): seq<WorkItem> {
    if ordered == [] then []
    else
      var n := |ordered| - 1;
      Selection(ordered[..n], cappedClass, open) + if Dispatched(ordered, n, cappedClass, open) then [ordered[n]] else []
  }

  function Ids(items: seq<WorkItem>): seq<string> {
    if items == [] then [] else Ids(items[..|items| - 1]) + [items[|items| - 1].id]
  }

  lemma SelectionStep(ordered: seq<WorkItem>, i: nat, cappedClass: string, open: nat)
    requires i < |ordered|
    ensures Ids(Selection(ordered[..i + 1], cappedClass, open)) ==
            Ids(Selection(ordered[..i], cappedClass, open))
            + if Dispatched(ordered, i, cappedClass, open) then [ordered[i].id] else []
  {
    var before := Selection(ordered[..i], cappedClass, open);
    assert ordered[..i + 1][..i] == ordered[..i];
    assert Dispatched(ordered[..i + 1], i, cappedClass, open) == Dispatched(ordered, i, cappedClass, open);
    if Dispatched(ordered, i, cappedClass, open) {
      assert (before + [ordered[i]])[..|before|] == before;
    } else {
      assert Selection(ordered[..i + 1], cappedClass, open) == before;
    }
  }

  lemma CountStep(ordered: seq<WorkItem>, i: nat, cappedClass: string)
    requires i < |ordered|
    ensures CappedCount(ordered[..i + 1], cappedClass) ==
            CappedCount(ordered[..i], cappedClass) + if ordered[i].capacityClass == cappedClass then 1 else 0
  {
    assert ordered[..i + 1][..i] == ordered[..i];
  }

  /** `dispatch_order`: one pass over the sorted items, spending open slots on capped ones. */
  method DispatchOrder(view: View) returns (selected: seq<string>)
    ensures selected == Ids(Selection(Ordered(view), view.cappedClass, OpenSlots(view)))
  {
    var ordered := SortBy(EligibleItems(view.items, view.resources), Before);
    var cappedOpen := if view.parallelCap > view.activeCapped then view.parallelCap - view.activeCapped else 0;
    selected := [];
    ghost var open := cappedOpen;
    assert ordered[..0] == [];
    for i := 0 to |ordered|
      invariant selected == Ids(Selection(ordered[..i], view.cappedClass, open))
      invariant cappedOpen == Left(open, CappedCount(ordered[..i], view.cappedClass))
    {
      SelectionStep(ordered, i, view.cappedClass, open);
      CountStep(ordered, i, view.cappedClass);
      var item := ordered[i];
      if item.capacityClass == view.cappedClass {
        if cappedOpen == 0 {
          continue;
        }
        cappedOpen := cappedOpen - 1;
      }
      selected := selected + [item.id];
    }
    assert ordered[..|ordered|] == ordered;
  }

  ghost function Left(open: nat, used: nat): nat {
    if used < open then open - used else 0
  }

  // ---------------------------------------------------------------- the order

  predicate DistinctIds(items: seq<WorkItem>) {
    forall i, j :: 0 <= i < j < |items| ==> items[i].id != items[j].id
  }

  lemma BeforeOrders()
    ensures Orders(Before)
  {
    forall x, y | Before(x, y) ensures !Before(y, x) { LessTotal(x.id, y.id); }
    forall x, y, z | !Before(y, x) && !Before(z, y) ensures !Before(z, x) {
      BeforeTransitive(x, y, z);
    }
  }

  lemma BeforeTransitive(x: WorkItem, y: WorkItem, z: WorkItem)
    requires !Before(y, x) && !Before(z, y)
    ensures !Before(z, x)
  {
    if !Less(y.id, x.id) && !Less(z.id, y.id) { LessTransitive(x.id, y.id, z.id); }
  }

  lemma EligibleMembers(items: seq<WorkItem>, r: ResourceFacts)
    ensures forall x :: multiset(EligibleItems(items, r))[x] == if Eligible(x, r) then multiset(items)[x] else 0
  {
    if items != [] {
      EligibleMembers(items[1..], r);
      assert items == [items[0]] + items[1..];
    }
  }

  lemma DistinctSeparates(items: seq<WorkItem>, s: seq<WorkItem>)
    requires DistinctIds(items) && (forall k :: 0 <= k < |s| ==> s[k] in items)
    ensures Separates(Before, s)
  {
    forall k, m | 0 <= k < |s| && 0 <= m < |s| && s[k] != s[m] ensures Before(s[k], s[m]) || Before(s[m], s[k]) {
      var i :| 0 <= i < |items| && items[i] == s[k];
      var j :| 0 <= j < |items| && items[j] == s[m];
      LessTotal(s[k].id, s[m].id);
    }
  }

  /** The dispatched items come in comparator order, whatever order the view listed them in. */
  lemma OrderedIsSorted(view: View)
    ensures SortedBy(Ordered(view), Before)
    ensures forall x :: x in Ordered(view) <==> x in view.items && Eligible(x, view.resources)
  {
    var eligible := EligibleItems(view.items, view.resources);
    BeforeOrders();
    SortSorts(eligible, Before);
    SortPermutes(eligible, Before);
    EligibleMembers(view.items, view.resources);
    forall x ensures x in Ordered(view) <==> x in view.items && Eligible(x, view.resources) {
      assert x in Ordered(view) <==> x in multiset(Ordered(view));
      assert x in view.items <==> x in multiset(view.items);
    }
  }

  /** With distinct ids the order does not depend on how the items were listed. */
  lemma OrderIndependent(view: View, items: seq<WorkItem>)
    requires DistinctIds(view.items) && multiset(items) == multiset(view.items)
    ensures Ordered(view.(items := items)) == Ordered(view)
  {
    var a, b := EligibleItems(view.items, view.resources), EligibleItems(items, view.resources);
    EligibleMembers(view.items, view.resources);
    EligibleMembers(items, view.resources);
    assert multiset(a) == multiset(b);
    SortPermutes(a, Before);
    SortPermutes(b, Before);
    OrderedIsSorted(view);
    OrderedIsSorted(view.(items := items));
    DistinctSeparates(view.items, Ordered(view));
    SortedUnique(Ordered(view), Ordered(view.(items := items)), Before);
  }

  // ---------------------------------------------------------------- the cap

  function Min(a: nat, b: nat): nat { if a < b then a else b }

  lemma CappedAppend(items: seq<WorkItem>, item: WorkItem, cappedClass: string)
    ensures CappedCount(items + [item], cappedClass) ==
            CappedCount(items, cappedClass) + if item.capacityClass == cappedClass then 1 else 0
  {
    assert (items + [item])[..|items|] == items;
  }

  /** Exactly as many capped items are dispatched as there are open slots, or all of them. */
  lemma {:induction false} CapIsExact(ordered: seq<WorkItem>, cappedClass: string, open: nat)
    ensures CappedCount(Selection(ordered, cappedClass, open), cappedClass) == Min(open, CappedCount(ordered, cappedClass))
  {
    if ordered != [] {
      var n := |ordered| - 1;
      CapIsExact(ordered[..n], cappedClass, open);
      var before := Selection(ordered[..n], cappedClass, open);
      CappedAppend(before, ordered[n], cappedClass);
      assert before + [] == before;
    }
  }

  /** Every uncapped item is dispatched, and a capped one exactly when a slot is left for it. */
  lemma {:induction false} SelectionIsExact(ordered: seq<WorkItem>, cappedClass: string, open: nat)
    ensures forall x :: x in Selection(ordered, cappedClass, open) <==>
              exists i :: 0 <= i < |ordered| && ordered[i] == x && Dispatched(ordered, i, cappedClass, open)
  {
    if ordered != [] {
      var n := |ordered| - 1;
      SelectionIsExact(ordered[..n], cappedClass, open);
      forall i | 0 <= i < n ensures Dispatched(ordered[..n], i, cappedClass, open) == Dispatched(ordered, i, cappedClass, open) {
        assert ordered[..n][..i] == ordered[..i];
      }
      forall x ensures x in Selection(ordered, cappedClass, open) <==>
                         exists i :: 0 <= i < |ordered| && ordered[i] == x && Dispatched(ordered, i, cappedClass, open)
      {
        if i :| 0 <= i < |ordered| && ordered[i] == x && Dispatched(ordered, i, cappedClass, open) {
          if i < n { assert Dispatched(ordered[..n], i, cappedClass, open) && ordered[..n][i] == x; }
        }
      }
    }
  }

  /** `more` is `less` with one element inserted, or the same. */
  ghost predicate InsertsAtMostOne(less: seq<WorkItem>, more: seq<WorkItem>) {
    more == less || exists k :: 0 <= k <= |less| && k < |more| && more == less[..k] + [more[k]] + less[k..]
  }

  lemma GrowBoth(less: seq<WorkItem>, more: seq<WorkItem>, item: WorkItem)
    requires InsertsAtMostOne(less, more)
    ensures InsertsAtMostOne(less + [item], more + [item])
  {
    if more != less {
      var k :| 0 <= k <= |less| && k < |more| && more == less[..k] + [more[k]] + less[k..];
      assert (less + [item])[..k] == less[..k] && (less + [item])[k..] == less[k..] + [item];
      assert more + [item] == (less + [item])[..k] + [(more + [item])[k]] + (less + [item])[k..];
    }
  }

  /** One more slot inserts at most one item and moves no other. */
  lemma {:induction false} OneMoreSlot(ordered: seq<WorkItem>, cappedClass: string, open: nat)
    ensures InsertsAtMostOne(Selection(ordered, cappedClass, open), Selection(ordered, cappedClass, open + 1))
    ensures CappedCount(ordered, cappedClass) <= open ==>
              Selection(ordered, cappedClass, open) == Selection(ordered, cappedClass, open + 1)
  {
    if ordered != [] {
      var n := |ordered| - 1;
      var less, more := Selection(ordered[..n], cappedClass, open), Selection(ordered[..n], cappedClass, open + 1);
      OneMoreSlot(ordered[..n], cappedClass, open);
      assert less + [] == less && more + [] == more;
      if Dispatched(ordered, n, cappedClass, open) {
        GrowBoth(less, more, ordered[n]);
      } else if Dispatched(ordered, n, cappedClass, open + 1) {
        assert more == less;
        assert less + [ordered[n]] == less[..|less|] + [(less + [ordered[n]])[|less|]] + less[|less|..];
      }
    }
  }

  /** Raising `parallel_cap` by one inserts at most one item into the dispatch order. */
  lemma RaisingCapInsertsAtMostOne(view: View)
    ensures var raised := view.(parallelCap := view.parallelCap + 1);
            InsertsAtMostOne(Selection(Ordered(view), view.cappedClass, OpenSlots(view)),
                             Selection(Ordered(raised), view.cappedClass, OpenSlots(raised)))
  {
    var raised := view.(parallelCap := view.parallelCap + 1);
    assert Ordered(raised) == Ordered(view);
    OneMoreSlot(Ordered(view), view.cappedClass, OpenSlots(view));
  }
}
