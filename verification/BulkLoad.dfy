/** Bulk load: a sorted entry set packed into full leaves and internal levels stacked on top until one page is left. */
module BulkLoad {
  import opened Entries
  import opened Layout
  import opened BtPages
  import opened BtLog
  import opened Chains
  import opened Lookup
  import opened SplitPoint
  import opened TreeShape
  import opened TreeOrder
  import opened PageAlloc
  import opened Fences
  import opened Placement
  import opened Descent
  import I = TreeInsert

  // ---------------------------------------------------------------- packing a level into runs

  /** `cuts[i]..cuts[i + 1]` is the run of page `i`. Every run fits its page, and all but the last leave no room for
      the entry that follows; only an empty level has an empty run. */
  ghost predicate Tiles(level: nat, items: seq<Entry>, cuts: seq<nat>) {
    && |cuts| >= 2 && cuts[0] == 0 && cuts[|cuts| - 1] == |items| && (items == [] ==> |cuts| == 2)
    && (forall i, j :: 0 <= i < j < |cuts| && items != [] ==> cuts[i] < cuts[j])
    && (forall i :: 0 <= i < |cuts| ==> cuts[i] <= |items|)
    && (forall i :: 0 <= i < |cuts| - 1 ==> RunFits(level, items, cuts, i))
    && (forall i :: 0 <= i < |cuts| - 2 ==> RunFull(level, items, cuts, i))
  }

  ghost predicate RunFits(level: nat, items: seq<Entry>, cuts: seq<nat>, i: nat) {
    i + 1 < |cuts| && cuts[i] <= cuts[i + 1] <= |items| && TotalCost(level, items[cuts[i]..cuts[i + 1]]) <= CAPACITY
  }

  ghost predicate RunFull(level: nat, items: seq<Entry>, cuts: seq<nat>, i: nat) {
    && i + 1 < |cuts| && cuts[i] <= cuts[i + 1] < |items|
    && TotalCost(level, items[cuts[i]..cuts[i + 1]]) + Cost(level, items[cuts[i + 1]]) > CAPACITY
  }

  lemma CostSnoc(level: nat, s: seq<Entry>, e: Entry)
    ensures TotalCost(level, s + [e]) == TotalCost(level, s) + Cost(level, e)
  {
    assert (s + [e])[..|s|] == s;
  }

  lemma NoCost(level: nat, s: seq<Entry>)
    requires s == []
    ensures TotalCost(level, s) == 0
  {
  }

  lemma {:induction false} RunCost(level: nat, s: seq<Entry>)
    requires WithinKeyBound(s)
    ensures TotalCost(level, s) <= MAX_COST * |s|
  {
    if s != [] {
      RunCost(level, s[..|s| - 1]);
      CostSnoc(level, s[..|s| - 1], s[|s| - 1]);
      assert s[..|s| - 1] + [s[|s| - 1]] == s;
    }
  }

  /** Three entries always fit, so a full run has at least three. */
  lemma FullHasThree(level: nat, items: seq<Entry>, cuts: seq<nat>, i: nat)
    requires WithinKeyBound(items) && RunFull(level, items, cuts, i)
    ensures cuts[i] + 3 <= cuts[i + 1]
  {
    var run := items[cuts[i]..cuts[i + 1]];
    assert WithinKeyBound(run);
    RunCost(level, run);
    assert Cost(level, items[cuts[i + 1]]) <= MAX_COST;
  }

  lemma {:induction false} CutsGrow(level: nat, items: seq<Entry>, cuts: seq<nat>, i: nat)
    requires WithinKeyBound(items) && Tiles(level, items, cuts) && i < |cuts| - 1
    ensures 3 * i <= cuts[i]
  {
    if i > 0 {
      CutsGrow(level, items, cuts, i - 1);
      assert RunFull(level, items, cuts, i - 1);
      FullHasThree(level, items, cuts, i - 1);
    }
  }

  /** A level has at most a third as many pages as it has entries, rounded up. */
  lemma FewPages(level: nat, items: seq<Entry>, cuts: seq<nat>)
    requires WithinKeyBound(items) && Tiles(level, items, cuts) && items != []
    ensures |cuts| - 1 <= (|items| + 2) / 3
    ensures |items| > 1 ==> |cuts| - 1 < |items|
  {
    CutsGrow(level, items, cuts, |cuts| - 2);
    assert cuts[|cuts| - 2] < cuts[|cuts| - 1];
  }

  ghost predicate Tiling(level: nat, items: seq<Entry>, cuts: seq<nat>) {
    && |cuts| >= 1 && cuts[0] == 0 && cuts[|cuts| - 1] <= |items|
    && (forall i, j :: 0 <= i < j < |cuts| ==> cuts[i] < cuts[j])
    && (forall i :: 0 <= i < |cuts| - 1 ==> RunFits(level, items, cuts, i))
    && (forall i :: 0 <= i < |cuts| - 1 && cuts[i + 1] < |items| ==> RunFull(level, items, cuts, i))
  }

  lemma TilingMore(level: nat, items: seq<Entry>, cuts: seq<nat>, end: nat)
    requires Tiling(level, items, cuts) && cuts[|cuts| - 1] < end <= |items|
    requires TotalCost(level, items[cuts[|cuts| - 1]..end]) <= CAPACITY
    requires end < |items| ==> TotalCost(level, items[cuts[|cuts| - 1]..end]) + Cost(level, items[end]) > CAPACITY
    ensures Tiling(level, items, cuts + [end])
  {
    var more := cuts + [end];
    forall i | 0 <= i < |more| - 1
      ensures RunFits(level, items, more, i) && (more[i + 1] < |items| ==> RunFull(level, items, more, i))
    {
      if i < |cuts| - 1 {
        assert RunFits(level, items, cuts, i);
        assert more[i] == cuts[i] && more[i + 1] == cuts[i + 1];
        assert cuts[i + 1] < |items| ==> RunFull(level, items, cuts, i);
      }
    }
  }

  /** One run: as many entries as fit, at least one. */
  method NextRun(level: nat, items: seq<Entry>, start: nat) returns (end: nat)
    requires WithinKeyBound(items) && start < |items|
    ensures start < end <= |items| && TotalCost(level, items[start..end]) <= CAPACITY
    ensures end < |items| ==> TotalCost(level, items[start..end]) + Cost(level, items[end]) > CAPACITY
  {
    hide Bytes, TotalCost;
    var used := 0;
    end := start;
    NoCost(level, items[start..start]);
    while end < |items|
      invariant start <= end <= |items| && used == TotalCost(level, items[start..end]) <= CAPACITY
    {
      var cost := EntryLen(level, items[end]) + LINE_POINTER_SIZE;
      if end > start && used + cost > CAPACITY {
        return;
      }
      CostSnoc(level, items[start..end], items[end]);
      assert items[start..end] + [items[end]] == items[start..end + 1];
      assert cost <= MAX_COST <= CAPACITY;
      used, end := used + cost, end + 1;
    }
  }

  method PartitionRuns(level: nat, items: seq<Entry>) returns (cuts: seq<nat>)
    requires WithinKeyBound(items)
    ensures Tiles(level, items, cuts)
  {
    cuts := [0];
    var start := 0;
    while start < |items|
      invariant Tiling(level, items, cuts) && start == cuts[|cuts| - 1]
      invariant items != [] && start > 0 ==> |cuts| >= 2
    {
      var end := NextRun(level, items, start);
      TilingMore(level, items, cuts, end);
      cuts := cuts + [end];
      start := end;
    }
    if |cuts| == 1 {
      cuts := [0, 0];
      assert items[0..0] == [] && RunFits(level, items, cuts, 0);
    } else {
      forall i | 0 <= i < |cuts| - 2 ensures RunFull(level, items, cuts, i) {
        assert cuts[i + 1] < cuts[|cuts| - 1];
      }
      forall i | 0 <= i < |cuts| ensures cuts[i] <= |items| {
        assert i < |cuts| - 1 ==> cuts[i] < cuts[|cuts| - 1];
      }
    }
  }

  // ---------------------------------------------------------------- a built level

  /** What a level stores for its items: above the leaves the very first separator is the empty key. */
  function Stored(level: nat, items: seq<Entry>): (s: seq<Entry>)
    ensures |s| == |items|
  {
    if level == 0 || items == [] then items else items[0 := items[0].(key := [])]
  }

  ghost predicate PageBuilt(pages: Pages, chain: seq<PageId>, level: nat, items: seq<Entry>, cuts: seq<nat>, i: nat)
    requires i < |chain| && |cuts| == |chain| + 1
  {
    var pg := At(pages, chain[i]);
    && cuts[i] <= cuts[i + 1] <= |items|
    && pg.Page? && pg.level == level && pg.flags.leaf == (level == 0) && !pg.flags.incomplete
    && pg.prev == (if i == 0 then INVALID else chain[i - 1])
    && pg.next == (if i + 1 < |chain| then chain[i + 1] else INVALID)
    && pg.entries == Stored(level, items)[cuts[i]..cuts[i + 1]] && pg.upper == SPECIAL - Bytes(level, pg.entries)
    && (pg.flags.root ==> |chain| == 1)
  }

  ghost predicate LevelBuilt(pages: Pages, chain: seq<PageId>, level: nat, items: seq<Entry>, cuts: seq<nat>) {
    && WithinKeyBound(items) && Tiles(level, items, cuts) && |cuts| == |chain| + 1 && NoDup(chain) && INVALID !in chain
    && forall i :: 0 <= i < |chain| ==> PageBuilt(pages, chain, level, items, cuts, i)
  }

  lemma {:induction false} BytesShrink(level: nat, s: seq<Entry>, t: seq<Entry>)
    requires |s| == |t| && forall i :: 0 <= i < |s| ==> EntryLen(level, s[i]) <= EntryLen(level, t[i])
    ensures Bytes(level, s) <= Bytes(level, t)
  {
    if s != [] { BytesShrink(level, s[..|s| - 1], t[..|t| - 1]); }
  }

  lemma StoredFits(level: nat, items: seq<Entry>, a: nat, b: nat)
    requires a <= b <= |items|
    ensures TotalCost(level, Stored(level, items)[a..b]) <= TotalCost(level, items[a..b])
  {
    BytesShrink(level, Stored(level, items)[a..b], items[a..b]);
  }

  /** The pages of a built level, end to end, hold the stored items. */
  lemma {:induction false} BuiltFlat(pages: Pages, chain: seq<PageId>, level: nat, items: seq<Entry>, cuts: seq<nat>,
                                     n: nat)
    requires LevelBuilt(pages, chain, level, items, cuts) && n <= |chain|
    ensures cuts[n] <= |items| && Flat(pages, chain[..n]) == Stored(level, items)[..cuts[n]]
  {
    hide Stored;
    if n > 0 {
      BuiltFlat(pages, chain, level, items, cuts, n - 1);
      assert PageBuilt(pages, chain, level, items, cuts, n - 1);
      assert chain[..n][..n - 1] == chain[..n - 1];
      hide LevelBuilt, Tiles;
      var s := Stored(level, items);
      assert s[..cuts[n]] == s[..cuts[n - 1]] + s[cuts[n - 1]..cuts[n]];
    }
  }

  lemma BuiltPageOk(pages: Pages, chain: seq<PageId>, level: nat, items: seq<Entry>, cuts: seq<nat>, root: PageId,
                    i: nat)
    requires LevelBuilt(pages, chain, level, items, cuts) && (level == 0 ==> Sorted(items)) && i < |chain|
    requires chain[i] == root ==> At(pages, root).Page? && At(pages, root).flags.root
    ensures PageOk(At(pages, chain[i]), chain[i], level, root)
    ensures LinkOk(pages, chain, i)
  {
    var pg := At(pages, chain[i]);
    assert PageBuilt(pages, chain, level, items, cuts, i) && RunFits(level, items, cuts, i);
    StoredFits(level, items, cuts[i], cuts[i + 1]);
    assert i > 0 ==> chain[..i][i - 1] == chain[i - 1];
    hide Bytes, TotalCost, Tiles;
    assert WithinKeyBound(pg.entries);
    if level == 0 { SortedSlice(items, cuts[i], cuts[i + 1]); }
    assert TotalCost(level, pg.entries) == Bytes(level, pg.entries) + LINE_POINTER_SIZE * |pg.entries|;
  }

  lemma SortedSlice(s: seq<Entry>, a: nat, b: nat)
    requires Sorted(s) && a <= b <= |s|
    ensures Sorted(s[a..b])
  {
  }

  lemma BuiltLevelOk(pages: Pages, chain: seq<PageId>, level: nat, items: seq<Entry>, cuts: seq<nat>, root: PageId)
    requires LevelBuilt(pages, chain, level, items, cuts) && (level == 0 ==> Sorted(items))
    requires root in chain ==> At(pages, root).Page? && At(pages, root).flags.root
    ensures LevelOk(pages, chain, level, root)
  {
    forall i | 0 <= i < |chain| ensures PageOk(At(pages, chain[i]), chain[i], level, root) && LinkOk(pages, chain, i) {
      BuiltPageOk(pages, chain, level, items, cuts, root, i);
    }
  }

  lemma BuiltTight(pages: Pages, chain: seq<PageId>, level: nat, items: seq<Entry>, cuts: seq<nat>)
    requires LevelBuilt(pages, chain, level, items, cuts) && items != []
    ensures Tight(pages, chain)
  {
    forall i | 0 <= i < |chain|
      ensures EntriesOf(pages, chain[i]) != [] && At(pages, chain[i]).prev == if i == 0 then INVALID else chain[i - 1]
    {
      assert PageBuilt(pages, chain, level, items, cuts, i) && cuts[i] < cuts[i + 1];
    }
  }

  // ---------------------------------------------------------------- the level above

  /** One item per page: its low key and its id. */
  function Children(chain: seq<PageId>, items: seq<Entry>, cuts: seq<nat>): (s: seq<Entry>)
    requires |cuts| == |chain| + 1 && forall i :: 0 <= i < |chain| ==> cuts[i] < |items|
    ensures |s| == |chain|
    ensures forall i :: 0 <= i < |chain| ==> s[i] == Entry(items[cuts[i]].key, chain[i], 0)
  {
    seq(|chain|, i requires 0 <= i < |chain| => Entry(items[cuts[i]].key, chain[i], 0))
  }

  lemma LowsDefined(level: nat, items: seq<Entry>, cuts: seq<nat>)
    requires Tiles(level, items, cuts) && items != []
    ensures forall i :: 0 <= i < |cuts| - 1 ==> cuts[i] < |items|
  {
    forall i | 0 <= i < |cuts| - 1 ensures cuts[i] < |items| {
      assert cuts[i] < cuts[|cuts| - 1];
    }
  }

  lemma ChildrenAscend(level: nat, chain: seq<PageId>, items: seq<Entry>, cuts: seq<nat>)
    requires Tiles(level, items, cuts) && items != [] && |cuts| == |chain| + 1 && KeysAscend(items)
    requires WithinKeyBound(items)
    requires forall i :: 0 <= i < |chain| ==> cuts[i] < |items|
    ensures KeysAscend(Children(chain, items, cuts)) && WithinKeyBound(Children(chain, items, cuts))
  {
    var s := Children(chain, items, cuts);
    forall i, j | 0 <= i <= j < |s| ensures !KeyLess(s[j].key, s[i].key) {
      assert i < j ==> cuts[i] < cuts[j];
    }
  }

  // ---------------------------------------------------------------- where a descent lands

  /** Position `c` is the last one whose low key is at or below the key, or the first one. */
  ghost predicate Lands(items: seq<Entry>, key: seq<byte>, c: nat) {
    && c < |items| && (forall j :: c < j < |items| ==> KeyLess(key, items[j].key))
    && (c > 0 ==> !KeyLess(key, items[c].key))
  }

  lemma StoredAscends(level: nat, items: seq<Entry>, a: nat, b: nat)
    requires KeysAscend(items) && a <= b <= |items|
    ensures KeysAscend(Stored(level, items)[a..b])
  {
    var es := Stored(level, items)[a..b];
    forall i, j | 0 <= i <= j < |es| ensures !KeyLess(es[j].key, es[i].key) {
      assert !KeyLess(items[a + j].key, items[a + i].key);
      assert KeyLess([], []) == false;
    }
  }

  /** A step down by the child rule lands, among all pages of the level below, where the key belongs. */
  lemma LandStep(level: nat, chain: seq<PageId>, items: seq<Entry>, cuts: seq<nat>, key: seq<byte>, i: nat, slot: nat)
    requires Tiles(level, items, cuts) && |cuts| == |chain| + 1 && KeysAscend(items)
    requires forall x :: 0 <= x < |chain| ==> cuts[x] < |items|
    requires i < |chain| && cuts[i] <= cuts[i + 1] <= |items| && slot < cuts[i + 1] - cuts[i]
    requires Lands(Children(chain, items, cuts), key, i)
    requires var es := Stored(level, items)[cuts[i]..cuts[i + 1]];
      (forall x :: slot < x < |es| ==> KeyLess(key, es[x].key)) && (slot > 0 ==> !KeyLess(key, es[slot].key))
    ensures Lands(items, key, cuts[i] + slot)
  {
    var es, c, up := Stored(level, items)[cuts[i]..cuts[i + 1]], cuts[i] + slot, Children(chain, items, cuts);
    forall j | c < j < |items| ensures KeyLess(key, items[j].key) {
      if j < cuts[i + 1] {
        assert es[j - cuts[i]] == items[j];
      } else {
        assert i + 1 < |chain|;
        assert KeyLess(key, up[i + 1].key);
        KeyTotal(items[cuts[i + 1]].key, items[j].key);
        if KeyLess(items[cuts[i + 1]].key, items[j].key) { KeyTransitive(key, items[cuts[i + 1]].key, items[j].key); }
      }
    }
    if c > 0 {
      if slot > 0 { assert es[slot] == items[c]; } else { assert i > 0 && up[i].key == items[c].key; }
    }
  }

  /** From the leaf the descent lands on, the locate walk only goes left. */
  lemma LandedDirect(pages: Pages, chain: seq<PageId>, items: seq<Entry>, cuts: seq<nat>, key: seq<byte>, c: nat)
    requires LevelBuilt(pages, chain, 0, items, cuts) && items != [] && |chain| <= MAX_CHAIN_HOPS
    requires forall x :: 0 <= x < |chain| ==> cuts[x] < |items|
    requires Lands(Children(chain, items, cuts), key, c)
    ensures Direct(pages, chain, chain[c], KeyProbe(key))
  {
    BuiltTight(pages, chain, 0, items, cuts);
    forall j | c < j < |chain| ensures !Settled(pages, chain[j], KeyProbe(key)) {
      assert PageBuilt(pages, chain, 0, items, cuts, j) && cuts[j] < cuts[j + 1];
      assert EntriesOf(pages, chain[j])[0] == items[cuts[j]];
      assert KeyLess(key, Children(chain, items, cuts)[j].key);
    }
    assert ClearRight(pages, chain, c, KeyProbe(key));
  }

  // ---------------------------------------------------------------- the finished tree

  lemma {:induction false} NamesArePtrs(pages: Pages, chain: seq<PageId>, q: PageId)
    ensures Names(pages, chain, true, q) == PtrCount(Flat(pages, chain), q)
  {
    if chain != [] {
      var init, last := chain[..|chain| - 1], chain[|chain| - 1];
      NamesArePtrs(pages, init, q);
      PtrCountConcat(Flat(pages, init), EntriesOf(pages, last), q);
    }
  }

  lemma {:induction false} PtrsOnce(s: seq<Entry>, chain: seq<PageId>, q: PageId)
    requires |s| == |chain| && NoDup(chain) && forall i :: 0 <= i < |s| ==> s[i].ptr == chain[i]
    ensures PtrCount(s, q) == if q in chain then 1 else 0
  {
    if s != [] {
      var init, last := chain[..|chain| - 1], chain[|chain| - 1];
      PtrsOnce(s[..|s| - 1], init, q);
      assert chain == init + [last];
      assert last !in init;
    }
  }

  lemma {:induction false} NoTwins(pages: Pages, chain: seq<PageId>, q: PageId)
    requires forall i :: 0 <= i < |chain| ==> At(pages, chain[i]).Page? && !At(pages, chain[i]).flags.incomplete
    ensures Names(pages, chain, false, q) == 0
  {
    if chain != [] { NoTwins(pages, chain[..|chain| - 1], q); }
  }

  /** The levels, leaves first, with the items each was built from. */
  datatype Plan = Plan(chain: seq<PageId>, items: seq<Entry>, cuts: seq<nat>)

  function LevelsOf(plans: seq<Plan>): (levels: Levels)
    ensures |levels| == |plans| && forall l :: 0 <= l < |plans| ==> levels[l] == plans[l].chain
  {
    seq(|plans|, l requires 0 <= l < |plans| => plans[l].chain)
  }

  /** The items list exactly the pages of the plan below. */
  ghost predicate Stacked(below: Plan, items: seq<Entry>) {
    && below.items != [] && |below.cuts| == |below.chain| + 1
    && (forall i :: 0 <= i < |below.chain| ==> below.cuts[i] < |below.items|)
    && items == Children(below.chain, below.items, below.cuts)
  }

  ghost predicate PlanBuilt(pages: Pages, plans: seq<Plan>, l: nat)
    requires l < |plans|
  {
    && LevelBuilt(pages, plans[l].chain, l, plans[l].items, plans[l].cuts) && KeysAscend(plans[l].items)
    && (l + 1 < |plans| ==> Stacked(plans[l], plans[l + 1].items))
  }

  ghost predicate AllBuilt(pages: Pages, plans: seq<Plan>) {
    && (forall l :: 0 <= l < |plans| ==> PlanBuilt(pages, plans, l))
    && (|plans| > 0 ==> Sorted(plans[0].items))
  }

  /** Every page of a built level below the top has one downlink, and the top page is the root. */
  lemma BuiltNamedOnce(pages: Pages, plans: seq<Plan>, root: PageId, l: nat)
    requires AllBuilt(pages, plans) && l < |plans| && (l + 1 == |plans| ==> plans[l].chain == [root])
    ensures NamedOnce(pages, LevelsOf(plans), root, l)
  {
    forall q
      ensures Downlinks(pages, LevelsOf(plans), root, l, q) + Names(pages, LevelsOf(plans)[l], false, q)
        == if q in LevelsOf(plans)[l] then 1 else 0
    {
      assert PlanBuilt(pages, plans, l);
      UnbornTwins(pages, plans[l], l, q);
      if l + 1 < |plans| {
        assert PlanBuilt(pages, plans, l + 1);
        ListedOnce(pages, plans[l].chain, plans[l + 1], l + 1, q);
      }
    }
  }

  lemma UnbornTwins(pages: Pages, p: Plan, l: nat, q: PageId)
    requires LevelBuilt(pages, p.chain, l, p.items, p.cuts)
    ensures Names(pages, p.chain, false, q) == 0
  {
    forall i | 0 <= i < |p.chain| ensures At(pages, p.chain[i]).Page? && !At(pages, p.chain[i]).flags.incomplete {
      assert PageBuilt(pages, p.chain, l, p.items, p.cuts, i);
    }
    NoTwins(pages, p.chain, q);
  }

  lemma ListedOnce(pages: Pages, below: seq<PageId>, p: Plan, l: nat, q: PageId)
    requires LevelBuilt(pages, p.chain, l, p.items, p.cuts) && NoDup(below)
    requires |p.items| == |below| && forall i :: 0 <= i < |below| ==> p.items[i].ptr == below[i]
    ensures Names(pages, p.chain, true, q) == if q in below then 1 else 0
  {
    NamesArePtrs(pages, p.chain, q);
    BuiltFlat(pages, p.chain, l, p.items, p.cuts, |p.chain|);
    assert p.chain[..|p.chain|] == p.chain && Stored(l, p.items)[..|p.items|] == Stored(l, p.items);
    PtrsOnce(Stored(l, p.items), below, q);
  }

  /** A finished bulk load is a well-formed tree. */
  lemma BuiltTreeOk(pages: Pages, plans: seq<Plan>, root: PageId)
    requires AllBuilt(pages, plans) && |plans| > 0 && plans[|plans| - 1].chain == [root]
    requires At(pages, root).Page? && At(pages, root).flags.root
    ensures TreeOk(pages, LevelsOf(plans), root)
  {
    var levels := LevelsOf(plans);
    forall l | 0 <= l < |levels| ensures LevelOk(pages, levels[l], l, root) && NamedOnce(pages, levels, root, l) {
      assert PlanBuilt(pages, plans, l);
      BuiltLevelOk(pages, plans[l].chain, l, plans[l].items, plans[l].cuts, root);
      BuiltNamedOnce(pages, plans, root, l);
    }
  }

  /** It is quiescent, and every prev hint sees entries: the index can go on inserting into it. */
  lemma BuiltQuiescent(pages: Pages, plans: seq<Plan>, root: PageId)
    requires AllBuilt(pages, plans) && |plans| > 0 && TreeOk(pages, LevelsOf(plans), root)
    requires Flat(pages, plans[0].chain) == plans[0].items
    ensures NoneOpen(pages, LevelsOf(plans), 0) && ChainOk(pages, plans[0].chain) && HintsSeen(pages, plans[0].chain)
  {
    var levels, p := LevelsOf(plans), plans[0];
    assert PlanBuilt(pages, plans, 0);
    NeighboursApart(pages, levels, root, 0);
    forall l, i | 0 <= l < |levels| && 0 <= i < |levels[l]| ensures !Open(pages, levels[l][i]) {
      assert PlanBuilt(pages, plans, l);
      assert PageBuilt(pages, plans[l].chain, l, plans[l].items, plans[l].cuts, i);
    }
    if p.items != [] {
      BuiltTight(pages, p.chain, 0, p.items, p.cuts);
      hide TreeOk, Linked, Flat, LevelBuilt;
      forall c | 0 < c < |p.chain| ensures HintSeen(pages, p.chain, c) {
        assert EntriesOf(pages, p.chain[c]) != [] && EntriesOf(pages, p.chain[c - 1]) != [];
        assert At(pages, p.chain[c]).prev == p.chain[c - 1];
      }
    }
  }

  /** Of two separators of one page with the same key the left one has the smaller child. */
  ghost predicate IdsFollow(s: seq<Entry>) {
    forall x, y :: 0 <= x < y < |s| && s[x].key == s[y].key ==> s[x].ptr < s[y].ptr
  }

  ghost predicate AllIdsFollow(pages: Pages, levels: Levels) {
    forall l, i :: 0 < l < |levels| && 0 <= i < |levels[l]| ==> IdsFollow(EntriesOf(pages, levels[l][i]))
  }

  lemma FollowSorted(s: seq<Entry>)
    requires KeysAscend(s) && forall x :: 0 <= x < |s| ==> s[x].sub == 0
    ensures Sorted(s) <==> IdsFollow(s)
  {
    if Sorted(s) {
      forall x, y | 0 <= x < y < |s| && s[x].key == s[y].key ensures s[x].ptr < s[y].ptr {
        assert Less(s[x], s[y]);
        KeyTotal(s[x].key, s[x].key);
      }
    }
    if IdsFollow(s) {
      forall x, y | 0 <= x < y < |s| ensures Less(s[x], s[y]) { KeyTotal(s[x].key, s[y].key); }
    }
  }

  /** The separators are in `(key, child)` order exactly if children of equal low keys have rising ids. */
  lemma SeparatorsSorted(pages: Pages, plans: seq<Plan>)
    requires AllBuilt(pages, plans)
    ensures InnerSorted(pages, LevelsOf(plans), 0) <==> AllIdsFollow(pages, LevelsOf(plans))
  {
    var levels := LevelsOf(plans);
    hide Sorted, IdsFollow;
    forall l, i | 0 < l < |levels| && 0 <= i < |levels[l]|
      ensures Sorted(EntriesOf(pages, levels[l][i])) <==> IdsFollow(EntriesOf(pages, levels[l][i]))
    {
      InnerPage(pages, plans, l, i);
      FollowSorted(EntriesOf(pages, levels[l][i]));
    }
  }

  lemma InnerPage(pages: Pages, plans: seq<Plan>, l: nat, i: nat)
    requires AllBuilt(pages, plans) && 0 < l < |plans| && i < |plans[l].chain|
    ensures var es := EntriesOf(pages, plans[l].chain[i]);
      && KeysAscend(es) && (forall x :: 0 <= x < |es| ==> es[x].sub == 0)
      && (Rising(plans[l - 1].chain) ==> forall x, y :: 0 <= x < y < |es| ==> es[x].ptr < es[y].ptr)
  {
    var p := plans[l];
    assert PlanBuilt(pages, plans, l) && PlanBuilt(pages, plans, l - 1);
    assert PageBuilt(pages, p.chain, l, p.items, p.cuts, i);
    StoredAscends(l, p.items, p.cuts[i], p.cuts[i + 1]);
    var s, es := Stored(l, p.items), EntriesOf(pages, p.chain[i]);
    forall x | 0 <= x < |es| ensures es[x].sub == 0 && es[x].ptr == plans[l - 1].chain[p.cuts[i] + x] {
      assert es[x] == s[p.cuts[i] + x];
    }
  }

  ghost predicate Rising(ids: seq<PageId>) {
    forall i, j :: 0 <= i < j < |ids| ==> ids[i] < ids[j]
  }

  ghost predicate AllRising(plans: seq<Plan>) {
    forall l :: 0 <= l < |plans| ==> Rising(plans[l].chain)
  }

  /** As they do without recycled ids. */
  lemma RisingFollow(pages: Pages, plans: seq<Plan>)
    requires AllBuilt(pages, plans) && AllRising(plans)
    ensures AllIdsFollow(pages, LevelsOf(plans))
  {
    forall l, i | 0 < l < |plans| && 0 <= i < |plans[l].chain| ensures IdsFollow(EntriesOf(pages, plans[l].chain[i])) {
      assert Rising(plans[l - 1].chain);
      InnerPage(pages, plans, l, i);
    }
  }

  // ---------------------------------------------------------------- ranges

  /** No key is on two leaves. */
  ghost predicate LeavesApart(pages: Pages, chain: seq<PageId>) {
    forall i, c :: 0 <= i < c < |chain| ==> AllBefore(EntriesOf(pages, chain[i]), EntriesOf(pages, chain[c]))
  }

  ghost predicate AllBefore(a: seq<Entry>, b: seq<Entry>) {
    forall x, y :: 0 <= x < |a| && 0 <= y < |b| ==> KeyLess(a[x].key, b[y].key)
  }

  /** Everything before a cut sorts below the item at it, nothing after it does. */
  ghost predicate CutsClean(p: Plan) {
    && |p.cuts| == |p.chain| + 1 && (forall i :: 0 < i < |p.chain| ==> p.cuts[i] < |p.items|)
    && (forall i, y :: 0 < i < |p.chain| && 0 <= y < p.cuts[i] ==> KeyLess(p.items[y].key, p.items[p.cuts[i]].key))
    && (forall i, y :: 0 < i < |p.chain| && p.cuts[i] <= y < |p.items| ==>
         !KeyLess(p.items[y].key, p.items[p.cuts[i]].key))
  }

  ghost function LowKey(p: Plan, i: nat): seq<byte>
    requires i < |p.chain|
  {
    if 0 < i < |p.cuts| && p.cuts[i] < |p.items| then p.items[p.cuts[i]].key else []
  }

  ghost function PagesOf(plans: seq<Plan>): set<PageId> {
    set l, i | 0 <= l < |plans| && 0 <= i < |plans[l].chain| :: plans[l].chain[i]
  }

  ghost function SpotOf(plans: seq<Plan>, p: PageId): (s: (nat, nat))
    requires p in PagesOf(plans)
    ensures s.0 < |plans| && s.1 < |plans[s.0].chain| && plans[s.0].chain[s.1] == p
  {
    var l: nat, i: nat :| l < |plans| && i < |plans[l].chain| && plans[l].chain[i] == p;
    (l, i)
  }

  ghost function Bounds(plans: seq<Plan>): Lows {
    map p | p in PagesOf(plans) :: LowKey(plans[SpotOf(plans, p).0], SpotOf(plans, p).1)
  }

  lemma BoundAt(pages: Pages, plans: seq<Plan>, root: PageId, l: nat, i: nat)
    requires TreeOk(pages, LevelsOf(plans), root) && l < |plans| && i < |plans[l].chain|
    ensures plans[l].chain[i] in Bounds(plans) && Bounds(plans)[plans[l].chain[i]] == LowKey(plans[l], i)
  {
    var p, levels := plans[l].chain[i], LevelsOf(plans);
    assert p in PagesOf(plans);
    var s := SpotOf(plans, p);
    assert levels[l][i] == p && levels[s.0][s.1] == p;
    if s.0 != l { TreeApart(pages, levels, root, l, s.0, i); }
    Fences.LevelNoDup(pages, levels, root, l);
  }

  /** The first page of a level, and each page behind it, between its own cut and the next. */
  lemma LevelRanges(pages: Pages, plans: seq<Plan>, root: PageId, l: nat)
    requires TreeOk(pages, LevelsOf(plans), root) && AllBuilt(pages, plans) && l < |plans| && CutsClean(plans[l])
    ensures LevelFenced(pages, plans[l].chain, l, Bounds(plans))
  {
    var p, lo := plans[l], Bounds(plans);
    assert PlanBuilt(pages, plans, l);
    forall i | 0 <= i < |p.chain| ensures p.chain[i] in lo && lo[p.chain[i]] == LowKey(p, i) {
      BoundAt(pages, plans, root, l, i);
    }
    forall i | 0 <= i < |p.chain| ensures !Open(pages, p.chain[i]) { ClosedBuilt(pages, p, l, i); }
    hide TreeOk, AllBuilt, Bounds, LevelsOf;
    forall i | 0 <= i < |p.chain| ensures Bounded(pages, p.chain, l, lo, i) { FirstKey(pages, p, l, i); }
    forall i, c | 0 <= i < |p.chain| && 0 <= c < |p.chain| ensures Apart(pages, p.chain, lo, i, c) {
      PagesApart(pages, p, l, i, c);
      LowsApart(l, p, i, c);
    }
  }

  lemma ClosedBuilt(pages: Pages, p: Plan, l: nat, i: nat)
    requires LevelBuilt(pages, p.chain, l, p.items, p.cuts) && i < |p.chain|
    ensures !Open(pages, p.chain[i])
  {
    assert PageBuilt(pages, p.chain, l, p.items, p.cuts, i);
  }

  lemma FirstKey(pages: Pages, p: Plan, l: nat, i: nat)
    requires LevelBuilt(pages, p.chain, l, p.items, p.cuts) && i < |p.chain|
    ensures l > 0 && EntriesOf(pages, p.chain[i]) != [] ==> EntriesOf(pages, p.chain[i])[0].key == LowKey(p, i)
  {
    assert PageBuilt(pages, p.chain, l, p.items, p.cuts, i);
    assert i > 0 && p.items != [] ==> p.cuts[0] < p.cuts[i];
  }

  lemma PagesApart(pages: Pages, p: Plan, l: nat, i: nat, c: nat)
    requires LevelBuilt(pages, p.chain, l, p.items, p.cuts) && CutsClean(p) && i < |p.chain| && c < |p.chain|
    ensures
      if c < i then AllUnder(EntriesOf(pages, p.chain[c]), LowKey(p, i))
      else AllFrom(EntriesOf(pages, p.chain[c]), LowKey(p, i))
  {
    assert PageBuilt(pages, p.chain, l, p.items, p.cuts, c);
    var es := EntriesOf(pages, p.chain[c]);
    forall x | 0 <= x < |es|
      ensures if c < i then KeyLess(es[x].key, LowKey(p, i)) else !KeyLess(es[x].key, LowKey(p, i))
    {
      var y := p.cuts[c] + x;
      assert es[x] == Stored(l, p.items)[y];
      assert c + 1 < i ==> p.cuts[c + 1] < p.cuts[i];
      assert i < c ==> p.cuts[i] < p.cuts[c];
      if c < i { assert KeyLess(p.items[y].key, p.items[p.cuts[i]].key); }
    }
  }

  lemma LowsApart(l: nat, p: Plan, i: nat, c: nat)
    requires Tiles(l, p.items, p.cuts) && CutsClean(p) && i < |p.chain| && c < |p.chain|
    ensures i < c ==> KeyLess(LowKey(p, i), LowKey(p, c))
  {
    if i < c {
      assert p.cuts[i] < p.cuts[c];
      assert KeyLess(p.items[p.cuts[i]].key, p.items[p.cuts[c]].key);
    }
  }

  lemma LinksBound(pages: Pages, plans: seq<Plan>, root: PageId, l: nat, j: nat)
    requires TreeOk(pages, LevelsOf(plans), root) && AllBuilt(pages, plans) && 0 < l < |plans| && j < |plans[l].chain|
    ensures AllKeys(EntriesOf(pages, plans[l].chain[j]), Bounds(plans))
  {
    hide TreeOk, AllBuilt, Bounds, LevelsOf, Tiles, KeysAscend, PageBuilt;
    PlanPair(pages, plans, l);
    PageHolds(pages, plans[l], l, j);
    var p, b, es := plans[l], plans[l - 1], EntriesOf(pages, plans[l].chain[j]);
    forall x | 0 <= x < |es| ensures Keys(es[x], Bounds(plans)) {
      var y := p.cuts[j] + x;
      assert es[x] == Stored(l, p.items)[y];
      BoundAt(pages, plans, root, l - 1, y);
      assert p.items[y] == Entry(b.items[b.cuts[y]].key, b.chain[y], 0);
    }
  }

  /** Children of distinct low keys. */
  lemma UpperClean(pages: Pages, plans: seq<Plan>, l: nat)
    requires AllBuilt(pages, plans) && 0 < l < |plans| && CutsClean(plans[l - 1])
    ensures CutsClean(plans[l]) && Strict(plans[l].items)
  {
    PlanPair(pages, plans, l);
    var p, b := plans[l], plans[l - 1];
    hide AllBuilt;
    forall x, y | 0 <= x < y < |p.items| ensures KeyLess(p.items[x].key, p.items[y].key) {
      assert b.cuts[x] < b.cuts[y];
    }
    LowsDefined(l, p.items, p.cuts);
    forall i, y | 0 < i < |p.chain| && p.cuts[i] <= y < |p.items|
      ensures !KeyLess(p.items[y].key, p.items[p.cuts[i]].key)
    {
      KeyTotal(p.items[p.cuts[i]].key, p.items[y].key);
    }
  }

  lemma {:induction false} AllClean(pages: Pages, plans: seq<Plan>, l: nat)
    requires AllBuilt(pages, plans) && l < |plans| && CutsClean(plans[0])
    ensures CutsClean(plans[l]) && (l > 0 ==> Strict(plans[l].items))
  {
    if l > 0 {
      AllClean(pages, plans, l - 1);
      UpperClean(pages, plans, l);
    }
  }

  /** Leaves without a shared key are what clean cuts leave. */
  lemma CleanLeaves(pages: Pages, plans: seq<Plan>)
    requires AllBuilt(pages, plans) && |plans| > 0
    ensures CutsClean(plans[0]) <==> LeavesApart(pages, plans[0].chain)
  {
    var p := plans[0];
    assert PlanBuilt(pages, plans, 0);
    hide AllBuilt, PlanBuilt;
    if CutsClean(p) { CleanApart(pages, p); }
    if LeavesApart(pages, p.chain) { ApartClean(pages, p); }
  }

  lemma CleanApart(pages: Pages, p: Plan)
    requires LevelBuilt(pages, p.chain, 0, p.items, p.cuts) && CutsClean(p)
    ensures LeavesApart(pages, p.chain)
  {
    forall i, c | 0 <= i < c < |p.chain|
      ensures AllBefore(EntriesOf(pages, p.chain[i]), EntriesOf(pages, p.chain[c]))
    {
      PagesApart(pages, p, 0, c, i);
      PagesApart(pages, p, 0, c, c);
      hide CutsClean, LevelBuilt;
      var a, b := EntriesOf(pages, p.chain[i]), EntriesOf(pages, p.chain[c]);
      forall x, y | 0 <= x < |a| && 0 <= y < |b| ensures KeyLess(a[x].key, b[y].key) {
        KeyBelow(a[x].key, LowKey(p, c), b[y].key);
      }
    }
  }

  lemma ApartClean(pages: Pages, p: Plan)
    requires LevelBuilt(pages, p.chain, 0, p.items, p.cuts) && KeysAscend(p.items) && LeavesApart(pages, p.chain)
    ensures CutsClean(p)
  {
    if |p.chain| > 1 {
      assert p.items != [];
      LowsDefined(0, p.items, p.cuts);
      forall i, y | 0 < i < |p.chain| && 0 <= y < p.cuts[i] ensures KeyLess(p.items[y].key, p.items[p.cuts[i]].key) {
        LastBefore(pages, p, i);
        var z := p.cuts[i] - 1;
        KeyBelow(p.items[y].key, p.items[z].key, p.items[p.cuts[i]].key);
      }
    }
  }

  lemma LastBefore(pages: Pages, p: Plan, i: nat)
    requires LevelBuilt(pages, p.chain, 0, p.items, p.cuts) && LeavesApart(pages, p.chain) && 0 < i < |p.chain|
    requires p.items != []
    ensures 0 < p.cuts[i] < |p.items| && KeyLess(p.items[p.cuts[i] - 1].key, p.items[p.cuts[i]].key)
  {
    assert PageBuilt(pages, p.chain, 0, p.items, p.cuts, i) && PageBuilt(pages, p.chain, 0, p.items, p.cuts, i - 1);
    assert p.cuts[i - 1] < p.cuts[i] < p.cuts[i + 1];
    var a, b := EntriesOf(pages, p.chain[i - 1]), EntriesOf(pages, p.chain[i]);
    assert a[|a| - 1] == p.items[p.cuts[i] - 1] && b[0] == p.items[p.cuts[i]];
    assert AllBefore(a, b);
  }

  lemma BuiltFilled(pages: Pages, plans: seq<Plan>)
    requires AllBuilt(pages, plans) && |plans| > 0
    ensures Filled(pages, LevelsOf(plans)) && I.Compact(pages, plans[0].chain)
  {
    var levels := LevelsOf(plans);
    forall l, i | 0 < l < |levels| && 0 <= i < |levels[l]| ensures EntriesOf(pages, levels[l][i]) != [] {
      Descends(pages, plans, l, [], i);
    }
    assert PlanBuilt(pages, plans, 0);
    forall i | 0 <= i < |plans[0].chain| ensures I.CompactPage(At(pages, plans[0].chain[i])) {
      assert PageBuilt(pages, plans[0].chain, 0, plans[0].items, plans[0].cuts, i);
    }
  }

  /** A bulk-loaded tree has ranges exactly if no key is on two leaves. */
  lemma BuiltFenced(pages: Pages, plans: seq<Plan>, root: PageId)
    requires AllBuilt(pages, plans) && |plans| > 0 && TreeOk(pages, LevelsOf(plans), root)
    requires NoneOpen(pages, LevelsOf(plans), 0) && (|plans| == 1 ==> |plans[0].chain| == 1)
    ensures Fenced(pages, LevelsOf(plans)) <==> LeavesApart(pages, plans[0].chain)
  {
    hide TreeOk, AllBuilt, Bounds, NoneOpen, LeavesApart, CutsClean, LevelFenced, AllKeys, LevelsOf;
    var levels := LevelsOf(plans);
    CleanLeaves(pages, plans);
    if CutsClean(plans[0]) {
      forall l | 0 <= l < |levels| ensures LevelFenced(pages, levels[l], l, Bounds(plans)) {
        AllClean(pages, plans, l);
        LevelRanges(pages, plans, root, l);
      }
      forall l, j | 0 < l < |levels| && 0 <= j < |levels[l]|
        ensures AllKeys(EntriesOf(pages, levels[l][j]), Bounds(plans))
      {
        LinksBound(pages, plans, root, l, j);
      }
      assert FencedBy(pages, levels, Bounds(plans));
    }
    if Fenced(pages, levels) { FencedApart(pages, plans, root); }
  }

  lemma FencedApart(pages: Pages, plans: seq<Plan>, root: PageId)
    requires AllBuilt(pages, plans) && |plans| > 0 && TreeOk(pages, LevelsOf(plans), root)
    requires NoneOpen(pages, LevelsOf(plans), 0) && (|plans| == 1 ==> |plans[0].chain| == 1)
    requires Fenced(pages, LevelsOf(plans))
    ensures LeavesApart(pages, plans[0].chain)
  {
    var levels, p := LevelsOf(plans), plans[0];
    var lo :| FencedBy(pages, levels, lo);
    assert LevelFenced(pages, levels[0], 0, lo);
    forall i, c | 0 <= i < c < |p.chain|
      ensures AllBefore(EntriesOf(pages, p.chain[i]), EntriesOf(pages, p.chain[c]))
    {
      assert Bounded(pages, levels[0], 0, lo, c);
      assert Apart(pages, levels[0], lo, c, i) && Apart(pages, levels[0], lo, c, c);
      assert p.chain[c] in lo by { assert !IsTwin(pages, levels[0], c); }
      var a, b := EntriesOf(pages, p.chain[i]), EntriesOf(pages, p.chain[c]);
      forall x, y | 0 <= x < |a| && 0 <= y < |b| ensures KeyLess(a[x].key, b[y].key) {
        KeyBelow(a[x].key, lo[p.chain[c]], b[y].key);
      }
    }
  }

  /** With distinct, non-empty keys the loaded tree is one every later insert finds in order. */
  lemma BuiltIndexed(pages: Pages, plans: seq<Plan>, root: PageId)
    requires AllBuilt(pages, plans) && |plans| > 0 && TreeOk(pages, LevelsOf(plans), root)
    requires NoneOpen(pages, LevelsOf(plans), 0) && plans[|plans| - 1].chain == [root]
    requires forall l :: 0 <= l < |plans| - 1 ==> |plans[l].chain| > 1
    requires Flat(pages, plans[0].chain) == plans[0].items && Strict(plans[0].items)
    requires forall x :: 0 <= x < |plans[0].items| ==> plans[0].items[x].key != []
    ensures I.Indexed(pages, LevelsOf(plans), root)
  {
    var levels := LevelsOf(plans);
    StrictClean(pages, plans);
    CleanLeaves(pages, plans);
    BuiltFenced(pages, plans, root);
    hide TreeOk, AllBuilt, Fenced, Flat, NoneOpen, Strict, LeavesApart, CutsClean;
    forall k, i | 0 <= k < |levels| && 0 <= i < |levels[k]| ensures PageNeat(pages, levels[k][i], k, i, root) {
      BuiltNeat(pages, plans, root, k, i);
    }
  }

  lemma StrictClean(pages: Pages, plans: seq<Plan>)
    requires AllBuilt(pages, plans) && |plans| > 0 && Strict(plans[0].items)
    ensures CutsClean(plans[0])
  {
    var p := plans[0];
    assert PlanBuilt(pages, plans, 0);
    if |p.chain| > 1 { LowsDefined(0, p.items, p.cuts); }
  }

  lemma BuiltNeat(pages: Pages, plans: seq<Plan>, root: PageId, k: nat, i: nat)
    requires AllBuilt(pages, plans) && k < |plans| && i < |plans[k].chain| && plans[|plans| - 1].chain == [root]
    requires forall l :: 0 <= l < |plans| - 1 ==> |plans[l].chain| > 1
    requires CutsClean(plans[0]) && forall x :: 0 <= x < |plans[0].items| ==> plans[0].items[x].key != []
    ensures PageNeat(pages, plans[k].chain[i], k, i, root)
  {
    hide AllBuilt, CutsClean, Strict, Sorted, Bytes;
    var p := plans[k];
    if k > 0 { AllClean(pages, plans, k); }
    KeysFilled(pages, plans, k);
    PlanLevel(pages, plans, k);
    PageKeyed(pages, p, k, i);
    if k > 0 {
      PageHolds(pages, p, k, i);
      StrictSorted(k, p.items, p.cuts[i], p.cuts[i + 1]);
    }
    if k + 1 < |plans| { assert |p.chain| > 1; }
    assert At(pages, p.chain[i]).flags.root ==> |p.chain| == 1 by { RootAlone(pages, p, k, i); }
  }

  lemma PlanLevel(pages: Pages, plans: seq<Plan>, l: nat)
    requires AllBuilt(pages, plans) && l < |plans|
    ensures LevelBuilt(pages, plans[l].chain, l, plans[l].items, plans[l].cuts)
  {
    assert PlanBuilt(pages, plans, l);
  }

  lemma RootAlone(pages: Pages, p: Plan, l: nat, i: nat)
    requires LevelBuilt(pages, p.chain, l, p.items, p.cuts) && i < |p.chain|
    ensures At(pages, p.chain[i]).Page? && (At(pages, p.chain[i]).flags.root ==> |p.chain| == 1)
  {
    assert PageBuilt(pages, p.chain, l, p.items, p.cuts, i);
  }

  lemma PageKeyed(pages: Pages, p: Plan, l: nat, i: nat)
    requires LevelBuilt(pages, p.chain, l, p.items, p.cuts) && i < |p.chain|
    requires forall x :: 0 <= x < |p.items| ==> p.items[x].key != []
    ensures Keyed(EntriesOf(pages, p.chain[i]), l, i)
  {
    assert PageBuilt(pages, p.chain, l, p.items, p.cuts, i);
    var es := EntriesOf(pages, p.chain[i]);
    forall x | 0 <= x < |es| ensures KeyedAt(es[x], l, i, x) {
      assert es[x] == Stored(l, p.items)[p.cuts[i] + x];
      assert i > 0 ==> p.cuts[0] < p.cuts[i];
    }
  }

  lemma StrictSorted(k: nat, items: seq<Entry>, a: nat, b: nat)
    requires Strict(items) && a <= b <= |items|
    ensures Sorted(Stored(k, items)[a..b])
  {
    var s := Stored(k, items)[a..b];
    forall x, y | 0 <= x < y < |s| ensures Less(s[x], s[y]) {
      assert KeyLess(items[a + x].key, items[a + y].key);
      assert s[x] == Stored(k, items)[a + x] && s[y] == Stored(k, items)[a + y];
    }
  }

  lemma {:induction false} KeysFilled(pages: Pages, plans: seq<Plan>, k: nat)
    requires AllBuilt(pages, plans) && k < |plans|
    requires forall x :: 0 <= x < |plans[0].items| ==> plans[0].items[x].key != []
    ensures forall x :: 0 <= x < |plans[k].items| ==> plans[k].items[x].key != []
  {
    if k > 0 {
      KeysFilled(pages, plans, k - 1);
      PlanPair(pages, plans, k);
    }
  }

  // ---------------------------------------------------------------- building

  datatype BuildError = KeyTooLarge | OverfullPage

  /** Sorted by `(key, tid)` and without repeats: exactly the input as a set. */
  method SortEntries(entries: seq<Entry>) returns (s: seq<Entry>)
    ensures Sorted(s) && forall e :: e in s <==> e in entries
  {
    s := [];
    for i := 0 to |entries|
      invariant Sorted(s) && forall e :: e in s <==> e in entries[..i]
    {
      var e := entries[i];
      var p := LowerBound(s, e);
      assert entries[..i + 1] == entries[..i] + [e];
      if p == |s| || s[p] != e {
        InsertAt(s, p, e);
        s := s[..p] + [e] + s[p..];
      }
    }
    assert entries[..|entries|] == entries;
  }

  lemma InsertAt(s: seq<Entry>, p: nat, e: Entry)
    requires Sorted(s) && IsLowerBound(s, e, p) && (p == |s| || s[p] != e)
    ensures Sorted(s[..p] + [e] + s[p..])
    ensures forall x :: x in s[..p] + [e] + s[p..] <==> x in s || x == e
  {
    var t := s[..p] + [e] + s[p..];
    forall i, j | 0 <= i < j < |t| ensures Less(t[i], t[j]) {
      if i == p {
        LessTotal(e, s[j - 1]);
        if p < j - 1 {
          LessTotal(e, s[p]);
          LessTransitive(e, s[p], s[j - 1]);
        }
      }
    }
    assert forall x :: x in t <==> x in s[..p] || x == e || x in s[p..];
    assert s == s[..p] + s[p..];
  }

  /** Initialise, link, add the run's tuples one by one. */
  method FillPage(level: nat, prev: PageId, next: PageId, run: seq<Entry>) returns (r: Result<Page, BuildError>)
    ensures TotalCost(level, run) <= CAPACITY ==>
      r == Ok(Holding(level, prev, next, run))
  {
    var page := InitPage(level, FlagsForLevel(level));
    page := page.(prev := prev, next := next);
    assert run[..0] == [];
    assert page == Holding(level, prev, next, run[..0]);
    for k := 0 to |run|
      invariant page == Holding(level, prev, next, run[..k])
    {
      AddOne(level, prev, next, run, k);
      var more := AppendAll(page, [run[k]]);
      if more.Err? {
        return Err(OverfullPage);
      }
      page := more.value;
    }
    assert run[..|run|] == run;
    r := Ok(page);
  }

  function Holding(level: nat, prev: PageId, next: PageId, run: seq<Entry>): Page {
    Page(level, FlagsForLevel(level), prev, next, run, SPECIAL - Bytes(level, run), 0)
  }

  lemma AddOne(level: nat, prev: PageId, next: PageId, run: seq<Entry>, k: nat)
    requires k < |run|
    ensures var more := AppendAll(Holding(level, prev, next, run[..k]), [run[k]]);
      if more.Err? then TotalCost(level, run) > CAPACITY else more.value == Holding(level, prev, next, run[..k + 1])
  {
    CostSnoc(level, run[..k], run[k]);
    CostSnoc(level, [], run[k]);
    assert [] + [run[k]] == [run[k]] && run[..k + 1] == run[..k] + [run[k]];
    PrefixCost(level, run, k + 1);
    assert Bytes(level, []) == 0;
    hide Bytes;
  }

  lemma PrefixCost(level: nat, run: seq<Entry>, k: nat)
    requires k <= |run|
    ensures TotalCost(level, run[..k]) <= TotalCost(level, run)
  {
    assert run == run[..k] + run[k..];
    BytesConcat(level, run[..k], run[k..]);
  }

  /** Pages outside the new ones are as they were, so the levels already built stay built. */
  lemma PlansKept(pages: Pages, now: Pages, plans: seq<Plan>)
    requires AllBuilt(pages, plans)
    requires forall l, i :: 0 <= l < |plans| && 0 <= i < |plans[l].chain| ==>
      At(now, plans[l].chain[i]) == At(pages, plans[l].chain[i])
    ensures AllBuilt(now, plans)
  {
    forall l | 0 <= l < |plans| ensures PlanBuilt(now, plans, l) {
      assert PlanBuilt(pages, plans, l);
      var p := plans[l];
      forall i | 0 <= i < |p.chain| ensures PageBuilt(now, p.chain, l, p.items, p.cuts, i) {
        assert PageBuilt(pages, p.chain, l, p.items, p.cuts, i);
      }
    }
  }

  lemma PlansGrow(pages: Pages, plans: seq<Plan>, p: Plan)
    requires AllBuilt(pages, plans) && LevelBuilt(pages, p.chain, |plans|, p.items, p.cuts) && KeysAscend(p.items)
    requires if plans == [] then Sorted(p.items) else Stacked(plans[|plans| - 1], p.items)
    ensures AllBuilt(pages, plans + [p])
  {
    var more := plans + [p];
    forall l | 0 <= l < |more| ensures PlanBuilt(pages, more, l) {
      if l < |plans| { assert PlanBuilt(pages, plans, l); }
    }
  }

  lemma AllocGrow(plans: seq<Plan>, p: Plan, freelist: seq<PageId>, fileEnd: PageId)
    requires AllocOk(LevelsOf(plans), freelist, fileEnd)
    requires forall i :: 0 <= i < |p.chain| ==> Reserved(LevelsOf(plans), freelist, fileEnd, p.chain[i])
    ensures AllocOk(LevelsOf(plans + [p]), freelist, fileEnd)
  {
    var levels, more := LevelsOf(plans), LevelsOf(plans + [p]);
    assert forall l :: 0 <= l < |plans| ==> more[l] == levels[l];
    forall l, i | 0 <= l < |more| && 0 <= i < |more[l]| ensures more[l][i] < fileEnd && more[l][i] !in freelist {
      if l == |plans| { assert Reserved(levels, freelist, fileEnd, p.chain[i]); }
    }
  }

  /** Each level has at most a third as many pages as the one below, rounded up. */
  ghost predicate Shrinking(plans: seq<Plan>) {
    forall l :: 0 < l < |plans| ==> |plans[l].chain| <= (|plans[l - 1].chain| + 2) / 3
  }

  lemma ShrinkMore(plans: seq<Plan>, p: Plan)
    requires Shrinking(plans) && |plans| > 0 && |p.chain| <= (|plans[|plans| - 1].chain| + 2) / 3
    ensures Shrinking(plans + [p])
  {
  }

  lemma OneLevel(plans: seq<Plan>)
    requires |plans| == 1
    ensures Shrinking(plans) && (Rising(plans[0].chain) ==> AllRising(plans))
  {
  }

  lemma RisingMore(plans: seq<Plan>, p: Plan)
    ensures AllRising(plans) && Rising(p.chain) ==> AllRising(plans + [p])
  {
  }

  ghost predicate AllReserved(levels: Levels, freelist: seq<PageId>, fileEnd: PageId, ids: seq<PageId>) {
    forall i :: 0 <= i < |ids| ==> Reserved(levels, freelist, fileEnd, ids[i])
  }

  /** What a finished load is. */
  lemma BuiltRight(pages: Pages, plans: seq<Plan>, root: PageId, entries: seq<Entry>)
    requires AllBuilt(pages, plans) && |plans| > 0 && plans[|plans| - 1].chain == [root]
    requires At(pages, root).Page? && At(pages, root).flags.root
    requires forall l :: 0 <= l < |plans| - 1 ==> |plans[l].chain| > 1
    requires Flat(pages, plans[0].chain) == plans[0].items && forall e :: e in plans[0].items ==> e in entries
    ensures TreeOk(pages, LevelsOf(plans), root)
    ensures NoneOpen(pages, LevelsOf(plans), 0) && ChainOk(pages, plans[0].chain) && HintsSeen(pages, plans[0].chain)
    ensures InnerSorted(pages, LevelsOf(plans), 0) <==> AllIdsFollow(pages, LevelsOf(plans))
    ensures AllRising(plans) ==> InnerSorted(pages, LevelsOf(plans), 0)
    ensures Filled(pages, LevelsOf(plans)) && I.Compact(pages, plans[0].chain)
    ensures Fenced(pages, LevelsOf(plans)) <==> LeavesApart(pages, plans[0].chain)
    ensures Strict(plans[0].items) && (forall i :: 0 <= i < |entries| ==> entries[i].key != []) ==>
      I.Indexed(pages, LevelsOf(plans), root)
  {
    hide AllBuilt, TreeOk, Flat, Sorted, NoneOpen, HintsSeen, InnerSorted, AllIdsFollow, ChainOk, AllRising, Filled,
         Fenced, LeavesApart, Strict, I.Compact, I.Indexed;
    BuiltTreeOk(pages, plans, root);
    BuiltQuiescent(pages, plans, root);
    SeparatorsSorted(pages, plans);
    if AllRising(plans) { RisingFollow(pages, plans); }
    BuiltFilled(pages, plans);
    BuiltFenced(pages, plans, root);
    if Strict(plans[0].items) && (forall i :: 0 <= i < |entries| ==> entries[i].key != []) {
      forall x | 0 <= x < |plans[0].items| ensures plans[0].items[x].key != [] {
        assert plans[0].items[x] in entries;
      }
      BuiltIndexed(pages, plans, root);
    }
  }

  class BulkLoader {
    var pages: Pages
    var root: PageId
    var freelist: seq<PageId>
    var fileEnd: PageId
    ghost var plans: seq<Plan>

    ghost predicate Valid()
      reads this
    {
      AllBuilt(pages, plans) && AllocOk(LevelsOf(plans), freelist, fileEnd)
    }

    /** A recycled id, or the next at the end of the file. */
    method AllocatePage(ghost taken: seq<PageId>) returns (id: PageId)
      requires AllocOk(LevelsOf(plans), freelist, fileEnd) && AllReserved(LevelsOf(plans), freelist, fileEnd, taken)
      modifies `freelist, `fileEnd
      ensures AllocOk(LevelsOf(plans), freelist, fileEnd)
      ensures AllReserved(LevelsOf(plans), freelist, fileEnd, taken + [id]) && id !in taken
      ensures if old(freelist) == [] then freelist == [] && id == old(fileEnd)
              else id == old(freelist)[0] && freelist == old(freelist)[1..]
    {
      if |freelist| > 0 {
        id := freelist[0];
        freelist := freelist[1..];
      } else {
        id := fileEnd;
        fileEnd := fileEnd + 1;
      }
    }

    /** The ids of a whole level, before any of its pages is written. */
    method AllocatePages(n: nat) returns (ids: seq<PageId>)
      requires AllocOk(LevelsOf(plans), freelist, fileEnd)
      modifies `freelist, `fileEnd
      ensures AllocOk(LevelsOf(plans), freelist, fileEnd) && |ids| == n && NoDup(ids)
      ensures AllReserved(LevelsOf(plans), freelist, fileEnd, ids)
      ensures old(freelist) == [] ==> freelist == [] && Rising(ids)
      ensures n <= |old(freelist)| ==> ids == old(freelist)[..n]
    {
      ids := [];
      hide AllocOk;
      for k := 0 to n
        invariant AllocOk(LevelsOf(plans), freelist, fileEnd) && |ids| == k && NoDup(ids)
        invariant AllReserved(LevelsOf(plans), freelist, fileEnd, ids)
        invariant old(freelist) == [] ==> freelist == [] && Rising(ids)
        invariant k <= |old(freelist)| ==> ids == old(freelist)[..k] && freelist == old(freelist)[k..]
      {
        var id := AllocatePage(ids);
        ids := ids + [id];
      }
    }

    /** The pages of a level, each linked to its neighbours. */
    method FillLevel(level: nat, items: seq<Entry>, cuts: seq<nat>, chain: seq<PageId>)
      requires Tiles(level, items, cuts) && |cuts| == |chain| + 1 && NoDup(chain) && INVALID !in chain
      modifies `pages
      ensures forall i :: 0 <= i < |chain| ==> PageBuilt(pages, chain, level, items, cuts, i)
      ensures forall p :: p !in chain ==> At(pages, p) == old(At(pages, p))
    {
      for i := 0 to |chain|
        invariant forall j :: 0 <= j < i ==> PageBuilt(pages, chain, level, items, cuts, j)
        invariant forall p :: p !in chain ==> At(pages, p) == old(At(pages, p))
      {
        assert RunFits(level, items, cuts, i);
        var prev := if i == 0 then INVALID else chain[i - 1];
        var next := if i + 1 == |chain| then INVALID else chain[i + 1];
        var run := items[cuts[i]..cuts[i + 1]];
        if level > 0 && prev == INVALID && run != [] { run := run[0 := run[0].(key := [])]; }
        StoredRun(level, items, cuts, i, run);
        StoredFits(level, items, cuts[i], cuts[i + 1]);
        var page := FillPage(level, prev, next, run);
        ghost var was := pages;
        pages := pages[chain[i] := page.value];
        forall j | 0 <= j <= i ensures PageBuilt(pages, chain, level, items, cuts, j) {
          assert j < i ==> PageBuilt(was, chain, level, items, cuts, j) && chain[j] != chain[i];
        }
      }
    }

    /** Packs the items of one level into pages. */
    method PackLevel(level: nat, items: seq<Entry>) returns (chain: seq<PageId>, cuts: seq<nat>)
      requires AllocOk(LevelsOf(plans), freelist, fileEnd) && WithinKeyBound(items)
      modifies `pages, `freelist, `fileEnd
      ensures AllocOk(LevelsOf(plans), freelist, fileEnd) && LevelBuilt(pages, chain, level, items, cuts)
      ensures forall i :: 0 <= i < |chain| ==> Reserved(LevelsOf(plans), freelist, fileEnd, chain[i])
      ensures forall p :: p !in chain ==> At(pages, p) == old(At(pages, p))
      ensures old(freelist) == [] ==> freelist == [] && Rising(chain)
      ensures |chain| <= |old(freelist)| ==> chain == old(freelist)[..|chain|]
    {
      cuts := PartitionRuns(level, items);
      chain := AllocatePages(|cuts| - 1);
      forall i | 0 <= i < |chain| ensures chain[i] != INVALID {
        assert Reserved(LevelsOf(plans), freelist, fileEnd, chain[i]);
      }
      FillLevel(level, items, cuts, chain);
    }

    /** One more level on top of the last. */
    method AddLevel(items: seq<Entry>, level: nat) returns (chain: seq<PageId>, cuts: seq<nat>)
      requires Valid() && level == |plans| && WithinKeyBound(items) && KeysAscend(items)
      requires if plans == [] then Sorted(items) else Stacked(plans[level - 1], items)
      modifies `pages, `freelist, `fileEnd, `plans
      ensures Valid() && plans == old(plans) + [Plan(chain, items, cuts)] && |chain| > 0
      ensures items != [] ==> |chain| <= (|items| + 2) / 3
      ensures old(freelist) == [] ==> freelist == [] && Rising(chain)
      ensures |chain| <= |old(freelist)| ==> chain == old(freelist)[..|chain|]
    {
      chain, cuts := PackLevel(level, items);
      ghost var p := Plan(chain, items, cuts);
      forall l, i | 0 <= l < |plans| && 0 <= i < |plans[l].chain|
        ensures At(pages, plans[l].chain[i]) == old(At(pages, plans[l].chain[i]))
      {
        assert plans[l].chain[i] in LevelsOf(plans)[l];
        assert forall k :: 0 <= k < |chain| ==> Unused(LevelsOf(plans), chain[k]);
      }
      PlansKept(old(pages), pages, plans);
      PlansGrow(pages, plans, p);
      AllocGrow(plans, p, freelist, fileEnd);
      plans := plans + [p];
      if items != [] { FewPages(level, items, cuts); }
    }

    /** Levels until one page is left, and that page becomes the root. Each level above the leaves has at most a
        third as many pages as the one below, rounded up. */
    method Build(entries: seq<Entry>) returns (r: Result<PageId, BuildError>)
      requires Valid() && plans == []
      modifies this
      ensures r.Err? <==> exists i :: 0 <= i < |entries| && |entries[i].key| > MAX_INDEX_KEY_BYTES
      ensures r.Err? ==> pages == old(pages)
      ensures r.Ok? ==> Finished() && root == r.value && TreeOk(pages, LevelsOf(plans), root)
      ensures r.Ok? ==>
        && Flat(pages, plans[0].chain) == plans[0].items && Sorted(plans[0].items)
        && forall e :: e in plans[0].items <==> e in entries
      ensures r.Ok? ==> Shrinking(plans)
      ensures r.Ok? ==>
        && NoneOpen(pages, LevelsOf(plans), 0) && ChainOk(pages, plans[0].chain) && HintsSeen(pages, plans[0].chain)
        && AllocOk(LevelsOf(plans), freelist, fileEnd)
      ensures r.Ok? ==> (InnerSorted(pages, LevelsOf(plans), 0) <==> AllIdsFollow(pages, LevelsOf(plans)))
      ensures r.Ok? && old(freelist) == [] ==> InnerSorted(pages, LevelsOf(plans), 0)
      ensures r.Ok? ==> Filled(pages, LevelsOf(plans)) && I.Compact(pages, plans[0].chain)
      ensures r.Ok? ==> (Fenced(pages, LevelsOf(plans)) <==> LeavesApart(pages, plans[0].chain))
      ensures r.Ok? && Strict(plans[0].items) && (forall i :: 0 <= i < |entries| ==> entries[i].key != []) ==>
        I.Indexed(pages, LevelsOf(plans), root)
      ensures r.Ok? && |plans[0].chain| <= |old(freelist)| ==>
        plans[0].chain == old(freelist)[..|plans[0].chain|]
    {
      for i := 0 to |entries|
        invariant forall j :: 0 <= j < i ==> |entries[j].key| <= MAX_INDEX_KEY_BYTES
      {
        if |entries[i].key| > MAX_INDEX_KEY_BYTES {
          return Err(BuildError.KeyTooLarge);
        }
      }
      hide AllBuilt, AllocOk, TreeOk, Flat, Sorted, NoneOpen, HintsSeen, InnerSorted, AllIdsFollow, ChainOk, AllRising,
           Filled, Fenced, LeavesApart, Strict, KeysAscend, Shrinking, I.Compact, I.Indexed;
      var items := SortEntries(entries);
      forall i | 0 <= i < |items| ensures |items[i].key| <= MAX_INDEX_KEY_BYTES { assert items[i] in entries; }
      SortedAscends(items);
      BuildLevels(items);
      LeavesFlat(pages, plans);
      MarkRoot();
      LeavesFlat(pages, plans);
      BuiltRight(pages, plans, root, entries);
      r := Ok(root);
    }

    /** The leaf level and the levels above it. */
    method BuildLevels(sorted: seq<Entry>)
      requires Valid() && plans == [] && Sorted(sorted) && WithinKeyBound(sorted)
      modifies this
      ensures Valid() && |plans| > 0 && plans[0].items == sorted && Shrinking(plans)
      ensures plans[|plans| - 1].chain == [root] && forall l :: 0 <= l < |plans| - 1 ==> |plans[l].chain| > 1
      ensures old(freelist) == [] ==> AllRising(plans)
      ensures |plans[0].chain| <= |old(freelist)| ==> plans[0].chain == old(freelist)[..|plans[0].chain|]
    {
      hide AllBuilt, AllocOk, KeysAscend, WithinKeyBound, Sorted, Shrinking, Stacked, AllRising;
      SortedAscends(sorted);
      var items, level := sorted, 0;
      var chain, cuts := AddLevel(items, 0);
      OneLevel(plans);
      while |chain| > 1
        invariant Valid() && |plans| == level + 1 && plans[level] == Plan(chain, items, cuts)
        invariant plans[0].items == sorted
        invariant |plans[0].chain| <= |old(freelist)| ==> plans[0].chain == old(freelist)[..|plans[0].chain|]
        invariant |chain| > 0 && Shrinking(plans) && forall l :: 0 <= l < |plans| - 1 ==> |plans[l].chain| > 1
        invariant old(freelist) == [] ==> freelist == [] && AllRising(plans)
        decreases |chain|
      {
        LevelReady(pages, plans, level);
        ghost var below := plans;
        items := Children(chain, items, cuts);
        level := level + 1;
        chain, cuts := AddLevel(items, level);
        ShrinkMore(below, Plan(chain, items, cuts));
        RisingMore(below, Plan(chain, items, cuts));
      }
      root := chain[0];
      assert chain == [root];
    }

    ghost predicate Finished()
      reads this
    {
      Valid() && |plans| > 0 && plans[|plans| - 1].chain == [root] && At(pages, root).Page? &&
        At(pages, root).flags.root
    }

    method MarkRoot()
      requires Valid() && |plans| > 0 && plans[|plans| - 1].chain == [root]
      modifies `pages
      ensures Finished()
    {
      assert PlanBuilt(pages, plans, |plans| - 1);
      assert PageBuilt(pages, [root], |plans| - 1, plans[|plans| - 1].items, plans[|plans| - 1].cuts, 0);
      ghost var was := pages;
      var page := At(pages, root);
      pages := pages[root := page.(flags := page.flags.(root := true))];
      RootMarked(was, pages, plans, root);
    }

    /** Descending by the child rule alone and walking from there finds exactly the entries with the key, for every
        key and every index the hop bound admits. */
    method Find(key: seq<byte>) returns (r: Result<seq<Tid>, ChainError>)
      requires Finished()
      ensures |plans[0].chain| <= MAX_CHAIN_HOPS ==> r == Ok(Tids(Select(plans[0].items, HasKey(key))))
    {
      var leaf; ghost var c;
      leaf, c := DescendByChild(key);
      assert PlanBuilt(pages, plans, 0);
      ghost var p := plans[0];
      BuiltLevelOk(pages, p.chain, 0, p.items, p.cuts, root);
      LeavesFlat(pages, plans);
      if p.items != [] && |p.chain| <= MAX_CHAIN_HOPS {
        LowsDefined(0, p.items, p.cuts);
        LandedDirect(pages, p.chain, p.items, p.cuts, key, c);
      }
      r := LookupAll(pages, p.chain, leaf, key);
    }

    method DescendByChild(key: seq<byte>) returns (leaf: PageId, ghost c: nat)
      requires Finished()
      ensures c < |plans[0].chain| && plans[0].chain[c] == leaf
      ensures plans[0].items != [] ==> LandsOn(plans[0], key, c)
    {
      var cur := root;
      ghost var l: nat := |plans| - 1;
      c := 0;
      TopLands(pages, plans, root, key);
      hide AllBuilt, AllocOk, LandsOn, KeyLess, KeysAscend;
      while At(pages, cur).level != 0
        invariant l < |plans| && c < |plans[l].chain| && plans[l].chain[c] == cur
        invariant At(pages, cur).Page? && At(pages, cur).level == l
        invariant plans[l].items != [] ==> LandsOn(plans[l], key, c)
        decreases l
      {
        Descends(pages, plans, l, key, c);
        var child, slot := FindChild(At(pages, cur).entries, key);
        ChildAt(pages, plans, l, c, slot);
        LandsBelow(pages, plans, l, key, c, slot);
        cur, c, l := child.value, plans[l].cuts[c] + slot, l - 1;
      }
      leaf := cur;
    }
  }

  /** The descent stands on the page of the level where the key belongs. */
  ghost predicate LandsOn(p: Plan, key: seq<byte>, c: nat) {
    && |p.cuts| == |p.chain| + 1 && (forall i :: 0 <= i < |p.chain| ==> p.cuts[i] < |p.items|)
    && Lands(Children(p.chain, p.items, p.cuts), key, c)
  }

  lemma TopLands(pages: Pages, plans: seq<Plan>, root: PageId, key: seq<byte>)
    requires AllBuilt(pages, plans) && |plans| > 0 && plans[|plans| - 1].chain == [root]
    ensures At(pages, root).Page? && At(pages, root).level == |plans| - 1
    ensures plans[|plans| - 1].items != [] ==> LandsOn(plans[|plans| - 1], key, 0)
  {
    var l := |plans| - 1;
    assert PlanBuilt(pages, plans, l);
    assert PageBuilt(pages, plans[l].chain, l, plans[l].items, plans[l].cuts, 0);
    if plans[l].items != [] { LowsDefined(l, plans[l].items, plans[l].cuts); }
  }

  /** An internal page on the way holds entries, in key order. */
  lemma Descends(pages: Pages, plans: seq<Plan>, l: nat, key: seq<byte>, c: nat)
    requires AllBuilt(pages, plans) && 0 < l < |plans| && c < |plans[l].chain|
    ensures plans[l].items != [] && EntriesOf(pages, plans[l].chain[c]) != []
    ensures KeysAscend(EntriesOf(pages, plans[l].chain[c]))
  {
    var p := plans[l];
    assert PlanBuilt(pages, plans, l) && PlanBuilt(pages, plans, l - 1);
    assert |plans[l - 1].chain| > 0;
    assert PageBuilt(pages, p.chain, l, p.items, p.cuts, c) && p.cuts[c] < p.cuts[c + 1];
    StoredAscends(l, p.items, p.cuts[c], p.cuts[c + 1]);
  }

  lemma PageHolds(pages: Pages, p: Plan, l: nat, c: nat)
    requires LevelBuilt(pages, p.chain, l, p.items, p.cuts) && c < |p.chain|
    ensures |p.cuts| == |p.chain| + 1 && p.cuts[c] <= p.cuts[c + 1] <= |p.items| && Tiles(l, p.items, p.cuts)
    ensures At(pages, p.chain[c]).Page? && At(pages, p.chain[c]).level == l
    ensures EntriesOf(pages, p.chain[c]) == Stored(l, p.items)[p.cuts[c]..p.cuts[c + 1]]
  {
    assert PageBuilt(pages, p.chain, l, p.items, p.cuts, c);
  }

  lemma PlanPair(pages: Pages, plans: seq<Plan>, l: nat)
    requires AllBuilt(pages, plans) && 0 < l < |plans|
    ensures var p, b := plans[l], plans[l - 1];
      && LevelBuilt(pages, p.chain, l, p.items, p.cuts) && LevelBuilt(pages, b.chain, l - 1, b.items, b.cuts)
      && Stacked(b, p.items) && KeysAscend(p.items)
  {
    assert PlanBuilt(pages, plans, l) && PlanBuilt(pages, plans, l - 1);
  }

  lemma LandsBelow(pages: Pages, plans: seq<Plan>, l: nat, key: seq<byte>, c: nat, slot: nat)
    requires AllBuilt(pages, plans) && 0 < l < |plans| && LandsOn(plans[l], key, c) && c < |plans[l].chain|
    requires var es := EntriesOf(pages, plans[l].chain[c]);
      slot < |es| && (forall x :: slot < x < |es| ==> KeyLess(key, es[x].key)) &&
        (slot > 0 ==> !KeyLess(key, es[slot].key))
    ensures LandsOn(plans[l - 1], key, plans[l].cuts[c] + slot)
  {
    hide AllBuilt, PlanBuilt, LevelBuilt, Tiles, KeysAscend, Lands, KeyLess, EntriesOf;
    var p := plans[l];
    PlanPair(pages, plans, l);
    PageHolds(pages, p, l, c);
    LandStep(l, p.chain, p.items, p.cuts, key, c, slot);
  }

  lemma ChildAt(pages: Pages, plans: seq<Plan>, l: nat, c: nat, slot: nat)
    requires AllBuilt(pages, plans) && 0 < l < |plans| && c < |plans[l].chain|
    requires slot < |EntriesOf(pages, plans[l].chain[c])|
    ensures |plans[l].cuts| == |plans[l].chain| + 1 && plans[l].cuts[c] + slot < |plans[l - 1].chain|
    ensures var q := plans[l - 1].chain[plans[l].cuts[c] + slot];
      EntriesOf(pages, plans[l].chain[c])[slot].ptr == q && At(pages, q).Page? && At(pages, q).level == l - 1
  {
    hide AllBuilt, PlanBuilt, LevelBuilt, Tiles, KeysAscend, EntriesOf;
    var p, b := plans[l], plans[l - 1];
    PlanPair(pages, plans, l);
    PageHolds(pages, p, l, c);
    var d := p.cuts[c] + slot;
    assert p.items[d].ptr == b.chain[d] && Stored(l, p.items)[d].ptr == p.items[d].ptr;
    PageHolds(pages, b, l - 1, d);
  }

  /** The root flag is no part of what a level holds. */
  lemma RootMarked(pages: Pages, now: Pages, plans: seq<Plan>, root: PageId)
    requires AllBuilt(pages, plans) && |plans| > 0 && plans[|plans| - 1].chain == [root] && At(pages, root).Page?
    requires At(now, root) == At(pages, root).(flags := At(pages, root).flags.(root := true))
    requires forall p :: p != root ==> At(now, p) == At(pages, p)
    ensures AllBuilt(now, plans)
  {
    PlanLevel(pages, plans, |plans| - 1);
    assert PageBuilt(pages, [root], |plans| - 1, plans[|plans| - 1].items, plans[|plans| - 1].cuts, 0);
    forall l | 0 <= l < |plans| ensures PlanBuilt(now, plans, l) {
      assert PlanBuilt(pages, plans, l);
      var p := plans[l];
      forall i | 0 <= i < |p.chain| ensures PageBuilt(now, p.chain, l, p.items, p.cuts, i) {
        assert PageBuilt(pages, p.chain, l, p.items, p.cuts, i);
      }
    }
  }

  lemma LeavesFlat(pages: Pages, plans: seq<Plan>)
    requires AllBuilt(pages, plans) && |plans| > 0
    ensures Flat(pages, plans[0].chain) == plans[0].items
  {
    var p := plans[0];
    assert PlanBuilt(pages, plans, 0);
    BuiltFlat(pages, p.chain, 0, p.items, p.cuts, |p.chain|);
    assert p.chain[..|p.chain|] == p.chain && p.items[..|p.items|] == p.items;
  }

  /** More than one page: the pages have low keys, and they ascend. */
  lemma LevelReady(pages: Pages, plans: seq<Plan>, level: nat)
    requires AllBuilt(pages, plans) && level < |plans| && |plans[level].chain| > 1
    ensures var p := plans[level];
      && p.items != [] && |p.cuts| == |p.chain| + 1 && (forall i :: 0 <= i < |p.chain| ==> p.cuts[i] < |p.items|)
      && KeysAscend(Children(p.chain, p.items, p.cuts)) && WithinKeyBound(Children(p.chain, p.items, p.cuts))
      && Stacked(p, Children(p.chain, p.items, p.cuts))
  {
    var p := plans[level];
    assert PlanBuilt(pages, plans, level);
    LowsDefined(level, p.items, p.cuts);
    ChildrenAscend(level, p.chain, p.items, p.cuts);
  }

  lemma StoredRun(level: nat, items: seq<Entry>, cuts: seq<nat>, i: nat, run: seq<Entry>)
    requires Tiles(level, items, cuts) && i + 1 < |cuts| && cuts[i] <= cuts[i + 1] <= |items|
    requires var r := items[cuts[i]..cuts[i + 1]];
      run == if level > 0 && i == 0 && r != [] then r[0 := r[0].(key := [])] else r
    ensures run == Stored(level, items)[cuts[i]..cuts[i + 1]]
  {
  }

  // ---------------------------------------------------------------- equal keys over recycled pages

  lemma {:induction false} LargestCost(s: seq<Entry>, key: seq<byte>)
    requires |key| == MAX_INDEX_KEY_BYTES && forall x :: 0 <= x < |s| ==> s[x].key == key
    ensures TotalCost(0, s) == 2712 * |s|
  {
    if s != [] { LargestCost(s[..|s| - 1], key); }
  }

  /** Three entries with keys of the largest size fill a leaf. */
  lemma ThreePerLeaf(items: seq<Entry>, key: seq<byte>, cuts: seq<nat>)
    requires |items| == 7 && |key| == MAX_INDEX_KEY_BYTES && Tiles(0, items, cuts)
    requires forall x :: 0 <= x < |items| ==> items[x].key == key
    ensures cuts == [0, 3, 6, 7]
  {
    FullRun(items, key, cuts, 0);
    FullRun(items, key, cuts, 1);
    FullRun(items, key, cuts, 2);
  }

  lemma FullRun(items: seq<Entry>, key: seq<byte>, cuts: seq<nat>, i: nat)
    requires |key| == MAX_INDEX_KEY_BYTES && Tiles(0, items, cuts) && i + 1 < |cuts|
    requires forall x :: 0 <= x < |items| ==> items[x].key == key
    ensures cuts[i + 1] - cuts[i] <= 3 && (i + 2 < |cuts| ==> cuts[i + 1] == cuts[i] + 3)
  {
    assert RunFits(0, items, cuts, i) && (i + 2 < |cuts| ==> RunFull(0, items, cuts, i));
    hide Tiles, TotalCost;
    LargestCost(items[cuts[i]..cuts[i + 1]], key);
  }

  function Duplicates(key: seq<byte>): (s: seq<Entry>)
    ensures |s| == 7 && forall x :: 0 <= x < 7 ==> s[x] == Entry(key, x, 0)
  {
    seq(7, (x: nat) => Entry(key, x, 0))
  }

  lemma DuplicatesSorted(key: seq<byte>)
    ensures Sorted(Duplicates(key))
  {
    KeyTotal(key, key);
  }

  /** Loaded over pages recycled in the order 3, 5, 4, seven such entries get a root out of order. */
  method RecycledOutOfOrder(loader: BulkLoader, key: seq<byte>) returns (r: Result<PageId, BuildError>)
    requires loader.Valid() && loader.plans == [] && loader.freelist == [3, 5, 4]
    requires |key| == MAX_INDEX_KEY_BYTES
    modifies loader
    ensures r.Ok? && loader.Finished() && !InnerSorted(loader.pages, LevelsOf(loader.plans), 0)
  {
    var entries := Duplicates(key);
    r := loader.Build(entries);
    DuplicatesSorted(key);
    SortedUnique(loader.plans[0].items, entries);
    OutOfOrder(loader.pages, loader.plans, loader.root, key);
  }

  lemma OutOfOrder(pages: Pages, plans: seq<Plan>, root: PageId, key: seq<byte>)
    requires AllBuilt(pages, plans) && |plans| > 0 && plans[|plans| - 1].chain == [root] && Shrinking(plans)
    requires plans[0].items == Duplicates(key) && |key| == MAX_INDEX_KEY_BYTES
    requires |plans[0].chain| <= 3 ==> plans[0].chain == [3, 5, 4][..|plans[0].chain|]
    ensures !AllIdsFollow(pages, LevelsOf(plans))
  {
    assert PlanBuilt(pages, plans, 0);
    ThreePerLeaf(plans[0].items, key, plans[0].cuts);
    PlanPair(pages, plans, 1);
    PageHolds(pages, plans[1], 1, 0);
    var es := EntriesOf(pages, plans[1].chain[0]);
    assert es[1] == Entry(key, 5, 0) && es[2] == Entry(key, 4, 0);
    assert !IdsFollow(EntriesOf(pages, LevelsOf(plans)[1][0]));
  }
}
