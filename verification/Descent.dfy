/** From the root down to the leaf chain: the child rule, the read descent, and the write descent that keeps the
    path for the split Commit. Separators may be stale or out of order, so a descent only promises pages of the
    right levels; the write descent also promises that nothing right of its leaf starts at or below the probe. */
module Descent {
  import opened Entries
  import opened BtPages
  import opened BtLog
  import opened Chains
  import opened TreeShape
  import opened Lookup
  import opened Placement
  import opened Fences

  datatype DescentError = Hops | NoEntries

  /** Separators in order; equal keys may repeat. */
  ghost predicate KeysAscend(es: seq<Entry>) {
    forall i, j :: 0 <= i <= j < |es| ==> !KeyLess(es[j].key, es[i].key)
  }

  /** `find_child`: the last entry whose key is at or below the probe's, else entry 0. */
  method FindChild(es: seq<Entry>, key: seq<byte>) returns (r: Result<PageId, DescentError>, slot: nat)
    ensures es == [] <==> r.Err?
    ensures r.Ok? ==> slot < |es| && r.value == es[slot].ptr
    ensures r.Ok? && KeysAscend(es) ==>
      (forall i :: slot < i < |es| ==> KeyLess(key, es[i].key)) && (slot > 0 ==> !KeyLess(key, es[slot].key))
  {
    slot := 0;
    if |es| == 0 {
      return Err(NoEntries), 0;
    }
    var lo, hi := 0, |es|;
    while lo < hi
      invariant 0 <= lo <= hi <= |es|
      invariant lo > 0 ==> !KeyLess(key, es[lo - 1].key)
      invariant KeysAscend(es) ==> forall i :: hi <= i < |es| ==> KeyLess(key, es[i].key)
    {
      var mid := (lo + hi) / 2;
      if !KeyLess(key, es[mid].key) {
        lo := mid + 1;
      } else {
        KeysFollow(es, mid, key);
        hi := mid;
      }
    }
    slot := if lo == 0 then 0 else lo - 1;
    r := Ok(es[slot].ptr);
  }

  lemma SortedAscends(es: seq<Entry>)
    requires Sorted(es)
    ensures KeysAscend(es)
  {
    forall i, j | 0 <= i <= j < |es| ensures !KeyLess(es[j].key, es[i].key) {
      if i < j { assert Less(es[i], es[j]); }
      KeyTotal(es[i].key, es[j].key);
    }
  }

  lemma KeysFollow(es: seq<Entry>, mid: nat, key: seq<byte>)
    requires mid < |es| && KeyLess(key, es[mid].key)
    ensures KeysAscend(es) ==> forall i :: mid <= i < |es| ==> KeyLess(key, es[i].key)
  {
    if KeysAscend(es) {
      forall i | mid <= i < |es| ensures KeyLess(key, es[i].key) {
        KeyTotal(es[mid].key, es[i].key);
        if KeyLess(es[mid].key, es[i].key) { KeyTransitive(key, es[mid].key, es[i].key); }
      }
    }
  }

  /** Leftward if the page's first key is above the probe's. */
  predicate Dominated(pg: Page, probe: Entry)
    requires pg.Page?
  {
    |pg.entries| != 0 && if pg.level == 0 then Less(probe, pg.entries[0]) else KeyLess(probe.key, pg.entries[0].key)
  }

  /** A non-empty right page that starts at or below the probe; the empty key of a leftmost child never does. */
  predicate Owns(pg: Page, probe: Entry)
    requires pg.Page? && pg.entries != []
  {
    if pg.level == 0 then !Less(probe, pg.entries[0])
    else pg.entries[0].key != [] && !KeyLess(probe.key, pg.entries[0].key)
  }

  /** What the internal walk still has to do: left while the page starts above the probe, then only right. */
  ghost function InnerLeft(pages: Pages, chain: seq<PageId>, at: nat, probe: Entry): nat
    requires at < |chain|
  {
    if At(pages, chain[at]).Page? && Dominated(At(pages, chain[at]), probe) then |chain| + at else |chain| - at
  }

  /** The internal-level part of `walk_to_position_guard`. It ends whatever the separators say, and where the probe's
      key is in the range of its page it does not move. */
  method WalkInternal(pages: Pages, ghost levels: Levels, root: PageId, ghost l: nat, start: PageId,
                      ghost startAt: nat, probe: Entry, ghost lo: Lows)
    returns (r: Result<PageId, DescentError>)
    requires TreeOk(pages, levels, root) && 0 < l < |levels| && startAt < |levels[l]| && levels[l][startAt] == start
    ensures r.Ok? ==> r.value in levels[l]
    ensures |levels[l]| <= SHORT_CHAIN ==> r.Ok?
    ensures Passable(pages, levels, lo) && Covers(levels[l], lo, startAt, probe.key) ==> r == Ok(start)
  {
    hide TreeOk, Less, KeyLess, Linked, Passable, Covers, InnerLeft;
    NeighboursApart(pages, levels, root, l);
    ghost var chain := levels[l];
    var cur, hops := start, 0;
    ghost var at: nat := startAt;
    FewSteps(pages, chain, at, probe);
    ghost var home := Passable(pages, levels, lo) && Covers(chain, lo, startAt, probe.key);
    while true
      invariant at < |chain| && chain[at] == cur
      invariant home ==> at == startAt && hops == 0
      invariant |chain| <= SHORT_CHAIN ==>
        hops + (SHORT_CHAIN + 2) * (InnerLeft(pages, chain, at, probe) + 1) <= MAX_CHAIN_HOPS
      decreases InnerLeft(pages, chain, at, probe)
    {
      ghost var from, k := at, 0;
      PageAt(pages, levels, root, l, at);
      NextOf(pages, chain, at);
      if home { HomeStays(pages, levels, root, l, at, probe, lo); }
      var pg, moved := At(pages, cur), false;
      if Dominated(pg, probe) && pg.prev != INVALID {
        at := PrevOf(pages, chain, at);
        cur, hops, moved := pg.prev, hops + 1, true;
      }
      var hop;
      hop, hops, k := NextNonEmpty(pages, chain, cur, at, hops);
      if hop.Err? {
        return Err(Hops);
      }
      if hop.value.Some? { PageAt(pages, levels, root, l, k); }
      if hop.value.Some? && Owns(At(pages, hop.value.value), probe) {
        if home { HomeAlone(pages, levels, root, l, at, k, probe, lo); }
        InnerStep(pages, levels, root, l, from, at, k, probe);
        cur, at, hops, moved := hop.value.value, k, hops + 1, true;
      } else if moved {
        InnerBack(pages, chain, from, at, probe);
      }
      if !moved {
        return Ok(cur);
      }
      if hops > MAX_CHAIN_HOPS {
        return Err(Hops);
      }
    }
  }

  lemma FewSteps(pages: Pages, chain: seq<PageId>, at: nat, probe: Entry)
    requires at < |chain|
    ensures InnerLeft(pages, chain, at, probe) < 2 * |chain|
  {
  }

  /** The page a hint names is further left. */
  lemma PrevOf(pages: Pages, chain: seq<PageId>, at: nat) returns (p: nat)
    requires Linked(pages, chain) && at < |chain| && At(pages, chain[at]).Page? && At(pages, chain[at]).prev != INVALID
    ensures p < at && chain[p] == At(pages, chain[at]).prev
  {
    assert LinkOk(pages, chain, at);
    var x :| 0 <= x < at && chain[x] == At(pages, chain[at]).prev;
    p := x;
  }

  /** A hop right, after a step left or not, leaves less to do. */
  lemma InnerStep(pages: Pages, levels: Levels, root: PageId, l: nat, from: nat, at: nat, k: nat, probe: Entry)
    requires TreeOk(pages, levels, root) && 0 < l < |levels| && from < |levels[l]| && at <= from && at < k < |levels[l]|
    requires at == from || (At(pages, levels[l][from]).Page? && Dominated(At(pages, levels[l][from]), probe))
    requires forall j :: at < j < k ==> EntriesOf(pages, levels[l][j]) == []
    requires At(pages, levels[l][k]).Page? && At(pages, levels[l][k]).entries != []
    requires Owns(At(pages, levels[l][k]), probe)
    ensures InnerLeft(pages, levels[l], k, probe) < InnerLeft(pages, levels[l], from, probe)
  {
    PageAt(pages, levels, root, l, k);
    PageAt(pages, levels, root, l, from);
    hide TreeOk;
    assert !Dominated(At(pages, levels[l][k]), probe);
    if at < from { assert k <= from && k != from; }
  }

  lemma InnerBack(pages: Pages, chain: seq<PageId>, from: nat, at: nat, probe: Entry)
    requires at < from < |chain| && At(pages, chain[from]).Page? && Dominated(At(pages, chain[from]), probe)
    ensures InnerLeft(pages, chain, at, probe) < InnerLeft(pages, chain, from, probe)
  {
  }

  lemma HomeStays(pages: Pages, levels: Levels, root: PageId, l: nat, at: nat, probe: Entry, lo: Lows)
    requires TreeOk(pages, levels, root) && Passable(pages, levels, lo) && 0 < l < |levels|
    requires Covers(levels[l], lo, at, probe.key)
    ensures At(pages, levels[l][at]).Page? && !Dominated(At(pages, levels[l][at]), probe)
    ensures at + 1 < |levels[l]| ==> EntriesOf(pages, levels[l][at + 1]) != []
  {
    PageAt(pages, levels, root, l, at);
    hide TreeOk;
    RangeStays(pages, levels, lo, l, at, probe.key);
  }

  lemma HomeAlone(pages: Pages, levels: Levels, root: PageId, l: nat, at: nat, k: nat, probe: Entry, lo: Lows)
    requires TreeOk(pages, levels, root) && Passable(pages, levels, lo) && 0 < l < |levels|
    requires Covers(levels[l], lo, at, probe.key) && at < k < |levels[l]|
    requires forall j :: at < j < k ==> EntriesOf(pages, levels[l][j]) == []
    requires At(pages, levels[l][k]).Page? && At(pages, levels[l][k]).entries != []
    ensures k == at + 1 && !Owns(At(pages, levels[l][k]), probe)
  {
    PageAt(pages, levels, root, l, k);
    hide TreeOk;
    RangeStays(pages, levels, lo, l, at, probe.key);
  }

  /** What the walk still has to do: its hops, and one look left from a page that does not settle the probe. */
  ghost function WalkLeft(pages: Pages, chain: seq<PageId>, at: nat, verified: PageId, probe: Entry): nat
    requires at < |chain|
  {
    HopsLeft(pages, chain, at, probe) + if Settled(pages, chain[at], probe) || verified == chain[at] then 0 else 1
  }

  /** The leaf-level part of `walk_to_position_guard` for an insert: left only onto a page that reaches above the
      probe, right to the next non-empty page that starts at or below it. The page it ends on blinds placement
      exactly if the page it started from does. */
  method WalkLeaf(pages: Pages, ghost chain: seq<PageId>, start: PageId, ghost startAt: nat, probe: Entry)
    returns (r: Result<PageId, DescentError>, ghost at: nat)
    requires ChainOk(pages, chain) && startAt < |chain| && chain[startAt] == start
    ensures |chain| <= SHORT_CHAIN ==> r.Ok?
    ensures |chain| <= LONG_CHAIN && PositionAt(pages, chain, startAt, probe) ==> r.Ok? && at == startAt
    ensures r.Ok? ==> at < |chain| && chain[at] == r.value && !MoreRight(pages, chain, at, probe)
    ensures r.Ok? ==> (Blinded(pages, chain, at, probe) <==> Blinded(pages, chain, startAt, probe))
    ensures r.Ok? ==> (TailLeftOf(pages, chain, at, probe) <==> TailLeftOf(pages, chain, startAt, probe))
  {
    hide Less, Linked, Sorted, Flat, Blinded, Stranded, TailLeftOf, MoreRight, OnTrack, HopsLeft, PositionAt;
    TrackStarts(pages, chain, startAt, probe);
    NoInvalid(pages, chain);
    ghost var home := |chain| <= LONG_CHAIN && PositionAt(pages, chain, startAt, probe);
    var cur, hops, verified := start, 0, INVALID;
    at := startAt;
    while true
      invariant at < |chain| && chain[at] == cur && OnTrack(pages, chain, startAt, at, probe)
      invariant home ==> at == startAt && hops <= if verified == cur then |chain| + 2 else 0
      invariant |chain| <= SHORT_CHAIN ==>
        hops + (SHORT_CHAIN + 3) * (WalkLeft(pages, chain, at, verified, probe) + 1) <= MAX_CHAIN_HOPS
      decreases WalkLeft(pages, chain, at, verified, probe)
    {
      ghost var k, l := 0, 0;
      ghost var todo := WalkLeft(pages, chain, at, verified, probe);
      var moved := false;
      NextOf(pages, chain, at);
      var pg := At(pages, cur);
      if (|pg.entries| == 0 || Less(probe, pg.entries[0])) && pg.prev != INVALID && verified != cur {
        var left;
        left, l := NearestNonEmptyLeft(pages, chain, cur, at);
        if left.Err? {
          return Err(Hops), at;
        }
        moved, hops := true, hops + 1;
        if left.value.Some? {
          NextOf(pages, chain, l);
          if home { NotLeftOf(pages, chain, at, l, probe); }
          hops := hops + 1;
        }
        if left.value.Some? && Less(probe, LastOf(At(pages, left.value.value).entries)) {
          LeftStep(pages, chain, startAt, at, l, probe);
          LeftEnds(pages, chain, at, l, probe);
          cur, at := left.value.value, l;
        } else {
          verified := cur;
        }
      }
      assert WalkLeft(pages, chain, at, verified, probe) < todo || !moved;
      var hop;
      hop, hops, k := NextNonEmpty(pages, chain, cur, at, hops);
      if hop.Err? {
        return Err(Hops), at;
      }
      if home && hop.value.Some? { NotRightOf(pages, chain, at, k, probe); }
      if hop.value.Some? && !Less(probe, At(pages, hop.value.value).entries[0]) {
        RightStep(pages, chain, startAt, at, k, probe);
        cur, at, hops, moved := hop.value.value, k, hops + 1, true;
      }
      if !moved {
        NothingRight(pages, chain, at, k, probe);
        SameStart(pages, chain, startAt, at, probe);
        return Ok(cur), at;
      }
      if hops > MAX_CHAIN_HOPS {
        return Err(Hops), at;
      }
    }
  }

  /** Two leaves of one key's duplicate run. */
  function TwoLeaves(key: seq<byte>): Pages {
    map[1 := Leaf(INVALID, 2, [Entry(key, 50, 0)]), 2 := Leaf(1, INVALID, [Entry(key, 100, 0)])]
  }

  lemma TwoLeavesOk(key: seq<byte>)
    ensures ChainOk(TwoLeaves(key), [1, 2]) && Entry(key, 50, 0) in Flat(TwoLeaves(key), [1, 2])
    ensures TailLeftOf(TwoLeaves(key), [1, 2], 1, Entry(key, 50, 0))
  {
    var pages, chain := TwoLeaves(key), [1, 2];
    FlatOne(pages, 1);
    FlatOne(pages, 2);
    FlatConcat(pages, [1], [2]);
    assert [1] + [2] == chain && chain[..1] == [1];
    hide Flat, Bytes;
    assert LinkOk(pages, chain, 0) && LinkOk(pages, chain, 1);
    assert Flat(pages, chain) == [Entry(key, 50, 0), Entry(key, 100, 0)];
    assert Less(Entry(key, 50, 0), Entry(key, 100, 0));
    assert EntriesOf(pages, chain[0]) == [Entry(key, 50, 0)];
  }

  lemma Outcomes(r: Result<(PageId, nat), PlaceError>)
    ensures r.Ok? || r == Err(DuplicateKey) || r == Err(TooManyHops)
  {
    if r.Err? {
      match r.error
      case DuplicateKey =>
      case TooManyHops =>
    }
  }

  /** From the second leaf `(key, 50)` is accepted a second time: the left neighbour's last entry is compared for being
      above the pair, never for being the pair. */
  method ReinsertAccepted(key: seq<byte>) returns (r: Result<(PageId, nat), PlaceError>)
    ensures r.Ok?
  {
    var pages, probe := map[1 := Leaf(INVALID, 2, [Entry(key, 50, 0)]), 2 := Leaf(1, INVALID, [Entry(key, 100, 0)])],
                        Entry(key, 50, 0);
    TwoLeavesOk(key);
    assert pages == TwoLeaves(key);
    hide ChainOk, Linked, Flat, TailLeftOf, Blinded, MoreRight, TwoLeaves;
    ghost var chain := [1, 2];
    var leaf; ghost var start;
    leaf, start := WalkLeaf(pages, chain, 2, 1, probe);
    ghost var at;
    r, at := Place(pages, chain, leaf.value, start, probe);
    Outcomes(r);
  }

  /** Every level is short, no page above the leaves is empty, no split is in flight: a descent cannot fail. */
  ghost predicate Walkable(pages: Pages, levels: Levels) {
    Filled(pages, levels) && NoneOpen(pages, levels, 0) && forall l :: 0 <= l < |levels| ==> |levels[l]| <= SHORT_CHAIN
  }

  /** The internal levels of both read descents: which leaf they arrive at depends on separators that may be stale; with
      the levels fenced it is the one in whose range the key is. */
  method DescendInner(pages: Pages, ghost levels: Levels, root: PageId, probe: Entry, ghost lo: Lows)
    returns (r: Result<PageId, DescentError>, ghost at: nat)
    requires TreeOk(pages, levels, root)
    ensures r.Ok? ==> at < |levels[0]| && levels[0][at] == r.value
    ensures |levels| == 1 || Walkable(pages, levels) ==> r.Ok?
    ensures Passable(pages, levels, lo) ==> r.Ok? && Covers(levels[0], lo, at, probe.key)
  {
    hide TreeOk, Linked, LinkOk, Passable, Covers, Walkable, KeysAscend, KeyLess;
    SomeLevel(pages, levels, root);
    RootOnTop(pages, levels, root);
    var cur := root;
    ghost var l: nat := |levels| - 1;
    at := OnLevel(pages, levels, root, l, cur);
    ghost var home := Passable(pages, levels, lo);
    if home { AtTheRoot(pages, levels, root, at, probe, lo); }
    while At(pages, cur).level != 0
      invariant l < |levels| && at < |levels[l]| && levels[l][at] == cur && At(pages, cur).Page?
      invariant At(pages, cur).level == l && (|levels| == 1 ==> l == 0)
      invariant home ==> Covers(levels[l], lo, at, probe.key)
      decreases l
    {
      if Walkable(pages, levels) { ShortAt(pages, levels, l); }
      var p := WalkInternal(pages, levels, root, l, cur, at, probe, lo);
      if p.Err? {
        return Err(p.error), at;
      }
      if !home { at := OnLevel(pages, levels, root, l, p.value); }
      HasEntries(pages, levels, l, at, lo);
      var child, slot := FindChild(At(pages, p.value).entries, probe.key);
      if child.Err? {
        return Err(child.error), at;
      }
      ChildBelow(pages, levels, root, l, at, slot);
      if home { at := ChildHome(pages, levels, root, l, at, slot, probe, lo); }
      cur, l := child.value, l - 1;
      ghost var i := OnLevel(pages, levels, root, l, cur);
      if !home { at := i; }
    }
    r := Ok(cur);
  }

  lemma ShortAt(pages: Pages, levels: Levels, l: nat)
    requires Walkable(pages, levels) && l < |levels|
    ensures |levels[l]| <= SHORT_CHAIN
  {
  }

  lemma HasEntries(pages: Pages, levels: Levels, l: nat, at: nat, lo: Lows)
    requires 0 < l < |levels| && at < |levels[l]|
    ensures Walkable(pages, levels) || Passable(pages, levels, lo) ==> EntriesOf(pages, levels[l][at]) != []
  {
    if Walkable(pages, levels) || Passable(pages, levels, lo) { assert !IsTwin(pages, levels[l], at); }
  }

  lemma AtTheRoot(pages: Pages, levels: Levels, root: PageId, at: nat, probe: Entry, lo: Lows)
    requires TreeOk(pages, levels, root) && Passable(pages, levels, lo)
    requires |levels| > 0 && at < |levels[|levels| - 1]|
    ensures Covers(levels[|levels| - 1], lo, at, probe.key) && levels[|levels| - 1] == [root]
  {
    TopAlone(pages, levels, root);
    RootInRange(pages, root, |levels| - 1, lo, probe.key);
  }

  /** The child rule on a page in whose range the key is. */
  lemma ChildHome(pages: Pages, levels: Levels, root: PageId, l: nat, at: nat, slot: nat, probe: Entry, lo: Lows)
    returns (c: nat)
    requires TreeOk(pages, levels, root) && Passable(pages, levels, lo) && 0 < l < |levels|
    requires Covers(levels[l], lo, at, probe.key) && slot < |EntriesOf(pages, levels[l][at])|
    requires var es := EntriesOf(pages, levels[l][at]);
      KeysAscend(es) ==>
        && (forall i :: slot < i < |es| ==> KeyLess(probe.key, es[i].key))
        && (slot > 0 ==> !KeyLess(probe.key, es[slot].key))
    ensures c < |levels[l - 1]| && levels[l - 1][c] == EntriesOf(pages, levels[l][at])[slot].ptr
    ensures Covers(levels[l - 1], lo, c, probe.key)
  {
    hide TreeOk, FencedBy, Filled, NoneOpen, KeysAscend;
    assert Sorted(EntriesOf(pages, levels[l][at]));
    SortedAscends(EntriesOf(pages, levels[l][at]));
    c := ChildInRange(pages, levels, root, lo, l, at, slot, probe.key);
  }

  /** The leaf of the key's range is the probe's position. */
  lemma HomeLeaf(pages: Pages, levels: Levels, lo: Lows, at: nat, probe: Entry)
    requires Passable(pages, levels, lo) && |levels| > 0 && Covers(levels[0], lo, at, probe.key)
    ensures at < |levels[0]| && PositionAt(pages, levels[0], at, probe)
  {
    RangeIsPosition(pages, levels[0], lo, at, probe);
  }

  /** `descend_to_leaf_for_insert`. */
  method DescendForInsert(pages: Pages, ghost levels: Levels, root: PageId, probe: Entry, ghost lo: Lows)
    returns (r: Result<PageId, DescentError>, ghost at: nat)
    requires TreeOk(pages, levels, root) && ChainOk(pages, levels[0])
    ensures r.Ok? ==> at < |levels[0]| && levels[0][at] == r.value && !MoreRight(pages, levels[0], at, probe)
    ensures (|levels| == 1 && |levels[0]| <= SHORT_CHAIN) || Walkable(pages, levels) ==> r.Ok?
    ensures Passable(pages, levels, lo) && |levels[0]| <= LONG_CHAIN ==>
      r.Ok? && Covers(levels[0], lo, at, probe.key)
  {
    hide Passable, Covers, Walkable, PositionAt, TreeOk, ChainOk, MoreRight;
    SomeLevel(pages, levels, root);
    r, at := DescendInner(pages, levels, root, probe, lo);
    if Walkable(pages, levels) { ShortAt(pages, levels, 0); }
    if Passable(pages, levels, lo) { HomeLeaf(pages, levels, lo, at, probe); }
    if r.Ok? {
      r, at := WalkLeaf(pages, levels[0], r.value, at, probe);
    }
  }

  lemma SomeLevel(pages: Pages, levels: Levels, root: PageId)
    requires TreeOk(pages, levels, root)
    ensures |levels| > 0
  {
  }

  /** `descend_to_leaf`: the leaf an existing entry would be on. */
  method DescendToLocate(pages: Pages, ghost levels: Levels, root: PageId, probe: Entry)
    returns (r: Result<PageId, DescentError>, ghost at: nat)
    requires TreeOk(pages, levels, root) && ChainOk(pages, levels[0])
    ensures r.Ok? ==> PositionAt(pages, levels[0], at, probe) && levels[0][at] == r.value
    ensures (|levels| == 1 && |levels[0]| <= SHORT_CHAIN) || Walkable(pages, levels) ==> r.Ok?
  {
    hide Passable, Covers, Walkable, PositionAt, TreeOk, ChainOk;
    SomeLevel(pages, levels, root);
    r, at := DescendInner(pages, levels, root, probe, map[]);
    if Walkable(pages, levels) { ShortAt(pages, levels, 0); }
    if r.Ok? {
      var leaf;
      leaf, at := Locate(pages, levels[0], r.value, probe);
      r := if leaf.Ok? then Ok(leaf.value) else Err(Hops);
    }
  }

  /** The path holds one page of every level above `l`, the root's first. */
  ghost predicate PathAbove(stack: seq<PageId>, levels: Levels, l: nat) {
    && l < |levels| && |stack| == |levels| - 1 - l
    && forall k :: 0 <= k < |stack| ==> stack[k] in levels[|levels| - 1 - k]
  }

  lemma PushPath(stack: seq<PageId>, levels: Levels, l: nat, p: PageId)
    requires PathAbove(stack, levels, l) && 0 < l && p in levels[l]
    ensures PathAbove(stack + [p], levels, l - 1)
  {
  }

  ghost predicate Points(es: seq<Entry>, child: PageId) {
    exists i :: 0 <= i < |es| && es[i].ptr == child
  }

  /** `internal_page_points_at`. */
  method PointsAt(es: seq<Entry>, child: PageId) returns (b: bool)
    ensures b <==> Points(es, child)
  {
    b := false;
    for slot := 0 to |es|
      invariant !b && forall i :: 0 <= i < slot ==> es[i].ptr != child
    {
      if es[slot].ptr == child {
        return true;
      }
    }
  }

  /** The page is the root or named by the last page of the path. */
  ghost predicate LinkedFrom(pages: Pages, stack: seq<PageId>, root: PageId, p: PageId) {
    if stack == [] then p == root else Points(EntriesOf(pages, stack[|stack| - 1]), p)
  }

  /** Every page of the path names the next, and the first is the root. */
  ghost predicate StackLinked(pages: Pages, stack: seq<PageId>, root: PageId) {
    forall k :: 0 <= k < |stack| ==> LinkedFrom(pages, stack[..k], root, stack[k])
  }

  lemma PushLinked(pages: Pages, stack: seq<PageId>, root: PageId, p: PageId)
    requires StackLinked(pages, stack, root) && LinkedFrom(pages, stack, root, p)
    ensures StackLinked(pages, stack + [p], root)
  {
    var more := stack + [p];
    forall k | 0 <= k < |more| ensures LinkedFrom(pages, more[..k], root, more[k]) {
      assert more[..k] == stack[..k];
      if k == |stack| { assert stack[..k] == stack; }
    }
  }

  lemma PathStarts(pages: Pages, levels: Levels, root: PageId)
    requires TreeOk(pages, levels, root)
    ensures |levels| > 0 && root in levels[|levels| - 1] && PathAbove([], levels, |levels| - 1)
  {
    RootOnTop(pages, levels, root);
  }

  lemma LoneLeaf(pages: Pages, levels: Levels, root: PageId)
    requires TreeOk(pages, levels, root) && |levels| == 1 && |levels[0]| == 1
    ensures levels[0][0] == root && At(pages, root).Page? && At(pages, root).flags.root
    ensures At(pages, root).prev == INVALID
  {
    RootOnTop(pages, levels, root);
    var i := OnLevel(pages, levels, root, 0, root);
    PageAt(pages, levels, root, 0, 0);
  }

  datatype WritePath = Restart | Path(stack: seq<PageId>, leaf: PageId)

  /** Nothing right of page `at` of the leaf chain starts at or below the probe. */
  ghost predicate RightClear(pages: Pages, chain: seq<PageId>, at: nat, probe: Entry) {
    at < |chain| && forall j :: at < j < |chain| ==> AllAbove(EntriesOf(pages, chain[j]), probe)
  }

  /** Where the leaf-level placement check sends the write descent: the nearest non-empty left sibling if
      that one still reaches above the probe, else back to the page itself. */
  method PlacementCheck(pages: Pages, ghost chain: seq<PageId>, cur: PageId, ghost i: nat, probe: Entry)
    returns (r: Result<PageId, DescentError>)
    requires Linked(pages, chain) && i < |chain| && chain[i] == cur
    ensures r.Ok? ==> r.value in chain
    ensures |chain| <= LONG_CHAIN && PositionAt(pages, chain, i, probe) ==> r == Ok(cur)
  {
    hide PositionAt, Linked;
    var left; ghost var k;
    left, k := NearestNonEmptyLeft(pages, chain, cur, i);
    if left.Err? {
      return Err(Hops);
    }
    r := Ok(cur);
    if left.value.Some? {
      NextOf(pages, chain, k);
      NotLeftOf(pages, chain, i, k, probe);
      if Less(probe, LastOf(At(pages, left.value.value).entries)) {
        r := Ok(left.value.value);
      }
    }
  }

  /** The next page to the right with entries starts at or below the probe. */
  ghost predicate NextOwns(pages: Pages, chain: seq<PageId>, i: nat, probe: Entry) {
    exists k :: i < k < |chain| && NextFilled(pages, chain, i, k) && At(pages, chain[k]).Page? &&
      Owns(At(pages, chain[k]), probe)
  }

  ghost predicate NextFilled(pages: Pages, chain: seq<PageId>, i: nat, k: nat)
    requires k < |chain|
  {
    EntriesOf(pages, chain[k]) != [] && forall j :: i < j < k ==> EntriesOf(pages, chain[j]) == []
  }

  /** A child with no entry at or below the probe: where the write descent turns left. */
  ghost predicate Strays(pages: Pages, es: seq<Entry>, probe: Entry) {
    exists x :: 0 <= x < |es| && Vacant(At(pages, es[x].ptr), probe)
  }

  predicate Vacant(pg: Page, probe: Entry) {
    pg.Page? && (Dominated(pg, probe) || |pg.entries| == 0)
  }

  /** No page above the leaves that the descent settles on names the leaf the probe belongs to, or sends it left. */
  ghost predicate Misrouted(pages: Pages, levels: Levels, probe: Entry) {
    && |levels| > 1
    && forall j: nat, at: nat ::
         j < |levels[1]| && !NextOwns(pages, levels[1], j, probe) && RightClear(pages, levels[0], at, probe) ==>
           && !Points(EntriesOf(pages, levels[1][j]), levels[0][at])
           && !Strays(pages, EntriesOf(pages, levels[1][j]), probe)
  }

  lemma StaysClear(pages: Pages, chain: seq<PageId>, i: nat, k: nat, probe: Entry)
    requires i < k <= |chain| && forall j :: i < j < k ==> EntriesOf(pages, chain[j]) == []
    requires k < |chain| ==>
      At(pages, chain[k]).Page? && EntriesOf(pages, chain[k]) != [] && !Owns(At(pages, chain[k]), probe)
    ensures !NextOwns(pages, chain, i, probe)
  {
  }

  /** The path ends on the probe's leaf, under a page that names it or that names a page the descent turned left on. */
  lemma Routed(pages: Pages, levels: Levels, top: nat, at: nat, probe: Entry)
    requires |levels| > 1 && top < |levels[1]| && !NextOwns(pages, levels[1], top, probe)
    requires RightClear(pages, levels[0], at, probe)
    requires Points(EntriesOf(pages, levels[1][top]), levels[0][at]) ||
             Strays(pages, EntriesOf(pages, levels[1][top]), probe)
    ensures !Misrouted(pages, levels, probe)
  {
  }

  lemma TurnsLeft(pages: Pages, stack: seq<PageId>, root: PageId, p: PageId, probe: Entry)
    requires stack != [] && LinkedFrom(pages, stack, root, p) && Vacant(At(pages, p), probe)
    ensures Strays(pages, EntriesOf(pages, stack[|stack| - 1]), probe)
  {
    var es := EntriesOf(pages, stack[|stack| - 1]);
    var x :| 0 <= x < |es| && es[x].ptr == p;
  }

  datatype RightVerdict = Stay | HopTo(target: PageId) | Unlinked

  /** The right check of the write descent: stay, or hop onto a twin the parent on the path links, or give up. */
  method RightCheck(pages: Pages, ghost levels: Levels, root: PageId, ghost l: nat, ghost i: nat, cur: PageId,
                    stack: seq<PageId>, probe: Entry, hops0: nat, ghost lo: Lows)
    returns (r: Result<RightVerdict, DescentError>, hops: nat)
    requires TreeOk(pages, levels, root) && ChainOk(pages, levels[0]) && l < |levels| && i < |levels[l]|
    requires levels[l][i] == cur
    requires hops0 <= MAX_CHAIN_HOPS
    ensures r.Ok? ==> hops0 <= hops <= MAX_CHAIN_HOPS
    ensures r.Ok? && r.value.HopTo? ==>
      r.value.target in levels[l] && stack != [] && LinkedFrom(pages, stack, root, r.value.target)
    ensures r.Ok? && r.value.Stay? && l == 0 ==> RightClear(pages, levels[0], i, probe)
    ensures r == Ok(Stay) ==> !NextOwns(pages, levels[l], i, probe)
    ensures |levels[l]| == 1 ==> r == Ok(Stay)
    ensures l == 0 && |levels[0]| + hops0 <= MAX_CHAIN_HOPS && PositionAt(pages, levels[0], i, probe) ==> r == Ok(Stay)
    ensures l > 0 && Passable(pages, levels, lo) && Covers(levels[l], lo, i, probe.key) ==>
      r == Ok(Stay) && hops == hops0
  {
    hide Passable, Covers, PositionAt, NextOwns;
    ghost var k := 0;
    ghost var j := OnLevel(pages, levels, root, l, cur);
    var hop;
    hop, hops, k := NextNonEmpty(pages, levels[l], cur, i, hops0);
    if l > 0 && Passable(pages, levels, lo) && Covers(levels[l], lo, i, probe.key) {
      HomeStays(pages, levels, root, l, i, probe, lo);
    }
    if hop.Err? {
      return Err(Hops), hops;
    }
    if hop.value.Some? {
      j := OnLevel(pages, levels, root, l, hop.value.value);
      if l == 0 { NotRightOf(pages, levels[0], i, k, probe); }
      if l > 0 && Passable(pages, levels, lo) && Covers(levels[l], lo, i, probe.key) {
        HomeAlone(pages, levels, root, l, i, k, probe, lo);
      }
    }
    if hop.value.None? || !Owns(At(pages, hop.value.value), probe) {
      if l == 0 { NothingRight(pages, levels[0], i, k, probe); }
      StaysClear(pages, levels[l], i, k, probe);
      return Ok(Stay), hops;
    }
    var known := false;
    if |stack| > 0 {
      known := PointsAt(EntriesOf(pages, stack[|stack| - 1]), hop.value.value);
    }
    r := Ok(if known then HopTo(hop.value.value) else Unlinked);
  }

  /** The path left level 1 at page `top`, which names the leaf reached or one the descent turned left on. */
  ghost predicate Under(pages: Pages, levels: Levels, stack: seq<PageId>, top: nat, linked: bool, probe: Entry) {
    && |levels| > 1 && stack != [] && top < |levels[1]| && levels[1][top] == stack[|stack| - 1]
    && !NextOwns(pages, levels[1], top, probe)
    && (!linked ==> Strays(pages, EntriesOf(pages, levels[1][top]), probe))
  }

  lemma EndsUnder(pages: Pages, levels: Levels, stack: seq<PageId>, root: PageId, top: nat, linked: bool, at: nat,
                  probe: Entry)
    requires Under(pages, levels, stack, top, linked, probe) && RightClear(pages, levels[0], at, probe)
    requires linked ==> LinkedFrom(pages, stack, root, levels[0][at])
    ensures !Misrouted(pages, levels, probe)
  {
    hide Misrouted, NextOwns, Strays, Points, RightClear;
    assert at < |levels[0]| by { RightClearAt(pages, levels[0], at, probe); }
    Routed(pages, levels, top, at, probe);
  }

  lemma OneLevelRoutes(pages: Pages, levels: Levels, probe: Entry)
    requires |levels| <= 1
    ensures !Misrouted(pages, levels, probe)
  {
  }

  lemma RightClearAt(pages: Pages, chain: seq<PageId>, at: nat, probe: Entry)
    requires RightClear(pages, chain, at, probe)
    ensures at < |chain|
  {
  }

  /** `descend_write_path`. Where the levels are fenced it never gives up: it ends on the leaf of the key's range, every
      page of the path naming the next. */
  method DescendWritePath(pages: Pages, ghost levels: Levels, root: PageId, probe: Entry, ghost lo: Lows)
    returns (r: Result<WritePath, DescentError>, ghost at: nat)
    requires TreeOk(pages, levels, root) && ChainOk(pages, levels[0])
    ensures r.Ok? && r.value.Path? ==>
      && PathAbove(r.value.stack, levels, 0) && RightClear(pages, levels[0], at, probe) && levels[0][at] == r.value.leaf
      && At(pages, r.value.leaf).Page? && !At(pages, r.value.leaf).flags.incomplete
      && StackLinked(pages, r.value.stack, root)
    ensures |levels| == 1 && |levels[0]| == 1 && !Open(pages, root) ==> r.Ok? && r.value.Path?
    ensures Passable(pages, levels, lo) && |levels[0]| <= LONG_CHAIN ==>
      && r.Ok? && r.value.Path? && Covers(levels[0], lo, at, probe.key)
      && LinkedFrom(pages, r.value.stack, root, r.value.leaf)
    ensures Misrouted(pages, levels, probe) ==> r.Err? || r.value.Restart?
  {
    hide TreeOk, ChainOk, Linked, LinkOk, PathAbove, RightClear, Dominated, At, Passable, Covers, PositionAt,
         StackLinked, LinkedFrom, KeysAscend, Misrouted, NextOwns, Strays;
    PathStarts(pages, levels, root);
    if |levels| == 1 && |levels[0]| == 1 { LoneLeaf(pages, levels, root); }
    ghost var home := Passable(pages, levels, lo) && |levels[0]| <= LONG_CHAIN;
    var stack, cur, verified := [], root, INVALID;
    var hops: nat := 0;
    ghost var l: nat := |levels| - 1;
    ghost var linked := true;
    ghost var top: nat := 0;
    at := OnLevel(pages, levels, root, l, cur);
    if home { AtTheRoot(pages, levels, root, at, probe, lo); }
    RootFlagged(pages, levels, root);
    NoLinks(pages, root);
    if !At(pages, root).flags.root {
      return Ok(Restart), at;
    }
    while true
      invariant l < |levels| && PathAbove(stack, levels, l) && at < |levels[l]| && levels[l][at] == cur
      invariant hops <= MAX_CHAIN_HOPS && StackLinked(pages, stack, root)
      invariant (l > 0 || home ==> linked) && (linked ==> LinkedFrom(pages, stack, root, cur))
      invariant l == 0 < |levels| - 1 ==> Under(pages, levels, stack, top, linked, probe)
      invariant home ==> Covers(levels[l], lo, at, probe.key)
      invariant home ==> if l == 0 && verified == cur then hops <= 1 else hops == 0
      invariant |levels| == 1 && |levels[0]| == 1 ==> cur == root
      decreases l, MAX_CHAIN_HOPS - hops
    {
      PageOfLevel(pages, levels, root, l, at);
      var pg := At(pages, cur);
      if home { NotOpen(pages, levels, lo, l, at); }
      if pg.flags.incomplete {
        return Ok(Restart), at;
      }
      if home && l > 0 { HomeStays(pages, levels, root, l, at, probe, lo); }
      if Dominated(pg, probe) && pg.prev != INVALID && pg.level != 0 {
        return Ok(Restart), at;
      }
      if home && l == 0 { HomeLeaf(pages, levels, lo, at, probe); }
      if pg.level == 0 && pg.prev != INVALID && verified != cur && (Dominated(pg, probe) || |pg.entries| == 0) {
        var next := PlacementCheck(pages, levels[0], cur, at, probe);
        if next.Err? {
          return Err(Hops), at;
        }
        if linked && |levels| > 1 { TurnsLeft(pages, stack, root, cur, probe); }
        verified, linked := if next.value == cur then cur else verified, linked && next.value == cur;
        if next.value != cur { at := OnLevel(pages, levels, root, 0, next.value); }
        cur, hops := next.value, hops + 1;
        if hops > MAX_CHAIN_HOPS {
          return Err(Hops), at;
        }
      } else {
        var right;
        right, hops := RightCheck(pages, levels, root, l, at, cur, stack, probe, hops, lo);
        if right.Err? {
          return Err(Hops), at;
        }
        match right.value
        case Unlinked =>
          return Ok(Restart), at;
        case HopTo(target) =>
          at := OnLevel(pages, levels, root, l, target);
          cur, hops, linked := target, hops + 1, true;
          if hops > MAX_CHAIN_HOPS {
            return Err(Hops), at;
          }
        case Stay =>
          if pg.level == 0 {
            if |levels| > 1 {
              EndsUnder(pages, levels, stack, root, top, linked, at, probe);
            } else {
              OneLevelRoutes(pages, levels, probe);
            }
            return Ok(Path(stack, cur)), at;
          }
          HasEntries(pages, levels, l, at, lo);
          var child, slot := FindChild(pg.entries, probe.key);
          if child.Err? {
            return Err(child.error), at;
          }
          ChildBelow(pages, levels, root, l, at, slot);
          PushPath(stack, levels, l, cur);
          PushLinked(pages, stack, root, cur);
          ChildLinked(pages, stack, root, cur, slot);
          ghost var was := at;
          if home {
            at := ChildHome(pages, levels, root, l, at, slot, probe, lo);
          } else {
            at := OnLevel(pages, levels, root, l - 1, child.value);
          }
          top := if l == 1 then was else top;
          stack, cur, l := stack + [cur], child.value, l - 1;
      }
    }
  }

  lemma RootFlagged(pages: Pages, levels: Levels, root: PageId)
    requires TreeOk(pages, levels, root)
    ensures At(pages, root).Page? && At(pages, root).flags.root
  {
    RootOnTop(pages, levels, root);
    var i := OnLevel(pages, levels, root, |levels| - 1, root);
    PageAt(pages, levels, root, |levels| - 1, i);
  }

  lemma NoLinks(pages: Pages, root: PageId)
    ensures StackLinked(pages, [], root) && LinkedFrom(pages, [], root, root)
  {
  }

  lemma PageOfLevel(pages: Pages, levels: Levels, root: PageId, l: nat, at: nat)
    requires TreeOk(pages, levels, root) && l < |levels| && at < |levels[l]|
    ensures At(pages, levels[l][at]).Page? && At(pages, levels[l][at]).level == l && levels[l][at] != INVALID
    ensures Linked(pages, levels[l])
  {
    PageAt(pages, levels, root, l, at);
    NeighboursApart(pages, levels, root, l);
    NextOf(pages, levels[l], at);
    NoInvalid(pages, levels[l]);
  }

  lemma NotOpen(pages: Pages, levels: Levels, lo: Lows, l: nat, at: nat)
    requires Passable(pages, levels, lo) && l < |levels| && at < |levels[l]|
    ensures !Open(pages, levels[l][at])
  {
  }

  lemma ChildLinked(pages: Pages, stack: seq<PageId>, root: PageId, p: PageId, slot: nat)
    requires slot < |EntriesOf(pages, p)|
    ensures LinkedFrom(pages, stack + [p], root, EntriesOf(pages, p)[slot].ptr)
  {
    assert (stack + [p])[|stack + [p]| - 1] == p;
  }
}
