/** Where a new `(key, tid)` goes on the leaf chain: the sequential core of `pin_leaf_for_insert`, from
    whatever leaf the descent arrived at. */
module Placement {
  import opened Entries
  import opened Layout
  import opened BtPages
  import opened BtLog
  import opened Chains
  import opened Lookup

  datatype PlaceError = DuplicateKey | TooManyHops

  ghost predicate HasAbove(s: seq<Entry>, e: Entry) {
    exists x :: 0 <= x < |s| && Less(e, s[x])
  }

  function LastOf(s: seq<Entry>): Entry
    requires s != []
  {
    s[|s| - 1]
  }

  /** Chain index of the page the `prev` hint of page `c` names. */
  ghost function HintAt(pages: Pages, chain: seq<PageId>, c: nat): (h: nat)
    requires Linked(pages, chain) && 0 < c < |chain|
    ensures At(pages, chain[c]).Page? && h < c && chain[h] == At(pages, chain[c]).prev
  {
    assert LinkOk(pages, chain, c);
    var h: nat :| h < c && chain[h] == At(pages, chain[c]).prev;
    h
  }

  /** Everything from the hinted page up to `c` is drained, yet an entry above the probe sits further
      left: from `c` the search for a non-empty left sibling cannot see it. */
  ghost predicate Stranded(pages: Pages, chain: seq<PageId>, c: nat, probe: Entry)
    requires Linked(pages, chain) && c < |chain|
  {
    && 0 < c
    && (forall j :: HintAt(pages, chain, c) <= j < c ==> EntriesOf(pages, chain[j]) == [])
    && (exists j :: 0 <= j < c && HasAbove(EntriesOf(pages, chain[j]), probe))
  }

  /** Some page the leftward search from `start` has to step over is stranded. */
  ghost predicate Blinded(pages: Pages, chain: seq<PageId>, start: nat, probe: Entry)
    requires Linked(pages, chain) && start < |chain|
  {
    exists c :: 0 <= c <= start && (c == start || EntriesOf(pages, chain[c]) != []) && Stranded(pages, chain, c, probe)
  }

  /** The pair is the last entry of a page left of `start`: the one spot where it is never compared for equality. */
  ghost predicate TailLeftOf(pages: Pages, chain: seq<PageId>, start: nat, probe: Entry)
    requires start < |chain|
  {
    exists x :: 0 <= x < start && EntriesOf(pages, chain[x]) != [] && LastOf(EntriesOf(pages, chain[x])) == probe
  }

  /** `nearest_nonempty_left_on`: the last non-empty page from the hinted one up to `page`. */
  method NearestNonEmptyLeft(pages: Pages, ghost chain: seq<PageId>, page: PageId, ghost at: nat)
    returns (r: Result<Option<PageId>, PlaceError>, ghost k: nat)
    requires Linked(pages, chain) && at < |chain| && chain[at] == page
    ensures |chain| <= MAX_CHAIN_HOPS ==> r.Ok?
    ensures r.Err? ==> r.error == TooManyHops
    ensures r.Ok? && r.value.Some? ==>
      0 < at && HintAt(pages, chain, at) <= k < at && chain[k] == r.value.value && EntriesOf(pages, chain[k]) != []
      && forall j :: k < j < at ==> EntriesOf(pages, chain[j]) == []
    ensures r.Ok? && r.value.None? && 0 < at ==>
      forall j :: HintAt(pages, chain, at) <= j < at ==> EntriesOf(pages, chain[j]) == []
  {
    NoInvalid(pages, chain);
    assert LinkOk(pages, chain, at);
    k := 0;
    var cur := At(pages, page).prev;
    if cur == INVALID {
      return Ok(None), k;
    }
    ghost var h, c := HintAt(pages, chain, at), HintAt(pages, chain, at);
    var found, hops := None, 0;
    while true
      invariant h <= c < at && chain[c] == cur && hops == c - h
      invariant found.None? ==> forall j :: h <= j < c ==> EntriesOf(pages, chain[j]) == []
      invariant found.Some? ==> h <= k < c && chain[k] == found.value && EntriesOf(pages, chain[k]) != []
      invariant found.Some? ==> forall j :: k < j < c ==> EntriesOf(pages, chain[j]) == []
      decreases at - c
    {
      NextOf(pages, chain, c);
      if |At(pages, cur).entries| > 0 {
        found, k := Some(cur), c;
      }
      var next := At(pages, cur).next;
      if next == page {
        assert c + 1 == at;
        return Ok(found), k;
      }
      cur, c, hops := next, c + 1, hops + 1;
      if hops > MAX_CHAIN_HOPS {
        return Err(TooManyHops), k;
      }
    }
  }

  /** A page further right starts at or below the probe. */
  ghost predicate MoreRight(pages: Pages, chain: seq<PageId>, at: nat, probe: Entry)
    requires at < |chain|
  {
    exists j :: at < j < |chain| && Settled(pages, chain[j], probe)
  }

  /** Right until no page further right starts at or below the probe and done there, or only left. */
  ghost function HopsLeft(pages: Pages, chain: seq<PageId>, at: nat, probe: Entry): nat
    requires at < |chain|
  {
    if MoreRight(pages, chain, at, probe) then |chain| - at
    else if Settled(pages, chain[at], probe) then 0
    else at
  }

  /** The way from the left neighbour back to the page: over drained pages only, each of them counted. */
  method CrossDrained(pages: Pages, ghost chain: seq<PageId>, from: PageId, ghost l: nat, page: PageId, ghost at: nat,
                      hops0: nat)
    returns (r: Result<(), PlaceError>, hops: nat)
    requires Linked(pages, chain) && l < at < |chain| && chain[l] == from && chain[at] == page
    ensures hops0 <= hops <= hops0 + |chain| && (hops0 <= MAX_CHAIN_HOPS && r.Ok? ==> hops <= MAX_CHAIN_HOPS)
    ensures r.Err? ==> r.error == TooManyHops && MAX_CHAIN_HOPS < hops
  {
    hops := hops0;
    ghost var k := l + 1;
    NextOf(pages, chain, l);
    var cur := At(pages, from).next;
    while cur != page
      invariant l < k <= at && cur == chain[k] && hops == hops0 + (k - l - 1)
      invariant hops0 <= MAX_CHAIN_HOPS ==> hops <= MAX_CHAIN_HOPS
      decreases at - k
    {
      NextOf(pages, chain, k);
      cur := At(pages, cur).next;
      hops, k := hops + 1, k + 1;
      if hops > MAX_CHAIN_HOPS {
        return Err(TooManyHops), hops;
      }
    }
    r := Ok(());
  }

  /** The walk is at its start, or right of it on a page that starts at or below the probe, or left of
      it on a page that reaches above the probe, with no stranded page stepped over. */
  ghost predicate OnTrack(pages: Pages, chain: seq<PageId>, start: nat, at: nat, probe: Entry)
    requires Linked(pages, chain) && start < |chain| && at < |chain|
  {
    && (at == start || (start < at && Settled(pages, chain[at], probe)) ||
       (at < start && HasAbove(EntriesOf(pages, chain[at]), probe)))
    && (forall c :: at < c <= start && (c == start || EntriesOf(pages, chain[c]) != []) ==>
       !Stranded(pages, chain, c, probe))
    && (forall x ::
       0 <= x < start && EntriesOf(pages, chain[x]) != [] && LastOf(EntriesOf(pages, chain[x])) == probe ==> x < at)
  }

  /** The verdict at slot 0: stay, or go to the nearest non-empty left sibling if that one reaches above the probe. */
  method AtLeftEdge(pages: Pages, ghost chain: seq<PageId>, cur: PageId, ghost at: nat, ghost startAt: nat,
                    probe: Entry, hops0: nat)
    returns (r: Result<Option<PageId>, PlaceError>, hops: nat, ghost l: nat)
    requires ChainOk(pages, chain) && startAt < |chain| && AtEdge(pages, chain, startAt, at, probe)
    requires chain[at] == cur && !Settled(pages, chain[at], probe) && !MoreRight(pages, chain, at, probe)
    ensures hops0 <= hops <= hops0 + |chain|
    ensures |chain| <= MAX_CHAIN_HOPS && hops0 + |chain| <= MAX_CHAIN_HOPS ==> r.Ok?
    ensures r.Err? ==> r.error == TooManyHops
    ensures r.Ok? && r.value.None? ==> Verdict(pages, chain, startAt, at, probe)
    ensures r.Ok? && r.value.Some? ==>
      && l < |chain| && chain[l] == r.value.value && OnTrack(pages, chain, startAt, l, probe)
      && HopsLeft(pages, chain, l, probe) < HopsLeft(pages, chain, at, probe)
    ensures r.Ok? && PositionAt(pages, chain, at, probe) ==> r.value.None?
  {
    hide Less, Linked, Sorted, Flat, Blinded, Stranded, TailLeftOf, MoreRight, OnTrack, HopsLeft, HintAt, PositionAt;
    hops := hops0;
    var left;
    left, l := NearestNonEmptyLeft(pages, chain, cur, at);
    if left.Err? {
      return Err(TooManyHops), hops, l;
    }
    if left.value.None? {
      var right; ghost var k;
      right, hops, k := NextNonEmpty(pages, chain, cur, at, hops);
      if right.Err? {
        return Err(TooManyHops), hops, l;
      }
      LandedUnseen(pages, chain, startAt, at, probe);
      return Ok(None), hops, l;
    }
    var back;
    back, hops := CrossDrained(pages, chain, left.value.value, l, cur, at, hops);
    if back.Err? {
      return Err(TooManyHops), hops, l;
    }
    NextOf(pages, chain, l);
    if !Less(probe, LastOf(At(pages, left.value.value).entries)) {
      LandedAtEdge(pages, chain, startAt, at, l, probe);
      return Ok(None), hops, l;
    }
    NotLeftOf(pages, chain, at, l, probe);
    AtEdgeTrack(pages, chain, startAt, at, probe);
    LeftStep(pages, chain, startAt, at, l, probe);
    LeftEnds(pages, chain, at, l, probe);
    r := Ok(left.value);
  }

  /** Left of the probe's position no page reaches above it. */
  lemma NotLeftOf(pages: Pages, chain: seq<PageId>, at: nat, l: nat, probe: Entry)
    requires l < at < |chain| && EntriesOf(pages, chain[l]) != []
    ensures PositionAt(pages, chain, at, probe) ==> !Less(probe, LastOf(EntriesOf(pages, chain[l])))
  {
    var es := EntriesOf(pages, chain[l]);
    if PositionAt(pages, chain, at, probe) {
      assert AllBelow(es, probe) && Less(es[|es| - 1], probe);
      LessTotal(probe, es[|es| - 1]);
    }
  }

  /** Nor does a page right of it start at or below. */
  lemma NotRightOf(pages: Pages, chain: seq<PageId>, at: nat, k: nat, probe: Entry)
    requires at < k < |chain| && EntriesOf(pages, chain[k]) != []
    ensures PositionAt(pages, chain, at, probe) ==> Less(probe, EntriesOf(pages, chain[k])[0])
  {
    if PositionAt(pages, chain, at, probe) { assert AllAbove(EntriesOf(pages, chain[k]), probe); }
  }

  lemma AtEdgeTrack(pages: Pages, chain: seq<PageId>, start: nat, at: nat, probe: Entry)
    requires Linked(pages, chain) && start < |chain| && AtEdge(pages, chain, start, at, probe)
    ensures OnTrack(pages, chain, start, at, probe)
  {
  }

  /** `leaf_insert_slot` on the page the walk has reached. */
  method InsertSlot(pages: Pages, ghost chain: seq<PageId>, cur: PageId, ghost at: nat, ghost startAt: nat,
                    probe: Entry)
    returns (r: Result<nat, PlaceError>)
    requires ChainOk(pages, chain) && startAt < |chain| && at < |chain| && chain[at] == cur
    requires OnTrack(pages, chain, startAt, at, probe)
    requires forall j :: at < j < |chain| ==> AllAbove(EntriesOf(pages, chain[j]), probe)
    ensures r.Err? ==>
      && probe in Flat(pages, chain) && !Blinded(pages, chain, startAt, probe)
      && !TailLeftOf(pages, chain, startAt, probe)
    ensures r.Ok? ==> IsLowerBound(EntriesOf(pages, cur), probe, r.value) && probe !in EntriesOf(pages, cur)
    ensures r.Ok? && r.value > 0 ==> Verdict(pages, chain, startAt, at, probe)
    ensures r.Ok? && r.value == 0 ==>
      AtEdge(pages, chain, startAt, at, probe) && !Settled(pages, chain[at], probe)
  {
    hide Less, Linked, Sorted, Flat, Blinded, Stranded, TailLeftOf, OnTrack, PositionAt;
    NextOf(pages, chain, at);
    PageOrder(pages, chain, at, at);
    var es := At(pages, cur).entries;
    var pos := LowerBound(es, probe);
    if pos < |es| && es[pos] == probe {
      DuplicateSeen(pages, chain, startAt, at, pos, probe);
      return Err(DuplicateKey);
    }
    AbsentFrom(es, probe, pos);
    if pos > 0 {
      LandedInside(pages, chain, startAt, at, probe);
    } else {
      EdgeReached(pages, chain, startAt, at, probe);
    }
    r := Ok(pos);
  }

  datatype Landing = Done(slot: nat) | GoTo(page: PageId)

  /** One turn of the placement loop: right, or done here, or left. */
  method PlaceStep(pages: Pages, ghost chain: seq<PageId>, cur: PageId, ghost at: nat, ghost startAt: nat, probe: Entry,
                   hops0: nat)
    returns (r: Result<Landing, PlaceError>, hops: nat, ghost k: nat)
    requires ChainOk(pages, chain) && startAt < |chain| && at < |chain| && chain[at] == cur
    requires OnTrack(pages, chain, startAt, at, probe)
    ensures hops0 <= hops <= hops0 + 2 * |chain| + 1
    ensures hops0 + 2 * |chain| + 1 <= MAX_CHAIN_HOPS ==> r != Err(TooManyHops)
    ensures r == Err(DuplicateKey) ==>
      probe in Flat(pages, chain) && !Blinded(pages, chain, startAt, probe) && !TailLeftOf(pages, chain, startAt, probe)
    ensures r.Ok? && r.value.Done? ==>
      && IsLowerBound(EntriesOf(pages, cur), probe, r.value.slot) && probe !in EntriesOf(pages, cur)
      && Verdict(pages, chain, startAt, at, probe)
    ensures r.Ok? && r.value.GoTo? ==>
      && k < |chain| && chain[k] == r.value.page && OnTrack(pages, chain, startAt, k, probe)
      && HopsLeft(pages, chain, k, probe) < HopsLeft(pages, chain, at, probe)
      && !PositionAt(pages, chain, at, probe)
  {
    hide Less, Linked, Sorted, Flat, Blinded, Stranded, TailLeftOf, MoreRight, OnTrack, HopsLeft, HintAt, PositionAt,
         AtEdge, AllAbove;
    var hop;
    hop, hops, k := NextNonEmpty(pages, chain, cur, at, hops0);
    if hop.Err? {
      return Err(TooManyHops), hops, k;
    }
    if hop.value.Some? { NotRightOf(pages, chain, at, k, probe); }
    if hop.value.Some? && !Less(probe, At(pages, hop.value.value).entries[0]) {
      RightStep(pages, chain, startAt, at, k, probe);
      return Ok(GoTo(hop.value.value)), hops + 1, k;
    }
    assert k < |chain| ==> EntriesOf(pages, chain[k]) != [] && Less(probe, EntriesOf(pages, chain[k])[0]);
    NothingRight(pages, chain, at, k, probe);
    var pos := InsertSlot(pages, chain, cur, at, startAt, probe);
    if pos.Err? {
      return Err(DuplicateKey), hops, k;
    }
    if pos.value > 0 {
      return Ok(Done(pos.value)), hops, k;
    }
    var left;
    left, hops, k := AtLeftEdge(pages, chain, cur, at, startAt, probe, hops);
    if left.Err? {
      return Err(TooManyHops), hops, k;
    }
    if left.value.None? {
      return Ok(Done(0)), hops, k;
    }
    return Ok(GoTo(left.value.value)), hops + 1, k;
  }

  /** `pin_leaf_for_insert`, run alone. An absent pair lands where the whole chain stays strictly sorted
      exactly when the start does not blind the leftward search, and a present pair is refused exactly when
      in addition it is not the last entry of a page left of the start. */
  method Place(pages: Pages, ghost chain: seq<PageId>, start: PageId, ghost startAt: nat, probe: Entry)
    returns (r: Result<(PageId, nat), PlaceError>, ghost at: nat)
    requires ChainOk(pages, chain) && startAt < |chain| && chain[startAt] == start
    ensures |chain| <= SHORT_CHAIN ==> r != Err(TooManyHops)
    ensures |chain| <= LONG_CHAIN && PositionAt(pages, chain, startAt, probe) ==>
      r != Err(TooManyHops) && (r.Ok? ==> at == startAt)
    ensures r.Ok? ==>
      at < |chain| && chain[at] == r.value.0 && IsLowerBound(EntriesOf(pages, chain[at]), probe, r.value.1)
    ensures r.Ok? ==> probe !in EntriesOf(pages, chain[at])
    ensures r.Ok? && probe !in Flat(pages, chain) ==>
      (PositionAt(pages, chain, at, probe) <==> !Blinded(pages, chain, startAt, probe))
    ensures r.Ok? && probe in Flat(pages, chain) ==>
      Blinded(pages, chain, startAt, probe) || TailLeftOf(pages, chain, startAt, probe)
    ensures r == Err(DuplicateKey) ==>
      probe in Flat(pages, chain) && !Blinded(pages, chain, startAt, probe) && !TailLeftOf(pages, chain, startAt, probe)
  {
    hide Less, Linked, Sorted, Flat, Blinded, Stranded, TailLeftOf, MoreRight, OnTrack, HopsLeft, HintAt, PositionAt,
         IsLowerBound;
    TrackStarts(pages, chain, startAt, probe);
    ghost var home := |chain| <= LONG_CHAIN && PositionAt(pages, chain, startAt, probe);
    var cur, hops := start, 0;
    at := startAt;
    while true
      invariant at < |chain| && chain[at] == cur && OnTrack(pages, chain, startAt, at, probe)
      invariant home ==> at == startAt && hops == 0
      invariant |chain| <= SHORT_CHAIN ==>
        hops + (2 * SHORT_CHAIN + 2) * (HopsLeft(pages, chain, at, probe) + 1) <= MAX_CHAIN_HOPS
      decreases HopsLeft(pages, chain, at, probe)
    {
      var next; ghost var k;
      next, hops, k := PlaceStep(pages, chain, cur, at, startAt, probe, hops);
      if next.Err? {
        return Err(next.error), at;
      }
      if next.value.Done? {
        return Ok((cur, next.value.slot)), at;
      }
      cur, at := next.value.page, k;
      if hops > MAX_CHAIN_HOPS {
        return Err(TooManyHops), at;
      }
    }
  }

  // ---------------------------------------------------------------- one step of the walk

  lemma AbsentFrom(s: seq<Entry>, e: Entry, p: nat)
    requires Sorted(s) && IsLowerBound(s, e, p) && (p < |s| ==> s[p] != e)
    ensures e !in s
  {
    LessOrder();
    hide Less;
    assert forall i :: p < i < |s| ==> Less(s[p], s[i]);
  }

  /** No page right of `at` starts at or below the probe once the next non-empty one does not. */
  lemma NothingRight(pages: Pages, chain: seq<PageId>, at: nat, k: nat, probe: Entry)
    requires ChainOk(pages, chain) && at < k <= |chain|
    requires forall j :: at < j < k ==> EntriesOf(pages, chain[j]) == []
    requires k < |chain| ==> EntriesOf(pages, chain[k]) != [] && Less(probe, EntriesOf(pages, chain[k])[0])
    ensures forall j :: at < j < |chain| ==> AllAbove(EntriesOf(pages, chain[j]), probe)
    ensures !MoreRight(pages, chain, at, probe)
  {
    LessOrder();
    forall j | at < j < |chain| ensures AllAbove(EntriesOf(pages, chain[j]), probe) {
      if k <= j { PageOrder(pages, chain, k, j); }
    }
  }

  /** A page that reaches above the probe leaves nothing to its right that starts at or below it. */
  lemma NothingRightOf(pages: Pages, chain: seq<PageId>, at: nat, probe: Entry)
    requires ChainOk(pages, chain) && at < |chain| && HasAbove(EntriesOf(pages, chain[at]), probe)
    ensures forall j :: at < j < |chain| ==> AllAbove(EntriesOf(pages, chain[j]), probe)
    ensures !MoreRight(pages, chain, at, probe)
  {
    LessOrder();
    forall j | at < j < |chain| ensures AllAbove(EntriesOf(pages, chain[j]), probe) {
      PageOrder(pages, chain, at, j);
    }
  }

  /** Left of a page that starts at or below the probe everything is below it. */
  lemma BelowLeftOf(pages: Pages, chain: seq<PageId>, at: nat, e: Entry, probe: Entry)
    requires ChainOk(pages, chain) && at < |chain| && e in EntriesOf(pages, chain[at]) && !Less(probe, e)
    ensures forall j :: 0 <= j < at ==> AllBelow(EntriesOf(pages, chain[j]), probe)
  {
    LessOrder();
    forall j | 0 <= j < at ensures AllBelow(EntriesOf(pages, chain[j]), probe) {
      PageOrder(pages, chain, j, at);
    }
  }

  lemma RightStep(pages: Pages, chain: seq<PageId>, start: nat, at: nat, k: nat, probe: Entry)
    requires ChainOk(pages, chain) && start < |chain| && at < k < |chain|
    requires OnTrack(pages, chain, start, at, probe) && Settled(pages, chain[k], probe)
    ensures OnTrack(pages, chain, start, k, probe)
    ensures HopsLeft(pages, chain, k, probe) < HopsLeft(pages, chain, at, probe)
  {
    assert MoreRight(pages, chain, at, probe);
    if at < start {
      NothingRightOf(pages, chain, at, probe);
    }
  }

  lemma HintSees(pages: Pages, chain: seq<PageId>, at: nat, l: nat, probe: Entry)
    requires Linked(pages, chain) && l < at < |chain| && HintAt(pages, chain, at) <= l
    requires EntriesOf(pages, chain[l]) != []
    ensures !Stranded(pages, chain, at, probe)
  {
  }

  lemma LeftStep(pages: Pages, chain: seq<PageId>, start: nat, at: nat, l: nat, probe: Entry)
    requires ChainOk(pages, chain) && start < |chain| && l < at < |chain|
    requires OnTrack(pages, chain, start, at, probe) && !Settled(pages, chain[at], probe)
    requires EntriesOf(pages, chain[l]) != [] && Less(probe, LastOf(EntriesOf(pages, chain[l])))
    requires forall j :: l < j < at ==> EntriesOf(pages, chain[j]) == []
    requires HintAt(pages, chain, at) <= l
    ensures OnTrack(pages, chain, start, l, probe)
  {
    hide Flat, Less, Sorted, Linked, Stranded, HintAt, EntriesOf;
    HintSees(pages, chain, at, l, probe);
    LessTotal(probe, probe);
    var es := EntriesOf(pages, chain[l]);
    assert HasAbove(es, probe) by { assert Less(probe, es[|es| - 1]); }
  }

  lemma TrackStarts(pages: Pages, chain: seq<PageId>, start: nat, probe: Entry)
    requires Linked(pages, chain) && start < |chain|
    ensures OnTrack(pages, chain, start, start, probe) && HopsLeft(pages, chain, start, probe) <= |chain|
  {
  }

  /** A page the walk goes left to leaves nothing further right for it. */
  lemma LeftEnds(pages: Pages, chain: seq<PageId>, at: nat, l: nat, probe: Entry)
    requires ChainOk(pages, chain) && l < at < |chain|
    requires EntriesOf(pages, chain[l]) != [] && Less(probe, LastOf(EntriesOf(pages, chain[l])))
    ensures !MoreRight(pages, chain, l, probe) && HopsLeft(pages, chain, l, probe) < HopsLeft(pages, chain, at, probe)
  {
    var es := EntriesOf(pages, chain[l]);
    assert Less(probe, es[|es| - 1]);
    NothingRightOf(pages, chain, l, probe);
    assert AllAbove(EntriesOf(pages, chain[at]), probe);
  }

  /** A page the walk reaches on track blinds the search exactly if its start does. */
  lemma SameStart(pages: Pages, chain: seq<PageId>, start: nat, at: nat, probe: Entry)
    requires ChainOk(pages, chain) && start < |chain| && at < |chain| && OnTrack(pages, chain, start, at, probe)
    ensures Blinded(pages, chain, at, probe) <==> Blinded(pages, chain, start, probe)
    ensures TailLeftOf(pages, chain, at, probe) <==> TailLeftOf(pages, chain, start, probe)
  {
    if start < at {
      BelowLeftOf(pages, chain, at, EntriesOf(pages, chain[at])[0], probe);
      hide Less, Flat, Linked;
      forall j | 0 <= j < at
        ensures !HasAbove(EntriesOf(pages, chain[j]), probe) && probe !in EntriesOf(pages, chain[j])
      {
        BelowHasNoneAbove(EntriesOf(pages, chain[j]), probe);
      }
    }
  }

  // ---------------------------------------------------------------- where the walk may stop

  /** What a landing at `at` is worth. */
  ghost predicate Verdict(pages: Pages, chain: seq<PageId>, start: nat, at: nat, probe: Entry)
    requires Linked(pages, chain) && start < |chain|
  {
    if probe !in Flat(pages, chain) then PositionAt(pages, chain, at, probe) <==> !Blinded(pages, chain, start, probe)
    else Blinded(pages, chain, start, probe) || TailLeftOf(pages, chain, start, probe)
  }

  lemma NotBlinded(pages: Pages, chain: seq<PageId>, start: nat, at: nat, probe: Entry)
    requires Linked(pages, chain) && start < |chain| && at < |chain| && OnTrack(pages, chain, start, at, probe)
    requires forall j :: 0 <= j < at ==> !HasAbove(EntriesOf(pages, chain[j]), probe)
    ensures !Blinded(pages, chain, start, probe)
  {
  }

  lemma BelowHasNoneAbove(s: seq<Entry>, probe: Entry)
    requires AllBelow(s, probe)
    ensures !HasAbove(s, probe) && probe !in s
  {
    LessOrder();
  }

  lemma AboveLacksProbe(s: seq<Entry>, probe: Entry)
    requires AllAbove(s, probe)
    ensures probe !in s
  {
    LessTotal(probe, probe);
  }

  /** The pair sits on no page right of `at`, so if it is present it is on `at` or left of it. */
  lemma PageOfPresent(pages: Pages, chain: seq<PageId>, at: nat, probe: Entry) returns (x: nat)
    requires probe in Flat(pages, chain) && at < |chain|
    requires forall j :: at < j < |chain| ==> AllAbove(EntriesOf(pages, chain[j]), probe)
    ensures x <= at && probe in EntriesOf(pages, chain[x])
  {
    FlatMember(pages, chain, probe);
    var i :| 0 <= i < |chain| && probe in EntriesOf(pages, chain[i]);
    x := i;
    if at < x { AboveLacksProbe(EntriesOf(pages, chain[x]), probe); }
  }

  lemma DuplicateSeen(pages: Pages, chain: seq<PageId>, start: nat, at: nat, pos: nat, probe: Entry)
    requires ChainOk(pages, chain) && start < |chain| && at < |chain| && OnTrack(pages, chain, start, at, probe)
    requires pos < |EntriesOf(pages, chain[at])| && EntriesOf(pages, chain[at])[pos] == probe
    ensures probe in Flat(pages, chain) && !Blinded(pages, chain, start, probe)
    ensures !TailLeftOf(pages, chain, start, probe)
  {
    FlatMember(pages, chain, probe);
    LessTotal(probe, probe);
    BelowLeftOf(pages, chain, at, probe, probe);
    forall j | 0 <= j < at
      ensures !HasAbove(EntriesOf(pages, chain[j]), probe) && probe !in EntriesOf(pages, chain[j])
    {
      BelowHasNoneAbove(EntriesOf(pages, chain[j]), probe);
    }
    NotBlinded(pages, chain, start, at, probe);
  }

  lemma LandedInside(pages: Pages, chain: seq<PageId>, start: nat, at: nat, probe: Entry)
    requires ChainOk(pages, chain) && start < |chain| && at < |chain| && OnTrack(pages, chain, start, at, probe)
    requires forall j :: at < j < |chain| ==> AllAbove(EntriesOf(pages, chain[j]), probe)
    requires probe !in EntriesOf(pages, chain[at]) && EntriesOf(pages, chain[at]) != []
    requires Less(EntriesOf(pages, chain[at])[0], probe)
    ensures Verdict(pages, chain, start, at, probe)
  {
    hide Flat, Less, Sorted, Linked, Blinded, Stranded, OnTrack;
    var first := EntriesOf(pages, chain[at])[0];
    LessTotal(first, probe);
    BelowLeftOf(pages, chain, at, first, probe);
    forall j | 0 <= j < at
      ensures !HasAbove(EntriesOf(pages, chain[j]), probe) && probe !in EntriesOf(pages, chain[j])
    {
      BelowHasNoneAbove(EntriesOf(pages, chain[j]), probe);
    }
    NotBlinded(pages, chain, start, at, probe);
    if probe in Flat(pages, chain) {
      var x := PageOfPresent(pages, chain, at, probe);
    }
  }

  /** The landing page holds only entries above the probe, so the walk did not come from the left. */
  ghost predicate AtEdge(pages: Pages, chain: seq<PageId>, start: nat, at: nat, probe: Entry)
    requires Linked(pages, chain) && start < |chain|
  {
    && at < |chain| && OnTrack(pages, chain, start, at, probe)
    && forall j :: at <= j < |chain| ==> AllAbove(EntriesOf(pages, chain[j]), probe)
  }

  lemma EdgeReached(pages: Pages, chain: seq<PageId>, start: nat, at: nat, probe: Entry)
    requires Linked(pages, chain) && start < |chain| && at < |chain| && OnTrack(pages, chain, start, at, probe)
    requires forall j :: at < j < |chain| ==> AllAbove(EntriesOf(pages, chain[j]), probe)
    requires IsLowerBound(EntriesOf(pages, chain[at]), probe, 0) && probe !in EntriesOf(pages, chain[at])
    ensures AtEdge(pages, chain, start, at, probe) && !Settled(pages, chain[at], probe)
  {
    LessOrder();
  }

  lemma LandedAtEdge(pages: Pages, chain: seq<PageId>, start: nat, at: nat, l: nat, probe: Entry)
    requires ChainOk(pages, chain) && start < |chain| && AtEdge(pages, chain, start, at, probe) && l < at
    requires EntriesOf(pages, chain[l]) != [] && !Less(probe, LastOf(EntriesOf(pages, chain[l])))
    requires forall j :: l < j < at ==> EntriesOf(pages, chain[j]) == []
    ensures Verdict(pages, chain, start, at, probe)
  {
    hide Flat, Less, Sorted, Linked, Blinded, Stranded, OnTrack;
    BelowLeftOf(pages, chain, l, LastOf(EntriesOf(pages, chain[l])), probe);
    UpToLast(pages, chain, l, probe);
    forall j | 0 <= j < at ensures !HasAbove(EntriesOf(pages, chain[j]), probe) {
      if j < l { BelowHasNoneAbove(EntriesOf(pages, chain[j]), probe); }
    }
    NotBlinded(pages, chain, start, at, probe);
    if probe in Flat(pages, chain) {
      EdgePresent(pages, chain, start, at, l, probe);
    } else {
      FlatMember(pages, chain, probe);
    }
  }

  lemma EdgePresent(pages: Pages, chain: seq<PageId>, start: nat, at: nat, l: nat, probe: Entry)
    requires ChainOk(pages, chain) && start < |chain| && AtEdge(pages, chain, start, at, probe) && l < at
    requires EntriesOf(pages, chain[l]) != [] && !Less(probe, LastOf(EntriesOf(pages, chain[l])))
    requires forall j :: l < j < at ==> EntriesOf(pages, chain[j]) == []
    requires forall j :: 0 <= j < l ==> AllBelow(EntriesOf(pages, chain[j]), probe)
    requires probe in Flat(pages, chain)
    ensures TailLeftOf(pages, chain, start, probe)
  {
    hide Flat, Sorted, Linked, Stranded;
    var x := PageOfPresent(pages, chain, at, probe);
    if x == at { AboveLacksProbe(EntriesOf(pages, chain[at]), probe); }
    if x < l { BelowHasNoneAbove(EntriesOf(pages, chain[x]), probe); }
    UpToLast(pages, chain, l, probe);
    assert at <= start by { LessOrder(); }
  }

  /** A page whose last entry is not above the probe is all at or below it. */
  lemma UpToLast(pages: Pages, chain: seq<PageId>, l: nat, probe: Entry)
    requires ChainOk(pages, chain) && l < |chain| && EntriesOf(pages, chain[l]) != []
    requires !Less(probe, LastOf(EntriesOf(pages, chain[l])))
    ensures !HasAbove(EntriesOf(pages, chain[l]), probe)
    ensures probe !in EntriesOf(pages, chain[l]) ==> AllBelow(EntriesOf(pages, chain[l]), probe)
    ensures probe in EntriesOf(pages, chain[l]) ==> LastOf(EntriesOf(pages, chain[l])) == probe
  {
    PageOrder(pages, chain, l, l);
    LessOrder();
    var es := EntriesOf(pages, chain[l]);
    assert forall x :: 0 <= x < |es| - 1 ==> Less(es[x], es[|es| - 1]);
  }

  lemma LandedUnseen(pages: Pages, chain: seq<PageId>, start: nat, at: nat, probe: Entry)
    requires ChainOk(pages, chain) && start < |chain| && AtEdge(pages, chain, start, at, probe)
    requires 0 < at ==> forall j :: HintAt(pages, chain, at) <= j < at ==> EntriesOf(pages, chain[j]) == []
    ensures Verdict(pages, chain, start, at, probe)
  {
    if j :| 0 <= j < at && HasAbove(EntriesOf(pages, chain[j]), probe) {
      assert Stranded(pages, chain, at, probe);
      assert Blinded(pages, chain, start, probe);
      if AllBelow(EntriesOf(pages, chain[j]), probe) { BelowHasNoneAbove(EntriesOf(pages, chain[j]), probe); }
    } else {
      NotBlinded(pages, chain, start, at, probe);
      FlatMember(pages, chain, probe);
      forall j | 0 <= j < at && EntriesOf(pages, chain[j]) != []
        ensures probe in EntriesOf(pages, chain[j]) || AllBelow(EntriesOf(pages, chain[j]), probe)
        ensures probe in EntriesOf(pages, chain[j]) ==> LastOf(EntriesOf(pages, chain[j])) == probe
      {
        var es := EntriesOf(pages, chain[j]);
        assert !Less(probe, es[|es| - 1]);
        UpToLast(pages, chain, j, probe);
      }
      if probe in Flat(pages, chain) {
        var x := PageOfPresent(pages, chain, at, probe);
        if x == at { AboveLacksProbe(EntriesOf(pages, chain[at]), probe); }
      }
    }
  }

  // ---------------------------------------------------------------- what the landing does to the chain

  /** The chain with `e` put in slot `slot` of page `at`. */
  ghost predicate InsertedInto(pages: Pages, pages': Pages, chain: seq<PageId>, at: nat, slot: nat, e: Entry)
    requires at < |chain|
  {
    && slot <= |EntriesOf(pages, chain[at])|
    && EntriesOf(pages', chain[at]) == EntriesOf(pages, chain[at])[..slot] + [e] + EntriesOf(pages, chain[at])[slot..]
    && forall j :: 0 <= j < |chain| && j != at ==> EntriesOf(pages', chain[j]) == EntriesOf(pages, chain[j])
  }

  lemma Splice<T>(pre: seq<T>, mid: seq<T>, post: seq<T>, slot: nat, e: T)
    requires slot <= |mid|
    ensures var whole, n := pre + mid + post, |pre| + slot;
      pre + (mid[..slot] + [e] + mid[slot..]) + post == whole[..n] + [e] + whole[n..]
  {
    var whole, n := pre + mid + post, |pre| + slot;
    assert whole[..n] == pre + mid[..slot];
    assert whole[n..] == mid[slot..] + post;
  }

  /** A page insert is an insert into the flat sequence. */
  lemma FlatInserted(pages: Pages, pages': Pages, chain: seq<PageId>, at: nat, slot: nat, e: Entry)
    requires at < |chain| && InsertedInto(pages, pages', chain, at, slot, e)
    ensures var n := Base(pages, chain, at) + slot;
      n <= |Flat(pages, chain)| && Flat(pages', chain) == Flat(pages, chain)[..n] + [e] + Flat(pages, chain)[n..]
  {
    hide Flat, Base;
    FlatAt(pages, chain, at);
    FlatAt(pages', chain, at);
    FlatFrame(pages, pages', chain[..at]);
    FlatFrame(pages, pages', chain[at + 1..]);
    BaseIsLength(pages, chain, at);
    Splice(Flat(pages, chain[..at]), EntriesOf(pages, chain[at]), Flat(pages, chain[at + 1..]), slot, e);
  }

  /** The landing the walk verdict speaks of is the only one that keeps the chain strictly sorted. */
  lemma SortedIffPosition(pages: Pages, pages': Pages, chain: seq<PageId>, at: nat, slot: nat, e: Entry)
    requires ChainOk(pages, chain) && at < |chain| && e !in Flat(pages, chain)
    requires IsLowerBound(EntriesOf(pages, chain[at]), e, slot) && InsertedInto(pages, pages', chain, at, slot, e)
    ensures Sorted(Flat(pages', chain)) <==> PositionAt(pages, chain, at, e)
  {
    hide Flat, Less;
    FlatInserted(pages, pages', chain, at, slot, e);
    if PositionAt(pages, chain, at, e) {
      SeekSplits(pages, chain, at, slot, e);
      InsertSorted(Flat(pages, chain), e, Base(pages, chain, at) + slot);
    }
    if Sorted(Flat(pages', chain)) {
      assert EntriesOf(pages', chain[at])[slot] == e;
      forall j | 0 <= j < at ensures AllBelow(EntriesOf(pages, chain[j]), e) {
        PageOrder(pages', chain, j, at);
      }
      forall j | at < j < |chain| ensures AllAbove(EntriesOf(pages, chain[j]), e) {
        PageOrder(pages', chain, at, j);
      }
    }
  }

  /** Every hint reaches a page that holds entries, if anything left of its page does. */
  ghost predicate HintsReach(pages: Pages, chain: seq<PageId>) {
    forall c, j :: 0 <= j < c < |chain| && EntriesOf(pages, chain[j]) != [] ==> HintSeen(pages, chain, c)
  }

  ghost predicate HintSeen(pages: Pages, chain: seq<PageId>, c: nat)
    requires c < |chain|
  {
    exists h, i ::
      0 <= h <= i < c && At(pages, chain[c]).Page? && chain[h] == At(pages, chain[c]).prev &&
        EntriesOf(pages, chain[i]) != []
  }

  /** Every hint reaches a page that holds entries: what the first insert and every split leave, and only deletes undo.
      */
  ghost predicate HintsSeen(pages: Pages, chain: seq<PageId>) {
    forall c :: 0 < c < |chain| ==> HintSeen(pages, chain, c)
  }

  lemma SeenHintsReach(pages: Pages, chain: seq<PageId>)
    requires HintsSeen(pages, chain)
    ensures HintsReach(pages, chain)
  {
  }

  /** Page `at` and all before some later page are drained, and that page's hint names one behind `at`. */
  ghost predicate Bypassed(pages: Pages, chain: seq<PageId>, at: nat)
    requires Linked(pages, chain)
  {
    exists c :: at < c < |chain| && at < HintAt(pages, chain, c) && forall j :: 0 <= j < c ==>
      EntriesOf(pages, chain[j]) == []
  }

  ghost predicate SamePrevs(pages: Pages, pages': Pages, chain: seq<PageId>) {
    forall i :: 0 <= i < |chain| ==>
      At(pages, chain[i]).Page? && At(pages', chain[i]).Page? && At(pages', chain[i]).prev == At(pages, chain[i]).prev
  }

  lemma HintKept(pages: Pages, pages': Pages, chain: seq<PageId>, at: nat, slot: nat, e: Entry, c: nat)
    requires at < |chain| && InsertedInto(pages, pages', chain, at, slot, e) && SamePrevs(pages, pages', chain)
    requires c < |chain| && HintSeen(pages, chain, c)
    ensures HintSeen(pages', chain, c)
  {
    var h, i :| 0 <= h <= i < c && At(pages, chain[c]).Page? && chain[h] == At(pages, chain[c]).prev &&
        EntriesOf(pages, chain[i]) != [];
    assert EntriesOf(pages', chain[i]) != [];
  }

  /** An insert keeps every hint that was seen. It keeps all hints reaching except when it fills a drained page that a
      later page's hint bypasses. */
  lemma InsertKeepsHints(pages: Pages, pages': Pages, chain: seq<PageId>, at: nat, slot: nat, e: Entry)
    requires Linked(pages, chain) && Linked(pages', chain) && at < |chain|
    requires InsertedInto(pages, pages', chain, at, slot, e) && SamePrevs(pages, pages', chain)
    ensures HintsSeen(pages, chain) ==> HintsSeen(pages', chain)
    ensures HintsReach(pages, chain) ==> (HintsReach(pages', chain) <==> !Bypassed(pages, chain, at))
  {
    hide Linked, InsertedInto, SamePrevs, HintSeen, HintAt, EntriesOf;
    if HintsSeen(pages, chain) {
      forall c | 0 < c < |chain| ensures HintSeen(pages', chain, c) { HintKept(pages, pages', chain, at, slot, e, c); }
    }
    if HintsReach(pages, chain) {
      if Bypassed(pages, chain, at) { BypassedUnseen(pages, pages', chain, at, slot, e); }
      if !Bypassed(pages, chain, at) {
        forall c, j | 0 <= j < c < |chain| && EntriesOf(pages', chain[j]) != [] ensures HintSeen(pages', chain, c) {
          NotBypassedSeen(pages, pages', chain, at, slot, e, c, j);
        }
      }
    }
  }

  lemma BypassedUnseen(pages: Pages, pages': Pages, chain: seq<PageId>, at: nat, slot: nat, e: Entry)
    requires Linked(pages, chain) && at < |chain|
    requires InsertedInto(pages, pages', chain, at, slot, e) && SamePrevs(pages, pages', chain)
    requires Bypassed(pages, chain, at)
    ensures !HintsReach(pages', chain)
  {
    var c :| at < c < |chain| && at < HintAt(pages, chain, c) && forall j :: 0 <= j < c ==>
        EntriesOf(pages, chain[j]) == [];
    assert EntriesOf(pages', chain[at]) != [];
    assert !HintSeen(pages', chain, c);
  }

  lemma NotBypassedSeen(pages: Pages, pages': Pages, chain: seq<PageId>, at: nat, slot: nat, e: Entry, c: nat, j: nat)
    requires Linked(pages, chain) && at < |chain| && HintsReach(pages, chain) && !Bypassed(pages, chain, at)
    requires InsertedInto(pages, pages', chain, at, slot, e) && SamePrevs(pages, pages', chain)
    requires j < c < |chain| && EntriesOf(pages', chain[j]) != []
    ensures HintSeen(pages', chain, c)
  {
    if i :| 0 <= i < c && EntriesOf(pages, chain[i]) != [] {
      assert HintSeen(pages, chain, c);
      HintKept(pages, pages', chain, at, slot, e, c);
    } else {
      assert j == at && HintAt(pages, chain, c) <= at;
      assert EntriesOf(pages', chain[at]) != [];
    }
  }

  /** Then no start blinds the search, whatever the probe. */
  lemma ReachingHintsNeverBlind(pages: Pages, chain: seq<PageId>, start: nat, probe: Entry)
    requires Linked(pages, chain) && start < |chain| && HintsReach(pages, chain)
    ensures !Blinded(pages, chain, start, probe)
  {
    forall c | 0 <= c < |chain| ensures !Stranded(pages, chain, c, probe) {
      if 0 < c && exists j :: 0 <= j < c && HasAbove(EntriesOf(pages, chain[j]), probe) {
        var j :| 0 <= j < c && HasAbove(EntriesOf(pages, chain[j]), probe);
        assert HintSeen(pages, chain, c);
        var h, i :| 0 <= h <= i < c && chain[h] == At(pages, chain[c]).prev && EntriesOf(pages, chain[i]) != [];
        assert HintAt(pages, chain, c) == h;
      }
    }
  }

  function Leaf(prev: PageId, next: PageId, entries: seq<Entry>): Page {
    Page(0, Flags(true, false, false), prev, next, entries, SPECIAL - Bytes(0, entries), 1)
  }

  /** Three leaves of one key's duplicate run, the middle one drained by deletes. */
  function DrainedRun(key: seq<byte>): Pages {
    map[1 := Leaf(INVALID, 2, [Entry(key, 50, 0)]), 2 := Leaf(1, 3, []), 3 := Leaf(2, INVALID, [Entry(key, 100, 0)])]
  }

  lemma DrainedRunLinked(key: seq<byte>)
    ensures Linked(DrainedRun(key), [1, 2, 3])
  {
    hide Bytes;
    var pages, chain := DrainedRun(key), [1, 2, 3];
    assert 1 in chain[..1] && 2 in chain[..2] by { assert chain[..1] == [1] && chain[..2] == [1, 2]; }
    assert LinkOk(pages, chain, 0) && LinkOk(pages, chain, 1) && LinkOk(pages, chain, 2);
  }

  lemma DrainedRunFlat(key: seq<byte>)
    ensures Flat(DrainedRun(key), [1, 2, 3]) == [Entry(key, 50, 0), Entry(key, 100, 0)]
  {
    hide Flat, Bytes;
    var pages := DrainedRun(key);
    FlatOne(pages, 1);
    FlatOne(pages, 2);
    FlatOne(pages, 3);
    FlatConcat(pages, [1], [2]);
    FlatConcat(pages, [1] + [2], [3]);
    assert [1] + [2] + [3] == [1, 2, 3];
  }

  /** Placing `(key, 40)` from the third leaf puts it behind `(key, 50)`: the search stops at the drained
      middle leaf and never sees the first. */
  lemma DrainedHintBlinds(key: seq<byte>)
    ensures var pages, chain, probe := DrainedRun(key), [1, 2, 3], Entry(key, 40, 0);
      ChainOk(pages, chain) && probe !in Flat(pages, chain) && Blinded(pages, chain, 2, probe)
  {
    var pages, chain, probe := DrainedRun(key), [1, 2, 3], Entry(key, 40, 0);
    DrainedRunLinked(key);
    DrainedRunFlat(key);
    assert Less(Entry(key, 50, 0), Entry(key, 100, 0));
    hide Flat, Linked, Bytes, KeyLess;
    assert HintAt(pages, chain, 2) == 1;
    assert Less(probe, EntriesOf(pages, chain[0])[0]);
    assert HasAbove(EntriesOf(pages, chain[0]), probe);
    assert Stranded(pages, chain, 2, probe);
  }

  function DrainedPair(): Pages {
    map[1 := Leaf(INVALID, 2, []), 2 := Leaf(1, 3, []), 3 := Leaf(2, INVALID, [])]
  }

  /** Three drained leaves: the first insert may land on the first, which the third one's hint bypasses. */
  lemma InsertLosesHints(e: Entry, pages': Pages)
    requires InsertedInto(DrainedPair(), pages', [1, 2, 3], 0, 0, e) && SamePrevs(DrainedPair(), pages', [1, 2, 3])
    ensures HintsReach(DrainedPair(), [1, 2, 3]) && !HintsReach(pages', [1, 2, 3])
  {
    var pages, chain := DrainedPair(), [1, 2, 3];
    assert HintsReach(pages, chain);
    assert EntriesOf(pages', chain[0]) != [] && EntriesOf(pages', chain[1]) == [];
    assert At(pages', chain[2]).prev == 2;
    assert !HintSeen(pages', chain, 2);
  }
}
