/** The read path: the locate walk along the leaf chain, and the three readers built on it. The walk
    may start at any leaf - the descent's separators can be stale or a downlink missing - so nothing
    here depends on where the descent arrives. */
module Lookup {
  import opened Entries
  import opened BtPages
  import opened BtLog
  import opened Chains

  const MAX_CHAIN_HOPS: nat := 65536

  /** The walk can revisit a stretch of empty pages once per step, so the hop bound is out of reach only
      while the square of the chain's length is: at this many pages it still is. */
  const SHORT_CHAIN: nat := 150

  /** A walk that starts where the probe belongs crosses the empty pages around it a few times at most. */
  const LONG_CHAIN: nat := 16384

  datatype ChainError = HopBound

  datatype Tid = Tid(page: PageId, slot: nat)

  function TidOf(e: Entry): Tid {
    Tid(e.ptr, e.sub)
  }

  /** The probe of a key lookup: the smallest entry a key can have. */
  function KeyProbe(key: seq<byte>): Entry {
    Entry(key, INVALID, 0)
  }

  ghost predicate AllBelow(s: seq<Entry>, e: Entry) {
    forall x :: 0 <= x < |s| ==> Less(s[x], e)
  }

  ghost predicate AllAbove(s: seq<Entry>, e: Entry) {
    forall x :: 0 <= x < |s| ==> Less(e, s[x])
  }

  /** Page `at` holds the probe's position in the chain: everything left of the page sorts below
      the probe, everything right of it above. */
  ghost predicate PositionAt(pages: Pages, chain: seq<PageId>, at: nat, probe: Entry) {
    && at < |chain|
    && (forall j :: 0 <= j < at ==> AllBelow(EntriesOf(pages, chain[j]), probe))
    && (forall j :: at < j < |chain| ==> AllAbove(EntriesOf(pages, chain[j]), probe))
  }

  /** Skip rightward through empty pages to the next page that holds entries. */
  method NextNonEmpty(pages: Pages, ghost chain: seq<PageId>, cur: PageId, ghost at: nat, hops0: nat)
    returns (r: Result<Option<PageId>, ChainError>, hops: nat, ghost k: nat)
    requires Linked(pages, chain) && at < |chain| && chain[at] == cur
    ensures hops0 <= hops <= hops0 + |chain| && (r.Ok? && hops0 <= MAX_CHAIN_HOPS ==> hops <= MAX_CHAIN_HOPS)
    ensures at < k <= |chain| && hops == hops0 + (k - at - 1)
    ensures forall j :: at < j < k ==> EntriesOf(pages, chain[j]) == []
    ensures r.Ok? && r.value.Some? ==> k < |chain| && chain[k] == r.value.value && EntriesOf(pages, chain[k]) != []
    ensures r.Ok? && r.value.None? ==> k == |chain|
    ensures r.Err? ==> MAX_CHAIN_HOPS < hops
  {
    NoInvalid(pages, chain);
    hops := hops0;
    k := at + 1;
    NextOf(pages, chain, at);
    var next := At(pages, cur).next;
    while next != INVALID
      invariant at < k <= |chain| && hops == hops0 + (k - at - 1)
      invariant (hops0 <= MAX_CHAIN_HOPS ==> hops <= MAX_CHAIN_HOPS)
      invariant next == if k < |chain| then chain[k] else INVALID
      invariant forall j :: at < j < k ==> EntriesOf(pages, chain[j]) == []
      decreases |chain| - k
    {
      NextOf(pages, chain, k);
      if |At(pages, next).entries| != 0 {
        return Ok(Some(next)), hops, k;
      }
      next := At(pages, next).next;
      hops := hops + 1;
      k := k + 1;
      if hops > MAX_CHAIN_HOPS {
        return Err(HopBound), hops, k;
      }
    }
    r := Ok(None);
  }

  /** The page holds entries and none of them forces the walk left. */
  ghost predicate Settled(pages: Pages, p: PageId, probe: Entry) {
    EntriesOf(pages, p) != [] && !Less(probe, EntriesOf(pages, p)[0])
  }

  /** As a bulk load leaves it: no page is empty and every `prev` names the neighbour. */
  ghost predicate Tight(pages: Pages, chain: seq<PageId>) {
    forall i :: 0 <= i < |chain| ==>
      EntriesOf(pages, chain[i]) != [] && At(pages, chain[i]).prev == if i == 0 then INVALID else chain[i - 1]
  }

  /** No page right of `at` starts at or below the probe. */
  ghost predicate ClearRight(pages: Pages, chain: seq<PageId>, at: nat, probe: Entry) {
    at < |chain| && forall j :: at < j < |chain| ==> !Settled(pages, chain[j], probe)
  }

  /** A start from which the walk only goes left, a page at a time. */
  ghost predicate Direct(pages: Pages, chain: seq<PageId>, start: PageId, probe: Entry) {
    && Tight(pages, chain) && |chain| <= MAX_CHAIN_HOPS
    && exists at :: 0 <= at < |chain| && chain[at] == start && ClearRight(pages, chain, at, probe)
  }

  /** What the walk still has to do: left until a page settles the probe, then right. */
  ghost function StepsLeft(pages: Pages, chain: seq<PageId>, at: nat, probe: Entry): int
    requires at < |chain|
  {
    if Settled(pages, chain[at], probe) then |chain| - at else |chain| + 1 + at
  }

  lemma StepLeft(pages: Pages, chain: seq<PageId>, from: nat, at: nat, probe: Entry)
    requires Tight(pages, chain) && NoDup(chain) && ClearRight(pages, chain, from, probe)
    requires !Settled(pages, chain[from], probe)
    requires at < from && chain[at] == At(pages, chain[from]).prev
    ensures at == from - 1 && ClearRight(pages, chain, at, probe)
  {
    assert chain[at] == chain[from - 1];
  }

  lemma NoSkip(pages: Pages, chain: seq<PageId>, at: nat, k: nat, probe: Entry)
    requires Tight(pages, chain) && ClearRight(pages, chain, at, probe)
    requires at < k <= |chain| && forall j :: at < j < k ==> EntriesOf(pages, chain[j]) == []
    ensures k == at + 1
    ensures k < |chain| ==> !Settled(pages, chain[k], probe)
  {
    assert at + 1 < |chain| ==> EntriesOf(pages, chain[at + 1]) != [];
  }

  /** `walk_to_position_guard` in LOCATE mode at the leaf level: left from a page that is empty or
      starts above the probe, right to the next non-empty page that starts at or below it. The
      loop ends without the hop bound too: once a page starts at or below the probe the walk only
      moves right, and before that only left. */
  method Locate(pages: Pages, ghost chain: seq<PageId>, start: PageId, probe: Entry)
    returns (r: Result<PageId, ChainError>, ghost at: nat)
    requires ChainOk(pages, chain) && start in chain
    ensures r.Ok? ==> PositionAt(pages, chain, at, probe) && chain[at] == r.value
    ensures |chain| <= SHORT_CHAIN || Direct(pages, chain, start, probe) ==> r.Ok?
  {
    NoInvalid(pages, chain);
    var cur, hops := start, 0;
    at :| 0 <= at < |chain| && chain[at] == start;
    ghost var direct := Direct(pages, chain, start, probe);
    while true
      invariant at < |chain| && chain[at] == cur
      invariant direct ==> hops < |chain| - at && ClearRight(pages, chain, at, probe)
      invariant |chain| <= SHORT_CHAIN ==>
        hops + (SHORT_CHAIN + 2) * StepsLeft(pages, chain, at, probe) <= MAX_CHAIN_HOPS
      decreases StepsLeft(pages, chain, at, probe)
    {
      ghost var from := at;
      var moved := false;
      assert LinkOk(pages, chain, at);
      var pg := At(pages, cur);
      if (|pg.entries| == 0 || Less(probe, pg.entries[0])) && pg.prev != INVALID {
        cur, moved, hops := pg.prev, true, hops + 1;
        at :| 0 <= at < from && chain[at] == cur;
        if direct { StepLeft(pages, chain, from, at, probe); }
      }
      ghost var mid, k := at, 0;
      var hop;
      hop, hops, k := NextNonEmpty(pages, chain, cur, at, hops);
      if direct { NoSkip(pages, chain, at, k, probe); }
      if hop.Err? {
        return Err(HopBound), at;
      }
      if hop.value.Some? && !Less(probe, At(pages, hop.value.value).entries[0]) {
        cur, at, moved, hops := hop.value.value, k, true, hops + 1;
      }
      if !moved {
        Landed(pages, chain, at, k, probe);
        return Ok(cur), at;
      }
      if hops > MAX_CHAIN_HOPS {
        return Err(HopBound), at;
      }
    }
  }

  /** The walk stops only where the probe belongs. */
  lemma Landed(pages: Pages, chain: seq<PageId>, at: nat, k: nat, probe: Entry)
    requires ChainOk(pages, chain) && at < k <= |chain|
    requires Settled(pages, chain[at], probe) || at == 0
    requires forall j :: at < j < k ==> EntriesOf(pages, chain[j]) == []
    requires k < |chain| ==> EntriesOf(pages, chain[k]) != [] && Less(probe, EntriesOf(pages, chain[k])[0])
    ensures PositionAt(pages, chain, at, probe)
  {
    LessOrder();
    forall j | 0 <= j < at ensures AllBelow(EntriesOf(pages, chain[j]), probe) {
      PageOrder(pages, chain, j, at);
    }
    forall j | at < j < |chain| ensures AllAbove(EntriesOf(pages, chain[j]), probe) {
      if k <= j {
        PageOrder(pages, chain, k, j);
      }
    }
  }

  // ---------------------------------------------------------------- the readers

  /** The linear filter every reader is measured against. */
  function Select(s: seq<Entry>, keep: Filter): seq<Entry> {
    if s == [] then [] else
      Select(s[..|s| - 1], keep) + if Keeps(keep, s[|s| - 1]) then [s[|s| - 1]] else []
  }

  function Tids(s: seq<Entry>): (t: seq<Tid>)
    ensures |t| == |s|
  {
    if s == [] then [] else Tids(s[..|s| - 1]) + [TidOf(s[|s| - 1])]
  }

  /** What a reader keeps: the entries of one key, or those of a half-open key range. */
  datatype Filter = HasKey(key: seq<byte>) | InRange(start: Option<seq<byte>>, end: Option<seq<byte>>)

  predicate Keeps(f: Filter, e: Entry) {
    match f
    case HasKey(key) => e.key == key
    case InRange(start, end) =>
      (start.Some? ==> !KeyLess(e.key, start.value)) && (end.Some? ==> KeyLess(e.key, end.value))
  }

  /** Where page `at` begins in the flat sequence. */
  ghost function Base(pages: Pages, chain: seq<PageId>, at: nat): nat
    requires at <= |chain|
  {
    if at == 0 then 0 else Base(pages, chain, at - 1) + |EntriesOf(pages, chain[at - 1])|
  }

  lemma {:induction false} BaseIsLength(pages: Pages, chain: seq<PageId>, at: nat)
    requires at <= |chain|
    ensures Base(pages, chain, at) == |Flat(pages, chain[..at])|
    decreases at
  {
    if at > 0 {
      BaseIsLength(pages, chain, at - 1);
      assert chain[..at][..at - 1] == chain[..at - 1];
    }
  }

  lemma {:induction false} BaseMonotone(pages: Pages, chain: seq<PageId>, i: nat, j: nat)
    requires i <= j <= |chain|
    ensures Base(pages, chain, i) <= Base(pages, chain, j)
    decreases j
  {
    if i < j { BaseMonotone(pages, chain, i, j - 1); }
  }

  lemma BaseStep(pages: Pages, chain: seq<PageId>, at: nat)
    requires at < |chain|
    ensures Base(pages, chain, at + 1) == Base(pages, chain, at) + |EntriesOf(pages, chain[at])|
  {
  }

  lemma BaseEnd(pages: Pages, chain: seq<PageId>)
    ensures Base(pages, chain, |chain|) == |Flat(pages, chain)|
  {
    BaseIsLength(pages, chain, |chain|);
    assert chain[..|chain|] == chain;
  }

  lemma PageFits(pages: Pages, chain: seq<PageId>, at: nat)
    requires at < |chain|
    ensures Base(pages, chain, at) + |EntriesOf(pages, chain[at])| <= |Flat(pages, chain)|
  {
    FlatAt(pages, chain, at);
    BaseIsLength(pages, chain, at);
  }

  /** Page `at` is the window of the flat sequence that starts at its base. */
  lemma EntryAt(pages: Pages, chain: seq<PageId>, at: nat, slot: nat)
    requires at < |chain| && slot < |EntriesOf(pages, chain[at])|
    ensures Base(pages, chain, at) + slot < |Flat(pages, chain)|
    ensures Flat(pages, chain)[Base(pages, chain, at) + slot] == EntriesOf(pages, chain[at])[slot]
  {
    hide Flat;
    FlatAt(pages, chain, at);
    BaseIsLength(pages, chain, at);
  }

  /** Every index of the flat sequence lies on some page's window. */
  lemma {:induction false} PageOfIndex(pages: Pages, chain: seq<PageId>, n: nat, x: nat) returns (j: nat, y: nat)
    requires n <= |chain| && x < Base(pages, chain, n)
    ensures j < n && y < |EntriesOf(pages, chain[j])| && x == Base(pages, chain, j) + y
    ensures x < |Flat(pages, chain)| && Flat(pages, chain)[x] == EntriesOf(pages, chain[j])[y]
    decreases n
  {
    if x < Base(pages, chain, n - 1) {
      j, y := PageOfIndex(pages, chain, n - 1, x);
    } else {
      j, y := n - 1, x - Base(pages, chain, n - 1);
      EntryAt(pages, chain, j, y);
    }
  }

  /** The located page and the lower bound on it split the flat sequence at the probe. */
  lemma SeekSplits(pages: Pages, chain: seq<PageId>, at: nat, slot: nat, probe: Entry)
    requires PositionAt(pages, chain, at, probe) && IsLowerBound(EntriesOf(pages, chain[at]), probe, slot)
    ensures Base(pages, chain, at) + slot <= |Flat(pages, chain)|
    ensures IsLowerBound(Flat(pages, chain), probe, Base(pages, chain, at) + slot)
  {
    PageFits(pages, chain, at);
    forall x | 0 <= x < |Flat(pages, chain)|
      ensures if x < Base(pages, chain, at) + slot then Less(Flat(pages, chain)[x], probe)
              else !Less(Flat(pages, chain)[x], probe)
    {
      BaseEnd(pages, chain);
      var j, y := PageOfIndex(pages, chain, |chain|, x);
      assert j < at ==> AllBelow(EntriesOf(pages, chain[j]), probe);
      assert at < j ==> AllAbove(EntriesOf(pages, chain[j]), probe);
      SeekSplitsAt(pages, chain, at, slot, probe, j, y);
    }
  }

  lemma SeekSplitsAt(pages: Pages, chain: seq<PageId>, at: nat, slot: nat, probe: Entry, j: nat, y: nat)
    requires at < |chain| && j < |chain| && y < |EntriesOf(pages, chain[j])|
    requires IsLowerBound(EntriesOf(pages, chain[at]), probe, slot)
    requires j < at ==> AllBelow(EntriesOf(pages, chain[j]), probe)
    requires at < j ==> AllAbove(EntriesOf(pages, chain[j]), probe)
    ensures if Base(pages, chain, j) + y < Base(pages, chain, at) + slot
            then Less(EntriesOf(pages, chain[j])[y], probe) else !Less(EntriesOf(pages, chain[j])[y], probe)
  {
    if j < at {
      BaseMonotone(pages, chain, j + 1, at);
    } else if at < j {
      BaseMonotone(pages, chain, at + 1, j);
      LessTotal(probe, EntriesOf(pages, chain[j])[y]);
    }
  }

  /** Locate and search, shared by the readers: the cursor stands before the first entry at or above
      the probe. */
  method Seek(pages: Pages, ghost chain: seq<PageId>, start: PageId, probe: Entry)
    returns (r: Result<PageId, ChainError>, slot: nat, ghost at: nat)
    requires ChainOk(pages, chain) && start in chain
    ensures |chain| <= SHORT_CHAIN || Direct(pages, chain, start, probe) ==> r.Ok?
    ensures r.Ok? ==> at < |chain| && chain[at] == r.value && slot <= |EntriesOf(pages, r.value)|
    ensures r.Ok? ==> IsLowerBound(Flat(pages, chain), probe, Base(pages, chain, at) + slot)
  {
    slot := 0;
    r, at := Locate(pages, chain, start, probe);
    if r.Ok? {
      NextOf(pages, chain, at);
      PageOrder(pages, chain, at, at);
      slot := LowerBound(At(pages, r.value).entries, probe);
      SeekSplits(pages, chain, at, slot, probe);
    }
  }

  /** `out` is the run of `flat` from `from` on, and the filter keeps every entry of it. */
  ghost predicate Gathered(flat: seq<Entry>, from: nat, out: seq<Entry>, go: Filter) {
    && from + |out| <= |flat|
    && forall x :: 0 <= x < |out| ==> out[x] == flat[from + x] && Keeps(go, out[x])
  }

  lemma GatherMore(flat: seq<Entry>, from: nat, out: seq<Entry>, go: Filter, e: Entry)
    requires Gathered(flat, from, out, go) && from + |out| < |flat| && flat[from + |out|] == e && Keeps(go, e)
    ensures Gathered(flat, from, out + [e], go)
  {
    var more := out + [e];
    forall x | 0 <= x < |more| ensures more[x] == flat[from + x] && Keeps(go, more[x]) {
      assert x < |out| ==> more[x] == out[x];
    }
  }

  lemma GatherAt(pages: Pages, chain: seq<PageId>, at: nat, slot: nat, from: nat, out: seq<Entry>, go: Filter)
    requires at < |chain| && slot < |EntriesOf(pages, chain[at])| && from + |out| == Base(pages, chain, at) + slot
    requires Gathered(Flat(pages, chain), from, out, go)
    ensures var flat, e := Flat(pages, chain), EntriesOf(pages, chain[at])[slot];
      && from + |out| < |flat| && flat[from + |out|] == e
      && (Keeps(go, e) ==> Gathered(flat, from, out + [e], go))
  {
    EntryAt(pages, chain, at, slot);
    var e := EntriesOf(pages, chain[at])[slot];
    if Keeps(go, e) { GatherMore(Flat(pages, chain), from, out, go, e); }
  }

  /** The collecting loop of `lookup_all` and `range_scan`: entries from the cursor on, hopping right at
      the end of each page, up to the first one the filter refuses. */
  method CollectWhile(pages: Pages, ghost chain: seq<PageId>, start: PageId, ghost at0: nat, slot0: nat, go: Filter)
    returns (r: Result<seq<Entry>, ChainError>)
    requires Linked(pages, chain) && at0 < |chain| && chain[at0] == start && slot0 <= |EntriesOf(pages, start)|
    ensures |chain| <= MAX_CHAIN_HOPS ==> r.Ok?
    ensures r.Ok? ==>
      var flat, from := Flat(pages, chain), Base(pages, chain, at0) + slot0;
      && Gathered(flat, from, r.value, go)
      && (from + |r.value| < |flat| ==> !Keeps(go, flat[from + |r.value|]))
  {
    NoInvalid(pages, chain);
    ghost var flat, from, at := Flat(pages, chain), Base(pages, chain, at0) + slot0, at0;
    PageFits(pages, chain, at0);
    BaseEnd(pages, chain);
    assert Gathered(flat, from, [], go);
    hide Flat, Gathered, Linked, Base, At, Keeps, LinkOk, NoDup;
    var cur, out, hops := start, [], 0;
    var slot: nat := slot0;
    ghost var pos: nat := from;
    while true
      invariant at < |chain| && chain[at] == cur && slot <= |EntriesOf(pages, cur)|
      invariant pos == from + |out| && pos == Base(pages, chain, at) + slot
      invariant Gathered(flat, from, out, go) && hops == at - at0
      decreases |chain| - at, |EntriesOf(pages, cur)| - slot
    {
      NextOf(pages, chain, at);
      var es := At(pages, cur).entries;
      if slot < |es| {
        GatherAt(pages, chain, at, slot, from, out, go);
        if !Keeps(go, es[slot]) {
          return Ok(out);
        }
        out, slot, pos := out + [es[slot]], slot + 1, pos + 1;
      } else {
        BaseStep(pages, chain, at);
        var next := At(pages, cur).next;
        if next == INVALID {
          return Ok(out);
        }
        cur, slot, hops, at := next, 0, hops + 1, at + 1;
        if hops > MAX_CHAIN_HOPS {
          return Err(HopBound);
        }
      }
    }
  }

  /** `lookup_all`: the TIDs of every entry with the key, exactly as a linear scan of the chain finds
      them, duplicates across pages included. */
  method LookupAll(pages: Pages, ghost chain: seq<PageId>, start: PageId, key: seq<byte>)
    returns (r: Result<seq<Tid>, ChainError>)
    requires ChainOk(pages, chain) && start in chain
    ensures |chain| <= SHORT_CHAIN || Direct(pages, chain, start, KeyProbe(key)) ==> r.Ok?
    ensures r.Ok? ==> r.value == Tids(Select(Flat(pages, chain), HasKey(key)))
  {
    var leaf, slot: nat; ghost var at: nat;
    leaf, slot, at := Seek(pages, chain, start, KeyProbe(key));
    if leaf.Err? {
      return Err(HopBound);
    }
    var run := CollectWhile(pages, chain, leaf.value, at, slot, HasKey(key));
    if run.Err? {
      return Err(HopBound);
    }
    KeyRun(Flat(pages, chain), Base(pages, chain, at) + slot, run.value, key);
    r := Ok(Tids(run.value));
  }

  /** `lookup`: the TID of the first entry with the key, or none when no entry has it. */
  method LookupFirst(pages: Pages, ghost chain: seq<PageId>, start: PageId, key: seq<byte>)
    returns (r: Result<Option<Tid>, ChainError>)
    requires ChainOk(pages, chain) && start in chain
    ensures |chain| <= SHORT_CHAIN ==> r.Ok?
    ensures r.Ok? ==>
      var all := Select(Flat(pages, chain), HasKey(key));
      r.value == if |all| == 0 then None else Some(TidOf(all[0]))
  {
    var leaf, slot: nat; ghost var at: nat;
    leaf, slot, at := Seek(pages, chain, start, KeyProbe(key));
    if leaf.Err? {
      return Err(HopBound);
    }
    var e; ghost var pos := Base(pages, chain, at) + slot;
    e := EntryFrom(pages, chain, leaf.value, at, slot);
    if e.Err? {
      return Err(HopBound);
    }
    FirstOfRun(Flat(pages, chain), pos, key);
    r := Ok(if e.value.Some? && e.value.value.key == key then Some(TidOf(e.value.value)) else None);
  }

  /** The entry under the cursor: the next one of its page, else the first of the next non-empty page. */
  method EntryFrom(pages: Pages, ghost chain: seq<PageId>, start: PageId, ghost at0: nat, slot0: nat)
    returns (r: Result<Option<Entry>, ChainError>)
    requires Linked(pages, chain) && at0 < |chain| && chain[at0] == start && slot0 <= |EntriesOf(pages, start)|
    ensures |chain| <= MAX_CHAIN_HOPS ==> r.Ok?
    ensures r.Ok? ==>
      var flat, pos := Flat(pages, chain), Base(pages, chain, at0) + slot0;
      pos <= |flat| && r.value == if pos < |flat| then Some(flat[pos]) else None
  {
    NoInvalid(pages, chain);
    ghost var at := at0;
    PageFits(pages, chain, at0);
    var cur, hops := start, 0;
    var slot: nat := slot0;
    while true
      invariant at < |chain| && chain[at] == cur && slot <= |EntriesOf(pages, cur)|
      invariant Base(pages, chain, at) + slot == Base(pages, chain, at0) + slot0 <= |Flat(pages, chain)|
      invariant hops == at - at0
      decreases |chain| - at
    {
      NextOf(pages, chain, at);
      if slot < |At(pages, cur).entries| {
        EntryAt(pages, chain, at, slot);
        return Ok(Some(At(pages, cur).entries[slot]));
      }
      BaseEnd(pages, chain);
      var next := At(pages, cur).next;
      if next == INVALID {
        return Ok(None);
      }
      cur, slot, hops, at := next, 0, hops + 1, at + 1;
      if hops > MAX_CHAIN_HOPS {
        return Err(HopBound);
      }
    }
  }

  /** `range_scan`: every entry with `start <= key < end`, an open side unbounded, in chain order. */
  method RangeScan(pages: Pages, ghost chain: seq<PageId>, leaf0: PageId, start: Option<seq<byte>>,
                   end: Option<seq<byte>>)
    returns (r: Result<seq<Entry>, ChainError>)
    requires ChainOk(pages, chain) && leaf0 in chain
    ensures |chain| <= SHORT_CHAIN ==> r.Ok?
    ensures r.Ok? ==> r.value == Select(Flat(pages, chain), InRange(start, end))
  {
    hide Flat, Select, Base, Gathered, Linked;
    var probe := KeyProbe(if start.Some? then start.value else []);
    var leaf, slot: nat; ghost var at: nat;
    leaf, slot, at := Seek(pages, chain, leaf0, probe);
    if leaf.Err? {
      return Err(HopBound);
    }
    if start.None? {
      NothingBelowMinimum(Flat(pages, chain), Base(pages, chain, at) + slot);
      slot := 0;
    }
    r := CollectWhile(pages, chain, leaf.value, at, slot, InRange(None, end));
    if r.Ok? {
      RangeRun(Flat(pages, chain), Base(pages, chain, at) + slot, r.value, start, end);
    }
  }

  // ---------------------------------------------------------------- runs of a sorted sequence

  /** When `keep` holds exactly on the run, the filter is that run. */
  lemma {:induction false} SelectRun(s: seq<Entry>, from: nat, run: seq<Entry>, keep: Filter)
    requires from + |run| <= |s| && (forall x :: 0 <= x < |run| ==> run[x] == s[from + x])
    requires forall x :: 0 <= x < |s| ==> (Keeps(keep, s[x]) <==> from <= x < from + |run|)
    ensures Select(s, keep) == run
  {
    if s != [] {
      var n, init := |s| - 1, s[..|s| - 1];
      if from + |run| <= n {
        SelectRun(init, from, run, keep);
      } else if run != [] {
        var short := run[..|run| - 1];
        SelectRun(init, from, short, keep);
        assert run == short + [s[n]];
      } else {
        SelectRun(init, n, run, keep);
      }
    }
  }

  /** In a sorted sequence the entries with one key are the run from its lower bound up to the next key. */
  lemma KeyRun(s: seq<Entry>, from: nat, run: seq<Entry>, key: seq<byte>)
    requires Sorted(s) && IsLowerBound(s, KeyProbe(key), from) && Gathered(s, from, run, HasKey(key))
    requires from + |run| < |s| ==> s[from + |run|].key != key
    ensures Select(s, HasKey(key)) == run
  {
    hide Less, KeyLess;
    var stop := from + |run|;
    forall x | 0 <= x < |s| ensures s[x].key == key <==> from <= x < stop {
      KeyTotal(key, key);
      BelowProbe(s[x], key);
      if stop <= x {
        OtherKeysFollow(s[stop], s[x], key);
      } else if from <= x {
        assert run[x - from] == s[x];
      }
    }
    SelectRun(s, from, run, HasKey(key));
  }

  lemma OtherKeysFollow(a: Entry, b: Entry, key: seq<byte>)
    requires !Less(a, KeyProbe(key)) && a.key != key && (a == b || Less(a, b))
    ensures b.key != key
  {
    KeyTotal(a.key, key);
    KeyTotal(b.key, key);
    if KeyLess(a.key, b.key) { KeyTransitive(key, a.key, b.key); }
  }

  lemma RunFrom(s: seq<Entry>, from: nat, key: seq<byte>) returns (run: seq<Entry>)
    requires from <= |s|
    ensures Gathered(s, from, run, HasKey(key))
    ensures from + |run| < |s| ==> s[from + |run|].key != key
    ensures |run| > 0 <==> from < |s| && s[from].key == key
    ensures |run| > 0 ==> run[0] == s[from]
  {
    run := [];
    while from + |run| < |s| && s[from + |run|].key == key
      invariant Gathered(s, from, run, HasKey(key))
      decreases |s| - |run|
    {
      run := run + [s[from + |run|]];
    }
    assert |run| > 0 ==> run[0] == s[from];
  }

  lemma FirstOfRun(s: seq<Entry>, from: nat, key: seq<byte>)
    requires Sorted(s) && IsLowerBound(s, KeyProbe(key), from)
    ensures var all := Select(s, HasKey(key));
      if from < |s| && s[from].key == key then |all| > 0 && all[0] == s[from] else |all| == 0
  {
    var run := RunFrom(s, from, key);
    KeyRun(s, from, run, key);
  }

  /** Nothing sorts below the empty key's probe, so an unbounded scan starts at the very first entry. */
  lemma NothingBelowMinimum(s: seq<Entry>, pos: nat)
    requires IsLowerBound(s, KeyProbe([]), pos)
    ensures pos == 0
  {
    assert 0 < pos ==> Less(s[0], KeyProbe([]));
  }

  lemma RangeRun(s: seq<Entry>, from: nat, run: seq<Entry>, start: Option<seq<byte>>, end: Option<seq<byte>>)
    requires Sorted(s) && Gathered(s, from, run, InRange(None, end))
    requires if start.Some? then IsLowerBound(s, KeyProbe(start.value), from) else from == 0
    requires from + |run| < |s| ==> !Keeps(InRange(None, end), s[from + |run|])
    ensures Select(s, InRange(start, end)) == run
  {
    var stop := from + |run|;
    hide Less;
    forall x | 0 <= x < |s| ensures Keeps(InRange(start, end), s[x]) <==> from <= x < stop {
      if start.Some? { BelowProbe(s[x], start.value); }
      if stop <= x {
        BeyondEnd(s[stop], s[x], end.value);
      } else if from <= x {
        assert run[x - from] == s[x];
      }
    }
    SelectRun(s, from, run, InRange(start, end));
  }

  /** The probe of a key is the smallest entry that can have it. */
  lemma BelowProbe(e: Entry, key: seq<byte>)
    ensures Less(e, KeyProbe(key)) <==> KeyLess(e.key, key)
  {
  }

  lemma BeyondEnd(a: Entry, b: Entry, end: seq<byte>)
    requires !KeyLess(a.key, end) && (a == b || Less(a, b))
    ensures !KeyLess(b.key, end)
  {
    if KeyLess(b.key, end) && KeyLess(a.key, b.key) { KeyTransitive(a.key, b.key, end); }
  }
}
