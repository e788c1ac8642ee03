/** Heap slotted pages and their compaction: line pointers keep their slots for ever, tuple bytes move. */
module SlottedPages {
  import opened Entries
  import opened Layout
  import opened FiniteSets

  datatype LpFlag = Unused | Normal | Redirect | Dead

  datatype LinePointer = LinePointer(off: nat, flag: LpFlag, len: nat)

  datatype SlotError = InvalidSlot | NotAscending | Corrupted | PageFull | TooLarge | EmptyTuple

  /** The page as a value: line pointers, `pd_upper`, `pd_special` and the raw bytes. */
  datatype Page = Page(lps: seq<LinePointer>, upper: nat, special: nat, data: seq<byte>)

  predicate Used(lp: LinePointer) {
    !lp.flag.Unused?
  }

  function Lower(p: Page): nat {
    PAGE_HEADER_SIZE + LINE_POINTER_SIZE * |p.lps|
  }

  predicate Within(p: Page, s: nat)
    requires s < |p.lps|
  {
    p.upper <= p.lps[s].off && p.lps[s].off + p.lps[s].len <= p.special
  }

  predicate Apart(a: LinePointer, b: LinePointer) {
    a.off + a.len <= b.off || b.off + b.len <= a.off
  }

  /** The page invariant: sane header, and every tuple in the data area, none overlapping another. */
  ghost predicate PageOk(p: Page) {
    && |p.data| == PAGE_SIZE && Lower(p) <= p.upper <= p.special <= PAGE_SIZE
    && (forall s :: 0 <= s < |p.lps| && Used(p.lps[s]) ==> Within(p, s))
    && (forall s, t :: 0 <= s < t < |p.lps| && Used(p.lps[s]) && Used(p.lps[t]) ==> Apart(p.lps[s], p.lps[t]))
  }

  function TupleBytes(p: Page, s: nat): seq<byte>
    requires s < |p.lps| && p.lps[s].off + p.lps[s].len <= |p.data|
  {
    p.data[p.lps[s].off..p.lps[s].off + p.lps[s].len]
  }

  // ---------------------------------------------------------------- compaction as a function

  predicate Survives(p: Page, dead: seq<nat>, s: nat)
    requires s < |p.lps|
  {
    Used(p.lps[s]) && s !in dead
  }

  /** Bytes of the survivors among the first `n` slots. */
  function LiveBytes(p: Page, dead: seq<nat>, n: nat): nat
    requires n <= |p.lps|
  {
    if n == 0 then 0 else LiveBytes(p, dead, n - 1) + if Survives(p, dead, n - 1) then p.lps[n - 1].len else 0
  }

  /** The packed region of the first `n` slots: slot 0's tuple ends at `pd_special`, later ones go below. */
  function Region(p: Page, dead: seq<nat>, n: nat): (r: seq<byte>)
    requires n <= |p.lps| && forall s :: 0 <= s < n && Used(p.lps[s]) ==> p.lps[s].off + p.lps[s].len <= |p.data|
    ensures |r| == LiveBytes(p, dead, n)
  {
    if n == 0 then [] else (if Survives(p, dead, n - 1) then TupleBytes(p, n - 1) else []) + Region(p, dead, n - 1)
  }

  function Repointed(p: Page, dead: seq<nat>, s: nat): LinePointer
    requires s < |p.lps| && LiveBytes(p, dead, s + 1) <= p.special
  {
    if Survives(p, dead, s) then p.lps[s].(off := p.special - LiveBytes(p, dead, s + 1))
    else if s in dead then p.lps[s].(flag := Unused)
    else p.lps[s]
  }

  lemma {:induction false} LiveBytesMonotone(p: Page, dead: seq<nat>, m: nat, n: nat)
    requires m <= n <= |p.lps|
    ensures LiveBytes(p, dead, m) <= LiveBytes(p, dead, n)
    decreases n
  {
    if m < n { LiveBytesMonotone(p, dead, m, n - 1); }
  }

  // ---------------------------------------------------------------- disjoint regions cannot exceed the area

  function Extent(lp: LinePointer): set<nat> {
    Interval(lp.off, lp.off + lp.len)
  }

  /** The byte positions the survivors among the first `n` slots occupy. */
  function Occupied(p: Page, dead: seq<nat>, n: nat): set<nat>
    requires n <= |p.lps|
  {
    if n == 0 then {} else Occupied(p, dead, n - 1) + if Survives(p, dead, n - 1) then Extent(p.lps[n - 1]) else {}
  }

  lemma {:induction false} OccupiedApart(p: Page, dead: seq<nat>, n: nat, lp: LinePointer)
    requires n <= |p.lps| && forall s :: 0 <= s < n && Survives(p, dead, s) ==> Apart(p.lps[s], lp)
    ensures Occupied(p, dead, n) !! Extent(lp)
    decreases n
  {
    if n > 0 {
      OccupiedApart(p, dead, n - 1, lp);
      assert Survives(p, dead, n - 1) ==> Apart(p.lps[n - 1], lp);
    }
  }

  lemma UnionSize(a: set<nat>, b: set<nat>)
    requires a !! b
    ensures |a + b| == |a| + |b|
  {
  }

  lemma {:induction false} OccupiedSize(p: Page, dead: seq<nat>, n: nat)
    requires n <= |p.lps|
    requires forall s, t :: 0 <= s < t < |p.lps| && Used(p.lps[s]) && Used(p.lps[t]) ==> Apart(p.lps[s], p.lps[t])
    ensures |Occupied(p, dead, n)| == LiveBytes(p, dead, n)
    decreases n
  {
    if n > 0 {
      OccupiedSize(p, dead, n - 1);
      if Survives(p, dead, n - 1) {
        var lp := p.lps[n - 1];
        OccupiedApart(p, dead, n - 1, lp);
        IntervalSize(lp.off, lp.off + lp.len);
        UnionSize(Occupied(p, dead, n - 1), Extent(lp));
      }
    }
  }

  lemma {:induction false} OccupiedInside(p: Page, dead: seq<nat>, n: nat)
    requires n <= |p.lps| && forall s :: 0 <= s < |p.lps| && Used(p.lps[s]) ==> Within(p, s)
    ensures Occupied(p, dead, n) <= Interval(p.upper, p.special)
    decreases n
  {
    if n > 0 {
      OccupiedInside(p, dead, n - 1);
      assert Survives(p, dead, n - 1) ==> Within(p, n - 1);
    }
  }

  /** The survivors' bytes fit between `pd_upper` and `pd_special`: the restaging cursor never underflows. */
  lemma LiveBytesFit(p: Page, dead: seq<nat>)
    requires PageOk(p)
    ensures LiveBytes(p, dead, |p.lps|) <= p.special - p.upper
  {
    OccupiedSize(p, dead, |p.lps|);
    OccupiedInside(p, dead, |p.lps|);
    IntervalSize(p.upper, p.special);
    SubsetSize(Occupied(p, dead, |p.lps|), Interval(p.upper, p.special));
  }

  /** What `compact` leaves. */
  ghost function Compacted(p: Page, dead: seq<nat>): Page
    requires PageOk(p)
  {
    var live := LiveBytes(p, dead, |p.lps|);
    LiveBytesFit(p, dead);
    assert forall s :: 0 <= s < |p.lps| && Used(p.lps[s]) ==> Within(p, s);
    Page(seq(|p.lps|,
      s requires 0 <= s < |p.lps| => (LiveBytesMonotone(p, dead, s + 1, |p.lps|); Repointed(p, dead, s))),
         p.special - live, p.special,
         p.data[..p.upper] + Zeros(p.special - p.upper - live) + Region(p, dead, |p.lps|) + p.data[p.special..])
  }

  // ---------------------------------------------------------------- what compaction keeps

  lemma RegionStarts(p: Page, dead: seq<nat>)
    ensures LiveBytes(p, dead, 0) == 0 && Region(p, dead, 0) == []
  {
  }

  lemma RegionStep(p: Page, dead: seq<nat>, n: nat)
    requires n < |p.lps| && forall s :: 0 <= s <= n && Used(p.lps[s]) ==> p.lps[s].off + p.lps[s].len <= |p.data|
    ensures LiveBytes(p, dead, n + 1) == LiveBytes(p, dead, n) + if Survives(p, dead, n) then p.lps[n].len else 0
    ensures Region(p, dead, n + 1) == (if Survives(p, dead, n) then TupleBytes(p, n) else []) + Region(p, dead, n)
    ensures Survives(p, dead, n) ==> |TupleBytes(p, n)| == p.lps[n].len
  {
  }

  /** Where a survivor's bytes are in the packed region. */
  lemma {:induction false} RegionAt(p: Page, dead: seq<nat>, n: nat, s: nat)
    requires s < n <= |p.lps| && Survives(p, dead, s)
    requires forall t :: 0 <= t < n && Used(p.lps[t]) ==> p.lps[t].off + p.lps[t].len <= |p.data|
    ensures LiveBytes(p, dead, s) + p.lps[s].len == LiveBytes(p, dead, s + 1) <= LiveBytes(p, dead, n)
    ensures var at := LiveBytes(p, dead, n) - LiveBytes(p, dead, s + 1);
      Region(p, dead, n)[at..at + p.lps[s].len] == TupleBytes(p, s)
    decreases n
  {
    hide Region, LiveBytes, TupleBytes;
    RegionStep(p, dead, n - 1);
    var rest, top := Region(p, dead, n - 1), if Survives(p, dead, n - 1) then TupleBytes(p, n - 1) else [];
    if s < n - 1 {
      RegionAt(p, dead, n - 1, s);
      Window(top, rest, [], LiveBytes(p, dead, n - 1) - LiveBytes(p, dead, s + 1), p.lps[s].len);
      assert top + rest + [] == top + rest;
    }
  }

  lemma TuplesInPage(p: Page)
    requires PageOk(p)
    ensures forall s :: 0 <= s < |p.lps| && Used(p.lps[s]) ==> p.lps[s].off + p.lps[s].len <= |p.data|
  {
    forall s | 0 <= s < |p.lps| && Used(p.lps[s]) ensures p.lps[s].off + p.lps[s].len <= |p.data| {
      assert Within(p, s);
    }
  }

  lemma SurvivorBytes(p: Page, dead: seq<nat>, s: nat)
    requires PageOk(p) && s < |p.lps| && Survives(p, dead, s)
    ensures LiveBytes(p, dead, s) + p.lps[s].len
      == LiveBytes(p, dead, s + 1) <= LiveBytes(p, dead, |p.lps|) <= p.special - p.upper
    ensures p.special <= PAGE_SIZE == |Compacted(p, dead).data| && Within(p, s)
    ensures var at := p.special - LiveBytes(p, dead, s + 1);
      Compacted(p, dead).data[at..at + p.lps[s].len] == TupleBytes(p, s)
  {
    TuplesInPage(p);
    LiveBytesFit(p, dead);
    RegionAt(p, dead, |p.lps|, s);
    assert Within(p, s);
    var live := LiveBytes(p, dead, |p.lps|);
    var pre, region := p.data[..p.upper] + Zeros(p.special - p.upper - live), Region(p, dead, |p.lps|);
    assert Compacted(p, dead).data == pre + region + p.data[p.special..];
    hide Compacted, Region, LiveBytes, TupleBytes;
    Window(pre, region, p.data[p.special..], live - LiveBytes(p, dead, s + 1), p.lps[s].len);
  }

  /** Every survivor keeps its slot, its flags, its length and its bytes; every killed slot is free. */
  lemma SurvivorsKept(p: Page, dead: seq<nat>, s: nat)
    requires PageOk(p) && s < |p.lps|
    ensures var q := Compacted(p, dead);
      && |q.lps| == |p.lps| && |q.data| == |p.data|
      && (Survives(p, dead, s) ==> q.lps[s].flag == p.lps[s].flag && q.lps[s].len == p.lps[s].len && Within(q, s))
      && (Survives(p, dead, s) ==>
         q.special <= |q.data| && p.special <= |p.data| && Within(p, s) && TupleBytes(q, s) == TupleBytes(p, s))
      && (!Survives(p, dead, s) && (Used(p.lps[s]) || s in dead) ==> q.lps[s].flag.Unused?)
      && (!Used(p.lps[s]) && s !in dead ==> q.lps[s] == p.lps[s])
  {
    TuplesInPage(p);
    LiveBytesFit(p, dead);
    LiveBytesMonotone(p, dead, s + 1, |p.lps|);
    var q := Compacted(p, dead);
    assert q.lps[s] == Repointed(p, dead, s) && q.special == p.special &&
           q.upper == p.special - LiveBytes(p, dead, |p.lps|);
    assert |q.data| == |p.data|;
    if Survives(p, dead, s) {
      SurvivorBytes(p, dead, s);
    }
    hide Compacted, Region, LiveBytes;
  }

  lemma Window<T>(pre: seq<T>, mid: seq<T>, post: seq<T>, at: nat, len: nat)
    requires at + len <= |mid|
    ensures (pre + mid + post)[|pre| + at..|pre| + at + len] == mid[at..at + len]
  {
  }

  /** The compacted page is a sound page, its survivors packed against `pd_special`. */
  lemma CompactedOk(p: Page, dead: seq<nat>)
    requires PageOk(p)
    ensures PageOk(Compacted(p, dead)) && Compacted(p, dead).upper == p.special - LiveBytes(p, dead, |p.lps|)
  {
    var q := Compacted(p, dead);
    LiveBytesFit(p, dead);
    TuplesInPage(p);
    forall s | 0 <= s < |q.lps| && Used(q.lps[s]) ensures Within(q, s) { SurvivorsKept(p, dead, s); }
    forall s, t | 0 <= s < t < |q.lps| && Used(q.lps[s]) && Used(q.lps[t]) ensures Apart(q.lps[s], q.lps[t]) {
      SurvivorsKept(p, dead, s);
      SurvivorsKept(p, dead, t);
      LiveBytesMonotone(p, dead, s + 1, t);
    }
  }

  lemma {:induction false} SameSurvivors(p: Page, dead: seq<nat>, n: nat)
    requires PageOk(p) && PageOk(Compacted(p, dead)) && n <= |p.lps| && |Compacted(p, dead).lps| == |p.lps|
    requires forall s :: 0 <= s < n && Used(p.lps[s]) ==> p.lps[s].off + p.lps[s].len <= |p.data|
    requires var q := Compacted(p, dead); forall s :: 0 <= s < n && Used(q.lps[s]) ==>
      q.lps[s].off + q.lps[s].len <= |q.data|
    ensures LiveBytes(Compacted(p, dead), [], n) == LiveBytes(p, dead, n)
    ensures Region(Compacted(p, dead), [], n) == Region(p, dead, n)
    decreases n
  {
    hide Compacted, Region, LiveBytes, TupleBytes;
    if n == 0 {
      RegionStarts(p, dead);
      RegionStarts(Compacted(p, dead), []);
    } else {
      SameSurvivors(p, dead, n - 1);
      SurvivorsKept(p, dead, n - 1);
      RegionStep(p, dead, n - 1);
      RegionStep(Compacted(p, dead), [], n - 1);
    }
  }

  /** The compacted page field by field. */
  lemma CompactedParts(p: Page, dead: seq<nat>)
    requires PageOk(p)
    ensures var q, live := Compacted(p, dead), LiveBytes(p, dead, |p.lps|);
      && |q.lps| == |p.lps| && q.special == p.special && live <= p.special - p.upper && q.upper == p.special - live
      && p.special <= |p.data|
      && (forall s :: 0 <= s < |p.lps| && Used(p.lps[s]) ==> p.lps[s].off + p.lps[s].len <= |p.data|)
      && q.data == p.data[..p.upper] + Zeros(p.special - p.upper - live) + Region(p, dead,
         |p.lps|) + p.data[p.special..]
  {
    TuplesInPage(p);
    LiveBytesFit(p, dead);
  }

  lemma CompactedAt(p: Page, dead: seq<nat>, s: nat)
    requires PageOk(p) && s < |p.lps|
    ensures LiveBytes(p, dead, s + 1) <= p.special && |Compacted(p, dead).lps| == |p.lps|
    ensures Compacted(p, dead).lps[s] == Repointed(p, dead, s)
  {
    LiveBytesFit(p, dead);
    LiveBytesMonotone(p, dead, s + 1, |p.lps|);
    hide LiveBytes, Region;
  }

  lemma SamePointer(p: Page, dead: seq<nat>, s: nat)
    requires PageOk(p) && PageOk(Compacted(p, dead)) && s < |p.lps|
    ensures var q := Compacted(p, dead);
      |q.lps| == |p.lps| == |Compacted(q, []).lps| && Compacted(q, []).lps[s] == q.lps[s]
  {
    hide Compacted, Region, LiveBytes;
    var q := Compacted(p, dead);
    CompactedParts(p, dead);
    TuplesInPage(q);
    CompactedAt(p, dead, s);
    CompactedAt(q, [], s);
    SameSurvivors(p, dead, s + 1);
  }

  lemma Reassembled<T>(a: seq<T>, b: seq<T>, c: seq<T>)
    ensures var all := a + b + c; all[..|a|] + [] + b + all[|a| + |b|..] == all
  {
  }

  lemma SameData(p: Page, dead: seq<nat>)
    requires PageOk(p) && PageOk(Compacted(p, dead))
    ensures Compacted(Compacted(p, dead), []).data == Compacted(p, dead).data
  {
    hide Compacted, Region, LiveBytes;
    var q := Compacted(p, dead);
    CompactedParts(p, dead);
    CompactedParts(q, []);
    SameSurvivors(p, dead, |p.lps|);
    Reassembled(p.data[..p.upper] + Zeros(q.upper - p.upper), Region(p, dead, |p.lps|), p.data[p.special..]);
    assert Zeros(0) == [];
  }

  /** Compacting again with nothing to kill changes nothing. */
  lemma CompactIdempotent(p: Page, dead: seq<nat>)
    requires PageOk(p)
    ensures PageOk(Compacted(p, dead)) && Compacted(Compacted(p, dead), []) == Compacted(p, dead)
  {
    hide Compacted, Region, LiveBytes, PageOk;
    var q := Compacted(p, dead);
    CompactedOk(p, dead);
    CompactedParts(p, dead);
    CompactedParts(q, []);
    TuplesInPage(q);
    SameSurvivors(p, dead, |p.lps|);
    SameData(p, dead);
    forall s | 0 <= s < |q.lps| ensures Compacted(q, []).lps[s] == q.lps[s] {
      SamePointer(p, dead, s);
    }
  }

  // ---------------------------------------------------------------- compaction in place

  /** The line pointer of slot `t` once the survivors among the first `n` slots are back. */
  ghost function Restaged(p: Page, dead: seq<nat>, n: nat, t: nat): LinePointer
    requires n <= |p.lps| && t < |p.lps| && LiveBytes(p, dead, n) <= p.special
  {
    if t < n && Survives(p, dead, t) then
      LiveBytesMonotone(p, dead, t + 1, n);
      p.lps[t].(off := p.special - LiveBytes(p, dead, t + 1))
    else p.lps[t]
  }

  /** Ascending, in range, and every slot holding a tuple. */
  ghost predicate KillListOk(p: Page, dead: seq<nat>) {
    && (forall i, j :: 0 <= i < j < |dead| ==> dead[i] < dead[j])
    && (forall i :: 0 <= i < |dead| ==> dead[i] < |p.lps| && (p.lps[dead[i]].flag.Normal? || p.lps[dead[i]].flag.Dead?))
  }

  /** Copy `bytes` into the array at `at`. */
  method Blit(a: array<byte>, at: nat, bytes: seq<byte>)
    requires at + |bytes| <= a.Length
    modifies a
    ensures a[..] == old(a[..at]) + bytes + old(a[at + |bytes|..])
  {
    var k := 0;
    while k < |bytes|
      invariant 0 <= k <= |bytes|
      invariant forall i :: 0 <= i < k ==> a[at + i] == bytes[i]
      invariant forall i :: 0 <= i < a.Length && !(at <= i < at + k) ==> a[i] == old(a[i])
    {
      a[at + k] := bytes[k];
      k := k + 1;
    }
  }

  predicate Placeable(p: Page, slot: nat, bytes: seq<byte>) {
    && bytes != [] && |bytes| + PAGE_HEADER_SIZE + LINE_POINTER_SIZE <= p.special
    && slot <= |p.lps| && (slot < |p.lps| ==> !Used(p.lps[slot]))
    && Lower(p) + |bytes| + (if slot == |p.lps| then LINE_POINTER_SIZE else 0) <= p.upper
  }

  /** The tuple sits in its slot, every other slot keeps its pointer and, if used, its bytes. */
  ghost predicate Placed(p: Page, q: Page, slot: nat, bytes: seq<byte>) {
    && q.special == p.special && |q.data| == |p.data| && |q.lps| == (if slot == |p.lps| then |p.lps| + 1 else |p.lps|)
    && slot < |q.lps| && q.lps[slot].flag.Normal? && q.lps[slot].off + q.lps[slot].len <= |q.data|
    && TupleBytes(q, slot) == bytes
    && (forall s :: 0 <= s < |p.lps| && s != slot ==> q.lps[s] == p.lps[s])
    && (forall s :: 0 <= s < |p.lps| && s != slot && Used(p.lps[s]) ==>
          p.lps[s].off + p.lps[s].len <= |p.data| && TupleBytes(q, s) == TupleBytes(p, s))
  }

  lemma PlacedOk(p: Page, q: Page, slot: nat, bytes: seq<byte>)
    requires PageOk(p) && Placeable(p, slot, bytes) && q.special == p.special && q.upper == p.upper - |bytes|
    requires q.data == p.data[..q.upper] + bytes + p.data[p.upper..]
    requires var lp := LinePointer(q.upper, Normal, |bytes|);
      q.lps == if slot == |p.lps| then p.lps + [lp] else p.lps[slot := lp]
    ensures PageOk(q) && Placed(p, q, slot, bytes)
  {
    TuplesInPage(p);
    assert q.lps[slot] == LinePointer(q.upper, Normal, |bytes|);
    assert forall s :: 0 <= s < |p.lps| && s != slot ==> q.lps[s] == p.lps[s];
    forall s | 0 <= s < |p.lps| && s != slot && Used(p.lps[s])
      ensures Within(p, s) && TupleBytes(q, s) == TupleBytes(p, s) && Apart(q.lps[s], q.lps[slot])
    {
      assert Within(p, s);
    }
    assert TupleBytes(q, slot) == bytes;
  }

  class SlottedPage {
    var lps: seq<LinePointer>
    var upper: nat
    const special: nat
    const data: array<byte>

    ghost function View(): Page
      reads this, data
    {
      Page(lps, upper, special, data[..])
    }

    /** `first_fit_slot`: the lowest recyclable slot. */
    method FirstFitSlot() returns (r: Option<nat>)
      ensures r.Some? ==> r.value < |lps| && !Used(lps[r.value]) && forall s :: 0 <= s < r.value ==> Used(lps[s])
      ensures r.None? ==> forall s :: 0 <= s < |lps| ==> Used(lps[s])
    {
      var slot := 0;
      while slot < |lps|
        invariant 0 <= slot <= |lps| && forall s :: 0 <= s < slot ==> Used(lps[s])
      {
        if !Used(lps[slot]) {
          return Some(slot);
        }
        slot := slot + 1;
      }
      r := None;
    }

    /** `add_tuple_at`: append a line pointer or recycle an unused one, never overwrite a used one. */
    method AddTupleAt(slot: nat, bytes: seq<byte>) returns (r: Result<(), SlotError>)
      requires PageOk(View())
      modifies this, data
      ensures r.Ok? <==> Placeable(old(View()), slot, bytes)
      ensures r.Err? ==> View() == old(View())
      ensures r.Ok? ==> PageOk(View()) && Placed(old(View()), View(), slot, bytes)
    {
      ghost var p := View();
      if |bytes| == 0 {
        return Err(EmptyTuple);
      }
      if |bytes| + PAGE_HEADER_SIZE + LINE_POINTER_SIZE > special {
        return Err(TooLarge);
      }
      if slot > |lps| || (slot < |lps| && Used(lps[slot])) {
        return Err(InvalidSlot);
      }
      var cost := if slot == |lps| then LINE_POINTER_SIZE else 0;
      if upper < PAGE_HEADER_SIZE + LINE_POINTER_SIZE * |lps| + |bytes| + cost {
        return Err(PageFull);
      }
      upper := upper - |bytes|;
      Blit(data, upper, bytes);
      var lp := LinePointer(upper, Normal, |bytes|);
      lps := if slot == |lps| then lps + [lp] else lps[slot := lp];
      PlacedOk(p, View(), slot, bytes);
      r := Ok(());
    }

    method ValidateKillList(dead: seq<nat>) returns (r: Result<(), SlotError>)
      ensures r.Ok? <==> KillListOk(View(), dead)
    {
      var k := 0;
      while k < |dead|
        invariant 0 <= k <= |dead|
        invariant forall i, j :: 0 <= i < j < k ==> dead[i] < dead[j]
        invariant forall i :: 0 <= i < k ==> dead[i] < |lps| && (lps[dead[i]].flag.Normal? || lps[dead[i]].flag.Dead?)
      {
        if k > 0 && dead[k] <= dead[k - 1] {
          return Err(NotAscending);
        }
        if dead[k] >= |lps| || !(lps[dead[k]].flag.Normal? || lps[dead[k]].flag.Dead?) {
          return Err(InvalidSlot);
        }
        k := k + 1;
      }
      r := Ok(());
    }

    /** The survivors' bytes, copied out, slot by slot. */
    method Stage(dead: seq<nat>) returns (staged: seq<Option<seq<byte>>>)
      requires PageOk(View())
      ensures |staged| == |lps|
      ensures forall s :: 0 <= s < |lps| && Used(lps[s]) ==> lps[s].off + lps[s].len <= data.Length
      ensures forall s :: 0 <= s < |lps| ==>
        staged[s] == if Survives(View(), dead, s) then Some(TupleBytes(View(), s)) else None
    {
      TuplesInPage(View());
      staged := [];
      var slot := 0;
      while slot < |lps|
        invariant 0 <= slot <= |lps| && |staged| == slot
        invariant forall s :: 0 <= s < slot ==>
          staged[s] == if Survives(View(), dead, s) then Some(TupleBytes(View(), s)) else None
      {
        var lp := lps[slot];
        staged := staged + [if Used(lp) && slot !in dead then Some(data[lp.off..lp.off + lp.len]) else None];
        slot := slot + 1;
      }
    }

    /** Zero the data area. */
    method Clear()
      requires upper <= special <= data.Length
      modifies data
      ensures data[..] == old(data[..upper]) + Zeros(special - upper) + old(data[special..])
    {
      Blit(data, upper, Zeros(special - upper));
    }

    /** Restage the copied tuples in slot order, packed down from `pd_special`. */
    method Restage(staged: seq<Option<seq<byte>>>, ghost p: Page, ghost dead: seq<nat>) returns (cursor: nat)
      requires p.lps == lps && p.special == special <= data.Length && |staged| == |lps|
      requires LiveBytes(p, dead, |lps|) <= special
      requires forall s :: 0 <= s < |lps| && Used(lps[s]) ==> lps[s].off + lps[s].len <= |p.data|
      requires forall s :: 0 <= s < |lps| ==> staged[s] == if Survives(p, dead, s) then Some(TupleBytes(p, s)) else None
      modifies `lps, data
      ensures cursor == special - LiveBytes(p, dead, |p.lps|) && |lps| == |p.lps|
      ensures forall t :: 0 <= t < |lps| ==> lps[t] == Restaged(p, dead, |p.lps|, t)
      ensures data[..] == old(data[..cursor]) + Region(p, dead, |p.lps|) + old(data[special..])
    {
      hide Region, LiveBytes, TupleBytes;
      RegionStarts(p, dead);
      ghost var orig := data[..];
      cursor := special;
      var slot := 0;
      while slot < |lps|
        invariant 0 <= slot <= |lps| == |p.lps| && LiveBytes(p, dead, slot) <= special
        invariant cursor == special - LiveBytes(p, dead, slot)
        invariant forall t :: 0 <= t < |lps| ==> lps[t] == Restaged(p, dead, slot, t)
        invariant data[..] == orig[..cursor] + Region(p, dead, slot) + orig[special..]
      {
        LiveBytesMonotone(p, dead, slot + 1, |p.lps|);
        RegionStep(p, dead, slot);
        if staged[slot].Some? {
          ghost var was := data[..];
          var bytes := staged[slot].value;
          cursor := cursor - |bytes|;
          Blit(data, cursor, bytes);
          Slide(orig, was, cursor, bytes, Region(p, dead, slot), special);
          lps := lps[slot := lps[slot].(off := cursor)];
        }
        slot := slot + 1;
      }
    }

    /** The kill loop: flags only, offsets and lengths stay for forensics. */
    method Kill(dead: seq<nat>)
      requires forall i :: 0 <= i < |dead| ==> dead[i] < |lps|
      modifies `lps
      ensures |lps| == |old(lps)|
      ensures forall t :: 0 <= t < |lps| ==> lps[t] == if t in dead then old(lps)[t].(flag := Unused) else old(lps)[t]
    {
      var k := 0;
      while k < |dead|
        invariant 0 <= k <= |dead| && |lps| == |old(lps)|
        invariant forall t :: 0 <= t < |lps| ==>
          lps[t] == if t in dead[..k] then old(lps)[t].(flag := Unused) else old(lps)[t]
      {
        lps := lps[dead[k] := lps[dead[k]].(flag := Unused)];
        assert dead[..k + 1] == dead[..k] + [dead[k]];
        k := k + 1;
      }
      assert dead[..|dead|] == dead;
    }

    /** `compact`. */
    method Compact(dead: seq<nat>) returns (r: Result<(), SlotError>)
      requires PageOk(View())
      modifies this, data
      ensures r.Ok? <==> KillListOk(old(View()), dead)
      ensures r.Ok? ==> View() == Compacted(old(View()), dead)
      ensures r.Err? ==> View() == old(View())
    {
      r := ValidateKillList(dead);
      if r.Err? {
        return;
      }
      ghost var p := View();
      LiveBytesFit(p, dead);
      var staged := Stage(dead);
      Clear();
      ghost var cleared := data[..];
      var cursor := Restage(staged, p, dead);
      Kill(dead);
      upper := cursor;
      CompactedIs(p, dead, cleared, View());
    }
  }

  /** Cleared, restaged and killed is compacted. */
  lemma CompactedIs(p: Page, dead: seq<nat>, cleared: seq<byte>, q: Page)
    requires PageOk(p) && LiveBytes(p, dead, |p.lps|) <= p.special - p.upper
    requires forall s :: 0 <= s < |p.lps| && Used(p.lps[s]) ==> p.lps[s].off + p.lps[s].len <= |p.data|
    requires cleared == p.data[..p.upper] + Zeros(p.special - p.upper) + p.data[p.special..]
    requires q.special == p.special && q.upper == p.special - LiveBytes(p, dead, |p.lps|) && |q.lps| == |p.lps|
    requires q.data == cleared[..q.upper] + Region(p, dead, |p.lps|) + cleared[p.special..]
    requires forall t :: 0 <= t < |q.lps| ==>
      q.lps[t] == if t in dead then Restaged(p, dead, |p.lps|, t).(flag := Unused) else Restaged(p, dead, |p.lps|, t)
    ensures q == Compacted(p, dead)
  {
    var c := Compacted(p, dead);
    forall t | 0 <= t < |q.lps| ensures q.lps[t] == c.lps[t] {
      LiveBytesMonotone(p, dead, t + 1, |p.lps|);
    }
    assert cleared[..q.upper] == p.data[..p.upper] + Zeros(q.upper - p.upper);
    assert cleared[p.special..] == p.data[p.special..];
  }

  lemma Slide(orig: seq<byte>, was: seq<byte>, cursor: nat, bytes: seq<byte>, packed: seq<byte>, special: nat)
    requires cursor + |bytes| + |packed| == special <= |orig|
    requires was == orig[..cursor + |bytes|] + packed + orig[special..]
    ensures was[..cursor] + bytes + was[cursor + |bytes|..] == orig[..cursor] + (bytes + packed) + orig[special..]
  {
  }
}
