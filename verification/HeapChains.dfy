/** HOT chains across crashes: the records of a run keep the chains of every page well formed, a HOT update record
    appends one version to its chain, and replay ends with the chains the writer had. */
module HeapChains {
  import opened Entries
  import opened RowLocks
  import opened HeapRedo
  import HotChains

  /** The indexed columns of a row, from its bytes. */
  type KeyOf = seq<byte> -> nat

  function RowOf(v: Version, key: KeyOf): HotChains.Row {
    HotChains.Row(v.heapOnly, v.hotUpdated, v.ctid, key(v.body))
  }

  /** A page as its chains see it. */
  function RowsOf(p: HeapPage, key: KeyOf): (rows: HotChains.Rows)
    ensures |rows| == |p.slots|
    ensures forall s :: 0 <= s < |p.slots| ==>
      rows[s] == if p.slots[s].Some? then Some(RowOf(p.slots[s].value, key)) else None
  {
    seq(|p.slots|, s requires 0 <= s < |p.slots| =>
      if p.slots[s].Some? then Some(RowOf(p.slots[s].value, key)) else None)
  }

  /** What the heap writes: a plain version links to nothing, a HOT version is heap-only with the indexed columns of the
      version it follows, and vacuum kills whole chains. */
  ghost predicate ChainWise(e: Event, id: PageId, p: HeapPage, key: KeyOf) {
    Touches(e, id) && Fits(e, id, p) ==>
      match e
      case Insert(_, _, v) => !v.hotUpdated
      case Update(_, _, into, _, _, _, v) => id == into ==> !v.hotUpdated
      case HotUpdate(_, s, _, _, _, v) =>
        v.heapOnly && !v.hotUpdated && key(v.body) == key(p.slots[s].value.body)
      case Cleanup(page, dead, _, _) => id == page ==> HotChains.WholeChains(RowsOf(p, key), HotChains.Members(dead))
      case _ => true
  }

  /** The birth order of the versions on a page after an event. */
  ghost function BornNext(e: Event, id: PageId, p: HeapPage, born: seq<nat>, clock: nat): seq<nat>
    requires |born| == |p.slots|
  {
    if !Touches(e, id) || !Fits(e, id, p) then born else
      match e
      case Insert(_, s, _) => HotChains.PutBorn(born, s, clock)
      case Update(_, _, into, t, _, _, _) => if id == into then HotChains.PutBorn(born, t, clock) else born
      case HotUpdate(_, _, t, _, _, _) => HotChains.PutBorn(born, t, clock)
      case Image(_, _, image) => if |image.slots| == |born| then born else seq(|image.slots|, _ => 0)
      case _ => born
  }

  lemma SameRows(p: HeapPage, q: HeapPage, key: KeyOf)
    requires |p.slots| == |q.slots|
    requires forall s :: 0 <= s < |p.slots| ==>
      p.slots[s].Some? == q.slots[s].Some? &&
        (p.slots[s].Some? ==> RowOf(p.slots[s].value, key) == RowOf(q.slots[s].value, key))
    ensures RowsOf(p, key) == RowsOf(q, key)
  {
  }

  lemma LaterClock(rows: HotChains.Rows, born: seq<nat>, clock: nat)
    requires HotChains.ChainsOk(rows, born, clock)
    ensures HotChains.ChainsOk(rows, born, clock + 1)
  {
  }

  lemma AddRows(p: HeapPage, s: nat, v: Version, key: KeyOf)
    requires Placeable(p, s, v)
    ensures RowsOf(Add(p, s, v), key) == HotChains.Put(RowsOf(p, key), s, RowOf(v, key))
    ensures HotChains.Unused(RowsOf(p, key), s)
  {
  }

  lemma DeletedRows(p: HeapPage, s: nat, xid: Xid, cid: Option<nat>, updated: bool, key: KeyOf)
    requires Holds(p, s)
    ensures RowsOf(StampDeleted(p, s, xid, cid, updated), key) == RowsOf(p, key)
  {
  }

  lemma HotRows(p: HeapPage, s: nat, t: nat, xid: Xid, cid: Option<nat>, v: Version, key: KeyOf)
    requires Holds(p, s) && Placeable(p, t, v)
    ensures RowsOf(Add(StampHotUpdate(p, s, t, xid, cid), t, v), key)
         == HotChains.Relinked(RowsOf(p, key), s, t, RowOf(v, key))
  {
  }

  lemma SweptRows(p: HeapPage, dead: seq<nat>, key: KeyOf)
    ensures RowsOf(Compact(p, dead), key) == HotChains.Killed(RowsOf(p, key), HotChains.Members(dead))
  {
  }

  ghost predicate WellChained(p: HeapPage, born: seq<nat>, clock: nat, key: KeyOf) {
    HotChains.ChainsOk(RowsOf(p, key), born, clock)
  }

  /** Every event keeps chains well formed. */
  lemma EventKeepsChains(e: Event, id: PageId, p: HeapPage, born: seq<nat>, clock: nat, lost: set<Xid>, key: KeyOf,
                         redo: bool)
    requires WellChained(p, born, clock, key) && Ready(e, id, p, lost) && ChainWise(e, id, p, key)
    ensures WellChained(Effect(e, id, p, redo), BornNext(e, id, p, born, clock), clock + 1, key)
  {
    var rows, q := RowsOf(p, key), Effect(e, id, p, redo);
    LaterClock(rows, born, clock);
    if Touches(e, id) {
      match e
      case Insert(_, s, v) =>
        AddRows(p, s, v, key);
        HotChains.PutKeeps(rows, born, clock, s, RowOf(v, key));
      case Update(from, s, into, t, xid, cid, v) =>
        var known := if redo then None else Some(cid);
        if id == from { DeletedRows(p, s, xid, known, true, key); }
        if id == into {
          AddRows(if id == from then StampDeleted(p, s, xid, known, true) else p, t, v, key);
          HotChains.PutKeeps(rows, born, clock, t, RowOf(v, key));
        }
      case Delete(_, s, xid, cid) => DeletedRows(p, s, xid, if redo then None else Some(cid), false, key);
      case HotUpdate(_, s, t, xid, cid, v) =>
        HotRows(p, s, t, xid, if redo then None else Some(cid), v, key);
        HotChains.RelinkKeeps(rows, born, clock, s, t, RowOf(v, key));
      case Cleanup(page, dead, _, _) =>
        if id == page {
          SweptRows(p, dead, key);
          HotChains.WholeKeeps(rows, born, clock + 1, HotChains.Members(dead));
        } else {
          SameRows(q, p, key);
        }
      case Image(_, how, image) =>
        if !how.Init? { SameRows(q, p, key); }
      case Lock(_, s, stamp, cid) => SameRows(q, p, key);
    }
  }

  /** A HOT update appends its new version to the chain of the old one, written or redone. */
  lemma HotUpdateAppends(e: Event, p: HeapPage, born: seq<nat>, clock: nat, lost: set<Xid>, key: KeyOf, redo: bool,
                         s: nat)
    requires e.HotUpdate? && WellChained(p, born, clock, key)
    requires Ready(e, e.page, p, lost) && ChainWise(e, e.page, p, key)
    requires !p.slots[e.oldSlot].value.hotUpdated && Holds(p, s)
    ensures var q, now := Effect(e, e.page, p, redo), BornNext(e, e.page, p, born, clock);
      && WellChained(q, now, clock + 1, key) && Holds(q, s)
      && var c := HotChains.Chain(RowsOf(p, key), born, clock, s);
         HotChains.Chain(RowsOf(q, key), now, clock + 1, s) == if e.oldSlot in c then c + [e.newSlot] else c
  {
    EventKeepsChains(e, e.page, p, born, clock, lost, key, redo);
    HotRows(p, e.oldSlot, e.newSlot, e.xid, if redo then None else Some(e.cid), e.v, key);
    HotChains.ChainGrows(RowsOf(p, key), born, clock, e.oldSlot, e.newSlot, RowOf(e.v, key), s);
  }

  ghost predicate RunChainWise(run: seq<Event>, key: KeyOf) {
    forall k, id :: 0 <= k < |run| ==> ChainWise(run[k], id, PageAfter(run, id, k), key)
  }

  ghost function BornAfter(run: seq<Event>, id: PageId, k: nat): (born: seq<nat>)
    requires k <= |run|
    ensures |born| == |PageAfter(run, id, k).slots|
  {
    if k == 0 then [] else
      var p := PageAfter(run, id, k - 1);
      BornNext(run[k - 1], id, p, BornAfter(run, id, k - 1), k)
  }

  /** At every point of a run every page has well-formed chains. */
  lemma {:induction false} RunKeepsChains(run: seq<Event>, lost: set<Xid>, key: KeyOf, id: PageId, k: nat)
    requires ValidRun(run, lost) && RunChainWise(run, key) && k <= |run|
    ensures WellChained(PageAfter(run, id, k), BornAfter(run, id, k), k + 1, key)
    decreases k
  {
    if k > 0 {
      var p, e := PageAfter(run, id, k - 1), run[k - 1];
      RunKeepsChains(run, lost, key, id, k - 1);
      assert Ready(e, id, p, lost) && ChainWise(e, id, p, key);
      EventKeepsChains(e, id, p, BornAfter(run, id, k - 1), k, lost, key, false);
      SameRows(PageAfter(run, id, k), Effect(e, id, p, false), key);
    }
  }

  /** A replayed page has the writer's chains: well formed, version by version the same. */
  lemma ReplayedChains(run: seq<Event>, lost: set<Xid>, key: KeyOf, id: PageId, n: nat, p: HeapPage)
    requires ValidRun(run, lost) && RunChainWise(run, key) && n <= |run| && Alike(p, PageAfter(run, id, n), lost)
    ensures WellChained(p, BornAfter(run, id, n), n + 1, key)
    ensures WellChained(PageAfter(run, id, n), BornAfter(run, id, n), n + 1, key)
    ensures forall s :: Holds(p, s) <==> Holds(PageAfter(run, id, n), s)
    ensures forall s :: Holds(p, s) ==>
      HotChains.Chain(RowsOf(p, key), BornAfter(run, id, n), n + 1, s)
      == HotChains.Chain(RowsOf(PageAfter(run, id, n), key), BornAfter(run, id, n), n + 1, s)
  {
    RunKeepsChains(run, lost, key, id, n);
    var q := PageAfter(run, id, n);
    forall s | 0 <= s < |p.slots|
      ensures p.slots[s].Some? == q.slots[s].Some? &&
        (p.slots[s].Some? ==> RowOf(p.slots[s].value, key) == RowOf(q.slots[s].value, key))
    {
      assert AlikeSlot(p.slots[s], q.slots[s], lost);
    }
    SameRows(p, q, key);
  }
}
