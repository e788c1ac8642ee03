/** Vacuum's page release: emptied pages are spliced out of the relation's page chain and handed to the free list, in
    that order, and the log of the pass is safe to cut anywhere. */
module Reclaim {
  import opened Entries
  import opened FiniteSets

  /** The durable side: chain links, the slots in use on each page, and the allocator's free list. */
  datatype Disk = Disk(next: map<PageId, PageId>, used: map<PageId, set<nat>>, free: set<PageId>)

  /** `Cleanup` kills slots and, with a predecessor, splices the page out; `Free` is the allocator's record. */
  datatype Rec = Cleanup(page: PageId, kills: set<nat>, prev: PageId, next: PageId) | Free(page: PageId)

  datatype ReclaimError = Corrupted

  function NextOf(d: Disk, p: PageId): PageId {
    if p in d.next then d.next[p] else INVALID
  }

  function UsedOf(d: Disk, p: PageId): set<nat> {
    if p in d.used then d.used[p] else {}
  }

  function After(d: Disk, rec: Rec): Disk {
    match rec
    case Cleanup(page, kills, prev, next) =>
      d.(used := d.used[page := UsedOf(d, page) - kills],
        next := if prev != INVALID then d.next[prev := next] else d.next)
    case Free(page) => d.(free := d.free + {page})
  }

  function Replayed(d: Disk, log: seq<Rec>): Disk {
    if log == [] then d else After(Replayed(d, log[..|log| - 1]), log[|log| - 1])
  }

  ghost predicate LinkIs(d: Disk, chain: seq<PageId>, i: nat)
    requires i < |chain|
  {
    chain[i] != INVALID && NextOf(d, chain[i]) == if i + 1 < |chain| then chain[i + 1] else INVALID
  }

  /** The links from `chain[0]` visit exactly `chain`, each page once. */
  ghost predicate ChainIs(d: Disk, chain: seq<PageId>) {
    && |chain| > 0
    && (forall i, j :: 0 <= i < j < |chain| ==> chain[i] != chain[j])
    && (forall i :: 0 <= i < |chain| ==> LinkIs(d, chain, i))
  }

  ghost predicate Apart(d: Disk, chain: seq<PageId>) {
    forall i :: 0 <= i < |chain| ==> chain[i] !in d.free
  }

  /** No page is both reachable from the head and on the free list. */
  ghost predicate Safe(d: Disk, head: PageId) {
    exists chain :: ChainIs(d, chain) && chain[0] == head && Apart(d, chain)
  }

  /** The links determine the chain: what is safe is safe for the one chain there is. */
  lemma {:induction false} ChainUnique(d: Disk, a: seq<PageId>, b: seq<PageId>, i: nat)
    requires ChainIs(d, a) && ChainIs(d, b) && a[0] == b[0] && i < |a|
    ensures i < |b| && a[i] == b[i]
  {
    if i > 0 {
      ChainUnique(d, a, b, i - 1);
      assert LinkIs(d, a, i - 1) && LinkIs(d, b, i - 1) && LinkIs(d, a, i);
    }
  }

  /** However the log of the pass is cut, replay of what is left gives a safe relation. */
  ghost predicate SafeLog(d: Disk, log: seq<Rec>, head: PageId) {
    forall k :: 0 <= k <= |log| ==> Safe(Replayed(d, log[..k]), head)
  }

  lemma SafeAppend(d: Disk, log: seq<Rec>, rec: Rec, head: PageId)
    requires SafeLog(d, log, head) && Safe(After(Replayed(d, log), rec), head)
    ensures SafeLog(d, log + [rec], head) && Replayed(d, log + [rec]) == After(Replayed(d, log), rec)
  {
    var more := log + [rec];
    assert more[..|log|] == log;
    forall k | 0 <= k <= |more| ensures Safe(Replayed(d, more[..k]), head) {
      if k <= |log| { assert more[..k] == log[..k]; } else { assert more[..k] == more; }
    }
  }

  lemma {:induction false} ReplayedConcat(d: Disk, a: seq<Rec>, b: seq<Rec>)
    ensures Replayed(d, a + b) == Replayed(Replayed(d, a), b)
  {
    if b == [] {
      assert a + b == a;
    } else {
      var init, last := b[..|b| - 1], b[|b| - 1];
      assert (a + b)[..|a + b| - 1] == a + init;
      ReplayedConcat(d, a, init);
    }
  }

  lemma SafeConcat(d: Disk, a: seq<Rec>, b: seq<Rec>, head: PageId)
    requires SafeLog(d, a, head) && SafeLog(Replayed(d, a), b, head)
    ensures SafeLog(d, a + b, head)
  {
    forall k | 0 <= k <= |a + b| ensures Safe(Replayed(d, (a + b)[..k]), head) {
      if k <= |a| {
        assert (a + b)[..k] == a[..k];
      } else {
        assert (a + b)[..k] == a + b[..k - |a|];
        ReplayedConcat(d, a, b[..k - |a|]);
      }
    }
  }

  // ---------------------------------------------------------------- what is left of a chain

  function Without(chain: seq<PageId>, removed: set<PageId>): seq<PageId> {
    if chain == [] then []
    else (if chain[0] in removed then [] else [chain[0]]) + Without(chain[1..], removed)
  }

  lemma {:induction false} WithoutMember(chain: seq<PageId>, removed: set<PageId>, p: PageId)
    ensures p in Without(chain, removed) <==> p in chain && p !in removed
  {
    if chain != [] { WithoutMember(chain[1..], removed, p); }
  }

  lemma {:induction false} WithoutConcat(a: seq<PageId>, b: seq<PageId>, removed: set<PageId>)
    ensures Without(a + b, removed) == Without(a, removed) + Without(b, removed)
  {
    if a == [] {
      assert a + b == b;
    } else {
      assert (a + b)[1..] == a[1..] + b;
      WithoutConcat(a[1..], b, removed);
    }
  }

  lemma {:induction false} WithoutMore(a: seq<PageId>, removed: set<PageId>, page: PageId)
    requires page !in a
    ensures Without(a, removed + {page}) == Without(a, removed)
  {
    if a != [] { WithoutMore(a[1..], removed, page); }
  }

  lemma {:induction false} WithoutTwice(a: seq<PageId>, removed: set<PageId>, page: PageId)
    ensures Without(Without(a, removed), {page}) == Without(a, removed + {page})
  {
    if a != [] {
      WithoutTwice(a[1..], removed, page);
      var one := if a[0] in removed then [] else [a[0]];
      WithoutConcat(one, Without(a[1..], removed), {page});
    }
  }

  lemma {:induction false} AllGone(a: seq<PageId>, removed: set<PageId>)
    requires forall p :: p in a ==> p in removed
    ensures Without(a, removed) == []
  {
    if a != [] { AllGone(a[1..], removed); }
  }

  lemma {:induction false} NothingGone(a: seq<PageId>)
    ensures Without(a, {}) == a
  {
    if a != [] { NothingGone(a[1..]); }
  }

  lemma WithoutParts(a: seq<PageId>, x: PageId, b: seq<PageId>, y: PageId, c: seq<PageId>, removed: set<PageId>)
    requires Without(b, removed) == []
    ensures Without(a + [x] + b + [y] + c, removed)
      == Without(a, removed) + Without([x], removed) + Without([y], removed) + Without(c, removed)
  {
    hide Without;
    WithoutConcat(a + [x] + b + [y], c, removed);
    WithoutConcat(a + [x] + b, [y], removed);
    WithoutConcat(a + [x], b, removed);
    WithoutConcat(a, [x], removed);
  }

  lemma WithoutOne(x: PageId, removed: set<PageId>)
    ensures Without([x], removed) == if x in removed then [] else [x]
  {
  }

  /** A page still chained, with its nearest chained left neighbour: before it is removed. */
  lemma Around(a: seq<PageId>, x: PageId, b: seq<PageId>, y: PageId, c: seq<PageId>, removed: set<PageId>)
    requires x !in removed && y !in removed && forall p :: p in b ==> p in removed
    ensures Without(a + [x] + b + [y] + c, removed) == Without(a, removed) + [x] + [y] + Without(c, removed)
  {
    AllGone(b, removed);
    WithoutOne(x, removed);
    WithoutOne(y, removed);
    hide Without;
    WithoutParts(a, x, b, y, c, removed);
  }

  /** And after. */
  lemma Removed(a: seq<PageId>, x: PageId, b: seq<PageId>, y: PageId, c: seq<PageId>, removed: set<PageId>)
    requires x !in removed && y !in removed && x != y && y !in a && y !in c
    requires forall p :: p in b ==> p in removed
    ensures Without(a + [x] + b + [y] + c, removed + {y}) == Without(a, removed) + [x] + Without(c, removed)
  {
    var more := removed + {y};
    AllGone(b, more);
    WithoutMore(a, removed, y);
    WithoutMore(c, removed, y);
    WithoutOne(x, more);
    WithoutOne(y, more);
    hide Without;
    WithoutParts(a, x, b, y, c, more);
    assert Without(a, more) + [x] + [] == Without(a, more) + [x];
  }

  /** Relinking the left neighbour past a page takes exactly that page out of the chain. */
  lemma UnlinkChain(d: Disk, e: Disk, a: seq<PageId>, prev: PageId, page: PageId, b: seq<PageId>)
    requires ChainIs(d, a + [prev] + [page] + b)
    requires e.next == d.next[prev := NextOf(d, page)]
    ensures ChainIs(e, a + [prev] + b)
  {
    var was, now := a + [prev] + [page] + b, a + [prev] + b;
    assert was[|a|] == prev && was[|a| + 1] == page;
    forall i | 0 <= i < |now| ensures LinkIs(e, now, i) {
      var j := if i <= |a| then i else i + 1;
      assert now[i] == was[j] && LinkIs(d, was, j);
      if i == |a| {
        assert LinkIs(d, was, j + 1);
        assert i + 1 < |now| ==> now[i + 1] == was[j + 2];
      } else {
        assert was[j] != was[|a|];
        assert i + 1 < |now| ==> now[i + 1] == was[j + 1];
      }
    }
    forall i, j | 0 <= i < j < |now| ensures now[i] != now[j] {
      assert now[i] == was[if i <= |a| then i else i + 1] && now[j] == was[if j <= |a| then j else j + 1];
    }
  }

  // ---------------------------------------------------------------- one vacuum pass

  /** The pages a pass empties; the head is the relation's anchor and stays. */
  function Emptied(d: Disk, kills: map<PageId, set<nat>>, order: seq<PageId>, head: PageId): set<PageId> {
    set p | p in order && p in kills && p != head && UsedOf(d, p) == kills[p]
  }

  /** `chain` is the relation's chain and holds no free page. */
  ghost predicate Chained(d: Disk, chain: seq<PageId>, head: PageId) {
    ChainIs(d, chain) && chain[0] == head && Apart(d, chain)
  }

  lemma {:induction false} SameSize(a: set<nat>, b: set<nat>)
    requires a <= b && |a| == |b|
    ensures a == b
  {
    if a != b {
      var x :| x in b && x !in a;
      assert a <= b - {x};
      SubsetSize(a, b - {x});
    }
  }

  method Position(pages: seq<PageId>, p: PageId) returns (pos: nat)
    ensures pos < |pages| ==> pages[pos] == p
    ensures pos >= |pages| ==> p !in pages
  {
    pos := 0;
    while pos < |pages| && pages[pos] != p
      invariant pos <= |pages| && forall i :: 0 <= i < pos ==> pages[i] != p
    {
      pos := pos + 1;
    }
  }

  /** The nearest left neighbour still chained. */
  method NearestChained(pages: seq<PageId>, pos: nat, removed: set<PageId>) returns (q: nat)
    requires 0 < pos < |pages| && pages[0] !in removed
    ensures q < pos && pages[q] !in removed && forall i :: q < i < pos ==> pages[i] in removed
  {
    q := pos - 1;
    while pages[q] in removed
      invariant q < pos && forall i :: q < i < pos ==> pages[i] in removed
      decreases q
    {
      q := q - 1;
    }
  }

  /** Splicing a page out and only then freeing it keeps the two lists apart after each of the two records. */
  lemma UnlinkThenFree(d: Disk, pages: seq<PageId>, removed: set<PageId>, q: nat, pos: nat, kills: set<nat>,
                       head: PageId)
    requires 0 <= q < pos < |pages| && pages[q] !in removed && pages[pos] !in removed && pages[q] != INVALID
    requires forall i :: q < i < pos ==> pages[i] in removed
    requires forall i, j :: 0 <= i < j < |pages| ==> pages[i] != pages[j]
    requires Chained(d, Without(pages, removed), head) && pages[pos] != head
    ensures var e := After(d, Cleanup(pages[pos], kills, pages[q], NextOf(d, pages[pos])));
      && Chained(e, Without(pages, removed + {pages[pos]}), head)
      && Chained(After(e, Free(pages[pos])), Without(pages, removed + {pages[pos]}), head)
  {
    hide *;
    Cut(pages, removed, q, pos);
    UnlinkParts(d, pages[..q], pages[q], pages[q + 1..pos], pages[pos], pages[pos + 1..], removed, kills, head);
  }

  lemma Cut(pages: seq<PageId>, removed: set<PageId>, q: nat, pos: nat)
    requires q < pos < |pages| && forall i :: q < i < pos ==> pages[i] in removed
    requires forall i, j :: 0 <= i < j < |pages| ==> pages[i] != pages[j]
    ensures pages == pages[..q] + [pages[q]] + pages[q + 1..pos] + [pages[pos]] + pages[pos + 1..]
    ensures pages[pos] !in pages[..q] && pages[pos] !in pages[pos + 1..] && pages[q] != pages[pos]
    ensures forall p :: p in pages[q + 1..pos] ==> p in removed
  {
  }

  lemma UnlinkParts(d: Disk, a: seq<PageId>, x: PageId, b: seq<PageId>, y: PageId, c: seq<PageId>, removed: set<PageId>,
                    kills: set<nat>, head: PageId)
    requires x !in removed && y !in removed && x != y && y !in a && y !in c && x != INVALID
    requires forall p :: p in b ==> p in removed
    requires Chained(d, Without(a + [x] + b + [y] + c, removed), head)
    ensures var e := After(d, Cleanup(y, kills, x, NextOf(d, y)));
      && Chained(e, Without(a + [x] + b + [y] + c, removed + {y}), head)
      && Chained(After(e, Free(y)), Without(a + [x] + b + [y] + c, removed + {y}), head)
  {
    Around(a, x, b, y, c, removed);
    Removed(a, x, b, y, c, removed);
    hide *;
    Release(d, Without(a, removed), x, y, Without(c, removed), kills, head);
  }

  lemma Release(d: Disk, l: seq<PageId>, x: PageId, y: PageId, r: seq<PageId>, kills: set<nat>, head: PageId)
    requires Chained(d, l + [x] + [y] + r, head) && x != INVALID
    ensures var e := After(d, Cleanup(y, kills, x, NextOf(d, y)));
      Chained(e, l + [x] + r, head) && Chained(After(e, Free(y)), l + [x] + r, head)
  {
    var e := After(d, Cleanup(y, kills, x, NextOf(d, y)));
    UnlinkChain(d, e, l, x, y, r);
    StillApart(d, l, x, y, r, head);
    var now, f := l + [x] + r, After(e, Free(y));
    forall i | 0 <= i < |now| ensures LinkIs(f, now, i) && now[i] !in f.free {
      assert LinkIs(e, now, i) && now[i] in now;
    }
  }

  lemma StillApart(d: Disk, l: seq<PageId>, x: PageId, y: PageId, r: seq<PageId>, head: PageId)
    requires Chained(d, l + [x] + [y] + r, head)
    ensures (l + [x] + r)[0] == head && y !in l + [x] + r
    ensures forall i :: 0 <= i < |l + [x] + r| ==> (l + [x] + r)[i] !in d.free
  {
    var was, now := l + [x] + [y] + r, l + [x] + r;
    assert was[|l| + 1] == y;
    forall i | 0 <= i < |now| ensures now[i] !in d.free && now[i] != y {
      var j := if i <= |l| then i else i + 1;
      assert now[i] == was[j] && was[j] !in d.free && was[j] != was[|l| + 1];
    }
    assert now[0] == was[0];
  }

  /** The opposite order: after the free record alone the page is on both lists. */
  lemma FreeFirstIsUnsafe()
    ensures exists d: Disk, chain, head, page ::
      Chained(d, chain, head) && page in chain && page != head && !Safe(After(d, Free(page)), head)
  {
    var d := Disk(map[1 := 2], map[], {});
    assert LinkIs(d, [1, 2], 0) && LinkIs(d, [1, 2], 1);
    assert Chained(d, [1, 2], 1);
    var e := After(d, Free(2));
    if chain :| ChainIs(e, chain) && chain[0] == 1 && Apart(e, chain) {
      assert LinkIs(e, [1, 2], 0) && LinkIs(e, [1, 2], 1);
      ChainUnique(e, [1, 2], chain, 1);
      assert false;
    }
    assert 2 in [1, 2];
  }

  class HeapRelation {
    const head: PageId
    var disk: Disk
    var cache: seq<PageId>

    /** The cleanup record and its application. */
    method CompactPage(page: PageId, kills: set<nat>, prev: PageId, next: PageId) returns (rec: Rec)
      modifies this
      ensures rec == Cleanup(page, kills, prev, next) && disk == After(old(disk), rec) && cache == old(cache)
    {
      rec := Cleanup(page, kills, prev, next);
      disk := disk.(used := disk.used[page := UsedOf(disk, page) - kills]);
      if prev != INVALID { disk := disk.(next := disk.next[prev := next]); }
    }

    method EvictPage(page: PageId)
      modifies `cache
      ensures cache == Without(old(cache), {page})
    {
      var kept := [];
      for i := 0 to |cache|
        invariant cache == old(cache) && kept == Without(cache[..i], {page})
      {
        assert cache[..i + 1] == cache[..i] + [cache[i]];
        WithoutConcat(cache[..i], [cache[i]], {page});
        if cache[i] != page { kept := kept + [cache[i]]; }
      }
      assert cache[..|cache|] == cache;
      cache := kept;
    }

    /** One page of the pass. */
    method ReclaimPage(pages: seq<PageId>, removed: set<PageId>, page: PageId, kills: set<nat>)
      returns (r: Result<bool, ReclaimError>, recs: seq<Rec>)
      requires |pages| > 0 && pages[0] == head && head !in removed && page !in removed && kills <= UsedOf(disk, page)
      requires forall i, j :: 0 <= i < j < |pages| ==> pages[i] != pages[j]
      requires Chained(disk, Without(pages, removed), head) && cache == Without(pages, removed)
      modifies this
      ensures disk == Replayed(old(disk), recs) && SafeLog(old(disk), recs, head)
      ensures r.Err? ==> page !in pages
      ensures r.Ok? ==> (r.value <==> page != head && UsedOf(old(disk), page) == kills)
      ensures r.Ok? ==>
        var now := if r.value then removed + {page} else removed;
        && Chained(disk, Without(pages, now), head) && cache == Without(pages, now)
        && disk.free == old(disk).free + (if r.value then {page} else {})
      ensures r.Ok? ==>
        forall p :: UsedOf(disk, p) == if p == page then UsedOf(old(disk), p) - kills else UsedOf(old(disk), p)
    {
      var start := disk;
      assert Safe(start, head);
      assert SafeLog(start, [], head);
      if |kills| == |UsedOf(disk, page)| && page != head {
        SameSize(kills, UsedOf(disk, page));
        var pos := Position(pages, page);
        if pos >= |pages| {
          return Err(Corrupted), [];
        }
        var q := NearestChained(pages, pos, removed);
        StaysValid(start, pages, removed, q, head);
        UnlinkThenFree(start, pages, removed, q, pos, kills, head);
        var unlink := CompactPage(page, kills, pages[q], NextOf(disk, page));
        SafeAppend(start, [], unlink, head);
        EvictPage(page);
        WithoutTwice(pages, removed, page);
        disk := disk.(free := disk.free + {page});
        SafeAppend(start, [] + [unlink], Free(page), head);
        return Ok(true), [] + [unlink] + [Free(page)];
      } else {
        var rec := CompactPage(page, kills, INVALID, INVALID);
        SameChain(start, disk, Without(pages, removed), head);
        SafeAppend(start, [], rec, head);
        return Ok(false), [] + [rec];
      }
    }

    /** The pass, whatever order the pages come in: the chain ends up as it was without exactly the emptied pages
        (the head always stays), those pages are free, and every prefix of the records is safe. */
    method Reclaim(order: seq<PageId>, kills: map<PageId, set<nat>>)
      returns (r: Result<(), ReclaimError>, recs: seq<Rec>)
      requires Chained(disk, cache, head)
      requires forall i, j :: 0 <= i < j < |order| ==> order[i] != order[j]
      requires forall i :: 0 <= i < |order| ==> order[i] in kills && kills[order[i]] <= UsedOf(disk, order[i])
      modifies this
      ensures disk == Replayed(old(disk), recs) && SafeLog(old(disk), recs, head)
      ensures (forall i :: 0 <= i < |order| ==> order[i] in old(cache)) ==> r.Ok?
      ensures r.Ok? ==>
        var gone := Emptied(old(disk), kills, order, head);
        && cache == Without(old(cache), gone) && Chained(disk, cache, head)
        && disk.free == old(disk).free + gone
      ensures r.Ok? ==>
        forall p :: UsedOf(disk, p) == if p in order then UsedOf(old(disk), p) - kills[p] else UsedOf(old(disk), p)
    {
      var pages, removed := cache, {};
      ghost var start := disk;
      recs := [];
      NothingGone(pages);
      SameChain(disk, disk, pages, head);
      assert SafeLog(start, recs, head) && disk == Replayed(start, recs);
      assert |pages| > 0 && pages[0] == head && forall i, j :: 0 <= i < j < |pages| ==> pages[i] != pages[j];
      hide Chained, SafeLog, Replayed, Without;
      for k := 0 to |order|
        invariant removed == Emptied(start, kills, order[..k], head)
        invariant cache == Without(pages, removed) && Chained(disk, cache, head) && disk.free == start.free + removed
        invariant forall p ::
          UsedOf(disk, p) == if p in order[..k] then UsedOf(start, p) - kills[p] else UsedOf(start, p)
        invariant disk == Replayed(start, recs) && SafeLog(start, recs, head)
      {
        assert order[..k + 1] == order[..k] + [order[k]];
        assert order[k] !in order[..k];
        ghost var before := disk;
        var done, more := ReclaimPage(pages, removed, order[k], kills[order[k]]);
        ReplayedConcat(start, recs, more);
        SafeConcat(start, recs, more, head);
        recs := recs + more;
        if done.Err? {
          return Err(Corrupted), recs;
        }
        if done.value { removed := removed + {order[k]}; }
      }
      assert order[..|order|] == order;
      return Ok(()), recs;
    }
  }

  lemma StaysValid(d: Disk, pages: seq<PageId>, removed: set<PageId>, q: nat, head: PageId)
    requires Chained(d, Without(pages, removed), head) && q < |pages| && pages[q] !in removed
    ensures pages[q] != INVALID
  {
    WithoutMember(pages, removed, pages[q]);
    var c := Without(pages, removed);
    var i :| 0 <= i < |c| && c[i] == pages[q];
    assert LinkIs(d, c, i);
  }

  lemma SameChain(d: Disk, e: Disk, chain: seq<PageId>, head: PageId)
    requires Chained(d, chain, head) && e.next == d.next && e.free == d.free
    ensures Chained(e, chain, head) && Safe(e, head)
  {
    forall i | 0 <= i < |chain| ensures LinkIs(e, chain, i) { assert LinkIs(d, chain, i); }
  }
}
