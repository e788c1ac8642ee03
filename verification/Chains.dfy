/** A level of the tree as its sibling chain: `next` is the ground truth, `prev` only a hint that
    names some page further left, pages may be empty, and entries ascend along the whole chain. */
module Chains {
  import opened Entries
  import opened BtPages
  import opened BtLog

  function EntriesOf(pages: Pages, p: PageId): seq<Entry> {
    if At(pages, p).Page? then At(pages, p).entries else []
  }

  /** The entries of the chain in chain order: what a linear scan sees. */
  function Flat(pages: Pages, chain: seq<PageId>): seq<Entry> {
    if chain == [] then [] else Flat(pages, chain[..|chain| - 1]) + EntriesOf(pages, chain[|chain| - 1])
  }

  ghost predicate NoDup(chain: seq<PageId>) {
    forall i, j :: 0 <= i < j < |chain| ==> chain[i] != chain[j]
  }

  /** A split never rewrites the old right neighbour's `prev`, so the hint may skip pages, but it
      stays left of its page; only the head has none. */
  ghost predicate LinkOk(pages: Pages, chain: seq<PageId>, i: nat)
    requires i < |chain|
  {
    var pg := At(pages, chain[i]);
    && chain[i] != INVALID && pg.Page?
    && pg.next == (if i + 1 < |chain| then chain[i + 1] else INVALID)
    && (if i == 0 then pg.prev == INVALID else pg.prev in chain[..i])
  }

  ghost predicate Linked(pages: Pages, chain: seq<PageId>) {
    NoDup(chain) && forall i :: 0 <= i < |chain| ==> LinkOk(pages, chain, i)
  }

  ghost predicate ChainOk(pages: Pages, chain: seq<PageId>) {
    chain != [] && Linked(pages, chain) && Sorted(Flat(pages, chain))
  }

  lemma NoInvalid(pages: Pages, chain: seq<PageId>)
    requires Linked(pages, chain)
    ensures INVALID !in chain
  {
    forall i | 0 <= i < |chain| ensures chain[i] != INVALID {
      assert LinkOk(pages, chain, i);
    }
  }

  lemma NextOf(pages: Pages, chain: seq<PageId>, i: nat)
    requires Linked(pages, chain) && i < |chain|
    ensures At(pages, chain[i]).Page?
    ensures At(pages, chain[i]).next == if i + 1 < |chain| then chain[i + 1] else INVALID
  {
    assert LinkOk(pages, chain, i);
  }

  lemma {:induction false} FlatConcat(pages: Pages, a: seq<PageId>, b: seq<PageId>)
    ensures Flat(pages, a + b) == Flat(pages, a) + Flat(pages, b)
  {
    if b == [] {
      assert a + b == a;
    } else {
      var c, init, last := a + b, b[..|b| - 1], EntriesOf(pages, b[|b| - 1]);
      FlatConcat(pages, a, init);
      assert c[..|c| - 1] == a + init && c[|c| - 1] == b[|b| - 1];
      assert Flat(pages, a) + Flat(pages, init) + last == Flat(pages, a) + (Flat(pages, init) + last);
    }
  }

  lemma FlatOne(pages: Pages, p: PageId)
    ensures Flat(pages, [p]) == EntriesOf(pages, p)
  {
    assert [p][..0] == [];
  }

  /** The flat sequence around page `i`. */
  lemma FlatAt(pages: Pages, chain: seq<PageId>, i: nat)
    requires i < |chain|
    ensures Flat(pages, chain) == Flat(pages, chain[..i]) + EntriesOf(pages, chain[i]) + Flat(pages, chain[i + 1..])
  {
    assert chain == chain[..i] + [chain[i]] + chain[i + 1..];
    FlatConcat(pages, chain[..i] + [chain[i]], chain[i + 1..]);
    FlatConcat(pages, chain[..i], [chain[i]]);
    FlatOne(pages, chain[i]);
  }

  /** The flat sequence does not see pages outside the chain, nor anything but entries. */
  lemma {:induction false} FlatFrame(pages: Pages, pages': Pages, chain: seq<PageId>)
    requires forall i :: 0 <= i < |chain| ==> EntriesOf(pages', chain[i]) == EntriesOf(pages, chain[i])
    ensures Flat(pages', chain) == Flat(pages, chain)
  {
    if chain != [] {
      FlatFrame(pages, pages', chain[..|chain| - 1]);
      assert EntriesOf(pages', chain[|chain| - 1]) == EntriesOf(pages, chain[|chain| - 1]);
    }
  }

  /** Entries of one page ascend, and a page's entries lie below those of every later page. */
  lemma PageOrder(pages: Pages, chain: seq<PageId>, i: nat, j: nat)
    requires i <= j < |chain| && Sorted(Flat(pages, chain))
    ensures Sorted(EntriesOf(pages, chain[i]))
    ensures i < j ==> Below(EntriesOf(pages, chain[i]), EntriesOf(pages, chain[j]))
  {
    FlatAt(pages, chain, i);
    var a, pre, rest := EntriesOf(pages, chain[i]), Flat(pages, chain[..i]), chain[i + 1..];
    SortedConcat(pre + a, Flat(pages, rest));
    SortedConcat(pre, a);
    if i < j {
      var k := j - i - 1;
      FlatAt(pages, rest, k);
      BelowInner(pre, a, Flat(pages, rest[..k]), EntriesOf(pages, rest[k]), Flat(pages, rest[k + 1..]));
    }
  }

  lemma FlatMember(pages: Pages, chain: seq<PageId>, e: Entry)
    ensures e in Flat(pages, chain) <==> exists i :: 0 <= i < |chain| && e in EntriesOf(pages, chain[i])
  {
    if chain != [] {
      var init, last := chain[..|chain| - 1], chain[|chain| - 1];
      FlatMember(pages, init, e);
      assert forall i :: 0 <= i < |init| ==> init[i] == chain[i];
    }
  }
}
