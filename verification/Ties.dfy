/** Equal keys on several leaves. Internal entries are ordered by key and then by child page id, so the downlink of a
    page split off the left part of a run can end up behind those of pages further right. The tree of this module is
    what three splits leave: the run of one key covers leaves 2, 5 and 3 in chain order, and the downlinks to 3 and 5
    stand in the other order, on two pages. */
module Ties {
  import opened Layout
  import opened Entries
  import opened BtPages
  import opened BtLog
  import opened Chains
  import opened Lookup
  import opened TreeShape
  import opened TreeOrder
  import opened PageAlloc
  import opened Placement
  import opened Fences
  import opened Descent
  import opened TreeInsert

  function Three(key: seq<byte>, page: PageId, last: nat): seq<Entry> {
    [Entry(key, page, 0), Entry(key, page, 1), Entry(key, page, last)]
  }

  function Node(level: nat, root: bool, prev: PageId, next: PageId, es: seq<Entry>): Page {
    Page(level, Flags(level == 0, root, false), prev, next, es, SPECIAL - Bytes(level, es), 0)
  }

  function TiePages(key: seq<byte>): Pages {
    map[2 := Node(0, false, INVALID, 5, Three(key, 1, 2)), 5 := Node(0, false, 2, 3, Three(key, 2, 2)),
        3 := Node(0, false, 2, INVALID, Three(key, 3, 3)),
        4 := Node(1, false, INVALID, 6, [Entry([], 2, 0), Entry(key, 3, 0)]),
        6 := Node(1, false, 4, INVALID, [Entry(key, 5, 0)]),
        7 := Node(2, true, INVALID, INVALID, [Entry([], 4, 0), Entry(key, 6, 0)])]
  }

  const TIE_LEVELS: Levels := [[2, 5, 3], [4, 6], [7]]

  lemma FewBytesHere(level: nat, es: seq<Entry>)
    requires 1 <= |es| <= 3
    ensures |es| == 1 ==> Bytes(level, es) == EntryLen(level, es[0])
    ensures |es| == 2 ==> Bytes(level, es) == EntryLen(level, es[0]) + EntryLen(level, es[1])
    ensures |es| == 3 ==> Bytes(level, es) == EntryLen(level, es[0]) + EntryLen(level, es[1]) + EntryLen(level, es[2])
  {
    assert es[..|es| - 1][..0] == [];
    if |es| == 3 { assert es[..2][..1] == es[..1] && es[..2][1] == es[1] && es[..1][0] == es[0]; }
    if |es| >= 2 { assert es[..1][..0] == [] && es[..1][0] == es[0]; }
  }

  lemma SortedTies(key: seq<byte>, page: PageId, last: nat)
    requires last >= 2
    ensures Sorted(Three(key, page, last))
  {
  }

  lemma NodesOk(key: seq<byte>)
    requires |key| == MAX_INDEX_KEY_BYTES
    ensures forall l, i :: 0 <= l < 3 && 0 <= i < |TIE_LEVELS[l]| ==>
      PageOk(At(TiePages(key), TIE_LEVELS[l][i]), TIE_LEVELS[l][i], l, 7)
  {
    var s := TiePages(key);
    FewBytesHere(0, Three(key, 1, 2));
    FewBytesHere(0, Three(key, 2, 2));
    FewBytesHere(0, Three(key, 3, 3));
    FewBytesHere(1, [Entry([], 2, 0), Entry(key, 3, 0)]);
    FewBytesHere(1, [Entry(key, 5, 0)]);
    FewBytesHere(2, [Entry([], 4, 0), Entry(key, 6, 0)]);
    hide Bytes;
    SortedTies(key, 1, 2);
    SortedTies(key, 2, 2);
    SortedTies(key, 3, 3);
    hide Sorted;
    assert PageOk(At(s, 2), 2, 0, 7) && PageOk(At(s, 5), 5, 0, 7) && PageOk(At(s, 3), 3, 0, 7);
    assert PageOk(At(s, 4), 4, 1, 7) && PageOk(At(s, 6), 6, 1, 7) && PageOk(At(s, 7), 7, 2, 7);
  }

  lemma LinksOk(key: seq<byte>)
    ensures forall l :: 0 <= l < 3 ==> Linked(TiePages(key), TIE_LEVELS[l])
  {
    var s := TiePages(key);
    assert LinkOk(s, [2, 5, 3], 0) && LinkOk(s, [2, 5, 3], 1);
    assert [2, 5, 3][..2] == [2, 5];
    assert LinkOk(s, [2, 5, 3], 2);
    assert LinkOk(s, [4, 6], 0) && LinkOk(s, [4, 6], 1) && LinkOk(s, [7], 0);
  }

  lemma CountOne(e: Entry, q: PageId)
    ensures PtrCount([e], q) == if e.ptr == q then 1 else 0
  {
    assert [e][..0] == [];
  }

  lemma CountTwo(a: Entry, b: Entry, q: PageId)
    ensures PtrCount([a, b], q) == (if a.ptr == q then 1 else 0) + if b.ptr == q then 1 else 0
  {
    CountOne(a, q);
    assert [a, b][..1] == [a];
  }

  lemma NamesTwo(s: Pages, a: PageId, b: PageId, down: bool, q: PageId)
    ensures Names(s, [a], down, q) == PageNames(At(s, a), down, q)
    ensures Names(s, [a, b], down, q) == PageNames(At(s, a), down, q) + PageNames(At(s, b), down, q)
  {
    assert [a][..0] == [] && [a, b][..1] == [a];
  }

  lemma NamesThree(s: Pages, a: PageId, b: PageId, c: PageId, q: PageId)
    requires !Open(s, a) && !Open(s, b) && !Open(s, c)
    ensures Names(s, [a, b, c], false, q) == 0
  {
    NamesTwo(s, a, b, false, q);
    assert [a, b, c][..2] == [a, b];
  }

  lemma AllNamedOnce(key: seq<byte>)
    ensures forall l :: 0 <= l < 3 ==> NamedOnce(TiePages(key), TIE_LEVELS, 7, l)
  {
    var s := TiePages(key);
    forall q
      ensures Downlinks(s, TIE_LEVELS, 7, 0, q) + Names(s, [2, 5, 3], false, q) == if q in [2, 5, 3] then 1 else 0
      ensures Downlinks(s, TIE_LEVELS, 7, 1, q) + Names(s, [4, 6], false, q) == if q in [4, 6] then 1 else 0
      ensures Downlinks(s, TIE_LEVELS, 7, 2, q) + Names(s, [7], false, q) == if q in [7] then 1 else 0
    {
      NamesThree(s, 2, 5, 3, q);
      NamesTwo(s, 4, 6, false, q);
      NamesTwo(s, 4, 6, true, q);
      NamesTwo(s, 7, 7, false, q);
      NamesTwo(s, 7, 7, true, q);
      CountTwo(Entry([], 2, 0), Entry(key, 3, 0), q);
      CountOne(Entry(key, 5, 0), q);
      CountTwo(Entry([], 4, 0), Entry(key, 6, 0), q);
    }
    assert NamedOnce(s, TIE_LEVELS, 7, 0) && NamedOnce(s, TIE_LEVELS, 7, 1) && NamedOnce(s, TIE_LEVELS, 7, 2);
  }

  lemma TieChain(key: seq<byte>)
    ensures ChainOk(TiePages(key), [2, 5, 3])
    ensures Flat(TiePages(key), [2, 5, 3]) == Three(key, 1, 2) + Three(key, 2, 2) + Three(key, 3, 3)
  {
    var s := TiePages(key);
    LinksOk(key);
    FlatOne(s, 2);
    FlatOne(s, 5);
    FlatOne(s, 3);
    FlatConcat(s, [2], [5]);
    FlatConcat(s, [2, 5], [3]);
    assert [2] + [5] == [2, 5] && [2, 5] + [3] == [2, 5, 3] && TIE_LEVELS[0] == [2, 5, 3];
    hide Flat, Linked;
    SortedTies(key, 1, 2);
    SortedTies(key, 2, 2);
    SortedTies(key, 3, 3);
    RunsFollow(key, Three(key, 1, 2), Three(key, 2, 2));
    RunsFollow(key, Three(key, 1, 2) + Three(key, 2, 2), Three(key, 3, 3));
  }

  lemma RunsFollow(key: seq<byte>, a: seq<Entry>, b: seq<Entry>)
    requires Sorted(a) && Sorted(b)
    requires forall x, y :: 0 <= x < |a| && 0 <= y < |b| ==> a[x].key == key && b[y].key == key && a[x].ptr < b[y].ptr
    ensures Sorted(a + b)
  {
    hide Sorted;
    assert Below(a, b);
    SortedConcat(a, b);
  }

  /** The tree is in order, with nothing in flight. */
  lemma TieTree(key: seq<byte>)
    requires |key| == MAX_INDEX_KEY_BYTES
    ensures TreeOk(TiePages(key), TIE_LEVELS, 7) && ChainOk(TiePages(key), TIE_LEVELS[0])
    ensures Neat(TiePages(key), TIE_LEVELS, 7) && NoneOpen(TiePages(key), TIE_LEVELS, 0)
    ensures HintsSeen(TiePages(key), TIE_LEVELS[0]) && Filled(TiePages(key), TIE_LEVELS)
    ensures AllocOk(TIE_LEVELS, [], 8)
  {
    var s := TiePages(key);
    NodesOk(key);
    LinksOk(key);
    AllNamedOnce(key);
    TieChain(key);
    assert TreeOk(s, TIE_LEVELS, 7) by {
      hide Linked, NamedOnce, PageOk;
    }
    hide Linked, Sorted, Names, Bytes, PageOk, Flat, TreeOk;
    TieHints(key);
    TieNeat(key);
  }

  lemma TieHints(key: seq<byte>)
    ensures HintsSeen(TiePages(key), [2, 5, 3])
  {
    var s, chain := TiePages(key), [2, 5, 3];
    assert chain[0] == 2 && EntriesOf(s, chain[0]) != [];
    assert HintSeen(s, chain, 1) && HintSeen(s, chain, 2);
  }

  lemma TieNeat(key: seq<byte>)
    requires key != []
    ensures Neat(TiePages(key), TIE_LEVELS, 7)
  {
    var s := TiePages(key);
    assert Sorted([Entry([], 2, 0), Entry(key, 3, 0)]) && Sorted([Entry(key, 5, 0)]);
    assert Sorted([Entry([], 4, 0), Entry(key, 6, 0)]);
    hide Sorted;
    forall k, i | 0 <= k < 3 && 0 <= i < |TIE_LEVELS[k]| ensures PageNeat(s, TIE_LEVELS[k][i], k, i, 7) {
      assert TIE_LEVELS[k][i] in {2, 3, 4, 5, 6, 7};
    }
  }

  /** Nothing is wrong with it but the order of the two downlinks: the new pair is absent, no leaf is wedged. */
  lemma TieWedge(key: seq<byte>)
    requires |key| == MAX_INDEX_KEY_BYTES
    ensures Stuck(TiePages(key), TIE_LEVELS, Entry(key, 3, 2))
    ensures Entry(key, 3, 2) !in Flat(TiePages(key), TIE_LEVELS[0])
    ensures !AnyWedged(TiePages(key), TIE_LEVELS[0], Entry(key, 3, 2)) && !Fenced(TiePages(key), TIE_LEVELS)
  {
    var s, e := TiePages(key), Entry(key, 3, 2);
    TieChain(key);
    FewBytesHere(0, Three(key, 1, 2));
    FewBytesHere(0, Three(key, 2, 2));
    FewBytesHere(0, Three(key, 3, 3));
    hide Bytes, Flat, Sorted, Linked;
    assert Crowded(s, 2, e) && Crowded(s, 5, e) && Crowded(s, 3, e);
    TieMisroutes(key);
    TieUnfenced(key);
  }

  lemma TieMisroutes(key: seq<byte>)
    requires key != []
    ensures Misrouted(TiePages(key), TIE_LEVELS, Entry(key, 3, 2))
  {
    var s, e := TiePages(key), Entry(key, 3, 2);
    KeyTotal(key, key);
    hide KeyLess;
    assert NextFilled(s, [4, 6], 0, 1) && Owns(At(s, 6), e);
    assert NextOwns(s, [4, 6], 0, e);
    assert !Less(e, EntriesOf(s, 3)[0]) && [2, 5, 3][2] == 3;
    assert !AllAbove(EntriesOf(s, [2, 5, 3][2]), e);
    assert forall at: nat :: RightClear(s, [2, 5, 3], at, e) ==> at == 2;
    assert !Vacant(At(s, 5), e);
    assert EntriesOf(s, 6) == [Entry(key, 5, 0)];
  }

  lemma TieUnfenced(key: seq<byte>)
    ensures !Fenced(TiePages(key), TIE_LEVELS)
  {
    var s := TiePages(key);
    if Fenced(s, TIE_LEVELS) {
      var lo :| FencedBy(s, TIE_LEVELS, lo);
      KeyOf(s, TIE_LEVELS, lo, 1, 0, 1);
      KeyOf(s, TIE_LEVELS, lo, 1, 1, 0);
      hide LevelFenced;
      BoundsDiffer(s, TIE_LEVELS[0], lo, 1, 2);
      assert false;
    }
  }

  lemma BoundsDiffer(s: Pages, chain: seq<PageId>, lo: Lows, i: nat, c: nat)
    requires LevelFenced(s, chain, 0, lo) && i < c < |chain| && chain[i] in lo && chain[c] in lo
    ensures lo[chain[i]] != lo[chain[c]]
  {
    assert Apart(s, chain, lo, i, c);
    KeyTotal(lo[chain[i]], lo[chain[c]]);
  }

  /** An insert of the absent pair fails whatever the budget, and leaves the tree as it is. */
  method TieRefused(index: BTreeIndex, key: seq<byte>, maxRestarts: nat) returns (r: Result<(), IndexError>)
    requires |key| == MAX_INDEX_KEY_BYTES && index.pages == TiePages(key) && index.levels == TIE_LEVELS
    requires index.root == 7 && index.freelist == [] && index.fileEnd == 8
    modifies index
    ensures r.Err? && index.pages == TiePages(key)
  {
    TieTree(key);
    TieWedge(key);
    hide TreeOk, ChainOk, Neat, NoneOpen, AllocOk, Filled, Stuck, HintsSeen, Flat, AnyWedged, Fenced;
    r := index.InsertEntry(key, 3, 2, maxRestarts);
  }
}
