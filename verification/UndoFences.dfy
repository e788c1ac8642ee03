/** What undo's records do to the ranges of the tree's pages: an interrupted split or a fresh one comes out with the
    downlink its right page's first key asks for, under the page that has that key in its range. */
module UndoFences {
  import opened Layout
  import opened Entries
  import opened BtPages
  import opened BtLog
  import opened Chains
  import opened TreeShape
  import opened PageAlloc
  import opened Fences
  import D = Descent
  import opened SplitClr
  import opened UndoSteps
  import opened UndoTidy

  /** Every page has its range, and no page above the leaves is empty. */
  ghost predicate Ranged(v: View) {
    Fenced(v.pages, v.levels) && Filled(v.pages, v.levels)
  }

  // ---------------------------------------------------------------- only entries and marks matter

  ghost predicate LooksSame(s: Pages, s': Pages, levels: Levels) {
    forall l, i :: 0 <= l < |levels| && 0 <= i < |levels[l]| ==>
      && EntriesOf(s', levels[l][i]) == EntriesOf(s, levels[l][i])
      && (Open(s', levels[l][i]) <==> Open(s, levels[l][i]))
  }

  lemma SameFenced(s: Pages, s': Pages, levels: Levels, lo: Lows)
    requires LooksSame(s, s', levels) && FencedBy(s, levels, lo)
    ensures FencedBy(s', levels, lo)
  {
    hide LevelFenced, AllKeys;
    forall l | 0 <= l < |levels| ensures LevelFenced(s', levels[l], l, lo) {
      FencedFrame(s, s', levels[l], l, lo, lo);
    }
  }

  lemma SameFilled(s: Pages, s': Pages, levels: Levels)
    requires LooksSame(s, s', levels) && Filled(s, levels)
    ensures Filled(s', levels)
  {
  }

  lemma RangedSame(v: View, w: View)
    requires w.levels == v.levels && forall k :: 0 <= k < |v.levels| ==> SamePages(v.pages, w.pages, v.levels[k])
    ensures Ranged(v) ==> Ranged(w)
  {
    assert LooksSame(v.pages, w.pages, v.levels);
    if Ranged(v) {
      var lo :| FencedBy(v.pages, v.levels, lo);
      hide LooksSame, FencedBy, Filled;
      SameFenced(v.pages, w.pages, v.levels, lo);
      SameFilled(v.pages, w.pages, v.levels);
    }
  }

  // ---------------------------------------------------------------- the pair before its Commit

  /** The entries from slot `k` on moved to an empty twin. */
  lemma MovedFenced(s: Pages, s1: Pages, levels: Levels, root: PageId, lo: Lows, l: nat, i: nat, k: nat)
    requires TreeOk(s, levels, root) && FencedBy(s, levels, lo) && l < |levels| && i + 1 < |levels[l]|
    requires Open(s, levels[l][i]) && NeverHadEntries(At(s, levels[l][i + 1]))
    requires At(s, levels[l][i + 1]).entries == [] && 1 <= k <= |EntriesOf(s, levels[l][i])|
    requires EntriesOf(s1, levels[l][i]) == EntriesOf(s, levels[l][i])[..k]
    requires EntriesOf(s1, levels[l][i + 1]) == EntriesOf(s, levels[l][i])[k..]
    requires Open(s1, levels[l][i]) && (Open(s1, levels[l][i + 1]) <==> Open(s, levels[l][i + 1]))
    requires forall p :: p != levels[l][i] && p != levels[l][i + 1] ==> At(s1, p) == At(s, p)
    ensures FencedBy(s1, levels, lo)
  {
    var left, right := At(s, levels[l][i]), At(s, levels[l][i + 1]);
    PageAt(s, levels, root, l, i);
    PageAt(s, levels, root, l, i + 1);
    NeighboursDiffer(s, levels, root, l, i);
    hide TreeOk, FencedBy, Bytes;
    var pgL := Rebuild(left, k);
    var pgR := right.(entries := left.entries[k..], upper := SPECIAL - Bytes(left.level, left.entries[k..]));
    assert Copied(left, right, k, pgL, pgR);
    CopyFenced(s, levels, root, lo, l, i, k, pgL, pgR);
    var s2 := s[levels[l][i] := pgL][levels[l][i + 1] := pgR];
    assert LooksSame(s2, s1, levels);
    SameFenced(s2, s1, levels, lo);
  }

  // ---------------------------------------------------------------- the Commit

  /** A split about to get its downlink, in a tree with ranges and nothing open above. */
  ghost predicate Poised(s: Pages, levels: Levels, root: PageId, lo: Lows, l: nat, i: nat, sep: seq<byte>) {
    && TreeOk(s, levels, root) && FencedBy(s, levels, lo) && Filled(s, levels) && l < |levels|
    && Halfway(s, levels[l], i) && CleanCut(s, levels[l][i], levels[l][i + 1])
    && StartsWith(EntriesOf(s, levels[l][i + 1]), sep) && NoneOpen(s, levels, l + 1)
  }

  /** Page `t` names `left`, or is the half of a page that named it which the comparison with `e` picks. */
  ghost predicate Chosen(s: Pages, levels: Levels, n: nat, t: nat, e: Entry, left: PageId) {
    && n < |levels| && t < |levels[n]|
    && (D.Points(EntriesOf(s, levels[n][t]), left) || exists j: nat :: PickedHalf(s, levels[n], j, t, e, left))
  }

  ghost predicate PickedHalf(s: Pages, chain: seq<PageId>, j: nat, t: nat, e: Entry, left: PageId) {
    && j + 1 < |chain| && EntriesOf(s, chain[j + 1]) != []
    && t == (if Less(e, EntriesOf(s, chain[j + 1])[0]) then j else j + 1)
    && (D.Points(EntriesOf(s, chain[j]), left) || D.Points(EntriesOf(s, chain[j + 1]), left))
  }

  lemma Pointed(es: seq<Entry>, q: PageId) returns (x: nat)
    requires D.Points(es, q)
    ensures x < |es| && es[x].ptr == q
  {
    x :| 0 <= x < |es| && es[x].ptr == q;
  }

  /** With ranges the comparison picks the half that names the left page. */
  lemma ChosenNames(s: Pages, levels: Levels, root: PageId, lo: Lows, l: nat, i: nat, t: nat, sep: seq<byte>)
    returns (x: nat)
    requires Poised(s, levels, root, lo, l, i, sep) && l + 1 < |levels|
    requires Chosen(s, levels, l + 1, t, Entry(sep, levels[l][i + 1], 0), levels[l][i])
    ensures x < |EntriesOf(s, levels[l + 1][t])| && EntriesOf(s, levels[l + 1][t])[x].ptr == levels[l][i]
  {
    hide TreeOk, FencedBy, Filled, NoneOpen, D.Points, CleanCut, Less;
    var left, up, e := levels[l][i], levels[l + 1], Entry(sep, levels[l][i + 1], 0);
    if D.Points(EntriesOf(s, up[t]), left) {
      x := Pointed(EntriesOf(s, up[t]), left);
      return;
    }
    var j: nat :| PickedHalf(s, up, j, t, e, left);
    var d := if D.Points(EntriesOf(s, up[j]), left) then j else j + 1;
    x := Pointed(EntriesOf(s, up[d]), left);
    ParentInRange(s, levels, root, lo, l, i, d, x);
    TargetIs(s, levels, lo, l, j, d, sep, levels[l][i + 1]);
  }

  lemma LinkCommits(s: Pages, s': Pages, levels: Levels, root: PageId, lo: Lows, l: nat, i: nat, j: nat, slot: nat,
                    sep: seq<byte>)
    requires Poised(s, levels, root, lo, l, i, sep) && l + 1 < |levels|
    requires Chosen(s, levels, l + 1, j, Entry(sep, levels[l][i + 1], 0), levels[l][i])
    requires IsLowerBound(EntriesOf(s, levels[l + 1][j]), Entry(sep, levels[l][i + 1], 0), slot)
    requires CommitWritten(s, s', levels[l][i], levels[l + 1][j], slot, Entry(sep, levels[l][i + 1], 0))
    ensures Fenced(s', levels) && Filled(s', levels)
  {
    var x := ChosenNames(s, levels, root, lo, l, i, j, sep);
    assert !IsTwin(s, levels[l + 1], j);
    hide TreeOk, FencedBy, Filled, NoneOpen, CommitWritten, IsLowerBound, CommitInRange, Chosen, CleanCut, IsTwin;
    ReadyToCommit(s, levels, root, lo, l, i, j, x, slot);
    CommitFenced(s, levels, root, lo, l, i, j, slot, s');
    CommitFilled(s, levels, root, l, i, j, slot, Entry(sep, levels[l][i + 1], 0), s');
  }

  /** The root split in two under a new root with both downlinks. */
  lemma TopCommits(s: Pages, s': Pages, levels: Levels, root: PageId, lo: Lows, i: nat, top: PageId, sep: seq<byte>)
    requires |levels| > 0 && Poised(s, levels, root, lo, |levels| - 1, i, sep) && levels[|levels| - 1][i] == root
    requires Unused(levels, top) && At(s, root).Page? && EntriesOf(s', root) == EntriesOf(s, root) && !Open(s', root)
    requires EntriesOf(s', top) == [Entry([], root, 0), Entry(sep, levels[|levels| - 1][i + 1], 0)] && !Open(s', top)
    requires forall p :: p != root && p != top ==> At(s', p) == At(s, p)
    ensures Fenced(s', levels + [[top]]) && Filled(s', levels + [[top]])
  {
    hide TreeOk, Filled, FencedBy, NoneOpen, CommitInRange, KeysUp, AllUnder;
    var l, up, lo2 := |levels| - 1, levels + [[top]], lo[top := []];
    var e := Entry(sep, levels[l][i + 1], 0);
    var s1: Pages := s[top := NewRootPage(l + 1, root, 0)];
    NewRootKeeps(s, levels, root, top, 0);
    RootFirst(s, levels, root);
    assert levels[l][i] in levels[l] && levels[l][i + 1] in levels[l];
    PromoteFenced(s, levels, root, lo, top, 0);
    PromoteFilled(s, levels, top, root, 0);
    assert SamePages(s, s1, levels[l]);
    StaysHalfway(s, s1, levels[l], i);
    assert EntriesOf(s1, top) == [Entry([], root, 0)] && up[l + 1] == [top] && up[l] == levels[l];
    assert IsLowerBound(EntriesOf(s1, top), e, 1) by { SplitKeyed(s, levels[l], i); }
    ReadyToCommit(s1, up, top, lo2, l, i, 0, 0, 1);
    assert CommitWritten(s1, s', root, top, 1, e);
    hide CommitWritten, Halfway, CleanCut;
    CommitFenced(s1, up, top, lo2, l, i, 0, 1, s');
    CommitFilled(s1, up, top, l, i, 0, 1, e, s');
  }

  lemma StaysHalfway(s: Pages, s': Pages, chain: seq<PageId>, i: nat)
    requires Halfway(s, chain, i) && CleanCut(s, chain[i], chain[i + 1]) && SamePages(s, s', chain)
    ensures Halfway(s', chain, i) && CleanCut(s', chain[i], chain[i + 1])
    ensures EntriesOf(s', chain[i + 1]) == EntriesOf(s, chain[i + 1])
  {
  }

  lemma SplitKeyed(s: Pages, chain: seq<PageId>, i: nat)
    requires Halfway(s, chain, i) && CleanCut(s, chain[i], chain[i + 1])
    ensures EntriesOf(s, chain[i + 1])[0].key != []
  {
    assert KeyLess(EntriesOf(s, chain[i])[0].key, EntriesOf(s, chain[i + 1])[0].key);
  }

  // ---------------------------------------------------------------- above the leaves every cut is clean

  lemma NamedOnTwo(s: Pages, levels: Levels, root: PageId, l: nat, i: nat, x: nat, y: nat)
    requires TreeOk(s, levels, root) && 0 < l < |levels| && i + 1 < |levels[l]|
    requires x < |EntriesOf(s, levels[l][i])| && y < |EntriesOf(s, levels[l][i + 1])|
    ensures EntriesOf(s, levels[l][i])[x].ptr != EntriesOf(s, levels[l][i + 1])[y].ptr
  {
    var q, chain := EntriesOf(s, levels[l][i])[x].ptr, levels[l];
    assert NamedOnce(s, levels, root, l - 1);
    assert Downlinks(s, levels, root, l - 1, q) + Names(s, levels[l - 1], false, q)
           == if q in levels[l - 1] then 1 else 0;
    hide TreeOk, Names;
    NamesAt(s, chain, i, true, q);
    NamesAt(s, chain[i + 1..], 0, true, q);
    assert chain[i + 1..][0] == chain[i + 1];
    PtrCounted(EntriesOf(s, chain[i]), x);
    if q == EntriesOf(s, chain[i + 1])[y].ptr { PtrCounted(EntriesOf(s, chain[i + 1]), y); }
  }

  lemma BoundsApart(s: Pages, chain: seq<PageId>, l: nat, lo: Lows, p: PageId, q: PageId)
    requires LevelFenced(s, chain, l, lo) && p in chain && q in chain && p != q && p in lo && q in lo
    ensures lo[p] != lo[q]
  {
    var a :| 0 <= a < |chain| && chain[a] == p;
    var b :| 0 <= b < |chain| && chain[b] == q;
    assert Apart(s, chain, lo, a, b) && Apart(s, chain, lo, b, a);
    KeyTotal(lo[p], lo[q]);
  }

  lemma InnerClean(s: Pages, levels: Levels, root: PageId, lo: Lows, l: nat, i: nat)
    requires TreeOk(s, levels, root) && FencedBy(s, levels, lo) && 0 < l < |levels| && i + 1 < |levels[l]|
    requires EntriesOf(s, levels[l][i + 1]) != []
    requires Below(EntriesOf(s, levels[l][i]), EntriesOf(s, levels[l][i + 1]))
    ensures CleanCut(s, levels[l][i], levels[l][i + 1])
  {
    var es, first := EntriesOf(s, levels[l][i]), EntriesOf(s, levels[l][i + 1])[0];
    forall x | 0 <= x < |es| ensures KeyLess(es[x].key, first.key) {
      assert Less(es[x], first);
      NamedOnTwo(s, levels, root, l, i, x, 0);
      ChildBelow(s, levels, root, l, i, x);
      ChildBelow(s, levels, root, l, i + 1, 0);
      KeyOf(s, levels, lo, l, i, x);
      KeyOf(s, levels, lo, l, i + 1, 0);
      assert LevelFenced(s, levels[l - 1], l - 1, lo);
      hide TreeOk, FencedBy, LevelFenced;
      BoundsApart(s, levels[l - 1], l - 1, lo, es[x].ptr, first.ptr);
    }
  }

  // ---------------------------------------------------------------- an interrupted split

  /** What the two pages of a split hold once it is finished. */
  ghost function LeftPart(v: View, l: nat, i: nat, start: nat): seq<Entry>
    requires l < |v.levels| && i + 1 < |v.levels[l]|
  {
    var es := EntriesOf(v.pages, v.levels[l][i]);
    if EntriesOf(v.pages, v.levels[l][i + 1]) != [] || start > |es| then es else es[..start]
  }

  ghost function RightPart(v: View, l: nat, i: nat, start: nat): seq<Entry>
    requires l < |v.levels| && i + 1 < |v.levels[l]|
  {
    var es := EntriesOf(v.pages, v.levels[l][i]);
    if EntriesOf(v.pages, v.levels[l][i + 1]) != [] then EntriesOf(v.pages, v.levels[l][i + 1])
    else if start > |es| then [] else es[start..]
  }

  /** The finished split starts right with `sep`, and everything left sorts below it. */
  ghost predicate Sharp(v: View, l: nat, i: nat, start: nat, sep: seq<byte>) {
    && l < |v.levels| && i + 1 < |v.levels[l]|
    && LeftPart(v, l, i, start) != [] && AllUnder(LeftPart(v, l, i, start), sep)
    && StartsWith(RightPart(v, l, i, start), sep) && KeysUp(RightPart(v, l, i, start))
  }

  lemma PairParts(a: View, s: Pages, l: nat, i: nat, rec: Clr)
    requires PairAfter(a, s, l, i, rec)
    ensures EntriesOf(s, rec.left) == LeftPart(a, l, i, rec.start)
    ensures EntriesOf(s, rec.right) == RightPart(a, l, i, rec.start)
  {
  }

  lemma PoisedPair(a: View, root: PageId, lo: Lows, l: nat, i: nat, rec: Clr, lsn: nat) returns (s1: Pages)
    requires TreeOk(a.pages, a.levels, root) && Interrupted(a, l, i) && ForPair(rec, a, l, i)
    requires PdLsn(At(a.pages, rec.left)) < lsn && FencedBy(a.pages, a.levels, lo) && Filled(a.pages, a.levels)
    requires Sharp(a, l, i, rec.start, rec.sep)
    ensures PairStep(rec, lsn, a.pages).Ok?
    ensures ReadyPair(a.pages, a.levels, root, l, i, rec, PairStep(rec, lsn, a.pages).value, s1)
    ensures PairAfter(a, PairStep(rec, lsn, a.pages).value, l, i, rec)
    ensures Poised(s1, a.levels, root, lo, l, i, rec.sep)
  {
    s1 := PairReady(a, root, l, i, rec, lsn);
    var t := PairStep(rec, lsn, a.pages).value;
    hide TreeOk, PairStep, FencedBy, Filled, AllUnder, KeysUp;
    PairParts(a, t, l, i, rec);
    var left, right, es := rec.left, rec.right, EntriesOf(a.pages, rec.left);
    NeighboursDiffer(a.pages, a.levels, root, l, i);
    assert EntriesOf(s1, left) == EntriesOf(t, left) && EntriesOf(s1, right) == EntriesOf(t, right);
    if EntriesOf(a.pages, right) == [] {
      assert NeverHadEntries(At(a.pages, right));
      MovedFenced(a.pages, s1, a.levels, root, lo, l, i, rec.start);
    } else {
      assert LooksSame(a.pages, s1, a.levels);
      SameFenced(a.pages, s1, a.levels, lo);
    }
    PairFilled(a, s1, l, i);
    PairHalfway(a, root, s1, l, i);
    AboveClosed(a, root, s1, l, i);
  }

  lemma PairFilled(a: View, s1: Pages, l: nat, i: nat)
    requires Filled(a.pages, a.levels) && l < |a.levels| && i + 1 < |a.levels[l]|
    requires EntriesOf(s1, a.levels[l][i]) != [] && EntriesOf(s1, a.levels[l][i + 1]) != []
    requires Open(s1, a.levels[l][i]) && !Open(a.pages, a.levels[l][i + 1])
    requires forall p :: p != a.levels[l][i] && p != a.levels[l][i + 1] ==> At(s1, p) == At(a.pages, p)
    ensures Filled(s1, a.levels)
  {
    StillFilled(a.pages, s1, a.levels);
  }

  lemma PairHalfway(a: View, root: PageId, s1: Pages, l: nat, i: nat)
    requires TreeOk(a.pages, a.levels, root) && Interrupted(a, l, i) && i + 1 < |a.levels[l]|
    requires EntriesOf(s1, a.levels[l][i]) != [] && EntriesOf(s1, a.levels[l][i + 1]) != []
    requires KeysUp(EntriesOf(s1, a.levels[l][i + 1]))
    requires Open(s1, a.levels[l][i]) && !Open(s1, a.levels[l][i + 1])
    requires forall p :: p != a.levels[l][i] && p != a.levels[l][i + 1] ==> At(s1, p) == At(a.pages, p)
    ensures Halfway(s1, a.levels[l], i)
  {
    Fences.LevelNoDup(a.pages, a.levels, root, l);
    hide TreeOk, KeysUp;
  }

  lemma AboveClosed(a: View, root: PageId, s1: Pages, l: nat, i: nat)
    requires TreeOk(a.pages, a.levels, root) && NoneOpen(a.pages, a.levels, l + 1)
    requires l < |a.levels| && i + 1 < |a.levels[l]|
    requires forall p :: p != a.levels[l][i] && p != a.levels[l][i + 1] ==> At(s1, p) == At(a.pages, p)
    ensures NoneOpen(s1, a.levels, l + 1)
    ensures forall m :: l < m < |a.levels| ==> SamePages(a.pages, s1, a.levels[m])
  {
    forall m, x | l < m < |a.levels| && 0 <= x < |a.levels[m]|
      ensures At(s1, a.levels[m][x]) == At(a.pages, a.levels[m][x])
    {
      TreeApart(a.pages, a.levels, root, m, l, x);
      assert a.levels[l][i] in a.levels[l] && a.levels[l][i + 1] in a.levels[l];
    }
  }

  lemma ChosenSame(s: Pages, s': Pages, levels: Levels, n: nat, t: nat, e: Entry, left: PageId)
    requires Chosen(s, levels, n, t, e, left) && SamePages(s, s', levels[n])
    ensures Chosen(s', levels, n, t, e, left)
  {
    hide D.Points, Less;
    if !D.Points(EntriesOf(s, levels[n][t]), left) {
      var j: nat :| PickedHalf(s, levels[n], j, t, e, left);
      assert PickedHalf(s', levels[n], j, t, e, left);
    }
  }

  /** The record of an interrupted split below the root. */
  lemma FinishLinkRanged(a: View, b: View, others: set<PageId>, root: PageId, l: nat, i: nat, j: nat, rec: Clr,
                         lsn: nat, meta: Meta)
    requires Sound(a, root, others) && LsnsBelow(a.pages, meta, lsn) && Interrupted(a, l, i) && ForPair(rec, a, l, i)
    requires rec.newRoot == INVALID
    requires l + 1 < |a.levels| && j < |a.levels[l + 1]| && a.levels[l + 1][j] == rec.parent
    requires ApplyClr(rec, lsn, Disk(a.pages, meta)).Ok?
    requires b == View(ApplyClr(rec, lsn, Disk(a.pages, meta)).value.pages, a.levels, a.freelist, a.fileEnd)
    ensures PairAfter(a, b.pages, l, i, rec) && HasLink(b.pages, b.levels, l, Entry(rec.sep, rec.right, 0))
    ensures
      && Ranged(a) && Sharp(a, l, i, rec.start, rec.sep)
      && Chosen(a.pages, a.levels, l + 1, j, Entry(rec.sep, rec.right, 0), rec.left)
      && IsLowerBound(EntriesOf(a.pages, rec.parent), Entry(rec.sep, rec.right, 0), rec.slot)
      ==> Ranged(b)
  {
    hide TreeOk, NoStrays, Ours, AllocOk, ApplyClr, PairStep, Interrupted, Bytes, Sharp, Ranged, Chosen, IsLowerBound,
         LsnsBelow, Unseen, ReadyPair, PairAfter;
    AppliedLink(a, others, root, l, i, j, rec, lsn, meta);
    var s1 := PairReady(a, root, l, i, rec, lsn);
    PairAfterSame(a, PairStep(rec, lsn, a.pages).value, b.pages, l, i, rec);
    var e := Entry(rec.sep, rec.right, 0);
    assert EntriesOf(b.pages, rec.parent)[rec.slot] == e;
    assert a.levels[l + 1][j] in a.levels[l + 1];
    if Ranged(a) && Sharp(a, l, i, rec.start, rec.sep) && Chosen(a.pages, a.levels, l + 1, j, e, rec.left)
       && IsLowerBound(EntriesOf(a.pages, rec.parent), e, rec.slot) {
      LinkRanged(a, b, root, l, i, j, rec, lsn);
    }
  }

  lemma PairAfterSame(a: View, s: Pages, s': Pages, l: nat, i: nat, rec: Clr)
    requires PairAfter(a, s, l, i, rec) && At(s', rec.left) == At(s, rec.left) && At(s', rec.right) == At(s, rec.right)
    ensures PairAfter(a, s', l, i, rec)
  {
  }

  lemma AppliedLink(a: View, others: set<PageId>, root: PageId, l: nat, i: nat, j: nat, rec: Clr, lsn: nat, meta: Meta)
    requires Sound(a, root, others) && LsnsBelow(a.pages, meta, lsn) && Interrupted(a, l, i) && ForPair(rec, a, l, i)
    requires rec.newRoot == INVALID
    requires l + 1 < |a.levels| && j < |a.levels[l + 1]| && a.levels[l + 1][j] == rec.parent
    requires ApplyClr(rec, lsn, Disk(a.pages, meta)).Ok?
    ensures PairStep(rec, lsn, a.pages).Ok? && PdLsn(At(a.pages, rec.left)) < lsn
    ensures rec.parent != rec.left && rec.parent != rec.right && rec.left != rec.right
    ensures At(a.pages, rec.parent).Page? && !Open(a.pages, rec.parent) && rec.slot <= |EntriesOf(a.pages, rec.parent)|
    ensures var t := ApplyClr(rec, lsn, Disk(a.pages, meta)).value.pages; var s := PairStep(rec, lsn, a.pages).value;
      && At(t, rec.left) == At(s, rec.left) && At(t, rec.right) == At(s, rec.right) && !Open(t, rec.parent)
      && EntriesOf(t, rec.parent) == EntriesOf(a.pages, rec.parent)[..rec.slot] + [Entry(rec.sep, rec.right, 0)]
           + EntriesOf(a.pages, rec.parent)[rec.slot..]
      && forall p :: p != rec.left && p != rec.right && p != rec.parent ==> At(t, p) == At(a.pages, p)
  {
    assert PairStep(rec, lsn, a.pages).Ok?;
    hide TreeOk, NoStrays, Ours, AllocOk, Interrupted, Bytes, ApplyClr, PairStep;
    LinkApart(a.pages, a.levels, root, l, i, j);
    PageAt(a.pages, a.levels, root, l + 1, j);
    ClosedAbove(a, l, i, j);
    UnseenBelow(rec, lsn, a.pages, meta);
    AppliedPages(rec, lsn, Disk(a.pages, meta));
  }

  lemma LinkRanged(a: View, b: View, root: PageId, l: nat, i: nat, j: nat, rec: Clr, lsn: nat)
    requires TreeOk(a.pages, a.levels, root) && Interrupted(a, l, i) && ForPair(rec, a, l, i)
    requires PdLsn(At(a.pages, rec.left)) < lsn && PairStep(rec, lsn, a.pages).Ok? && b.levels == a.levels
    requires l + 1 < |a.levels| && j < |a.levels[l + 1]| && a.levels[l + 1][j] == rec.parent
    requires rec.parent != rec.left && rec.parent != rec.right && rec.left != rec.right
    requires At(b.pages, rec.left) == At(PairStep(rec, lsn, a.pages).value, rec.left)
    requires At(b.pages, rec.right) == At(PairStep(rec, lsn, a.pages).value, rec.right)
    requires At(a.pages, rec.parent).Page? && !Open(a.pages, rec.parent) && !Open(b.pages, rec.parent)
    requires rec.slot <= |EntriesOf(a.pages, rec.parent)|
    requires EntriesOf(b.pages, rec.parent) == EntriesOf(a.pages, rec.parent)[..rec.slot]
      + [Entry(rec.sep, rec.right, 0)] + EntriesOf(a.pages, rec.parent)[rec.slot..]
    requires forall p :: p != rec.left && p != rec.right && p != rec.parent ==> At(b.pages, p) == At(a.pages, p)
    requires Ranged(a) && Sharp(a, l, i, rec.start, rec.sep)
    requires Chosen(a.pages, a.levels, l + 1, j, Entry(rec.sep, rec.right, 0), rec.left)
    requires IsLowerBound(EntriesOf(a.pages, rec.parent), Entry(rec.sep, rec.right, 0), rec.slot)
    ensures Ranged(b)
  {
    hide TreeOk, PairStep, FencedBy, Filled, Sharp, Chosen, IsLowerBound, Interrupted, Poised;
    var lo :| FencedBy(a.pages, a.levels, lo);
    var s1 := PoisedPair(a, root, lo, l, i, rec, lsn);
    assert NoneOpen(a.pages, a.levels, l + 1) by { ClosedAbove(a, l, i, j); InterruptedAbove(a, l, i); }
    AboveClosed(a, root, s1, l, i);
    ChosenSame(a.pages, s1, a.levels, l + 1, j, Entry(rec.sep, rec.right, 0), rec.left);
    assert At(s1, rec.parent) == At(a.pages, rec.parent);
    assert CommitWritten(s1, b.pages, rec.left, rec.parent, rec.slot, Entry(rec.sep, rec.right, 0));
    hide CommitWritten, ReadyPair;
    LinkCommits(s1, b.pages, a.levels, root, lo, l, i, j, rec.slot, rec.sep);
  }

  lemma InterruptedAbove(a: View, l: nat, i: nat)
    requires Interrupted(a, l, i)
    ensures NoneOpen(a.pages, a.levels, l + 1)
  {
  }

  /** The record of an interrupted split of the root. */
  lemma FinishRootRanged(a: View, b: View, others: set<PageId>, root: PageId, l: nat, i: nat, rec: Clr, lsn: nat,
                         meta: Meta)
    requires Sound(a, root, others) && LsnsBelow(a.pages, meta, lsn) && Interrupted(a, l, i) && ForPair(rec, a, l, i)
    requires rec.parent == INVALID
    requires rec.left == root && rec.level == l && l + 1 == |a.levels| && Held(a, others, rec.newRoot)
    requires rec.newRoot != INVALID && ApplyClr(rec, lsn, Disk(a.pages, meta)).Ok?
    requires b == View(ApplyClr(rec, lsn, Disk(a.pages, meta)).value.pages, a.levels + [[rec.newRoot]], a.freelist,
      a.fileEnd)
    ensures PairAfter(a, b.pages, l, i, rec) && HasLink(b.pages, b.levels, l, Entry(rec.sep, rec.right, 0))
    ensures Ranged(a) && Sharp(a, l, i, rec.start, rec.sep) ==> Ranged(b)
  {
    hide TreeOk, NoStrays, Ours, AllocOk, ApplyClr, PairStep, Interrupted, Bytes, Sharp, Ranged, Linked, LsnsBelow,
         ReadyPair, PairAfter;
    NeighboursDiffer(a.pages, a.levels, root, l, i);
    NeighboursApart(a.pages, a.levels, root, l);
    NoInvalid(a.pages, a.levels[l]);
    assert rec.left in a.levels[l] && rec.right in a.levels[l] && rec.newRoot !in a.levels[l];
    FreshApplied(a, rec, lsn, meta);
    var s1 := PairReady(a, root, l, i, rec, lsn);
    PairAfterSame(a, PairStep(rec, lsn, a.pages).value, b.pages, l, i, rec);
    assert rec.newRoot in b.levels[l + 1] && EntriesOf(b.pages, rec.newRoot)[1] == Entry(rec.sep, rec.right, 0);
    if Ranged(a) && Sharp(a, l, i, rec.start, rec.sep) {
      RootRanged(a, b, root, l, i, rec, lsn);
    }
  }

  lemma RootRanged(a: View, b: View, root: PageId, l: nat, i: nat, rec: Clr, lsn: nat)
    requires TreeOk(a.pages, a.levels, root) && Interrupted(a, l, i) && ForPair(rec, a, l, i) && rec.left == root
    requires PdLsn(At(a.pages, rec.left)) < lsn && PairStep(rec, lsn, a.pages).Ok? && l + 1 == |a.levels|
    requires Unused(a.levels, rec.newRoot) && b.levels == a.levels + [[rec.newRoot]]
    requires At(b.pages, rec.left) == At(PairStep(rec, lsn, a.pages).value, rec.left)
    requires At(b.pages, rec.right) == At(PairStep(rec, lsn, a.pages).value, rec.right)
    requires EntriesOf(b.pages, rec.newRoot) == [Entry([], rec.left, 0), Entry(rec.sep, rec.right, 0)]
    requires !Open(b.pages, rec.newRoot)
    requires forall p :: p != rec.left && p != rec.right && p != rec.newRoot ==> At(b.pages, p) == At(a.pages, p)
    requires Ranged(a) && Sharp(a, l, i, rec.start, rec.sep)
    ensures Ranged(b)
  {
    hide TreeOk, PairStep, FencedBy, Filled, Sharp, Interrupted, Poised;
    var lo :| FencedBy(a.pages, a.levels, lo);
    var s1 := PoisedPair(a, root, lo, l, i, rec, lsn);
    assert rec.right in a.levels[l];
    TopCommits(s1, b.pages, a.levels, root, lo, i, rec.newRoot, rec.sep);
  }

  // ---------------------------------------------------------------- a fresh split

  lemma PreparedFenced(a: View, root: PageId, lo: Lows, m: nat, i: nat, rec: Clr, s0: Pages, lv: Levels)
    requires TreeOk(a.pages, a.levels, root) && FencedBy(a.pages, a.levels, lo) && Filled(a.pages, a.levels)
    requires m < |a.levels| && i < |a.levels[m]| && a.levels[m][i] == rec.left && Unused(a.levels, rec.right)
    requires At(a.pages, rec.left).Page? && At(a.pages, rec.left).level == m && !Open(a.pages, rec.left)
    requires SameContent(At(a.pages, rec.right), InitRightPage(rec.left, At(a.pages, rec.left).next, m))
    requires At(s0, rec.left) == PrepareLeft(At(a.pages, rec.left), rec.right)
    requires forall p :: p != rec.left ==> At(s0, p) == At(a.pages, p)
    requires lv == a.levels[m := Spliced(a.levels[m], i, rec.right)]
    ensures FencedBy(s0, lv, lo - {rec.right}) && Filled(s0, lv)
  {
    hide TreeOk, FencedBy, Filled;
    var prep := At(s0, rec.left);
    assert Prepared(At(a.pages, rec.left), rec.left, rec.right, prep, At(a.pages, rec.right));
    PrepareFenced(a.pages, a.levels, root, lo, m, i, rec.right, prep, At(a.pages, rec.right));
    PrepareFilled(a.pages, a.levels, root, m, i, rec.right, prep, At(a.pages, rec.right));
    var s: Pages := a.pages[rec.right := At(a.pages, rec.right)][rec.left := prep];
    assert LooksSame(s, s0, lv);
    SameFenced(s, s0, lv, lo - {rec.right});
    SameFilled(s, s0, lv);
  }

  lemma PoisedFresh(a: View, others: set<PageId>, root: PageId, lo: Lows, m: nat, i: nat, rec: Clr, lsn: nat)
    returns (s1: Pages, lv: Levels)
    requires TreeOk(a.pages, a.levels, root) && NoneOpen(a.pages, a.levels, m) && 0 < m
    requires FreshRight(a, others, m, i, rec.right) && a.levels[m][i] == rec.left && !IsUnlink(rec)
    requires 1 <= rec.start < |EntriesOf(a.pages, rec.left)| && PdLsn(At(a.pages, rec.left)) < lsn
    requires rec.sep == EntriesOf(a.pages, rec.left)[rec.start].key && Sorted(EntriesOf(a.pages, rec.left))
    requires FencedBy(a.pages, a.levels, lo) && Filled(a.pages, a.levels)
    requires PairStep(rec, lsn, a.pages).Ok? ==> !Open(PairStep(rec, lsn, a.pages).value, rec.right)
    ensures lv == a.levels[m := Spliced(a.levels[m], i, rec.right)] && PairStep(rec, lsn, a.pages).Ok?
    ensures ReadyPair(a.pages, lv, root, m, i, rec, PairStep(rec, lsn, a.pages).value, s1)
    ensures i + 1 < |lv[m]| && lv[m][i] == rec.left && lv[m][i + 1] == rec.right
    ensures Poised(s1, lv, root, lo - {rec.right}, m, i, rec.sep)
  {
    hide TreeOk, FencedBy, Filled, PairStep, Bytes, Sorted, Spliced, NoneOpen;
    PageAt(a.pages, a.levels, root, m, i);
    ClosedPage(a.pages, a.levels, m, i);
    var s0;
    lv, s0 := FreshPrepared(a.pages, a.levels, root, m, i, rec);
    s1 := FreshReady(a.pages, a.levels, root, m, i, rec, lsn);
    PreparedFenced(a, root, lo, m, i, rec, s0, lv);
    MovedFenced(s0, s1, lv, root, lo - {rec.right}, m, i, rec.start);
    FreshPoised(a, root, lo, m, i, rec, s0, s1, lv);
  }

  lemma FreshPoised(a: View, root: PageId, lo: Lows, m: nat, i: nat, rec: Clr, s0: Pages, s1: Pages, lv: Levels)
    requires TreeOk(a.pages, a.levels, root) && NoneOpen(a.pages, a.levels, m) && 0 < m < |a.levels|
    requires i < |a.levels[m]| && a.levels[m][i] == rec.left && Unused(a.levels, rec.right)
    requires lv == a.levels[m := Spliced(a.levels[m], i, rec.right)] && TreeOk(s1, lv, root)
    requires i + 1 < |lv[m]| && lv[m][i] == rec.left && lv[m][i + 1] == rec.right
    requires 1 <= rec.start < |EntriesOf(a.pages, rec.left)| && Sorted(EntriesOf(a.pages, rec.left))
    requires rec.sep == EntriesOf(a.pages, rec.left)[rec.start].key
    requires FencedBy(a.pages, a.levels, lo) && FencedBy(s1, lv, lo - {rec.right}) && Filled(s0, lv)
    requires EntriesOf(s1, rec.left) == EntriesOf(a.pages, rec.left)[..rec.start]
    requires EntriesOf(s1, rec.right) == EntriesOf(a.pages, rec.left)[rec.start..]
    requires Open(s1, rec.left) && !Open(s1, rec.right) && Open(s0, rec.left) && !Open(s0, rec.right)
    requires forall p :: p != rec.left && p != rec.right ==> At(s1, p) == At(a.pages, p) && At(s0, p) == At(a.pages, p)
    ensures Poised(s1, lv, root, lo - {rec.right}, m, i, rec.sep)
  {
    hide TreeOk, FencedBy, Filled, Sorted, Strict, AllUnder, KeysUp, NoneOpen, Unused;
    var es := EntriesOf(a.pages, rec.left);
    InnerStrict(a.pages, a.levels, root, lo, m, i);
    StrictCut(es, rec.start);
    SortedTail(es, rec.start);
    SortedUp(es[rec.start..]);
    assert es[rec.start..][0] == es[rec.start];
    FreshMarks(a, root, m, i, rec.right, s1, lv);
    StillFilled(s0, s1, lv);
  }

  lemma SortedTail(es: seq<Entry>, k: nat)
    requires Sorted(es) && k <= |es|
    ensures Sorted(es[k..])
  {
  }

  lemma FreshMarks(a: View, root: PageId, m: nat, i: nat, right: PageId, s1: Pages, lv: Levels)
    requires TreeOk(a.pages, a.levels, root) && NoneOpen(a.pages, a.levels, m) && m < |a.levels| && i < |a.levels[m]|
    requires Unused(a.levels, right) && lv == a.levels[m := Spliced(a.levels[m], i, right)]
    requires i + 1 < |lv[m]| && lv[m][i] == a.levels[m][i] && lv[m][i + 1] == right
    requires forall p :: p != a.levels[m][i] && p != right ==> At(s1, p) == At(a.pages, p)
    ensures NoneOpen(s1, lv, m + 1) && !IsTwin(s1, lv[m], i)
    ensures forall k :: m < k < |lv| ==> lv[k] == a.levels[k] && SamePages(a.pages, s1, lv[k])
  {
    Fences.LevelNoDup(a.pages, a.levels, root, m);
    forall k, x | m < k < |lv| && 0 <= x < |lv[k]| ensures At(s1, lv[k][x]) == At(a.pages, lv[k][x]) {
      TreeApart(a.pages, a.levels, root, k, m, x);
      assert a.levels[m][i] in a.levels[m];
    }
    hide TreeOk;
    if i > 0 {
      SplicedAt(a.levels[m], i, right, i - 1);
      assert lv[m][i - 1] == a.levels[m][i - 1];
    }
  }

  /** The record of a fresh split below the root. */
  lemma LinkFreshRanged(a: View, b: View, others: set<PageId>, root: PageId, m: nat, i: nat, j: nat, rec: Clr,
                        lsn: nat, meta: Meta)
    requires Sound(a, root, others) && LsnsBelow(a.pages, meta, lsn) && NoneOpen(a.pages, a.levels, m) && 0 < m
    requires FreshRight(a, others, m, i, rec.right) && a.levels[m][i] == rec.left && rec.newRoot == INVALID
    requires m + 1 < |a.levels| && j < |a.levels[m + 1]| && a.levels[m + 1][j] == rec.parent
    requires 1 <= rec.start < |EntriesOf(a.pages, rec.left)|
    requires rec.sep == EntriesOf(a.pages, rec.left)[rec.start].key
    requires ApplyClr(rec, lsn, Disk(a.pages, meta)).Ok?
    requires b == SplicedView(a, ApplyClr(rec, lsn, Disk(a.pages, meta)).value.pages, m, i, rec.right, [])
    requires FreshDone(a, b, root, others, m, i, rec) && At(a.pages, rec.parent).Page?
    requires InsertEntryAt(At(a.pages, rec.parent), rec.slot, Entry(rec.sep, rec.right, 0)).Ok?
    requires At(b.pages, rec.parent)
      == Stamp(InsertEntryAt(At(a.pages, rec.parent), rec.slot, Entry(rec.sep, rec.right, 0)).value, lsn)
    requires Tidy(a, root, m) && IsLowerBound(EntriesOf(a.pages, rec.parent), Entry(rec.sep, rec.right, 0), rec.slot)
    requires Ranged(a) && Chosen(a.pages, a.levels, m + 1, j, Entry(rec.sep, rec.right, 0), rec.left)
    ensures Ranged(b)
  {
    hide TreeOk, NoStrays, Ours, AllocOk, ApplyClr, PairStep, Bytes, FencedBy, Filled, Chosen, IsLowerBound, Poised,
         NoneOpen, Sorted, Tidy, LsnsBelow, CutLevel, HoldsKept, UntouchedBelow;
    var e := Entry(rec.sep, rec.right, 0);
    SortedAt(a, root, m, i);
    FreshApart(a, others, root, m, i, j, rec);
    FreshApplied(a, rec, lsn, meta);
    var lo :| FencedBy(a.pages, a.levels, lo);
    var s1, lv := PoisedFresh(a, others, root, lo, m, i, rec, lsn);
    FreshMarks(a, root, m, i, rec.right, s1, lv);
    assert Chosen(s1, lv, m + 1, j, e, rec.left) by {
      ChosenSame(a.pages, s1, a.levels, m + 1, j, e, rec.left);
      ChosenLevels(s1, a.levels, lv, m + 1, j, e, rec.left);
    }
    assert At(s1, rec.parent) == At(a.pages, rec.parent);
    assert CommitWritten(s1, b.pages, rec.left, rec.parent, rec.slot, e);
    hide CommitWritten, ReadyPair;
    LinkCommits(s1, b.pages, lv, root, lo - {rec.right}, m, i, j, rec.slot, rec.sep);
  }

  lemma ChosenLevels(s: Pages, levels: Levels, lv: Levels, n: nat, t: nat, e: Entry, left: PageId)
    requires Chosen(s, levels, n, t, e, left) && n < |lv| && lv[n] == levels[n]
    ensures Chosen(s, lv, n, t, e, left)
  {
  }

  lemma FreshApart(a: View, others: set<PageId>, root: PageId, m: nat, i: nat, j: nat, rec: Clr)
    requires Sound(a, root, others) && NoneOpen(a.pages, a.levels, m) && FreshRight(a, others, m, i, rec.right)
    requires a.levels[m][i] == rec.left && m + 1 < |a.levels| && j < |a.levels[m + 1]|
    requires a.levels[m + 1][j] == rec.parent
    ensures rec.left != rec.right && rec.parent != rec.left && rec.parent != rec.right && rec.parent != INVALID
    ensures rec.left != INVALID && rec.right != INVALID && !Open(a.pages, rec.parent)
  {
    NeighboursApart(a.pages, a.levels, root, m);
    NeighboursApart(a.pages, a.levels, root, m + 1);
    NoInvalid(a.pages, a.levels[m]);
    NoInvalid(a.pages, a.levels[m + 1]);
    TreeApart(a.pages, a.levels, root, m + 1, m, j);
    hide TreeOk, NoStrays, Ours, Linked;
    assert rec.left in a.levels[m] && rec.parent in a.levels[m + 1];
    assert !Open(a.pages, a.levels[m + 1][j]);
  }

  lemma FreshApplied(a: View, rec: Clr, lsn: nat, meta: Meta)
    requires LsnsBelow(a.pages, meta, lsn) && ApplyClr(rec, lsn, Disk(a.pages, meta)).Ok?
    requires rec.left != rec.right && rec.parent != rec.left && rec.parent != rec.right
    requires rec.newRoot != rec.left && rec.newRoot != rec.right && !IsUnlink(rec)
    ensures PairStep(rec, lsn, a.pages).Ok? && PdLsn(At(a.pages, rec.left)) < lsn
    ensures var t := ApplyClr(rec, lsn, Disk(a.pages, meta)).value.pages; var s := PairStep(rec, lsn, a.pages).value;
      && At(t, rec.left) == At(s, rec.left) && At(t, rec.right) == At(s, rec.right)
      && (rec.newRoot != INVALID ==> At(t, rec.newRoot) == RootPage(rec, lsn))
      && forall p :: p != rec.left && p != rec.right && p != LinkOf(rec) ==> At(t, p) == At(a.pages, p)
  {
    assert PairStep(rec, lsn, a.pages).Ok?;
    hide ApplyClr, PairStep;
    UnseenBelow(rec, lsn, a.pages, meta);
    AppliedPages(rec, lsn, Disk(a.pages, meta));
  }

  /** The record of a fresh split of the root. */
  lemma PromoteFreshRanged(a: View, b: View, others: set<PageId>, root: PageId, m: nat, i: nat, rec: Clr, lsn: nat,
                           meta: Meta)
    requires Sound(a, root, others) && LsnsBelow(a.pages, meta, lsn) && NoneOpen(a.pages, a.levels, m) && 0 < m
    requires FreshRight(a, others, m, i, rec.right) && a.levels[m][i] == rec.left == root
    requires m + 1 == |a.levels| && rec.level == m && rec.newRoot != INVALID && rec.parent == INVALID
    requires Held(a, others, rec.newRoot) && rec.newRoot != rec.right
    requires 1 <= rec.start < |EntriesOf(a.pages, rec.left)|
    requires rec.sep == EntriesOf(a.pages, rec.left)[rec.start].key
    requires ApplyClr(rec, lsn, Disk(a.pages, meta)).Ok?
    requires b == SplicedView(a, ApplyClr(rec, lsn, Disk(a.pages, meta)).value.pages, m, i, rec.right, [rec.newRoot])
    requires FreshDone(a, b, rec.newRoot, others, m, i, rec) && Tidy(a, root, m) && Ranged(a)
    ensures Ranged(b)
  {
    hide TreeOk, NoStrays, Ours, AllocOk, ApplyClr, PairStep, Bytes, FencedBy, Filled, Poised, NoneOpen, Sorted, Tidy,
         LsnsBelow, CutLevel, HoldsKept, UntouchedBelow;
    SortedAt(a, root, m, i);
    RootApart(a, others, root, m, i, rec);
    FreshApplied(a, rec, lsn, meta);
    var lo :| FencedBy(a.pages, a.levels, lo);
    var s1, lv := PoisedFresh(a, others, root, lo, m, i, rec, lsn);
    assert Unused(lv, rec.newRoot) by { StillUnused(a.levels, m, i, rec.right, rec.newRoot); }
    assert EntriesOf(b.pages, rec.newRoot) == [Entry([], rec.left, 0), Entry(rec.sep, rec.right, 0)];
    assert b.levels == lv + [[rec.newRoot]];
    TopCommits(s1, b.pages, lv, root, lo - {rec.right}, i, rec.newRoot, rec.sep);
  }

  lemma StillUnused(levels: Levels, m: nat, i: nat, right: PageId, top: PageId)
    requires m < |levels| && i < |levels[m]| && Unused(levels, top) && top != right
    ensures Unused(levels[m := Spliced(levels[m], i, right)], top)
  {
    var lv := levels[m := Spliced(levels[m], i, right)];
    forall l | 0 <= l < |lv| ensures top !in lv[l] { SplicedMember(levels[m], i, right, top); }
  }

  lemma RootApart(a: View, others: set<PageId>, root: PageId, m: nat, i: nat, rec: Clr)
    requires Sound(a, root, others) && FreshRight(a, others, m, i, rec.right) && a.levels[m][i] == rec.left
    requires Held(a, others, rec.newRoot) && rec.newRoot != rec.right && rec.parent == INVALID
    ensures rec.left != rec.right && rec.left != rec.newRoot && rec.left != INVALID && rec.right != INVALID
  {
    NeighboursApart(a.pages, a.levels, root, m);
    NoInvalid(a.pages, a.levels[m]);
    hide TreeOk, NoStrays, Ours, Linked;
    assert rec.left in a.levels[m];
  }

  // ---------------------------------------------------------------- an abandoned split

  lemma AbandonRanged(a: View, b: View, root: PageId, l: nat, i: nat)
    requires TreeOk(a.pages, a.levels, root) && Interrupted(a, l, i) && AbandonStep(a, b, l, i)
    requires At(a.pages, a.levels[l][i]).Page? && Drained(a.pages, a.levels[l][i + 1])
    requires EntriesOf(b.pages, a.levels[l][i]) == EntriesOf(a.pages, a.levels[l][i])
    ensures Ranged(a) ==> Ranged(b)
  {
    if Ranged(a) {
      var lo :| FencedBy(a.pages, a.levels, lo);
      var left, right := a.levels[l][i], a.levels[l][i + 1];
      var pgL := At(a.pages, left).(next := At(a.pages, right).next,
                                    flags := At(a.pages, left).flags.(incomplete := false));
      PairPages(a, root, l, i);
      DrainedIsLeaf(a.pages, a.levels, root, l, i + 1);
      TwinHints(a, l, i);
      hide TreeOk, FencedBy, Filled, Interrupted, Linked;
      assert Unlinkable(a.pages, a.levels[l], i, pgL);
      UnlinkFenced(a.pages, a.levels, root, lo, l, i, pgL);
      var s: Pages := a.pages[left := pgL];
      AbandonLooks(a, b, root, l, i, s);
      SameFenced(s, b.pages, b.levels, lo);
      AbandonFilled(a, b, root, i);
    }
  }

  lemma TwinHints(a: View, l: nat, i: nat)
    requires Interrupted(a, l, i)
    ensures l < |a.levels| && i + 1 < |a.levels[l]| && Open(a.pages, a.levels[l][i])
    ensures !Open(a.pages, a.levels[l][i + 1])
    ensures forall c :: 0 <= c < |a.levels[l]| && At(a.pages, a.levels[l][c]).Page? ==>
      At(a.pages, a.levels[l][c]).prev != a.levels[l][i + 1]
  {
    hide PairOrdered, NoneOpen;
    forall c | 0 <= c < |a.levels[l]| && At(a.pages, a.levels[l][c]).Page?
      ensures At(a.pages, a.levels[l][c]).prev != a.levels[l][i + 1]
    {
      assert PrevOf(a.pages, a.levels[l][c]) != a.levels[l][i + 1];
    }
  }

  lemma AbandonLooks(a: View, b: View, root: PageId, l: nat, i: nat, s: Pages)
    requires TreeOk(a.pages, a.levels, root) && AbandonStep(a, b, l, i)
    requires EntriesOf(s, a.levels[l][i]) == EntriesOf(b.pages, a.levels[l][i]) && !Open(s, a.levels[l][i])
    requires forall p :: p != a.levels[l][i] ==> At(s, p) == At(a.pages, p)
    ensures LooksSame(s, b.pages, b.levels)
  {
    Fences.LevelNoDup(a.pages, a.levels, root, l);
    forall k, x | 0 <= k < |b.levels| && 0 <= x < |b.levels[k]| ensures b.levels[k][x] != a.levels[l][i + 1] {
      if k == l {
        UnsplicedAt(a.levels[l], i, x);
      } else {
        TreeApart(a.pages, a.levels, root, k, l, x);
        assert a.levels[l][i + 1] in a.levels[l];
      }
    }
  }

  lemma AbandonFilled(a: View, b: View, root: PageId, i: nat)
    requires TreeOk(a.pages, a.levels, root) && AbandonStep(a, b, 0, i) && Filled(a.pages, a.levels)
    ensures Filled(b.pages, b.levels)
  {
    forall k, x | 0 < k < |a.levels| && 0 <= x < |a.levels[k]|
      ensures At(b.pages, a.levels[k][x]) == At(a.pages, a.levels[k][x])
    {
      TreeApart(a.pages, a.levels, root, k, 0, x);
      assert a.levels[0][i] in a.levels[0] && a.levels[0][i + 1] in a.levels[0];
    }
    hide TreeOk;
  }

  // ---------------------------------------------------------------- when a cut is clean

  lemma PartsOrdered(a: View, root: PageId, l: nat, i: nat, start: nat, sep: seq<byte>)
    requires TreeOk(a.pages, a.levels, root) && Interrupted(a, l, i) && CanPair(a, l, i, start, sep)
    requires l > 0 ==> Tidy(a, root, l)
    ensures KeysUp(RightPart(a, l, i, start)) && RightPart(a, l, i, start) != []
    ensures Below(LeftPart(a, l, i, start), RightPart(a, l, i, start))
  {
    PairPages(a, root, l, i);
    if l > 0 { SortedAt(a, root, l, i + 1); }
    hide TreeOk, Tidy, NoneOpen;
    var es, right := EntriesOf(a.pages, a.levels[l][i]), EntriesOf(a.pages, a.levels[l][i + 1]);
    if right != [] {
      SortedUp(right);
    } else {
      SortedTail(es, start);
      SortedUp(es[start..]);
      assert Below(es[..start], es[start..]);
    }
  }

  lemma SharpMeans(a: View, root: PageId, l: nat, i: nat, start: nat, sep: seq<byte>)
    requires TreeOk(a.pages, a.levels, root) && Interrupted(a, l, i) && CanPair(a, l, i, start, sep)
    requires l > 0 ==> Tidy(a, root, l)
    requires StartsWith(RightPart(a, l, i, start), sep) && LeftPart(a, l, i, start) != []
    ensures Sharp(a, l, i, start, sep) <==> AllUnder(LeftPart(a, l, i, start), sep)
  {
    PartsOrdered(a, root, l, i, start, sep);
  }

  /** Above the leaves. */
  lemma InnerSharp(a: View, root: PageId, l: nat, i: nat, start: nat, sep: seq<byte>)
    requires TreeOk(a.pages, a.levels, root) && Interrupted(a, l, i) && CanPair(a, l, i, start, sep) && l > 0
    requires Tidy(a, root, l) && Ranged(a) && StartsWith(RightPart(a, l, i, start), sep)
    ensures Sharp(a, l, i, start, sep)
  {
    hide TreeOk, Tidy, FencedBy, Filled, Below, KeysUp, AllUnder, Sorted;
    PartsOrdered(a, root, l, i, start, sep);
    PairPages(a, root, l, i);
    var lo :| FencedBy(a.pages, a.levels, lo);
    var es, right := EntriesOf(a.pages, a.levels[l][i]), EntriesOf(a.pages, a.levels[l][i + 1]);
    if right != [] {
      InnerClean(a.pages, a.levels, root, lo, l, i);
      LeftHolds(a, l, i);
    } else {
      InnerStrict(a.pages, a.levels, root, lo, l, i);
      StrictCut(es, start);
      assert es[start..][0] == es[start];
    }
  }

  lemma LeftHolds(a: View, l: nat, i: nat)
    requires Interrupted(a, l, i) && Filled(a.pages, a.levels) && l > 0
    ensures EntriesOf(a.pages, a.levels[l][i]) != []
  {
    assert !IsTwin(a.pages, a.levels[l], i);
  }

  lemma NeighboursStrict(s: Pages, chain: seq<PageId>, i: nat)
    requires i + 1 < |chain| && Strict(Flat(s, chain))
    ensures Strict(EntriesOf(s, chain[i]) + EntriesOf(s, chain[i + 1]))
  {
    hide Flat, Strict;
    var p, q := chain[i], chain[i + 1];
    var pre, post := chain[..i], chain[i + 2..];
    assert chain == pre + ([p] + [q]) + post;
    FlatConcat(s, pre + ([p] + [q]), post);
    FlatConcat(s, pre, [p] + [q]);
    FlatConcat(s, [p], [q]);
    FlatOne(s, p);
    FlatOne(s, q);
    StrictMiddle(Flat(s, pre), EntriesOf(s, p) + EntriesOf(s, q), Flat(s, post));
  }

  lemma StrictMiddle(a: seq<Entry>, b: seq<Entry>, c: seq<Entry>)
    requires Strict(a + b + c)
    ensures Strict(b)
  {
    var all := a + b + c;
    forall x, y | 0 <= x < y < |b| ensures KeyLess(b[x].key, b[y].key) {
      assert b[x] == all[|a| + x] && b[y] == all[|a| + y];
    }
  }

  /** On the leaves, where no key repeats. */
  lemma LeafSharp(a: View, root: PageId, i: nat, start: nat, sep: seq<byte>)
    requires TreeOk(a.pages, a.levels, root) && Interrupted(a, 0, i) && CanPair(a, 0, i, start, sep)
    requires Strict(Flat(a.pages, a.levels[0])) && EntriesOf(a.pages, a.levels[0][i]) != []
    requires StartsWith(RightPart(a, 0, i, start), sep)
    ensures Sharp(a, 0, i, start, sep)
  {
    PartsOrdered(a, root, 0, i, start, sep);
    NeighboursStrict(a.pages, a.levels[0], i);
    hide TreeOk, Flat, KeysUp;
    var es, right := EntriesOf(a.pages, a.levels[0][i]), EntriesOf(a.pages, a.levels[0][i + 1]);
    if right != [] {
      forall x | 0 <= x < |es| ensures KeyLess(es[x].key, right[0].key) {
        assert (es + right)[x] == es[x] && (es + right)[|es|] == right[0];
      }
    } else {
      assert es + right == es;
      StrictCut(es, start);
    }
  }

  /** No key twice on the leaves, and every marked leaf has an entry. */
  ghost predicate LeavesHold(v: View) {
    && |v.levels| > 0 && Strict(Flat(v.pages, v.levels[0]))
    && forall i :: 0 <= i < |v.levels[0]| && Open(v.pages, v.levels[0][i]) ==> EntriesOf(v.pages, v.levels[0][i]) != []
  }

  lemma LeavesHoldOn(w: View, b: View, root: PageId, l: nat, i: nat)
    requires TreeOk(w.pages, w.levels, root) && Interrupted(w, l, i) && SplitFinished(w, b, l, i)
    ensures LeavesHold(w) ==> LeavesHold(b)
  {
    if LeavesHold(w) {
      Fences.LevelNoDup(w.pages, w.levels, root, 0);
      hide TreeOk, PairOrdered, Strict;
      if l > 0 {
        assert SamePages(w.pages, b.pages, w.levels[0]) && b.levels[0] == w.levels[0];
        FlatFrame(w.pages, b.pages, w.levels[0]);
      } else {
        hide Flat;
        forall x | 0 <= x < |b.levels[0]| && Open(b.pages, b.levels[0][x])
          ensures EntriesOf(b.pages, b.levels[0][x]) != []
        {
          if Drained(w.pages, w.levels[0][i + 1]) { UnsplicedAt(w.levels[0], i, x); }
          var c: nat :| c < |w.levels[0]| && w.levels[0][c] == b.levels[0][x];
          assert c != i && c != i + 1;
        }
      }
    }
  }

  // ---------------------------------------------------------------- the downlink undo leaves

  /** The level above names the page by its first key. */
  ghost predicate KeyedLink(s: Pages, levels: Levels, l: nat, p: PageId) {
    EntriesOf(s, p) != [] && HasLink(s, levels, l, Entry(EntriesOf(s, p)[0].key, p, 0))
  }

  lemma CutChosen(v: View, w: View, m: nat, j: nat, right: PageId, k: nat, e: Entry, left: PageId)
    requires CutLevel(v, w, m, j, right, k) && D.Points(EntriesOf(v.pages, v.levels[m][j]), left)
    ensures var t := if Less(e, At(v.pages, v.levels[m][j]).entries[k]) then j else j + 1;
      Chosen(w.pages, w.levels, m, t, e, left)
  {
    hide Less, Bytes;
    var es := EntriesOf(v.pages, v.levels[m][j]);
    var x := Pointed(es, left);
    SplicedAt(v.levels[m], j, right, j);
    SplicedAt(v.levels[m], j, right, j + 1);
    var chain, t := w.levels[m], if Less(e, es[k]) then j else j + 1;
    assert EntriesOf(w.pages, chain[j]) == es[..k] && EntriesOf(w.pages, chain[j + 1]) == es[k..];
    assert es[k..][0] == es[k];
    if x < k { assert es[..k][x].ptr == left; } else { assert es[k..][x - k].ptr == left; }
    assert PickedHalf(w.pages, chain, j, t, e, left);
  }

  lemma KeyedCutsClean(s: Pages, levels: Levels, l: nat, i: nat)
    requires l < |levels| && i + 1 < |levels[l]| && KeyedLink(s, levels, l, levels[l][i + 1]) && Fenced(s, levels)
    ensures CleanCut(s, levels[l][i], levels[l][i + 1])
  {
    var right := levels[l][i + 1];
    var e := Entry(EntriesOf(s, right)[0].key, right, 0);
    var lo :| FencedBy(s, levels, lo);
    hide FencedBy;
    var p :| p in levels[l + 1] && e in EntriesOf(s, p);
    var j :| 0 <= j < |levels[l + 1]| && levels[l + 1][j] == p;
    var x :| 0 <= x < |EntriesOf(s, p)| && EntriesOf(s, p)[x] == e;
    FencedCutsClean(s, levels, lo, l, i, j, x);
  }

  lemma DirectlyChosen(s: Pages, levels: Levels, n: nat, t: nat, e: Entry, left: PageId)
    requires n < |levels| && t < |levels[n]| && D.Points(EntriesOf(s, levels[n][t]), left)
    ensures Chosen(s, levels, n, t, e, left)
  {
  }

  /** The finished pair: what each page holds, and the downlink above. */
  ghost predicate Parted(a: View, b: View, l: nat, i: nat, start: nat, sep: seq<byte>) {
    && l < |a.levels| && i + 1 < |a.levels[l]|
    && EntriesOf(b.pages, a.levels[l][i]) == LeftPart(a, l, i, start)
    && EntriesOf(b.pages, a.levels[l][i + 1]) == RightPart(a, l, i, start)
    && HasLink(b.pages, b.levels, l, Entry(sep, a.levels[l][i + 1], 0))
  }

  lemma NowFinished(v: View, w: View, b: View, l: nat, i: nat, rec: Clr)
    requires UntouchedBelow(v, w, l + 1) && PairAfter(w, b.pages, l, i, rec)
    requires HasLink(b.pages, b.levels, l, Entry(rec.sep, rec.right, 0))
    ensures Parted(v, b, l, i, rec.start, rec.sep)
  {
    hide HasLink;
    assert w.levels[l] == v.levels[l] && SamePages(v.pages, w.pages, v.levels[l]);
    PairParts(w, b.pages, l, i, rec);
  }

  lemma SharpStays(v: View, w: View, l: nat, i: nat, start: nat, sep: seq<byte>)
    requires UntouchedBelow(v, w, l + 1)
    ensures Sharp(v, l, i, start, sep) ==> Sharp(w, l, i, start, sep)
  {
    assert w.levels[l] == v.levels[l] && SamePages(v.pages, w.pages, v.levels[l]);
  }

  /** What the level's undo starts from. */
  ghost predicate Settled(v: View, root: PageId, end: PageId, level: nat) {
    Tidy(v, root, level) && Roomy(v, end) && Ranged(v) && LeavesHold(v)
  }

  lemma SeparatorFits(v: View, root: PageId, l: nat, i: nat, start: nat, sep: seq<byte>)
    requires TreeOk(v.pages, v.levels, root) && Interrupted(v, l, i) && CanPair(v, l, i, start, sep)
    requires var lp, rp := At(v.pages, v.levels[l][i]), At(v.pages, v.levels[l][i + 1]);
      sep == if |rp.entries| > 0 then rp.entries[0].key else lp.entries[start].key
    ensures StartsWith(RightPart(v, l, i, start), sep)
    ensures Tidy(v, root, l) && Ranged(v) && (l == 0 ==> LeavesHold(v)) ==> Sharp(v, l, i, start, sep)
    ensures Tidy(v, root, l) && LeftPart(v, l, i, start) != [] ==>
      (Sharp(v, l, i, start, sep) <==> AllUnder(LeftPart(v, l, i, start), sep))
  {
    TwinHints(v, l, i);
    hide TreeOk, Tidy, Interrupted, Sharp, Strict, Flat, AllUnder;
    if Tidy(v, root, l) && LeftPart(v, l, i, start) != [] { SharpMeans(v, root, l, i, start, sep); }
    if Tidy(v, root, l) && Ranged(v) && (l == 0 ==> LeavesHold(v)) {
      if l > 0 { InnerSharp(v, root, l, i, start, sep); } else { LeafSharp(v, root, i, start, sep); }
    }
  }

  lemma FinishedKeyed(v: View, b: View, root: PageId, l: nat, i: nat, start: nat, sep: seq<byte>)
    requires Parted(v, b, l, i, start, sep) && StartsWith(RightPart(v, l, i, start), sep)
    requires SplitFinished(v, b, l, i) && !Drained(v.pages, v.levels[l][i + 1])
    ensures KeyedLink(b.pages, b.levels, l, v.levels[l][i + 1])
    ensures CleanCut(b.pages, v.levels[l][i], v.levels[l][i + 1]) <==> AllUnder(LeftPart(v, l, i, start), sep)
    ensures Ranged(b) ==> CleanCut(b.pages, v.levels[l][i], v.levels[l][i + 1])
  {
    assert l < |b.levels| && b.levels[l] == v.levels[l];
    hide SplitFinished;
    if Ranged(b) { KeyedCutsClean(b.pages, b.levels, l, i); }
  }
}
