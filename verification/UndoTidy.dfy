/** What undo keeps in order from one finished split to the next: separators sorted and non-empty, root flags kept.
    It is what rules every failure of a later finish out. */
module UndoTidy {
  import opened Entries
  import opened BtPages
  import opened BtLog
  import opened Chains
  import opened TreeShape
  import opened TreeOrder
  import opened PageAlloc
  import opened SplitClr
  import opened UndoSteps

  ghost predicate PageTidy(pages: Pages, p: PageId, k: nat, i: nat, root: PageId) {
    RootKept(pages, p, k, root) && (k > 0 ==> Sorted(EntriesOf(pages, p))) && Keyed(EntriesOf(pages, p), k, i)
  }

  /** Every page from level `m` up is in order. */
  ghost predicate Tidy(v: View, root: PageId, m: nat) {
    forall k, i :: m <= k < |v.levels| && 0 <= i < |v.levels[k]| ==> PageTidy(v.pages, v.levels[k][i], k, i, root)
  }

  lemma TidyInner(v: View, root: PageId, m: nat)
    requires Tidy(v, root, m)
    ensures RootsKnown(v, root, m) && InnerSorted(v.pages, v.levels, m) && Tidy(v, root, m + 1)
  {
    forall k, i | m <= k < |v.levels| && 0 <= i < |v.levels[k]|
      ensures RootKept(v.pages, v.levels[k][i], k, root) && (k > 0 ==> Sorted(EntriesOf(v.pages, v.levels[k][i])))
    {
      assert PageTidy(v.pages, v.levels[k][i], k, i, root);
    }
  }

  /** Where everything from level `m` up is in order nothing excuses a failure but the height. */
  lemma NoExcuse(e: UndoError, v: View, root: PageId, m: nat)
    requires Tidy(v, root, m) && |v.levels| <= MAX_LEVEL
    ensures !Excused(e, v, root, m)
  {
    TidyInner(v, root, m);
  }

  lemma SortedAt(v: View, root: PageId, m: nat, t: nat)
    requires Tidy(v, root, m) && 0 < m < |v.levels| && t < |v.levels[m]|
    ensures Sorted(EntriesOf(v.pages, v.levels[m][t]))
  {
    assert PageTidy(v.pages, v.levels[m][t], m, t, root);
  }

  /** An excuse holds of any state with the same tree. */
  lemma ExcusedAlike(v: View, w: View, root: PageId, m: nat)
    requires w.levels == v.levels && forall k :: 0 <= k < |v.levels| ==> SamePages(v.pages, w.pages, v.levels[k])
    ensures forall e :: Excused(e, w, root, m) ==> Excused(e, v, root, m)
  {
    forall k, x | 0 <= k < |v.levels| && 0 <= x < |v.levels[k]|
      ensures At(w.pages, v.levels[k][x]) == At(v.pages, v.levels[k][x])
    {
      assert SamePages(v.pages, w.pages, v.levels[k]);
    }
  }

  lemma TidySame(v: View, w: View, root: PageId, m: nat)
    requires Tidy(v, root, m) && w.levels == v.levels
    requires forall k :: m <= k < |v.levels| ==> SamePages(v.pages, w.pages, v.levels[k])
    ensures Tidy(w, root, m)
  {
    forall k, i | m <= k < |w.levels| && 0 <= i < |w.levels[k]| ensures PageTidy(w.pages, w.levels[k][i], k, i, root) {
      assert SamePages(v.pages, w.pages, v.levels[k]) && PageTidy(v.pages, v.levels[k][i], k, i, root);
    }
  }

  /** Below the top a new root above changes nothing. */
  lemma NoRootBelow(v: View, root: PageId, m: nat, k: nat, i: nat)
    requires TreeOk(v.pages, v.levels, root) && Tidy(v, root, m) && m <= k && k + 1 < |v.levels| && i < |v.levels[k]|
    ensures forall root' :: RootKept(v.pages, v.levels[k][i], k, root')
  {
    PageAt(v.pages, v.levels, root, k, i);
    assert PageTidy(v.pages, v.levels[k][i], k, i, root);
    if v.levels[k][i] == root { RootLevel(v.pages, v.levels, root, k, i); }
  }

  /** In order from level `n` up after a step that left the levels below alone: in order from `m` up as before. */
  lemma TidyDown(v: View, w: View, root: PageId, root': PageId, m: nat, n: nat)
    requires TreeOk(v.pages, v.levels, root) && Tidy(v, root, m) && Tidy(w, root', n) && UntouchedBelow(v, w, n)
    requires m <= n <= |v.levels|
    requires root' == root || n < |v.levels|
    ensures Tidy(w, root', m)
  {
    hide TreeOk;
    forall k, i | m <= k < |w.levels| && 0 <= i < |w.levels[k]| ensures PageTidy(w.pages, w.levels[k][i], k, i, root') {
      if k < n {
        assert w.levels[k] == v.levels[k] && SamePages(v.pages, w.pages, v.levels[k]);
        assert PageTidy(v.pages, v.levels[k][i], k, i, root) &&
               At(w.pages, v.levels[k][i]) == At(v.pages, v.levels[k][i]);
        if root' != root {
          NoRootBelow(v, root, m, k, i);
          assert RootKept(v.pages, v.levels[k][i], k, root');
        }
      }
    }
  }

  // ---------------------------------------------------------------- one record

  /** A record keeps everything from its level up in order if it does so for the three pages it writes. */
  lemma StepTidy(a: View, b: View, root: PageId, root': PageId, m: nat, i: nat, right: PageId, link: PageId, j: nat)
    requires RecordStep(a, b, m, i, right, link) && Tidy(a, root, m) && TreeOk(b.pages, b.levels, root')
    requires right in a.levels[m] ==> i + 1 < |a.levels[m]| && a.levels[m][i + 1] == right
    requires j < |b.levels[m + 1]| && b.levels[m + 1][j] == link && (root' != root ==> root == a.levels[m][i])
    requires PageTidy(b.pages, a.levels[m][i], m, i, root') && PageTidy(b.pages, right, m, i + 1, root')
    requires PageTidy(b.pages, link, m + 1, j, root')
    ensures Tidy(b, root', m)
  {
    var left := a.levels[m][i];
    NeighboursApart(b.pages, b.levels, root', m);
    NeighboursApart(b.pages, b.levels, root', m + 1);
    LinkedNoDup(b.pages, b.levels[m]);
    LinkedNoDup(b.pages, b.levels[m + 1]);
    if right !in a.levels[m] {
      SplicedAt(a.levels[m], i, right, i);
      SplicedAt(a.levels[m], i, right, i + 1);
    }
    assert b.levels[m][i] == left && b.levels[m][i + 1] == right;
    forall k, x | m <= k < |b.levels| && 0 <= x < |b.levels[k]| ensures PageTidy(b.pages, b.levels[k][x], k, x, root') {
      StepPageTidy(a, b, root, root', m, i, right, link, j, k, x);
    }
  }

  lemma StepPageTidy(a: View, b: View, root: PageId, root': PageId, m: nat, i: nat, right: PageId, link: PageId, j: nat,
                     k: nat, x: nat)
    requires RecordStep(a, b, m, i, right, link) && Tidy(a, root, m) && TreeOk(b.pages, b.levels, root')
    requires right in a.levels[m] ==> i + 1 < |a.levels[m]| && a.levels[m][i + 1] == right
    requires j < |b.levels[m + 1]| && b.levels[m + 1][j] == link && (root' != root ==> root == a.levels[m][i])
    requires PageTidy(b.pages, a.levels[m][i], m, i, root') && PageTidy(b.pages, right, m, i + 1, root')
    requires PageTidy(b.pages, link, m + 1, j, root') && NoDup(b.levels[m]) && NoDup(b.levels[m + 1])
    requires i + 1 < |b.levels[m]| && b.levels[m][i] == a.levels[m][i] && b.levels[m][i + 1] == right
    requires m <= k < |b.levels| && x < |b.levels[k]|
    ensures PageTidy(b.pages, b.levels[k][x], k, x, root')
  {
    var left, p := a.levels[m][i], b.levels[k][x];
    if p in {left, right, link} {
      WhichLevel(b.pages, b.levels, root', m, i, right, link, j, k, x);
    } else {
      assert At(b.pages, p) == At(a.pages, p);
      var y := if k == m && right !in a.levels[m] && x > i then x - 1 else x;
      if k == m && right !in a.levels[m] { SplicedAt(a.levels[m], i, right, x); }
      assert k < |a.levels| && y < |a.levels[k]| && a.levels[k][y] == p;
      assert PageTidy(a.pages, a.levels[k][y], k, y, root);
      assert y > 0 ==> x > 0;
      Reindexed(a.pages, b.pages, p, k, y, x, root, root', left);
    }
  }

  lemma Reindexed(s: Pages, s': Pages, p: PageId, k: nat, y: nat, x: nat, root: PageId, root': PageId, left: PageId)
    requires PageTidy(s, p, k, y, root) && At(s', p) == At(s, p) && p != left && (root' != root ==> root == left)
    requires (x == 0 <==> y == 0)
    ensures PageTidy(s', p, k, x, root')
  {
    forall z | 0 <= z < |EntriesOf(s', p)| ensures KeyedAt(EntriesOf(s', p)[z], k, x, z) {
      assert KeyedAt(EntriesOf(s, p)[z], k, y, z);
    }
  }

  /** Each of the three pages stands at its own index only. */
  lemma WhichLevel(pages: Pages, levels: Levels, root: PageId, m: nat, i: nat, right: PageId, link: PageId, j: nat,
                   k: nat, x: nat)
    requires TreeOk(pages, levels, root) && m + 1 < |levels| && NoDup(levels[m]) && NoDup(levels[m + 1])
    requires i + 1 < |levels[m]|
    requires levels[m][i + 1] == right && j < |levels[m + 1]| && levels[m + 1][j] == link
    requires m <= k < |levels| && x < |levels[k]| && levels[k][x] in {levels[m][i], right, link}
    ensures (k == m && x == i) || (k == m && x == i + 1) || (k == m + 1 && x == j)
  {
    if k != m { TreeApart(pages, levels, root, k, m, x); }
    if k != m + 1 { TreeApart(pages, levels, root, k, m + 1, x); }
    assert levels[m][i] in levels[m] && right in levels[m] && link in levels[m + 1];
  }

  // ---------------------------------------------------------------- the three pages

  lemma HalvesTidy(s: Pages, s': Pages, left: PageId, right: PageId, k: nat, m: nat, i: nat, root: PageId,
                   root': PageId)
    requires PageTidy(s, left, m, i, root) && Halves(At(s, left), k, At(s', left), At(s', right)) && 1 <= k
    requires !At(s', left).flags.root && !At(s', right).flags.root
    ensures PageTidy(s', left, m, i, root') && PageTidy(s', right, m, i + 1, root')
  {
    var es := EntriesOf(s, left);
    forall z | 0 <= z < |EntriesOf(s', left)| ensures KeyedAt(EntriesOf(s', left)[z], m, i, z) {
      assert KeyedAt(es[z], m, i, z);
    }
    forall z | 0 <= z < |EntriesOf(s', right)| ensures KeyedAt(EntriesOf(s', right)[z], m, i + 1, z) {
      assert KeyedAt(es[z + k], m, i, z + k);
    }
  }

  lemma LinkTidy(s: Pages, s': Pages, p: PageId, slot: nat, e: Entry, lsn: nat, m: nat, j: nat, root: PageId)
    requires PageTidy(s, p, m, j, root) && m > 0 && e.key != [] && e !in EntriesOf(s, p) && At(s, p).Page?
    requires IsLowerBound(EntriesOf(s, p), e, slot) && InsertEntryAt(At(s, p), slot, e).Ok?
    requires At(s', p) == Stamp(InsertEntryAt(At(s, p), slot, e).value, lsn)
    ensures PageTidy(s', p, m, j, root)
  {
    LinkOrdered(EntriesOf(s, p), slot, e, m, j);
  }

  lemma RootTidy(s': Pages, rec: Clr, lsn: nat)
    requires At(s', rec.newRoot) == RootPage(rec, lsn) && rec.sep != []
    ensures PageTidy(s', rec.newRoot, rec.level + 1, 0, rec.newRoot)
  {
    var es := EntriesOf(s', rec.newRoot);
    assert es == [Entry([], rec.left, 0), Entry(rec.sep, rec.right, 0)];
    assert Less(es[0], es[1]);
  }

  // ---------------------------------------------------------------- a fresh split

  /** The separator of a cut behind the first slot is not empty. */
  lemma CutKey(v: View, root: PageId, m: nat, i: nat, k: nat)
    requires Tidy(v, root, m) && m < |v.levels| && i < |v.levels[m]| && 1 <= k < |EntriesOf(v.pages, v.levels[m][i])|
    ensures EntriesOf(v.pages, v.levels[m][i])[k].key != []
  {
    assert PageTidy(v.pages, v.levels[m][i], m, i, root);
    assert KeyedAt(EntriesOf(v.pages, v.levels[m][i])[k], m, i, k);
  }

  lemma LinkFreshTidy(a: View, b: View, others: set<PageId>, root: PageId, m: nat, i: nat, j: nat, rec: Clr, lsn: nat)
    requires Sound(a, root, others) && NoneOpen(a.pages, a.levels, m) && FreshRight(a, others, m, i, rec.right)
    requires a.levels[m][i] == rec.left
    requires m + 1 < |a.levels| && j < |a.levels[m + 1]| && a.levels[m + 1][j] == rec.parent && rec.newRoot == INVALID
    requires FreshDone(a, b, root, others, m, i, rec) && 1 <= rec.start < |EntriesOf(a.pages, rec.left)|
    requires rec.sep == EntriesOf(a.pages, rec.left)[rec.start].key && At(a.pages, rec.parent).Page?
    requires InsertEntryAt(At(a.pages, rec.parent), rec.slot, Entry(rec.sep, rec.right, 0)).Ok?
    requires At(b.pages, rec.parent)
      == Stamp(InsertEntryAt(At(a.pages, rec.parent), rec.slot, Entry(rec.sep, rec.right, 0)).value, lsn)
    requires Tidy(a, root, m) && IsLowerBound(EntriesOf(a.pages, rec.parent), Entry(rec.sep, rec.right, 0), rec.slot)
    ensures Tidy(b, root, m)
  {
    CutKey(a, root, m, i, rec.start);
    BeforeLink(a, others, root, m, i, j, rec.right, rec.sep);
    assert PageTidy(a.pages, a.levels[m][i], m, i, root) && PageTidy(a.pages, a.levels[m + 1][j], m + 1, j, root);
    assert rec.right !in a.levels[m];
    hide TreeOk, NoStrays, Ours, AllocOk, NoneOpen, Sorted, Keyed;
    HalvesTidy(a.pages, b.pages, rec.left, rec.right, rec.start, m, i, root, root);
    LinkTidy(a.pages, b.pages, rec.parent, rec.slot, Entry(rec.sep, rec.right, 0), lsn, m + 1, j, root);
    StepTidy(a, b, root, root, m, i, rec.right, rec.parent, j);
  }

  lemma PromoteFreshTidy(a: View, b: View, others: set<PageId>, root: PageId, m: nat, i: nat, rec: Clr, lsn: nat)
    requires Sound(a, root, others) && FreshRight(a, others, m, i, rec.right) && a.levels[m][i] == rec.left == root
    requires m + 1 == |a.levels| && rec.level == m && rec.newRoot != INVALID
    requires FreshDone(a, b, rec.newRoot, others, m, i, rec) && 1 <= rec.start < |EntriesOf(a.pages, rec.left)|
    requires rec.sep == EntriesOf(a.pages, rec.left)[rec.start].key && At(b.pages, rec.newRoot) == RootPage(rec, lsn)
    requires Tidy(a, root, m)
    ensures Tidy(b, rec.newRoot, m)
  {
    CutKey(a, root, m, i, rec.start);
    assert PageTidy(a.pages, a.levels[m][i], m, i, root);
    assert rec.right !in a.levels[m];
    hide TreeOk, NoStrays, Ours, AllocOk, NoneOpen, Sorted, Keyed, RootPage;
    HalvesTidy(a.pages, b.pages, rec.left, rec.right, rec.start, m, i, root, rec.newRoot);
    RootTidy(b.pages, rec, lsn);
    StepTidy(a, b, root, rec.newRoot, m, i, rec.right, rec.newRoot, 0);
  }

  // ---------------------------------------------------------------- an interrupted split

  lemma PairTidy(a: View, b: View, root: PageId, root': PageId, l: nat, i: nat, rec: Clr)
    requires PairAfter(a, b.pages, l, i, rec) && Tidy(a, root, l) && (root' != root ==> root == rec.left)
    requires rec.left != rec.right && !Open(a.pages, rec.right)
    ensures PageTidy(b.pages, rec.left, l, i, root') && PageTidy(b.pages, rec.right, l, i + 1, root')
  {
    var ls, rs := EntriesOf(a.pages, rec.left), EntriesOf(a.pages, rec.right);
    assert PageTidy(a.pages, a.levels[l][i], l, i, root) && PageTidy(a.pages, a.levels[l][i + 1], l, i + 1, root);
    var k := if rs != [] then 0 else rec.start;
    forall z | 0 <= z < |EntriesOf(b.pages, rec.left)| ensures KeyedAt(EntriesOf(b.pages, rec.left)[z], l, i, z) {
      assert KeyedAt(ls[z], l, i, z);
    }
    forall z | 0 <= z < |EntriesOf(b.pages, rec.right)| ensures KeyedAt(EntriesOf(b.pages, rec.right)[z], l, i + 1, z) {
      if rs != [] { assert KeyedAt(rs[z], l, i + 1, z); } else { assert KeyedAt(ls[z + k], l, i, z + k); }
    }
  }

  /** The separator of an interrupted split is not empty. */
  lemma PairKey(v: View, root: PageId, l: nat, i: nat, start: nat)
    requires Tidy(v, root, l) && l < |v.levels| && i + 1 < |v.levels[l]| && 1 <= start
    ensures EntriesOf(v.pages, v.levels[l][i + 1]) != [] ==> EntriesOf(v.pages, v.levels[l][i + 1])[0].key != []
    ensures start < |EntriesOf(v.pages, v.levels[l][i])| ==> EntriesOf(v.pages, v.levels[l][i])[start].key != []
  {
    assert PageTidy(v.pages, v.levels[l][i], l, i, root) && PageTidy(v.pages, v.levels[l][i + 1], l, i + 1, root);
    var ls, rs := EntriesOf(v.pages, v.levels[l][i]), EntriesOf(v.pages, v.levels[l][i + 1]);
    assert rs != [] ==> KeyedAt(rs[0], l, i + 1, 0);
    assert start < |ls| ==> KeyedAt(ls[start], l, i, start);
  }

  lemma PairApplied(a: View, root: PageId, l: nat, i: nat, rec: Clr, lsn: nat, meta: Meta)
    requires TreeOk(a.pages, a.levels, root) && Interrupted(a, l, i) && ForPair(rec, a, l, i)
    requires Unseen(rec, lsn, Disk(a.pages, meta))
    requires ApplyClr(rec, lsn, Disk(a.pages, meta)).Ok?
    ensures PairAfter(a, ApplyClr(rec, lsn, Disk(a.pages, meta)).value.pages, l, i, rec)
  {
    var s1 := PairReady(a, root, l, i, rec, lsn);
    AppliedPages(rec, lsn, Disk(a.pages, meta));
    hide PairStep, ApplyClr, TreeOk, Interrupted;
  }

  lemma FinishLinkTidy(a: View, b: View, others: set<PageId>, root: PageId, l: nat, i: nat, j: nat, rec: Clr, lsn: nat,
                       meta: Meta)
    requires Sound(a, root, others) && LsnsBelow(a.pages, meta, lsn) && Interrupted(a, l, i) && ForPair(rec, a, l, i)
    requires rec.newRoot == INVALID
    requires l + 1 < |a.levels| && j < |a.levels[l + 1]| && a.levels[l + 1][j] == rec.parent && rec.sep != []
    requires ApplyClr(rec, lsn, Disk(a.pages, meta)).Ok?
    requires b == View(ApplyClr(rec, lsn, Disk(a.pages, meta)).value.pages, a.levels, a.freelist, a.fileEnd)
    requires Sound(b, root, others) && RecordStep(a, b, l, i, rec.right, rec.parent)
    requires Tidy(a, root, l) && IsLowerBound(EntriesOf(a.pages, rec.parent), Entry(rec.sep, rec.right, 0), rec.slot)
    ensures Tidy(b, root, l)
  {
    LinkApart(a.pages, a.levels, root, l, i, j);
    PageAt(a.pages, a.levels, root, l + 1, j);
    UnseenBelow(rec, lsn, a.pages, meta);
    AppliedPages(rec, lsn, Disk(a.pages, meta));
    PairApplied(a, root, l, i, rec, lsn, meta);
    NotLinkedYet(a, root, l, i, j, rec.sep);
    assert !Open(a.pages, rec.right);
    assert PageTidy(a.pages, a.levels[l + 1][j], l + 1, j, root);
    assert rec.right in a.levels[l];
    hide TreeOk, NoStrays, Ours, AllocOk, NoneOpen, Sorted, Keyed, ApplyClr, PairStep, Interrupted;
    PairTidy(a, b, root, root, l, i, rec);
    LinkTidy(a.pages, b.pages, rec.parent, rec.slot, Entry(rec.sep, rec.right, 0), lsn, l + 1, j, root);
    StepTidy(a, b, root, root, l, i, rec.right, rec.parent, j);
  }

  lemma FinishRootTidy(a: View, b: View, others: set<PageId>, root: PageId, l: nat, i: nat, rec: Clr, lsn: nat,
                       meta: Meta)
    requires Sound(a, root, others) && LsnsBelow(a.pages, meta, lsn) && Interrupted(a, l, i) && ForPair(rec, a, l, i)
    requires rec.parent == INVALID
    requires rec.left == root && rec.level == l && l + 1 == |a.levels| && Held(a, others, rec.newRoot) && rec.sep != []
    requires ApplyClr(rec, lsn, Disk(a.pages, meta)).Ok?
    requires b == View(ApplyClr(rec, lsn, Disk(a.pages, meta)).value.pages, a.levels + [[rec.newRoot]], a.freelist,
      a.fileEnd)
    requires Sound(b, rec.newRoot, others) && RecordStep(a, b, l, i, rec.right, rec.newRoot) && Tidy(a, root, l)
    ensures Tidy(b, rec.newRoot, l)
  {
    NeighboursDiffer(a.pages, a.levels, root, l, i);
    NeighboursApart(a.pages, a.levels, root, l);
    NoInvalid(a.pages, a.levels[l]);
    assert rec.left in a.levels[l] && rec.right in a.levels[l] && rec.newRoot !in a.levels[l];
    UnseenBelow(rec, lsn, a.pages, meta);
    AppliedPages(rec, lsn, Disk(a.pages, meta));
    PairApplied(a, root, l, i, rec, lsn, meta);
    assert !Open(a.pages, rec.right);
    hide TreeOk, NoStrays, Ours, AllocOk, NoneOpen, Sorted, Keyed, ApplyClr, PairStep, Interrupted, RootPage;
    PairTidy(a, b, root, rec.newRoot, l, i, rec);
    RootTidy(b.pages, rec, lsn);
    StepTidy(a, b, root, rec.newRoot, l, i, rec.right, rec.newRoot, 0);
  }

  /** An abandoned split moves nothing and leaves the others where they were or one to the left. */
  lemma AbandonTidy(a: View, b: View, root: PageId, l: nat, i: nat)
    requires AbandonStep(a, b, l, i) && Tidy(a, root, l) && TreeOk(a.pages, a.levels, root)
    requires At(a.pages, a.levels[l][i]).Page?
    requires EntriesOf(b.pages, a.levels[l][i]) == EntriesOf(a.pages, a.levels[l][i])
    requires Drained(a.pages, a.levels[l][i + 1])
    ensures Tidy(b, root, l)
  {
    var left, right := a.levels[l][i], a.levels[l][i + 1];
    DrainedIsLeaf(a.pages, a.levels, root, l, i + 1);
    LinkedNoDup(a.pages, a.levels[l]);
    hide TreeOk, Linked, Unspliced, Sorted;
    forall k, x | l <= k < |b.levels| && 0 <= x < |b.levels[k]| ensures PageTidy(b.pages, b.levels[k][x], k, x, root) {
      var y := if k == l && x > i then x + 1 else x;
      if k == l { UnsplicedAt(a.levels[l], i, x); }
      var p := b.levels[k][x];
      assert y < |a.levels[k]| && a.levels[k][y] == p;
      assert PageTidy(a.pages, a.levels[k][y], k, y, root);
      if k != l { TreeApart(a.pages, a.levels, root, k, l, y); }
      assert p != right && (p != left ==> At(b.pages, p) == At(a.pages, p));
      forall z | 0 <= z < |EntriesOf(b.pages, p)| ensures KeyedAt(EntriesOf(b.pages, p)[z], k, x, z) {
        assert KeyedAt(EntriesOf(a.pages, p)[z], k, y, z);
      }
    }
  }

  // ---------------------------------------------------------------- a whole level, and the height

  /** How many pages with an id below `n` are marked. */
  ghost function OpenIds(pages: Pages, n: nat): nat {
    if n == 0 then 0 else OpenIds(pages, n - 1) + if Open(pages, n - 1) then 1 else 0
  }

  /** Even if finishing each marked split raised the tree by a level, the levels would not run out. */
  ghost predicate Roomy(v: View, end: PageId) {
    |v.levels| + OpenIds(v.pages, end) <= MAX_LEVEL + 1
  }

  lemma {:induction false} OpenFewer(s: Pages, s': Pages, n: nat, q: PageId)
    requires forall p :: Open(s', p) ==> Open(s, p)
    ensures OpenIds(s', n) + (if q < n && Open(s, q) && !Open(s', q) then 1 else 0) <= OpenIds(s, n)
  {
    if n > 0 { OpenFewer(s, s', n - 1, q); }
  }

  lemma {:induction false} OpenCounts(s: Pages, n: nat, q: PageId)
    requires q < n && Open(s, q)
    ensures OpenIds(s, n) >= 1
  {
    if q < n - 1 { OpenCounts(s, n - 1, q); }
  }

  /** A finished split opens nothing. */
  lemma NothingOpened(w: View, b: View, root: PageId, others: set<PageId>, l: nat, i: nat, end: PageId)
    requires TreeOk(w.pages, w.levels, root) && NoStrays(b.pages, b.levels, others) && SplitFinished(w, b, l, i)
    requires AwaitingUpTo(w, l, end) && Open(w.pages, w.levels[l][i])
    ensures forall p :: Open(b.pages, p) ==> Open(w.pages, p)
  {
    NeighboursApart(w.pages, w.levels, root, l);
    LinkedNoDup(w.pages, w.levels[l]);
    hide TreeOk, Flat, Linked;
    forall p | Open(b.pages, p) ensures Open(w.pages, p) {
      assert OnTree(b.pages, b.levels, p);
      var k := At(b.pages, p).level;
      var c :| 0 <= c < |b.levels[k]| && b.levels[k][c] == p;
      if k == l {
        var x := OtherTwin(w, b, l, i, c, end);
      } else {
        assert b.levels[k] == w.levels[k] && SamePages(w.pages, b.pages, w.levels[k]);
      }
    }
  }

  lemma RoomyStep(w: View, b: View, root: PageId, others: set<PageId>, l: nat, i: nat, end: PageId)
    requires TreeOk(w.pages, w.levels, root) && NoStrays(b.pages, b.levels, others) && SplitFinished(w, b, l, i)
    requires AwaitingUpTo(w, l, end) && Open(w.pages, w.levels[l][i]) && |b.levels| <= |w.levels| + 1 && Roomy(w, end)
    ensures Roomy(b, end)
  {
    NothingOpened(w, b, root, others, l, i, end);
    OpenFewer(w.pages, b.pages, end, w.levels[l][i]);
  }

  lemma RoomToFinish(w: View, l: nat, i: nat, end: PageId)
    requires l < |w.levels| && i < |w.levels[l]| && Open(w.pages, w.levels[l][i]) && AwaitingUpTo(w, l, end)
    requires Roomy(w, end)
    ensures |w.levels| <= MAX_LEVEL
  {
    OpenCounts(w.pages, end, w.levels[l][i]);
  }

  function Seen(known: map<PageId, nat>, p: PageId): Option<nat> {
    if p in known then Some(known[p]) else None
  }

  /** Undo can finish every marked page of the level. */
  ghost predicate LevelUndoable(v: View, known: map<PageId, nat>, root: PageId, l: nat) {
    && l < |v.levels|
    && forall p :: p in v.levels[l] && Open(v.pages, p) ==> Finishable(v.pages, p, Seen(known, p), root)
  }

  /** Of the pages of level `l` marked in `v`, those from id `pid` on are as they were, twins included; no other is
      marked. */
  ghost predicate Waiting(v: View, w: View, l: nat, pid: PageId) {
    && l < |v.levels| && l < |w.levels|
    && (forall p :: p in v.levels[l] && Open(v.pages, p) && pid <= p ==> StillMarked(v, w, l, p))
    && (forall p :: p in w.levels[l] && Open(w.pages, p) ==> p in v.levels[l] && Open(v.pages, p))
  }

  ghost predicate StillMarked(v: View, w: View, l: nat, p: PageId) {
    && l < |w.levels| && p in w.levels[l] && At(v.pages, p).Page? && At(w.pages, p) == At(v.pages, p)
    && At(w.pages, At(v.pages, p).next) == At(v.pages, At(v.pages, p).next)
  }

  lemma WaitingStep(v: View, w: View, b: View, root: PageId, l: nat, i: nat, end: PageId)
    requires TreeOk(w.pages, w.levels, root) && SplitFinished(w, b, l, i) && AwaitingUpTo(w, l, end)
    requires Interrupted(w, l, i)
    requires Waiting(v, w, l, w.levels[l][i])
    ensures Waiting(v, b, l, w.levels[l][i] + 1)
  {
    var pid := w.levels[l][i];
    NeighboursApart(w.pages, w.levels, root, l);
    LinkedNoDup(w.pages, w.levels[l]);
    forall p | p in v.levels[l] && Open(v.pages, p) && pid + 1 <= p ensures StillMarked(v, b, l, p) {
      assert StillMarked(v, w, l, p);
      var c :| 0 <= c < |w.levels[l]| && w.levels[l][c] == p;
      PairUntouched(w, b, root, l, i, c, end);
    }
    hide TreeOk, Flat, Linked;
    forall p | p in b.levels[l] && Open(b.pages, p) ensures p in v.levels[l] && Open(v.pages, p) {
      var c :| 0 <= c < |b.levels[l]| && b.levels[l][c] == p;
      var x := OtherTwin(w, b, l, i, c, end);
      assert w.levels[l][x] in w.levels[l];
    }
  }

  /** Another marked page of the level, and its twin, are not written. */
  lemma PairUntouched(w: View, b: View, root: PageId, l: nat, i: nat, c: nat, end: PageId)
    requires TreeOk(w.pages, w.levels, root) && SplitFinished(w, b, l, i) && AwaitingUpTo(w, l, end)
    requires Interrupted(w, l, i)
    requires c < |w.levels[l]| && c != i && Open(w.pages, w.levels[l][c]) && NoDup(w.levels[l])
    ensures w.levels[l][c] in b.levels[l] && At(b.pages, w.levels[l][c]) == At(w.pages, w.levels[l][c])
    ensures At(b.pages, At(w.pages, w.levels[l][c]).next) == At(w.pages, At(w.pages, w.levels[l][c]).next)
  {
    NeighboursApart(w.pages, w.levels, root, l);
    NextOf(w.pages, w.levels[l], c);
    hide TreeOk, Flat, Linked, PairOrdered;
    assert Twin(w, l, c);
    assert c != i + 1 && c + 1 != i;
    if Drained(w.pages, w.levels[l][i + 1]) { UnsplicedMember(w.levels[l], i, w.levels[l][c]); }
  }

  /** The root undo started a level with is still the root, unless the level is below the top or done. */
  ghost predicate Rooted(v: View, w: View, root0: PageId, root: PageId, l: nat) {
    && l < |v.levels| <= |w.levels|
    && (l + 1 < |v.levels| || root == root0 || forall p :: p in w.levels[l] ==> !Open(w.pages, p))
  }

  lemma RootedStep(v: View, w: View, b: View, root0: PageId, root: PageId, root': PageId, l: nat, i: nat, end: PageId)
    requires TreeOk(v.pages, v.levels, root0) && AwaitingUpTo(v, l, end) && Rooted(v, w, root0, root, l)
    requires SplitFinished(w, b, l, i) && Waiting(v, w, l, w.levels[l][i]) && Open(w.pages, w.levels[l][i])
    requires Waiting(v, b, l, w.levels[l][i] + 1) && |w.levels| <= |b.levels|
    ensures Rooted(v, b, root0, root', l)
  {
    if l + 1 == |v.levels| {
      forall p | p in b.levels[l] ensures !Open(b.pages, p) {
        if Open(b.pages, p) {
          assert p in v.levels[l] && Open(v.pages, p) && w.levels[l][i] in v.levels[l] && Open(v.pages, w.levels[l][i]);
          OnlyMarked(v, root0, l, p, end);
          OnlyMarked(v, root0, l, w.levels[l][i], end);
        }
      }
    }
  }

  lemma OnlyMarked(v: View, root: PageId, l: nat, p: PageId, end: PageId)
    requires TreeOk(v.pages, v.levels, root) && AwaitingUpTo(v, l, end) && l + 1 == |v.levels|
    requires p in v.levels[l] && Open(v.pages, p)
    ensures p == root
  {
    var c :| 0 <= c < |v.levels[l]| && v.levels[l][c] == p;
    AwaitingTwin(v, l, end, c);
    MarkedTop(v.pages, v.levels, root, l, c);
  }

  /** What undo asks of a page still waiting it could have asked at the start. */
  lemma SameQuestion(v: View, w: View, root0: PageId, root: PageId, l: nat, p: PageId, known: map<PageId, nat>)
    requires Waiting(v, w, l, p) && p in w.levels[l] && Open(w.pages, p) && Rooted(v, w, root0, root, l)
    requires TreeOk(v.pages, v.levels, root0) && TreeOk(w.pages, w.levels, root)
    ensures Finishable(w.pages, p, Seen(known, p), root) <==> Finishable(v.pages, p, Seen(known, p), root0)
    ensures LevelUndoable(v, known, root0, l) ==> Finishable(v.pages, p, Seen(known, p), root0)
  {
    assert StillMarked(v, w, l, p);
    if l + 1 < |v.levels| {
      BelowTop(v, root0, l, p);
      BelowTop(w, root, l, p);
    }
  }

  lemma BelowTop(v: View, root: PageId, l: nat, p: PageId)
    requires TreeOk(v.pages, v.levels, root) && l + 1 < |v.levels| && p in v.levels[l]
    ensures p != root
  {
    var c :| 0 <= c < |v.levels[l]| && v.levels[l][c] == p;
    if p == root { RootLevel(v.pages, v.levels, root, l, c); }
  }

  lemma AllSeen(v: View, root: PageId, l: nat, end: PageId, known: map<PageId, nat>)
    requires l < |v.levels| && AwaitingUpTo(v, l, end)
    requires forall p :: p in v.levels[l] && Open(v.pages, p) && p < end ==>
      Finishable(v.pages, p, Seen(known, p), root)
    ensures LevelUndoable(v, known, root, l)
  {
    forall p | p in v.levels[l] && Open(v.pages, p) ensures p < end {
      var c :| 0 <= c < |v.levels[l]| && v.levels[l][c] == p;
    }
  }

  lemma TidyUp(v: View, root: PageId, m: nat)
    requires Tidy(v, root, 0)
    ensures Tidy(v, root, m)
  {
  }

  /** A level nothing has touched is as undoable as it was. */
  lemma SameLevel(v: View, w: View, root0: PageId, root: PageId, l: nat, end: PageId, known: map<PageId, nat>)
    requires TreeOk(v.pages, v.levels, root0) && TreeOk(w.pages, w.levels, root)
    requires l < |v.levels| <= |w.levels| && UntouchedBelow(v, w, l + 1)
    requires AwaitingUpTo(v, |v.levels| - 1, end) && (l + 1 == |v.levels| ==> root == root0)
    ensures LevelUndoable(w, known, root, l) <==> LevelUndoable(v, known, root0, l)
  {
    NeighboursApart(v.pages, v.levels, root0, l);
    hide TreeOk, Linked;
    assert w.levels[l] == v.levels[l] && SamePages(v.pages, w.pages, v.levels[l]);
    forall p | p in v.levels[l] && Open(v.pages, p)
      ensures Finishable(w.pages, p, Seen(known, p), root) <==> Finishable(v.pages, p, Seen(known, p), root0)
    {
      var c :| 0 <= c < |v.levels[l]| && v.levels[l][c] == p;
      assert Twin(v, l, c);
      NextOf(v.pages, v.levels[l], c);
      assert At(w.pages, v.levels[l][c]) == At(v.pages, v.levels[l][c]) &&
             At(w.pages, v.levels[l][c + 1]) == At(v.pages, v.levels[l][c + 1]);
      if l + 1 < |v.levels| {
        BelowTop(v, root0, l, p);
        BelowTop(w, root, l, p);
      }
    }
    forall p | p in v.levels[l] ensures Open(w.pages, p) <==> Open(v.pages, p) {
      var c :| 0 <= c < |v.levels[l]| && v.levels[l][c] == p;
      assert At(w.pages, v.levels[l][c]) == At(v.pages, v.levels[l][c]);
    }
  }

  lemma UntouchedOn(v: View, w: View, b: View, level: nat)
    requires UntouchedBelow(v, w, level + 1) && UntouchedBelow(w, b, level)
    ensures UntouchedBelow(v, b, level)
  {
    UntouchedTwice(v, w, b, level);
  }

  /** The whole tree in order, with levels to spare. */
  ghost predicate Orderly(v: View, root: PageId, end: PageId) {
    Tidy(v, root, 0) && Roomy(v, end)
  }

  lemma OrderlyFrom(v: View, root: PageId, end: PageId, m: nat)
    ensures Orderly(v, root, end) ==> Tidy(v, root, m) && Roomy(v, end)
  {
    if Tidy(v, root, 0) { TidyUp(v, root, m); }
  }

  lemma OrderlyStep(w: View, b: View, root: PageId, root': PageId, level: nat, end: PageId)
    requires TreeOk(w.pages, w.levels, root) && Orderly(w, root, end) && Tidy(b, root', level) && Roomy(b, end)
    requires UntouchedBelow(w, b, level) && level < |w.levels|
    ensures Orderly(b, root', end)
  {
    TidyDown(w, b, root, root', 0, level);
  }

  /** Undo can finish every marked page from level `m` up. */
  ghost predicate Undoable(v: View, known: map<PageId, nat>, root: PageId, m: nat) {
    forall l :: m <= l < |v.levels| ==> LevelUndoable(v, known, root, l)
  }

  lemma UndoableStep(v: View, known: map<PageId, nat>, root: PageId, m: nat)
    requires m < |v.levels|
    ensures Undoable(v, known, root, m) <==> LevelUndoable(v, known, root, m) && Undoable(v, known, root, m + 1)
  {
  }

  /** One more level undone. */
  lemma LevelDone(v: View, w: View, b: View, root0: PageId, root: PageId, root': PageId, level: nat, end: PageId,
                  known: map<PageId, nat>)
    requires TreeOk(v.pages, v.levels, root0) && AwaitingUpTo(v, |v.levels| - 1, end) && TreeOk(w.pages, w.levels, root)
    requires level < |v.levels| <= |w.levels| <= |b.levels| && UntouchedBelow(v, w, level + 1)
    requires UntouchedBelow(w, b, level) && (level + 1 == |v.levels| ==> root == root0)
    requires LevelUndoable(w, known, root, level) && Undoable(v, known, root0, level + 1)
    requires Flat(w.pages, w.levels[0]) == Flat(v.pages, v.levels[0])
    requires Flat(b.pages, b.levels[level]) == Flat(w.pages, w.levels[level])
    requires Tidy(w, root, level) && Roomy(w, end) ==> Tidy(b, root', level) && Roomy(b, end)
    ensures Undoable(v, known, root0, level) && UntouchedBelow(v, b, level)
    ensures Flat(b.pages, b.levels[0]) == Flat(v.pages, v.levels[0])
    ensures Orderly(w, root, end) ==> Orderly(b, root', end)
  {
    hide TreeOk, Flat, Tidy, Roomy, Orderly, AwaitingUpTo, LevelUndoable, Undoable, UntouchedBelow;
    SameLevel(v, w, root0, root, level, end, known);
    UndoableStep(v, known, root0, level);
    OrderlyFrom(w, root, end, level);
    if Orderly(w, root, end) { OrderlyStep(w, b, root, root', level, end); }
    if level > 0 { BottomSame(w, b, level); }
    UntouchedOn(v, w, b, level);
  }

  /** A level that failed was out of order, or one of its splits cannot be finished. */
  lemma LevelFailed(v: View, w: View, root0: PageId, root: PageId, level: nat, end: PageId, known: map<PageId, nat>)
    requires TreeOk(v.pages, v.levels, root0) && AwaitingUpTo(v, |v.levels| - 1, end) && TreeOk(w.pages, w.levels, root)
    requires level < |v.levels| <= |w.levels| && UntouchedBelow(v, w, level + 1)
    requires level + 1 == |v.levels| ==> root == root0
    requires !LevelUndoable(w, known, root, level) || !Tidy(w, root, level) || !Roomy(w, end)
    ensures !Undoable(v, known, root0, 0) || !Orderly(w, root, end)
  {
    hide TreeOk, Tidy, Roomy, Orderly, AwaitingUpTo, LevelUndoable, UntouchedBelow;
    SameLevel(v, w, root0, root, level, end, known);
    OrderlyFrom(w, root, end, level);
  }

  // ---------------------------------------------------------------- cut short and started again

  lemma AwaitingAll(v: View, l: nat, end: PageId)
    requires AwaitingUpTo(v, l, end) && NoneOpen(v.pages, v.levels, l + 1) && l < |v.levels|
    ensures AwaitingUpTo(v, |v.levels| - 1, end)
  {
  }

  /** A level with no marked page asks nothing. */
  lemma ClosedLevel(v: View, known: map<PageId, nat>, root: PageId, l: nat, k: nat)
    requires NoneOpen(v.pages, v.levels, l) && l <= k < |v.levels|
    ensures LevelUndoable(v, known, root, k)
  {
    forall p | p in v.levels[k] ensures !Open(v.pages, p) {
      var c :| 0 <= c < |v.levels[k]| && v.levels[k][c] == p;
    }
  }

  /** After a finished split undo may be started again, and it succeeds if it would have. */
  lemma RestartsAfter(w: View, b: View, root: PageId, root': PageId, l: nat, i: nat, end: PageId,
                      known: map<PageId, nat>)
    requires TreeOk(w.pages, w.levels, root) && TreeOk(b.pages, b.levels, root') && |w.levels| <= |b.levels|
    requires Interrupted(w, l, i) && AwaitingUpTo(w, l, end) && SplitFinished(w, b, l, i) && AwaitingUpTo(b, l, end)
    ensures AwaitingUpTo(b, |b.levels| - 1, end)
    ensures Undoable(w, known, root, 0) ==> Undoable(b, known, root', 0)
  {
    AwaitingAll(b, l, end);
    AwaitingAll(w, l, end);
    assert NoneOpen(b.pages, b.levels, l + 1) && UntouchedBelow(w, b, l);
    if Undoable(w, known, root, 0) {
      assert LevelUndoable(w, known, root, l);
      forall k | 0 <= k < |b.levels| ensures LevelUndoable(b, known, root', k) {
        if k > l {
          ClosedLevel(b, known, root', l + 1, k);
        } else if k < l {
          assert UntouchedBelow(w, b, k + 1) && LevelUndoable(w, known, root, k);
          SameLevel(w, b, root, root', k, end, known);
        } else {
          LevelRestarts(w, b, root, root', l, i, end, known);
        }
      }
    }
  }

  lemma LevelRestarts(w: View, b: View, root: PageId, root': PageId, l: nat, i: nat, end: PageId,
                      known: map<PageId, nat>)
    requires TreeOk(w.pages, w.levels, root) && TreeOk(b.pages, b.levels, root') && |w.levels| <= |b.levels|
    requires Interrupted(w, l, i) && AwaitingUpTo(w, l, end) && SplitFinished(w, b, l, i)
    requires LevelUndoable(w, known, root, l)
    ensures LevelUndoable(b, known, root', l)
  {
    hide TreeOk, Flat, UntouchedBelow, NoneOpen, PairOrdered, Linked, Twin, AwaitingUpTo, NoDup;
    LevelNoDup(w, root, l);
    forall p | p in b.levels[l] && Open(b.pages, p) ensures Finishable(b.pages, p, Seen(known, p), root') {
      var c :| 0 <= c < |b.levels[l]| && b.levels[l][c] == p;
      var x := OtherTwin(w, b, l, i, c, end);
      assert p in w.levels[l] && Finishable(w.pages, p, Seen(known, p), root);
      PairUntouched(w, b, root, l, i, x, end);
      if l + 1 == |w.levels| {
        OnlyMarked(w, root, l, p, end);
        assert w.levels[l][i] in w.levels[l];
        OnlyMarked(w, root, l, w.levels[l][i], end);
        assert false;
      }
      BelowTop(w, root, l, p);
      BelowTop(b, root', l, p);
    }
  }

  /** Nor does it matter if undo stops between the records of a cascade above level `l`. */
  lemma RestartsInside(v: View, w: View, root: PageId, root': PageId, l: nat, end: PageId, known: map<PageId, nat>)
    requires TreeOk(v.pages, v.levels, root) && TreeOk(w.pages, w.levels, root') && l + 1 < |v.levels| <= |w.levels|
    requires AwaitingUpTo(v, l, end) && NoneOpen(v.pages, v.levels, l + 1)
    requires UntouchedBelow(v, w, l + 1) && NoneOpen(w.pages, w.levels, l + 1)
    ensures AwaitingUpTo(w, |w.levels| - 1, end)
    ensures Undoable(v, known, root, 0) ==> Undoable(w, known, root', 0)
  {
    AwaitingAll(v, l, end);
    AwaitsUntouched(v, w, l, end);
    if Undoable(v, known, root, 0) {
      forall k | 0 <= k < |w.levels| ensures LevelUndoable(w, known, root', k) {
        if k > l {
          ClosedLevel(w, known, root', l + 1, k);
        } else {
          assert UntouchedBelow(v, w, k + 1) && LevelUndoable(v, known, root, k);
          SameLevel(v, w, root, root', k, end, known);
        }
      }
    }
  }

  lemma AwaitsUntouched(v: View, w: View, l: nat, end: PageId)
    requires AwaitingUpTo(v, l, end) && UntouchedBelow(v, w, l + 1) && NoneOpen(w.pages, w.levels, l + 1)
    ensures AwaitingUpTo(w, |w.levels| - 1, end)
  {
    forall m, i | 0 <= m < |w.levels| && 0 <= i < |w.levels[m]| && Open(w.pages, w.levels[m][i])
      ensures Twin(w, m, i) && w.levels[m][i] < end
    {
      assert m <= l && w.levels[m] == v.levels[m] && SamePages(v.pages, w.pages, v.levels[m]);
      assert Twin(v, m, i);
      forall c | 0 <= c < |w.levels[m]| ensures PrevOf(w.pages, w.levels[m][c]) != w.levels[m][i + 1] {
        assert PrevOf(v.pages, v.levels[m][c]) != v.levels[m][i + 1];
      }
    }
  }

  // ---------------------------------------------------------------- the flag an unlink leaves

  /** A finished leaf keeps the root flag if there was nothing to link. */
  ghost predicate Claims(v: View, w: View, l: nat, pid: PageId) {
    && l < |v.levels| && l < |w.levels|
    && forall p :: p in v.levels[l] && p < pid && Marooned(v.pages, p) ==> p in w.levels[l] && Claiming(w.pages, p, l)
  }

  /** Marked, flagged as the root, with a drained twin. */
  predicate Marooned(pages: Pages, p: PageId) {
    Open(pages, p) && At(pages, p).flags.root && Drained(pages, At(pages, p).next)
  }

  predicate Claiming(pages: Pages, p: PageId, l: nat) {
    At(pages, p).Page? && At(pages, p).level == l && At(pages, p).flags.root && !Open(pages, p)
  }

  lemma ClaimsStep(v: View, w: View, b: View, root0: PageId, root: PageId, l: nat, i: nat, end: PageId)
    requires TreeOk(v.pages, v.levels, root0) && TreeOk(w.pages, w.levels, root) && SplitFinished(w, b, l, i)
    requires Waiting(v, w, l, w.levels[l][i]) && AwaitingUpTo(v, l, end) && AwaitingUpTo(w, l, end)
    requires Interrupted(w, l, i) && Claims(v, w, l, w.levels[l][i])
    requires Marooned(w.pages, w.levels[l][i]) ==> Claiming(b.pages, w.levels[l][i], l)
    ensures Claims(v, b, l, w.levels[l][i] + 1)
  {
    var pid := w.levels[l][i];
    assert pid in w.levels[l] && pid in v.levels[l] && Open(v.pages, pid) && StillMarked(v, w, l, pid);
    NextIsTwin(w, root, l, i);
    TwinClosed(v, root0, l, pid, end);
    LevelNoDup(w, root, l);
    hide TreeOk, Flat, PairOrdered, UntouchedBelow, NoneOpen;
    forall p | p in v.levels[l] && p < pid + 1 && Marooned(v.pages, p)
      ensures Claiming(b.pages, p, l) && p in b.levels[l]
    {
      if p != pid { assert Claiming(w.pages, p, l) && p != w.levels[l][i + 1]; }
      var c :| 0 <= c < |w.levels[l]| && w.levels[l][c] == p;
      if p != pid { assert c != i && c != i + 1 && At(b.pages, w.levels[l][c]) == At(w.pages, w.levels[l][c]); }
      if Drained(w.pages, w.levels[l][i + 1]) { UnsplicedMember(w.levels[l], i, p); }
    }
  }

  /** No page with this id is marked, or it has been finished. */
  lemma ClaimsNext(v: View, w: View, l: nat, pid: PageId)
    requires Claims(v, w, l, pid) || Claims(v, w, l, pid + 1)
    requires Claims(v, w, l, pid + 1) || !(l < |v.levels| && pid in v.levels[l] && Open(v.pages, pid))
    ensures Claims(v, w, l, pid + 1)
  {
  }

  /** After the leaves a claim below the top is one the meta page does not back. */
  lemma ClaimsStay(v: View, w: View, b: View, root0: PageId, root': PageId, end: PageId, known: map<PageId, nat>)
    requires TreeOk(v.pages, v.levels, root0) && TreeOk(b.pages, b.levels, root') && 1 < |v.levels| <= |b.levels|
    requires UntouchedBelow(v, w, 1) && Claims(w, b, 0, end) && AwaitingUpTo(v, |v.levels| - 1, end)
    requires Undoable(v, known, root0, 0)
    ensures forall p :: p in v.levels[0] && Open(v.pages, p) && At(v.pages, p).flags.root ==>
      Claiming(b.pages, p, 0) && p != root'
  {
    NeighboursApart(v.pages, v.levels, root0, 0);
    hide TreeOk, Linked;
    assert LevelUndoable(v, known, root0, 0) && w.levels[0] == v.levels[0] && SamePages(v.pages, w.pages, v.levels[0]);
    forall p | p in v.levels[0] && Open(v.pages, p) && At(v.pages, p).flags.root
      ensures Claiming(b.pages, p, 0) && p != root'
    {
      var c :| 0 <= c < |v.levels[0]| && v.levels[0][c] == p;
      BelowTop(v, root0, 0, p);
      assert Twin(v, 0, c) && v.levels[0][c] < end && Finishable(v.pages, p, Seen(known, p), root0);
      NextOf(v.pages, v.levels[0], c);
      assert At(w.pages, v.levels[0][c]) == At(v.pages, v.levels[0][c]);
      assert At(w.pages, v.levels[0][c + 1]) == At(v.pages, v.levels[0][c + 1]);
      assert Marooned(w.pages, p);
      BelowTop(b, root', 0, p);
    }
  }

  lemma LevelNoDup(v: View, root: PageId, l: nat)
    requires TreeOk(v.pages, v.levels, root) && l < |v.levels|
    ensures NoDup(v.levels[l])
  {
    NeighboursApart(v.pages, v.levels, root, l);
  }

  lemma TwinClosed(v: View, root: PageId, l: nat, p: PageId, end: PageId)
    requires TreeOk(v.pages, v.levels, root) && l < |v.levels| && p in v.levels[l] && Open(v.pages, p)
    requires AwaitingUpTo(v, l, end)
    ensures At(v.pages, p).Page? && !Open(v.pages, At(v.pages, p).next)
  {
    NeighboursApart(v.pages, v.levels, root, l);
    var c :| 0 <= c < |v.levels[l]| && v.levels[l][c] == p;
    NextOf(v.pages, v.levels[l], c);
    assert Twin(v, l, c);
  }

  lemma LevelStarts(v: View, root: PageId, level: nat)
    requires TreeOk(v.pages, v.levels, root) && level < |v.levels|
    ensures UntouchedBelow(v, v, level) && Waiting(v, v, level, 1) && Claims(v, v, level, 1)
    ensures Rooted(v, v, root, root, level) && forall i :: 0 <= i < |v.levels[level]| ==> 1 <= v.levels[level][i]
  {
    UntouchedSelf(v, level);
    RealIds(v.pages, v.levels, root, level);
    LevelNumbers(v.pages, v.levels, root, level);
  }

  lemma WaitingNext(v: View, w: View, l: nat, pid: PageId)
    requires Waiting(v, w, l, pid) || Waiting(v, w, l, pid + 1)
    ensures Waiting(v, w, l, pid + 1)
  {
  }

  lemma ClaimsUpTo(v: View, w: View, l: nat, pid: PageId, end: PageId)
    requires Claims(v, w, l, pid) && end <= pid
    ensures Claims(v, w, l, end)
  {
  }

  lemma MarkedStill(v: View, w: View, l: nat, p: PageId)
    requires Waiting(v, w, l, p) && l < |v.levels| && p in v.levels[l] && Open(v.pages, p)
    ensures StillMarked(v, w, l, p)
  {
  }

  lemma UndoStarts(v: View, root: PageId, known: map<PageId, nat>)
    requires TreeOk(v.pages, v.levels, root)
    ensures |v.levels| > 0 && At(v.pages, root).Page? && At(v.pages, root).level == |v.levels| - 1
    ensures Undoable(v, known, root, |v.levels|) && UntouchedBelow(v, v, |v.levels|)
    ensures NoneOpen(v.pages, v.levels, |v.levels|)
  {
    RootIsTop(v.pages, v.levels, root);
    UntouchedSelf(v, |v.levels|);
  }
}
