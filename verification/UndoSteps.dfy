/** What undo's compensation records do to the tree: one record at a time, as values, for an interrupted split and for
    the fresh splits its downlink may force above it. */
module UndoSteps {
  import opened Entries
  import opened BtPages
  import opened BtLog
  import opened Chains
  import opened SplitPoint
  import opened TreeShape
  import opened TreeOrder
  import opened PageAlloc
  import opened Descent
  import opened SplitClr

  datatype UndoError = TooFewEntries | NothingToMove | NoParent | NoMeta | LevelOverflow | ApplyFailed(why: ClrError)

  /** No unmarked page above the leaves, from level `m` up, claims to be the root but the one the meta page names. */
  ghost predicate RootsKnown(v: View, root: PageId, m: nat) {
    forall k, i :: m <= k < |v.levels| && 0 <= i < |v.levels[k]| ==> RootKept(v.pages, v.levels[k][i], k, root)
  }

  /** Why finishing a split on level `m` may fail at all: an unknown root, a tree of full height, or separators out of
      order above the level. */
  ghost predicate Excused(e: UndoError, v: View, root: PageId, m: nat) {
    match e
    case NoMeta => !RootsKnown(v, root, m)
    case LevelOverflow => |v.levels| > MAX_LEVEL
    case ApplyFailed(why) => why == NoSpace && !InnerSorted(v.pages, v.levels, m)
    case _ => false
  }

  lemma ExcusedBelow(e: UndoError, v: View, root: PageId, m: nat)
    requires 0 < m && Excused(e, v, root, m)
    ensures Excused(e, v, root, m - 1)
  {
  }

  /** The state a step of undo may change. */
  datatype View = View(pages: Pages, levels: Levels, freelist: seq<PageId>, fileEnd: PageId)

  /** Every level below `m` is as it was. */
  ghost predicate UntouchedBelow(a: View, b: View, m: nat) {
    && m <= |a.levels| <= |b.levels|
    && forall k :: 0 <= k < m ==> b.levels[k] == a.levels[k] && SamePages(a.pages, b.pages, a.levels[k])
  }

  /** Allocated for this tree, not in it yet. */
  ghost predicate Held(v: View, others: set<PageId>, r: PageId) {
    Reserved(v.levels, v.freelist, v.fileEnd, r) && r !in others
  }

  /** Pages held for later, `used` excepted, stay held and unwritten. */
  ghost predicate HoldsKept(a: View, b: View, others: set<PageId>, used: set<PageId>) {
    forall x :: Held(a, others, x) && x !in used ==> Held(b, others, x) && At(b.pages, x) == At(a.pages, x)
  }

  /** Page `i` of level `m` cut in two at slot `k`, with `right` behind it, and committed. */
  ghost predicate CutLevel(a: View, b: View, m: nat, i: nat, right: PageId, k: nat) {
    && m < |a.levels| <= |b.levels| && i < |a.levels[m]| && b.levels[m] == Spliced(a.levels[m], i, right)
    && Halves(At(a.pages, a.levels[m][i]), k, At(b.pages, a.levels[m][i]), At(b.pages, right))
    && 1 <= k < |At(a.pages, a.levels[m][i]).entries|
  }

  ghost predicate HasRoom(pages: Pages, p: PageId, m: nat, e: Entry) {
    At(pages, p).Page? && Cost(m, e) <= FreeSpace(At(pages, p))
  }

  ghost predicate OnTree(pages: Pages, levels: Levels, p: PageId) {
    At(pages, p).Page? && At(pages, p).level < |levels| && p in levels[At(pages, p).level]
  }

  /** Pages outside the tree belong to other relations: the internal ones name only those relations' pages, and none
      is marked. A scan of the whole file for a parent or for marked pages has to rely on that. */
  ghost predicate NoStrays(pages: Pages, levels: Levels, others: set<PageId>) {
    && (forall p :: NamesOurs(At(pages, p), others) ==> OnTree(pages, levels, p))
    && (forall p :: Open(pages, p) ==> OnTree(pages, levels, p))
  }

  ghost predicate NamesOurs(pg: Page, others: set<PageId>) {
    pg.Page? && !pg.flags.leaf && exists x :: 0 <= x < |pg.entries| && pg.entries[x].ptr !in others
  }

  /** The tree and everything the allocator may still hand out are nobody else's. */
  ghost predicate Ours(levels: Levels, freelist: seq<PageId>, fileEnd: PageId, others: set<PageId>) {
    && (forall l, i :: 0 <= l < |levels| && 0 <= i < |levels[l]| ==> levels[l][i] !in others)
    && (forall k :: 0 <= k < |freelist| ==> freelist[k] !in others)
    && (forall p :: p in others ==> p < fileEnd)
  }

  ghost predicate LsnsBelow(pages: Pages, meta: Meta, lsn: nat) {
    0 < lsn && meta.lsn < lsn && forall p :: p in pages ==> PdLsn(pages[p]) < lsn
  }

  // ---------------------------------------------------------------- what one record does to the tree

  /** The pair just before its Commit: the left page still marked, linked to the right one. */
  ghost predicate OpenPair(s: Pages, levels: Levels, l: nat, i: nat, right: PageId) {
    l < |levels| && i < |levels[l]| && Open(s, levels[l][i]) && At(s, levels[l][i]).next == right
  }

  /** A downlink in an existing parent and the mark off the left page: the record's effect is a Commit. */
  lemma ParentRecordKeeps(s: Pages, levels: Levels, root: PageId, l: nat, i: nat, j: nat, rec: Clr, lsn: nat, s': Pages)
    requires TreeOk(s, levels, root) && OpenPair(s, levels, l, i, rec.right) && l + 1 < |levels| && j < |levels[l + 1]|
    requires levels[l][i] == rec.left && levels[l + 1][j] == rec.parent && |rec.sep| <= MAX_INDEX_KEY_BYTES
    requires At(s, rec.parent).Page? && InsertEntryAt(At(s, rec.parent), rec.slot, Entry(rec.sep, rec.right, 0)).Ok?
    requires SameContent(At(s', rec.left), CommitLeft(At(s, rec.left)))
    requires At(s', rec.parent)
      == Stamp(InsertEntryAt(At(s, rec.parent), rec.slot, Entry(rec.sep, rec.right, 0)).value, lsn)
    requires forall p :: p != rec.left && p != rec.parent ==> At(s', p) == At(s, p)
    ensures TreeOk(s', levels, root)
  {
    var t := s[rec.parent := At(s', rec.parent)][rec.left := At(s', rec.left)];
    CommitKeeps(s, levels, root, l, i, j, rec.slot, rec.sep, rec.right, At(s', rec.left), At(s', rec.parent));
    TreeSees(t, s', levels, root);
  }

  /** The tree depends on nothing but its own pages. */
  lemma TreeSees(s: Pages, s': Pages, levels: Levels, root: PageId)
    requires TreeOk(s, levels, root) && forall m :: 0 <= m < |levels| ==> SamePages(s, s', levels[m])
    ensures TreeOk(s', levels, root)
  {
    hide Names, PageOk, Linked;
    forall m | 0 <= m < |levels| ensures LevelOk(s', levels[m], m, root) && NamedOnce(s', levels, root, m) {
      assert LevelOk(s, levels[m], m, root) && NamedOnce(s, levels, root, m);
      assert SamePages(s, s', levels[m]) && (m + 1 < |levels| ==> SamePages(s, s', levels[m + 1]));
      LevelFrame(s, s', levels[m], m, root);
      forall q
        ensures Downlinks(s', levels, root, m, q) + Names(s', levels[m], false, q) == if q in levels[m] then 1 else 0
      {
        assert Downlinks(s, levels, root, m, q) + Names(s, levels[m], false, q) == if q in levels[m] then 1 else 0;
        NamesFrame(s, s', levels[m], false, q);
        if m + 1 < |levels| { NamesFrame(s, s', levels[m + 1], true, q); }
      }
    }
  }

  /** A new root with both downlinks: promotion followed by a Commit into it. */
  lemma RootRecordKeeps(s: Pages, levels: Levels, root: PageId, i: nat, rec: Clr, lsn: nat, s': Pages)
    requires TreeOk(s, levels, root) && rec.level + 1 == |levels| && OpenPair(s, levels, rec.level, i, rec.right)
    requires levels[rec.level][i] == rec.left && rec.left == root && Unused(levels, rec.newRoot)
    requires |rec.sep| <= MAX_INDEX_KEY_BYTES
    requires SameContent(At(s', rec.left), CommitLeft(At(s, rec.left))) && At(s', rec.newRoot) == RootPage(rec, lsn)
    requires forall p :: p != rec.left && p != rec.newRoot ==> At(s', p) == At(s, p)
    ensures TreeOk(s', levels + [[rec.newRoot]], rec.newRoot)
  {
    var l, up := rec.level, levels + [[rec.newRoot]];
    var promoted: Pages := s[rec.newRoot := NewRootPage(l + 1, root, lsn)];
    NewRootKeeps(s, levels, root, rec.newRoot, lsn);
    var t: Pages := promoted[rec.newRoot := At(s', rec.newRoot)][rec.left := At(s', rec.left)];
    assert rec.newRoot != rec.left;
    CommitKeeps(promoted, up, rec.newRoot, l, i, 0, 1, rec.sep, rec.right, At(s', rec.left), At(s', rec.newRoot));
    TreeSees(t, s', up, rec.newRoot);
  }

  /** The state the pair is in right before the record's Commit, with the entry sequence of the level intact. */
  ghost predicate ReadyPair(s: Pages, levels: Levels, root: PageId, l: nat, i: nat, rec: Clr, t: Pages, s1: Pages) {
    && TreeOk(s1, levels, root) && OpenPair(s1, levels, l, i, rec.right) && levels[l][i] == rec.left
    && At(t, rec.left).Page? && SameContent(At(t, rec.left), CommitLeft(At(s1, rec.left)))
    && At(s1, rec.right) == At(t, rec.right)
    && (forall p :: p != rec.left && p != rec.right ==> At(s1, p) == At(s, p) && At(t, p) == At(s, p))
    && PrevOf(s1, rec.left) == PrevOf(s, rec.left) && PrevOf(s1, rec.right) == PrevOf(s, rec.right)
  }

  function PrevOf(pages: Pages, p: PageId): PageId {
    if At(pages, p).Page? then At(pages, p).prev else INVALID
  }

  /** The pair a finished Copy left behind: the left half sorted and wholly below the right one. */
  ghost predicate PairOrdered(left: Page, right: Page) {
    left.Page? && right.Page? && Sorted(left.entries) && Below(left.entries, right.entries)
  }

  lemma RebuildWhole(pg: Page, p: PageId, l: nat, root: PageId)
    requires PageOk(pg, p, l, root)
    ensures PageOk(Rebuild(pg, |pg.entries|), p, l, root) && Rebuild(pg, |pg.entries|).entries == pg.entries
  {
    assert pg.entries[..|pg.entries|] == pg.entries;
  }

  /** NoMove: both pages keep their entries; at most the left page's dead bytes go. */
  lemma NoMoveReady(s: Pages, levels: Levels, root: PageId, l: nat, i: nat, rec: Clr, lsn: nat) returns (s1: Pages)
    requires TreeOk(s, levels, root) && OpenPair(s, levels, l, i, rec.right) && i + 1 < |levels[l]|
    requires levels[l][i] == rec.left && levels[l][i + 1] == rec.right && !IsUnlink(rec)
    requires At(s, rec.right).Page? && At(s, rec.right).entries != [] && PairOrdered(At(s, rec.left), At(s, rec.right))
    requires PdLsn(At(s, rec.left)) < lsn
    ensures PairStep(rec, lsn, s).Ok? && ReadyPair(s, levels, root, l, i, rec, PairStep(rec, lsn, s).value, s1)
    ensures forall p :: EntriesOf(s1, p) == EntriesOf(s, p)
  {
    var left, right := At(s, rec.left), At(s, rec.right);
    PageAt(s, levels, root, l, i);
    PageAt(s, levels, root, l, i + 1);
    NeighboursDiffer(s, levels, root, l, i);
    CutBeyond(left.entries, right.entries[0]);
    RebuildWhole(left, rec.left, l, root);
    var kept := if left.entries == [] then left else Rebuild(left, |left.entries|);
    var mid := s[rec.right := Stamp(right, lsn)];
    TreeReplace(s, levels, root, l, i + 1, Stamp(right, lsn));
    TreeReplace(mid, levels, root, l, i, kept);
    s1 := mid[rec.left := kept];
  }

  lemma MoveStep(s: Pages, rec: Clr, lsn: nat, l: nat, root: PageId)
    requires PageOk(At(s, rec.left), rec.left, l, root) && At(s, rec.right).Page? && At(s, rec.right).level == l
    requires rec.left != rec.right
    requires OwesMove(rec, s) && 1 <= rec.start < |At(s, rec.left).entries| && PdLsn(At(s, rec.left)) < lsn
    ensures SplitCopy(At(s, rec.left), At(s, rec.right), rec.start, true).Ok? && PairStep(rec, lsn, s).Ok?
    ensures var (a, b) := SplitCopy(At(s, rec.left), At(s, rec.right), rec.start, true).value;
      var t := PairStep(rec, lsn, s).value;
      && Copied(At(s, rec.left), At(s, rec.right), rec.start, Stamp(a, lsn), Stamp(b, lsn)) && a.Page?
      && a.flags == At(s, rec.left).flags
      && At(t, rec.left) == Stamp(Finished(a, rec.right), lsn) && At(t, rec.right) == Stamp(b, lsn)
      && forall p :: p != rec.left && p != rec.right ==> At(t, p) == At(s, p)
  {
    CopySucceeds(At(s, rec.left), rec.left, At(s, rec.right), l, root, rec.start, lsn);
  }

  /** Move: Copy, then as above. */
  lemma MoveReady(s: Pages, levels: Levels, root: PageId, l: nat, i: nat, rec: Clr, lsn: nat) returns (s1: Pages)
    requires TreeOk(s, levels, root) && OpenPair(s, levels, l, i, rec.right) && i + 1 < |levels[l]|
    requires levels[l][i] == rec.left && levels[l][i + 1] == rec.right && PdLsn(At(s, rec.left)) < lsn
    requires OwesMove(rec, s) && 1 <= rec.start < |At(s, rec.left).entries|
    ensures PairStep(rec, lsn, s).Ok? && ReadyPair(s, levels, root, l, i, rec, PairStep(rec, lsn, s).value, s1)
    ensures Halves(At(s, rec.left), rec.start, At(s1, rec.left), At(s1, rec.right))
    ensures Flat(s1, levels[l]) == Flat(s, levels[l])
  {
    hide Flat;
    var left, right := At(s, rec.left), At(s, rec.right);
    PageAt(s, levels, root, l, i);
    PageAt(s, levels, root, l, i + 1);
    NeighboursDiffer(s, levels, root, l, i);
    NeighboursApart(s, levels, root, l);
    MoveStep(s, rec, lsn, l, root);
    hide TreeOk, PairStep, PageOk, Bytes, Linked, SplitCopy;
    var (a, b) := SplitCopy(left, right, rec.start, true).value;
    var pgL, pgR := Stamp(a, lsn), Stamp(b, lsn);
    CopyKeeps(s, levels, root, l, i, rec.start, pgL, pgR);
    CopyFlat(s, levels[l], i, rec.start, pgL, pgR);
    s1 := s[rec.left := pgL][rec.right := pgR];
  }

  /** A fresh split of undo's own: Prepare, then Move. */
  lemma FreshReady(s: Pages, levels: Levels, root: PageId, l: nat, i: nat, rec: Clr, lsn: nat) returns (s1: Pages)
    requires TreeOk(s, levels, root) && l < |levels| && i < |levels[l]| && levels[l][i] == rec.left
    requires Unused(levels, rec.right)
    requires !Open(s, rec.left) && At(s, rec.left).Page? && PdLsn(At(s, rec.left)) < lsn && !IsUnlink(rec)
    requires SameContent(At(s, rec.right), InitRightPage(rec.left, At(s, rec.left).next, l))
    requires 1 <= rec.start < |At(s, rec.left).entries|
    ensures PairStep(rec, lsn, s).Ok?
    ensures ReadyPair(s, levels[l := Spliced(levels[l], i, rec.right)], root, l, i, rec, PairStep(rec, lsn, s).value,
      s1)
    ensures Halves(At(s, rec.left), rec.start, At(s1, rec.left), At(s1, rec.right))
  {
    var lv, s0 := FreshPrepared(s, levels, root, l, i, rec);
    hide TreeOk, PairStep, PageOk, Bytes, ReadyPair, Spliced;
    s1 := MoveReady(s0, lv, root, l, i, rec, lsn);
    FreshPairStep(rec, lsn, s, s0);
    ReadyTransfer(s, s0, lv, root, l, i, rec, PairStep(rec, lsn, s).value, PairStep(rec, lsn, s0).value, s1);
  }

  /** The state a Prepare would have left. */
  lemma FreshPrepared(s: Pages, levels: Levels, root: PageId, l: nat, i: nat, rec: Clr) returns (lv: Levels, s0: Pages)
    requires TreeOk(s, levels, root) && l < |levels| && i < |levels[l]| && levels[l][i] == rec.left
    requires Unused(levels, rec.right)
    requires !Open(s, rec.left) && At(s, rec.left).Page? && !IsUnlink(rec)
    requires SameContent(At(s, rec.right), InitRightPage(rec.left, At(s, rec.left).next, l))
    requires 1 <= rec.start < |At(s, rec.left).entries|
    ensures lv == levels[l := Spliced(levels[l], i, rec.right)] && TreeOk(s0, lv, root)
    ensures OpenPair(s0, lv, l, i, rec.right)
    ensures i + 1 < |lv[l]| && lv[l][i] == rec.left && lv[l][i + 1] == rec.right && rec.left != rec.right
    ensures At(s0, rec.left) == PrepareLeft(At(s, rec.left), rec.right)
    ensures forall p :: p != rec.left ==> At(s0, p) == At(s, p)
    ensures OwesMove(rec, s) && OwesMove(rec, s0) && rec.start < |At(s0, rec.left).entries|
    ensures PdLsn(At(s0, rec.left)) == PdLsn(At(s, rec.left)) && At(s, rec.right).Page?
    ensures At(s0, rec.left).Page? && At(s0, rec.left).entries == At(s, rec.left).entries
    ensures At(s0, rec.left).level == At(s, rec.left).level
  {
    PageAt(s, levels, root, l, i);
    var prep := PrepareLeft(At(s, rec.left), rec.right);
    lv := levels[l := Spliced(levels[l], i, rec.right)];
    assert rec.left != rec.right;
    PrepareKeeps(s, levels, root, l, i, rec.right, prep, At(s, rec.right));
    s0 := s[rec.right := At(s, rec.right)][rec.left := prep];
    SplicedAt(levels[l], i, rec.right, i);
    SplicedAt(levels[l], i, rec.right, i + 1);
  }

  lemma ReadyTransfer(s: Pages, s0: Pages, levels: Levels, root: PageId, l: nat, i: nat, rec: Clr, t: Pages, t0: Pages,
                      s1: Pages)
    requires ReadyPair(s0, levels, root, l, i, rec, t0, s1) && At(s, rec.left).Page? && At(s, rec.right).Page?
    requires At(s0, rec.left) == PrepareLeft(At(s, rec.left), rec.right)
    requires (forall p :: p != rec.left ==> At(s0, p) == At(s, p))
    requires forall p :: At(t, p) == At(t0, p)
    ensures ReadyPair(s, levels, root, l, i, rec, t, s1)
  {
    hide TreeOk;
  }

  /** The record itself establishes the link a Prepare would have. */
  lemma FreshPairStep(rec: Clr, lsn: nat, s: Pages, s0: Pages)
    requires At(s, rec.left).Page? && rec.left != rec.right && OwesMove(rec, s) && PdLsn(At(s, rec.left)) < lsn
    requires At(s0, rec.left) == PrepareLeft(At(s, rec.left), rec.right)
    requires forall p :: p != rec.left ==> At(s0, p) == At(s, p)
    requires PairStep(rec, lsn, s0).Ok?
    ensures PairStep(rec, lsn, s).Ok?
    ensures forall p :: At(PairStep(rec, lsn, s).value, p) == At(PairStep(rec, lsn, s0).value, p)
  {
    var left := At(s, rec.left);
    assert rec.start <= |left.entries|;
    assert Rebuild(At(s0, rec.left), rec.start) == PrepareLeft(Rebuild(left, rec.start), rec.right);
    assert Finished(Rebuild(At(s0, rec.left), rec.start), rec.right) == Finished(Rebuild(left, rec.start), rec.right);
    hide Bytes, TotalCost;
    var t, t0 := PairStep(rec, lsn, s).value, PairStep(rec, lsn, s0).value;
    forall p ensures At(t, p) == At(t0, p) {
      if p != rec.left && p != rec.right { assert At(s0, p) == At(s, p); }
    }
  }

  lemma RootIsTop(pages: Pages, levels: Levels, root: PageId)
    requires TreeOk(pages, levels, root)
    ensures |levels| > 0 && At(pages, root).Page? && At(pages, root).level == |levels| - 1
  {
    RootOnTop(pages, levels, root);
    var i := OnLevel(pages, levels, root, |levels| - 1, root);
  }

  /** On the levels up to `l` every marked page has its twin, and an id below `end`. */
  ghost predicate AwaitingUpTo(v: View, l: nat, end: PageId) {
    forall m, i :: 0 <= m <= l && m < |v.levels| && 0 <= i < |v.levels[m]| && Open(v.pages, v.levels[m][i]) ==>
      Twin(v, m, i) && v.levels[m][i] < end
  }

  lemma UntouchedSelf(v: View, l: nat)
    requires l <= |v.levels|
    ensures UntouchedBelow(v, v, l)
  {
  }

  lemma LevelNumbers(pages: Pages, levels: Levels, root: PageId, l: nat)
    requires TreeOk(pages, levels, root) && l < |levels|
    ensures forall i :: 0 <= i < |levels[l]| ==> At(pages, levels[l][i]).Page? && At(pages, levels[l][i]).level == l
  {
    forall i | 0 <= i < |levels[l]| ensures At(pages, levels[l][i]).Page? && At(pages, levels[l][i]).level == l {
      PageAt(pages, levels, root, l, i);
    }
  }

  lemma RealIds(pages: Pages, levels: Levels, root: PageId, l: nat)
    requires TreeOk(pages, levels, root) && l < |levels|
    ensures forall i :: 0 <= i < |levels[l]| ==> 1 <= levels[l][i]
  {
    NeighboursApart(pages, levels, root, l);
    NoInvalid(pages, levels[l]);
  }

  lemma AwaitingTwin(v: View, l: nat, end: PageId, i: nat)
    requires AwaitingUpTo(v, l, end) && l < |v.levels| && i < |v.levels[l]| && Open(v.pages, v.levels[l][i])
    ensures Twin(v, l, i) && (i > 0 ==> !Open(v.pages, v.levels[l][i - 1]))
  {
    assert i > 0 && Open(v.pages, v.levels[l][i - 1]) ==> Twin(v, l, i - 1);
  }

  lemma OpenIndex(pages: Pages, levels: Levels, others: set<PageId>, l: nat, p: PageId) returns (i: nat)
    requires NoStrays(pages, levels, others) && l < |levels| && Open(pages, p) && At(pages, p).level == l
    ensures i < |levels[l]| && levels[l][i] == p
  {
    assert OnTree(pages, levels, p);
    i :| 0 <= i < |levels[l]| && levels[l][i] == p;
  }

  lemma NextIsTwin(v: View, root: PageId, l: nat, i: nat)
    requires TreeOk(v.pages, v.levels, root) && Interrupted(v, l, i)
    ensures At(v.pages, v.levels[l][i]).next == v.levels[l][i + 1]
  {
    NeighboursApart(v.pages, v.levels, root, l);
    NextOf(v.pages, v.levels[l], i);
  }

  lemma AllClosed(v: View, l: nat, end: PageId)
    requires l < |v.levels| && NoneOpen(v.pages, v.levels, l + 1) && AwaitingUpTo(v, l, end)
    requires forall i :: 0 <= i < |v.levels[l]| && Open(v.pages, v.levels[l][i]) ==> end <= v.levels[l][i]
    ensures NoneOpen(v.pages, v.levels, l)
  {
    assert forall i :: 0 <= i < |v.levels[l]| ==> !Open(v.pages, v.levels[l][i]);
  }

  lemma AwaitingLower(v: View, l: nat, end: PageId)
    requires AwaitingUpTo(v, l, end) && 0 < l
    ensures AwaitingUpTo(v, l - 1, end)
  {
  }

  /** Finishing one split of a level leaves the others waiting. */
  lemma OneFewer(v: View, w: View, b: View, root: PageId, l: nat, i: nat, end: PageId)
    requires TreeOk(w.pages, w.levels, root) && l < |v.levels| && UntouchedBelow(v, w, l) && AwaitingUpTo(w, l, end)
    requires SplitFinished(w, b, l, i)
    requires Interrupted(w, l, i)
    requires forall c :: 0 <= c < |w.levels[l]| && Open(w.pages, w.levels[l][c]) ==> w.levels[l][i] <= w.levels[l][c]
    ensures UntouchedBelow(v, b, l) && AwaitingUpTo(b, l, end) && l < |b.levels| && NoneOpen(b.pages, b.levels, l + 1)
    ensures Flat(b.pages, b.levels[l]) == Flat(w.pages, w.levels[l])
    ensures forall c :: 0 <= c < |b.levels[l]| && Open(b.pages, b.levels[l][c]) ==> w.levels[l][i] + 1 <= b.levels[l][c]
  {
    UntouchedTwice(v, w, b, l);
    NeighboursApart(w.pages, w.levels, root, l);
    LinkedNoDup(w.pages, w.levels[l]);
    TwinsLeft(w, b, l, i, end);
    hide TreeOk, Flat, Linked, UntouchedBelow, PairOrdered, NoneOpen, AwaitingUpTo;
    forall c | 0 <= c < |b.levels[l]| && Open(b.pages, b.levels[l][c]) ensures w.levels[l][i] + 1 <= b.levels[l][c] {
      var x := OtherTwin(w, b, l, i, c, end);
      assert w.levels[l][x] != w.levels[l][i];
    }
  }

  lemma TwinsLeft(w: View, b: View, l: nat, i: nat, end: PageId)
    requires SplitFinished(w, b, l, i) && NoDup(w.levels[l]) && AwaitingUpTo(w, l, end) && Open(w.pages, w.levels[l][i])
    ensures AwaitingUpTo(b, l, end)
  {
    hide Flat, PairOrdered, NoneOpen, Twin;
    forall m, c | 0 <= m <= l && m < |b.levels| && 0 <= c < |b.levels[m]| && Open(b.pages, b.levels[m][c])
      ensures Twin(b, m, c) && b.levels[m][c] < end
    {
      if m < l {
        LowerTwin(w, b, l, m, c, end);
      } else {
        var x := OtherTwin(w, b, l, i, c, end);
      }
    }
  }

  lemma UntouchedTwice(v: View, w: View, b: View, l: nat)
    requires UntouchedBelow(v, w, l) && UntouchedBelow(w, b, l)
    ensures UntouchedBelow(v, b, l)
  {
    forall k | 0 <= k < l ensures b.levels[k] == v.levels[k] && SamePages(v.pages, b.pages, v.levels[k]) {
      assert SamePages(v.pages, w.pages, v.levels[k]) && SamePages(w.pages, b.pages, w.levels[k]);
    }
  }

  lemma LowerTwin(w: View, b: View, l: nat, m: nat, c: nat, end: PageId)
    requires UntouchedBelow(w, b, l) && AwaitingUpTo(w, l, end) && m < l && c < |b.levels[m]|
    requires Open(b.pages, b.levels[m][c])
    ensures Twin(b, m, c) && b.levels[m][c] < end
  {
    assert b.levels[m] == w.levels[m] && SamePages(w.pages, b.pages, w.levels[m]);
    assert At(b.pages, w.levels[m][c]) == At(w.pages, w.levels[m][c]);
    assert Twin(w, m, c);
    assert At(b.pages, w.levels[m][c + 1]) == At(w.pages, w.levels[m][c + 1]);
  }

  /** Where a page still marked after the finish stood before it, and that it keeps its twin. */
  lemma OtherTwin(w: View, b: View, l: nat, i: nat, c: nat, end: PageId) returns (x: nat)
    requires SplitFinished(w, b, l, i) && NoDup(w.levels[l]) && AwaitingUpTo(w, l, end) && Open(w.pages, w.levels[l][i])
    requires c < |b.levels[l]| && Open(b.pages, b.levels[l][c])
    ensures x < |w.levels[l]| && x != i && w.levels[l][x] == b.levels[l][c] && Open(w.pages, w.levels[l][x])
    ensures Twin(b, l, c) && b.levels[l][c] < end
  {
    hide Flat, PairOrdered, UntouchedBelow, NoneOpen;
    var drained := Drained(w.pages, w.levels[l][i + 1]);
    x := if drained && i < c then c + 1 else c;
    if drained { UnsplicedAt(w.levels[l], i, c); }
    assert Twin(w, l, x);
    assert x != i && x != i + 1 && x + 1 != i;
    if drained { UnsplicedAt(w.levels[l], i, c + 1); }
    assert b.levels[l][c + 1] == w.levels[l][x + 1];
    forall y | 0 <= y < |b.levels[l]| ensures PrevOf(b.pages, b.levels[l][y]) != b.levels[l][c + 1] {
      if drained { UnsplicedAt(w.levels[l], i, y); }
      var z := if drained && i < y then y + 1 else y;
      assert b.levels[l][y] == w.levels[l][z] && PrevOf(w.pages, w.levels[l][z]) != w.levels[l][x + 1];
    }
  }

  lemma BottomSame(a: View, b: View, level: nat)
    requires 0 < level && UntouchedBelow(a, b, level)
    ensures Flat(b.pages, b.levels[0]) == Flat(a.pages, a.levels[0])
  {
    assert b.levels[0] == a.levels[0] && SamePages(a.pages, b.pages, a.levels[0]);
    FlatFrame(a.pages, b.pages, a.levels[0]);
  }

  /** The finish has a separator, and if the move is owed a copy slot inside the left page. */
  ghost predicate CanPair(v: View, l: nat, i: nat, start: nat, sep: seq<byte>) {
    && l < |v.levels| && i + 1 < |v.levels[l]| && At(v.pages, v.levels[l][i]).Page?
    && At(v.pages, v.levels[l][i + 1]).Page?
    && !Drained(v.pages, v.levels[l][i + 1]) && |sep| <= MAX_INDEX_KEY_BYTES && 1 <= start
    && (At(v.pages, v.levels[l][i + 1]).entries == [] ==> start < |At(v.pages, v.levels[l][i]).entries|)
  }

  lemma PairPages(v: View, root: PageId, l: nat, i: nat)
    requires TreeOk(v.pages, v.levels, root) && Interrupted(v, l, i)
    ensures l < |v.levels| && i + 1 < |v.levels[l]| && v.levels[l][i] != v.levels[l][i + 1]
    ensures PageOk(At(v.pages, v.levels[l][i]), v.levels[l][i], l, root)
    ensures PageOk(At(v.pages, v.levels[l][i + 1]), v.levels[l][i + 1], l, root)
    ensures Sorted(At(v.pages, v.levels[l][i]).entries)
  {
    PageAt(v.pages, v.levels, root, l, i);
    PageAt(v.pages, v.levels, root, l, i + 1);
    NeighboursDiffer(v.pages, v.levels, root, l, i);
  }

  lemma SameTree(v: View, w: View, l: nat, i: nat, start: nat, sep: seq<byte>)
    requires w.pages == v.pages && w.levels == v.levels && Interrupted(v, l, i) && CanPair(v, l, i, start, sep)
    ensures Interrupted(w, l, i) && CanPair(w, l, i, start, sep)
  {
  }

  lemma ParentIsReal(v: View, root: PageId, l: nat, t: nat)
    requires TreeOk(v.pages, v.levels, root) && l + 1 < |v.levels| && t < |v.levels[l + 1]|
    ensures v.levels[l + 1][t] != INVALID
  {
    NeighboursApart(v.pages, v.levels, root, l + 1);
    NoInvalid(v.pages, v.levels[l + 1]);
  }

  lemma HeldIsReal(v: View, others: set<PageId>, id: PageId)
    requires Held(v, others, id)
    ensures id != INVALID
  {
  }

  lemma FinishedSame(v: View, w: View, b: View, l: nat, i: nat)
    requires w.pages == v.pages && w.levels == v.levels && SplitFinished(w, b, l, i)
    ensures SplitFinished(v, b, l, i)
  {
  }

  lemma NotLinkedYet(v: View, root: PageId, l: nat, i: nat, j: nat, sep: seq<byte>)
    requires TreeOk(v.pages, v.levels, root) && Interrupted(v, l, i) && l + 1 < |v.levels| && j < |v.levels[l + 1]|
    ensures NoneOpen(v.pages, v.levels, l + 1)
    ensures Entry(sep, v.levels[l][i + 1], 0) !in EntriesOf(v.pages, v.levels[l + 1][j])
  {
    NeighboursApart(v.pages, v.levels, root, l);
    NextOf(v.pages, v.levels[l], i);
    NoDownlinkYet(v.pages, v.levels, root, l, i, j, Entry(sep, v.levels[l][i + 1], 0));
  }

  /** A cascade above leaves the interrupted pair as it was. */
  lemma StillInterrupted(v: View, w: View, l: nat, i: nat, start: nat, sep: seq<byte>)
    requires Interrupted(v, l, i) && CanPair(v, l, i, start, sep) && UntouchedBelow(v, w, l + 1)
    requires NoneOpen(w.pages, w.levels, l + 1)
    ensures Interrupted(w, l, i) && CanPair(w, l, i, start, sep) && w.levels[l] == v.levels[l]
    ensures At(w.pages, v.levels[l][i]) == At(v.pages, v.levels[l][i])
    ensures At(w.pages, v.levels[l][i + 1]) == At(v.pages, v.levels[l][i + 1])
  {
    assert SamePages(v.pages, w.pages, v.levels[l]);
  }

  lemma FinishedThrough(v: View, w: View, b: View, l: nat, i: nat)
    requires l < |v.levels| && UntouchedBelow(v, w, l + 1) && SplitFinished(w, b, l, i)
    ensures SplitFinished(v, b, l, i)
  {
    assert w.levels[l] == v.levels[l] && SamePages(v.pages, w.pages, v.levels[l]);
    FlatFrame(v.pages, w.pages, v.levels[l]);
    forall k | 0 <= k < l ensures SamePages(v.pages, b.pages, v.levels[k]) {
      assert SamePages(v.pages, w.pages, v.levels[k]) && SamePages(w.pages, b.pages, w.levels[k]);
    }
  }

  lemma LeftInTree(v: View, others: set<PageId>, m: nat, i: nat, right: PageId)
    requires FreshRight(v, others, m, i, right)
    ensures v.levels[m][i] != right
  {
    assert v.levels[m][i] in v.levels[m];
  }

  /** The right page of a split of page `i` of level `m`, initialized and waiting. */
  ghost predicate FreshRight(v: View, others: set<PageId>, m: nat, i: nat, right: PageId) {
    && m < |v.levels| && i < |v.levels[m]| && Held(v, others, right) && At(v.pages, v.levels[m][i]).Page?
    && SameContent(At(v.pages, right), InitRightPage(v.levels[m][i], At(v.pages, v.levels[m][i]).next, m))
  }

  lemma EmptyIsNoStray(s: Pages, s': Pages, levels: Levels, others: set<PageId>, p: PageId)
    requires NoStrays(s, levels, others) && s' == s[p := At(s', p)] && At(s', p).Page? && At(s', p).entries == []
    requires !Open(s', p)
    ensures NoStrays(s', levels, others)
  {
    forall q | q != p && OnTree(s, levels, q) ensures OnTree(s', levels, q) {}
  }

  lemma LaterLsns(s: Pages, s': Pages, meta: Meta, lsn: nat, p: PageId)
    requires LsnsBelow(s, meta, lsn) && s' == s[p := At(s', p)] && PdLsn(At(s', p)) <= lsn
    ensures LsnsBelow(s', meta, lsn + 1)
  {
  }

  lemma SeenAlike(s: Pages, s': Pages, levels: Levels, m: nat)
    requires forall k :: 0 <= k < |levels| ==> SamePages(s, s', levels[k])
    ensures NoneOpen(s, levels, m) <==> NoneOpen(s', levels, m)
    ensures InnerSorted(s, levels, m) <==> InnerSorted(s', levels, m)
  {
    forall k, x | 0 <= k < |levels| && 0 <= x < |levels[k]| ensures At(s', levels[k][x]) == At(s, levels[k][x]) {
      assert SamePages(s, s', levels[k]);
    }
  }

  lemma HoldsAcross(a: View, b: View, c: View, others: set<PageId>, right: PageId)
    requires HoldsKept(a, b, others, {}) && HoldsKept(b, c, others, {right}) && !Held(a, others, right)
    ensures HoldsKept(a, c, others, {})
  {
  }

  lemma CutHasRoom(a: View, b: View, m: nat, j: nat, right: PageId, k: nat, e: Entry)
    requires CutLevel(a, b, m, j, right, k) && At(a.pages, a.levels[m][j]).level == m && 0 < m
    requires SplitAround(At(a.pages, a.levels[m][j]), Some(e), k) && e !in At(a.pages, a.levels[m][j]).entries
    ensures InnerSorted(a.pages, a.levels, m - 1) ==>
      HasRoom(b.pages, if Less(e, At(a.pages, a.levels[m][j]).entries[k]) then a.levels[m][j] else right, m, e)
  {
    if InnerSorted(a.pages, a.levels, m - 1) {
      var was := At(a.pages, a.levels[m][j]);
      assert Sorted(EntriesOf(a.pages, a.levels[m][j]));
      var p :| IsLowerBound(was.entries, e, p) && ValidSplit(was.level, was.entries, e, p, k);
      ReservedRoom(was, k, At(b.pages, a.levels[m][j]), At(b.pages, right), e, p);
    }
  }

  /** The pair step stamps nothing past the record. */
  lemma PairStamps(rec: Clr, lsn: nat, s: Pages)
    requires PairStep(rec, lsn, s).Ok? && forall p :: p in s ==> PdLsn(s[p]) < lsn
    ensures forall p :: p in PairStep(rec, lsn, s).value ==> PdLsn(PairStep(rec, lsn, s).value[p]) <= lsn
  {
  }

  /** An internal page of level `m` that names the child. */
  ghost predicate IsParent(pg: Page, m: nat, child: PageId) {
    pg.Page? && !pg.flags.leaf && pg.level == m && exists x :: 0 <= x < |pg.entries| && pg.entries[x].ptr == child
  }

  lemma UnnamedByAll(pages: Pages, levels: Levels, root: PageId, freelist: seq<PageId>, fileEnd: PageId, m: nat,
                     child: PageId)
    requires TreeOk(pages, levels, root) && AllocOk(levels, freelist, fileEnd) && 0 < m < |levels|
    requires forall p :: 1 <= p < fileEnd ==> !IsParent(At(pages, p), m, child)
    ensures Names(pages, levels[m], true, child) == 0
  {
    NeighboursApart(pages, levels, root, m);
    NoInvalid(pages, levels[m]);
    forall i | 0 <= i < |levels[m]| ensures PageNames(At(pages, levels[m][i]), true, child) == 0 {
      PageAt(pages, levels, root, m, i);
      assert levels[m][i] < fileEnd;
      Unnamed(At(pages, levels[m][i]).entries, child);
    }
    NoNames(pages, levels[m], child);
  }

  lemma {:induction false} Unnamed(s: seq<Entry>, child: PageId)
    requires forall x :: 0 <= x < |s| ==> s[x].ptr != child
    ensures PtrCount(s, child) == 0
  {
    if s != [] { Unnamed(s[..|s| - 1], child); }
  }

  lemma {:induction false} NoNames(pages: Pages, chain: seq<PageId>, q: PageId)
    requires forall i :: 0 <= i < |chain| ==> PageNames(At(pages, chain[i]), true, q) == 0
    ensures Names(pages, chain, true, q) == 0
  {
    if chain != [] { NoNames(pages, chain[..|chain| - 1], q); }
  }

  // ---------------------------------------------------------------- one record of a fresh split, as a whole

  ghost predicate Sound(v: View, root: PageId, others: set<PageId>) {
    && TreeOk(v.pages, v.levels, root) && AllocOk(v.levels, v.freelist, v.fileEnd)
    && NoStrays(v.pages, v.levels, others) && Ours(v.levels, v.freelist, v.fileEnd, others)
  }

  /** The chain of the level a record works on: `right` is spliced in unless a Prepare already did. */
  ghost function PairedChain(chain: seq<PageId>, i: nat, right: PageId): seq<PageId>
    requires i < |chain|
  {
    if right in chain then chain else Spliced(chain, i, right)
  }

  /** A record completes the split of page `i` of level `m` and writes only the pair and `link`, a page of the level
      above - old, or new and then alone on a new top level. */
  ghost predicate RecordStep(a: View, b: View, m: nat, i: nat, right: PageId, link: PageId) {
    && m < |a.levels| && i < |a.levels[m]| && (right in a.levels[m] || Unused(a.levels, right))
    && b.freelist == a.freelist && b.fileEnd == a.fileEnd
    && (if m + 1 < |a.levels| then
          b.levels == a.levels[m := PairedChain(a.levels[m], i, right)] && link in a.levels[m + 1]
        else
          && b.levels == a.levels[m := PairedChain(a.levels[m], i, right)] + [[link]]
          && Unused(a.levels, link) && link != right)
    && (forall p :: p !in {a.levels[m][i], right, link} ==> At(b.pages, p) == At(a.pages, p))
    && !Open(b.pages, a.levels[m][i]) && !Open(b.pages, right) && !Open(b.pages, link)
    && At(b.pages, link).Page? && At(b.pages, link).level == m + 1
    && At(b.pages, a.levels[m][i]).Page? && At(b.pages, right).Page? && At(b.pages, a.levels[m][i]).level == m
    && At(b.pages, right).level == m
  }

  lemma StepMembers(a: View, b: View, m: nat, i: nat, right: PageId, link: PageId, k: nat, p: PageId)
    requires RecordStep(a, b, m, i, right, link) && k < |b.levels|
    ensures |a.levels| <= |b.levels|
    ensures p in b.levels[k] <==>
      (k < |a.levels| && p in a.levels[k]) || (k == m && p == right) || (k == m + 1 && p == link)
  {
    SplicedMember(a.levels[m], i, right, p);
  }

  lemma NotOn(pages: Pages, levels: Levels, root: PageId, m: nat, k: nat, p: PageId)
    requires TreeOk(pages, levels, root) && m < |levels| && k < |levels| && m != k && p in levels[m]
    ensures p !in levels[k]
  {
    var x :| 0 <= x < |levels[m]| && levels[m][x] == p;
    TreeApart(pages, levels, root, m, k, x);
  }

  lemma StepUntouched(a: View, b: View, root: PageId, m: nat, i: nat, right: PageId, link: PageId)
    requires TreeOk(a.pages, a.levels, root) && RecordStep(a, b, m, i, right, link)
    ensures UntouchedBelow(a, b, m)
  {
    hide TreeOk;
    forall k | 0 <= k < m ensures SamePages(a.pages, b.pages, a.levels[k]) {
      TreeApart(a.pages, a.levels, root, m, k, i);
      if right in a.levels[m] { NotOn(a.pages, a.levels, root, m, k, right); }
      if m + 1 < |a.levels| { NotOn(a.pages, a.levels, root, m + 1, k, link); }
    }
  }

  lemma StepCloses(a: View, b: View, m: nat, i: nat, right: PageId, link: PageId, n: nat)
    requires RecordStep(a, b, m, i, right, link) && m <= n && NoneOpen(a.pages, a.levels, n)
    ensures NoneOpen(b.pages, b.levels, n)
  {
    forall k, x | n <= k < |b.levels| && 0 <= x < |b.levels[k]| ensures !Open(b.pages, b.levels[k][x]) {
      var p := b.levels[k][x];
      StepMembers(a, b, m, i, right, link, k, p);
      if p !in {a.levels[m][i], right, link} {
        var y :| 0 <= y < |a.levels[k]| && a.levels[k][y] == p;
        assert !Open(a.pages, a.levels[k][y]);
      }
    }
  }

  lemma StepHolds(a: View, b: View, others: set<PageId>, m: nat, i: nat, right: PageId, link: PageId)
    requires RecordStep(a, b, m, i, right, link)
    ensures HoldsKept(a, b, others, {right, link})
  {
    forall x | Held(a, others, x) && x !in {right, link}
      ensures Held(b, others, x) && At(b.pages, x) == At(a.pages, x)
    {
      assert x !in a.levels[m];
      forall k | 0 <= k < |b.levels| ensures x !in b.levels[k] { StepMembers(a, b, m, i, right, link, k, x); }
    }
  }

  lemma StepStrays(a: View, b: View, others: set<PageId>, m: nat, i: nat, right: PageId, link: PageId)
    requires RecordStep(a, b, m, i, right, link) && NoStrays(a.pages, a.levels, others)
    ensures NoStrays(b.pages, b.levels, others)
  {
    forall p | p in {a.levels[m][i], right, link} ensures OnTree(b.pages, b.levels, p) {
      assert m + 1 < |b.levels|;
      StepMembers(a, b, m, i, right, link, m, p);
      StepMembers(a, b, m, i, right, link, m + 1, p);
    }
    forall p | p !in {a.levels[m][i], right, link} && OnTree(a.pages, a.levels, p)
      ensures OnTree(b.pages, b.levels, p)
    {
      assert At(b.pages, p) == At(a.pages, p) && |a.levels| <= |b.levels|;
      StepMembers(a, b, m, i, right, link, At(a.pages, p).level, p);
    }
    forall p | p !in {a.levels[m][i], right, link} ensures At(b.pages, p) == At(a.pages, p) {}
  }

  lemma StepOurs(a: View, b: View, others: set<PageId>, m: nat, i: nat, right: PageId, link: PageId)
    requires RecordStep(a, b, m, i, right, link) && AllocOk(a.levels, a.freelist, a.fileEnd)
    requires Ours(a.levels, a.freelist, a.fileEnd, others)
    requires (right in a.levels[m] || Held(a, others, right)) && (m + 1 == |a.levels| ==> Held(a, others, link))
    ensures AllocOk(b.levels, b.freelist, b.fileEnd) && Ours(b.levels, b.freelist, b.fileEnd, others)
  {
    forall k, x | 0 <= k < |b.levels| && 0 <= x < |b.levels[k]|
      ensures b.levels[k][x] < b.fileEnd && b.levels[k][x] !in others && b.levels[k][x] !in b.freelist
    {
      var p := b.levels[k][x];
      StepMembers(a, b, m, i, right, link, k, p);
      if k < |a.levels| && p in a.levels[k] {
        var y :| 0 <= y < |a.levels[k]| && a.levels[k][y] == p;
        assert a.levels[k][y] < a.fileEnd && a.levels[k][y] !in others;
        forall z | 0 <= z < |a.freelist| ensures a.freelist[z] != p { assert Unused(a.levels, a.freelist[z]); }
      }
    }
  }

  /** What a fresh split's record leaves, given the pair it was written for. */
  lemma FreshStep(a: View, b: View, root: PageId, m: nat, i: nat, rec: Clr, lsn: nat, meta: Meta)
    requires TreeOk(a.pages, a.levels, root) && m < |a.levels| && i < |a.levels[m]| && a.levels[m][i] == rec.left
    requires !IsUnlink(rec)
    requires Unseen(rec, lsn, Disk(a.pages, meta)) && !Open(a.pages, rec.left) && At(a.pages, rec.left).Page?
    requires Unused(a.levels, rec.right)
    requires SameContent(At(a.pages, rec.right), InitRightPage(rec.left, At(a.pages, rec.left).next, m))
    requires 1 <= rec.start < |At(a.pages, rec.left).entries|
    requires ApplyClr(rec, lsn, Disk(a.pages, meta)).Ok?
    requires b.pages == ApplyClr(rec, lsn, Disk(a.pages, meta)).value.pages
    ensures Halves(At(a.pages, rec.left), rec.start, At(b.pages, rec.left), At(b.pages, rec.right))
    ensures !Open(b.pages, rec.left) && !Open(b.pages, rec.right) && At(b.pages, rec.left).Page?
    ensures At(b.pages, rec.right).Page?
    ensures !At(b.pages, rec.left).flags.root && !At(b.pages, rec.right).flags.root
    ensures forall p :: p !in {rec.left, rec.right, LinkOf(rec)} ==> At(b.pages, p) == At(a.pages, p)
  {
    var s1 := FreshReady(a.pages, a.levels, root, m, i, rec, lsn);
    PairFlags(rec, lsn, a.pages);
    AppliedPages(rec, lsn, Disk(a.pages, meta));
    hide TreeOk, PairStep, ApplyClr, Bytes;
    assert At(b.pages, rec.left) == At(PairStep(rec, lsn, a.pages).value, rec.left);
  }

  ghost function SplicedView(a: View, pages: Pages, m: nat, i: nat, right: PageId, top: seq<PageId>): View
    requires m < |a.levels| && i < |a.levels[m]|
  {
    View(pages, a.levels[m := Spliced(a.levels[m], i, right)] + (if top == [] then [] else [top]), a.freelist,
      a.fileEnd)
  }

  /** The new tree of a fresh split of the root. */
  lemma PromotedTree(a: View, root: PageId, m: nat, i: nat, rec: Clr, lsn: nat, meta: Meta)
    requires TreeOk(a.pages, a.levels, root) && m + 1 == |a.levels| && rec.level == m && i < |a.levels[m]|
    requires a.levels[m][i] == rec.left && rec.left == root
    requires Unseen(rec, lsn, Disk(a.pages, meta)) && !Open(a.pages, rec.left) && At(a.pages, rec.left).Page?
    requires Unused(a.levels, rec.right) && Unused(a.levels, rec.newRoot) && rec.newRoot != rec.right
    requires SameContent(At(a.pages, rec.right), InitRightPage(rec.left, At(a.pages, rec.left).next, m))
    requires 1 <= rec.start < |At(a.pages, rec.left).entries| && rec.sep == At(a.pages, rec.left).entries[rec.start].key
    ensures ApplyClr(rec, lsn, Disk(a.pages, meta)).Ok?
    ensures ApplyClr(rec, lsn, Disk(a.pages, meta)).value.meta.root == rec.newRoot
    ensures At(ApplyClr(rec, lsn, Disk(a.pages, meta)).value.pages, rec.newRoot) == RootPage(rec, lsn)
    ensures TreeOk(ApplyClr(rec, lsn, Disk(a.pages, meta)).value.pages,
      a.levels[m := Spliced(a.levels[m], i, rec.right)] + [[rec.newRoot]], rec.newRoot)
  {
    PageAt(a.pages, a.levels, root, m, i);
    var s1 := FreshReady(a.pages, a.levels, root, m, i, rec, lsn);
    var lv := a.levels[m := Spliced(a.levels[m], i, rec.right)];
    AppliedPages(rec, lsn, Disk(a.pages, meta));
    forall l | 0 <= l < |lv| ensures rec.newRoot !in lv[l] { SplicedMember(a.levels[m], i, rec.right, rec.newRoot); }
    hide TreeOk, PairStep, Bytes, SameContent;
    RootRecordKeeps(s1, lv, root, i, rec, lsn, ApplyClr(rec, lsn, Disk(a.pages, meta)).value.pages);
  }

  /** The new tree of a fresh split below the root. */
  lemma LinkedTree(a: View, root: PageId, m: nat, i: nat, j: nat, rec: Clr, lsn: nat, meta: Meta)
    requires TreeOk(a.pages, a.levels, root) && m + 1 < |a.levels| && i < |a.levels[m]| && a.levels[m][i] == rec.left
    requires j < |a.levels[m + 1]| && a.levels[m + 1][j] == rec.parent && rec.newRoot == INVALID
    requires Unseen(rec, lsn, Disk(a.pages, meta)) && !Open(a.pages, rec.left) && At(a.pages, rec.left).Page?
    requires Unused(a.levels, rec.right)
    requires SameContent(At(a.pages, rec.right), InitRightPage(rec.left, At(a.pages, rec.left).next, m))
    requires 1 <= rec.start < |At(a.pages, rec.left).entries| && rec.sep == At(a.pages, rec.left).entries[rec.start].key
    requires At(a.pages, rec.parent).Page? && rec.parent != INVALID
    ensures ApplyClr(rec, lsn, Disk(a.pages, meta)).Ok? <==>
      InsertEntryAt(At(a.pages, rec.parent), rec.slot, Entry(rec.sep, rec.right, 0)).Ok?
    ensures ApplyClr(rec, lsn, Disk(a.pages, meta)).Err? ==> ApplyClr(rec, lsn, Disk(a.pages, meta)).error == NoSpace
    ensures ApplyClr(rec, lsn, Disk(a.pages, meta)).Ok? ==>
      && ApplyClr(rec, lsn, Disk(a.pages, meta)).value.meta == meta
      && At(ApplyClr(rec, lsn, Disk(a.pages, meta)).value.pages, rec.parent) ==
           Stamp(InsertEntryAt(At(a.pages, rec.parent), rec.slot, Entry(rec.sep, rec.right, 0)).value, lsn)
      && TreeOk(ApplyClr(rec, lsn, Disk(a.pages, meta)).value.pages, a.levels[m := Spliced(a.levels[m], i, rec.right)],
         root)
  {
    PageAt(a.pages, a.levels, root, m, i);
    TreeApart(a.pages, a.levels, root, m + 1, m, j);
    var s1 := FreshReady(a.pages, a.levels, root, m, i, rec, lsn);
    assert At(PairStep(rec, lsn, a.pages).value, rec.parent) == At(a.pages, rec.parent);
    var lv := a.levels[m := Spliced(a.levels[m], i, rec.right)];
    if ApplyClr(rec, lsn, Disk(a.pages, meta)).Ok? {
      AppliedPages(rec, lsn, Disk(a.pages, meta));
      hide TreeOk, PairStep, Bytes, SameContent;
      ParentRecordKeeps(s1, lv, root, m, i, j, rec, lsn, ApplyClr(rec, lsn, Disk(a.pages, meta)).value.pages);
    }
  }

  /** Everything a completed fresh split keeps. */
  ghost predicate FreshDone(a: View, b: View, root': PageId, others: set<PageId>, m: nat, i: nat, rec: Clr) {
    && Sound(b, root', others) && NoneOpen(b.pages, b.levels, m) && UntouchedBelow(a, b, m)
    && HoldsKept(a, b, others, {rec.right, LinkOf(rec)}) && CutLevel(a, b, m, i, rec.right, rec.start)
    && RecordStep(a, b, m, i, rec.right, LinkOf(rec)) && rec.left == a.levels[m][i]
    && !At(b.pages, rec.left).flags.root && !At(b.pages, rec.right).flags.root
  }

  lemma FreshFinished(a: View, b: View, root: PageId, root': PageId, others: set<PageId>, m: nat, i: nat, rec: Clr,
                      lsn: nat, meta: Meta)
    requires Sound(a, root, others) && m < |a.levels| && NoneOpen(a.pages, a.levels, m)
    requires FreshRight(a, others, m, i, rec.right) && a.levels[m][i] == rec.left
    requires !IsUnlink(rec) && Unseen(rec, lsn, Disk(a.pages, meta)) && 1 <= rec.start < |At(a.pages, rec.left).entries|
    requires ApplyClr(rec, lsn, Disk(a.pages, meta)).Ok? && TreeOk(b.pages, b.levels, root')
    requires b == SplicedView(a, ApplyClr(rec, lsn, Disk(a.pages, meta)).value.pages, m, i, rec.right,
                              if m + 1 == |a.levels| then [LinkOf(rec)] else [])
    requires At(b.pages, LinkOf(rec)).Page? && At(b.pages, LinkOf(rec)).level == m + 1 && !Open(b.pages, LinkOf(rec))
    requires
      if m + 1 < |a.levels| then LinkOf(rec) in a.levels[m + 1]
      else Held(a, others, LinkOf(rec)) && LinkOf(rec) != rec.right
    ensures FreshDone(a, b, root', others, m, i, rec)
  {
    hide TreeOk, ApplyClr, Bytes, NoStrays, Ours, AllocOk, LinkOf;
    PageAt(a.pages, a.levels, root, m, i);
    assert !Open(a.pages, rec.left) by { assert !Open(a.pages, a.levels[m][i]); }
    FreshStep(a, b, root, m, i, rec, lsn, meta);
    assert rec.right !in a.levels[m];
    assert RecordStep(a, b, m, i, rec.right, LinkOf(rec));
    hide RecordStep;
    StepUntouched(a, b, root, m, i, rec.right, LinkOf(rec));
    StepCloses(a, b, m, i, rec.right, LinkOf(rec), m);
    StepHolds(a, b, others, m, i, rec.right, LinkOf(rec));
    StepSound(a, b, root, root', others, m, i, rec.right, LinkOf(rec));
  }

  lemma UnseenBelow(rec: Clr, lsn: nat, pages: Pages, meta: Meta)
    requires LsnsBelow(pages, meta, lsn)
    requires rec.left != rec.right && rec.parent != rec.left && rec.parent != rec.right && rec.newRoot != rec.left
    requires rec.newRoot != rec.right
    ensures Unseen(rec, lsn, Disk(pages, meta))
  {
  }

  lemma PromoteFreshKeeps(a: View, others: set<PageId>, root: PageId, m: nat, i: nat, rec: Clr, lsn: nat, meta: Meta)
    requires Sound(a, root, others) && LsnsBelow(a.pages, meta, lsn) && NoneOpen(a.pages, a.levels, m)
    requires FreshRight(a, others, m, i, rec.right) && a.levels[m][i] == rec.left && rec.left == root && rec.level == m
    requires Held(a, others, rec.newRoot) && rec.newRoot != rec.right && rec.parent == INVALID
    requires 1 <= rec.start < |At(a.pages, rec.left).entries| && rec.sep == At(a.pages, rec.left).entries[rec.start].key
    ensures ApplyClr(rec, lsn, Disk(a.pages, meta)).Ok?
    ensures ApplyClr(rec, lsn, Disk(a.pages, meta)).value.meta.root == rec.newRoot && m + 1 == |a.levels|
    ensures FreshDone(a,
      SplicedView(a, ApplyClr(rec, lsn, Disk(a.pages, meta)).value.pages, m, i, rec.right, [rec.newRoot]), rec.newRoot,
        others, m, i, rec)
    ensures At(ApplyClr(rec, lsn, Disk(a.pages, meta)).value.pages, rec.newRoot) == RootPage(rec, lsn)
  {
    RootLevel(a.pages, a.levels, root, m, i);
    NeighboursApart(a.pages, a.levels, root, m);
    NoInvalid(a.pages, a.levels[m]);
    hide TreeOk, ApplyClr, Bytes, NoStrays, Ours, AllocOk, LsnsBelow, RootPage, Linked;
    assert rec.left != rec.newRoot && rec.left != rec.right by { assert rec.left in a.levels[m]; }
    UnseenBelow(rec, lsn, a.pages, meta);
    assert !Open(a.pages, rec.left) by { assert !Open(a.pages, a.levels[m][i]); }
    PromotedTree(a, root, m, i, rec, lsn, meta);
    var b := SplicedView(a, ApplyClr(rec, lsn, Disk(a.pages, meta)).value.pages, m, i, rec.right, [rec.newRoot]);
    RootPageIs(rec, lsn);
    FreshFinished(a, b, root, rec.newRoot, others, m, i, rec, lsn, meta);
  }

  lemma RootPageIs(rec: Clr, lsn: nat)
    ensures RootPage(rec, lsn).Page? && RootPage(rec, lsn).level == rec.level + 1
    ensures !RootPage(rec, lsn).flags.incomplete
  {
  }

  lemma RootLevel(pages: Pages, levels: Levels, root: PageId, m: nat, i: nat)
    requires TreeOk(pages, levels, root) && m < |levels| && i < |levels[m]| && levels[m][i] == root
    ensures m + 1 == |levels|
  {
    RootOnTop(pages, levels, root);
    if m + 1 != |levels| { TreeApart(pages, levels, root, m, |levels| - 1, i); }
  }

  lemma LinkFreshKeeps(a: View, others: set<PageId>, root: PageId, m: nat, i: nat, j: nat, rec: Clr, lsn: nat,
                       meta: Meta)
    requires Sound(a, root, others) && LsnsBelow(a.pages, meta, lsn) && NoneOpen(a.pages, a.levels, m)
    requires FreshRight(a, others, m, i, rec.right) && a.levels[m][i] == rec.left && rec.newRoot == INVALID
    requires m + 1 < |a.levels| && j < |a.levels[m + 1]| && a.levels[m + 1][j] == rec.parent
    requires rec.slot <= |EntriesOf(a.pages, rec.parent)|
    requires 1 <= rec.start < |At(a.pages, rec.left).entries| && rec.sep == At(a.pages, rec.left).entries[rec.start].key
    ensures ApplyClr(rec, lsn, Disk(a.pages, meta)).Ok? <==>
      HasRoom(a.pages, rec.parent, m + 1, Entry(rec.sep, rec.right, 0))
    ensures ApplyClr(rec, lsn, Disk(a.pages, meta)).Err? ==> ApplyClr(rec, lsn, Disk(a.pages, meta)).error == NoSpace
    ensures ApplyClr(rec, lsn, Disk(a.pages, meta)).Ok? ==> ApplyClr(rec, lsn, Disk(a.pages, meta)).value.meta == meta
    ensures ApplyClr(rec, lsn, Disk(a.pages, meta)).Ok? ==>
      FreshDone(a, SplicedView(a, ApplyClr(rec, lsn, Disk(a.pages, meta)).value.pages, m, i, rec.right, []), root,
        others, m, i, rec)
    ensures ApplyClr(rec, lsn, Disk(a.pages, meta)).Ok? ==>
      && At(a.pages, rec.parent).Page?
      && InsertEntryAt(At(a.pages, rec.parent), rec.slot, Entry(rec.sep, rec.right, 0)).Ok?
      && At(ApplyClr(rec, lsn, Disk(a.pages, meta)).value.pages, rec.parent) ==
           Stamp(InsertEntryAt(At(a.pages, rec.parent), rec.slot, Entry(rec.sep, rec.right, 0)).value, lsn)
  {
    NeighboursApart(a.pages, a.levels, root, m);
    NeighboursApart(a.pages, a.levels, root, m + 1);
    NoInvalid(a.pages, a.levels[m]);
    NoInvalid(a.pages, a.levels[m + 1]);
    PageAt(a.pages, a.levels, root, m, i);
    PageAt(a.pages, a.levels, root, m + 1, j);
    TreeApart(a.pages, a.levels, root, m + 1, m, j);
    hide TreeOk, ApplyClr, Bytes, NoStrays, Ours, AllocOk, LsnsBelow, Linked;
    assert rec.left != rec.right && rec.parent != rec.right by {
      assert rec.left in a.levels[m] && rec.parent in a.levels[m + 1];
    }
    UnseenBelow(rec, lsn, a.pages, meta);
    assert !Open(a.pages, rec.left) by { assert !Open(a.pages, a.levels[m][i]); }
    assert !Open(a.pages, rec.parent) by { assert !Open(a.pages, a.levels[m + 1][j]); }
    LinkedTree(a, root, m, i, j, rec, lsn, meta);
    RoomSuffices(At(a.pages, rec.parent), rec.parent, m + 1, root, rec.slot, Entry(rec.sep, rec.right, 0));
    if ApplyClr(rec, lsn, Disk(a.pages, meta)).Ok? {
      var b := SplicedView(a, ApplyClr(rec, lsn, Disk(a.pages, meta)).value.pages, m, i, rec.right, []);
      assert b.levels == a.levels[m := Spliced(a.levels[m], i, rec.right)];
      FreshFinished(a, b, root, root, others, m, i, rec, lsn, meta);
    }
  }

  /** Nothing in the tree names a page that is not in it. */
  lemma BeforeLink(v: View, others: set<PageId>, root: PageId, m: nat, i: nat, j: nat, right: PageId, sep: seq<byte>)
    requires TreeOk(v.pages, v.levels, root) && m + 1 < |v.levels| && i < |v.levels[m]| && j < |v.levels[m + 1]|
    requires NoneOpen(v.pages, v.levels, m)
    requires FreshRight(v, others, m, i, right)
    ensures NoneOpen(v.pages, v.levels, m + 1) && Entry(sep, right, 0) !in EntriesOf(v.pages, v.levels[m + 1][j])
  {
    var es := EntriesOf(v.pages, v.levels[m + 1][j]);
    assert NamedOnce(v.pages, v.levels, root, m);
    assert Downlinks(v.pages, v.levels, root, m, right) + Names(v.pages, v.levels[m], false, right) == 0;
    hide TreeOk, Names;
    NamesAt(v.pages, v.levels[m + 1], j, true, right);
    if Entry(sep, right, 0) in es {
      var x :| 0 <= x < |es| && es[x] == Entry(sep, right, 0);
      PtrCounted(es, x);
    }
  }

  lemma AfterLink(v: View, w: View, others: set<PageId>, m: nat, i: nat, right: PageId)
    requires FreshRight(v, others, m, i, right) && UntouchedBelow(v, w, m + 1) && HoldsKept(v, w, others, {})
    requires NoneOpen(v.pages, v.levels, m) && NoneOpen(w.pages, w.levels, m + 1)
    ensures FreshRight(w, others, m, i, right) && w.levels[m] == v.levels[m] && NoneOpen(w.pages, w.levels, m)
    ensures At(w.pages, v.levels[m][i]) == At(v.pages, v.levels[m][i])
  {
    assert SamePages(v.pages, w.pages, v.levels[m]);
    forall k, x | m <= k < |w.levels| && 0 <= x < |w.levels[k]| ensures !Open(w.pages, w.levels[k][x]) {
      if k == m { assert !Open(v.pages, v.levels[m][x]) && At(w.pages, w.levels[m][x]) == At(v.pages, v.levels[m][x]); }
    }
  }

  /** The cascade above and the record itself, taken together. */
  lemma LinkDone(v: View, w: View, b: View, root: PageId, others: set<PageId>, m: nat, i: nat, rec: Clr)
    requires m < |v.levels| && i < |v.levels[m]| && UntouchedBelow(v, w, m + 1) && HoldsKept(v, w, others, {})
    requires FreshDone(w, b, root, others, m, i, rec)
    requires m + 1 < |w.levels| && LinkOf(rec) in w.levels[m + 1]
    ensures UntouchedBelow(v, b, m) && HoldsKept(v, b, others, {rec.right})
    ensures CutLevel(v, b, m, i, rec.right, rec.start)
    ensures Sound(b, root, others) && NoneOpen(b.pages, b.levels, m)
  {
    hide Sound, NoneOpen, Halves;
    forall k | 0 <= k < m ensures SamePages(v.pages, b.pages, v.levels[k]) {
      assert SamePages(v.pages, w.pages, v.levels[k]) && SamePages(w.pages, b.pages, w.levels[k]);
    }
    assert SamePages(v.pages, w.pages, v.levels[m]);
    assert At(w.pages, v.levels[m][i]) == At(v.pages, v.levels[m][i]);
    assert !Held(w, others, LinkOf(rec));
  }

  lemma PromoteDone(v: View, w: View, b: View, root: PageId, others: set<PageId>, m: nat, i: nat, rec: Clr)
    requires m < |v.levels| && i < |v.levels[m]| && w.pages == v.pages && w.levels == v.levels
    requires HoldsKept(v, w, others, {})
    requires FreshDone(w, b, root, others, m, i, rec) && !Held(v, others, LinkOf(rec))
    ensures UntouchedBelow(v, b, m) && HoldsKept(v, b, others, {rec.right})
    ensures CutLevel(v, b, m, i, rec.right, rec.start)
  {
  }

  // ---------------------------------------------------------------- one record of an interrupted split

  /** What redo leaves of a split whose Commit was lost: behind the marked page `i` of level `l` follows its closed
      twin, the pair is in order, and nobody's hint names the twin. */
  ghost predicate Twin(v: View, l: nat, i: nat) {
    && l < |v.levels| && i + 1 < |v.levels[l]| && !Open(v.pages, v.levels[l][i + 1])
    && PairOrdered(At(v.pages, v.levels[l][i]), At(v.pages, v.levels[l][i + 1]))
    && (forall c :: 0 <= c < |v.levels[l]| ==> PrevOf(v.pages, v.levels[l][c]) != v.levels[l][i + 1])
  }

  /** Such a split, itself no twin of another, with everything nearer the root already finished. */
  ghost predicate Interrupted(v: View, l: nat, i: nat) {
    && Twin(v, l, i) && Open(v.pages, v.levels[l][i]) && NoneOpen(v.pages, v.levels, l + 1)
    && (i > 0 ==> !Open(v.pages, v.levels[l][i - 1]))
  }

  /** The right page held entries and lost them all. */
  predicate Drained(pages: Pages, right: PageId) {
    At(pages, right).Page? && At(pages, right).entries == [] && !NeverHadEntries(At(pages, right))
  }

  /** The finish knows where to cut: the right page has had entries, or the slot lies inside the left page. */
  predicate HasCut(pages: Pages, left: PageId, right: PageId, start: nat) {
    && At(pages, left).Page? && At(pages, right).Page?
    && (Drained(pages, right) || At(pages, right).entries != [] || start < |At(pages, left).entries|)
  }

  /** A marked page undo can finish: a copy slot redo saw, or two entries to choose one between, and a cut that holds.
      */
  predicate CanUndo(pages: Pages, left: PageId, known: Option<nat>) {
    && At(pages, left).Page? && At(pages, At(pages, left).next).Page?
    && (if known.Some? then HasCut(pages, left, At(pages, left).next, known.value) else |At(pages, left).entries| >= 2)
  }

  /** Nor does a root flag stop it: the meta page names the page, or there is nothing to link. */
  predicate CanRoot(pages: Pages, left: PageId, root: PageId) {
    RootKnown(pages, left, root) || (At(pages, left).Page? && Drained(pages, At(pages, left).next))
  }

  predicate Finishable(pages: Pages, left: PageId, known: Option<nat>, root: PageId) {
    CanUndo(pages, left, known) && CanRoot(pages, left, root)
  }

  /** Only leaves lose entries. */
  lemma DrainedIsLeaf(pages: Pages, levels: Levels, root: PageId, l: nat, i: nat)
    requires TreeOk(pages, levels, root) && l < |levels| && i < |levels[l]| && Drained(pages, levels[l][i])
    ensures l == 0
  {
    PageAt(pages, levels, root, l, i);
  }

  /** A marked page of the top level is the root. */
  lemma MarkedTop(pages: Pages, levels: Levels, root: PageId, l: nat, i: nat)
    requires TreeOk(pages, levels, root) && l + 1 == |levels| && i < |levels[l]|
    requires i > 0 ==> !Open(pages, levels[l][i - 1])
    ensures levels[l][i] == root
  {
    LinkedOnce(pages, levels, root, l, i);
  }

  lemma ClosedBefore(pages: Pages, levels: Levels, m: nat, i: nat)
    requires NoneOpen(pages, levels, m) && m < |levels| && i < |levels[m]|
    ensures i > 0 ==> !Open(pages, levels[m][i - 1])
  {
  }

  lemma ClosedPage(pages: Pages, levels: Levels, m: nat, i: nat)
    requires NoneOpen(pages, levels, m) && m < |levels| && i < |levels[m]|
    ensures !Open(pages, levels[m][i])
  {
  }

  lemma ParentOfPair(v: View, root: PageId, l: nat, i: nat)
    requires TreeOk(v.pages, v.levels, root) && Interrupted(v, l, i)
    requires At(v.pages, v.levels[l][i]).Page? && !At(v.pages, v.levels[l][i]).flags.root
    ensures l + 1 < |v.levels| && Names(v.pages, v.levels[l + 1], true, v.levels[l][i]) == 1
  {
    ParentNamed(v.pages, v.levels, root, l, i);
  }

  /** What finishing promises: the entry sequence of the level intact, the mark gone, nothing else on the level
      or below touched, and the levels above closed. */
  ghost predicate SplitFinished(a: View, b: View, l: nat, i: nat) {
    && l < |a.levels| && i + 1 < |a.levels[l]| && UntouchedBelow(a, b, l) && l < |b.levels|
    && b.levels[l] == (if Drained(a.pages, a.levels[l][i + 1]) then Unspliced(a.levels[l], i) else a.levels[l])
    && Flat(b.pages, b.levels[l]) == Flat(a.pages, a.levels[l])
    && !Open(b.pages, a.levels[l][i]) && !Open(b.pages, a.levels[l][i + 1]) && NoneOpen(b.pages, b.levels, l + 1)
    && (forall c :: 0 <= c < |a.levels[l]| && c != i && c != i + 1 ==>
       At(b.pages, a.levels[l][c]) == At(a.pages, a.levels[l][c]))
    && PrevOf(b.pages, a.levels[l][i]) == PrevOf(a.pages, a.levels[l][i])
    && PrevOf(b.pages, a.levels[l][i + 1]) == PrevOf(a.pages, a.levels[l][i + 1])
  }

  /** The record is for this pair, and if the move is still owed its copy slot is inside the left page. */
  ghost predicate ForPair(rec: Clr, v: View, l: nat, i: nat) {
    && l < |v.levels| && i + 1 < |v.levels[l]| && rec.left == v.levels[l][i] && rec.right == v.levels[l][i + 1]
    && !IsUnlink(rec)
    && At(v.pages, rec.right).Page? && At(v.pages, rec.left).Page? && |rec.sep| <= MAX_INDEX_KEY_BYTES
    && !Drained(v.pages, rec.right)
    && (OwesMove(rec, v.pages) ==> 1 <= rec.start < |At(v.pages, rec.left).entries|)
  }

  /** The pair after its record: what the two pages hold. */
  ghost predicate PairAfter(a: View, s: Pages, l: nat, i: nat, rec: Clr) {
    && l < |a.levels| && i + 1 < |a.levels[l]| && rec.left == a.levels[l][i] && rec.right == a.levels[l][i + 1]
    && At(a.pages, rec.left).Page? && At(a.pages, rec.right).Page? && At(s, rec.left).Page? && At(s, rec.right).Page?
    && !At(s, rec.left).flags.root && At(s, rec.right).flags == At(a.pages, rec.right).flags
    && (if At(a.pages, rec.right).entries != [] then
          EntriesOf(s, rec.left) == EntriesOf(a.pages, rec.left) &&
            EntriesOf(s, rec.right) == EntriesOf(a.pages, rec.right)
        else
          && 1 <= rec.start <= |EntriesOf(a.pages, rec.left)|
          && EntriesOf(s, rec.left) == EntriesOf(a.pages, rec.left)[..rec.start]
          && EntriesOf(s, rec.right) == EntriesOf(a.pages, rec.left)[rec.start..])
  }

  lemma PairReady(a: View, root: PageId, l: nat, i: nat, rec: Clr, lsn: nat) returns (s1: Pages)
    requires TreeOk(a.pages, a.levels, root) && Interrupted(a, l, i) && ForPair(rec, a, l, i)
    requires PdLsn(At(a.pages, rec.left)) < lsn
    ensures PairStep(rec, lsn, a.pages).Ok?
    ensures ReadyPair(a.pages, a.levels, root, l, i, rec, PairStep(rec, lsn, a.pages).value, s1)
    ensures Flat(s1, a.levels[l]) == Flat(a.pages, a.levels[l])
    ensures At(s1, rec.right).Page? && At(s1, rec.right).level == l && !Open(s1, rec.right)
    ensures At(PairStep(rec, lsn, a.pages).value, rec.left).Page?
    ensures PairAfter(a, PairStep(rec, lsn, a.pages).value, l, i, rec)
  {
    NeighboursApart(a.pages, a.levels, root, l);
    NextOf(a.pages, a.levels[l], i);
    PageAt(a.pages, a.levels, root, l, i + 1);
    if At(a.pages, rec.right).entries != [] {
      s1 := NoMoveReady(a.pages, a.levels, root, l, i, rec, lsn);
      FlatFrame(a.pages, s1, a.levels[l]);
    } else {
      s1 := MoveReady(a.pages, a.levels, root, l, i, rec, lsn);
    }
    PairFlags(rec, lsn, a.pages);
  }

  /** The record leaves the right page's level and flags alone. */
  lemma PairFlags(rec: Clr, lsn: nat, s: Pages)
    requires rec.left != rec.right && PairStep(rec, lsn, s).Ok? && PdLsn(At(s, rec.left)) < lsn
    ensures At(s, rec.right).Page? && At(PairStep(rec, lsn, s).value, rec.right).Page?
    ensures At(PairStep(rec, lsn, s).value, rec.right).level == At(s, rec.right).level
    ensures At(PairStep(rec, lsn, s).value, rec.right).flags == At(s, rec.right).flags
  {
  }

  /** The pages after the record of an interrupted split. */
  lemma FinishPages(a: View, root: PageId, l: nat, i: nat, rec: Clr, lsn: nat, meta: Meta, s1: Pages, t: Pages)
    requires TreeOk(a.pages, a.levels, root) && Interrupted(a, l, i) && ForPair(rec, a, l, i)
    requires Unseen(rec, lsn, Disk(a.pages, meta))
    requires PairStep(rec, lsn, a.pages).Ok?
    requires ReadyPair(a.pages, a.levels, root, l, i, rec, PairStep(rec, lsn, a.pages).value, s1)
    requires Flat(s1, a.levels[l]) == Flat(a.pages, a.levels[l]) && At(s1, rec.right).Page? && !Open(s1, rec.right)
    requires ApplyClr(rec, lsn, Disk(a.pages, meta)).Ok? && t == ApplyClr(rec, lsn, Disk(a.pages, meta)).value.pages
    requires LinkOf(rec) !in a.levels[l]
    ensures At(t, rec.left).Page? && SameContent(At(t, rec.left), CommitLeft(At(s1, rec.left)))
    ensures At(t, rec.right) == At(s1, rec.right)
    ensures !Open(t, rec.left) && !Open(t, rec.right) && Flat(t, a.levels[l]) == Flat(a.pages, a.levels[l])
    ensures forall p :: p !in {rec.left, rec.right, LinkOf(rec)} ==> At(t, p) == At(a.pages, p) && At(t, p) == At(s1, p)
    ensures PrevOf(t, rec.left) == PrevOf(a.pages, rec.left) && PrevOf(t, rec.right) == PrevOf(a.pages, rec.right)
  {
    AppliedPages(rec, lsn, Disk(a.pages, meta));
    hide TreeOk, PairStep, ApplyClr, LinkOf, Interrupted;
    FlatFrame(s1, t, a.levels[l]);
  }

  lemma FinishIsStep(a: View, b: View, l: nat, i: nat, rec: Clr)
    requires l < |a.levels| && i + 1 < |a.levels[l]| && rec.left == a.levels[l][i] && rec.right == a.levels[l][i + 1]
    requires b == View(b.pages, a.levels + (if l + 1 == |a.levels| then [[LinkOf(rec)]] else []), a.freelist, a.fileEnd)
    requires At(b.pages, LinkOf(rec)).Page? && At(b.pages, LinkOf(rec)).level == l + 1 && !Open(b.pages, LinkOf(rec))
    requires At(b.pages, rec.left).Page? && At(b.pages, rec.left).level == l && !Open(b.pages, rec.left)
    requires At(b.pages, rec.right).Page? && At(b.pages, rec.right).level == l && !Open(b.pages, rec.right)
    requires forall p :: p !in {rec.left, rec.right, LinkOf(rec)} ==> At(b.pages, p) == At(a.pages, p)
    requires if l + 1 < |a.levels| then LinkOf(rec) in a.levels[l + 1] else Unused(a.levels, LinkOf(rec))
    ensures RecordStep(a, b, l, i, rec.right, LinkOf(rec))
  {
    assert rec.right in a.levels[l];
    assert a.levels[l := a.levels[l]] == a.levels;
  }

  lemma StepSound(a: View, b: View, root: PageId, root': PageId, others: set<PageId>, l: nat, i: nat, right: PageId,
                  link: PageId)
    requires Sound(a, root, others) && RecordStep(a, b, l, i, right, link) && TreeOk(b.pages, b.levels, root')
    requires (right in a.levels[l] || Held(a, others, right)) && (l + 1 == |a.levels| ==> Held(a, others, link))
    ensures Sound(b, root', others)
  {
    hide TreeOk, NoStrays, Ours, AllocOk, RecordStep;
    StepStrays(a, b, others, l, i, right, link);
    StepOurs(a, b, others, l, i, right, link);
  }

  lemma FinishEnds(a: View, b: View, root: PageId, root': PageId, others: set<PageId>, l: nat, i: nat, rec: Clr)
    requires Sound(a, root, others) && Interrupted(a, l, i) && ForPair(rec, a, l, i) && TreeOk(b.pages, b.levels, root')
    requires RecordStep(a, b, l, i, rec.right, LinkOf(rec)) && Flat(b.pages, a.levels[l]) == Flat(a.pages, a.levels[l])
    requires LinkOf(rec) !in a.levels[l] && Linked(a.pages, a.levels[l])
    requires (l + 1 == |a.levels| ==> Held(a, others, LinkOf(rec)))
    requires PrevOf(b.pages, rec.left) == PrevOf(a.pages, rec.left)
    requires PrevOf(b.pages, rec.right) == PrevOf(a.pages, rec.right)
    ensures Sound(b, root', others) && SplitFinished(a, b, l, i)
  {
    hide TreeOk, NoStrays, Ours, AllocOk, LinkOf, Flat, Linked, Twin;
    assert rec.right in a.levels[l];
    StepSound(a, b, root, root', others, l, i, rec.right, LinkOf(rec));
    NothingElse(a, b, root, l, i, rec);
    assert b.levels[l] == a.levels[l] && !Open(b.pages, rec.left) && !Open(b.pages, rec.right);
    hide RecordStep;
    StepUntouched(a, b, root, l, i, rec.right, LinkOf(rec));
    StepCloses(a, b, l, i, rec.right, LinkOf(rec), l + 1);
  }

  lemma NothingElse(a: View, b: View, root: PageId, l: nat, i: nat, rec: Clr)
    requires l < |a.levels| && i + 1 < |a.levels[l]| && rec.left == a.levels[l][i] && rec.right == a.levels[l][i + 1]
    requires Linked(a.pages, a.levels[l])
    requires forall p :: p !in {rec.left, rec.right, LinkOf(rec)} ==> At(b.pages, p) == At(a.pages, p)
    requires LinkOf(rec) !in a.levels[l]
    ensures forall c :: 0 <= c < |a.levels[l]| && c != i && c != i + 1 ==>
      At(b.pages, a.levels[l][c]) == At(a.pages, a.levels[l][c])
  {
  }

  lemma FinishLinkEnds(a: View, others: set<PageId>, root: PageId, l: nat, i: nat, j: nat, rec: Clr, lsn: nat,
                       meta: Meta, s1: Pages)
    requires Sound(a, root, others) && Interrupted(a, l, i) && ForPair(rec, a, l, i) && rec.newRoot == INVALID
    requires Unseen(rec, lsn, Disk(a.pages, meta))
    requires l + 1 < |a.levels| && j < |a.levels[l + 1]| && a.levels[l + 1][j] == rec.parent && rec.parent != INVALID
    requires rec.parent !in a.levels[l]
    requires At(a.pages, rec.parent).Page? && At(a.pages, rec.parent).level == l + 1 && !Open(a.pages, rec.parent)
    requires PairStep(rec, lsn, a.pages).Ok?
    requires ReadyPair(a.pages, a.levels, root, l, i, rec, PairStep(rec, lsn, a.pages).value, s1)
    requires Flat(s1, a.levels[l]) == Flat(a.pages, a.levels[l]) && At(s1, rec.right).Page?
    requires At(s1, rec.right).level == l && !Open(s1, rec.right)
    requires ApplyClr(rec, lsn, Disk(a.pages, meta)).Ok?
    ensures var b := View(ApplyClr(rec, lsn, Disk(a.pages, meta)).value.pages, a.levels, a.freelist, a.fileEnd);
      Sound(b, root, others) && SplitFinished(a, b, l, i) && RecordStep(a, b, l, i, rec.right, rec.parent)
  {
    AppliedPages(rec, lsn, Disk(a.pages, meta));
    var d := ApplyClr(rec, lsn, Disk(a.pages, meta)).value;
    hide TreeOk, Bytes, NoStrays, Ours, AllocOk, Linked, Interrupted, Flat, Sorted, PairStep, ApplyClr;
    FinishPages(a, root, l, i, rec, lsn, meta, s1, d.pages);
    ParentRecordKeeps(s1, a.levels, root, l, i, j, rec, lsn, d.pages);
    var b := View(d.pages, a.levels, a.freelist, a.fileEnd);
    assert a.levels + [] == a.levels;
    PageAt(s1, a.levels, root, l, i);
    FinishIsStep(a, b, l, i, rec);
    NeighboursApart(a.pages, a.levels, root, l);
    hide RecordStep, ReadyPair, SameContent;
    FinishEnds(a, b, root, root, others, l, i, rec);
  }

  lemma FinishLinkKeeps(a: View, others: set<PageId>, root: PageId, l: nat, i: nat, j: nat, rec: Clr, lsn: nat,
                        meta: Meta)
    requires Sound(a, root, others) && LsnsBelow(a.pages, meta, lsn) && Interrupted(a, l, i) && ForPair(rec, a, l, i)
    requires rec.newRoot == INVALID
    requires l + 1 < |a.levels| && j < |a.levels[l + 1]| && a.levels[l + 1][j] == rec.parent
    requires rec.slot <= |EntriesOf(a.pages, rec.parent)|
    ensures ApplyClr(rec, lsn, Disk(a.pages, meta)).Ok? <==>
      HasRoom(a.pages, rec.parent, l + 1, Entry(rec.sep, rec.right, 0))
    ensures ApplyClr(rec, lsn, Disk(a.pages, meta)).Err? ==> ApplyClr(rec, lsn, Disk(a.pages, meta)).error == NoSpace
    ensures ApplyClr(rec, lsn, Disk(a.pages, meta)).Ok? ==>
      && ApplyClr(rec, lsn, Disk(a.pages, meta)).value.meta == meta
      && var b := View(ApplyClr(rec, lsn, Disk(a.pages, meta)).value.pages, a.levels, a.freelist, a.fileEnd);
         Sound(b, root, others) && SplitFinished(a, b, l, i) && RecordStep(a, b, l, i, rec.right, rec.parent)
  {
    LinkApart(a.pages, a.levels, root, l, i, j);
    PageAt(a.pages, a.levels, root, l + 1, j);
    hide TreeOk, Bytes, NoStrays, Ours, AllocOk, Linked, Interrupted, Flat, Sorted, SplitFinished;
    UnseenBelow(rec, lsn, a.pages, meta);
    ClosedAbove(a, l, i, j);
    var s1 := PairReady(a, root, l, i, rec, lsn);
    assert At(PairStep(rec, lsn, a.pages).value, rec.parent) == At(a.pages, rec.parent);
    RoomSuffices(At(a.pages, rec.parent), rec.parent, l + 1, root, rec.slot, Entry(rec.sep, rec.right, 0));
    hide PairStep, ReadyPair;
    if ApplyClr(rec, lsn, Disk(a.pages, meta)).Ok? {
      FinishLinkEnds(a, others, root, l, i, j, rec, lsn, meta, s1);
    }
  }

  lemma ClosedAbove(a: View, l: nat, i: nat, j: nat)
    requires Interrupted(a, l, i) && l + 1 < |a.levels| && j < |a.levels[l + 1]|
    ensures !Open(a.pages, a.levels[l + 1][j])
  {
  }

  lemma LinkApart(pages: Pages, levels: Levels, root: PageId, l: nat, i: nat, j: nat)
    requires TreeOk(pages, levels, root) && l + 1 < |levels| && i + 1 < |levels[l]| && j < |levels[l + 1]|
    ensures levels[l][i] != levels[l][i + 1] && levels[l + 1][j] !in levels[l]
    ensures levels[l + 1][j] != levels[l][i] && levels[l + 1][j] != levels[l][i + 1]
    ensures levels[l + 1][j] != INVALID && levels[l][i] != INVALID && levels[l][i + 1] != INVALID
  {
    NeighboursDiffer(pages, levels, root, l, i);
    NeighboursApart(pages, levels, root, l);
    NeighboursApart(pages, levels, root, l + 1);
    NoInvalid(pages, levels[l]);
    NoInvalid(pages, levels[l + 1]);
    TreeApart(pages, levels, root, l + 1, l, j);
    assert levels[l][i] in levels[l] && levels[l][i + 1] in levels[l];
  }

  lemma FinishRootKeeps(a: View, others: set<PageId>, root: PageId, l: nat, i: nat, rec: Clr, lsn: nat, meta: Meta)
    requires Sound(a, root, others) && LsnsBelow(a.pages, meta, lsn) && Interrupted(a, l, i) && ForPair(rec, a, l, i)
    requires rec.parent == INVALID
    requires rec.left == root && rec.level == l && Held(a, others, rec.newRoot)
    ensures ApplyClr(rec, lsn, Disk(a.pages, meta)).Ok?
    ensures ApplyClr(rec, lsn, Disk(a.pages, meta)).value.meta.root == rec.newRoot && l + 1 == |a.levels|
    ensures var b := View(ApplyClr(rec, lsn, Disk(a.pages, meta)).value.pages, a.levels + [[rec.newRoot]], a.freelist,
      a.fileEnd);
      Sound(b, rec.newRoot, others) && SplitFinished(a, b, l, i) && RecordStep(a, b, l, i, rec.right, rec.newRoot)
  {
    hide TreeOk, Bytes, NoStrays, Ours, AllocOk, Linked, Flat, Sorted, Twin, PairStep;
    RootLevel(a.pages, a.levels, root, l, i);
    NeighboursDiffer(a.pages, a.levels, root, l, i);
    NeighboursApart(a.pages, a.levels, root, l);
    NoInvalid(a.pages, a.levels[l]);
    assert rec.left in a.levels[l] && rec.right in a.levels[l] && rec.newRoot !in a.levels[l];
    UnseenBelow(rec, lsn, a.pages, meta);
    var s1 := PairReady(a, root, l, i, rec, lsn);
    assert ApplyClr(rec, lsn, Disk(a.pages, meta)).Ok?;
    var d := ApplyClr(rec, lsn, Disk(a.pages, meta)).value;
    AppliedPages(rec, lsn, Disk(a.pages, meta));
    assert d.meta.root == rec.newRoot;
    hide ApplyClr;
    FinishPages(a, root, l, i, rec, lsn, meta, s1, d.pages);
    RootRecordKeeps(s1, a.levels, root, i, rec, lsn, d.pages);
    var b := View(d.pages, a.levels + [[rec.newRoot]], a.freelist, a.fileEnd);
    PageAt(s1, a.levels, root, l, i);
    FinishIsStep(a, b, l, i, rec);
    FinishEnds(a, b, root, rec.newRoot, others, l, i, rec);
  }

  /** What an unlink record writes. */
  lemma AbandonPages(rec: Clr, lsn: nat, s: Pages, meta: Meta)
    requires IsUnlink(rec) && rec.left != rec.right && At(s, rec.left).Page? && At(s, rec.right).Page?
    requires PdLsn(At(s, rec.left)) < lsn && PdLsn(At(s, rec.right)) < lsn
    ensures ApplyClr(rec, lsn, Disk(s, meta)).Ok? && ApplyClr(rec, lsn, Disk(s, meta)).value.meta == meta
    ensures var t := ApplyClr(rec, lsn, Disk(s, meta)).value.pages;
      && t == s[rec.right := At(t, rec.right)][rec.left := At(t, rec.left)]
      && At(t, rec.right) == At(s, rec.right).(lsn := lsn)
      && At(t, rec.left)
         == At(s, rec.left).(next := At(s, rec.right).next, flags := At(s, rec.left).flags.(incomplete := false),
           lsn := lsn)
  {
  }

  /** The tree without the drained page. */
  lemma AbandonTree(a: View, root: PageId, l: nat, i: nat, pgL: Page, lsn: nat)
    requires TreeOk(a.pages, a.levels, root) && Interrupted(a, l, i) && Drained(a.pages, a.levels[l][i + 1])
    requires pgL
      == At(a.pages, a.levels[l][i]).(next := At(a.pages, a.levels[l][i + 1]).next,
        flags := At(a.pages, a.levels[l][i]).flags.(incomplete := false), lsn := lsn)
    ensures var t := a.pages[a.levels[l][i + 1] := At(a.pages, a.levels[l][i + 1]).(lsn := lsn)][a.levels[l][i] := pgL];
      && TreeOk(t, a.levels[l := Unspliced(a.levels[l], i)], root)
      && Flat(t, Unspliced(a.levels[l], i)) == Flat(a.pages, a.levels[l])
  {
    var left, right := a.levels[l][i], a.levels[l][i + 1];
    NeighboursDiffer(a.pages, a.levels, root, l, i);
    PageAt(a.pages, a.levels, root, l, i + 1);
    var pgR := At(a.pages, right).(lsn := lsn);
    var s1 := a.pages[right := pgR];
    TreeReplace(a.pages, a.levels, root, l, i + 1, pgR);
    FlatFrame(a.pages, s1, a.levels[l]);
    assert Unlinkable(s1, a.levels[l], i, pgL);
    hide TreeOk, Flat, Unlinkable;
    UnlinkKeeps(s1, a.levels, root, l, i, pgL);
    UnlinkedFlat(s1, a.levels[l], i, pgL);
  }

  /** Abandoning a split whose right half was deleted. */
  lemma AbandonKeeps(a: View, others: set<PageId>, root: PageId, l: nat, i: nat, rec: Clr, lsn: nat, meta: Meta)
    requires Sound(a, root, others) && LsnsBelow(a.pages, meta, lsn) && Interrupted(a, l, i) && IsUnlink(rec)
    requires rec.left == a.levels[l][i] && rec.right == a.levels[l][i + 1] && Drained(a.pages, rec.right)
    ensures ApplyClr(rec, lsn, Disk(a.pages, meta)).Ok? && ApplyClr(rec, lsn, Disk(a.pages, meta)).value.meta == meta
    ensures var b := View(ApplyClr(rec, lsn, Disk(a.pages, meta)).value.pages, a.levels[l := Unspliced(a.levels[l], i)],
      a.freelist, a.fileEnd);
      && Sound(b, root, others) && SplitFinished(a, b, l, i) && AbandonStep(a, b, l, i) && At(a.pages, rec.left).Page?
      && EntriesOf(b.pages, rec.left) == EntriesOf(a.pages, rec.left)
      && At(b.pages, rec.left).flags.root == At(a.pages, rec.left).flags.root
  {
    NeighboursDiffer(a.pages, a.levels, root, l, i);
    NeighboursApart(a.pages, a.levels, root, l);
    PageAt(a.pages, a.levels, root, l, i);
    AbandonPages(rec, lsn, a.pages, meta);
    hide ApplyClr;
    var t := ApplyClr(rec, lsn, Disk(a.pages, meta)).value.pages;
    hide TreeOk, Flat, Linked;
    AbandonTree(a, root, l, i, At(t, rec.left), lsn);
    hide Interrupted, NoStrays, Ours, AllocOk;
    var b := View(t, a.levels[l := Unspliced(a.levels[l], i)], a.freelist, a.fileEnd);
    AbandonSound(a, b, root, others, l, i);
    AbandonFinished(a, b, root, l, i);
  }

  /** The pages an abandoned split changes. */
  ghost predicate AbandonStep(a: View, b: View, l: nat, i: nat) {
    && l < |a.levels| && i + 1 < |a.levels[l]| && Linked(a.pages, a.levels[l])
    && b.levels == a.levels[l := Unspliced(a.levels[l], i)] && b.freelist == a.freelist && b.fileEnd == a.fileEnd
    && (forall p :: p !in {a.levels[l][i], a.levels[l][i + 1]} ==> At(b.pages, p) == At(a.pages, p))
    && At(b.pages, a.levels[l][i]).Page? && At(b.pages, a.levels[l][i]).level == l && !Open(b.pages, a.levels[l][i])
    && At(b.pages, a.levels[l][i + 1]).Page? && At(b.pages, a.levels[l][i + 1]).entries == []
    && !Open(b.pages, a.levels[l][i + 1])
    && PrevOf(b.pages, a.levels[l][i]) == PrevOf(a.pages, a.levels[l][i])
    && PrevOf(b.pages, a.levels[l][i + 1]) == PrevOf(a.pages, a.levels[l][i + 1])
  }

  lemma AbandonSound(a: View, b: View, root: PageId, others: set<PageId>, l: nat, i: nat)
    requires Sound(a, root, others) && AbandonStep(a, b, l, i) && TreeOk(b.pages, b.levels, root)
    ensures Sound(b, root, others)
  {
    var left, right := a.levels[l][i], a.levels[l][i + 1];
    forall p ensures p in b.levels[l] <==> p in a.levels[l] && p != right { UnsplicedMember(a.levels[l], i, p); }
    LinkedNoDup(a.pages, a.levels[l]);
    hide TreeOk, Linked, Unspliced, NoStrays, Ours, AllocOk;
    assert left in a.levels[l] && left != right;
    AbandonStrays(a, b, others, l, left, right);
    AbandonOurs(a, b, others, l, right);
  }

  lemma AbandonFinished(a: View, b: View, root: PageId, l: nat, i: nat)
    requires TreeOk(a.pages, a.levels, root) && AbandonStep(a, b, l, i) && Interrupted(a, l, i)
    requires Drained(a.pages, a.levels[l][i + 1])
    requires Flat(b.pages, b.levels[l]) == Flat(a.pages, a.levels[l])
    ensures SplitFinished(a, b, l, i)
  {
    LinkedNoDup(a.pages, a.levels[l]);
    hide TreeOk, Flat, Linked, Unspliced, PairOrdered;
    AbandonSees(a, b, root, l, i);
    NoneOpenSeen(a, b, l + 1);
  }

  lemma AbandonSees(a: View, b: View, root: PageId, l: nat, i: nat)
    requires TreeOk(a.pages, a.levels, root) && l < |a.levels| && i + 1 < |a.levels[l]|
    requires forall p :: p !in {a.levels[l][i], a.levels[l][i + 1]} ==> At(b.pages, p) == At(a.pages, p)
    ensures forall k :: 0 <= k < |a.levels| && k != l ==> SamePages(a.pages, b.pages, a.levels[k])
  {
    hide TreeOk;
    forall k | 0 <= k < |a.levels| && k != l ensures SamePages(a.pages, b.pages, a.levels[k]) {
      TreeApart(a.pages, a.levels, root, l, k, i);
      TreeApart(a.pages, a.levels, root, l, k, i + 1);
    }
  }

  lemma NoneOpenSeen(a: View, b: View, n: nat)
    requires NoneOpen(a.pages, a.levels, n) && |b.levels| == |a.levels|
    requires forall k :: n <= k < |a.levels| ==> b.levels[k] == a.levels[k] && SamePages(a.pages, b.pages, a.levels[k])
    ensures NoneOpen(b.pages, b.levels, n)
  {
    forall k, x | n <= k < |b.levels| && 0 <= x < |b.levels[k]| ensures !Open(b.pages, b.levels[k][x]) {
      assert SamePages(a.pages, b.pages, a.levels[k]) && !Open(a.pages, a.levels[k][x]);
    }
  }

  lemma LinkedNoDup(pages: Pages, chain: seq<PageId>)
    requires Linked(pages, chain)
    ensures NoDup(chain)
  {
  }

  lemma AbandonStrays(a: View, b: View, others: set<PageId>, l: nat, left: PageId, right: PageId)
    requires NoStrays(a.pages, a.levels, others) && l < |a.levels| && |b.levels| == |a.levels| && left in b.levels[l]
    requires forall k :: 0 <= k < |a.levels| && k != l ==> b.levels[k] == a.levels[k]
    requires forall p :: p in b.levels[l] <==> p in a.levels[l] && p != right
    requires forall p :: p !in {left, right} ==> At(b.pages, p) == At(a.pages, p)
    requires At(b.pages, left).Page? && At(b.pages, left).level == l && At(b.pages, right).Page?
    requires At(b.pages, right).entries == []
    requires !Open(b.pages, right)
    ensures NoStrays(b.pages, b.levels, others)
  {
    assert OnTree(b.pages, b.levels, left);
    forall p | p !in {left, right} && OnTree(a.pages, a.levels, p) ensures OnTree(b.pages, b.levels, p) {
      assert At(b.pages, p) == At(a.pages, p);
    }
    forall p | p !in {left, right} ensures At(b.pages, p) == At(a.pages, p) {}
  }

  lemma AbandonOurs(a: View, b: View, others: set<PageId>, l: nat, right: PageId)
    requires AllocOk(a.levels, a.freelist, a.fileEnd) && Ours(a.levels, a.freelist, a.fileEnd, others)
    requires l < |a.levels| && |b.levels| == |a.levels| && b.freelist == a.freelist && b.fileEnd == a.fileEnd
    requires forall k :: 0 <= k < |a.levels| && k != l ==> b.levels[k] == a.levels[k]
    requires forall p :: p in b.levels[l] <==> p in a.levels[l] && p != right
    ensures AllocOk(b.levels, b.freelist, b.fileEnd) && Ours(b.levels, b.freelist, b.fileEnd, others)
  {
    forall k, x | 0 <= k < |b.levels| && 0 <= x < |b.levels[k]|
      ensures b.levels[k][x] < b.fileEnd && b.levels[k][x] !in others
    {
      assert b.levels[k][x] in a.levels[k] by { assert b.levels[k][x] in b.levels[k]; }
      var y :| 0 <= y < |a.levels[k]| && a.levels[k][y] == b.levels[k][x];
    }
    forall z | 0 <= z < |b.freelist| ensures Unused(b.levels, b.freelist[z]) {
      assert Unused(a.levels, a.freelist[z]);
    }
  }

  // ---------------------------------------------------------------- what a finished split is worth

  /** A page whose left neighbour is not marked is named by exactly one downlink, or is the root. */
  lemma LinkedOnce(pages: Pages, levels: Levels, root: PageId, l: nat, x: nat)
    requires TreeOk(pages, levels, root) && l < |levels| && x < |levels[l]|
    requires (x > 0 ==> !Open(pages, levels[l][x - 1]))
    ensures Downlinks(pages, levels, root, l, levels[l][x]) == 1
  {
    var chain, q := levels[l], levels[l][x];
    NeighboursApart(pages, levels, root, l);
    forall c | 0 <= c < |chain| ensures PageNames(At(pages, chain[c]), false, q) == 0 {
      NextOf(pages, chain, c);
      NoInvalid(pages, chain);
      assert q in chain;
    }
    Unmarked(pages, chain, q);
    assert NamedOnce(pages, levels, root, l);
    assert Downlinks(pages, levels, root, l, q) + Names(pages, levels[l], false, q) == 1;
  }

  /** A page that is not the root and no marked page's twin has its downlink, and so a level above it. */
  lemma ParentNamed(pages: Pages, levels: Levels, root: PageId, l: nat, i: nat)
    requires TreeOk(pages, levels, root) && l < |levels| && i < |levels[l]|
    requires (i > 0 ==> !Open(pages, levels[l][i - 1]))
    requires At(pages, levels[l][i]).Page? && !At(pages, levels[l][i]).flags.root
    ensures l + 1 < |levels| && Names(pages, levels[l + 1], true, levels[l][i]) == 1
  {
    LinkedOnce(pages, levels, root, l, i);
    PageAt(pages, levels, root, l, i);
  }

  lemma {:induction false} Unmarked(pages: Pages, chain: seq<PageId>, q: PageId)
    requires forall c :: 0 <= c < |chain| ==> PageNames(At(pages, chain[c]), false, q) == 0
    ensures Names(pages, chain, false, q) == 0
  {
    if chain != [] { Unmarked(pages, chain[..|chain| - 1], q); }
  }

  /** A finished split's right page, if it stayed, has exactly one downlink - from the level above, since it is not the
      root. */
  lemma RightLinkedOnce(a: View, b: View, root: PageId, l: nat, i: nat)
    requires TreeOk(b.pages, b.levels, root) && SplitFinished(a, b, l, i) && !Drained(a.pages, a.levels[l][i + 1])
    ensures Downlinks(b.pages, b.levels, root, l, a.levels[l][i + 1]) == 1
  {
    LinkedOnce(b.pages, b.levels, root, l, i + 1);
  }
}
