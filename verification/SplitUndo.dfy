/** Undo of a lost Commit: each incomplete split is finished or abandoned by one compensation record, parents split
    on the way up as needed, levels nearer the root first. */
module SplitUndo {
  import opened Entries
  import opened BtPages
  import opened BtLog
  import opened Chains
  import opened SplitPoint
  import opened TreeShape
  import opened TreeOrder
  import opened PageAlloc
  import opened Fences
  import opened Descent
  import opened SplitClr
  import opened UndoSteps
  import opened UndoTidy
  import opened UndoFences

  class UndoPass {
    var pages: Pages
    var meta: Meta
    var freelist: seq<PageId>
    var fileEnd: PageId
    var lsn: nat
    ghost var levels: Levels
    ghost const others: set<PageId>

    /** Over the pages redo recovered; pages in `others` belong to other relations. */
    constructor (pages0: Pages, meta0: Meta, freelist0: seq<PageId>, fileEnd0: PageId, lsn0: nat, ghost levels0: Levels,
                 ghost others0: set<PageId>)
      ensures pages == pages0 && meta == meta0 && freelist == freelist0 && fileEnd == fileEnd0 && lsn == lsn0
      ensures levels == levels0 && others == others0
    {
      pages, meta, freelist, fileEnd, lsn, levels, others := pages0, meta0, freelist0, fileEnd0, lsn0, levels0, others0;
    }

    ghost predicate Valid()
      reads this
    {
      && TreeOk(pages, levels, meta.root) && AllocOk(levels, freelist, fileEnd) && LsnsBelow(pages, meta, lsn)
      && NoStrays(pages, levels, others) && Ours(levels, freelist, fileEnd, others)
    }

    ghost function Now(): View
      reads this
    {
      View(pages, levels, freelist, fileEnd)
    }

    method NewPage() returns (id: PageId)
      requires Valid()
      modifies `freelist, `fileEnd
      ensures Valid() && Held(Now(), others, id) && HoldsKept(old(Now()), Now(), others, {})
      ensures !Held(old(Now()), others, id)
    {
      hide TreeOk, NoStrays, LsnsBelow;
      if |freelist| > 0 {
        id := freelist[0];
        freelist := freelist[1..];
      } else {
        id := fileEnd;
        fileEnd := fileEnd + 1;
      }
    }

    /** `find_parent_page`: the first page of the level above, in page-id order, that names the child. */
    method FindParent(child: PageId, level: nat) returns (r: Result<PageId, UndoError>)
      requires Valid() && child !in others
      ensures r.Ok? ==> level + 1 < |levels| && r.value in levels[level + 1] && Points(EntriesOf(pages, r.value), child)
      ensures r.Err? ==>
        r.error == NoParent && (level + 1 < |levels| ==> Names(pages, levels[level + 1], true, child) == 0)
    {
      hide TreeOk, LsnsBelow, Ours;
      var pid := 1;
      while pid < fileEnd
        invariant 1 <= pid && forall p :: 1 <= p < pid ==> !IsParent(At(pages, p), level + 1, child)
      {
        var pg := At(pages, pid);
        if pg.Page? && !pg.flags.leaf && pg.level == level + 1 {
          var hit := PointsAt(pg.entries, child);
          if hit {
            return Ok(pid);
          }
        }
        pid := pid + 1;
      }
      r := Err(NoParent);
      if level + 1 < |levels| { UnnamedByAll(pages, levels, meta.root, freelist, fileEnd, level + 1, child); }
    }

    /** Step 1 in place: the pair. */
    method ApplyPair(rec: Clr, at: nat) returns (r: Result<(), ClrError>)
      requires rec.left != rec.right && At(pages, rec.left).Page? && At(pages, rec.left).lsn < at
      requires At(pages, rec.right).Page?
      requires (At(pages, rec.right).entries != [] ==> Sorted(At(pages, rec.left).entries))
      modifies `pages
      ensures r.Ok? <==> PairStep(rec, at, old(pages)).Ok?
      ensures r.Ok? ==> pages == PairStep(rec, at, old(pages)).value
      ensures r.Err? ==> r.error == PairStep(rec, at, old(pages)).error
    {
      var left, right := At(pages, rec.left), At(pages, rec.right);
      if IsUnlink(rec) {
        pages := pages[rec.right := Stamp(right, at)];
        pages := pages[rec.left := Stamp(left.(next := right.next, flags := left.flags.(incomplete := false)), at)];
      } else if |right.entries| > 0 {
        var kept := left;
        if |left.entries| > 0 {
          var cut := LowerBound(left.entries, right.entries[0]);
          CutPointIsLowerBound(left.entries, right.entries[0], cut);
          if cut == 0 {
            return Err(Inverted);
          }
          kept := Rebuild(left, cut);
        }
        pages := pages[rec.right := Stamp(right, at)];
        pages := pages[rec.left := Stamp(Finished(kept, rec.right), at)];
      } else {
        if !NeverHadEntries(right) {
          return Err(Resurrects);
        }
        var moved := SplitCopy(left, right, rec.start, true);
        if moved.Err? {
          return Err(BadPage);
        }
        pages := pages[rec.right := Stamp(moved.value.1, at)];
        pages := pages[rec.left := Stamp(Finished(moved.value.0, rec.right), at)];
      }
      r := Ok(());
    }

    /** `emit_and_apply_clr`: log, then apply in place through the code path redo takes. */
    method ApplyRecord(rec: Clr) returns (r: Result<(), ClrError>)
      requires LsnsBelow(pages, meta, lsn) && rec.left != rec.right
      requires At(pages, rec.left).Page? && At(pages, rec.right).Page?
      requires At(pages, rec.right).entries != [] ==> Sorted(At(pages, rec.left).entries)
      modifies `pages, `meta, `lsn
      ensures r.Ok? <==> ApplyClr(rec, old(lsn), old(Disk(pages, meta))).Ok?
      ensures r.Ok? ==>
        Disk(pages, meta) == ApplyClr(rec, old(lsn), old(Disk(pages, meta))).value && LsnsBelow(pages, meta, lsn)
      ensures r.Err? ==> r.error == ApplyClr(rec, old(lsn), old(Disk(pages, meta))).error
    {
      var at := lsn;
      ghost var before := pages;
      r := ApplyPair(rec, at);
      if r.Err? {
        return;
      }
      PairStamps(rec, at, before);
      hide PairStep;
      if rec.newRoot != INVALID {
        if PdLsn(At(pages, rec.newRoot)) < at {
          pages := pages[rec.newRoot := RootPage(rec, at)];
        }
      } else if rec.parent != INVALID && PdLsn(At(pages, rec.parent)) < at {
        var linked := InsertEntryAt(At(pages, rec.parent), rec.slot, Entry(rec.sep, rec.right, 0));
        if linked.Err? {
          return Err(NoSpace);
        }
        pages := pages[rec.parent := Stamp(linked.value, at)];
      }
      if rec.newRoot != INVALID {
        meta := Meta(rec.newRoot, at);
      }
      lsn := at + 1;
    }

    /** `ensure_downlink_slot`: the parent itself if it has room, else the half the downlink sorts into. */
    method EnsureDownlinkSlot(parent: PageId, sep: seq<byte>, child: PageId, ghost m: nat, ghost j: nat,
                              ghost left: PageId)
      returns (r: Result<(PageId, nat), UndoError>, ghost t: nat)
      requires Valid() && 0 < m < |levels| && j < |levels[m]| && levels[m][j] == parent && NoneOpen(pages, levels, m)
      requires |sep| <= MAX_INDEX_KEY_BYTES && Entry(sep, child, 0) !in EntriesOf(pages, parent)
      modifies this
      ensures r.Ok? ==>
        && Valid() && UntouchedBelow(old(Now()), Now(), m) && HoldsKept(old(Now()), Now(), others, {})
        && NoneOpen(pages, levels, m)
      ensures r.Ok? ==>
        && m < |levels| && t < |levels[m]| && levels[m][t] == r.value.0 && r.value.1 <= |EntriesOf(pages, r.value.0)|
        && (InnerSorted(old(pages), old(levels), m - 1) ==> HasRoom(pages, r.value.0, m, Entry(sep, child, 0)))
      ensures r.Err? ==> Excused(r.error, old(Now()), old(meta.root), m - 1)
      ensures r.Ok? ==> |old(levels)| <= |levels| <= |old(levels)| + 1
      ensures r.Ok? && Tidy(old(Now()), old(meta.root), m) ==>
        Tidy(Now(), meta.root, m) && IsLowerBound(EntriesOf(pages, r.value.0), Entry(sep, child, 0), r.value.1)
      ensures r.Ok? && Points(EntriesOf(old(pages), parent), left) ==>
        Chosen(pages, levels, m, t, Entry(sep, child, 0), left)
      ensures r.Ok? && Tidy(old(Now()), old(meta.root), m) && Ranged(old(Now())) ==> Ranged(Now())
      decreases |levels| - m, 2, 0
    {
      hide TreeOk, AllocOk, NoStrays, Ours, LsnsBelow, NoneOpen, InnerSorted, Sorted, Tidy, Ranged, Chosen, Points;
      var e := Entry(sep, child, 0);
      ghost var v, root := Now(), meta.root;
      t := j;
      PageAt(pages, levels, meta.root, m, j);
      var target := parent;
      if FreeSpace(At(pages, parent)) < Cost(At(pages, parent).level, e) {
        var half; ghost var k;
        FullInternalSplits(At(pages, parent), parent, m, meta.root, e);
        half, k := SplitPageInUndo(parent, e, m, j);
        if half.Err? {
          ExcusedBelow(half.error, v, root, m);
          return Err(half.error), t;
        }
        var (right, first) := half.value;
        CutHasRoom(v, Now(), m, j, right, k, e);
        if Points(EntriesOf(v.pages, parent), left) { CutChosen(v, Now(), m, j, right, k, e, left); }
        SplicedAt(v.levels[m], j, right, j);
        SplicedAt(v.levels[m], j, right, j + 1);
        if !Less(e, first) {
          target, t := right, j + 1;
        }
      } else if Points(EntriesOf(v.pages, parent), left) {
        DirectlyChosen(pages, levels, m, j, e, left);
      }
      PageAt(pages, levels, meta.root, m, t);
      var slot := LowerBound(At(pages, target).entries, e);
      if Tidy(v, root, m) { SortedAt(Now(), meta.root, m, t); }
      r := Ok((target, slot));
    }

    /** `split_page_in_undo`: a whole split, parents included, under one record per level. */
    method SplitPageInUndo(left: PageId, e: Entry, ghost m: nat, ghost i: nat)
      returns (r: Result<(PageId, Entry), UndoError>, ghost k: nat)
      requires Valid() && 0 < m < |levels| && i < |levels[m]| && levels[m][i] == left && NoneOpen(pages, levels, m)
      requires |e.key| <= MAX_INDEX_KEY_BYTES
      modifies this
      ensures r.Ok? ==>
        && Valid() && UntouchedBelow(old(Now()), Now(), m) && HoldsKept(old(Now()), Now(), others, {})
        && NoneOpen(pages, levels, m)
      ensures r.Ok? ==>
        && CutLevel(old(Now()), Now(), m, i, r.value.0, k) && r.value.1 == At(old(pages), left).entries[k]
        && SplitAround(At(old(pages), left), Some(e), k)
      ensures r.Err? ==>
        (r.error == TooFewEntries && |At(old(pages), left).entries| < 2) ||
          Excused(r.error, old(Now()), old(meta.root), m)
      ensures r.Ok? ==> |old(levels)| <= |levels| <= |old(levels)| + 1
      ensures r.Ok? && Tidy(old(Now()), old(meta.root), m) ==>
        Tidy(Now(), meta.root, m) && (Ranged(old(Now())) ==> Ranged(Now()))
      decreases |levels| - m, 1, 0
    {
      hide TreeOk, AllocOk, NoStrays, Ours, LsnsBelow, NoneOpen, InnerSorted, Sorted, Tidy, Ranged;
      k := 0;
      PageAt(pages, levels, meta.root, m, i);
      var pg := At(pages, left);
      if pg.flags.incomplete {
        // not reached: levels nearer the root are finished first
        ClosedPage(pages, levels, m, i);
        assert false;
      }
      AlwaysSplittable(pg, left, m, meta.root, e);
      var cut := ChooseSplitSlot(pg, Some(e));
      if cut.Err? {
        return Err(TooFewEntries), k;
      }
      k := cut.value;
      ghost var v, root := Now(), meta.root;
      var right := InitRight(left, m, i);
      ghost var w := Now();
      SeenAlike(v.pages, pages, levels, m);
      ExcusedAlike(v, w, root, m);
      if Tidy(v, root, m) { TidySame(v, w, root, m); }
      RangedSame(v, w);
      var done;
      if pg.flags.root {
        done := PromoteFresh(left, right, cut.value, m, i);
      } else {
        done := LinkFresh(left, right, cut.value, m, i);
      }
      if done.Err? {
        return Err(done.error), k;
      }
      HoldsAcross(v, w, Now(), others, right);
      r := Ok((right, pg.entries[cut.value]));
    }

    /** A right page allocated, initialized and its initialization logged, not yet linked. */
    method InitRight(left: PageId, ghost m: nat, ghost i: nat) returns (right: PageId)
      requires Valid() && m < |levels| && i < |levels[m]| && levels[m][i] == left
      modifies `pages, `freelist, `fileEnd, `lsn
      ensures Valid() && FreshRight(Now(), others, m, i, right) && !Held(old(Now()), others, right)
      ensures HoldsKept(old(Now()), Now(), others, {}) && pages == old(pages)[right := At(pages, right)]
      ensures forall k :: 0 <= k < |levels| ==> SamePages(old(pages), pages, levels[k])
    {
      hide TreeOk, AllocOk, NoStrays, Ours, LsnsBelow;
      PageAt(pages, levels, meta.root, m, i);
      ghost var s := pages;
      right := NewPage();
      pages := pages[right := Stamp(InitRightPage(left, At(pages, left).next, At(pages, left).level), lsn)];
      lsn := lsn + 1;
      TreeSees(s, pages, levels, meta.root);
      EmptyIsNoStray(s, pages, levels, others, right);
      LaterLsns(s, pages, meta, lsn - 1, right);
    }

    /** A fresh split of the root. */
    method PromoteFresh(left: PageId, right: PageId, k: nat, ghost m: nat, ghost i: nat)
      returns (r: Result<(), UndoError>)
      requires Valid() && 0 < m < |levels| && i < |levels[m]| && levels[m][i] == left && NoneOpen(pages, levels, m)
      requires FreshRight(Now(), others, m, i, right) && At(pages, left).flags.root
      requires 1 <= k < |At(pages, left).entries|
      modifies this
      ensures r.Ok? ==>
        && Valid() && UntouchedBelow(old(Now()), Now(), m) && HoldsKept(old(Now()), Now(), others, {right})
        && NoneOpen(pages, levels, m)
      ensures r.Ok? ==> CutLevel(old(Now()), Now(), m, i, right, k)
      ensures r.Ok? <==> old(meta.root) == left && m < MAX_LEVEL
      ensures r.Err? ==> Excused(r.error, old(Now()), old(meta.root), m)
      ensures r.Ok? ==> |levels| == |old(levels)| + 1
      ensures r.Ok? && Tidy(old(Now()), old(meta.root), m) ==>
        Tidy(Now(), meta.root, m) && (Ranged(old(Now())) ==> Ranged(Now()))
    {
      hide TreeOk, AllocOk, NoStrays, Ours, LsnsBelow, NoneOpen, InnerSorted, Sorted, Tidy, Ranged;
      ghost var v := Now();
      PageAt(pages, levels, meta.root, m, i);
      assert meta.root != left ==> !RootKept(pages, levels[m][i], m, meta.root) by { ClosedPage(pages, levels, m, i); }
      if At(pages, left).level >= MAX_LEVEL {
        return Err(LevelOverflow);
      }
      var id := NewPage();
      if meta.root != left {
        return Err(NoMeta);
      }
      ghost var w, at, root, was := Now(), lsn, meta.root, meta;
      var rec := Clr(left, right, At(pages, left).level, k, INVALID, At(pages, left).entries[k].key, 1, id);
      PromoteFreshKeeps(w, others, meta.root, m, i, rec, at, meta);
      var done := ApplyRecord(rec);
      levels := levels[m := Spliced(levels[m], i, right)] + [[id]];
      assert Now() == SplicedView(w, pages, m, i, right, [id]);
      PromoteDone(v, w, Now(), meta.root, others, m, i, rec);
      if Tidy(v, root, m) {
        TidySame(v, w, root, m);
        PromoteFreshTidy(w, Now(), others, root, m, i, rec, at);
        RangedSame(v, w);
        if Ranged(w) { PromoteFreshRanged(w, Now(), others, root, m, i, rec, at, was); }
      }
      r := Ok(());
    }

    /** The parent of a page about to be split, with room for one more downlink wherever its level is in order. */
    method ResolveLink(left: PageId, right: PageId, sep: seq<byte>, ghost m: nat, ghost i: nat)
      returns (r: Result<(PageId, nat), UndoError>, ghost t: nat)
      requires Valid() && 0 < m < |levels| && i < |levels[m]| && levels[m][i] == left && NoneOpen(pages, levels, m)
      requires FreshRight(Now(), others, m, i, right) && |sep| <= MAX_INDEX_KEY_BYTES && !At(pages, left).flags.root
      modifies this
      ensures r.Ok? ==> Valid() && UntouchedBelow(old(Now()), Now(), m + 1) && HoldsKept(old(Now()), Now(), others, {})
      ensures r.Ok? ==>
        FreshRight(Now(), others, m, i, right) && levels[m] == old(levels)[m] && NoneOpen(pages, levels, m)
      ensures r.Ok? ==> At(pages, left) == At(old(pages), left)
      ensures r.Ok? ==>
        && m + 1 < |levels| && t < |levels[m + 1]| && levels[m + 1][t] == r.value.0
        && r.value.1 <= |EntriesOf(pages, r.value.0)|
        && (InnerSorted(old(pages), old(levels), m) ==> HasRoom(pages, r.value.0, m + 1, Entry(sep, right, 0)))
      ensures r.Err? ==> Excused(r.error, old(Now()), old(meta.root), m)
      ensures r.Ok? ==> |old(levels)| <= |levels| <= |old(levels)| + 1
      ensures r.Ok? && Tidy(old(Now()), old(meta.root), m) ==>
        Tidy(Now(), meta.root, m) && IsLowerBound(EntriesOf(pages, r.value.0), Entry(sep, right, 0), r.value.1)
        && (Ranged(old(Now())) ==> Ranged(Now()))
      ensures r.Ok? ==> Chosen(pages, levels, m + 1, t, Entry(sep, right, 0), left)
      decreases |levels| - m, 0, 0
    {
      t := 0;
      ghost var v, root := Now(), meta.root;
      assert left !in others by { assert levels[m][i] !in others; }
      hide TreeOk, AllocOk, NoStrays, Ours, LsnsBelow, NoneOpen, InnerSorted, FreshRight, Held, HasRoom, Tidy, Ranged,
           Chosen, Points;
      PageAt(pages, levels, meta.root, m, i);
      var parent := FindParent(left, At(pages, left).level);
      if parent.Err? {
        // not reached: a page that is neither root nor twin has its downlink
        ClosedBefore(pages, levels, m, i);
        ParentNamed(pages, levels, meta.root, m, i);
        assert false;
      }
      ghost var j := OnLevel(pages, levels, meta.root, m + 1, parent.value);
      BeforeLink(v, others, meta.root, m, i, j, right, sep);
      if Tidy(v, root, m) { TidyInner(v, root, m); }
      r, t := EnsureDownlinkSlot(parent.value, sep, right, m + 1, j, left);
      if r.Ok? {
        AfterLink(v, Now(), others, m, i, right);
        if Tidy(v, root, m) { TidyDown(v, Now(), root, meta.root, m, m + 1); }
      }
    }

    /** A fresh split below the root: its own downlink first finds room, cascading further up if it must. */
    method LinkFresh(left: PageId, right: PageId, k: nat, ghost m: nat, ghost i: nat) returns (r: Result<(), UndoError>)
      requires Valid() && 0 < m < |levels| && i < |levels[m]| && levels[m][i] == left && NoneOpen(pages, levels, m)
      requires FreshRight(Now(), others, m, i, right) && !At(pages, left).flags.root
      requires 1 <= k < |At(pages, left).entries|
      modifies this
      ensures r.Ok? ==>
        && Valid() && UntouchedBelow(old(Now()), Now(), m) && HoldsKept(old(Now()), Now(), others, {right})
        && NoneOpen(pages, levels, m)
      ensures r.Ok? ==> CutLevel(old(Now()), Now(), m, i, right, k)
      ensures r.Err? ==> Excused(r.error, old(Now()), old(meta.root), m)
      ensures r.Ok? ==> |old(levels)| <= |levels| <= |old(levels)| + 1
      ensures r.Ok? && Tidy(old(Now()), old(meta.root), m) ==>
        Tidy(Now(), meta.root, m) && (Ranged(old(Now())) ==> Ranged(Now()))
      decreases |levels| - m, 0, 1
    {
      hide TreeOk, AllocOk, NoStrays, Ours, LsnsBelow, NoneOpen, InnerSorted, FreshDone, Held, UntouchedBelow,
           HoldsKept, CutLevel, Tidy, Ranged, Chosen;
      ghost var v, root := Now(), meta.root;
      PageAt(pages, levels, meta.root, m, i);
      var pg := At(pages, left);
      var link; ghost var t;
      link, t := ResolveLink(left, right, pg.entries[k].key, m, i);
      if link.Err? {
        return Err(link.error);
      }
      ghost var w := Now();
      var rec := Clr(left, right, pg.level, k, link.value.0, pg.entries[k].key, link.value.1, INVALID);
      ghost var at, was := lsn, meta;
      LinkFreshKeeps(w, others, meta.root, m, i, t, rec, lsn, meta);
      assert left != right by { LeftInTree(v, others, m, i, right); }
      var done := ApplyRecord(rec);
      if done.Err? {
        return Err(ApplyFailed(done.error));
      }
      levels := levels[m := Spliced(levels[m], i, right)];
      assert Now() == SplicedView(w, pages, m, i, right, []);
      LinkDone(v, w, Now(), meta.root, others, m, i, rec);
      if Tidy(v, root, m) {
        LinkFreshTidy(w, Now(), others, meta.root, m, i, t, rec, at);
        if Ranged(w) { LinkFreshRanged(w, Now(), others, meta.root, m, i, t, rec, at, was); }
      }
      r := Ok(());
    }

    /** The unlink plan. */
    method Abandon(left: PageId, right: PageId, start: nat, ghost l: nat, ghost i: nat)
      returns (r: Result<(), UndoError>)
      requires Valid() && Interrupted(Now(), l, i) && levels[l][i] == left && levels[l][i + 1] == right
      requires Drained(pages, right)
      modifies this
      ensures r.Ok? && Valid() && SplitFinished(old(Now()), Now(), l, i) && |levels| == |old(levels)|
      ensures Marooned(old(pages), left) ==> Claiming(pages, left, l)
      ensures Tidy(old(Now()), old(meta.root), l) ==> Tidy(Now(), meta.root, l)
      ensures Ranged(old(Now())) ==> Ranged(Now())
    {
      hide TreeOk, AllocOk, NoStrays, Ours, LsnsBelow, Interrupted, SplitFinished, Flat, Tidy, Ranged;
      PairPages(Now(), meta.root, l, i);
      ghost var v := Now();
      var rec := Clr(left, right, At(pages, left).level, start, INVALID, [], 0, INVALID);
      AbandonKeeps(v, others, meta.root, l, i, rec, lsn, meta);
      var done := ApplyRecord(rec);
      levels := levels[l := Unspliced(levels[l], i)];
      assert Now() == View(pages, v.levels[l := Unspliced(v.levels[l], i)], v.freelist, v.fileEnd);
      if Tidy(v, meta.root, l) { AbandonTidy(v, Now(), meta.root, l, i); }
      AbandonRanged(v, Now(), meta.root, l, i);
      r := Ok(());
    }

    /** Move or NoMove of a root split: a new root with both downlinks, published through the meta page. */
    method FinishRoot(left: PageId, right: PageId, start: nat, sep: seq<byte>, ghost l: nat, ghost i: nat)
      returns (r: Result<(), UndoError>)
      requires Valid() && Interrupted(Now(), l, i) && levels[l][i] == left && levels[l][i + 1] == right
      requires At(pages, left).flags.root
      requires CanPair(Now(), l, i, start, sep)
      modifies this
      ensures r.Ok? ==> old(meta.root) == left && Valid() && SplitFinished(old(Now()), Now(), l, i)
      ensures r.Ok? <==> old(meta.root) == left && l < MAX_LEVEL
      ensures r.Err? ==>
        (r.error == NoMeta && old(meta.root) != left) || Excused(r.error, old(Now()), old(meta.root), l)
      ensures r.Ok? ==> |levels| == |old(levels)| + 1
      ensures r.Ok? && Tidy(old(Now()), old(meta.root), l) && sep != [] ==> Tidy(Now(), meta.root, l)
      ensures r.Ok? ==> Parted(old(Now()), Now(), l, i, start, sep)
      ensures r.Ok? && Ranged(old(Now())) && Sharp(old(Now()), l, i, start, sep) ==> Ranged(Now())
    {
      hide TreeOk, AllocOk, NoStrays, Ours, LsnsBelow, Interrupted, SplitFinished, Flat, InnerSorted, NoneOpen, Tidy,
           Ranged, Sharp, HasLink;
      PairPages(Now(), meta.root, l, i);
      ghost var v := Now();
      if At(pages, left).level >= MAX_LEVEL {
        return Err(LevelOverflow);
      }
      var id := NewPage();
      if meta.root != left {
        return Err(NoMeta);
      }
      ghost var w, at, was := Now(), lsn, meta;
      SameTree(v, w, l, i, start, sep);
      var rec := Clr(left, right, At(pages, left).level, start, INVALID, sep, 1, id);
      HeldIsReal(w, others, id);
      FinishRootKeeps(w, others, meta.root, l, i, rec, lsn, meta);
      var done := ApplyRecord(rec);
      levels := levels + [[id]];
      assert Now() == View(pages, w.levels + [[id]], w.freelist, w.fileEnd);
      FinishedSame(v, w, Now(), l, i);
      FinishRootRanged(w, Now(), others, was.root, l, i, rec, at, was);
      RangedSame(v, w);
      SharpStays(v, w, l, i, start, sep);
      NowFinished(v, w, Now(), l, i, rec);
      if Tidy(v, was.root, l) && sep != [] {
        TidySame(v, w, was.root, l);
        FinishRootTidy(w, Now(), others, was.root, l, i, rec, at, was);
      }
      r := Ok(());
    }

    /** The parent of an interrupted split, with room for its downlink wherever the levels above are in order. */
    method ResolveParent(left: PageId, right: PageId, start: nat, sep: seq<byte>, ghost l: nat, ghost i: nat)
      returns (r: Result<(PageId, nat), UndoError>, ghost t: nat)
      requires Valid() && Interrupted(Now(), l, i) && levels[l][i] == left && levels[l][i + 1] == right
      requires CanPair(Now(), l, i, start, sep) && !At(pages, left).flags.root
      modifies this
      ensures r.Ok? ==> Valid() && UntouchedBelow(old(Now()), Now(), l + 1) && levels[l] == old(levels)[l]
      ensures r.Ok? ==> Interrupted(Now(), l, i) && CanPair(Now(), l, i, start, sep)
      ensures r.Ok? ==>
        && l + 1 < |levels| && t < |levels[l + 1]| && levels[l + 1][t] == r.value.0
        && r.value.1 <= |EntriesOf(pages, r.value.0)|
        && (InnerSorted(old(pages), old(levels), l) ==> HasRoom(pages, r.value.0, l + 1, Entry(sep, right, 0)))
      ensures r.Err? ==> Excused(r.error, old(Now()), old(meta.root), l)
      ensures r.Ok? ==> |old(levels)| <= |levels| <= |old(levels)| + 1
      ensures r.Ok? && Tidy(old(Now()), old(meta.root), l) ==>
        Tidy(Now(), meta.root, l) && IsLowerBound(EntriesOf(pages, r.value.0), Entry(sep, right, 0), r.value.1)
        && (Ranged(old(Now())) ==> Ranged(Now()))
      ensures r.Ok? ==> Chosen(pages, levels, l + 1, t, Entry(sep, right, 0), left)
    {
      t := 0;
      assert left !in others by { assert levels[l][i] !in others; }
      hide TreeOk, AllocOk, NoStrays, Ours, LsnsBelow, Interrupted, InnerSorted, NoneOpen, Held, HoldsKept, HasRoom,
           Tidy, Ranged, Chosen, Points;
      PairPages(Now(), meta.root, l, i);
      ghost var v, root := Now(), meta.root;
      var parent := FindParent(left, At(pages, left).level);
      if parent.Err? {
        // not reached: a marked page is no twin, so below the root it has its downlink
        ParentOfPair(v, meta.root, l, i);
        assert false;
      }
      ghost var j := OnLevel(pages, levels, meta.root, l + 1, parent.value);
      NotLinkedYet(v, meta.root, l, i, j, sep);
      assert |sep| <= MAX_INDEX_KEY_BYTES;
      hide CanPair;
      if Tidy(v, root, l) { TidyInner(v, root, l); }
      r, t := EnsureDownlinkSlot(parent.value, sep, right, l + 1, j, left);
      if r.Ok? {
        StillInterrupted(v, Now(), l, i, start, sep);
        if Tidy(v, root, l) { TidyDown(v, Now(), root, meta.root, l, l + 1); }
      }
    }

    /** Move or NoMove below the root: a downlink in the parent, whose level may split first. */
    method FinishLink(left: PageId, right: PageId, start: nat, sep: seq<byte>, ghost l: nat, ghost i: nat)
      returns (r: Result<(), UndoError>)
      requires Valid() && Interrupted(Now(), l, i) && levels[l][i] == left && levels[l][i + 1] == right
      requires CanPair(Now(), l, i, start, sep) && !At(pages, left).flags.root
      modifies this
      ensures r.Ok? ==> Valid() && SplitFinished(old(Now()), Now(), l, i)
      ensures r.Err? ==> Excused(r.error, old(Now()), old(meta.root), l)
      ensures r.Ok? ==> |old(levels)| <= |levels| <= |old(levels)| + 1
      ensures r.Ok? && Tidy(old(Now()), old(meta.root), l) && sep != [] ==> Tidy(Now(), meta.root, l)
      ensures r.Ok? ==> Parted(old(Now()), Now(), l, i, start, sep)
      ensures
        && r.Ok? && Tidy(old(Now()), old(meta.root), l) && Ranged(old(Now())) && Sharp(old(Now()), l, i, start, sep)
        ==> Ranged(Now())
    {
      hide TreeOk, AllocOk, NoStrays, Ours, LsnsBelow, Interrupted, SplitFinished, Flat, InnerSorted, NoneOpen,
           UntouchedBelow, Tidy, Ranged, Sharp, HasLink, Chosen;
      ghost var v, root := Now(), meta.root;
      var link; ghost var t;
      link, t := ResolveParent(left, right, start, sep, l, i);
      if link.Err? {
        return Err(link.error);
      }
      ghost var w := Now();
      PairPages(w, meta.root, l, i);
      var rec := Clr(left, right, At(pages, left).level, start, link.value.0, sep, link.value.1, INVALID);
      ParentIsReal(w, meta.root, l, t);
      ghost var at, was := lsn, meta;
      FinishLinkKeeps(w, others, meta.root, l, i, t, rec, lsn, meta);
      var done := ApplyRecord(rec);
      if done.Err? {
        return Err(ApplyFailed(done.error));
      }
      assert Now() == View(pages, w.levels, w.freelist, w.fileEnd);
      FinishedThrough(v, w, Now(), l, i);
      FinishLinkRanged(w, Now(), others, was.root, l, i, t, rec, at, was);
      SharpStays(v, w, l, i, start, sep);
      NowFinished(v, w, Now(), l, i, rec);
      if Tidy(v, root, l) && sep != [] { FinishLinkTidy(w, Now(), others, was.root, l, i, t, rec, at, was); }
      r := Ok(());
    }

    /** `finish_incomplete_split`: the plan follows the right page's content. */
    method FinishIncompleteSplit(left: PageId, right: PageId, start: nat, ghost l: nat, ghost i: nat)
      returns (r: Result<(), UndoError>)
      requires Valid() && Interrupted(Now(), l, i) && levels[l][i] == left && levels[l][i + 1] == right && 1 <= start
      modifies this
      ensures r.Ok? ==> Valid() && SplitFinished(old(Now()), Now(), l, i)
      ensures Drained(old(pages), right) ==> r.Ok?
      ensures !CanRoot(old(pages), left, old(meta).root) ==> r.Err?
      ensures r == Err(NothingToMove) <==> !HasCut(old(pages), left, right, start)
      ensures r.Err? ==>
        || r.error == NothingToMove || !CanRoot(old(pages), left, old(meta).root)
        || Excused(r.error, old(Now()), old(meta.root), l)
      ensures Marooned(old(pages), left) ==> Claiming(pages, left, l)
      ensures r.Ok? ==> |old(levels)| <= |levels| <= |old(levels)| + 1
      ensures r.Ok? && Tidy(old(Now()), old(meta.root), l) ==> Tidy(Now(), meta.root, l)
      ensures r.Ok? && !Drained(old(pages), right) ==> KeyedLink(pages, levels, l, right)
      ensures r.Ok? && Drained(old(pages), right) && Ranged(old(Now())) ==> Ranged(Now())
      ensures
        && r.Ok? && !Drained(old(pages), right) && Ranged(old(Now())) && Tidy(old(Now()), old(meta.root), l)
        && LeftPart(old(Now()), l, i, start) != []
        ==> (Ranged(Now()) <==> CleanCut(pages, left, right))
      ensures
        && r.Ok? && Ranged(old(Now())) && Tidy(old(Now()), old(meta.root), l) && (l == 0 ==> LeavesHold(old(Now())))
        ==> Ranged(Now())
    {
      hide TreeOk, AllocOk, NoStrays, Ours, LsnsBelow, NoneOpen, InnerSorted, Sorted, Interrupted, SplitFinished, Flat,
           Tidy, Ranged, Sharp, HasLink, KeyedLink, LeavesHold, CleanCut, Parted;
      PairPages(Now(), meta.root, l, i);
      NextIsTwin(Now(), meta.root, l, i);
      if Tidy(Now(), meta.root, l) { PairKey(Now(), meta.root, l, i, start); }
      var lp, rp := At(pages, left), At(pages, right);
      if |rp.entries| == 0 && !NeverHadEntries(rp) {
        r := Abandon(left, right, start, l, i);
        return;
      }
      if |rp.entries| == 0 && start >= |lp.entries| {
        return Err(NothingToMove);
      }
      var sep := if |rp.entries| > 0 then rp.entries[0].key else lp.entries[start].key;
      ghost var v, root := Now(), meta.root;
      SeparatorFits(v, root, l, i, start, sep);
      if lp.flags.root {
        r := FinishRoot(left, right, start, sep, l, i);
      } else {
        r := FinishLink(left, right, start, sep, l, i);
      }
      if r.Ok? { FinishedKeyed(v, Now(), root, l, i, start, sep); }
    }

    /** One incomplete split: the copy slot redo saw, or else the median of the left page - computed even where no
        move is owed, so a scan-found page with fewer than two entries fails here. */
    method UndoOne(left: PageId, known: Option<nat>, ghost l: nat, ghost i: nat) returns (r: Result<(), UndoError>)
      requires Valid() && Interrupted(Now(), l, i) && levels[l][i] == left && (known.Some? ==> 1 <= known.value)
      modifies this
      ensures r.Ok? ==> Valid() && SplitFinished(old(Now()), Now(), l, i)
      ensures r.Ok? ==> Finishable(old(pages), left, known, old(meta.root))
      ensures r.Err? ==>
        || !Finishable(old(pages), left, known, old(meta.root)) || Excused(r.error, old(Now()), old(meta.root), l)
      ensures r.Ok? && Marooned(old(pages), left) ==> Claiming(pages, left, l)
      ensures r.Ok? ==> |old(levels)| <= |levels| <= |old(levels)| + 1
      ensures r.Ok? && Tidy(old(Now()), old(meta.root), l) ==> Tidy(Now(), meta.root, l)
      ensures r.Ok? && !Drained(old(pages), At(old(pages), left).next) ==>
        KeyedLink(pages, levels, l, At(old(pages), left).next)
      ensures
        && r.Ok? && Ranged(old(Now())) && Tidy(old(Now()), old(meta.root), l) && (l == 0 ==> LeavesHold(old(Now())))
        ==> Ranged(Now())
    {
      hide TreeOk, AllocOk, NoStrays, Ours, LsnsBelow, Interrupted, SplitFinished, Tidy, Ranged, KeyedLink, LeavesHold,
           CleanCut;
      PairPages(Now(), meta.root, l, i);
      NextIsTwin(Now(), meta.root, l, i);
      var start := known;
      if start.None? {
        var mid := ChooseSplitSlot(At(pages, left), None);
        if mid.Err? {
          return Err(TooFewEntries);
        }
        start := Some(mid.value);
      }
      r := FinishIncompleteSplit(left, At(pages, left).next, start.value, l, i);
    }

    /** The splits of one level, in page-id order. */
    method UndoLevel(level: nat, end: PageId, known: map<PageId, nat>) returns (r: Result<(), UndoError>)
      requires Valid() && level < |levels| && NoneOpen(pages, levels, level + 1) && AwaitingUpTo(Now(), level, end)
      requires forall p :: p in known ==> 1 <= known[p]
      modifies this
      ensures r.Ok? ==>
        && Valid() && UntouchedBelow(old(Now()), Now(), level) && NoneOpen(pages, levels, level)
        && |old(levels)| <= |levels|
      ensures r.Ok? ==> Flat(pages, levels[level]) == Flat(old(pages), old(levels)[level])
      ensures r.Ok? && level > 0 ==> AwaitingUpTo(Now(), level - 1, end)
      ensures r.Ok? ==> LevelUndoable(old(Now()), known, old(meta.root), level)
      ensures r.Err? ==>
        || !LevelUndoable(old(Now()), known, old(meta.root), level)
        || !Tidy(old(Now()), old(meta.root), level) || !Roomy(old(Now()), end)
      ensures r.Ok? ==> Claims(old(Now()), Now(), level, end)
      ensures r.Ok? && Tidy(old(Now()), old(meta.root), level) && Roomy(old(Now()), end) ==>
        Tidy(Now(), meta.root, level) && Roomy(Now(), end)
      ensures r.Ok? && Settled(old(Now()), old(meta.root), end, level) ==> Settled(Now(), meta.root, end, level)
    {
      hide TreeOk, AllocOk, NoStrays, Ours, LsnsBelow, SplitFinished, Flat, AwaitingUpTo, Tidy, Roomy, Finishable,
           Settled, Waiting, Claims, Rooted;
      ghost var v, root0 := Now(), meta.root;
      LevelStarts(v, root0, level);
      var pid := 1;
      while pid < end
        invariant 1 <= pid && Valid() && level < |levels| && UntouchedBelow(v, Now(), level)
        invariant NoneOpen(pages, levels, level + 1)
        invariant AwaitingUpTo(Now(), level, end) && Flat(pages, levels[level]) == Flat(v.pages, v.levels[level])
        invariant forall i :: 0 <= i < |levels[level]| && Open(pages, levels[level][i]) ==> pid <= levels[level][i]
        invariant Waiting(v, Now(), level, pid)
        invariant forall p :: p in v.levels[level] && Open(v.pages, p) && p < pid ==>
          Finishable(v.pages, p, Seen(known, p), root0)
        invariant Rooted(v, Now(), root0, meta.root, level) && Claims(v, Now(), level, pid)
        invariant Tidy(v, root0, level) && Roomy(v, end) ==> Tidy(Now(), meta.root, level) && Roomy(Now(), end)
        invariant Settled(v, root0, end, level) ==> Settled(Now(), meta.root, end, level)
        decreases end - pid
      {
        LevelNumbers(pages, levels, meta.root, level);
        if pid in v.levels[level] && Open(v.pages, pid) { MarkedStill(v, Now(), level, pid); }
        if Open(pages, pid) && At(pages, pid).level == level {
          ghost var i := OpenIndex(pages, levels, others, level, pid);
          r := UndoNext(pid, known, level, i, end, v, root0);
          if r.Err? {
            return;
          }
        }
        ClaimsNext(v, Now(), level, pid);
        WaitingNext(v, Now(), level, pid);
        pid := pid + 1;
      }
      ClaimsUpTo(v, Now(), level, pid, end);
      AllClosed(Now(), level, end);
      if level > 0 { AwaitingLower(Now(), level, end); }
      AllSeen(v, root0, level, end, known);
      r := Ok(());
    }

    /** The next marked page of the level. Undo could be cut off here and started again with the same result. */
    method UndoNext(pid: PageId, known: map<PageId, nat>, ghost level: nat, ghost i: nat, ghost end: PageId,
                    ghost v: View, ghost root0: PageId)
      returns (r: Result<(), UndoError>)
      requires Valid() && level < |levels| && UntouchedBelow(v, Now(), level) && NoneOpen(pages, levels, level + 1)
      requires AwaitingUpTo(Now(), level, end) && Waiting(v, Now(), level, pid) && i < |levels[level]|
      requires levels[level][i] == pid && Open(pages, pid)
      requires forall c :: 0 <= c < |levels[level]| && Open(pages, levels[level][c]) ==> pid <= levels[level][c]
      requires forall p :: p in known ==> 1 <= known[p]
      requires Tidy(v, root0, level) && Roomy(v, end) ==> Tidy(Now(), meta.root, level) && Roomy(Now(), end)
      requires TreeOk(v.pages, v.levels, root0) && AwaitingUpTo(v, level, end) && level < |v.levels|
      requires Rooted(v, Now(), root0, meta.root, level) && Claims(v, Now(), level, pid)
      modifies this
      ensures r.Ok? ==>
        && Valid() && level < |levels| && UntouchedBelow(v, Now(), level) && NoneOpen(pages, levels, level + 1)
        && AwaitingUpTo(Now(), level, end) && Flat(pages, levels[level]) == Flat(old(pages), old(levels)[level])
        && Waiting(v, Now(), level, pid + 1)
        && (forall c :: 0 <= c < |levels[level]| && Open(pages, levels[level][c]) ==> pid + 1 <= levels[level][c])
        && (Tidy(v, root0, level) && Roomy(v, end) ==> Tidy(Now(), meta.root, level) && Roomy(Now(), end))
      ensures r.Ok? ==> Rooted(v, Now(), root0, meta.root, level) && Claims(v, Now(), level, pid + 1)
      ensures r.Ok? ==> AwaitingUpTo(Now(), |levels| - 1, end)
      ensures r.Ok? && Undoable(old(Now()), known, old(meta.root), 0) ==> Undoable(Now(), known, meta.root, 0)
      ensures r.Ok? ==> Finishable(v.pages, pid, Seen(known, pid), root0)
      ensures r.Ok? && Settled(old(Now()), old(meta.root), end, level) ==> Settled(Now(), meta.root, end, level)
      ensures r.Err? ==> !LevelUndoable(v, known, root0, level) || !Tidy(v, root0, level) || !Roomy(v, end)
    {
      hide TreeOk, AllocOk, NoStrays, Ours, LsnsBelow, SplitFinished, Flat, AwaitingUpTo, Tidy, Roomy, Finishable,
           Claims, Rooted, Waiting, Ranged, LeavesHold, KeyedLink;
      ghost var w, root := Now(), meta.root;
      AwaitingTwin(w, level, end, i);
      assert Interrupted(w, level, i);
      assert pid in levels[level];
      SameQuestion(v, w, root0, root, level, pid, known);
      hide Interrupted, NoneOpen, UntouchedBelow, LevelUndoable, Undoable;
      r := UndoOne(pid, Seen(known, pid), level, i);
      if r.Err? {
        if Tidy(w, root, level) && Roomy(w, end) {
          RoomToFinish(w, level, i, end);
          NoExcuse(r.error, w, root, level);
        }
        return;
      }
      LeavesHoldOn(w, Now(), root, level, i);
      OneFewer(v, w, Now(), root, level, i, end);
      WaitingStep(v, w, Now(), root, level, i, end);
      RootedStep(v, w, Now(), root0, root, meta.root, level, i, end);
      ClaimsStep(v, w, Now(), root0, root, level, i, end);
      RestartsAfter(w, Now(), root, meta.root, level, i, end, known);
      if Roomy(w, end) { RoomyStep(w, Now(), root, others, level, i, end); }
    }

    /** `BTreeUndoHandler::undo`: levels nearer the root first. It finishes every marked split unless one of them
        cannot be cut or claims to be a root the meta page no longer names and has something to link; a failure for
        any other reason needs separators out of order or a tree at its full height. A claim with nothing to link
        stays: the page is unmarked and keeps its flag. */
    method Undo(known: map<PageId, nat>) returns (r: Result<(), UndoError>)
      requires Valid() && AwaitingUpTo(Now(), |levels| - 1, fileEnd) && forall p :: p in known ==> 1 <= known[p]
      modifies this
      ensures r.Ok? ==> Valid() && NoneOpen(pages, levels, 0) && |levels| > 0
      ensures r.Ok? ==> Flat(pages, levels[0]) == Flat(old(pages), old(levels)[0])
      ensures r.Ok? ==> Undoable(old(Now()), known, old(meta.root), 0)
      ensures Orderly(old(Now()), old(meta.root), old(fileEnd)) ==>
        (r.Ok? <==> Undoable(old(Now()), known, old(meta.root), 0))
      ensures r.Ok? && Orderly(old(Now()), old(meta.root), old(fileEnd)) ==> Tidy(Now(), meta.root, 0)
      ensures
        && r.Ok? && Orderly(old(Now()), old(meta.root), old(fileEnd)) && Ranged(old(Now())) && LeavesHold(old(Now()))
        ==> Ranged(Now()) && LeavesHold(Now())
      ensures r.Ok? && |old(levels)| > 1 ==>
        forall p :: p in old(levels)[0] && Open(old(pages), p) && At(old(pages), p).flags.root ==>
          Claiming(pages, p, 0) && p != meta.root
    {
      hide TreeOk, AllocOk, NoStrays, Ours, LsnsBelow, Flat, AwaitingUpTo, Tidy, Roomy, Orderly, LevelUndoable,
           Undoable, UntouchedBelow, NoneOpen, Claims, Claiming, Ranged, LeavesHold;
      ghost var v, root0 := Now(), meta.root;
      UndoStarts(v, root0, known);
      var level, end := At(pages, meta.root).level, fileEnd;
      while true
        invariant 0 <= level < |v.levels| <= |levels| && Valid() && NoneOpen(pages, levels, level + 1)
        invariant AwaitingUpTo(Now(), level, end) && (level + 1 == |v.levels| ==> meta.root == root0)
        invariant Flat(pages, levels[0]) == Flat(v.pages, v.levels[0]) && UntouchedBelow(v, Now(), level + 1)
        invariant Undoable(v, known, root0, level + 1)
        invariant Orderly(v, root0, end) ==> Orderly(Now(), meta.root, end)
        invariant Orderly(v, root0, end) && Ranged(v) && LeavesHold(v) ==> Ranged(Now()) && LeavesHold(Now())
        decreases level
      {
        ghost var w, root := Now(), meta.root;
        OrderlyFrom(w, root, end, level);
        r := UndoLevel(level, end, known);
        if r.Err? {
          LevelFailed(v, w, root0, root, level, end, known);
          return;
        }
        LevelDone(v, w, Now(), root0, root, meta.root, level, end, known);
        if level == 0 {
          OrderlyFrom(Now(), meta.root, end, 0);
          if |v.levels| > 1 { ClaimsStay(v, w, Now(), root0, meta.root, end, known); }
          return;
        }
        level := level - 1;
      }
    }
  }
}
