/** A sequential insert into the tree: optimistic placement, the three-step split when the leaf is full, and the
    Commit that may cascade through any number of parent splits up to a new root. */
module TreeInsert {
  import opened Entries
  import opened Layout
  import opened BtPages
  import opened BtLog
  import opened Chains
  import opened SplitPoint
  import opened TreeShape
  import opened TreeOrder
  import opened PageAlloc
  import opened Lookup
  import opened Placement
  import opened Fences
  import opened Descent

  datatype IndexError = TooLarge | Duplicate | NotFound | NoRoom | Unsplittable | Unsupported | Damaged

  // ---------------------------------------------------------------- what a split and a Commit leave

  /** A page cut in two at slot `k`, its Commit outstanding. */
  ghost predicate Halved(was: Page, left: PageId, right: PageId, k: nat, pgL: Page, pgR: Page) {
    && was.Page? && 1 <= k < |was.entries|
    && SameContent(pgL, was.(flags := was.flags.(incomplete := true), next := right, entries := was.entries[..k],
                             upper := SPECIAL - Bytes(was.level, was.entries[..k])))
    && SameContent(pgR, Page(was.level, FlagsForLevel(was.level), left, was.next, was.entries[k..],
                             SPECIAL - Bytes(was.level, was.entries[k..]), 0))
  }

  /** Page `i` of level `l` cut in two at slot `k`, `right` spliced in behind it, nothing else touched. */
  ghost predicate SplitStep(s: Pages, levels: Levels, s': Pages, levels': Levels, l: nat, i: nat, right: PageId,
                            k: nat) {
    && l < |levels| && i < |levels[l]| && Unused(levels, right)
    && levels' == levels[l := Spliced(levels[l], i, right)]
    && Halved(At(s, levels[l][i]), levels[l][i], right, k, At(s', levels[l][i]), At(s', right))
    && s' == s[right := At(s', right)][levels[l][i] := At(s', levels[l][i])]
  }

  /** Everything but the flags and the LSN. */
  predicate SameBody(a: Page, b: Page) {
    a.Page? && b.Page? && a.(flags := b.flags, lsn := b.lsn) == b
  }

  predicate Crowded(pages: Pages, p: PageId, e: Entry) {
    At(pages, p).Page? && FreeSpace(At(pages, p)) < Cost(0, e)
  }

  /** Too full for the entry, with too few entries to split. */
  predicate Wedged(pages: Pages, p: PageId, e: Entry) {
    Crowded(pages, p, e) && |EntriesOf(pages, p)| < 2
  }

  /** Every leaf has room for the entry. */
  ghost predicate AllRoom(pages: Pages, chain: seq<PageId>, e: Entry) {
    forall i :: 0 <= i < |chain| ==> !Crowded(pages, chain[i], e)
  }

  ghost predicate AnyWedged(pages: Pages, chain: seq<PageId>, e: Entry) {
    exists i :: 0 <= i < |chain| && Wedged(pages, chain[i], e)
  }

  /** No bytes of deleted entries on any leaf. */
  ghost predicate Compact(pages: Pages, chain: seq<PageId>) {
    forall i :: 0 <= i < |chain| ==> CompactPage(At(pages, chain[i]))
  }

  predicate CompactPage(pg: Page) {
    pg.Page? ==> pg.upper + Bytes(pg.level, pg.entries) == SPECIAL
  }

  /** A step on the leaves that makes no hint and no room worse. */
  ghost predicate LeavesKept(s: Pages, chain: seq<PageId>, s': Pages, chain': seq<PageId>) {
    && |chain| <= |chain'| && (Compact(s, chain) ==> Compact(s', chain'))
    && (HintsReach(s, chain) ==> HintsReach(s', chain')) && (HintsSeen(s, chain) ==> HintsSeen(s', chain'))
    && forall e: Entry :: |e.key| <= MAX_INDEX_KEY_BYTES && AnyWedged(s', chain', e) ==> AnyWedged(s, chain, e)
  }

  /** The pair is the last entry of a leaf that others follow. */
  ghost predicate IsTail(pages: Pages, chain: seq<PageId>, e: Entry) {
    exists x :: 0 <= x && x + 1 < |chain| && EntriesOf(pages, chain[x]) != [] && LastOf(EntriesOf(pages, chain[x])) == e
  }

  ghost predicate TailKept(s: Pages, chain: seq<PageId>, s': Pages, chain': seq<PageId>, e: Entry) {
    IsTail(s', chain', e) ==> IsTail(s, chain, e)
  }

  /** A pass to be repeated: the same entries, no hint and no room worse. */
  ghost predicate Retry(s: Pages, chain: seq<PageId>, s': Pages, chain': seq<PageId>, e: Entry) {
    && Flat(s', chain') == Flat(s, chain) && LeavesKept(s, chain, s', chain') && TailKept(s, chain, s', chain', e)
  }

  /** What an error leaves: the same entries, or those and the new one. */
  ghost predicate AtMostOnce(s: Pages, chain: seq<PageId>, s': Pages, chain': seq<PageId>, e: Entry) {
    Flat(s', chain') == Flat(s, chain) || Inserted(Flat(s, chain), Flat(s', chain'), e)
  }

  /** What passes of an insert leave, by their result. */
  ghost predicate Outcome(s: Pages, levels: Levels, root: PageId, s': Pages, levels': Levels, root': PageId, e: Entry,
                          r: Result<bool, IndexError>) {
    && |levels| > 0 && |levels'| > 0 && |levels[0]| <= |levels'[0]|
    && var chain, chain' := levels[0], levels'[0];
       && (r == Ok(true) ==> NoneOpen(s', levels', 0) && Inserted(Flat(s, chain), Flat(s', chain'), e))
       && (r == Ok(true) && HintsReach(s, chain) && e !in Flat(s, chain) ==> ChainOk(s', chain'))
       && (r == Ok(true) && HintsReach(s, chain) && e in Flat(s, chain) ==> IsTail(s, chain, e))
       && (r == Ok(true) && HintsSeen(s, chain) ==> HintsSeen(s', chain'))
       && (r == Ok(true) && Compact(s, chain) ==> Compact(s', chain'))
       && (Neat(s, levels, root) && e.key != [] ==> Neat(s', levels', root') && r != Err(NoRoom))
       && (r.Err? ==> AtMostOnce(s, chain, s', chain', e))
       && (r == Err(Duplicate) ==> e in Flat(s, chain))
       && (r == Err(Unsplittable) ==> AnyWedged(s, chain, e))
  }

  /** From level `l` up, `left` is the only page whose split lacks its Commit. */
  ghost predicate OnlyOpen(pages: Pages, levels: Levels, l: nat, left: PageId) {
    forall m, i :: l <= m < |levels| && 0 <= i < |levels[m]| && Open(pages, levels[m][i]) ==> levels[m][i] == left
  }

  /** The levels below `l` are untouched, level `l` keeps its chain and its pages' bodies. */
  ghost predicate UntouchedUpTo(pages: Pages, levels: Levels, pages': Pages, levels': Levels, l: nat) {
    && l < |levels| <= |levels'|
    && (forall m :: 0 <= m <= l ==> levels'[m] == levels[m])
    && (forall m :: 0 <= m < l ==> SamePages(pages, pages', levels[m]))
    && (forall i :: 0 <= i < |levels[l]| ==> SameBody(At(pages', levels[l][i]), At(pages, levels[l][i])))
  }

  // ---------------------------------------------------------------- the records of a split

  /** Initializing the right page and Prepare, as two records. */
  lemma PrepareWrites(s: Pages, left: PageId, right: PageId, lsn: nat, level: nat, highKey: seq<byte>)
    requires left != right && At(s, left).Page? && !At(s, left).flags.incomplete && At(s, left).level == level
    requires lsn > 0
    requires |At(s, left).entries| >= 2 && highKey == At(s, left).entries[|At(s, left).entries| - 1].key
    ensures var init := Image(right, InitRightPage(left, At(s, left).next, level));
      var prep := Prepare(left, right, level, At(s, left).next, highKey);
      && Allowed(init, lsn, s) && Allowed(prep, lsn + 1, Do(init, lsn, s))
      && var s' := Do(prep, lsn + 1, Do(init, lsn, s));
         Prepared(At(s, left), left, right, At(s', left), At(s', right)) &&
           s' == s[right := At(s', right)][left := At(s', left)]
  {
  }

  lemma CopyWrites(s: Pages, left: PageId, right: PageId, lsn: nat, l: nat, root: PageId, k: nat)
    requires left != right && PageOk(At(s, left), left, l, root) && 1 <= k <= |At(s, left).entries|
    requires At(s, right).Page? && At(s, right).level == l && At(s, right).entries == []
    requires At(s, right).upper == SPECIAL
    ensures var copy := Copy(left, right, k, PdLsn(At(s, left)));
      && Allowed(copy, lsn, s)
      && var s' := Do(copy, lsn, s);
         Copied(At(s, left), At(s, right), k, At(s', left), At(s', right)) &&
           s' == s[left := At(s', left)][right := At(s', right)]
  {
    CopySucceeds(At(s, left), left, At(s, right), l, root, k, lsn);
  }

  lemma CommitWrites(s: Pages, left: PageId, right: PageId, parent: PageId, sep: seq<byte>, slot: nat, lsn: nat)
    requires left != parent && At(s, left).Page? && At(s, left).flags.incomplete && At(s, left).next == right
    requires At(s, parent).Page?
    requires |sep| <= MAX_INDEX_KEY_BYTES && InsertEntryAt(At(s, parent), slot, Entry(sep, right, 0)).Ok?
    ensures var commit := Commit(left, right, parent, sep, slot);
      && Allowed(commit, lsn, s)
      && var s' := Do(commit, lsn, s);
         Committed(At(s, left), At(s, parent), slot, sep, right, At(s', left), At(s', parent)) &&
           s' == s[parent := At(s', parent)][left := At(s', left)]
  {
  }

  /** Prepare then Copy cut the page in two. */
  lemma PrepareThenCopy(was: Page, left: PageId, right: PageId, k: nat, a: Page, b: Page, pgL: Page, pgR: Page)
    requires 1 <= k && Prepared(was, left, right, a, b) && k < |was.entries| && Copied(a, b, k, pgL, pgR)
    ensures Halved(was, left, right, k, pgL, pgR)
  {
  }

  /** The entry sequence of a split level is what it was. */
  lemma SplitKeepsFlat(s: Pages, chain: seq<PageId>, i: nat, right: PageId, k: nat, a: Page, b: Page, pgL: Page,
                       pgR: Page)
    requires NoDup(chain) && i < |chain| && right !in chain
    requires Prepared(At(s, chain[i]), chain[i], right, a, b) && Copied(a, b, k, pgL, pgR)
    ensures Flat(s[right := b][chain[i] := a][chain[i] := pgL][right := pgR], Spliced(chain, i, right))
      == Flat(s, chain)
  {
    SplicedFlat(s, chain, i, right, a, b);
    SplicedNoDup(chain, i, right);
    SplicedAt(chain, i, right, i);
    SplicedAt(chain, i, right, i + 1);
    CopyFlat(s[right := b][chain[i] := a], Spliced(chain, i, right), i, k, pgL, pgR);
  }

  class BTreeIndex {
    var pages: Pages
    var root: PageId
    var wal: seq<Record>
    var freelist: seq<PageId>
    var fileEnd: PageId
    ghost var levels: Levels

    ghost predicate Valid()
      reads this
    {
      && |levels| > 0 && TreeOk(pages, levels, root) && AllocOk(levels, freelist, fileEnd) && Filled(pages, levels)
    }

    /** The log is a run of the index that ends in these very pages. */
    ghost predicate Logged()
      reads this
    {
      Run(wal, |wal|) == Some(pages)
    }

    /** `create`: an empty root leaf; page 1 is the meta page, whose root field is `root` here. */
    constructor Create()
      ensures Quiescent() && Logged() && levels == [[root]] && Flat(pages, levels[0]) == []
      ensures HintsSeen(pages, levels[0]) && Neat(pages, levels, root) && Fenced(pages, levels)
    {
      hide TreeOk, ChainOk, Neat, NoneOpen, AllocOk, HintsSeen, Flat, Fenced;
      var page := InitPage(0, Flags(true, true, false));
      pages, wal := map[2 := Stamp(page, 1)], [Image(2, page)];
      root, levels, freelist, fileEnd := 2, [[2]], [], 3;
      LoneTree(map[2 := Stamp(page, 1)], 2);
      EmptyNeatRoot(map[2 := Stamp(page, 1)], 2);
      LoneLeafFenced(map[2 := Stamp(page, 1)], 2);
      RunAppend([], Image(2, page), map[]);
      assert [] + [Image(2, page)] == [Image(2, page)];
    }

    method Write(rec: Record)
      requires Allowed(rec, LsnOf(|wal|), pages)
      modifies `pages, `wal
      ensures wal == old(wal) + [rec] && pages == Do(rec, LsnOf(|old(wal)|), old(pages))
      ensures old(Logged()) ==> Logged()
    {
      if Run(wal, |wal|) == Some(pages) { RunAppend(wal, rec, pages); }
      pages := Do(rec, LsnOf(|wal|), pages);
      wal := wal + [rec];
    }

    /** The allocator, assumed not to run out. */
    method NewPage() returns (id: PageId)
      requires Valid()
      modifies `freelist, `fileEnd
      ensures Valid() && Reserved(levels, freelist, fileEnd, id)
      ensures id == if |old(freelist)| > 0 then old(freelist)[0] else old(fileEnd)
    {
      if |freelist| > 0 {
        id := freelist[0];
        freelist := freelist[1..];
      } else {
        id := fileEnd;
        fileEnd := fileEnd + 1;
      }
    }

    /** `split_prepare_on_guards`. */
    method SplitPrepare(left: PageId, right: PageId, pending: Option<Entry>, ghost l: nat, ghost i: nat)
      returns (r: Result<nat, IndexError>)
      requires Valid() && Reserved(levels, freelist, fileEnd, right) && l < |levels| && i < |levels[l]|
      requires levels[l][i] == left
      requires pending.Some? ==> |pending.value.key| <= MAX_INDEX_KEY_BYTES
      modifies `pages, `wal, `levels
      ensures Valid() && (old(Logged()) ==> Logged())
      ensures r.Err? <==> Open(old(pages), left) || |EntriesOf(old(pages), left)| < 2
      ensures r.Err? ==> r.error in {Unsupported, Unsplittable} && pages == old(pages) && levels == old(levels)
      ensures r == Err(Unsplittable) <==> !Open(old(pages), left) && |EntriesOf(old(pages), left)| < 2
      ensures Neat(old(pages), old(levels), root) ==> Neat(pages, levels, root)
      ensures r.Ok? ==>
        forall lo :: FencedBy(old(pages), old(levels), lo) ==> FencedBy(pages, levels, lo - {right})
      ensures r.Ok? && pending.None? ==> r.value == |EntriesOf(old(pages), left)| / 2
      ensures r.Ok? ==>
        && levels == old(levels)[l := Spliced(old(levels)[l], i, right)]
        && Prepared(At(old(pages), left), left, right, At(pages, left), At(pages, right))
        && pages == old(pages)[right := At(pages, right)][left := At(pages, left)]
        && 1 <= r.value < |At(old(pages), left).entries|
        && SplitAround(At(old(pages), left), pending, r.value)
    {
      hide TreeOk, AllocOk, Neat, Filled, FencedBy;
      ghost var s := pages;
      ghost var x := OnLevel(pages, levels, root, l, left);
      assert PageOk(At(pages, left), left, l, root) by { PageAt(pages, levels, root, l, i); }
      var pg := At(pages, left);
      if pg.flags.incomplete {
        return Err(Unsupported);
      }
      if |pg.entries| < 2 {
        return Err(Unsplittable);
      }
      if pending.Some? { AlwaysSplittable(pg, left, l, root, pending.value); }
      var slot := ChooseSplitSlot(pg, pending);
      var high := pg.entries[|pg.entries| - 1].key;
      assert left != right by { assert left in levels[l]; }
      PrepareWrites(pages, left, right, LsnOf(|wal|), pg.level, high);
      Write(Image(right, InitRightPage(left, pg.next, pg.level)));
      Write(Prepare(left, right, pg.level, pg.next, high));
      PrepareKeeps(s, levels, root, l, i, right, At(pages, left), At(pages, right));
      PrepareFilled(s, levels, root, l, i, right, At(pages, left), At(pages, right));
      PrepareFences(s, levels, root, l, i, right, At(pages, left), At(pages, right));
      if Neat(s, levels, root) { PrepareNeat(s, levels, root, l, i, right, At(pages, left), At(pages, right)); }
      SplicedUsed(levels, freelist, fileEnd, l, i, right);
      levels := levels[l := Spliced(levels[l], i, right)];
      r := Ok(slot.value);
    }

    /** `split_copy_on_guards`. */
    method SplitCopyOut(left: PageId, right: PageId, k: nat, ghost l: nat, ghost i: nat)
      requires Valid() && l < |levels| && i + 1 < |levels[l]| && levels[l][i] == left && levels[l][i + 1] == right
      requires At(pages, right).Page? && At(pages, right).entries == [] && At(pages, right).upper == SPECIAL
      requires 1 <= k <= |EntriesOf(pages, left)|
      modifies `pages, `wal
      ensures Valid() && (old(Logged()) ==> Logged())
      ensures Copied(At(old(pages), left), At(old(pages), right), k, At(pages, left), At(pages, right))
      ensures pages == old(pages)[left := At(pages, left)][right := At(pages, right)]
      ensures Neat(old(pages), levels, root) ==> Neat(pages, levels, root)
      ensures Open(old(pages), left) ==> forall lo :: FencedBy(old(pages), levels, lo) ==> FencedBy(pages, levels, lo)
    {
      hide TreeOk, AllocOk, Neat, Filled, FencedBy;
      ghost var s := pages;
      PageAt(pages, levels, root, l, i);
      PageAt(pages, levels, root, l, i + 1);
      assert left != right by { NeighboursDiffer(pages, levels, root, l, i); }
      CopyWrites(pages, left, right, LsnOf(|wal|), l, root, k);
      Write(Copy(left, right, k, PdLsn(At(pages, left))));
      CopyKeeps(s, levels, root, l, i, k, At(pages, left), At(pages, right));
      CopyFilled(s, levels, root, l, i, k, At(pages, left), At(pages, right));
      if Open(s, left) { CopyFences(s, levels, root, l, i, k, At(pages, left), At(pages, right)); }
      if Neat(s, levels, root) { CopyNeat(s, levels, root, l, i, k, At(pages, left), At(pages, right)); }
    }

    /** Prepare and Copy back to back. */
    method SplitPage(left: PageId, right: PageId, pending: Option<Entry>, ghost l: nat, ghost i: nat)
      returns (r: Result<nat, IndexError>)
      requires Valid() && Reserved(levels, freelist, fileEnd, right) && l < |levels| && i < |levels[l]|
      requires levels[l][i] == left
      requires pending.Some? ==> |pending.value.key| <= MAX_INDEX_KEY_BYTES
      modifies `pages, `wal, `levels
      ensures Valid() && (old(Logged()) ==> Logged())
      ensures r.Err? <==> Open(old(pages), left) || |EntriesOf(old(pages), left)| < 2
      ensures r.Err? ==> r.error in {Unsupported, Unsplittable} && pages == old(pages) && levels == old(levels)
      ensures r == Err(Unsplittable) <==> !Open(old(pages), left) && |EntriesOf(old(pages), left)| < 2
      ensures Neat(old(pages), old(levels), root) ==> Neat(pages, levels, root)
      ensures r.Ok? ==>
        && SplitStep(old(pages), old(levels), pages, levels, l, i, right, r.value)
        && SplitAround(At(old(pages), left), pending, r.value)
        && Flat(pages, levels[l]) == Flat(old(pages), old(levels)[l])
      ensures r.Ok? ==>
        forall lo :: FencedBy(old(pages), old(levels), lo) ==> FencedBy(pages, levels, lo - {right})
      ensures r.Ok? && pending.None? ==> r.value == |EntriesOf(old(pages), left)| / 2
    {
      hide TreeOk, AllocOk, Flat, Neat, Filled, FencedBy;
      ghost var s, chain := pages, levels[l];
      NeighboursApart(pages, levels, root, l);
      r := SplitPrepare(left, right, pending, l, i);
      if r.Ok? {
        ghost var a, b := At(pages, left), At(pages, right);
        SplicedAt(chain, i, right, i);
        SplicedAt(chain, i, right, i + 1);
        SplitCopyOut(left, right, r.value, l, i);
        PrepareThenCopy(At(s, left), left, right, r.value, a, b, At(pages, left), At(pages, right));
        SplitKeepsFlat(s, chain, i, right, r.value, a, b, At(pages, left), At(pages, right));
      }
    }

    /** The Commit record and its two page writes; the append precedes the room check of the page insert. */
    method CommitInto(left: PageId, right: PageId, parent: PageId, sep: seq<byte>, slot: nat, ghost l: nat,
                      ghost i: nat, ghost j: nat, ghost lo: Lows)
      returns (r: Result<(), IndexError>)
      requires Valid() && l + 1 < |levels| && i < |levels[l]| && levels[l][i] == left && j < |levels[l + 1]|
      requires levels[l + 1][j] == parent && (l > 0 ==> EntriesOf(pages, right) != [])
      requires Open(pages, left) && At(pages, left).next == right && |sep| <= MAX_INDEX_KEY_BYTES
      requires At(pages, parent).Page? && slot <= |At(pages, parent).entries|
      modifies `pages, `wal
      ensures Valid()
      ensures r.Ok? <==> Cost(l + 1, Entry(sep, right, 0)) <= FreeSpace(At(old(pages), parent))
      ensures r.Ok? && old(Logged()) ==> Logged()
      ensures r.Ok? ==>
        && Committed(At(old(pages), left), At(old(pages), parent), slot, sep, right, At(pages, left), At(pages, parent))
        && pages == old(pages)[parent := At(pages, parent)][left := At(pages, left)]
      ensures r.Err? ==> r.error == NoRoom && pages == old(pages)
      ensures
        && Neat(old(pages), levels, root) && sep != []
        && IsLowerBound(EntriesOf(old(pages), parent), Entry(sep, right, 0), slot)
        ==> Neat(pages, levels, root)
      ensures r.Ok? ==> HasLink(pages, levels, l, Entry(sep, right, 0))
      ensures
        && r.Ok? && FencedBy(old(pages), levels, lo) && CommitInRange(old(pages), levels, lo, l, i, j, slot)
        && StartsWith(EntriesOf(old(pages), right), sep)
        ==> FencedBy(pages, levels, lo[right := sep])
    {
      hide TreeOk, AllocOk, Neat, Filled, FencedBy, CommitInRange;
      ghost var s := pages;
      PageAt(pages, levels, root, l, i);
      PageAt(pages, levels, root, l + 1, j);
      RoomSuffices(At(pages, parent), parent, l + 1, root, slot, Entry(sep, right, 0));
      if InsertEntryAt(At(pages, parent), slot, Entry(sep, right, 0)).Err? {
        wal := wal + [Commit(left, right, parent, sep, slot)];
        return Err(NoRoom);
      }
      CommitWrites(pages, left, right, parent, sep, slot, LsnOf(|wal|));
      Write(Commit(left, right, parent, sep, slot));
      CommitKeeps(s, levels, root, l, i, j, slot, sep, right, At(pages, left), At(pages, parent));
      CommitRanges(s, levels, root, lo, l, i, j, slot, sep, right, pages);
      if Neat(s, levels, root) && sep != [] && IsLowerBound(EntriesOf(s, parent), Entry(sep, right, 0), slot) {
        CommitNeat(s, levels, root, l, i, j, slot, sep, right, At(pages, left), At(pages, parent));
      }
      r := Ok(());
    }

    /** `create_new_root`: a fresh page above the old root, naming only it. */
    method CreateNewRoot(level: nat) returns (r: Result<PageId, IndexError>)
      requires Valid() && Open(pages, root) && level + 1 == |levels|
      modifies this
      ensures Valid() && (old(Logged()) ==> Logged())
      ensures r.Err? <==> MAX_LEVEL <= level
      ensures r.Err? ==> r.error == Damaged && pages == old(pages) && levels == old(levels) && root == old(root)
      ensures r.Ok? ==>
        && root == r.value && Unused(old(levels), root) && levels == old(levels) + [[root]]
        && pages == old(pages)[root := NewRootPage(level + 1, old(root), |wal|)]
      ensures Neat(old(pages), old(levels), old(root)) ==> Neat(pages, levels, root)
      ensures r.Ok? ==>
        forall lo :: FencedBy(old(pages), old(levels), lo) ==> FencedBy(pages, levels, lo[root := []])
    {
      hide TreeOk, AllocOk, Neat, Filled, FencedBy;
      if level >= MAX_LEVEL {
        return Err(Damaged);
      }
      ghost var s := pages;
      var id := NewPage();
      var e := Entry([], root, 0);
      NewRootWrites(pages, id, root, level + 1, LsnOf(|wal|));
      Write(Image(id, InitPage(level + 1, Flags(false, true, false))));
      Write(Insert(id, 0, level + 1, Flags(false, true, false), e));
      NewRootKeeps(s, levels, root, id, |wal|);
      PromoteFilled(s, levels, id, root, |wal|);
      PromoteFences(s, levels, root, id, |wal|);
      if Neat(s, levels, root) { PromoteNeat(s, levels, root, id, |wal|); }
      RootUsed(levels, freelist, fileEnd, id);
      root, levels := id, levels + [[id]];
      r := Ok(id);
    }

    /** `split_commit_guarded`: the downlink goes into the parent on the path; a parent without room is split first,
        its own Commit running up the rest of the path; an exhausted path promotes the root. A path that does not lead
        to the page is refused with nothing written; on one that does, with separators in order, only the level limit
        stops it. `lo` bounds the pages before, `lo'` after. */
    method SplitCommit(left: PageId, right: PageId, sep: seq<byte>, stack: seq<PageId>, ghost l: nat, ghost i: nat,
                       ghost lo: Lows)
      returns (r: Result<(), IndexError>, ghost lo': Lows)
      requires Valid() && PathAbove(stack, levels, l) && i < |levels[l]| && levels[l][i] == left
      requires Open(pages, left) && At(pages, left).next == right && |sep| <= MAX_INDEX_KEY_BYTES
      requires OnlyOpen(pages, levels, l, left) && (l > 0 ==> EntriesOf(pages, right) != [])
      modifies this
      ensures Valid() && UntouchedUpTo(old(pages), old(levels), pages, levels, l)
      ensures r.Ok? ==> NoneOpen(pages, levels, l) && (old(Logged()) ==> Logged())
      ensures r.Ok? ==> HasLink(pages, levels, l, Entry(sep, right, 0)) && |levels| <= |old(levels)| + 1
      ensures r == Err(NoRoom) ==> !InnerSorted(old(pages), old(levels), l)
      ensures r == Err(Damaged) ==> |old(levels)| > MAX_LEVEL
      ensures r.Err? ==> r.error in {NoRoom, Unsupported, Damaged}
      ensures !LinkedFrom(old(pages), stack, old(root), left) ==>
        r == Err(Unsupported) && pages == old(pages) && levels == old(levels) && root == old(root)
      ensures Committable(old(pages), old(levels), old(root), l, stack, left) ==> r.Ok? || r == Err(Damaged)
      ensures |stack| == 0 && left == old(root) && l < MAX_LEVEL ==> r.Ok?
      ensures |stack| == 0 && r.Ok? ==>
        levels == old(levels) + [[root]] && EntriesOf(pages, root) == [Entry([], left, 0), Entry(sep, right, 0)]
      ensures Neat(old(pages), old(levels), old(root)) && sep != [] ==> Neat(pages, levels, root)
      ensures r.Ok? && Ripe(old(pages), old(levels), old(root), lo, l, i, sep) ==>
        && FencedBy(pages, levels, lo') && Extends(lo, lo', old(levels), right)
        && right in lo' && lo'[right] == sep
      ensures
        && r.Ok? && Neat(old(pages), old(levels), old(root)) && FencedBy(old(pages), old(levels), lo)
        && Halfway(old(pages), old(levels)[l], i) && StartsWith(EntriesOf(old(pages), right), sep)
        ==> (Fenced(pages, levels) <==> CleanCut(old(pages), left, right))
      decreases |stack|, 0
    {
      hide TreeOk, AllocOk, Neat, Sorted, Filled, FencedBy, Ripe, HasLink, StackLinked, Extends, Halfway, CleanCut,
           Fenced, UntouchedUpTo, NoneOpen, CommitInRange, IsLowerBound, StartsWith, Committed;
      lo' := lo;
      ghost var s0, lv0 := pages, levels;
      TwinNext(pages, levels, root, l, i);
      CleanIsRipe(pages, levels, root, lo, l, i, sep);
      if Neat(pages, levels, root) { NeatInner(pages, levels, root, l); }
      PageAt(pages, levels, root, l, i);
      UntouchedAtAll(pages, levels, root, l);
      if |stack| == 0 {
        if root != left {
          return Err(Unsupported), lo';
        }
        r, lo' := CommitToNewRoot(left, right, sep, l, i, lo);
        if r.Ok? { FencesTell(s0, lv0, pages, levels, l, i, sep, lo'); }
        return;
      }
      var parent, rest := stack[|stack| - 1], stack[..|stack| - 1];
      var e := Entry(sep, right, 0);
      ghost var j := OnLevel(pages, levels, root, l + 1, parent);
      PageAt(pages, levels, root, l + 1, j);
      var linked := PointsAt(At(pages, parent).entries, left);
      if !linked {
        return Err(Unsupported), lo';
      }
      if Cost(At(pages, parent).level, e) <= FreeSpace(At(pages, parent)) {
        ghost var s := pages;
        var slot := LowerBound(At(pages, parent).entries, e);
        if Ripe(pages, levels, root, lo, l, i, sep) {
          RipeParts(pages, levels, root, lo, l, i, sep);
          DirectReady(pages, levels, root, lo, l, i, j, slot, sep);
        }
        r := CommitInto(left, right, parent, sep, slot, l, i, j, lo);
        CommitCloses(s, levels, root, l, i, j, slot, sep, right, pages);
        lo' := lo[right := sep];
        OneMore(lo, levels, right, sep);
        if r.Ok? { FencesTell(s0, lv0, pages, levels, l, i, sep, lo'); }
        return;
      }
      StackTop(pages, stack, root);
      r, lo' := CommitThroughSplit(left, right, sep, rest, parent, l, i, j, lo);
      if r.Ok? { FencesTell(s0, lv0, pages, levels, l, i, sep, lo'); }
    }

    /** Prepare and Copy of a parent without room for the downlink. */
    method CutParent(e: Entry, rest: seq<PageId>, parent: PageId, ghost left: PageId, ghost l: nat, ghost i: nat,
                     ghost j: nat)
      returns (twin: PageId, first: Entry, ghost k: nat)
      requires Valid() && l + 1 < |levels| && PathAbove(rest, levels, l + 1) && i < |levels[l]| && levels[l][i] == left
      requires j < |levels[l + 1]| && levels[l + 1][j] == parent && At(pages, parent).Page?
      requires Open(pages, left) && At(pages, left).next == e.ptr && |e.key| <= MAX_INDEX_KEY_BYTES
      requires OnlyOpen(pages, levels, l, left) && FreeSpace(At(pages, parent)) < Cost(l + 1, e)
      modifies this
      ensures Valid() && root == old(root) && (old(Logged()) ==> Logged())
      ensures SplitStep(old(pages), old(levels), pages, levels, l + 1, j, twin, k)
      ensures SplitAround(At(old(pages), parent), Some(e), k) && e !in EntriesOf(old(pages), parent)
      ensures At(pages, twin).Page? && At(pages, twin).entries != [] && At(pages, twin).entries[0] == first
      ensures |first.key| <= MAX_INDEX_KEY_BYTES
      ensures PathAbove(rest, levels, l + 1) && j + 1 < |levels[l + 1]| && levels[l + 1][j] == parent
      ensures levels[l + 1][j + 1] == twin && OnlyOpen(pages, levels, l + 1, parent)
      ensures Open(pages, parent) && At(pages, parent).next == twin
      ensures UntouchedUpTo(old(pages), old(levels), pages, levels, l) && SamePages(old(pages), pages, old(levels)[l])
      ensures InnerSorted(old(pages), old(levels), l) ==> InnerSorted(pages, levels, l + 1)
      ensures
        && StackLinked(old(pages), rest, root) && LinkedFrom(old(pages), rest, root, parent)
        && InnerSorted(old(pages), old(levels), l)
        ==> Committable(pages, levels, root, l + 1, rest, parent)
      ensures Neat(old(pages), old(levels), root) ==> Neat(pages, levels, root) && first.key != []
      ensures forall lo :: Ripe(old(pages), old(levels), root, lo, l, i, e.key) ==>
        Ripe(pages, levels, root, lo - {twin}, l + 1, j, first.key)
    {
      hide TreeOk, AllocOk, Neat, Sorted, PathAbove, OnlyOpen, NoneOpen, InnerSorted, UntouchedUpTo, Flat, Halved,
           Filled, FencedBy, Ripe, StackLinked, LinkedFrom, SplitAround, SamePages;
      ghost var s, lv := pages, levels;
      PageAt(pages, levels, root, l + 1, j);
      ParentSplits(pages, levels, root, l, i, j, e);
      twin := NewPage();
      var cut := SplitPage(parent, twin, Some(e), l + 1, j);
      k := cut.value;
      AfterParentSplit(s, lv, pages, levels, root, l, i, j, twin, k, rest);
      StackKept(s, lv, pages, levels, root, l + 1, j, twin, k, rest);
      first := At(pages, twin).entries[0];
      if Neat(pages, levels, root) { NeatKey(pages, levels, root, l + 1, j + 1, 0); }
      AllRipeAbove(s, lv, pages, levels, root, l, i, j, twin, k, e.key);
    }

    method CommitThroughSplit(left: PageId, right: PageId, sep: seq<byte>, rest: seq<PageId>, parent: PageId,
                              ghost l: nat, ghost i: nat, ghost j: nat, ghost lo: Lows)
      returns (r: Result<(), IndexError>, ghost lo': Lows)
      requires Valid() && l + 1 < |levels| && PathAbove(rest, levels, l + 1) && i < |levels[l]| && levels[l][i] == left
      requires j < |levels[l + 1]| && levels[l + 1][j] == parent
      requires Open(pages, left) && At(pages, left).next == right && |sep| <= MAX_INDEX_KEY_BYTES
      requires OnlyOpen(pages, levels, l, left) && (l > 0 ==> EntriesOf(pages, right) != [])
      requires At(pages, parent).Page? && FreeSpace(At(pages, parent)) < Cost(l + 1, Entry(sep, right, 0))
      requires Points(EntriesOf(pages, parent), left)
      modifies this
      ensures Valid() && UntouchedUpTo(old(pages), old(levels), pages, levels, l)
      ensures r.Ok? ==> NoneOpen(pages, levels, l) && (old(Logged()) ==> Logged())
      ensures r.Ok? ==> HasLink(pages, levels, l, Entry(sep, right, 0)) && |levels| <= |old(levels)| + 1
      ensures r == Err(NoRoom) ==> !InnerSorted(old(pages), old(levels), l)
      ensures r == Err(Damaged) ==> |old(levels)| > MAX_LEVEL
      ensures r.Err? ==> r.error in {NoRoom, Unsupported, Damaged}
      ensures
        && StackLinked(old(pages), rest, old(root)) && LinkedFrom(old(pages), rest, old(root), parent)
        && InnerSorted(old(pages), old(levels), l)
        ==> r.Ok? || r == Err(Damaged)
      ensures Neat(old(pages), old(levels), old(root)) && sep != [] ==> Neat(pages, levels, root)
      ensures r.Ok? && Ripe(old(pages), old(levels), old(root), lo, l, i, sep) ==>
        && FencedBy(pages, levels, lo') && Extends(lo, lo', old(levels), right)
        && right in lo' && lo'[right] == sep
      decreases |rest|, 1
    {
      hide TreeOk, AllocOk, Neat, Sorted, PathAbove, OnlyOpen, NoneOpen, InnerSorted, UntouchedUpTo, Flat, Halved,
           Committed, Filled, FencedBy, Ripe, HasLink, StackLinked, LinkedFrom, Extends, Points, CommitInRange,
           SplitAround, SamePages, Committable, IsLowerBound;
      ghost var s0, lv0, e, ripe := pages, levels, Entry(sep, right, 0), Ripe(pages, levels, root, lo, l, i, sep);
      ghost var root0 := root;
      if ripe { RipeParts(pages, levels, root, lo, l, i, sep); }
      PageAt(pages, levels, root, l + 1, j);
      var twin, first; ghost var k;
      twin, first, k := CutParent(Entry(sep, right, 0), rest, parent, left, l, i, j);
      ghost var s1, lv1 := pages, levels;
      ghost var lo1 := lo - {twin};
      r, lo' := SplitCommit(parent, twin, first.key, rest, l + 1, j, lo1);
      ghost var s2, lv2 := pages, levels;
      CascadeFrame(s0, lv0, s1, lv1, s2, lv2, l);
      if r.Err? {
        return;
      }
      BackAtLevel(s0, lv0, s1, lv1, s2, lv2, l, i, j, twin, k);
      var target := if Less(Entry(sep, right, 0), first) then parent else twin;
      ghost var t := if Less(e, first) then j else j + 1;
      var slot := LowerBound(At(pages, target).entries, Entry(sep, right, 0));
      if Neat(pages, levels, root) { NeatSorted(pages, levels, root, l + 1, t); }
      RightKept(s0, lv0, s1, lv1, s2, lv2, root0, l, i, j, twin, k);
      if ripe { RipeBack(s0, lv0, s1, lv1, s2, lv2, root0, root, lo, lo', l, i, j, twin, k, slot, sep); }
      r := CommitInto(left, right, target, sep, slot, l, i, t, lo');
      if r.Err? {
        ChosenHalfHasRoom(s0, lv0, s1, lv1, s2, l, j, twin, k, e);
        return;
      }
      CommitCloses(s2, lv2, root, l, i, t, slot, sep, right, pages);
      UntouchedTransitive(s0, lv0, s2, lv2, pages, levels, l);
      assert lv1 == lv0[l + 1 := Spliced(lv0[l + 1], j, twin)] && Unused(lv0, twin);
      if ripe { ExtendsTwice(lo, lo', lv0, lv1, twin, right, sep, l + 1, j); }
      lo' := lo'[right := sep];
    }

    method CommitToNewRoot(left: PageId, right: PageId, sep: seq<byte>, ghost l: nat, ghost i: nat, ghost lo: Lows)
      returns (r: Result<(), IndexError>, ghost lo': Lows)
      requires Valid() && l + 1 == |levels| && i < |levels[l]| && levels[l][i] == left && left == root
      requires Open(pages, left) && At(pages, left).next == right && |sep| <= MAX_INDEX_KEY_BYTES
      requires OnlyOpen(pages, levels, l, left) && (l > 0 ==> EntriesOf(pages, right) != [])
      modifies this
      ensures Valid() && UntouchedUpTo(old(pages), old(levels), pages, levels, l)
      ensures r.Ok? ==> NoneOpen(pages, levels, l) && (old(Logged()) ==> Logged())
      ensures r.Ok? ==> HasLink(pages, levels, l, Entry(sep, right, 0))
      ensures r.Err? ==> r.error == Damaged
      ensures r.Err? <==> MAX_LEVEL <= l
      ensures r.Ok? ==>
        levels == old(levels) + [[root]] && EntriesOf(pages, root) == [Entry([], left, 0), Entry(sep, right, 0)]
      ensures Neat(old(pages), old(levels), old(root)) && sep != [] ==> Neat(pages, levels, root)
      ensures r.Ok? && Ripe(old(pages), old(levels), old(root), lo, l, i, sep) ==>
        && FencedBy(pages, levels, lo') && Extends(lo, lo', old(levels), right)
        && right in lo' && lo'[right] == sep
    {
      hide TreeOk, AllocOk, UntouchedUpTo, Neat, Filled, FencedBy, Ripe, HasLink, Extends, CommitInRange;
      lo' := lo;
      PageAt(pages, levels, root, l, i);
      UntouchedAtAll(pages, levels, root, l);
      ghost var s0, lv0 := pages, levels;
      var top := CreateNewRoot(At(pages, left).level);
      if top.Err? {
        return Err(top.error), lo';
      }
      ghost var s := pages;
      NewRootApart(s0, lv0, left, s, levels, l, top.value, |wal|);
      if Ripe(s0, lv0, left, lo, l, i, sep) {
        RipeParts(s0, lv0, left, lo, l, i, sep);
        TopReady(s0, lv0, left, s, levels, top.value, lo, l, i, |wal|, sep);
      }
      lo' := lo[top.value := []];
      RightUntouched(s0, lv0, left, l, i, s, top.value, |wal|);
      r := CommitInto(left, right, top.value, sep, 1, l, i, 0, lo');
      CommitCloses(s, levels, root, l, i, 0, 1, sep, right, pages);
      UntouchedTransitive(s0, lv0, s, levels, pages, levels, l);
      assert EntriesOf(s, top.value) == [Entry([], left, 0)];
      TwoMore(lo, lv0, top.value, right, sep);
      lo' := lo'[right := sep];
    }

    /** `insert_into_page` on a leaf of the chain. */
    method InsertIntoLeaf(p: PageId, slot: nat, e: Entry, ghost at: nat)
      requires Valid() && at < |levels[0]| && levels[0][at] == p && At(pages, p).Page?
      requires IsLowerBound(At(pages, p).entries, e, slot) && e !in At(pages, p).entries
      requires |e.key| <= MAX_INDEX_KEY_BYTES && Cost(0, e) <= FreeSpace(At(pages, p))
      modifies `pages, `wal
      ensures Valid() && (old(Logged()) ==> Logged())
      ensures InsertedInto(old(pages), pages, levels[0], at, slot, e)
      ensures pages == old(pages)[p := At(pages, p)] && At(pages, p).Page?
      ensures At(pages, p).flags == At(old(pages), p).flags && At(pages, p).next == At(old(pages), p).next
      ensures At(pages, p).prev == At(old(pages), p).prev
      ensures Neat(old(pages), levels, root) && e.key != [] ==> Neat(pages, levels, root)
      ensures forall lo ::
        FencedBy(old(pages), levels, lo) && Covers(levels[0], lo, at, e.key) ==> FencedBy(pages, levels, lo)
      ensures CompactPage(At(old(pages), p)) ==> CompactPage(At(pages, p))
    {
      hide TreeOk, AllocOk, Neat, Filled, FencedBy, Covers, Bytes;
      SomeLevels(pages, levels, root);
      ghost var s := pages;
      PageAt(pages, levels, root, 0, at);
      NeighboursApart(pages, levels, root, 0);
      var pg := At(pages, p);
      RoomSuffices(pg, p, 0, root, slot, e);
      InsertSorted(pg.entries, e, slot);
      LeafInsertKeeps(pages, levels, root, at, slot, e, LsnOf(|wal|));
      Write(Insert(p, slot, pg.level, pg.flags, e));
      if Neat(s, levels, root) && e.key != [] { LeafInsertNeat(s, pages, levels, root, at, slot, e); }
      LeafFilled(s, pages, levels, root, at);
      LeafFences(s, pages, levels, root, at, slot, e);
      InsertBytes(pg.level, pg.entries, slot, e);
    }

    ghost predicate Quiescent()
      reads this
    {
      Valid() && ChainOk(pages, levels[0]) && NoneOpen(pages, levels, 0)
    }

    /** A median split of a full leaf, committed, so that the next pass finds room. */
    method SplitForRoom(leaf: PageId, stack: seq<PageId>, ghost at: nat, ghost e: Entry, ghost lo: Lows)
      returns (r: Result<(), IndexError>, ghost lo': Lows)
      requires Quiescent() && PathAbove(stack, levels, 0) && at < |levels[0]| && levels[0][at] == leaf
      requires e !in EntriesOf(pages, leaf)
      modifies this
      ensures Valid() && Retry(old(pages), old(levels)[0], pages, levels[0], e)
      ensures r.Ok? ==> Quiescent() && (old(Logged()) ==> Logged())
      ensures Neat(old(pages), old(levels), old(root)) ==> Neat(pages, levels, root)
      ensures r == Err(NoRoom) ==> !InnerSorted(old(pages), old(levels), 0)
      ensures r == Err(Unsplittable) <==> |EntriesOf(old(pages), leaf)| < 2
      ensures r == Err(Unsplittable) ==> pages == old(pages) && levels == old(levels)
      ensures r.Err? ==> r.error in {NoRoom, Unsplittable, Unsupported, Damaged}
      ensures |old(levels)[0]| <= |levels[0]|
      ensures Committable(old(pages), old(levels), old(root), 0, stack, leaf) ==>
        r.Ok? || r.error in {Unsplittable, Damaged}
      ensures r == Err(Damaged) ==> |levels| > MAX_LEVEL
      ensures
        && r.Ok? && Homely(old(pages), old(levels), old(root), lo, at, e) && AllAbove(EntriesOf(old(pages), leaf), e)
        ==> Narrowed(old(pages), old(levels), pages, levels, lo', at, e)
    {
      hide TreeOk, AllocOk, Sorted, Flat, PathAbove, OnlyOpen, NoneOpen, InnerSorted, Halved, LeavesKept, SplitStep,
           Neat, IsTail, Filled, FencedBy, StackLinked, LinkedFrom, Ripe, Extends, HasLink, Homely, Narrowed;
      lo' := lo;
      SomeLevels(pages, levels, root);
      KeptAsIs(pages, levels[0]);
      ClosedAt(pages, levels, 0, at);
      ghost var s0, lv0 := pages, levels;
      var right := NewPage();
      var cut := SplitPage(leaf, right, None, 0, at);
      if cut.Err? {
        return Err(cut.error), lo';
      }
      ghost var s1, lv1 := pages, levels;
      AfterLeafSplit(s0, lv0, s1, lv1, root, at, right, cut.value, stack);
      SplitLeaves(s0, lv0, s1, lv1, root, at, right, cut.value);
      SplitTails(s0, lv0, s1, lv1, root, at, right, cut.value, e);
      if Neat(s1, lv1, root) { NeatKey(s1, lv1, root, 0, at + 1, 0); }
      StackKept(s0, lv0, s1, lv1, root, 0, at, right, cut.value, stack);
      ghost var home, lo1 := Homely(s0, lv0, root, lo, at, e), lo - {right};
      HomeCovers(s0, lv0, root, lo, at, e);
      if home { LeafRipe(s0, lv0, s1, lv1, root, lo, at, right, cut.value, e); }
      r, lo' := SplitCommit(leaf, right, At(pages, right).entries[0].key, stack, 0, at, lo1);
      if home && r.Ok? && AllAbove(EntriesOf(s0, leaf), e) {
        HalfHome(s0, lv0, s1, lv1, pages, levels, old(root), lo, lo', at, right, cut.value, e);
      }
      BodiesKeep(s1, lv1, pages, levels, root);
      BodiesTails(s1, lv1, pages, levels, e);
      LeavesTwice(s0, lv0[0], s1, lv1[0], pages, levels[0]);
    }

    /** Prepare and Copy around a pending entry, which then has a place and the room for it on one half. */
    method SplitLeafAround(leaf: PageId, e: Entry, stack: seq<PageId>, ghost at: nat)
      returns (r: Result<PageId, IndexError>)
      requires Quiescent() && PathAbove(stack, levels, 0) && at < |levels[0]| && levels[0][at] == leaf
      requires |e.key| <= MAX_INDEX_KEY_BYTES && e !in EntriesOf(pages, leaf) && PositionAt(pages, levels[0], at, e)
      modifies this
      ensures Valid() && |levels| == |old(levels)| && Flat(pages, levels[0]) == Flat(old(pages), old(levels)[0])
      ensures |old(levels)[0]| <= |levels[0]| <= |old(levels)[0]| + 1
      ensures Compact(old(pages), old(levels)[0]) ==> Compact(pages, levels[0])
      ensures (old(Logged()) ==> Logged())
      ensures r == Err(Unsplittable) <==> |EntriesOf(old(pages), leaf)| < 2
      ensures r.Err? ==> r.error == Unsplittable && pages == old(pages) && levels == old(levels)
      ensures Neat(old(pages), old(levels), old(root)) ==> Neat(pages, levels, root)
      ensures HintsSeen(old(pages), old(levels)[0]) ==> HintsSeen(pages, levels[0])
      ensures root == old(root)
      ensures r.Ok? ==> HalfReady(pages, levels, leaf, r.value, at, e) && OnlyOpen(pages, levels, 0, leaf)
      ensures r.Ok? ==>
        PathAbove(stack, levels, 0) && (InnerSorted(old(pages), old(levels), 0) ==> InnerSorted(pages, levels, 0))
      ensures r.Ok? ==>
        && (StackLinked(old(pages), stack, root) ==> StackLinked(pages, stack, root))
        && (forall p :: LinkedFrom(old(pages), stack, root, p) ==> LinkedFrom(pages, stack, root, p))
      ensures r.Ok? ==> forall lo ::
        Homely(old(pages), old(levels), root, lo, at, e) ==> Pending(pages, levels, root, lo - {r.value}, at, e)
    {
      hide TreeOk, AllocOk, Sorted, Flat, PathAbove, OnlyOpen, NoneOpen, InnerSorted, Halved, SplitStep, PositionAt,
           CutChain, Linked, HintsReach, HintsSeen, SplitAround, Reserved, HalfReady, Neat, Filled, FencedBy,
           StackLinked, LinkedFrom, Homely, Pending;
      SomeLevels(pages, levels, root);
      ClosedAt(pages, levels, 0, at);
      ghost var s, lv := pages, levels;
      PageAt(pages, levels, root, 0, at);
      var right := NewPage();
      var cut := SplitPage(leaf, right, Some(e), 0, at);
      if cut.Err? {
        return Err(cut.error);
      }
      AfterLeafSplit(s, lv, pages, levels, root, at, right, cut.value, stack);
      SplitLeaves(s, lv, pages, levels, root, at, right, cut.value);
      HalfIsReady(s, lv, pages, levels, root, at, right, cut.value, e);
      StackKept(s, lv, pages, levels, root, 0, at, right, cut.value, stack);
      HomesPend(s, lv, pages, levels, root, at, right, cut.value, e);
      r := Ok(right);
    }

    /** The split around the entry, and the entry on the half it sorts into. */
    method SplitAndPut(leaf: PageId, e: Entry, stack: seq<PageId>, ghost at: nat)
      returns (r: Result<(PageId, seq<byte>), IndexError>)
      requires Quiescent() && PathAbove(stack, levels, 0) && at < |levels[0]| && levels[0][at] == leaf
      requires |e.key| <= MAX_INDEX_KEY_BYTES && e !in EntriesOf(pages, leaf) && PositionAt(pages, levels[0], at, e)
      modifies this
      ensures Valid() && root == old(root) && |levels| == |old(levels)|
      ensures r == Err(Unsplittable) <==> |EntriesOf(old(pages), leaf)| < 2
      ensures r.Err? ==> r.error == Unsplittable && pages == old(pages) && levels == old(levels)
      ensures r.Ok? ==> Inserted(Flat(old(pages), old(levels)[0]), Flat(pages, levels[0]), e)
      ensures r.Ok? && e !in Flat(old(pages), old(levels)[0]) ==> ChainOk(pages, levels[0])
      ensures r.Ok? && old(Logged()) ==> Logged()
      ensures HintsSeen(old(pages), old(levels)[0]) ==> HintsSeen(pages, levels[0])
      ensures Compact(old(pages), old(levels)[0]) ==> Compact(pages, levels[0])
      ensures |old(levels)[0]| <= |levels[0]| <= |old(levels)[0]| + 1
      ensures Neat(old(pages), old(levels), old(root)) && e.key != [] ==>
        Neat(pages, levels, root) && (r.Ok? ==> r.value.1 != [])
      ensures r.Ok? ==>
        && PathAbove(stack, levels, 0) && at < |levels[0]| && levels[0][at] == leaf && OnlyOpen(pages, levels, 0, leaf)
        && Open(pages, leaf) && At(pages, leaf).next == r.value.0 && |r.value.1| <= MAX_INDEX_KEY_BYTES
        && (InnerSorted(old(pages), old(levels), 0) ==> InnerSorted(pages, levels, 0))
        && (Committable(old(pages), old(levels), old(root), 0, stack, leaf) ==>
             Committable(pages, levels, root, 0, stack, leaf))
      ensures r.Ok? ==> forall lo :: Homely(old(pages), old(levels), old(root), lo, at, e) ==>
        Ripe(pages, levels, root, lo - {r.value.0}, 0, at, r.value.1)
    {
      hide TreeOk, AllocOk, Sorted, Flat, PathAbove, OnlyOpen, NoneOpen, InnerSorted, Inserted, PositionAt, Linked,
           HintsReach, HintsSeen, Neat, Filled, FencedBy, StackLinked, LinkedFrom, Ripe, Homely, Pending, Covers,
           IsLowerBound, Compact, AnyWedged, InsertedInto, Bypassed;
      SomeLevels(pages, levels, root);
      ghost var s, lv := pages, levels;
      var right := SplitLeafAround(leaf, e, stack, at);
      if right.Err? {
        return Err(right.error);
      }
      ghost var s0 := pages;
      var first := At(pages, right.value).entries[0];
      var half := if Less(e, first) then leaf else right.value;
      ghost var t := if Less(e, first) then at else at + 1;
      PageAt(pages, levels, root, 0, t);
      if Neat(pages, levels, root) { NeatKey(pages, levels, root, 0, at + 1, 0); }
      var pos := LowerBound(At(pages, half).entries, e);
      PutIntoLeaf(half, pos, e, t, leaf);
      AboveStays(s0, pages, levels, root, t, stack);
      PendingsRipe(s, lv, s0, pages, levels, root, at, right.value, t, pos, e);
      r := Ok((right.value, first.key));
    }

    /** Split around the entry, put it into the half it sorts into, then commit. */
    method SplitAndInsert(leaf: PageId, e: Entry, stack: seq<PageId>, ghost at: nat, ghost lo: Lows)
      returns (r: Result<(), IndexError>, ghost lo': Lows)
      requires Quiescent() && PathAbove(stack, levels, 0) && at < |levels[0]| && levels[0][at] == leaf
      requires |e.key| <= MAX_INDEX_KEY_BYTES && e !in EntriesOf(pages, leaf) && PositionAt(pages, levels[0], at, e)
      modifies this
      ensures Valid()
      ensures r.Err? ==> AtMostOnce(old(pages), old(levels)[0], pages, levels[0], e)
      ensures r.Ok? ==>
        NoneOpen(pages, levels, 0) && Inserted(Flat(old(pages), old(levels)[0]), Flat(pages, levels[0]), e)
      ensures r.Ok? && e !in Flat(old(pages), old(levels)[0]) ==> Quiescent()
      ensures r.Ok? && old(Logged()) ==> Logged()
      ensures r.Ok? && HintsSeen(old(pages), old(levels)[0]) ==> HintsSeen(pages, levels[0])
      ensures Neat(old(pages), old(levels), old(root)) && e.key != [] ==> Neat(pages, levels, root)
      ensures r == Err(NoRoom) ==> !InnerSorted(old(pages), old(levels), 0)
      ensures r == Err(Unsplittable) <==> |EntriesOf(old(pages), leaf)| < 2
      ensures r == Err(Unsplittable) ==> pages == old(pages)
      ensures r.Err? ==> r.error in {NoRoom, Unsplittable, Unsupported, Damaged}
      ensures |stack| == 0 && leaf == old(root) ==> r.Ok? || r == Err(Unsplittable)
      ensures Committable(old(pages), old(levels), old(root), 0, stack, leaf) ==>
        r.Ok? || r.error in {Unsplittable, Damaged}
      ensures r == Err(Damaged) ==> |levels| > MAX_LEVEL
      ensures |old(levels)[0]| <= |levels[0]| <= |old(levels)[0]| + 1
      ensures r.Ok? && Compact(old(pages), old(levels)[0]) ==> Compact(pages, levels[0])
      ensures r.Ok? && Homely(old(pages), old(levels), old(root), lo, at, e) ==> FencedBy(pages, levels, lo')
    {
      hide TreeOk, AllocOk, Sorted, Flat, PathAbove, OnlyOpen, NoneOpen, InnerSorted, Inserted, PositionAt, Linked,
           HintsReach, HintsSeen, Neat, Filled, FencedBy, Committable, Ripe, Extends, HasLink, Homely, Compact,
           AnyWedged;
      lo' := lo;
      SomeLevels(pages, levels, root);
      var right := SplitAndPut(leaf, e, stack, at);
      if right.Err? {
        return Err(right.error), lo';
      }
      ghost var s, lv := pages, levels;
      ghost var lo1 := lo - {right.value.0};
      r, lo' := SplitCommit(leaf, right.value.0, right.value.1, stack, 0, at, lo1);
      BodiesKeep(s, lv, pages, levels, root);
    }

    /** The entry at its slot of one leaf, all marks kept; the chain stays sorted exactly if that is its position. */
    method PutIntoLeaf(p: PageId, pos: nat, e: Entry, ghost t: nat, ghost left: PageId)
      requires Valid() && ChainOk(pages, levels[0]) && t < |levels[0]| && levels[0][t] == p && At(pages, p).Page?
      requires IsLowerBound(At(pages, p).entries, e, pos) && e !in At(pages, p).entries
      requires |e.key| <= MAX_INDEX_KEY_BYTES && Cost(0, e) <= FreeSpace(At(pages, p))
      modifies `pages, `wal
      ensures Valid() && (old(Logged()) ==> Logged())
      ensures Inserted(Flat(old(pages), levels[0]), Flat(pages, levels[0]), e)
      ensures e !in Flat(old(pages), levels[0]) ==>
        (ChainOk(pages, levels[0]) <==> PositionAt(old(pages), levels[0], t, e))
      ensures MarksKept(old(pages), pages, levels, left)
      ensures Neat(old(pages), levels, root) && e.key != [] ==> Neat(pages, levels, root)
      ensures HintsSeen(old(pages), levels[0]) ==> HintsSeen(pages, levels[0])
      ensures HintsReach(old(pages), levels[0]) ==>
        (HintsReach(pages, levels[0]) <==> !Bypassed(old(pages), levels[0], t))
      ensures InsertedInto(old(pages), pages, levels[0], t, pos, e) && pages == old(pages)[p := At(pages, p)]
      ensures Compact(old(pages), levels[0]) ==> Compact(pages, levels[0])
      ensures forall lo ::
        FencedBy(old(pages), levels, lo) && Covers(levels[0], lo, t, e.key) ==> FencedBy(pages, levels, lo)
    {
      hide TreeOk, AllocOk, Sorted, Flat, NoneOpen, OnlyOpen, Inserted, PositionAt, Linked, Neat, HintsSeen, HintsReach,
           Bypassed, Filled, FencedBy, Covers, CompactPage;
      SomeLevels(pages, levels, root);
      ghost var s := pages;
      InsertIntoLeaf(p, pos, e, t);
      LeafHints(s, pages, levels, root, t, pos, e);
      LeafPlaced(s, pages, levels, root, t, pos, e);
      LeafMarks(s, pages, levels, root, t, left);
    }

    /** The pass once its descent has ended on `leaf`: `Ok(true)` is done, `Ok(false)` asks for another pass. */
    method InsertAtLeaf(leaf: PageId, e: Entry, stack: seq<PageId>, ghost at: nat, ghost lo: Lows)
      returns (r: Result<bool, IndexError>, ghost lo': Lows)
      requires Quiescent() && |e.key| <= MAX_INDEX_KEY_BYTES && PathAbove(stack, levels, 0)
      requires RightClear(pages, levels[0], at, e) && levels[0][at] == leaf
      modifies this
      ensures Valid()
      ensures r == Ok(false) ==> Quiescent() && Retry(old(pages), old(levels)[0], pages, levels[0], e)
      ensures r == Ok(true) ==>
        NoneOpen(pages, levels, 0) && Inserted(Flat(old(pages), old(levels)[0]), Flat(pages, levels[0]), e)
      ensures r == Ok(true) ==> e !in Flat(old(pages), old(levels)[0]) && Quiescent()
      ensures r == Ok(true) && HintsSeen(old(pages), old(levels)[0]) ==> HintsSeen(pages, levels[0])
      ensures r.Ok? && old(Logged()) ==> Logged()
      ensures Neat(old(pages), old(levels), old(root)) && e.key != [] ==> Neat(pages, levels, root)
      ensures r.Err? ==> AtMostOnce(old(pages), old(levels)[0], pages, levels[0], e)
      ensures r == Err(Duplicate) ==> e in Flat(old(pages), old(levels)[0]) && pages == old(pages)
      ensures r == Err(NoRoom) ==> !InnerSorted(old(pages), old(levels), 0)
      ensures r == Err(Unsplittable) <==> e !in EntriesOf(old(pages), leaf) && Wedged(old(pages), leaf, e)
      ensures r == Err(Unsplittable) ==> pages == old(pages)
      ensures r.Err? ==> r.error in {Duplicate, NoRoom, Unsplittable, Unsupported, Damaged}
      ensures
        && |stack| == 0 && leaf == old(root) && At(old(pages), leaf).Page? && At(old(pages), leaf).prev == INVALID
        ==> r != Ok(false) && (r.Err? ==> r.error in {Duplicate, Unsplittable})
      ensures Committable(old(pages), old(levels), old(root), 0, stack, leaf) ==>
        r.Ok? || r.error in {Duplicate, Unsplittable, Damaged}
      ensures r == Err(Damaged) ==> |levels| > MAX_LEVEL
      ensures r == Ok(false) ==> AllAbove(EntriesOf(old(pages), leaf), e)
      ensures |old(levels)[0]| <= |levels[0]| && (r == Ok(true) ==> |levels[0]| <= |old(levels)[0]| + 1)
      ensures r == Ok(true) && Compact(old(pages), old(levels)[0]) ==> Compact(pages, levels[0])
      ensures r == Ok(true) && Homely(old(pages), old(levels), old(root), lo, at, e) ==> FencedBy(pages, levels, lo')
      ensures
        && r == Ok(false) && Crowded(old(pages), leaf, e) && Homely(old(pages), old(levels), old(root), lo, at, e)
        ==> Narrowed(old(pages), old(levels), pages, levels, lo', at, e)
    {
      hide TreeOk, AllocOk, Sorted, Flat, PathAbove, NoneOpen, InnerSorted, Inserted, PositionAt, Linked, HintsReach,
           HintsSeen, RightClear, Neat, LeavesKept, Bypassed, IsLowerBound, LinkOk, OnlyOpen, IsTail, Filled, FencedBy,
           Committable, Homely, Narrowed, Covers, Compact;
      lo' := lo;
      SomeLevels(pages, levels, root);
      KeptAsIs(pages, levels[0]);
      RightClearIndex(pages, levels[0], at, e);
      PageAt(pages, levels, root, 0, at);
      var es := At(pages, leaf).entries;
      var pos := LowerBound(es, e);
      if pos < |es| && es[pos] == e {
        FlatMember(pages, levels[0], e);
        return Err(Duplicate), lo';
      }
      AbsentFrom(es, e, pos);
      HomeCovers(pages, levels, root, lo, at, e);
      var edge := pos == 0 && At(pages, leaf).prev != INVALID;
      if edge {
        AtTheEdge(es, e, pos);
      } else {
        InteriorPosition(pages, levels[0], at, pos, e);
        AbsentEverywhere(pages, levels[0], at, e);
      }
      var res := Ok(());
      if Cost(0, e) <= FreeSpace(At(pages, leaf)) {
        if edge {
          return Ok(false), lo';
        }
        PutIntoLeaf(leaf, pos, e, at, INVALID);
      } else if edge {
        res, lo' := SplitForRoom(leaf, stack, at, e, lo);
      } else {
        res, lo' := SplitAndInsert(leaf, e, stack, at, lo);
      }
      r := if res.Ok? then Ok(!edge) else Err(res.error);
    }

    /** `insert_pessimistic`. A pass whose descent ends on a leaf that lacks room fails before it logs anything exactly
        if that leaf has fewer than two entries. */
    method InsertPessimistic(e: Entry, ghost lo: Lows)
      returns (r: Result<bool, IndexError>, ghost target: Option<nat>, ghost lo': Lows)
      requires Quiescent() && |e.key| <= MAX_INDEX_KEY_BYTES
      modifies this
      ensures Valid()
      ensures r == Ok(false) ==> Quiescent() && Retry(old(pages), old(levels)[0], pages, levels[0], e)
      ensures Outcome(old(pages), old(levels), old(root), pages, levels, root, e, r)
      ensures r == Ok(true) ==> e !in Flat(old(pages), old(levels)[0]) && Quiescent()
      ensures r.Ok? && old(Logged()) ==> Logged()
      ensures r == Err(Duplicate) ==> pages == old(pages)
      ensures r == Err(NoRoom) ==> !InnerSorted(old(pages), old(levels), 0)
      ensures target.Some? ==>
        target.value < |old(levels)[0]| && RightClear(old(pages), old(levels)[0], target.value, e)
      ensures r == Err(Unsplittable) <==>
        && target.Some? && e !in EntriesOf(old(pages), old(levels)[0][target.value])
        && Wedged(old(pages), old(levels)[0][target.value], e)
      ensures r == Err(Unsplittable) ==> pages == old(pages)
      ensures r.Err? ==> r.error in {Duplicate, NoRoom, Unsplittable, Unsupported, Damaged}
      ensures |old(levels)| == 1 && |old(levels)[0]| == 1 ==>
        target == Some(0) && r != Ok(false) && (r.Err? ==> r.error in {Duplicate, Unsplittable})
      ensures Passable(old(pages), old(levels), lo) && |old(levels)[0]| <= LONG_CHAIN ==>
        && target.Some? && Covers(old(levels)[0], lo, target.value, e.key)
        && (r.Ok? || r.error in {Duplicate, Unsplittable} || (r.error == Damaged && |levels| > MAX_LEVEL))
      ensures Misrouted(old(pages), old(levels), e) ==>
        r in {Ok(false), Err(Damaged)} && pages == old(pages) && levels == old(levels) && root == old(root)
      ensures r == Ok(false) && target.Some? ==> AllAbove(EntriesOf(old(pages), old(levels)[0][target.value]), e)
      ensures
        && r == Ok(true) && target.Some? && Homely(old(pages), old(levels), old(root), lo, target.value, e)
        ==> FencedBy(pages, levels, lo')
      ensures
        && r == Ok(false) && target.Some? && Homely(old(pages), old(levels), old(root), lo, target.value, e)
        && Crowded(old(pages), old(levels)[0][target.value], e)
        ==> Narrowed(old(pages), old(levels), pages, levels, lo', target.value, e)
    {
      hide TreeOk, AllocOk, Sorted, Flat, PathAbove, NoneOpen, InnerSorted, Inserted, Linked, HintsReach, HintsSeen,
           RightClear, Neat, LeavesKept, LinkOk, Filled, FencedBy, StackLinked, LinkedFrom, Homely, Narrowed, Covers,
           Compact, AtMostOnce, IsTail, AnyWedged, ChainOk, Retry;
      lo' := lo;
      SomeLevels(pages, levels, root);
      target := None;
      if Neat(pages, levels, root) { NeatInner(pages, levels, root, 0); }
      KeptAsIs(pages, levels[0]);
      var path; ghost var at;
      path, at := DescendWritePath(pages, levels, root, e, lo);
      if |levels| == 1 && |levels[0]| == 1 { LoneLeaf(pages, levels, root); ClosedAt(pages, levels, 0, 0); }
      if path.Err? {
        return Err(Damaged), target, lo';
      }
      if path.value.Restart? {
        return Ok(false), target, lo';
      }
      RightClearIndex(pages, levels[0], at, e);
      PathLength(path.value.stack, levels);
      target := Some(at);
      ghost var s, lv := pages, levels;
      r, lo' := InsertAtLeaf(path.value.leaf, e, path.value.stack, at, lo);
      if r == Err(Unsplittable) { WedgedIs(s, lv[0], at, e); }
    }

    /** The optimistic attempt: place from the leaf the descent arrived at and insert if there is room. */
    method InsertOptimistic(e: Entry, ghost lo: Lows) returns (r: Result<bool, IndexError>, ghost start: nat)
      requires Quiescent() && |e.key| <= MAX_INDEX_KEY_BYTES
      modifies `pages, `wal
      ensures Valid() && NoneOpen(pages, levels, 0) && (old(Logged()) ==> Logged())
      ensures r == Ok(true) ==> Inserted(Flat(old(pages), levels[0]), Flat(pages, levels[0]), e)
      ensures r == Ok(true) ==> start < |levels[0]|
      ensures r == Ok(true) && e !in Flat(old(pages), levels[0]) ==>
        (Quiescent() <==> !Blinded(old(pages), levels[0], start, e))
      ensures r == Ok(true) && e in Flat(old(pages), levels[0]) ==>
        Blinded(old(pages), levels[0], start, e) || TailLeftOf(old(pages), levels[0], start, e)
      ensures r != Ok(true) ==> pages == old(pages)
      ensures r.Err? ==> r.error == Damaged || (r.error == Duplicate && e in Flat(old(pages), levels[0]))
      ensures r == Err(Duplicate) ==>
        && start < |levels[0]| && !Blinded(old(pages), levels[0], start, e)
        && !TailLeftOf(old(pages), levels[0], start, e)
      ensures r == Err(Damaged) ==> (|levels| > 1 || |levels[0]| > SHORT_CHAIN) && !Walkable(old(pages), levels)
      ensures Passable(old(pages), levels, lo) && |levels[0]| <= LONG_CHAIN ==>
        && r != Err(Damaged) && (r == Ok(true) ==> FencedBy(pages, levels, lo))
        && (r == Ok(true) && e !in Flat(old(pages), levels[0]) ==> Quiescent())
        && (r == Ok(false) ==> Covers(levels[0], lo, start, e.key) && Crowded(old(pages), levels[0][start], e))
      ensures Compact(old(pages), levels[0]) ==> Compact(pages, levels[0])
      ensures r == Ok(false) ==> exists i :: 0 <= i < |levels[0]| && Crowded(pages, levels[0][i], e)
      ensures r == Ok(true) ==> exists i :: 0 <= i < |levels[0]| && !Crowded(old(pages), levels[0][i], e)
      ensures HintsSeen(old(pages), levels[0]) ==> HintsSeen(pages, levels[0])
      ensures Neat(old(pages), levels, root) && e.key != [] ==> Neat(pages, levels, root)
    {
      hide TreeOk, AllocOk, Sorted, Flat, NoneOpen, Inserted, PositionAt, Linked, Blinded, TailLeftOf, HintsSeen,
           HintsReach, Bypassed, Neat, MoreRight, Filled, FencedBy, Covers, InnerSorted;
      SomeLevels(pages, levels, root);
      WalkableLeaves(pages, levels);
      ghost var home := Passable(pages, levels, lo) && |levels[0]| <= LONG_CHAIN;
      var leaf;
      leaf, start := DescendForInsert(pages, levels, root, e, lo);
      if leaf.Err? {
        return Err(Damaged), start;
      }
      if home { HomeLeaf(pages, levels, lo, start, e); }
      var spot; ghost var at;
      spot, at := Place(pages, levels[0], leaf.value, start, e);
      if spot.Err? {
        return Err(if spot.error == DuplicateKey then Duplicate else Damaged), start;
      }
      var (p, slot) := spot.value;
      PageAt(pages, levels, root, 0, at);
      if Cost(0, e) > FreeSpace(At(pages, p)) {
        assert Crowded(pages, levels[0][at], e);
        return Ok(false), start;
      }
      assert !Crowded(pages, levels[0][at], e);
      PutIntoLeaf(p, slot, e, at, INVALID);
      r := Ok(true);
    }

    /** The pessimistic pass, the optimistic attempt having found its leaf full. */
    method InsertFull(e: Entry, ghost start: nat, ghost lo: Lows) returns (r: Result<bool, IndexError>, ghost lo': Lows)
      requires Quiescent() && |e.key| <= MAX_INDEX_KEY_BYTES && !AllRoom(pages, levels[0], e)
      requires Passable(pages, levels, lo) && |levels[0]| <= LONG_CHAIN ==>
        Covers(levels[0], lo, start, e.key) && Crowded(pages, levels[0][start], e)
      modifies this
      ensures Valid() && r != Err(TooLarge)
      ensures r == Ok(false) ==> Quiescent() && Retry(old(pages), old(levels)[0], pages, levels[0], e)
      ensures Outcome(old(pages), old(levels), old(root), pages, levels, root, e, r)
      ensures r.Ok? && old(Logged()) ==> Logged()
      ensures Prompt(old(pages), old(levels), old(root), lo, |levels|, e, r)
      ensures Stuck(old(pages), old(levels), e) ==>
        r != Ok(true) && pages == old(pages) && levels == old(levels) && root == old(root)
      ensures Passable(old(pages), old(levels), lo) && |old(levels)[0]| <= LONG_CHAIN ==>
        && (r.Ok? || r.error in {Duplicate, Unsplittable} || (r.error == Damaged && |levels| > MAX_LEVEL))
        && (r == Ok(true) && e !in Flat(old(pages), old(levels)[0]) ==> Quiescent())
      ensures
        && Passable(old(pages), old(levels), lo) && |old(levels)[0]| <= LONG_CHAIN
        && Neat(old(pages), old(levels), old(root)) && Newcomer(Flat(old(pages), old(levels)[0]), e)
        ==> && (r == Ok(true) ==> FencedBy(pages, levels, lo'))
            && (r == Ok(false) ==> Closer(old(pages), old(levels), pages, levels, lo, lo', e))
    {
      hide TreeOk, AllocOk, Sorted, Flat, NoneOpen, Linked, AnyWedged, Neat, InnerSorted, RightClear, Filled, FencedBy,
           Covers, Homely, Narrowed, Inside, Newcomer, Closer, Walkable, Retry, Outcome, Prompt, AllRoom, Passable,
           AllAbove, Less, ChainOk, Stuck, Misrouted;
      StuckMeans(pages, levels, e);
      ghost var home := Passable(pages, levels, lo) && |levels[0]| <= LONG_CHAIN;
      ghost var fits := home && Neat(pages, levels, root) && Newcomer(Flat(pages, levels[0]), e);
      ghost var lone := |levels| == 1 && |levels[0]| == 1 && e !in Flat(pages, levels[0]);
      if lone { LoneLeaf(pages, levels, root); AbsentAlone(pages, root, levels[0], e); }
      ghost var s, lv, rt := pages, levels, root;
      ghost var target;
      if fits { NewcomerIsHomely(s, lv, root, lo, start, e); }
      r, target, lo' := InsertPessimistic(e, lo);
      if home {
        OneHome(s, lv, lo, start, target.value, e);
        if r == Ok(false) { EdgeNotInside(s, lv, lo, start, e); }
      }
      OutcomeMeans(s, lv, rt, pages, levels, root, e, r);
      if fits && r == Ok(false) { PassCloser(s, lv, pages, levels, root, lo, lo', start, e); }
      assert r.Ok? ==> r == Ok(true) || r == Ok(false) by {
        if r.Ok? && r.value { assert r == Ok(true); }
      }
      PromptLate(s, lv, rt, lo, |levels|, e, r);
    }

    /** One turn of the insert loop: the optimistic attempt, and the pessimistic pass if the leaf is full. */
    method InsertPass(e: Entry, ghost lo: Lows) returns (r: Result<bool, IndexError>, ghost lo': Lows)
      requires Quiescent() && |e.key| <= MAX_INDEX_KEY_BYTES
      modifies this
      ensures Valid() && r != Err(TooLarge)
      ensures r == Ok(false) ==> Quiescent() && Retry(old(pages), old(levels)[0], pages, levels[0], e)
      ensures Outcome(old(pages), old(levels), old(root), pages, levels, root, e, r)
      ensures r.Ok? && old(Logged()) ==> Logged()
      ensures Prompt(old(pages), old(levels), old(root), lo, |levels|, e, r)
      ensures Stuck(old(pages), old(levels), e) ==>
        r != Ok(true) && pages == old(pages) && levels == old(levels) && root == old(root)
      ensures Passable(old(pages), old(levels), lo) && |old(levels)[0]| <= LONG_CHAIN ==>
        && (r.Ok? || r.error in {Duplicate, Unsplittable} || (r.error == Damaged && |levels| > MAX_LEVEL))
        && (r == Ok(true) && e !in Flat(old(pages), old(levels)[0]) ==> Quiescent())
      ensures
        && Passable(old(pages), old(levels), lo) && |old(levels)[0]| <= LONG_CHAIN
        && Neat(old(pages), old(levels), old(root)) && Newcomer(Flat(old(pages), old(levels)[0]), e)
        ==> && (r == Ok(true) ==> FencedBy(pages, levels, lo'))
            && (r == Ok(false) ==> Closer(old(pages), old(levels), pages, levels, lo, lo', e))
    {
      hide TreeOk, AllocOk, Sorted, Flat, NoneOpen, Inserted, Linked, Blinded, HintsReach, HintsSeen, AnyWedged, Neat,
           InnerSorted, RightClear, LeavesKept, IsTail, TailLeftOf, Filled, FencedBy, Covers, Homely, Narrowed, Inside,
           Newcomer, Closer, Walkable, Compact, Retry, AtMostOnce, Outcome, Prompt, AllRoom, Passable,
           AllAbove, Less, Stuck;
      StuckMeans(pages, levels, e);
      lo' := lo;
      ghost var lone := |levels| == 1 && |levels[0]| == 1 && e !in Flat(pages, levels[0]);
      if lone { LoneLeaf(pages, levels, root); AbsentAlone(pages, root, levels[0], e); }
      KeptAsIs(pages, levels[0]);
      ghost var s, lv := pages, levels;
      ghost var start;
      r, start := InsertOptimistic(e, lo);
      assert lone && r == Ok(true) ==> !Crowded(s, lv[0][0], e);
      if r.Err? || r.value {
        assert r.Ok? ==> r == Ok(true);
        PromptEarly(s, lv, root, lo, |levels|, e, r);
        if r.Ok? {
          if HintsReach(s, lv[0]) { ReachingHintsNeverBlind(s, lv[0], start, e); }
          TailIs(s, lv[0], start, e);
          AttemptOutcome(s, lv, root, pages, start, e);
        } else {
          FailedOutcome(pages, levels, root, e, r);
        }
        return;
      }
      SomeCrowded(s, lv[0], e);
      r, lo' := InsertFull(e, start, lo);
    }

    /** The passes of an insert, until one is done or the budget is spent. */
    method InsertLoop(e: Entry, maxRestarts: nat, ghost lo: Lows) returns (r: Result<bool, IndexError>)
      requires Quiescent() && |e.key| <= MAX_INDEX_KEY_BYTES
      modifies this
      ensures Valid() && r != Err(TooLarge) && (r.Ok? ==> r == Ok(true))
      ensures Outcome(old(pages), old(levels), old(root), pages, levels, root, e, r)
      ensures Prompt(old(pages), old(levels), old(root), lo, |levels|, e, r)
      ensures Stuck(old(pages), old(levels), e) ==> r.Err? && pages == old(pages)
      ensures r.Ok? && old(Logged()) ==> Logged()
      ensures
        && Passable(old(pages), old(levels), lo) && Neat(old(pages), old(levels), old(root))
        && Newcomer(Flat(old(pages), old(levels)[0]), e) && |old(levels)[0]| + MOST_SPLITS <= LONG_CHAIN
        ==> && (r.Ok? ==> Quiescent() && Indexed(pages, levels, root))
            && (maxRestarts >= MOST_SPLITS ==>
                 r.Ok? || r == Err(Unsplittable) || (r == Err(Damaged) && |levels| > MAX_LEVEL))
    {
      hide TreeOk, AllocOk, Sorted, Flat, NoneOpen, Linked, Neat, Filled, FencedBy, Indexed, Newcomer, Closer, Chase,
           ChainOk, Retry, Passable, Outcome, Quick, Prompt, Stuck;
      KeptAsIs(pages, levels[0]);
      var restarts := 0;
      ghost var s0, lv0, root0, lo0 := pages, levels, root, lo;
      ghost var quick := Quick(pages, levels, lo, e);
      ghost var fits := Passable(pages, levels, lo) && Neat(pages, levels, root) && Newcomer(Flat(pages, levels[0]), e)
                        && |levels[0]| + MOST_SPLITS <= LONG_CHAIN;
      ghost var n: nat := 0;
      NewcomerAbsent(Flat(pages, levels[0]), e);
      if fits { n := StartHome(pages, levels, root, lo, e); }
      while true
        invariant Quiescent() && Retry(s0, lv0[0], pages, levels[0], e)
        invariant Neat(s0, lv0, root0) && e.key != [] ==> Neat(pages, levels, root)
        invariant quick ==> pages == s0 && levels == lv0 && root == root0 && lo0 == lo
        invariant Stuck(s0, lv0, e) ==> pages == s0 && levels == lv0
        invariant old(Logged()) ==> Logged()
        invariant fits ==> Chase(pages, levels, root, lo0, e.key, n, restarts)
        decreases maxRestarts - restarts
      {
        ghost var s1, lv1, lo1, root1 := pages, levels, lo0, root;
        if fits {
          ChaseMeans(pages, levels, root, lo0, e.key, n, restarts);
          RetryMeans(s0, lv0[0], s1, lv1[0], e);
        }
        r, lo0 := InsertPass(e, lo1);
        OutcomeAfter(s0, lv0, root0, s1, lv1, root1, pages, levels, root, e, r);
        OutcomeMeans(s1, lv1, root1, pages, levels, root, e, r);
        PromptMeans(s0, lv0, root0, lo, |levels|, e, r);
        if r.Err? || r.value {
          assert r.Ok? ==> r == Ok(true);
          if fits && r.Ok? {
            OutcomeInserted(s0, lv0, root0, pages, levels, root, e);
            StillIndexed(pages, levels, root, lo0, Flat(s0, lv0[0]), e);
          }
          return;
        }
        assert r == Ok(false);
        if fits { n := ChaseOn(s1, lv1, root1, pages, levels, root, lo1, lo0, e, n, restarts); }
        RetryTwice(s0, lv0[0], s1, lv1[0], pages, levels[0], e);
        restarts := restarts + 1;
        if restarts > maxRestarts {
          if fits { ChaseMeans(pages, levels, root, lo0, e.key, n, restarts); }
          OutcomeNone(s0, lv0, root0, pages, levels, root, e);
          PromptMeans(s0, lv0, root0, lo, |levels|, e, Err(Unsupported));
          return Err(Unsupported);
        }
      }
    }

    /** `insert_with_budget`. */
    method InsertEntry(key: seq<byte>, page: PageId, slot: nat, maxRestarts: nat) returns (r: Result<(), IndexError>)
      requires Quiescent()
      modifies this
      ensures Valid() && (r == Err(TooLarge) <==> |key| > MAX_INDEX_KEY_BYTES)
      ensures r.Ok? ==>
        && NoneOpen(pages, levels, 0)
        && Inserted(Flat(old(pages), old(levels)[0]), Flat(pages, levels[0]), Entry(key, page, slot))
      ensures
        && r.Ok? && HintsReach(old(pages), old(levels)[0])
        && Entry(key, page, slot) !in Flat(old(pages), old(levels)[0])
        ==> Quiescent()
      ensures
        && r.Ok? && HintsReach(old(pages), old(levels)[0])
        && Entry(key, page, slot) in Flat(old(pages), old(levels)[0])
        ==> IsTail(old(pages), old(levels)[0], Entry(key, page, slot))
      ensures r.Ok? && HintsSeen(old(pages), old(levels)[0]) ==> HintsSeen(pages, levels[0])
      ensures Neat(old(pages), old(levels), old(root)) && key != [] ==> Neat(pages, levels, root) && r != Err(NoRoom)
      ensures r.Ok? && old(Logged()) ==> Logged()
      ensures r.Err? ==> AtMostOnce(old(pages), old(levels)[0], pages, levels[0], Entry(key, page, slot))
      ensures r == Err(Duplicate) ==> Entry(key, page, slot) in Flat(old(pages), old(levels)[0])
      ensures r == Err(Unsplittable) ==> AnyWedged(old(pages), old(levels)[0], Entry(key, page, slot))
      ensures |old(levels)| == 1 && |old(levels)[0]| == 1 && Entry(key, page, slot) !in Flat(old(pages), old(levels)[0])
              && |key| <= MAX_INDEX_KEY_BYTES ==>
        r == if Wedged(old(pages), old(root), Entry(key, page, slot)) then Err(Unsplittable) else Ok(())
      ensures AllRoom(old(pages), old(levels)[0], Entry(key, page, slot)) ==>
        r.Ok? || r.error in {TooLarge, Duplicate, Damaged}
      ensures AllRoom(old(pages), old(levels)[0], Entry(key, page, slot)) && Walkable(old(pages), old(levels)) ==>
        r.Ok? || r.error in {TooLarge, Duplicate}
      ensures |old(levels)[0]| <= |levels[0]|
      ensures r.Ok? && Compact(old(pages), old(levels)[0]) ==> Compact(pages, levels[0])
      ensures
        && Indexed(old(pages), old(levels), old(root)) && |old(levels)[0]| + MOST_SPLITS <= LONG_CHAIN
        && Newcomer(Flat(old(pages), old(levels)[0]), Entry(key, page, slot))
        ==> && (r.Ok? ==> Quiescent() && Indexed(pages, levels, root))
            && (maxRestarts >= MOST_SPLITS && |key| <= MAX_INDEX_KEY_BYTES
                && !AnyWedged(old(pages), old(levels)[0], Entry(key, page, slot))
                ==> r.Ok? || (r == Err(Damaged) && |levels| > MAX_LEVEL))
      ensures
        && Neat(old(pages), old(levels), old(root)) && Fenced(old(pages), old(levels)) && |key| <= MAX_INDEX_KEY_BYTES
        && |old(levels)[0]| <= LONG_CHAIN && Inside(old(pages), old(levels)[0], Entry(key, page, slot))
        && Entry(key, page, slot) !in Flat(old(pages), old(levels)[0])
        && !AnyWedged(old(pages), old(levels)[0], Entry(key, page, slot))
        ==> r.Ok? || (r == Err(Damaged) && |levels| > MAX_LEVEL)
      ensures Stuck(old(pages), old(levels), Entry(key, page, slot)) ==> r.Err? && pages == old(pages)
    {
      hide TreeOk, AllocOk, Sorted, Flat, NoneOpen, Inserted, Linked, HintsReach, HintsSeen, AnyWedged, Neat, IsTail,
           Filled, Indexed, Newcomer, Walkable, ChainOk, Compact, AtMostOnce, AllRoom, Inside, Fenced, Passable,
           Stuck;
      if |key| > MAX_INDEX_KEY_BYTES {
        KeptAsIs(pages, levels[0]);
        return Err(TooLarge);
      }
      ghost var lo: Lows := map[];
      if Neat(pages, levels, root) && Fenced(pages, levels) { lo := SomeRanges(pages, levels, root); }
      IndexedMeans(pages, levels, root);
      var done := InsertLoop(Entry(key, page, slot), maxRestarts, lo);
      assert done.Ok? ==> done == Ok(true);
      r := if done.Ok? then Ok(()) else Err(done.error);
    }

    /** Any number of inserts one after the other. */
    method InsertAll(entries: seq<Entry>, maxRestarts: nat) returns (r: Result<(), IndexError>)
      requires Quiescent() && HintsSeen(pages, levels[0])
      requires forall i, j :: 0 <= i < j < |entries| ==> entries[i] != entries[j]
      requires forall i :: 0 <= i < |entries| ==> entries[i] !in Flat(pages, levels[0])
      modifies this
      ensures Valid()
      ensures r.Ok? ==> Quiescent() && HintsSeen(pages, levels[0]) && (old(Logged()) ==> Logged())
      ensures r.Ok? ==> Gained(Flat(old(pages), old(levels)[0]), Flat(pages, levels[0]), entries, |entries|)
      ensures Neat(old(pages), old(levels), old(root)) && (forall i :: 0 <= i < |entries| ==> entries[i].key != []) ==>
        Neat(pages, levels, root)
      ensures
        && Indexed(old(pages), old(levels), old(root)) && Compact(old(pages), old(levels)[0])
        && AllNew(Flat(old(pages), old(levels)[0]), entries) && maxRestarts >= MOST_SPLITS
        ==> || (r.Ok? && Indexed(pages, levels, root) && Compact(pages, levels[0]))
            || |levels[0]| + MOST_SPLITS > LONG_CHAIN || (r == Err(Damaged) && |levels| > MAX_LEVEL)
    {
      hide TreeOk, AllocOk, Sorted, Flat, NoneOpen, Inserted, Linked, HintsReach, HintsSeen, Neat, ChainOk, Indexed,
           Compact, AllNew, Newcomer, AnyWedged, Gained, Walkable, AllRoom, Filled;
      SomeLevels(pages, levels, root);
      ghost var flat := Flat(pages, levels[0]);
      ghost var fits := Indexed(pages, levels, root) && Compact(pages, levels[0]) && AllNew(flat, entries)
                        && maxRestarts >= MOST_SPLITS;
      NothingGained(flat, entries);
      for k := 0 to |entries|
        invariant Quiescent() && |levels| > 0 && HintsSeen(pages, levels[0]) && (old(Logged()) ==> Logged())
        invariant Gained(flat, Flat(pages, levels[0]), entries, k)
        invariant
          && Neat(old(pages), old(levels), old(root)) && (forall i :: 0 <= i < |entries| ==> entries[i].key != [])
          ==> Neat(pages, levels, root)
        invariant fits ==>
          (Indexed(pages, levels, root) && Compact(pages, levels[0])) || |levels[0]| + MOST_SPLITS > LONG_CHAIN
      {
        ghost var was := Flat(pages, levels[0]);
        SeenHintsReach(pages, levels[0]);
        NotGainedYet(flat, was, entries, k);
        if fits && Indexed(pages, levels, root) { NextNewcomer(pages, levels, root, flat, entries, k); }
        if Compact(pages, levels[0]) { CompactNotWedged(pages, levels, root, entries[k]); }
        r := InsertEntry(entries[k].key, entries[k].ptr, entries[k].sub, maxRestarts);
        if r.Err? {
          return;
        }
        SomeLevels(pages, levels, root);
        GainedMore(flat, was, Flat(pages, levels[0]), entries, k);
      }
      r := Ok(());
    }

    /** `delete`: an entry that is not there is an error; the re-validation under the write latch finds the page as the
        walk left it. The entry's bytes stay on the page. */
    method DeleteEntry(key: seq<byte>, page: PageId, slot: nat) returns (r: Result<(), IndexError>)
      requires Quiescent()
      modifies `pages, `wal
      ensures Quiescent() && (old(Logged()) ==> Logged())
      ensures r.Ok? ==> Removed(Flat(old(pages), levels[0]), Flat(pages, levels[0]), Entry(key, page, slot))
      ensures r.Err? ==> pages == old(pages) && r.error in {NotFound, Damaged}
      ensures r == Err(NotFound) ==> Entry(key, page, slot) !in Flat(old(pages), levels[0])
      ensures r == Err(Damaged) ==> (|levels| > 1 || |levels[0]| > SHORT_CHAIN) && !Walkable(old(pages), levels)
      ensures Walkable(old(pages), levels) ==> (r.Ok? <==> Entry(key, page, slot) in Flat(old(pages), levels[0]))
      ensures Neat(old(pages), levels, root) ==> Neat(pages, levels, root)
      ensures Fenced(old(pages), levels) ==> Fenced(pages, levels)
      ensures Indexed(old(pages), levels, root) ==> Indexed(pages, levels, root)
    {
      hide TreeOk, AllocOk, Sorted, Flat, NoneOpen, Linked, PositionAt, Neat, Removed, Filled, Fenced, Walkable;
      SomeLevels(pages, levels, root);
      ghost var s := pages;
      var e := Entry(key, page, slot);
      var leaf; ghost var at;
      leaf, at := DescendToLocate(pages, levels, root, e);
      if leaf.Err? {
        return Err(Damaged);
      }
      PositionIndex(pages, levels[0], at, e);
      PageAt(pages, levels, root, 0, at);
      var es := At(pages, leaf.value).entries;
      var pos := LowerBound(es, e);
      if pos >= |es| || es[pos] != e {
        AbsentFrom(es, e, pos);
        AbsentEverywhere(pages, levels[0], at, e);
        return Err(NotFound);
      }
      LeafDeleteKeeps(pages, levels, root, at, pos, LsnOf(|wal|));
      Write(Delete(leaf.value, pos));
      FlatMember(s, levels[0], e);
      LeafDeleted(s, pages, levels, root, at, pos);
      LeafFilled(s, pages, levels, root, at);
      DeleteFenced(s, pages, levels, root, at, pos);
      RemovedStrict(Flat(s, levels[0]), Flat(pages, levels[0]), e);
      r := Ok(());
    }
  }

  // ---------------------------------------------------------------- ranges across a Commit

  /** The path leads from the root to the page, and the separators above it are in order. */
  ghost predicate Committable(pages: Pages, levels: Levels, root: PageId, l: nat, stack: seq<PageId>, p: PageId) {
    StackLinked(pages, stack, root) && LinkedFrom(pages, stack, root, p) && InnerSorted(pages, levels, l)
  }

  /** A split ready for its Commit: in a tree in order, cut clean, the separator its right half's first key. */
  ghost predicate Ripe(s: Pages, levels: Levels, root: PageId, lo: Lows, l: nat, i: nat, sep: seq<byte>) {
    && l < |levels| && FencedBy(s, levels, lo) && Neat(s, levels, root) && Halfway(s, levels[l], i)
    && CleanCut(s, levels[l][i], levels[l][i + 1]) && StartsWith(EntriesOf(s, levels[l][i + 1]), sep)
  }

  lemma RipeParts(s: Pages, levels: Levels, root: PageId, lo: Lows, l: nat, i: nat, sep: seq<byte>)
    requires TreeOk(s, levels, root) && Ripe(s, levels, root, lo, l, i, sep)
    ensures i + 1 < |levels[l]| && levels[l][i + 1] == At(s, levels[l][i]).next
    ensures FencedBy(s, levels, lo) && Neat(s, levels, root) && StartsWith(EntriesOf(s, levels[l][i + 1]), sep)
    ensures sep != []
  {
    TwinNext(s, levels, root, l, i);
    hide TreeOk, FencedBy, Neat;
    KeyedCut(s, levels[l], i);
  }

  lemma CleanIsRipe(s: Pages, levels: Levels, root: PageId, lo: Lows, l: nat, i: nat, sep: seq<byte>)
    requires l < |levels| && i + 1 < |levels[l]|
    ensures
      && Neat(s, levels, root) && FencedBy(s, levels, lo) && Halfway(s, levels[l], i)
      && StartsWith(EntriesOf(s, levels[l][i + 1]), sep) && CleanCut(s, levels[l][i], levels[l][i + 1])
      ==> Ripe(s, levels, root, lo, l, i, sep)
  {
  }

  /** With its downlink in place a split whose cut was not clean leaves no bounds that fit. */
  lemma FencesTell(s: Pages, levels: Levels, s': Pages, levels': Levels, l: nat, i: nat, sep: seq<byte>, lo': Lows)
    requires UntouchedUpTo(s, levels, s', levels', l) && i + 1 < |levels[l]|
    requires HasLink(s', levels', l, Entry(sep, levels[l][i + 1], 0))
    ensures StartsWith(EntriesOf(s, levels[l][i + 1]), sep) && Fenced(s', levels') ==>
      CleanCut(s, levels[l][i], levels[l][i + 1])
    ensures FencedBy(s', levels', lo') ==> Fenced(s', levels')
  {
    if StartsWith(EntriesOf(s, levels[l][i + 1]), sep) && Fenced(s', levels') {
      var lo :| FencedBy(s', levels', lo);
      var p :| p in levels'[l + 1] && Entry(sep, levels[l][i + 1], 0) in EntriesOf(s', p);
      var j :| 0 <= j < |levels'[l + 1]| && levels'[l + 1][j] == p;
      var x :| 0 <= x < |EntriesOf(s', p)| && EntriesOf(s', p)[x] == Entry(sep, levels[l][i + 1], 0);
      assert SameBody(At(s', levels[l][i]), At(s, levels[l][i]));
      assert SameBody(At(s', levels[l][i + 1]), At(s, levels[l][i + 1]));
      hide FencedBy;
      FencedCutsClean(s', levels', lo, l, i, j, x);
    }
  }

  /** Pages of the tree keep their bounds, the right half apart. */
  ghost predicate Extends(lo: Lows, lo': Lows, levels: Levels, right: PageId) {
    forall m, x :: 0 <= m < |levels| && 0 <= x < |levels[m]| && levels[m][x] != right ==>
      && (levels[m][x] in lo' <==> levels[m][x] in lo) && (levels[m][x] in lo ==> lo'[levels[m][x]] == lo[levels[m][x]])
  }

  lemma OneMore(lo: Lows, levels: Levels, right: PageId, sep: seq<byte>)
    ensures Extends(lo, lo[right := sep], levels, right)
  {
  }

  lemma TwoMore(lo: Lows, levels: Levels, top: PageId, right: PageId, sep: seq<byte>)
    requires Unused(levels, top)
    ensures Extends(lo, lo[top := []][right := sep], levels, right)
  {
    forall m, x | 0 <= m < |levels| && 0 <= x < |levels[m]| ensures levels[m][x] != top { }
  }

  lemma ExtendsTwice(lo: Lows, lo2: Lows, lv0: Levels, lv1: Levels, twin: PageId, right: PageId, sep: seq<byte>, l: nat,
                     j: nat)
    requires Extends(lo - {twin}, lo2, lv1, twin) && Unused(lv0, twin) && l < |lv0| && j < |lv0[l]|
    requires lv1 == lv0[l := Spliced(lv0[l], j, twin)]
    ensures Extends(lo, lo2[right := sep], lv0, right)
  {
    forall m, x | 0 <= m < |lv0| && 0 <= x < |lv0[m]| && lv0[m][x] != right
      ensures (lv0[m][x] in lo2[right := sep] <==> lv0[m][x] in lo)
      ensures lv0[m][x] in lo ==> lo2[right := sep][lv0[m][x]] == lo[lv0[m][x]]
    {
      var p := lv0[m][x];
      assert p != twin;
      if m == l {
        SplicedMember(lv0[l], j, twin, p);
        var y :| 0 <= y < |lv1[l]| && lv1[l][y] == p;
      } else {
        assert lv1[m][x] == p;
      }
    }
  }

  /** The right half is the next page of the chain. */
  lemma TwinNext(s: Pages, levels: Levels, root: PageId, l: nat, i: nat)
    requires TreeOk(s, levels, root) && l < |levels| && i < |levels[l]| && Open(s, levels[l][i])
    ensures i + 1 < |levels[l]| && levels[l][i + 1] == At(s, levels[l][i]).next
  {
    PageAt(s, levels, root, l, i);
    NeighboursApart(s, levels, root, l);
    NextOf(s, levels[l], i);
  }

  lemma CommitRanges(s: Pages, levels: Levels, root: PageId, lo: Lows, l: nat, i: nat, j: nat, slot: nat,
                     sep: seq<byte>, right: PageId, s': Pages)
    requires TreeOk(s, levels, root) && Filled(s, levels) && l + 1 < |levels| && i < |levels[l]| && j < |levels[l + 1]|
    requires Committed(At(s, levels[l][i]), At(s, levels[l + 1][j]), slot, sep, right, At(s', levels[l][i]),
      At(s', levels[l + 1][j]))
    requires s' == s[levels[l + 1][j] := At(s', levels[l + 1][j])][levels[l][i] := At(s', levels[l][i])]
    requires l > 0 ==> EntriesOf(s, right) != []
    ensures Filled(s', levels) && HasLink(s', levels, l, Entry(sep, right, 0))
    ensures
      && FencedBy(s, levels, lo) && CommitInRange(s, levels, lo, l, i, j, slot) && StartsWith(EntriesOf(s, right), sep)
      ==> FencedBy(s', levels, lo[right := sep])
  {
    hide TreeOk, Filled, FencedBy, CommitInRange, Bytes;
    TwinNext(s, levels, root, l, i);
    TreeApart(s, levels, root, l + 1, l, j);
    var left, parent, e := levels[l][i], levels[l + 1][j], Entry(sep, right, 0);
    assert left != parent;
    CommitIsWritten(s, left, parent, slot, sep, right, At(s', left), At(s', parent));
    hide Committed;
    CommitFilled(s, levels, root, l, i, j, slot, e, s');
    assert EntriesOf(s', parent)[slot] == e;
    if FencedBy(s, levels, lo) && CommitInRange(s, levels, lo, l, i, j, slot) && StartsWith(EntriesOf(s, right), sep) {
      CommitFenced(s, levels, root, lo, l, i, j, slot, s');
    }
  }

  lemma PointedAt(es: seq<Entry>, q: PageId) returns (x: nat)
    requires Points(es, q)
    ensures x < |es| && es[x].ptr == q
  {
    x :| 0 <= x < |es| && es[x].ptr == q;
  }

  /** A parent that names the left half, and the separator's slot on it. */
  lemma DirectReady(s: Pages, levels: Levels, root: PageId, lo: Lows, l: nat, i: nat, j: nat, slot: nat, sep: seq<byte>)
    requires TreeOk(s, levels, root) && Filled(s, levels) && Ripe(s, levels, root, lo, l, i, sep)
    requires l + 1 < |levels| && j < |levels[l + 1]| && Points(EntriesOf(s, levels[l + 1][j]), levels[l][i])
    requires OnlyOpen(s, levels, l, levels[l][i])
    requires IsLowerBound(EntriesOf(s, levels[l + 1][j]), Entry(sep, levels[l][i + 1], 0), slot) ||
             !Sorted(EntriesOf(s, levels[l + 1][j]))
    ensures CommitInRange(s, levels, lo, l, i, j, slot)
  {
    var x := PointedAt(EntriesOf(s, levels[l + 1][j]), levels[l][i]);
    NeatSorted(s, levels, root, l + 1, j);
    assert !IsTwin(s, levels[l + 1], j) by {
      if j > 0 { TreeApart(s, levels, root, l + 1, l, j - 1); assert levels[l][i] in levels[l]; }
    }
    hide TreeOk, Filled, Neat, Sorted, IsLowerBound, Points;
    ReadyToCommit(s, levels, root, lo, l, i, j, x, slot);
  }

  /** Splitting a page changes no page further up the path. */
  lemma StackKept(s0: Pages, lv0: Levels, s1: Pages, lv1: Levels, root: PageId, l: nat, j: nat, twin: PageId, k: nat,
                  rest: seq<PageId>)
    requires TreeOk(s0, lv0, root) && SplitStep(s0, lv0, s1, lv1, l, j, twin, k) && PathAbove(rest, lv0, l)
    ensures StackLinked(s0, rest, root) ==> StackLinked(s1, rest, root)
    ensures forall p :: LinkedFrom(s0, rest, root, p) ==> LinkedFrom(s1, rest, root, p)
  {
    hide TreeOk, Halved;
    forall x | 0 <= x < |rest| ensures EntriesOf(s1, rest[x]) == EntriesOf(s0, rest[x]) {
      var m := |lv0| - 1 - x;
      SplitElsewhere(s0, lv0, s1, lv1, root, l, j, twin, k, m);
      var y :| 0 <= y < |lv0[m]| && lv0[m][y] == rest[x];
    }
    if StackLinked(s0, rest, root) {
      forall x | 0 <= x < |rest| ensures LinkedFrom(s1, rest[..x], root, rest[x]) {
        assert LinkedFrom(s0, rest[..x], root, rest[x]);
      }
    }
  }

  lemma StackTop(pages: Pages, stack: seq<PageId>, root: PageId)
    requires stack != []
    ensures StackLinked(pages, stack, root) ==>
      && StackLinked(pages, stack[..|stack| - 1], root)
      && LinkedFrom(pages, stack[..|stack| - 1], root, stack[|stack| - 1])
  {
    if StackLinked(pages, stack, root) {
      var rest := stack[..|stack| - 1];
      assert LinkedFrom(pages, stack[..|stack| - 1], root, stack[|stack| - 1]);
      forall k | 0 <= k < |rest| ensures LinkedFrom(pages, rest[..k], root, rest[k]) {
        assert rest[..k] == stack[..k] && LinkedFrom(pages, stack[..k], root, stack[k]);
      }
    }
  }

  /** A parent cut in two is ready for its own Commit: separators of one page differ. */
  lemma RipeAbove(s0: Pages, lv0: Levels, s1: Pages, lv1: Levels, root: PageId, lo: Lows, l: nat, i: nat, j: nat,
                  twin: PageId, k: nat, sep: seq<byte>)
    requires TreeOk(s0, lv0, root) && TreeOk(s1, lv1, root) && Ripe(s0, lv0, root, lo, l, i, sep) && l + 1 < |lv0|
    requires SplitStep(s0, lv0, s1, lv1, l + 1, j, twin, k) && Neat(s1, lv1, root)
    requires FencedBy(s1, lv1, lo - {twin}) && OnlyOpen(s1, lv1, l + 1, lv0[l + 1][j])
    requires j + 1 < |lv1[l + 1]| && lv1[l + 1][j] == lv0[l + 1][j] && lv1[l + 1][j + 1] == twin
    ensures At(s1, twin).Page? && At(s1, twin).entries != []
    ensures Ripe(s1, lv1, root, lo - {twin}, l + 1, j, At(s1, twin).entries[0].key)
  {
    hide TreeOk, Neat, Sorted, FencedBy, Strict, AllUnder, KeysUp, Bytes;
    var es := EntriesOf(s0, lv0[l + 1][j]);
    NeatSorted(s0, lv0, root, l + 1, j);
    NeatSorted(s1, lv1, root, l + 1, j + 1);
    InnerStrict(s0, lv0, root, lo, l + 1, j);
    StrictCut(es, k);
    SortedUp(EntriesOf(s1, twin));
    LevelNoDup(s1, lv1, root, l + 1);
    assert EntriesOf(s1, lv0[l + 1][j]) == es[..k] && EntriesOf(s1, twin) == es[k..] && es[k..][0] == es[k];
    assert Halfway(s1, lv1[l + 1], j);
  }

  lemma AllRipeAbove(s0: Pages, lv0: Levels, s1: Pages, lv1: Levels, root: PageId, l: nat, i: nat, j: nat, twin: PageId,
                     k: nat, sep: seq<byte>)
    requires TreeOk(s0, lv0, root) && TreeOk(s1, lv1, root) && l + 1 < |lv0|
    requires SplitStep(s0, lv0, s1, lv1, l + 1, j, twin, k) && OnlyOpen(s1, lv1, l + 1, lv0[l + 1][j])
    requires Neat(s0, lv0, root) ==> Neat(s1, lv1, root)
    requires forall lo :: FencedBy(s0, lv0, lo) ==> FencedBy(s1, lv1, lo - {twin})
    requires j + 1 < |lv1[l + 1]| && lv1[l + 1][j] == lv0[l + 1][j] && lv1[l + 1][j + 1] == twin
    requires At(s1, twin).Page? && At(s1, twin).entries != []
    ensures forall lo :: Ripe(s0, lv0, root, lo, l, i, sep) ==>
      Ripe(s1, lv1, root, lo - {twin}, l + 1, j, At(s1, twin).entries[0].key)
  {
    hide TreeOk, SplitStep, OnlyOpen, Neat, FencedBy, Ripe;
    forall lo | Ripe(s0, lv0, root, lo, l, i, sep)
      ensures Ripe(s1, lv1, root, lo - {twin}, l + 1, j, At(s1, twin).entries[0].key)
    {
      RipeParts(s0, lv0, root, lo, l, i, sep);
      RipeAbove(s0, lv0, s1, lv1, root, lo, l, i, j, twin, k, sep);
    }
  }

  /** Back at the pair, the half of the parent the comparison picks is the one that names the left page. */
  lemma RipeBack(s0: Pages, lv0: Levels, s1: Pages, lv1: Levels, s2: Pages, lv2: Levels, root: PageId, root2: PageId,
                 lo: Lows, lo2: Lows, l: nat, i: nat, j: nat, twin: PageId, k: nat, slot: nat, sep: seq<byte>)
    requires TreeOk(s0, lv0, root) && TreeOk(s2, lv2, root2) && Filled(s2, lv2) && Ripe(s0, lv0, root, lo, l, i, sep)
    requires l + 1 < |lv0| && SplitStep(s0, lv0, s1, lv1, l + 1, j, twin, k)
    requires UntouchedUpTo(s0, lv0, s2, lv2, l) && SamePages(s0, s2, lv0[l])
    requires Points(EntriesOf(s0, lv0[l + 1][j]), lv0[l][i])
    requires FencedBy(s2, lv2, lo2) && Neat(s2, lv2, root2) && NoneOpen(s2, lv2, l + 1)
    requires l + 1 < |lv2| && j + 1 < |lv2[l + 1]| && lv2[l + 1][j] == lv0[l + 1][j] && lv2[l + 1][j + 1] == twin
    requires SameBody(At(s2, lv0[l + 1][j]), At(s1, lv0[l + 1][j])) && SameBody(At(s2, twin), At(s1, twin))
    requires At(s1, twin).Page? && At(s1, twin).entries != []
    requires var e := Entry(sep, lv0[l][i + 1], 0);
      var t := if Less(e, At(s1, twin).entries[0]) then j else j + 1;
      IsLowerBound(EntriesOf(s2, lv2[l + 1][t]), e, slot)
    ensures var t := if Less(Entry(sep, lv0[l][i + 1], 0), At(s1, twin).entries[0]) then j else j + 1;
      CommitInRange(s2, lv2, lo2, l, i, t, slot)
  {
    hide TreeOk, Filled, FencedBy, Neat, Bytes, Sorted, NoneOpen, UntouchedUpTo;
    SameLevel(s0, lv0, s2, lv2, l);
    RipeStays(s0, s2, lv0[l], i);
    var e, first := Entry(sep, lv0[l][i + 1], 0), At(s1, twin).entries[0];
    var t := if Less(e, first) then j else j + 1;
    var es := EntriesOf(s0, lv0[l + 1][j]);
    assert EntriesOf(s2, lv0[l + 1][j]) == es[..k] && EntriesOf(s2, twin) == es[k..];
    var x := PointedAt(es, lv0[l][i]);
    var d := if x < k then j else j + 1;
    var y := if x < k then x else x - k;
    assert EntriesOf(s2, lv2[l + 1][d])[y].ptr == lv2[l][i];
    ParentInRange(s2, lv2, root2, lo2, l, i, d, y);
    TargetIs(s2, lv2, lo2, l, j, d, sep, lv0[l][i + 1]);
    assert d == t;
    NotTwin(s2, lv2, l + 1, t);
    ReadyToCommit(s2, lv2, root2, lo2, l, i, t, y, slot);
  }

  lemma SameLevel(s0: Pages, lv0: Levels, s2: Pages, lv2: Levels, l: nat)
    requires UntouchedUpTo(s0, lv0, s2, lv2, l)
    ensures l < |lv0| <= |lv2| && lv2[l] == lv0[l]
  {
  }

  lemma NotTwin(s: Pages, levels: Levels, l: nat, t: nat)
    requires NoneOpen(s, levels, l) && l < |levels| && t < |levels[l]|
    ensures !IsTwin(s, levels[l], t)
  {
  }

  lemma RipeStays(s: Pages, s': Pages, chain: seq<PageId>, i: nat)
    requires Halfway(s, chain, i) && SamePages(s, s', chain)
    ensures Halfway(s', chain, i) && (CleanCut(s, chain[i], chain[i + 1]) ==> CleanCut(s', chain[i], chain[i + 1]))
    ensures EntriesOf(s', chain[i + 1]) == EntriesOf(s, chain[i + 1])
  {
  }

  /** The new root names the old one, and the separator goes behind it. */
  lemma TopReady(s0: Pages, lv0: Levels, left: PageId, s: Pages, levels: Levels, top: PageId, lo: Lows, l: nat, i: nat,
                 lsn: nat, sep: seq<byte>)
    requires TreeOk(s, levels, top) && Filled(s, levels) && Ripe(s0, lv0, left, lo, l, i, sep) && l + 1 == |lv0|
    requires lv0[l][i] == left && Unused(lv0, top) && levels == lv0 + [[top]]
    requires s == s0[top := NewRootPage(l + 1, left, lsn)] && FencedBy(s, levels, lo[top := []])
    requires Neat(s, levels, top) && OnlyOpen(s0, lv0, l, left)
    ensures CommitInRange(s, levels, lo[top := []], l, i, 0, 1)
  {
    hide TreeOk, Filled, FencedBy, Neat;
    assert SamePages(s0, s, lv0[l]);
    RipeStays(s0, s, lv0[l], i);
    assert levels[l + 1] == [top] && EntriesOf(s, top) == [Entry([], left, 0)];
    KeyedCut(s, levels[l], i);
    ReadyToCommit(s, levels, top, lo[top := []], l, i, 0, 0, 1);
  }

  lemma KeyedCut(s: Pages, chain: seq<PageId>, i: nat)
    requires Halfway(s, chain, i) && CleanCut(s, chain[i], chain[i + 1])
    ensures EntriesOf(s, chain[i + 1])[0].key != []
  {
    assert KeyLess(EntriesOf(s, chain[i])[0].key, EntriesOf(s, chain[i + 1])[0].key);
  }

  lemma RightUntouched(s0: Pages, levels: Levels, root: PageId, l: nat, i: nat, s: Pages, top: PageId, lsn: nat)
    requires TreeOk(s0, levels, root) && l + 1 == |levels| && i < |levels[l]| && Open(s0, levels[l][i])
    requires Unused(levels, top) && s == s0[top := NewRootPage(l + 1, levels[l][i], lsn)]
    ensures EntriesOf(s, At(s0, levels[l][i]).next) == EntriesOf(s0, At(s0, levels[l][i]).next)
  {
    TwinNext(s0, levels, root, l, i);
    assert levels[l][i + 1] in levels[l];
  }

  lemma RightKept(s0: Pages, lv0: Levels, s1: Pages, lv1: Levels, s2: Pages, lv2: Levels, root: PageId, l: nat, i: nat,
                  j: nat, twin: PageId, k: nat)
    requires TreeOk(s0, lv0, root) && l + 1 < |lv0| && i < |lv0[l]| && Open(s0, lv0[l][i])
    requires SamePages(s0, s1, lv0[l]) && UntouchedUpTo(s0, lv0, s1, lv1, l) && UntouchedUpTo(s1, lv1, s2, lv2, l + 1)
    ensures SamePages(s0, s2, lv0[l])
    ensures EntriesOf(s2, At(s0, lv0[l][i]).next) == EntriesOf(s0, At(s0, lv0[l][i]).next)
  {
    TwinNext(s0, lv0, root, l, i);
    hide TreeOk;
    assert SamePages(s1, s2, lv1[l]) && lv1[l] == lv0[l];
    assert At(s2, lv0[l][i + 1]) == At(s0, lv0[l][i + 1]);
  }

  // ---------------------------------------------------------------- the leaf a key belongs to

  ghost predicate FreshKey(es: seq<Entry>, key: seq<byte>) {
    forall x :: 0 <= x < |es| ==> es[x].key != key
  }

  /** A new key for a sequence of distinct keys. */
  ghost predicate Newcomer(flat: seq<Entry>, e: Entry) {
    e.key != [] && Strict(flat) && FreshKey(flat, e.key)
  }

  lemma NewcomerAbsent(flat: seq<Entry>, e: Entry)
    ensures Newcomer(flat, e) ==> e !in flat && e.key != []
  {
  }

  /** In order, with ranges, and no key twice. */
  ghost predicate Indexed(pages: Pages, levels: Levels, root: PageId) {
    |levels| > 0 && Neat(pages, levels, root) && Fenced(pages, levels) && Strict(Flat(pages, levels[0]))
  }

  /** The pair sorts between two entries of one leaf. */
  ghost predicate Inside(pages: Pages, chain: seq<PageId>, e: Entry) {
    exists at, x, y ::
      && 0 <= at < |chain| && 0 <= x < |EntriesOf(pages, chain[at])| && 0 <= y < |EntriesOf(pages, chain[at])|
      && Less(EntriesOf(pages, chain[at])[x], e) && Less(e, EntriesOf(pages, chain[at])[y])
  }

  lemma EdgeNotInside(s: Pages, levels: Levels, lo: Lows, at: nat, e: Entry)
    requires |levels| > 0 && Passable(s, levels, lo) && Covers(levels[0], lo, at, e.key)
    requires AllAbove(EntriesOf(s, levels[0][at]), e)
    ensures !Inside(s, levels[0], e)
  {
    hide Covers, LevelFenced, Filled, InnerSorted;
    assert LevelFenced(s, levels[0], 0, lo);
    RangeIsPosition(s, levels[0], lo, at, e);
    hide FencedBy, Less;
    var chain := levels[0];
    forall i, x, y | 0 <= i < |chain| && 0 <= x < |EntriesOf(s, chain[i])| && 0 <= y < |EntriesOf(s, chain[i])|
      ensures !Less(EntriesOf(s, chain[i])[x], e) || !Less(e, EntriesOf(s, chain[i])[y])
    {
      LessTotal(e, EntriesOf(s, chain[i])[x]);
      LessTotal(e, EntriesOf(s, chain[i])[y]);
    }
  }

  /** The leaf has the new key in its range. */
  ghost predicate Homely(pages: Pages, levels: Levels, root: PageId, lo: Lows, at: nat, e: Entry) {
    && |levels| > 0 && Neat(pages, levels, root) && FencedBy(pages, levels, lo) && NoneOpen(pages, levels, 0)
    && Covers(levels[0], lo, at, e.key) && Newcomer(EntriesOf(pages, levels[0][at]), e)
  }

  /** The leaf split in half, the key in the range of the left half. */
  ghost predicate Narrowed(s: Pages, levels: Levels, s': Pages, levels': Levels, lo': Lows, at: nat, e: Entry) {
    && |levels| > 0 && |levels'| > 0 && at < |levels[0]| && |levels'[0]| == |levels[0]| + 1
    && levels'[0][at] == levels[0][at] && FencedBy(s', levels', lo') && Covers(levels'[0], lo', at, e.key)
    && |EntriesOf(s', levels[0][at])| == |EntriesOf(s, levels[0][at])| / 2
  }

  /** A leaf cut clean, its Commit outstanding, the new key in the range the halves share. */
  ghost predicate Pending(s: Pages, levels: Levels, root: PageId, lo: Lows, at: nat, e: Entry) {
    && |levels| > 0 && Neat(s, levels, root) && FencedBy(s, levels, lo) && Halfway(s, levels[0], at)
    && CleanCut(s, levels[0][at], levels[0][at + 1]) && e.key != []
    && Covers(levels[0], lo, at, e.key) && Covers(levels[0], lo, at + 1, e.key)
    && FreshKey(EntriesOf(s, levels[0][at]), e.key) && FreshKey(EntriesOf(s, levels[0][at + 1]), e.key)
  }

  /** The leaf with the key in its range has at most `n` entries. */
  ghost predicate HomeHas(s: Pages, levels: Levels, lo: Lows, key: seq<byte>, n: nat) {
    |levels| > 0 && exists at: nat :: Covers(levels[0], lo, at, key) && |EntriesOf(s, levels[0][at])| <= n
  }

  /** One more leaf, and the key's leaf has half the entries. */
  ghost predicate Closer(s: Pages, levels: Levels, s': Pages, levels': Levels, lo: Lows, lo': Lows, e: Entry) {
    && |levels| > 0 && |levels'| > 0 && Passable(s', levels', lo') && |levels'[0]| == |levels[0]| + 1
    && forall n: nat :: HomeHas(s, levels, lo, e.key, n) ==> n >= 2 && HomeHas(s', levels', lo', e.key, n / 2)
  }

  function Halvings(n: nat): nat {
    if n <= 1 then 0 else 1 + Halvings(n / 2)
  }

  /** A page has less than 2^11 line pointers, so a leaf is halved at most ten times. */
  const MOST_SPLITS: nat := 10

  lemma HalvesLeft(n: nat)
    ensures n >= 2 ==> Halvings(n / 2) + 1 == Halvings(n)
  {
  }

  function Power(k: nat): nat {
    if k == 0 then 1 else 2 * Power(k - 1)
  }

  lemma {:induction false} FewHalvings(n: nat, k: nat)
    requires n < Power(k + 1)
    ensures Halvings(n) <= k
    decreases k
  {
    if n > 1 && k > 0 {
      FewHalvings(n / 2, k - 1);
    }
  }

  lemma PageHalvings(pg: Page, p: PageId, l: nat, root: PageId)
    requires PageOk(pg, p, l, root)
    ensures Halvings(|pg.entries|) <= MOST_SPLITS
  {
    assert Power(3) == 8 && Power(5) == 4 * Power(3) && Power(7) == 4 * Power(5) && Power(9) == 4 * Power(7);
    assert Power(11) == 4 * Power(9);
    FewHalvings(|pg.entries|, 10);
  }

  lemma LeafFences(s: Pages, s': Pages, levels: Levels, root: PageId, at: nat, slot: nat, e: Entry)
    requires TreeOk(s, levels, root) && |levels| > 0 && at < |levels[0]| && InsertedInto(s, s', levels[0], at, slot, e)
    requires s' == s[levels[0][at] := At(s', levels[0][at])]
    requires Open(s', levels[0][at]) <==> Open(s, levels[0][at])
    ensures forall lo :: FencedBy(s, levels, lo) && Covers(levels[0], lo, at, e.key) ==> FencedBy(s', levels, lo)
  {
    forall lo | FencedBy(s, levels, lo) && Covers(levels[0], lo, at, e.key) ensures FencedBy(s', levels, lo) {
      LeafInRange(s, s', levels, lo, at, slot, e);
      hide TreeOk, FencedBy, Covers;
      LeafFenced(s, s', levels, root, lo, at);
    }
  }

  lemma LeafInRange(s: Pages, s': Pages, levels: Levels, lo: Lows, at: nat, slot: nat, e: Entry)
    requires |levels| > 0 && at < |levels[0]| && InsertedInto(s, s', levels[0], at, slot, e)
    requires FencedBy(s, levels, lo) && Covers(levels[0], lo, at, e.key)
    ensures forall x :: 0 <= x < |EntriesOf(s', levels[0][at])| ==>
      Covers(levels[0], lo, at, EntriesOf(s', levels[0][at])[x].key)
  {
    hide Covers;
    assert LevelFenced(s, levels[0], 0, lo);
    var es, es' := EntriesOf(s, levels[0][at]), EntriesOf(s', levels[0][at]);
    hide LevelFenced;
    forall x | 0 <= x < |es'| ensures Covers(levels[0], lo, at, es'[x].key) {
      if x != slot {
        var y := if x < slot then x else x - 1;
        assert es'[x] == es[y];
        HeldInRange(s, levels[0], 0, lo, at, y);
      }
    }
  }

  lemma DeleteFenced(s: Pages, s': Pages, levels: Levels, root: PageId, at: nat, slot: nat)
    requires TreeOk(s, levels, root) && |levels| > 0 && at < |levels[0]| && At(s, levels[0][at]).Page?
    requires slot < |EntriesOf(s, levels[0][at])| && RemoveEntryAt(At(s, levels[0][at]), slot).Ok?
    requires s' == s[levels[0][at] := At(s', levels[0][at])]
    requires SameContent(At(s', levels[0][at]), RemoveEntryAt(At(s, levels[0][at]), slot).value)
    ensures Fenced(s, levels) ==> Fenced(s', levels)
  {
    if Fenced(s, levels) {
      var lo :| FencedBy(s, levels, lo);
      assert LevelFenced(s, levels[0], 0, lo);
      var es, es' := EntriesOf(s, levels[0][at]), EntriesOf(s', levels[0][at]);
      hide LevelFenced, Covers;
      forall x | 0 <= x < |es'| ensures Covers(levels[0], lo, at, es'[x].key) {
        var y := if x < slot then x else x + 1;
        assert es'[x] == es[y];
        HeldInRange(s, levels[0], 0, lo, at, y);
      }
      hide TreeOk, FencedBy;
      LeafFenced(s, s', levels, root, lo, at);
    }
  }

  lemma RemovedStrict(flat: seq<Entry>, flat': seq<Entry>, e: Entry)
    requires Removed(flat, flat', e)
    ensures Strict(flat) ==> Strict(flat')
  {
    var n :| 0 <= n < |flat| && flat[n] == e && flat' == flat[..n] + flat[n + 1..];
    assert forall x :: 0 <= x < |flat'| ==> flat'[x] == flat[if x < n then x else x + 1];
  }

  lemma WalkableLeaves(pages: Pages, levels: Levels)
    ensures Walkable(pages, levels) && |levels| > 0 ==> |levels[0]| <= SHORT_CHAIN
  {
  }

  lemma AtTheEdge(es: seq<Entry>, e: Entry, pos: nat)
    requires IsLowerBound(es, e, pos) && pos == 0 && e !in es
    ensures AllAbove(es, e)
  {
    forall x | 0 <= x < |es| ensures Less(e, es[x]) { LessTotal(e, es[x]); }
  }

  lemma HomeCovers(pages: Pages, levels: Levels, root: PageId, lo: Lows, at: nat, e: Entry)
    ensures Homely(pages, levels, root, lo, at, e) ==>
      && |levels| > 0 && FencedBy(pages, levels, lo) && Covers(levels[0], lo, at, e.key)
      && Neat(pages, levels, root) && e.key != []
  {
  }

  /** A leaf write changes no page on the path. */
  lemma AboveStays(s: Pages, s': Pages, levels: Levels, root: PageId, t: nat, stack: seq<PageId>)
    requires TreeOk(s, levels, root) && |levels| > 0 && t < |levels[0]| && PathAbove(stack, levels, 0)
    requires s' == s[levels[0][t] := At(s', levels[0][t])]
    ensures StackLinked(s, stack, root) ==> StackLinked(s', stack, root)
    ensures forall p :: LinkedFrom(s, stack, root, p) ==> LinkedFrom(s', stack, root, p)
  {
    forall x | 0 <= x < |stack| ensures EntriesOf(s', stack[x]) == EntriesOf(s, stack[x]) {
      var m := |levels| - 1 - x;
      TreeApart(s, levels, root, 0, m, t);
    }
    hide TreeOk;
    if StackLinked(s, stack, root) {
      forall x | 0 <= x < |stack| ensures LinkedFrom(s', stack[..x], root, stack[x]) {
        assert LinkedFrom(s, stack[..x], root, stack[x]);
      }
    }
  }

  lemma StrictUp(es: seq<Entry>)
    requires Strict(es)
    ensures KeysUp(es)
  {
    forall x | 0 <= x < |es| ensures !KeyLess(es[x].key, es[0].key) {
      KeyTotal(es[0].key, es[x].key);
    }
  }

  /** Both halves of a twin pair have the range of the page that was split. */
  lemma SharedRange(chain: seq<PageId>, lo: Lows, at: nat, right: PageId, key: seq<byte>)
    requires Covers(chain, lo, at, key) && right !in chain
    ensures var chain' := Spliced(chain, at, right);
      Covers(chain', lo - {right}, at, key) && Covers(chain', lo - {right}, at + 1, key)
  {
    var chain', lo' := Spliced(chain, at, right), lo - {right};
    forall i | 0 <= i < |chain'| && chain'[i] in lo'
      ensures if i <= at + 1 then !KeyLess(key, lo'[chain'[i]]) else KeyLess(key, lo'[chain'[i]])
    {
      assert chain'[i] == if i <= at then chain[i] else if i == at + 1 then right else chain[i - 1];
    }
    assert chain'[at + 1] == right;
  }

  lemma HomePends(s: Pages, levels: Levels, s': Pages, levels': Levels, root: PageId, lo: Lows, at: nat, right: PageId,
                  k: nat, e: Entry)
    requires TreeOk(s, levels, root) && TreeOk(s', levels', root) && SplitStep(s, levels, s', levels', 0, at, right, k)
    requires Homely(s, levels, root, lo, at, e) && OnlyOpen(s', levels', 0, levels[0][at]) && Open(s', levels[0][at])
    requires Neat(s', levels', root) && FencedBy(s', levels', lo - {right})
    ensures Pending(s', levels', root, lo - {right}, at, e)
  {
    hide TreeOk, Neat, FencedBy, Covers, Bytes, Sorted, AllUnder, KeysUp, Strict, FreshKey;
    var es := EntriesOf(s, levels[0][at]);
    StrictCut(es, k);
    assert levels'[0] == Spliced(levels[0], at, right) && right !in levels[0];
    SharedRange(levels[0], lo, at, right, e.key);
    FreshHalves(es, k, e.key);
    LevelNoDup(s', levels', root, 0);
    assert EntriesOf(s', levels[0][at]) == es[..k] && EntriesOf(s', right) == es[k..] && es[k..][0] == es[k];
    assert levels'[0][at] == levels[0][at] && levels'[0][at + 1] == right;
  }

  lemma FreshHalves(es: seq<Entry>, k: nat, key: seq<byte>)
    requires k <= |es| && Strict(es) && FreshKey(es, key)
    ensures KeysUp(es[k..]) && FreshKey(es[..k], key) && FreshKey(es[k..], key)
  {
    StrictUp(es[k..]);
  }

  lemma HomesPend(s: Pages, levels: Levels, s': Pages, levels': Levels, root: PageId, at: nat, right: PageId, k: nat,
                  e: Entry)
    requires TreeOk(s, levels, root) && TreeOk(s', levels', root) && SplitStep(s, levels, s', levels', 0, at, right, k)
    requires OnlyOpen(s', levels', 0, levels[0][at]) && Open(s', levels[0][at])
    requires Neat(s, levels, root) ==> Neat(s', levels', root)
    requires forall lo :: FencedBy(s, levels, lo) ==> FencedBy(s', levels', lo - {right})
    ensures forall lo :: Homely(s, levels, root, lo, at, e) ==> Pending(s', levels', root, lo - {right}, at, e)
  {
    hide TreeOk, SplitStep, OnlyOpen, Neat, FencedBy, Pending, Covers, Newcomer, NoneOpen;
    forall lo | Homely(s, levels, root, lo, at, e) ensures Pending(s', levels', root, lo - {right}, at, e) {
      HomePends(s, levels, s', levels', root, lo, at, right, k, e);
    }
  }

  lemma LeafRipe(s: Pages, levels: Levels, s': Pages, levels': Levels, root: PageId, lo: Lows, at: nat, right: PageId,
                 k: nat, e: Entry)
    requires TreeOk(s, levels, root) && TreeOk(s', levels', root) && SplitStep(s, levels, s', levels', 0, at, right, k)
    requires Homely(s, levels, root, lo, at, e) && OnlyOpen(s', levels', 0, levels[0][at]) && Open(s', levels[0][at])
    requires Neat(s', levels', root) && FencedBy(s', levels', lo - {right})
    ensures At(s', right).Page? && At(s', right).entries != [] && At(s', right).entries[0].key != []
    ensures Ripe(s', levels', root, lo - {right}, 0, at, At(s', right).entries[0].key)
  {
    assert levels'[0][at + 1] == right;
    hide TreeOk, Neat, FencedBy, Covers, OnlyOpen;
    HomePends(s, levels, s', levels', root, lo, at, right, k, e);
    hide Halved;
    KeyedCut(s', levels'[0], at);
  }

  /** Half the leaf is left of the separator, and so is a key below all of it. */
  lemma HalfHome(s0: Pages, lv0: Levels, s1: Pages, lv1: Levels, s2: Pages, lv2: Levels, root: PageId, lo: Lows,
                 lo2: Lows, at: nat, right: PageId, k: nat, e: Entry)
    requires Homely(s0, lv0, root, lo, at, e) && SplitStep(s0, lv0, s1, lv1, 0, at, right, k)
    requires k == |EntriesOf(s0, lv0[0][at])| / 2 && AllAbove(EntriesOf(s0, lv0[0][at]), e)
    requires UntouchedUpTo(s1, lv1, s2, lv2, 0) && FencedBy(s2, lv2, lo2) && Extends(lo - {right}, lo2, lv1, right)
    requires right in lo2 && At(s1, right).Page? && At(s1, right).entries != []
    requires lo2[right] == At(s1, right).entries[0].key
    ensures Narrowed(s0, lv0, s2, lv2, lo2, at, e)
  {
    var es, chain, chain' := EntriesOf(s0, lv0[0][at]), lv0[0], lv1[0];
    hide FencedBy, Neat, NoneOpen, Bytes;
    assert Less(e, es[0]) && KeyLess(es[0].key, es[k].key);
    KeyBelow(e.key, es[0].key, es[k].key);
    assert At(s1, right).entries[0] == es[k] && chain' == Spliced(chain, at, right);
    assert SameBody(At(s2, lv1[0][at]), At(s1, lv1[0][at]));
    forall i | 0 <= i < |chain'| && chain'[i] in lo2
      ensures if i <= at then !KeyLess(e.key, lo2[chain'[i]]) else KeyLess(e.key, lo2[chain'[i]])
    {
      assert lv1[0][i] == chain'[i];
      assert chain'[i] == if i <= at then chain[i] else if i == at + 1 then right else chain[i - 1];
    }
  }

  lemma PendingCovers(s: Pages, levels: Levels, root: PageId, lo: Lows, at: nat, e: Entry, t: nat)
    requires Pending(s, levels, root, lo, at, e) && (t == at || t == at + 1)
    ensures FencedBy(s, levels, lo) && Covers(levels[0], lo, t, e.key)
  {
  }

  lemma StillFirst(es: seq<Entry>, es': seq<Entry>, pos: nat, e: Entry)
    requires es != [] && KeysUp(es) && IsLowerBound(es, e, pos) && !Less(e, es[0]) && e.key != es[0].key
    requires es' == es[..pos] + [e] + es[pos..]
    ensures es'[0] == es[0] && KeysUp(es')
  {
    LessTotal(e, es[0]);
    assert pos > 0;
    KeyTotal(es[0].key, e.key);
    forall x | 0 <= x < |es'| ensures !KeyLess(es'[x].key, es'[0].key) {
      assert x != pos ==> es'[x] == es[if x < pos then x else x - 1];
    }
  }

  lemma StillUnder(es: seq<Entry>, es': seq<Entry>, pos: nat, e: Entry, first: Entry)
    requires AllUnder(es, first.key) && Less(e, first) && e.key != first.key && pos <= |es|
    requires es' == es[..pos] + [e] + es[pos..]
    ensures AllUnder(es', first.key)
  {
    forall x | 0 <= x < |es'| ensures KeyLess(es'[x].key, first.key) {
      assert x != pos ==> es'[x] == es[if x < pos then x else x - 1];
    }
  }

  /** With the new entry on the half it sorts into, the cut is still clean. */
  lemma PendingRipe(s: Pages, s': Pages, levels: Levels, root: PageId, lo: Lows, at: nat, right: PageId, t: nat,
                    pos: nat, e: Entry)
    requires Pending(s, levels, root, lo, at, e) && TreeOk(s', levels, root) && levels[0][at + 1] == right
    requires t == if Less(e, EntriesOf(s, right)[0]) then at else at + 1
    requires InsertedInto(s, s', levels[0], t, pos, e) && IsLowerBound(EntriesOf(s, levels[0][t]), e, pos)
    requires Neat(s', levels, root) && FencedBy(s', levels, lo)
    requires Open(s', levels[0][at]) && OnlyOpen(s', levels, 0, levels[0][at])
    ensures EntriesOf(s', right) != [] && EntriesOf(s', right)[0] == EntriesOf(s, right)[0]
    ensures EntriesOf(s, right)[0].key != []
    ensures Ripe(s', levels, root, lo, 0, at, EntriesOf(s, right)[0].key)
  {
    hide TreeOk, Neat, FencedBy, Covers, Sorted, KeysUp, AllUnder, Less, IsLowerBound;
    var first := EntriesOf(s, right)[0];
    KeyedCut(s, levels[0], at);
    LevelNoDup(s', levels, root, 0);
    assert first.key != e.key && EntriesOf(s, right) != [];
    if t == at + 1 {
      StillFirst(EntriesOf(s, right), EntriesOf(s', right), pos, e);
    } else {
      StillUnder(EntriesOf(s, levels[0][at]), EntriesOf(s', levels[0][at]), pos, e, first);
    }
    assert Halfway(s', levels[0], at);
  }

  lemma PendingsRipe(s: Pages, lv: Levels, s0: Pages, s': Pages, levels: Levels, root: PageId, at: nat, right: PageId,
                     t: nat, pos: nat, e: Entry)
    requires TreeOk(s', levels, root) && |levels| > 0 && at + 1 < |levels[0]| && levels[0][at + 1] == right
    requires EntriesOf(s0, right) != [] && t == if Less(e, EntriesOf(s0, right)[0]) then at else at + 1
    requires forall lo :: Homely(s, lv, root, lo, at, e) ==> Pending(s0, levels, root, lo - {right}, at, e)
    requires forall lo ::
      FencedBy(s0, levels, lo) && Covers(levels[0], lo, t, e.key) ==> FencedBy(s', levels, lo)
    requires InsertedInto(s0, s', levels[0], t, pos, e) && IsLowerBound(EntriesOf(s0, levels[0][t]), e, pos)
    requires Neat(s, lv, root) && e.key != [] ==> Neat(s', levels, root)
    requires Open(s', levels[0][at]) && OnlyOpen(s', levels, 0, levels[0][at])
    ensures forall lo :: Homely(s, lv, root, lo, at, e) ==>
      Ripe(s', levels, root, lo - {right}, 0, at, EntriesOf(s0, right)[0].key)
  {
    hide TreeOk, Homely, Pending, FencedBy, Covers, InsertedInto, IsLowerBound, Neat, OnlyOpen, Ripe;
    forall lo | Homely(s, lv, root, lo, at, e)
      ensures Ripe(s', levels, root, lo - {right}, 0, at, EntriesOf(s0, right)[0].key)
    {
      HomeCovers(s, lv, root, lo, at, e);
      PendingCovers(s0, levels, root, lo - {right}, at, e, t);
      PendingRipe(s0, s', levels, root, lo - {right}, at, right, t, pos, e);
    }
  }

  lemma NewcomerIsHomely(s: Pages, levels: Levels, root: PageId, lo: Lows, at: nat, e: Entry)
    requires |levels| > 0 && Neat(s, levels, root) && Passable(s, levels, lo) && Covers(levels[0], lo, at, e.key)
    requires Newcomer(Flat(s, levels[0]), e)
    ensures Homely(s, levels, root, lo, at, e) && e.key != [] && e !in EntriesOf(s, levels[0][at])
  {
    hide Neat, FencedBy, Filled, NoneOpen, InnerSorted;
    LeafInFlat(s, levels[0], at);
  }

  /** What a leaf has of a sequence of distinct keys. */
  lemma LeafInFlat(s: Pages, chain: seq<PageId>, at: nat)
    requires at < |chain|
    ensures Strict(Flat(s, chain)) ==> Strict(EntriesOf(s, chain[at]))
    ensures forall key :: FreshKey(Flat(s, chain), key) ==> FreshKey(EntriesOf(s, chain[at]), key)
  {
    var es := EntriesOf(s, chain[at]);
    FlatAt(s, chain, at);
    var flat, pre := Flat(s, chain), Flat(s, chain[..at]);
    assert flat == pre + es + Flat(s, chain[at + 1..]);
    hide Flat;
    forall x | 0 <= x < |es| ensures flat[|pre| + x] == es[x] { }
    if Strict(flat) {
      forall x, y | 0 <= x < y < |es| ensures KeyLess(es[x].key, es[y].key) {
        assert KeyLess(flat[|pre| + x].key, flat[|pre| + y].key);
      }
    }
    forall key | FreshKey(flat, key) ensures FreshKey(es, key) {
      forall x | 0 <= x < |es| ensures es[x].key != key { assert flat[|pre| + x].key != key; }
    }
  }

  lemma OneHome(s: Pages, levels: Levels, lo: Lows, c: nat, d: nat, e: Entry)
    requires |levels| > 0 && Passable(s, levels, lo)
    requires Covers(levels[0], lo, c, e.key) && Covers(levels[0], lo, d, e.key)
    ensures c == d
  {
    hide Covers, LevelFenced;
    assert LevelFenced(s, levels[0], 0, lo);
    RangeUnique(s, levels[0], 0, lo, c, d, e.key);
  }

  lemma PassCloser(s: Pages, levels: Levels, s': Pages, levels': Levels, root': PageId, lo: Lows, lo': Lows, at: nat,
                   e: Entry)
    requires |levels| > 0 && Passable(s, levels, lo) && Covers(levels[0], lo, at, e.key)
    requires Narrowed(s, levels, s', levels', lo', at, e) && |EntriesOf(s, levels[0][at])| >= 2
    requires TreeOk(s', levels', root') && Neat(s', levels', root') && NoneOpen(s', levels', 0) && Filled(s', levels')
    ensures Closer(s, levels, s', levels', lo, lo', e)
  {
    NeatInner(s', levels', root', 0);
    hide TreeOk, Neat, Covers, FencedBy, Filled, NoneOpen, InnerSorted;
    forall n: nat | HomeHas(s, levels, lo, e.key, n) ensures n >= 2 && HomeHas(s', levels', lo', e.key, n / 2) {
      var c: nat :| Covers(levels[0], lo, c, e.key) && |EntriesOf(s, levels[0][c])| <= n;
      OneHome(s, levels, lo, c, at, e);
    }
  }

  lemma SomeRanges(pages: Pages, levels: Levels, root: PageId) returns (lo: Lows)
    requires TreeOk(pages, levels, root) && Neat(pages, levels, root) && Fenced(pages, levels) && Filled(pages, levels)
    requires NoneOpen(pages, levels, 0)
    ensures Passable(pages, levels, lo)
  {
    NeatInner(pages, levels, root, 0);
    lo :| FencedBy(pages, levels, lo);
  }

  lemma StartHome(pages: Pages, levels: Levels, root: PageId, lo: Lows, e: Entry) returns (n: nat)
    requires TreeOk(pages, levels, root) && Neat(pages, levels, root) && Passable(pages, levels, lo)
    requires |levels| > 0 && |levels[0]| + MOST_SPLITS <= LONG_CHAIN
    ensures Chase(pages, levels, root, lo, e.key, n, 0)
  {
    hide Neat, Filled, NoneOpen, InnerSorted, Halvings, PageOk;
    assert LevelFenced(pages, levels[0], 0, lo);
    var at := HomeExists(pages, levels[0], lo, e.key);
    PageAt(pages, levels, root, 0, at);
    PageHalvings(At(pages, levels[0][at]), levels[0][at], 0, root);
    n := |EntriesOf(pages, levels[0][at])|;
  }

  lemma IndexedMeans(pages: Pages, levels: Levels, root: PageId)
    ensures Indexed(pages, levels, root) ==> Neat(pages, levels, root) && Fenced(pages, levels)
  {
  }

  /** Every key is in the range of some page. */
  lemma HomeExists(pages: Pages, chain: seq<PageId>, lo: Lows, key: seq<byte>) returns (at: nat)
    requires LevelFenced(pages, chain, 0, lo)
    ensures Covers(chain, lo, at, key)
  {
    hide AllFrom, AllUnder, Bounded;
    at := 0;
    var i := 1;
    while i < |chain|
      invariant at < i <= |chain| && chain[at] in lo && !KeyLess(key, lo[chain[at]])
      invariant forall j :: at < j < i && chain[j] in lo ==> KeyLess(key, lo[chain[j]])
    {
      if chain[i] in lo && !KeyLess(key, lo[chain[i]]) {
        at := i;
      }
      i := i + 1;
    }
    forall j | 0 <= j <= at && chain[j] in lo ensures !KeyLess(key, lo[chain[j]]) {
      assert Apart(pages, chain, lo, j, at);
      if j < at { KeyBelow(lo[chain[j]], lo[chain[at]], key); KeyTotal(lo[chain[j]], key); }
    }
  }

  /** The key's leaf shrinks with every restart, and the chain may grow as often as the leaf can be halved. */
  ghost predicate Chase(pages: Pages, levels: Levels, root: PageId, lo: Lows, key: seq<byte>, n: nat, restarts: nat) {
    && |levels| > 0 && Neat(pages, levels, root) && Passable(pages, levels, lo) && HomeHas(pages, levels, lo, key, n)
    && restarts + Halvings(n) <= MOST_SPLITS && |levels[0]| + Halvings(n) <= LONG_CHAIN
  }

  lemma ChaseMeans(pages: Pages, levels: Levels, root: PageId, lo: Lows, key: seq<byte>, n: nat, restarts: nat)
    requires Chase(pages, levels, root, lo, key, n, restarts)
    ensures |levels| > 0 && Neat(pages, levels, root) && Passable(pages, levels, lo) && |levels[0]| <= LONG_CHAIN
    ensures restarts <= MOST_SPLITS
  {
    hide Neat, Passable, HomeHas, Halvings;
  }

  lemma ChaseOn(s: Pages, levels: Levels, root: PageId, s': Pages, levels': Levels, root': PageId, lo: Lows, lo': Lows,
                e: Entry, n: nat, restarts: nat)
    returns (m: nat)
    requires Chase(s, levels, root, lo, e.key, n, restarts) && Closer(s, levels, s', levels', lo, lo', e)
    requires Neat(s', levels', root')
    ensures Chase(s', levels', root', lo', e.key, m, restarts + 1)
  {
    m := n / 2;
    hide Neat, Passable;
    assert HomeHas(s, levels, lo, e.key, n);
    hide HomeHas;
    HalvesLeft(n);
  }

  lemma StillIndexed(pages: Pages, levels: Levels, root: PageId, lo: Lows, flat: seq<Entry>, e: Entry)
    requires |levels| > 0 && Neat(pages, levels, root) && FencedBy(pages, levels, lo) && ChainOk(pages, levels[0])
    requires Newcomer(flat, e) && Inserted(flat, Flat(pages, levels[0]), e)
    ensures Indexed(pages, levels, root)
  {
    var flat' := Flat(pages, levels[0]);
    hide Neat, FencedBy, Flat;
    assert Sorted(flat');
    var n: nat :| n <= |flat| && flat' == flat[..n] + [e] + flat[n..];
    forall x, y | 0 <= x < y < |flat'| ensures KeyLess(flat'[x].key, flat'[y].key) {
      assert Less(flat'[x], flat'[y]);
      assert x != n ==> flat'[x] == flat[if x < n then x else x - 1];
      assert y != n ==> flat'[y] == flat[if y < n then y else y - 1];
    }
  }

  lemma LoneLeafFenced(pages: Pages, p: PageId)
    ensures Fenced(pages, [[p]]) && Filled(pages, [[p]])
  {
    var lo: Lows := map[p := []];
    LoneFenced(pages, p, 0, lo);
    assert FencedBy(pages, [[p]], lo);
  }

  /** The old entries and the first `k` new ones, and no others. */
  ghost predicate Gained(flat: seq<Entry>, flat': seq<Entry>, entries: seq<Entry>, k: nat) {
    && k <= |entries| && |flat'| == |flat| + k
    && forall x :: x in flat' <==> x in flat || x in entries[..k]
  }

  lemma GainedMore(flat: seq<Entry>, mid: seq<Entry>, flat': seq<Entry>, entries: seq<Entry>, k: nat)
    requires Gained(flat, mid, entries, k) && k < |entries| && Inserted(mid, flat', entries[k])
    ensures Gained(flat, flat', entries, k + 1)
  {
    var n :| 0 <= n <= |mid| && flat' == mid[..n] + [entries[k]] + mid[n..];
    assert entries[..k + 1] == entries[..k] + [entries[k]];
    forall x ensures x in flat' <==> x in mid || x == entries[k] {
      assert mid == mid[..n] + mid[n..];
    }
  }

  /** Distinct keys within the bound, none of them empty or in the tree. */
  ghost predicate AllNew(flat: seq<Entry>, entries: seq<Entry>) {
    && (forall i :: 0 <= i < |entries| ==>
         entries[i].key != [] && |entries[i].key| <= MAX_INDEX_KEY_BYTES && FreshKey(flat, entries[i].key))
    && forall i, j :: 0 <= i < j < |entries| ==> entries[i].key != entries[j].key
  }

  lemma NothingGained(flat: seq<Entry>, entries: seq<Entry>)
    ensures Gained(flat, flat, entries, 0)
  {
  }

  lemma NotGainedYet(flat: seq<Entry>, flat': seq<Entry>, entries: seq<Entry>, k: nat)
    requires Gained(flat, flat', entries, k) && k < |entries| && entries[k] !in flat
    requires forall i, j :: 0 <= i < j < |entries| ==> entries[i] != entries[j]
    ensures entries[k] !in flat'
  {
  }

  lemma NextNewcomer(pages: Pages, levels: Levels, root: PageId, flat: seq<Entry>, entries: seq<Entry>, k: nat)
    requires |levels| > 0 && Indexed(pages, levels, root) && AllNew(flat, entries) && k < |entries|
    requires Gained(flat, Flat(pages, levels[0]), entries, k)
    ensures Newcomer(Flat(pages, levels[0]), entries[k]) && |entries[k].key| <= MAX_INDEX_KEY_BYTES
  {
    var flat', key := Flat(pages, levels[0]), entries[k].key;
    hide Neat, Fenced, Flat, Strict;
    forall x | 0 <= x < |flat'| ensures flat'[x].key != key {
      assert flat'[x] in flat || flat'[x] in entries[..k];
      assert forall i :: 0 <= i < k ==> entries[..k][i].key != key;
    }
  }

  /** A leaf without dead bytes that has fewer than two entries has room for any entry. */
  lemma CompactNotWedged(pages: Pages, levels: Levels, root: PageId, e: Entry)
    requires TreeOk(pages, levels, root) && |levels| > 0 && Compact(pages, levels[0])
    ensures |e.key| <= MAX_INDEX_KEY_BYTES ==> !AnyWedged(pages, levels[0], e)
  {
    if |e.key| <= MAX_INDEX_KEY_BYTES {
      forall i | 0 <= i < |levels[0]| ensures !Wedged(pages, levels[0][i], e) {
        PageAt(pages, levels, root, 0, i);
        CompactRoom(At(pages, levels[0][i]), levels[0][i], root, e);
      }
    }
  }

  lemma CompactRoom(pg: Page, p: PageId, root: PageId, e: Entry)
    requires PageOk(pg, p, 0, root) && CompactPage(pg) && |e.key| <= MAX_INDEX_KEY_BYTES
    ensures |pg.entries| < 2 ==> Cost(0, e) <= FreeSpace(pg)
  {
    if |pg.entries| == 1 {
      BytesOne(0, pg.entries[0]);
      assert pg.entries == [pg.entries[0]];
    }
  }

  lemma PositionIndex(pages: Pages, chain: seq<PageId>, at: nat, e: Entry)
    requires PositionAt(pages, chain, at, e)
    ensures at < |chain|
  {
  }

  /** Missing from the page of its position, missing from the chain. */
  lemma AbsentEverywhere(pages: Pages, chain: seq<PageId>, at: nat, e: Entry)
    requires PositionAt(pages, chain, at, e) && e !in EntriesOf(pages, chain[at])
    ensures e !in Flat(pages, chain)
  {
    FlatMember(pages, chain, e);
    forall j | 0 <= j < |chain| ensures e !in EntriesOf(pages, chain[j]) {
      if j < at { BelowHasNoneAbove(EntriesOf(pages, chain[j]), e); }
      if at < j { AboveLacksProbe(EntriesOf(pages, chain[j]), e); }
    }
  }

  lemma LeafDeleted(s: Pages, s': Pages, levels: Levels, root: PageId, at: nat, slot: nat)
    requires TreeOk(s, levels, root) && TreeOk(s', levels, root) && at < |levels[0]| && At(s, levels[0][at]).Page?
    requires slot < |EntriesOf(s, levels[0][at])|
    requires s' == s[levels[0][at] := At(s', levels[0][at])]
    requires SameContent(At(s', levels[0][at]), RemoveEntryAt(At(s, levels[0][at]), slot).value)
    requires RemoveEntryAt(At(s, levels[0][at]), slot).Ok?
    ensures Linked(s', levels[0])
    ensures NoneOpen(s, levels, 0) ==> NoneOpen(s', levels, 0)
    ensures Neat(s, levels, root) ==> Neat(s', levels, root)
  {
    NeighboursApart(s', levels, root, 0);
    LeafMarks(s, s', levels, root, at, INVALID);
    hide TreeOk, Linked, Keyed;
    if Neat(s, levels, root) {
      assert PageNeat(s, levels[0][at], 0, at, root);
      RemoveKeyed(EntriesOf(s, levels[0][at]), slot, at);
      LeafNeat(s, s', levels, root, at);
    }
  }

  lemma OnlySpot<T>(s: seq<T>, n: nat, e: T, m: nat)
    requires n <= |s| && e !in s && m < |s| + 1 && (s[..n] + [e] + s[n..])[m] == e
    ensures m == n
  {
  }

  lemma TakeOut<T>(s: seq<T>, n: nat, e: T)
    requires n <= |s|
    ensures var mid := s[..n] + [e] + s[n..]; mid[..n] + mid[n + 1..] == s
  {
    var mid := s[..n] + [e] + s[n..];
    assert mid[..n] == s[..n] && mid[n + 1..] == s[n..];
  }

  /** Deleting what was inserted restores the entry sequence. */
  lemma DeleteUndoesInsert(flat: seq<Entry>, mid: seq<Entry>, back: seq<Entry>, e: Entry)
    requires Inserted(flat, mid, e) && Removed(mid, back, e) && e !in flat
    ensures back == flat
  {
    var n :| 0 <= n <= |flat| && mid == flat[..n] + [e] + flat[n..];
    var m :| 0 <= m < |mid| && mid[m] == e && back == mid[..m] + mid[m + 1..];
    OnlySpot(flat, n, e, m);
    TakeOut(flat, n, e);
  }

  /** A single closed leaf is a quiescent tree. */
  lemma LoneTree(pages: Pages, p: PageId)
    requires p != INVALID && PageOk(At(pages, p), p, 0, p) && At(pages, p).prev == INVALID
    requires At(pages, p).next == INVALID
    requires !At(pages, p).flags.incomplete
    ensures TreeOk(pages, [[p]], p) && ChainOk(pages, [p]) && NoneOpen(pages, [[p]], 0) && AllocOk([[p]], [], p + 1)
    ensures Flat(pages, [p]) == EntriesOf(pages, p) && HintsSeen(pages, [p])
  {
    FlatOne(pages, p);
    hide Flat, Sorted, Names, Bytes;
    var levels: Levels := [[p]];
    assert LinkOk(pages, levels[0], 0);
    assert LevelOk(pages, levels[0], 0, p);
    LoneNamed(pages, p);
  }

  lemma LoneNamed(pages: Pages, p: PageId)
    requires !Open(pages, p)
    ensures NamedOnce(pages, [[p]], p, 0)
  {
    var levels: Levels := [[p]];
    hide Names;
    forall q
      ensures Downlinks(pages, levels, p, 0, q) + Names(pages, levels[0], false, q) == if q in levels[0] then 1 else 0
    {
      NothingPending(pages, levels[0], q);
    }
  }

  lemma EmptyNeatRoot(pages: Pages, p: PageId)
    requires EntriesOf(pages, p) == []
    ensures Neat(pages, [[p]], p)
  {
    assert PageNeat(pages, [[p]][0][0], 0, 0, p);
  }

  /** The placed entry keeps the chain exactly when the placement is its position. */
  lemma LeafPlaced(s: Pages, s': Pages, levels: Levels, root: PageId, at: nat, slot: nat, e: Entry)
    requires TreeOk(s', levels, root) && ChainOk(s, levels[0]) && at < |levels[0]|
    requires InsertedInto(s, s', levels[0], at, slot, e)
    requires IsLowerBound(EntriesOf(s, levels[0][at]), e, slot)
    ensures Inserted(Flat(s, levels[0]), Flat(s', levels[0]), e)
    ensures e !in Flat(s, levels[0]) ==> (ChainOk(s', levels[0]) <==> PositionAt(s, levels[0], at, e))
  {
    NeighboursApart(s', levels, root, 0);
    hide TreeOk, Sorted, Flat, PositionAt, Linked, IsLowerBound, InsertedInto;
    FlatInserted(s, s', levels[0], at, slot, e);
    if e !in Flat(s, levels[0]) { SortedIffPosition(s, s', levels[0], at, slot, e); }
  }

  lemma LeafInsertNeat(s: Pages, s': Pages, levels: Levels, root: PageId, at: nat, slot: nat, e: Entry)
    requires TreeOk(s, levels, root) && Neat(s, levels, root) && e.key != []
    requires at < |levels[0]| && InsertedInto(s, s', levels[0], at, slot, e)
    requires s' == s[levels[0][at] := At(s', levels[0][at])] && At(s, levels[0][at]).Page?
    requires At(s', levels[0][at]).Page?
    requires At(s', levels[0][at]).flags == At(s, levels[0][at]).flags
    ensures Neat(s', levels, root)
  {
    assert PageNeat(s, levels[0][at], 0, at, root);
    hide TreeOk, Sorted, Keyed, Neat;
    InsertKeyed(EntriesOf(s, levels[0][at]), slot, e, at);
    LeafNeat(s, s', levels, root, at);
  }

  /** Hints across an insert. */
  lemma LeafHints(s: Pages, s': Pages, levels: Levels, root: PageId, at: nat, slot: nat, e: Entry)
    requires TreeOk(s, levels, root) && TreeOk(s', levels, root) && at < |levels[0]|
    requires InsertedInto(s, s', levels[0], at, slot, e)
    requires s' == s[levels[0][at] := At(s', levels[0][at])] && At(s, levels[0][at]).Page?
    requires At(s', levels[0][at]).Page?
    requires At(s', levels[0][at]).prev == At(s, levels[0][at]).prev
    ensures Linked(s, levels[0])
    ensures HintsSeen(s, levels[0]) ==> HintsSeen(s', levels[0])
    ensures HintsReach(s, levels[0]) ==> (HintsReach(s', levels[0]) <==> !Bypassed(s, levels[0], at))
  {
    NeighboursApart(s, levels, root, 0);
    NeighboursApart(s', levels, root, 0);
    LevelIsPages(s, levels, root, 0);
    hide TreeOk, Linked, HintsSeen, HintsReach, Bypassed, InsertedInto;
    InsertKeepsHints(s, s', levels[0], at, slot, e);
  }

  lemma NeatSorted(pages: Pages, levels: Levels, root: PageId, l: nat, i: nat)
    requires Neat(pages, levels, root) && 0 < l < |levels| && i < |levels[l]|
    ensures Sorted(EntriesOf(pages, levels[l][i]))
  {
    assert PageNeat(pages, levels[l][i], l, i, root);
  }

  lemma KeptAsIs(s: Pages, chain: seq<PageId>)
    ensures LeavesKept(s, chain, s, chain)
    ensures forall e :: Retry(s, chain, s, chain, e)
    ensures forall e :: AtMostOnce(s, chain, s, chain, e)
  {
  }

  lemma LeavesTwice(a: Pages, x: seq<PageId>, b: Pages, y: seq<PageId>, c: Pages, z: seq<PageId>)
    requires LeavesKept(a, x, b, y) && LeavesKept(b, y, c, z)
    ensures LeavesKept(a, x, c, z)
  {
    hide HintsReach, HintsSeen, AnyWedged, Compact;
  }

  lemma RetryTwice(a: Pages, x: seq<PageId>, b: Pages, y: seq<PageId>, c: Pages, z: seq<PageId>, e: Entry)
    requires Retry(a, x, b, y, e) && Retry(b, y, c, z, e)
    ensures Retry(a, x, c, z, e)
  {
    hide LeavesKept, IsTail, Flat;
    LeavesTwice(a, x, b, y, c, z);
    TailsTwice(a, x, b, y, c, z, e);
  }

  lemma RetryMeans(a: Pages, x: seq<PageId>, b: Pages, y: seq<PageId>, e: Entry)
    requires Retry(a, x, b, y, e)
    ensures Flat(b, y) == Flat(a, x) && |x| <= |y| && (IsTail(b, y, e) ==> IsTail(a, x, e))
    ensures (HintsReach(a, x) ==> HintsReach(b, y)) && (HintsSeen(a, x) ==> HintsSeen(b, y))
    ensures Compact(a, x) ==> Compact(b, y)
    ensures |e.key| <= MAX_INDEX_KEY_BYTES && AnyWedged(b, y, e) ==> AnyWedged(a, x, e)
    ensures AtMostOnce(a, x, b, y, e)
  {
    hide HintsReach, HintsSeen, AnyWedged, Compact, Flat, IsTail;
  }

  lemma OnceAfter(a: Pages, x: seq<PageId>, b: Pages, y: seq<PageId>, c: Pages, z: seq<PageId>, e: Entry)
    requires Retry(a, x, b, y, e) && AtMostOnce(b, y, c, z, e)
    ensures AtMostOnce(a, x, c, z, e)
  {
    hide Flat, LeavesKept, IsTail;
  }

  lemma OutcomeAfter(s0: Pages, lv0: Levels, root0: PageId, s1: Pages, lv1: Levels, root1: PageId, s2: Pages,
                     lv2: Levels, root2: PageId, e: Entry, r: Result<bool, IndexError>)
    requires |lv0| > 0 && |lv1| > 0 && Retry(s0, lv0[0], s1, lv1[0], e) && |e.key| <= MAX_INDEX_KEY_BYTES
    requires Neat(s0, lv0, root0) && e.key != [] ==> Neat(s1, lv1, root1)
    requires Outcome(s1, lv1, root1, s2, lv2, root2, e, r)
    ensures Outcome(s0, lv0, root0, s2, lv2, root2, e, r)
  {
    hide HintsReach, HintsSeen, AnyWedged, Compact, Flat, IsTail, Neat, ChainOk, NoneOpen, Inserted, Retry, AtMostOnce;
    RetryMeans(s0, lv0[0], s1, lv1[0], e);
    if r.Err? { OnceAfter(s0, lv0[0], s1, lv1[0], s2, lv2[0], e); }
  }

  lemma AttemptOutcome(s: Pages, levels: Levels, root: PageId, s': Pages, start: nat, e: Entry)
    requires |levels| > 0 && start < |levels[0]| && Linked(s, levels[0]) && NoneOpen(s', levels, 0)
    requires Inserted(Flat(s, levels[0]), Flat(s', levels[0]), e)
    requires HintsReach(s, levels[0]) ==> !Blinded(s, levels[0], start, e)
    requires e !in Flat(s, levels[0]) && !Blinded(s, levels[0], start, e) ==> ChainOk(s', levels[0])
    requires e in Flat(s, levels[0]) ==> Blinded(s, levels[0], start, e) || TailLeftOf(s, levels[0], start, e)
    requires TailLeftOf(s, levels[0], start, e) ==> IsTail(s, levels[0], e)
    requires HintsSeen(s, levels[0]) ==> HintsSeen(s', levels[0])
    requires Compact(s, levels[0]) ==> Compact(s', levels[0])
    requires Neat(s, levels, root) && e.key != [] ==> Neat(s', levels, root)
    ensures Outcome(s, levels, root, s', levels, root, e, Ok(true))
  {
  }

  lemma FailedOutcome(s: Pages, levels: Levels, root: PageId, e: Entry, r: Result<bool, IndexError>)
    requires |levels| > 0 && (r == Err(Damaged) || (r == Err(Duplicate) && e in Flat(s, levels[0])))
    ensures Outcome(s, levels, root, s, levels, root, e, r)
  {
  }

  /** The first pass settles it: one leaf alone, room on every leaf, or a place inside a leaf of a tree with ranges. */
  ghost predicate Quick(s: Pages, levels: Levels, lo: Lows, e: Entry) {
    && |levels| > 0
    && (|| (|levels| == 1 && |levels[0]| == 1 && e !in Flat(s, levels[0])) || AllRoom(s, levels[0], e)
        || (Passable(s, levels, lo) && |levels[0]| <= LONG_CHAIN && Inside(s, levels[0], e)))
  }

  ghost predicate Prompt(s: Pages, levels: Levels, root: PageId, lo: Lows, height: nat, e: Entry,
                         r: Result<bool, IndexError>) {
    && |levels| > 0
    && (|levels| == 1 && |levels[0]| == 1 && e !in Flat(s, levels[0]) ==>
         r == if Wedged(s, root, e) then Err(Unsplittable) else Ok(true))
    && (AllRoom(s, levels[0], e) ==> r != Ok(false) && (r.Err? ==> r.error in {Duplicate, Damaged}))
    && (AllRoom(s, levels[0], e) && Walkable(s, levels) ==> r != Err(Damaged))
    && (Passable(s, levels, lo) && |levels[0]| <= LONG_CHAIN && Inside(s, levels[0], e) ==>
         && r != Ok(false)
         && (r.Ok? || r.error in {Duplicate, Unsplittable} || (r.error == Damaged && height > MAX_LEVEL)))
  }

  /** No leaf has room, and no page the descent settles on names the leaf the entry belongs to. */
  ghost predicate Stuck(s: Pages, levels: Levels, e: Entry) {
    && |levels| > 0 && (forall i :: 0 <= i < |levels[0]| ==> Crowded(s, levels[0][i], e)) && Misrouted(s, levels, e)
  }

  lemma StuckMeans(s: Pages, levels: Levels, e: Entry)
    ensures Stuck(s, levels, e) ==>
      |levels| > 0 && Misrouted(s, levels, e) && forall i :: 0 <= i < |levels[0]| ==> Crowded(s, levels[0][i], e)
  {
  }

  lemma SomeCrowded(s: Pages, chain: seq<PageId>, e: Entry)
    requires exists i :: 0 <= i < |chain| && Crowded(s, chain[i], e)
    ensures !AllRoom(s, chain, e)
  {
  }

  /** The optimistic attempt ends the pass: in place, or with nothing written. */
  lemma PromptEarly(s: Pages, levels: Levels, root: PageId, lo: Lows, height: nat, e: Entry,
                    r: Result<bool, IndexError>)
    requires |levels| > 0 && (r.Ok? ==> r == Ok(true))
    requires |levels| == 1 && |levels[0]| == 1 && e !in Flat(s, levels[0]) && r.Ok? ==>
      levels[0][0] == root && !Crowded(s, root, e)
    requires r.Err? ==> r.error == Damaged || (r.error == Duplicate && e in Flat(s, levels[0]))
    requires r == Err(Damaged) ==>
      && (|levels| > 1 || |levels[0]| > SHORT_CHAIN) && !Walkable(s, levels)
      && !(Passable(s, levels, lo) && |levels[0]| <= LONG_CHAIN)
    ensures Prompt(s, levels, root, lo, height, e, r)
  {
    hide Flat, AllRoom, Passable, Inside, Walkable;
  }

  /** After an attempt that found its leaf full. */
  lemma PromptLate(s: Pages, levels: Levels, root: PageId, lo: Lows, height: nat, e: Entry,
                   r: Result<bool, IndexError>)
    requires |levels| > 0 && !AllRoom(s, levels[0], e)
    requires |levels| == 1 && |levels[0]| == 1 && e !in Flat(s, levels[0]) ==>
      r == if Wedged(s, root, e) then Err(Unsplittable) else Ok(true)
    requires Passable(s, levels, lo) && |levels[0]| <= LONG_CHAIN ==>
      && (r.Ok? || r.error in {Duplicate, Unsplittable} || (r.error == Damaged && height > MAX_LEVEL))
      && (r == Ok(false) ==> !Inside(s, levels[0], e))
    ensures Prompt(s, levels, root, lo, height, e, r)
  {
    hide Flat, AllRoom, Passable, Inside, Walkable, Wedged;
  }

  lemma PromptMeans(s: Pages, levels: Levels, root: PageId, lo: Lows, height: nat, e: Entry,
                    r: Result<bool, IndexError>)
    requires |levels| > 0
    ensures !Quick(s, levels, lo, e) ==> Prompt(s, levels, root, lo, height, e, r)
    ensures Quick(s, levels, lo, e) && Prompt(s, levels, root, lo, height, e, r) ==> r != Ok(false)
  {
    hide Flat, Wedged, AllRoom, Passable, Inside, Walkable;
  }

  lemma OutcomeInserted(s: Pages, levels: Levels, root: PageId, s': Pages, levels': Levels, root': PageId, e: Entry)
    requires Outcome(s, levels, root, s', levels', root', e, Ok(true))
    ensures |levels| > 0 && |levels'| > 0 && Inserted(Flat(s, levels[0]), Flat(s', levels'[0]), e)
    ensures Neat(s, levels, root) && e.key != [] ==> Neat(s', levels', root')
  {
    hide HintsReach, HintsSeen, Compact, Flat, IsTail, Neat, ChainOk, NoneOpen, Inserted;
  }

  lemma OutcomeMeans(s: Pages, levels: Levels, root: PageId, s': Pages, levels': Levels, root': PageId, e: Entry,
                    r: Result<bool, IndexError>)
    requires Outcome(s, levels, root, s', levels', root', e, r)
    ensures Neat(s, levels, root) && e.key != [] ==> Neat(s', levels', root')
    ensures |levels| > 0 && (r == Err(Duplicate) ==> e in Flat(s, levels[0]))
  {
    hide HintsReach, HintsSeen, Compact, Flat, IsTail, Neat, ChainOk, NoneOpen, Inserted, AtMostOnce, AnyWedged;
  }

  lemma OutcomeNone(s: Pages, levels: Levels, root: PageId, s': Pages, levels': Levels, root': PageId, e: Entry)
    requires |levels| > 0 && |levels'| > 0 && Retry(s, levels[0], s', levels'[0], e)
    requires Neat(s, levels, root) && e.key != [] ==> Neat(s', levels', root')
    ensures Outcome(s, levels, root, s', levels', root', e, Err(Unsupported))
  {
    hide HintsReach, HintsSeen, Compact, Flat, IsTail, Neat, ChainOk, NoneOpen, Inserted, AnyWedged, Retry, AtMostOnce;
    RetryMeans(s, levels[0], s', levels'[0], e);
  }

  lemma TailIs(pages: Pages, chain: seq<PageId>, start: nat, e: Entry)
    requires start < |chain|
    ensures TailLeftOf(pages, chain, start, e) ==> IsTail(pages, chain, e)
  {
  }

  lemma TailsTwice(a: Pages, x: seq<PageId>, b: Pages, y: seq<PageId>, c: Pages, z: seq<PageId>, e: Entry)
    requires TailKept(a, x, b, y, e) && TailKept(b, y, c, z, e)
    ensures TailKept(a, x, c, z, e)
  {
  }

  lemma WedgedIs(pages: Pages, chain: seq<PageId>, i: nat, e: Entry)
    requires i < |chain| && Wedged(pages, chain[i], e)
    ensures AnyWedged(pages, chain, e)
  {
  }

  lemma AbsentAlone(pages: Pages, p: PageId, chain: seq<PageId>, e: Entry)
    requires chain == [p] && e !in Flat(pages, chain)
    ensures e !in EntriesOf(pages, p)
    ensures AnyWedged(pages, chain, e) <==> Wedged(pages, p, e)
  {
    FlatOne(pages, p);
  }

  lemma SomeLevels(pages: Pages, levels: Levels, root: PageId)
    requires TreeOk(pages, levels, root)
    ensures |levels| > 0
  {
  }

  lemma ClosedAt(pages: Pages, levels: Levels, l: nat, i: nat)
    requires NoneOpen(pages, levels, l) && l < |levels| && i < |levels[l]|
    ensures !Open(pages, levels[l][i])
  {
  }

  lemma PathLength(stack: seq<PageId>, levels: Levels)
    requires PathAbove(stack, levels, 0)
    ensures |stack| + 1 == |levels|
  {
  }

  lemma RightClearIndex(pages: Pages, chain: seq<PageId>, at: nat, e: Entry)
    requires RightClear(pages, chain, at, e)
    ensures at < |chain|
  {
  }

  /** Between Copy and Commit: the pending entry's half is its chain position, lacks it, and has room for it. */
  ghost predicate HalfReady(pages: Pages, levels: Levels, leaf: PageId, right: PageId, at: nat, e: Entry) {
    && 0 < |levels| && at + 1 < |levels[0]| && levels[0][at] == leaf && levels[0][at + 1] == right
    && ChainOk(pages, levels[0])
    && Open(pages, leaf) && At(pages, leaf).next == right
    && At(pages, right).Page? && At(pages, right).entries != []
    && |At(pages, right).entries[0].key| <= MAX_INDEX_KEY_BYTES
    && var left := Less(e, At(pages, right).entries[0]);
       var half := At(pages, if left then leaf else right);
       PositionAt(pages, levels[0], if left then at else at + 1, e) && e !in half.entries &&
         Cost(0, e) <= FreeSpace(half)
  }

  ghost predicate MarksKept(s: Pages, s': Pages, levels: Levels, left: PageId) {
    && (OnlyOpen(s, levels, 0, left) ==> OnlyOpen(s', levels, 0, left))
    && (NoneOpen(s, levels, 0) ==> NoneOpen(s', levels, 0))
    && (Open(s, left) ==> Open(s', left) && At(s', left).next == At(s, left).next)
    && (InnerSorted(s, levels, 0) ==> InnerSorted(s', levels, 0))
  }

  ghost predicate Inserted(flat: seq<Entry>, flat': seq<Entry>, e: Entry) {
    exists n :: 0 <= n <= |flat| && flat' == flat[..n] + [e] + flat[n..]
  }

  /** What holds between Copy and Commit of a leaf split. */
  lemma AfterLeafSplit(s: Pages, levels: Levels, s': Pages, levels': Levels, root: PageId, at: nat, right: PageId,
                       k: nat, stack: seq<PageId>)
    requires TreeOk(s, levels, root) && TreeOk(s', levels', root) && SplitStep(s, levels, s', levels', 0, at, right, k)
    requires NoneOpen(s, levels, 0) && PathAbove(stack, levels, 0) && Flat(s', levels'[0]) == Flat(s, levels[0])
    requires Sorted(Flat(s, levels[0]))
    ensures OnlyOpen(s', levels', 0, levels[0][at]) && Open(s', levels[0][at]) && At(s', levels[0][at]).next == right
    ensures PathAbove(stack, levels', 0) && |levels'[0]| == |levels[0]| + 1 && levels'[0][at] == levels[0][at]
    ensures levels'[0][at + 1] == right
    ensures CutChain(s, levels[0], s', levels'[0], at, k) && ChainOk(s', levels'[0])
    ensures At(s', right).Page? && At(s', right).entries != [] && |At(s', right).entries[0].key| <= MAX_INDEX_KEY_BYTES
    ensures |levels'| == |levels| && (InnerSorted(s, levels, 0) ==> InnerSorted(s', levels', 0))
  {
    hide TreeOk, Bytes, Sorted, Flat;
    forall m | 0 < m < |levels| ensures levels'[m] == levels[m] && SamePages(s, s', levels[m]) {
      SplitElsewhere(s, levels, s', levels', root, 0, at, right, k, m);
    }
    SplitOpens(s, levels, s', levels', root, 0, at, right, k);
    NeighboursApart(s, levels, root, 0);
    NeighboursApart(s', levels', root, 0);
    SplitPages(s, levels, s', levels', at, right, k);
    PageAt(s', levels', root, 0, at + 1);
  }

  /** A page freshly packed with a single entry has room for another. */
  lemma HalfHasRoom(was: Page, left: PageId, right: PageId, k: nat, pgL: Page, pgR: Page, e: Entry)
    requires Halved(was, left, right, k, pgL, pgR) && WithinKeyBound(was.entries) && was.level == 0
    requires |e.key| <= MAX_INDEX_KEY_BYTES
    ensures |pgL.entries| < 2 ==> Cost(0, e) <= FreeSpace(pgL)
    ensures |pgR.entries| < 2 ==> Cost(0, e) <= FreeSpace(pgR)
  {
    if k == 1 { BytesOne(0, was.entries[0]); assert was.entries[..1] == [was.entries[0]]; }
    if k + 1 == |was.entries| { BytesOne(0, was.entries[k]); assert was.entries[k..] == [was.entries[k]]; }
  }

  lemma CompactHalves(was: Page, left: PageId, right: PageId, k: nat, pgL: Page, pgR: Page)
    requires Halved(was, left, right, k, pgL, pgR) && Bytes(was.level, was.entries) <= SPECIAL
    ensures CompactPage(pgL) && CompactPage(pgR)
  {
    BytesConcat(was.level, was.entries[..k], was.entries[k..]);
    assert was.entries[..k] + was.entries[k..] == was.entries;
  }

  /** A leaf split keeps every hint and wedges no leaf. */
  lemma SplitLeaves(s: Pages, levels: Levels, s': Pages, levels': Levels, root: PageId, at: nat, right: PageId, k: nat)
    requires TreeOk(s, levels, root) && SplitStep(s, levels, s', levels', 0, at, right, k)
    ensures LeavesKept(s, levels[0], s', levels'[0])
  {
    NeighboursApart(s, levels, root, 0);
    PageAt(s, levels, root, 0, at);
    SplitPages(s, levels, s', levels', at, right, k);
    CompactHalves(At(s, levels[0][at]), levels[0][at], right, k, At(s', levels[0][at]), At(s', right));
    hide TreeOk, Bytes, Sorted, Linked, HintsReach, HintsSeen, FreeSpace;
    assert Compact(s, levels[0]) ==> Compact(s', levels'[0]) by { hide Halved; }
    SplitKeepsHints(s, levels[0], s', levels'[0], at, k);
    forall e: Entry | |e.key| <= MAX_INDEX_KEY_BYTES && AnyWedged(s', levels'[0], e)
      ensures AnyWedged(s, levels[0], e)
    {
      HalfHasRoom(At(s, levels[0][at]), levels[0][at], right, k, At(s', levels[0][at]), At(s', right), e);
      var i :| 0 <= i < |levels'[0]| && Wedged(s', levels'[0][i], e);
      assert i != at && i != at + 1;
      assert Wedged(s, levels[0][if i < at then i else i - 1], e);
    }
  }

  /** After the cut the entry has its place and the room for it on the half it sorts into. */
  lemma HalfIsReady(s: Pages, levels: Levels, s': Pages, levels': Levels, root: PageId, at: nat, right: PageId, k: nat,
                    e: Entry)
    requires TreeOk(s, levels, root) && SplitStep(s, levels, s', levels', 0, at, right, k)
    requires At(s, levels[0][at]).Page? && SplitAround(At(s, levels[0][at]), Some(e), k)
    requires e !in EntriesOf(s, levels[0][at])
    requires CutChain(s, levels[0], s', levels'[0], at, k) && ChainOk(s, levels[0]) && ChainOk(s', levels'[0])
    requires PositionAt(s, levels[0], at, e)
    requires |levels'| > 0 && |levels'[0]| == |levels[0]| + 1 && levels'[0][at] == levels[0][at]
    requires levels'[0][at + 1] == right
    requires Open(s', levels[0][at]) && At(s', levels[0][at]).next == right
    requires At(s', right).Page? && At(s', right).entries != [] && |At(s', right).entries[0].key| <= MAX_INDEX_KEY_BYTES
    ensures HalfReady(s', levels', levels[0][at], right, at, e)
  {
    assert |levels| > 0 && at < |levels[0]| && 1 <= k < |At(s, levels[0][at]).entries|;
    hide TreeOk, Sorted, Flat, SplitStep, SplitAround, CutChain, PositionAt, Linked;
    LeafHalfHasRoom(s, levels, s', levels', root, at, right, k, e);
    SplitPosition(s, levels[0], s', levels'[0], at, k, e);
  }

  lemma LeafHalfHasRoom(s: Pages, levels: Levels, s': Pages, levels': Levels, root: PageId, at: nat, right: PageId,
                        k: nat, e: Entry)
    requires TreeOk(s, levels, root) && SplitStep(s, levels, s', levels', 0, at, right, k)
    requires At(s, levels[0][at]).Page? && SplitAround(At(s, levels[0][at]), Some(e), k)
    requires e !in EntriesOf(s, levels[0][at])
    ensures At(s', levels[0][at]).Page? && At(s', right).Page? && At(s', right).entries != []
    ensures At(s', right).entries[0] == At(s, levels[0][at]).entries[k]
    ensures Less(e, At(s', right).entries[0]) ==> Cost(0, e) <= FreeSpace(At(s', levels[0][at]))
    ensures !Less(e, At(s', right).entries[0]) ==> Cost(0, e) <= FreeSpace(At(s', right))
    ensures e !in At(s', levels[0][at]).entries && e !in At(s', right).entries
  {
    PageAt(s, levels, root, 0, at);
    hide TreeOk, Sorted;
    var was := At(s, levels[0][at]);
    var p :| IsLowerBound(was.entries, e, p) && ValidSplit(was.level, was.entries, e, p, k);
    ReservedRoom(was, k, At(s', levels[0][at]), At(s', right), e, p);
    assert forall x :: x in was.entries[..k] || x in was.entries[k..] ==> x in was.entries;
  }

  /** An entry insert leaves every mark, and every page above the leaves, as it was. */
  lemma LeafMarks(s: Pages, s': Pages, levels: Levels, root: PageId, t: nat, left: PageId)
    requires TreeOk(s, levels, root) && t < |levels[0]|
    requires s' == s[levels[0][t] := At(s', levels[0][t])] && At(s, levels[0][t]).Page? && At(s', levels[0][t]).Page?
    requires At(s', levels[0][t]).flags == At(s, levels[0][t]).flags
    requires At(s', levels[0][t]).next == At(s, levels[0][t]).next
    ensures MarksKept(s, s', levels, left)
  {
    hide TreeOk, Sorted;
    forall m, x | 0 < m < |levels| && 0 <= x < |levels[m]| ensures At(s', levels[m][x]) == At(s, levels[m][x]) {
      TreeApart(s, levels, root, m, 0, x);
    }
  }

  /** A Commit cascade above the leaves changes nothing a reader of the leaf chain sees. */
  lemma BodiesKeep(s: Pages, levels: Levels, s': Pages, levels': Levels, root': PageId)
    requires UntouchedUpTo(s, levels, s', levels', 0) && TreeOk(s', levels', root')
    ensures Flat(s', levels'[0]) == Flat(s, levels[0])
    ensures ChainOk(s, levels[0]) ==> ChainOk(s', levels'[0])
    ensures LeavesKept(s, levels[0], s', levels'[0])
  {
    NeighboursApart(s', levels', root', 0);
    hide TreeOk, Sorted, Linked;
    forall i | 0 <= i < |levels[0]| ensures EntriesOf(s', levels[0][i]) == EntriesOf(s, levels[0][i]) {
      assert SameBody(At(s', levels[0][i]), At(s, levels[0][i]));
    }
    FlatFrame(s, s', levels[0]);
    hide Flat;
    BodiesLeaves(s, s', levels[0]);
  }

  lemma BodiesTails(s: Pages, levels: Levels, s': Pages, levels': Levels, e: Entry)
    requires UntouchedUpTo(s, levels, s', levels', 0)
    ensures TailKept(s, levels[0], s', levels'[0], e)
  {
    forall i | 0 <= i < |levels[0]| ensures EntriesOf(s', levels[0][i]) == EntriesOf(s, levels[0][i]) {
      assert SameBody(At(s', levels[0][i]), At(s, levels[0][i]));
    }
  }

  /** Splitting another leaf makes no tail of the pair. */
  lemma SplitTails(s: Pages, levels: Levels, s': Pages, levels': Levels, root: PageId, at: nat, right: PageId, k: nat,
                   e: Entry)
    requires TreeOk(s, levels, root) && SplitStep(s, levels, s', levels', 0, at, right, k)
    requires e !in EntriesOf(s, levels[0][at])
    ensures TailKept(s, levels[0], s', levels'[0], e)
  {
    NeighboursApart(s, levels, root, 0);
    SplitPages(s, levels, s', levels', at, right, k);
    hide TreeOk, Bytes, Sorted, Linked, SplitStep;
    if IsTail(s', levels'[0], e) {
      var chain, chain' := levels[0], levels'[0];
      var x :| 0 <= x && x + 1 < |chain'| && EntriesOf(s', chain'[x]) != [] && LastOf(EntriesOf(s', chain'[x])) == e;
      assert e in EntriesOf(s', chain'[x]);
      assert x != at && x != at + 1 by {
        assert forall z :: z in EntriesOf(s, chain[at])[..k] || z in EntriesOf(s, chain[at])[k..] ==>
          z in EntriesOf(s, chain[at]);
      }
      var y := if x < at then x else x - 1;
      assert EntriesOf(s, chain[y]) == EntriesOf(s', chain'[x]);
    }
  }

  lemma BodiesLeaves(s: Pages, s': Pages, chain: seq<PageId>)
    requires forall i :: 0 <= i < |chain| ==> SameBody(At(s', chain[i]), At(s, chain[i]))
    ensures LeavesKept(s, chain, s', chain)
  {
    forall i | 0 <= i < |chain| ensures EntriesOf(s', chain[i]) == EntriesOf(s, chain[i]) {
      assert SameBody(At(s', chain[i]), At(s, chain[i]));
    }
    forall c | 0 <= c < |chain| && HintSeen(s, chain, c) ensures HintSeen(s', chain, c) {
      assert SameBody(At(s', chain[c]), At(s, chain[c]));
    }
    assert HintsReach(s, chain) ==> HintsReach(s', chain);
    assert HintsSeen(s, chain) ==> HintsSeen(s', chain);
    forall e: Entry | |e.key| <= MAX_INDEX_KEY_BYTES && AnyWedged(s', chain, e) ensures AnyWedged(s, chain, e) {
      var i :| 0 <= i < |chain| && Wedged(s', chain[i], e);
      assert SameBody(At(s', chain[i]), At(s, chain[i])) && Wedged(s, chain[i], e);
    }
  }

  /** A Commit with nothing else open leaves nothing open, and touches only the parent and the mark. */
  lemma CommitCloses(s: Pages, levels: Levels, root: PageId, l: nat, i: nat, j: nat, slot: nat, sep: seq<byte>,
                     right: PageId, s': Pages)
    requires TreeOk(s, levels, root) && l + 1 < |levels| && i < |levels[l]| && j < |levels[l + 1]|
    requires Committed(At(s, levels[l][i]), At(s, levels[l + 1][j]), slot, sep, right, At(s', levels[l][i]),
      At(s', levels[l + 1][j]))
    requires s' == s[levels[l + 1][j] := At(s', levels[l + 1][j])][levels[l][i] := At(s', levels[l][i])]
    ensures OnlyOpen(s, levels, l, levels[l][i]) ==> NoneOpen(s', levels, l)
    ensures UntouchedUpTo(s, levels, s', levels, l)
  {
    hide TreeOk, Sorted, Names;
    var left, parent := levels[l][i], levels[l + 1][j];
    forall m | 0 <= m < |levels| && m != l + 1 ensures parent !in levels[m] { TreeApart(s, levels, root, l + 1, m, j); }
    forall m | 0 <= m < |levels| && m != l ensures left !in levels[m] { TreeApart(s, levels, root, l, m, i); }
    forall m | 0 <= m < |levels| ensures forall x :: 0 <= x < |levels[m]| ==> At(s, levels[m][x]).Page? {
      forall x | 0 <= x < |levels[m]| ensures At(s, levels[m][x]).Page? { PageAt(s, levels, root, m, x); }
    }
    assert parent !in levels[l] && left !in levels[l + 1];
  }

  lemma UntouchedAtAll(pages: Pages, levels: Levels, root: PageId, l: nat)
    requires TreeOk(pages, levels, root) && l < |levels|
    ensures UntouchedUpTo(pages, levels, pages, levels, l)
  {
    LevelIsPages(pages, levels, root, l);
  }

  /** A new root above touches nothing below it, and is closed. */
  lemma NewRootApart(s: Pages, levels: Levels, left: PageId, s': Pages, levels': Levels, l: nat, id: PageId, lsn: nat)
    requires UntouchedUpTo(s, levels, s, levels, l) && l + 1 == |levels| && Unused(levels, id)
    requires levels' == levels + [[id]]
    requires s' == s[id := NewRootPage(l + 1, left, lsn)]
    ensures UntouchedUpTo(s, levels, s', levels', l)
    ensures OnlyOpen(s, levels, l, left) ==> OnlyOpen(s', levels', l, left)
  {
  }

  /** The parent is closed, has entries enough, and does not name the new page yet. */
  lemma ParentSplits(pages: Pages, levels: Levels, root: PageId, l: nat, i: nat, j: nat, e: Entry)
    requires TreeOk(pages, levels, root) && l + 1 < |levels| && i < |levels[l]| && j < |levels[l + 1]|
    requires OnlyOpen(pages, levels, l, levels[l][i]) && Open(pages, levels[l][i])
    requires At(pages, levels[l][i]).next == e.ptr
    requires |e.key| <= MAX_INDEX_KEY_BYTES && At(pages, levels[l + 1][j]).Page?
    requires FreeSpace(At(pages, levels[l + 1][j])) < Cost(l + 1, e)
    ensures !Open(pages, levels[l + 1][j]) && |EntriesOf(pages, levels[l + 1][j])| >= 2
    ensures e !in EntriesOf(pages, levels[l + 1][j])
  {
    TreeApart(pages, levels, root, l + 1, l, j);
    PageAt(pages, levels, root, l + 1, j);
    FullInternalSplits(At(pages, levels[l + 1][j]), levels[l + 1][j], l + 1, root, e);
    NoDownlinkYet(pages, levels, root, l, i, j, e);
  }

  /** A split of level `m` leaves every other level alone. */
  lemma SplitElsewhere(s: Pages, levels: Levels, s': Pages, levels': Levels, root: PageId, l: nat, i: nat,
                       right: PageId, k: nat, m: nat)
    requires TreeOk(s, levels, root) && SplitStep(s, levels, s', levels', l, i, right, k) && m < |levels| && m != l
    ensures levels'[m] == levels[m] && SamePages(s, s', levels[m])
  {
    TreeApart(s, levels, root, l, m, i);
  }

  /** After a split only the left half is new among the open pages of its level and above. */
  lemma SplitOpens(s: Pages, levels: Levels, s': Pages, levels': Levels, root: PageId, l: nat, i: nat, right: PageId,
                   k: nat)
    requires TreeOk(s, levels, root) && SplitStep(s, levels, s', levels', l, i, right, k) && NoneOpen(s, levels, l)
    ensures OnlyOpen(s', levels', l, levels[l][i]) && Open(s', levels[l][i]) && At(s', levels[l][i]).next == right
  {
    hide TreeOk, Bytes;
    forall m, x | l <= m < |levels'| && 0 <= x < |levels'[m]| && Open(s', levels'[m][x])
      ensures levels'[m][x] == levels[l][i]
    {
      if m == l {
        SplicedAt(levels[l], i, right, x);
      } else {
        SplitElsewhere(s, levels, s', levels', root, l, i, right, k, m);
      }
    }
  }

  lemma AfterParentSplit(s0: Pages, lv0: Levels, s1: Pages, lv1: Levels, root: PageId, l: nat, i: nat, j: nat,
                         twin: PageId, k: nat, rest: seq<PageId>)
    requires TreeOk(s0, lv0, root) && l + 1 < |lv0| && i < |lv0[l]| && SplitStep(s0, lv0, s1, lv1, l + 1, j, twin, k)
    requires OnlyOpen(s0, lv0, l, lv0[l][i]) && PathAbove(rest, lv0, l + 1)
    ensures PathAbove(rest, lv1, l + 1) && j + 1 < |lv1[l + 1]| && lv1[l + 1][j] == lv0[l + 1][j]
    ensures lv1[l + 1][j + 1] == twin
    ensures OnlyOpen(s1, lv1, l + 1, lv0[l + 1][j]) && Open(s1, lv0[l + 1][j]) && At(s1, lv0[l + 1][j]).next == twin
    ensures At(s1, twin).Page? && At(s1, twin).entries != [] && |At(s1, twin).entries[0].key| <= MAX_INDEX_KEY_BYTES
    ensures UntouchedUpTo(s0, lv0, s1, lv1, l) && SamePages(s0, s1, lv0[l])
    ensures InnerSorted(s0, lv0, l) ==> InnerSorted(s1, lv1, l + 1)
  {
    hide TreeOk, Bytes, Sorted;
    forall m | 0 <= m < |lv0| && m != l + 1 ensures lv1[m] == lv0[m] && SamePages(s0, s1, lv0[m]) {
      SplitElsewhere(s0, lv0, s1, lv1, root, l + 1, j, twin, k, m);
    }
    assert NoneOpen(s0, lv0, l + 1) by {
      forall m, x | l + 1 <= m < |lv0| && 0 <= x < |lv0[m]| ensures !Open(s0, lv0[m][x]) {
        TreeApart(s0, lv0, root, m, l, x);
      }
    }
    SplitOpens(s0, lv0, s1, lv1, root, l + 1, j, twin, k);
    SplicedAt(lv0[l + 1], j, twin, j);
    SplicedAt(lv0[l + 1], j, twin, j + 1);
    PageAt(s0, lv0, root, l + 1, j);
    LevelIsPages(s0, lv0, root, l);
  }

  lemma CascadeFrame(s0: Pages, lv0: Levels, s1: Pages, lv1: Levels, s2: Pages, lv2: Levels, l: nat)
    requires UntouchedUpTo(s0, lv0, s1, lv1, l) && UntouchedUpTo(s1, lv1, s2, lv2, l + 1)
    ensures UntouchedUpTo(s0, lv0, s2, lv2, l)
  {
    forall m | 0 <= m < l ensures SamePages(s0, s2, lv0[m]) {
      assert SamePages(s0, s1, lv0[m]) && SamePages(s1, s2, lv1[m]);
    }
    assert SamePages(s1, s2, lv1[l]);
  }

  lemma UntouchedTransitive(s0: Pages, lv0: Levels, s1: Pages, lv1: Levels, s2: Pages, lv2: Levels, l: nat)
    requires UntouchedUpTo(s0, lv0, s1, lv1, l) && UntouchedUpTo(s1, lv1, s2, lv2, l)
    ensures UntouchedUpTo(s0, lv0, s2, lv2, l)
  {
    forall m | 0 <= m < l ensures SamePages(s0, s2, lv0[m]) {
      assert SamePages(s0, s1, lv0[m]) && SamePages(s1, s2, lv1[m]);
    }
  }

  lemma BackAtLevel(s0: Pages, lv0: Levels, s1: Pages, lv1: Levels, s2: Pages, lv2: Levels, l: nat, i: nat, j: nat,
                    twin: PageId, k: nat)
    requires l + 1 < |lv0| && i < |lv0[l]| && SplitStep(s0, lv0, s1, lv1, l + 1, j, twin, k)
    requires UntouchedUpTo(s0, lv0, s1, lv1, l)
    requires SamePages(s0, s1, lv0[l]) && UntouchedUpTo(s1, lv1, s2, lv2, l + 1) && NoneOpen(s2, lv2, l + 1)
    requires OnlyOpen(s0, lv0, l, lv0[l][i])
    ensures At(s2, lv0[l][i]) == At(s0, lv0[l][i]) && i < |lv2[l]| && lv2[l][i] == lv0[l][i]
    ensures OnlyOpen(s2, lv2, l, lv0[l][i])
    ensures l + 1 < |lv2| && j + 1 < |lv2[l + 1]| && lv2[l + 1][j] == lv0[l + 1][j] && lv2[l + 1][j + 1] == twin
    ensures SameBody(At(s2, lv0[l + 1][j]), At(s1, lv0[l + 1][j])) && SameBody(At(s2, twin), At(s1, twin))
  {
    SplicedAt(lv0[l + 1], j, twin, j);
    SplicedAt(lv0[l + 1], j, twin, j + 1);
    assert SamePages(s1, s2, lv1[l]);
  }

  /** With the parent in order, the half the Commit picks has the room the split point reserved. */
  lemma ChosenHalfHasRoom(s0: Pages, lv0: Levels, s1: Pages, lv1: Levels, s2: Pages, l: nat, j: nat, twin: PageId,
                          k: nat, e: Entry)
    requires SplitStep(s0, lv0, s1, lv1, l + 1, j, twin, k) && At(s0, lv0[l + 1][j]).level == l + 1
    requires SplitAround(At(s0, lv0[l + 1][j]), Some(e), k) && e !in At(s0, lv0[l + 1][j]).entries
    requires SameBody(At(s2, lv0[l + 1][j]), At(s1, lv0[l + 1][j])) && SameBody(At(s2, twin), At(s1, twin))
    ensures InnerSorted(s0, lv0, l) && Less(e, At(s1, twin).entries[0]) ==>
      Cost(l + 1, e) <= FreeSpace(At(s2, lv0[l + 1][j]))
    ensures InnerSorted(s0, lv0, l) && !Less(e, At(s1, twin).entries[0]) ==> Cost(l + 1, e) <= FreeSpace(At(s2, twin))
  {
    if InnerSorted(s0, lv0, l) {
      var was := At(s0, lv0[l + 1][j]);
      assert Sorted(EntriesOf(s0, lv0[l + 1][j]));
      var p :| IsLowerBound(was.entries, e, p) && ValidSplit(was.level, was.entries, e, p, k);
      ReservedRoom(was, k, At(s1, lv0[l + 1][j]), At(s1, twin), e, p);
    }
  }

  lemma NewRootWrites(s: Pages, id: PageId, left: PageId, level: nat, lsn: nat)
    requires lsn > 0 && level > 0
    ensures var flags := Flags(false, true, false);
      var init, seed := Image(id, InitPage(level, flags)), Insert(id, 0, level, flags, Entry([], left, 0));
      && Allowed(init, lsn, s) && Allowed(seed, lsn + 1, Do(init, lsn, s))
      && Do(seed, lsn + 1, Do(init, lsn, s)) == s[id := NewRootPage(level, left, lsn + 1)]
  {
    var flags := Flags(false, true, false);
    var s1 := Do(Image(id, InitPage(level, flags)), lsn, s);
    var s2 := Do(Insert(id, 0, level, flags, Entry([], left, 0)), lsn + 1, s1);
    assert At(s2, id) == NewRootPage(level, left, lsn + 1);
  }

  // ---------------------------------------------------------------- the leaf chain across a split

  /** The write descent's leaf holds the probe's position if the probe does not sort to its left edge, or if
      nothing is left of it. */
  lemma InteriorPosition(pages: Pages, chain: seq<PageId>, at: nat, pos: nat, e: Entry)
    requires ChainOk(pages, chain) && RightClear(pages, chain, at, e)
    requires IsLowerBound(EntriesOf(pages, chain[at]), e, pos)
    requires pos > 0 || (At(pages, chain[at]).Page? && At(pages, chain[at]).prev == INVALID)
    ensures PositionAt(pages, chain, at, e)
  {
    if pos > 0 {
      var first := EntriesOf(pages, chain[at])[0];
      assert Less(first, e);
      LessTotal(first, e);
      BelowLeftOf(pages, chain, at, first, e);
    } else {
      NoInvalid(pages, chain);
      assert LinkOk(pages, chain, at);
    }
  }

  /** The pages of a chain whose page `at` was cut in two. */
  ghost predicate CutChain(s: Pages, chain: seq<PageId>, s': Pages, chain': seq<PageId>, at: nat, k: nat) {
    && at < |chain| && |chain'| == |chain| + 1 && chain'[at] == chain[at]
    && (forall j :: 0 <= j < at ==> chain'[j] == chain[j] && At(s', chain'[j]) == At(s, chain[j]))
    && (forall j :: at + 1 < j < |chain'| ==> chain'[j] == chain[j - 1] && At(s', chain'[j]) == At(s, chain[j - 1]))
    && 1 <= k < |EntriesOf(s, chain[at])|
    && EntriesOf(s', chain'[at]) == EntriesOf(s, chain[at])[..k]
    && EntriesOf(s', chain'[at + 1]) == EntriesOf(s, chain[at])[k..]
    && At(s, chain[at]).Page? && At(s', chain[at]).Page? && At(s', chain[at]).prev == At(s, chain[at]).prev
    && At(s', chain'[at + 1]).Page? && At(s', chain'[at + 1]).prev == chain[at]
  }

  lemma SplitPages(s: Pages, levels: Levels, s': Pages, levels': Levels, at: nat, right: PageId, k: nat)
    requires SplitStep(s, levels, s', levels', 0, at, right, k) && NoDup(levels[0])
    ensures CutChain(s, levels[0], s', levels'[0], at, k) && levels'[0][at + 1] == right
  {
    hide Bytes;
    forall j | 0 <= j < |levels'[0]|
      ensures levels'[0][j] == if j <= at then levels[0][j] else if j == at + 1 then right else levels[0][j - 1]
    {
      SplicedAt(levels[0], at, right, j);
    }
    assert right !in levels[0] && |levels'[0]| == |levels[0]| + 1;
  }

  /** The halves of a sorted run around an entry it lacks. */
  lemma HalvesAround(es: seq<Entry>, k: nat, e: Entry)
    requires Sorted(es) && k < |es| && e !in es
    ensures Less(e, es[k]) ==> AllAbove(es[k..], e)
    ensures !Less(e, es[k]) ==> AllBelow(es[..k], e)
  {
    LessOrder();
    hide Less;
    assert forall x :: 0 <= x < k ==> Less(es[x], es[k]);
    assert forall x :: k < x < |es| ==> Less(es[k], es[x]);
  }

  /** After the split the half the entry sorts into holds its position. */
  lemma SplitPosition(s: Pages, chain: seq<PageId>, s': Pages, chain': seq<PageId>, at: nat, k: nat, e: Entry)
    requires CutChain(s, chain, s', chain', at, k) && ChainOk(s, chain)
    requires PositionAt(s, chain, at, e) && e !in EntriesOf(s, chain[at])
    ensures PositionAt(s', chain', if Less(e, EntriesOf(s, chain[at])[k]) then at else at + 1, e)
  {
    hide Flat, Less, Linked, Sorted, AllAbove, AllBelow;
    var es := EntriesOf(s, chain[at]);
    PageOrder(s, chain, at, at);
    HalvesAround(es, k, e);
    var to := if Less(e, es[k]) then at else at + 1;
    forall j | 0 <= j < to ensures AllBelow(EntriesOf(s', chain'[j]), e) {
      if j < at { assert EntriesOf(s', chain'[j]) == EntriesOf(s, chain[j]); }
    }
    forall j | to < j < |chain'| ensures AllAbove(EntriesOf(s', chain'[j]), e) {
      if at + 1 < j { assert EntriesOf(s', chain'[j]) == EntriesOf(s, chain[j - 1]); }
    }
  }

  /** A split keeps every hint that was seen, and its right half's hint sees the left. */
  lemma SplitKeepsHints(s: Pages, chain: seq<PageId>, s': Pages, chain': seq<PageId>, at: nat, k: nat)
    requires CutChain(s, chain, s', chain', at, k)
    ensures HintsReach(s, chain) ==> HintsReach(s', chain')
    ensures HintsSeen(s, chain) ==> HintsSeen(s', chain')
  {
    assert HintSeen(s', chain', at + 1) by { assert EntriesOf(s', chain'[at]) != []; }
    forall c | 0 <= c < |chain'| && c != at + 1 && HintSeen(s, chain, if c <= at then c else c - 1)
      ensures HintSeen(s', chain', c)
    {
      ShiftedHint(s, chain, s', chain', at, k, c);
    }
    hide HintSeen;
    if HintsReach(s, chain) {
      forall c, j | 0 <= j < c < |chain'| && EntriesOf(s', chain'[j]) != [] ensures HintSeen(s', chain', c) {
        assert EntriesOf(s, chain[if j <= at then j else j - 1]) != [];
        assert c != at + 1 ==> HintSeen(s, chain, if c <= at then c else c - 1);
      }
    }
  }

  lemma ShiftedHint(s: Pages, chain: seq<PageId>, s': Pages, chain': seq<PageId>, at: nat, k: nat, c: nat)
    requires CutChain(s, chain, s', chain', at, k)
    requires c < |chain'| && c != at + 1 && HintSeen(s, chain, if c <= at then c else c - 1)
    ensures HintSeen(s', chain', c)
  {
    var was := if c <= at then c else c - 1;
    var h, i :| 0 <= h <= i < was && At(s, chain[was]).Page? && chain[h] == At(s, chain[was]).prev &&
        EntriesOf(s, chain[i]) != [];
    var h', i' := if h <= at then h else h + 1, if i <= at then i else i + 1;
    assert At(s', chain'[c]).Page? && At(s', chain'[c]).prev == At(s, chain[was]).prev;
    assert chain'[h'] == chain[h];
    assert EntriesOf(s', chain'[i']) != [];
  }

  // ---------------------------------------------------------------- what a quiescent tree is worth

  /** With no split in flight every page below the top is named by exactly one downlink, from the level
      directly above, and the root is alone on top. */
  lemma OneDownlinkEach(pages: Pages, levels: Levels, root: PageId, l: nat, q: PageId)
    requires TreeOk(pages, levels, root) && NoneOpen(pages, levels, 0) && l < |levels|
    ensures l + 1 < |levels| ==> Names(pages, levels[l + 1], true, q) == if q in levels[l] then 1 else 0
    ensures l + 1 == |levels| ==> (q in levels[l] <==> q == root)
  {
    NothingPending(pages, levels[l], q);
    assert NamedOnce(pages, levels, root, l);
    assert Downlinks(pages, levels, root, l, q) + Names(pages, levels[l], false, q) == if q in levels[l] then 1 else 0;
  }

  lemma {:induction false} NothingPending(pages: Pages, chain: seq<PageId>, q: PageId)
    requires forall i :: 0 <= i < |chain| ==> !Open(pages, chain[i])
    ensures Names(pages, chain, false, q) == 0
  {
    if chain != [] {
      NothingPending(pages, chain[..|chain| - 1], q);
      assert !Open(pages, chain[|chain| - 1]);
    }
  }

  /** The new root's second downlink goes to slot 1 unseen: the root page that a promotion and its Commit leave is in
      `(key, child)` order exactly when the separator is not the empty key or the right page's id is the larger. */
  lemma NewRootOrder(pages: Pages, root: PageId, left: PageId, right: PageId, sep: seq<byte>)
    requires left != right && EntriesOf(pages, root) == [Entry([], left, 0), Entry(sep, right, 0)]
    ensures Sorted(EntriesOf(pages, root)) <==> sep != [] || left < right
  {
    var s := EntriesOf(pages, root);
    assert Sorted(s) <==> Less(s[0], s[1]);
  }

  /** A fresh root leaf, three entries with keys of the largest size, all three deleted again. */
  function FillAndDrain(a: Entry, b: Entry, c: Entry): seq<Record> {
    var leaf := Flags(true, true, false);
    [Image(2, InitPage(0, leaf)), Insert(2, 0, 0, leaf, a), Insert(2, 1, 0, leaf, b), Insert(2, 2, 0, leaf, c),
     Delete(2, 0), Delete(2, 0), Delete(2, 0)]
  }

  function DrainedLeaf(entries: seq<Entry>, lsn: nat): Page {
    Page(0, Flags(true, true, false), INVALID, INVALID, entries,
      SPECIAL - 3 * (MAX_INDEX_KEY_BYTES + LEAF_TRAILER_SIZE), lsn)
  }

  lemma OnePageStep(wal: seq<Record>, k: nat, id: PageId, p: Page, q: Page)
    requires k < |wal| && Run(wal, k) == Some(map[id := p]) && p.Page?
    requires Allowed(wal[k], LsnOf(k), map[id := p]) && Do(wal[k], LsnOf(k), map[id := p]) == map[id := p][id := q]
    ensures Run(wal, k + 1) == Some(map[id := q])
  {
    var s: Pages := map[id := p];
    assert s[id := q] == map[id := q];
  }

  lemma AppendRun(wal: seq<Record>, k: nat, id: PageId, p: Page, e: Entry) returns (q: Page)
    requires k < |wal| && Run(wal, k) == Some(map[id := p]) && p.Page? && p.lsn == k
    requires wal[k] == Insert(id, |p.entries|, p.level, p.flags, e) && InsertEntryAt(p, |p.entries|, e).Ok?
    ensures q == p.(entries := p.entries + [e], upper := p.upper - EntryLen(p.level, e), lsn := k + 1)
    ensures Run(wal, k + 1) == Some(map[id := q])
  {
    q := p.(entries := p.entries + [e], upper := p.upper - EntryLen(p.level, e), lsn := k + 1);
    assert p.entries[..|p.entries|] + [e] + p.entries[|p.entries|..] == p.entries + [e];
    OnePageStep(wal, k, id, p, q);
  }

  /** The three inserts fill the page up to eight bytes. */
  lemma FillRun(wal: seq<Record>, a: Entry, b: Entry, c: Entry) returns (p: Page)
    requires |a.key| == |b.key| == |c.key| == MAX_INDEX_KEY_BYTES && wal == FillAndDrain(a, b, c)
    ensures p == DrainedLeaf([a, b, c], 4) && Run(wal, 4) == Some(map[2 := p])
  {
    p := InitPage(0, Flags(true, true, false)).(lsn := 1);
    assert Run(wal, 0) == Some(map[]);
    assert Run(wal, 1) == Some(map[2 := p]);
    hide Run;
    p := AppendRun(wal, 1, 2, p, a);
    p := AppendRun(wal, 2, 2, p, b);
    p := AppendRun(wal, 3, 2, p, c);
  }

  /** The deletes give none of it back. */
  lemma DrainRun(a: Entry, b: Entry, c: Entry)
    requires |a.key| == |b.key| == |c.key| == MAX_INDEX_KEY_BYTES
    ensures Run(FillAndDrain(a, b, c), 7) == Some(map[2 := DrainedLeaf([], 7)])
  {
    var wal := FillAndDrain(a, b, c);
    var p := FillRun(wal, a, b, c);
    var p5, p6, p7 := p.(entries := [b, c], lsn := 5), p.(entries := [c], lsn := 6), p.(entries := [], lsn := 7);
    assert p.entries[..0] + p.entries[1..] == p5.entries;
    OnePageStep(wal, 4, 2, p, p5);
    assert p5.entries[..0] + p5.entries[1..] == p6.entries;
    OnePageStep(wal, 5, 2, p5, p6);
    assert p6.entries[..0] + p6.entries[1..] == p7.entries;
    OnePageStep(wal, 6, 2, p6, p7);
  }

  /** So a tree the index itself writes refuses every key of seven bytes or more, although it is empty and the key is
      within the bound. */
  lemma DeadSpaceWedges(a: Entry, b: Entry, c: Entry, e: Entry)
    requires |a.key| == |b.key| == |c.key| == MAX_INDEX_KEY_BYTES && Less(a, b) && Less(b, c)
    ensures Run(FillAndDrain(a, b, c), 7).Some?
    ensures var pages := Run(FillAndDrain(a, b, c), 7).value;
      && TreeOk(pages, [[2]], 2) && ChainOk(pages, [2]) && NoneOpen(pages, [[2]], 0) && AllocOk([[2]], [], 3)
      && Flat(pages, [2]) == [] && (Wedged(pages, 2, e) <==> |e.key| >= 7)
  {
    hide *;
    DrainRun(a, b, c);
    DrainedTree(map[2 := DrainedLeaf([], 7)], e);
  }

  lemma DrainedTree(pages: Pages, e: Entry)
    requires pages == map[2 := DrainedLeaf([], 7)]
    ensures TreeOk(pages, [[2]], 2) && ChainOk(pages, [2]) && NoneOpen(pages, [[2]], 0) && AllocOk([[2]], [], 3)
    ensures Flat(pages, [2]) == [] && (Wedged(pages, 2, e) <==> |e.key| >= 7)
  {
    hide TreeOk, ChainOk, NoneOpen, AllocOk, HintsSeen, Flat;
    LoneTree(pages, 2);
  }

  /** On the index that wrote this log every insert of such a key fails, and only those do. */
  method DrainedRefuses(index: BTreeIndex, a: Entry, b: Entry, c: Entry, key: seq<byte>, page: PageId, slot: nat,
                        budget: nat)
    returns (r: Result<(), IndexError>)
    requires |a.key| == |b.key| == |c.key| == MAX_INDEX_KEY_BYTES && Less(a, b) && Less(b, c)
    requires index.wal == FillAndDrain(a, b, c) && index.Logged() && index.levels == [[2]] && index.root == 2
    requires index.freelist == [] && index.fileEnd == 3 && |key| <= MAX_INDEX_KEY_BYTES
    modifies index
    ensures r == if |key| >= 7 then Err(Unsplittable) else Ok(())
  {
    hide TreeOk, ChainOk, NoneOpen, AllocOk, HintsSeen, Flat, Run, FillAndDrain, Wedged, Less;
    assert |index.wal| == 7 by { LogLength(a, b, c); }
    DeadSpaceWedges(a, b, c, Entry(key, page, slot));
    r := index.InsertEntry(key, page, slot, budget);
  }

  lemma LogLength(a: Entry, b: Entry, c: Entry)
    ensures |FillAndDrain(a, b, c)| == 7
  {
  }

  // ---------------------------------------------------------------- an empty separator

  /** A root leaf with two entries under the empty key. */
  function EmptyKeys(): Page {
    Page(0, Flags(true, true, false), INVALID, INVALID, [Entry([], 9, 0), Entry([], 9, 1)], SPECIAL - 20, 3)
  }

  /** The log of an index that put them on page 4. */
  function EmptyKeysLog(): seq<Record> {
    var leaf := Flags(true, true, false);
    [Image(4, InitPage(0, leaf)), Insert(4, 0, 0, leaf, Entry([], 9, 0)), Insert(4, 1, 0, leaf, Entry([], 9, 1))]
  }

  lemma EmptyKeysRun()
    ensures |EmptyKeysLog()| == 3 && Run(EmptyKeysLog(), 3) == Some(map[4 := EmptyKeys()])
  {
    var wal, p := EmptyKeysLog(), InitPage(0, Flags(true, true, false)).(lsn := 1);
    assert Run(wal, 0) == Some(map[]);
    assert Run(wal, 1) == Some(map[4 := p]);
    hide Run;
    p := AppendRun(wal, 1, 4, p, Entry([], 9, 0));
    p := AppendRun(wal, 2, 4, p, Entry([], 9, 1));
    assert p.entries == EmptyKeys().entries;
  }

  lemma EmptyKeysFit()
    ensures PageOk(EmptyKeys(), 4, 0, 4)
  {
    var a, b := Entry([], 9, 0), Entry([], 9, 1);
    assert Bytes(0, [a, b]) == 20 by {
      BytesOne(0, a);
      BytesOne(0, b);
      BytesConcat(0, [a], [b]);
      assert [a] + [b] == [a, b];
    }
    hide Bytes;
    assert Less(a, b);
  }

  lemma EmptyKeysTree(pages: Pages)
    requires pages == map[4 := EmptyKeys()]
    ensures TreeOk(pages, [[4]], 4) && ChainOk(pages, [4]) && NoneOpen(pages, [[4]], 0) && AllocOk([[4]], [3], 5)
  {
    hide TreeOk, ChainOk, Bytes, Flat, HintsSeen, PageOk;
    EmptyKeysFit();
    LoneTree(pages, 4);
    var levels: Levels := [[4]];
    assert Unused(levels, 3);
  }

  /** On such an index in a file whose page 3 was given back, the split onto that page and its Commit leave a root
      out of order. */
  method EmptySeparator(index: BTreeIndex) returns (r: Result<(), IndexError>)
    requires index.wal == EmptyKeysLog() && index.Logged() && index.levels == [[4]] && index.root == 4
    requires index.freelist == [3] && index.fileEnd == 5
    modifies index
    ensures r.Ok? && index.Valid() && NoneOpen(index.pages, index.levels, 0)
    ensures |index.levels| == 2 && index.levels[1] == [index.root] && !InnerSorted(index.pages, index.levels, 0)
  {
    hide TreeOk, ChainOk, AllocOk, Flat, Neat, Bytes, EmptyKeysLog, Run;
    EmptyKeysRun();
    EmptyKeysTree(index.pages);
    ghost var s, lv := index.pages, index.levels;
    var right := index.NewPage();
    assert PathAbove([], index.levels, 0);
    var cut := index.SplitPage(4, right, None, 0, 0);
    assert cut.Ok?;
    SplitOpens(s, lv, index.pages, index.levels, 4, 0, 0, right, cut.value);
    SplicedAt([4], 0, right, 0);
    assert EntriesOf(index.pages, right) == [Entry([], 9, 1)] by { assert cut.value == 1; }
    ghost var lo;
    r, lo := index.SplitCommit(4, right, [], [], 0, 0, map[]);
    NewRootOrder(index.pages, index.root, 4, 3, []);
    assert index.levels[1][0] == index.root;
  }
}
