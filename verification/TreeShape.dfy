/** The whole tree as its levels: one sibling chain per level, leaves first. A page is reached either by a
    downlink from the level above or, while its split lacks its Commit, only through its left twin - never
    both, never neither. Each logged step keeps this. */
module TreeShape {
  import opened Entries
  import opened Layout
  import opened BtPages
  import opened BtLog
  import opened Chains
  import opened SplitPoint

  type Levels = seq<seq<PageId>>

  /** Page geometry: entries never overlap the line pointers, and only deletes leave dead bytes behind,
      which internal pages never see. */
  ghost predicate Fits(pg: Page)
    requires pg.Page?
  {
    && Lower(pg) <= pg.upper <= SPECIAL - Bytes(pg.level, pg.entries)
    && (pg.level > 0 ==> pg.upper == SPECIAL - Bytes(pg.level, pg.entries))
  }

  ghost predicate PageOk(pg: Page, p: PageId, l: nat, root: PageId) {
    && pg.Page? && pg.level == l && pg.flags.leaf == (l == 0)
    && (p == root ==> pg.flags.root)
    && (pg.flags.incomplete ==> pg.next != INVALID)
    && (l == 0 ==> Sorted(pg.entries)) && WithinKeyBound(pg.entries) && Fits(pg)
  }

  ghost predicate LevelOk(pages: Pages, chain: seq<PageId>, l: nat, root: PageId) {
    Linked(pages, chain) && forall i :: 0 <= i < |chain| ==> PageOk(At(pages, chain[i]), chain[i], l, root)
  }

  /** How often a run of internal entries names page `q`. */
  function PtrCount(s: seq<Entry>, q: PageId): nat {
    if s == [] then 0 else PtrCount(s[..|s| - 1], q) + (if s[|s| - 1].ptr == q then 1 else 0)
  }

  /** How often a page names page `q`: as a child (`down`), or as its right twin while its split lacks its Commit. */
  function PageNames(pg: Page, down: bool, q: PageId): nat {
    if pg.Zero? then 0
    else if down then PtrCount(pg.entries, q)
    else if pg.flags.incomplete && pg.next == q then 1
    else 0
  }

  function Names(pages: Pages, chain: seq<PageId>, down: bool, q: PageId): nat {
    if chain == [] then 0
    else Names(pages, chain[..|chain| - 1], down, q) + PageNames(At(pages, chain[|chain| - 1]), down, q)
  }

  /** The downlinks to page `q` of level `l`; the meta page names the root. */
  function Downlinks(pages: Pages, levels: Levels, root: PageId, l: nat, q: PageId): nat
    requires l < |levels|
  {
    if l + 1 < |levels| then Names(pages, levels[l + 1], true, q) else if q == root then 1 else 0
  }

  /** Every page of level `l`, and nothing else, is named from outside the level exactly once: by one
      downlink, or by its incomplete left twin. */
  ghost predicate NamedOnce(pages: Pages, levels: Levels, root: PageId, l: nat)
    requires l < |levels|
  {
    forall q :: Downlinks(pages, levels, root, l, q) + Names(pages, levels[l], false, q)
      == if q in levels[l] then 1 else 0
  }

  ghost predicate Shape(pages: Pages, levels: Levels, root: PageId) {
    |levels| > 0 && forall l :: 0 <= l < |levels| ==> LevelOk(pages, levels[l], l, root)
  }

  ghost predicate TreeOk(pages: Pages, levels: Levels, root: PageId) {
    Shape(pages, levels, root) && forall l :: 0 <= l < |levels| ==> NamedOnce(pages, levels, root, l)
  }

  // ---------------------------------------------------------------- sums over a chain

  lemma {:induction false} PtrCountConcat(a: seq<Entry>, b: seq<Entry>, q: PageId)
    ensures PtrCount(a + b, q) == PtrCount(a, q) + PtrCount(b, q)
  {
    if b == [] {
      assert a + b == a;
    } else {
      var c := a + b;
      PtrCountConcat(a, b[..|b| - 1], q);
      assert c[..|c| - 1] == a + b[..|b| - 1] && c[|c| - 1] == b[|b| - 1];
    }
  }

  lemma PtrCountInsert(s: seq<Entry>, slot: nat, e: Entry, q: PageId)
    requires slot <= |s|
    ensures PtrCount(s[..slot] + [e] + s[slot..], q) == PtrCount(s, q) + if e.ptr == q then 1 else 0
  {
    assert PtrCount([e], q) == if e.ptr == q then 1 else 0 by { assert [e][..0] == []; }
    hide PtrCount;
    PtrCountConcat(s[..slot] + [e], s[slot..], q);
    PtrCountConcat(s[..slot], [e], q);
    PtrCountConcat(s[..slot], s[slot..], q);
    assert s[..slot] + s[slot..] == s;
  }

  lemma {:induction false} PtrCounted(s: seq<Entry>, i: nat)
    requires i < |s|
    ensures PtrCount(s, s[i].ptr) > 0
  {
    if i < |s| - 1 { PtrCounted(s[..|s| - 1], i); }
  }

  lemma {:induction false} NamesConcat(pages: Pages, a: seq<PageId>, b: seq<PageId>, down: bool, q: PageId)
    ensures Names(pages, a + b, down, q) == Names(pages, a, down, q) + Names(pages, b, down, q)
  {
    if b == [] {
      assert a + b == a;
    } else {
      hide PageNames;
      var c := a + b;
      NamesConcat(pages, a, b[..|b| - 1], down, q);
      assert c[..|c| - 1] == a + b[..|b| - 1] && c[|c| - 1] == b[|b| - 1];
    }
  }

  lemma NamesAt(pages: Pages, chain: seq<PageId>, i: nat, down: bool, q: PageId)
    requires i < |chain|
    ensures Names(pages, chain, down, q) ==
      Names(pages, chain[..i], down, q) + PageNames(At(pages, chain[i]), down, q) + Names(pages, chain[i + 1..], down,
        q)
  {
    hide PageNames;
    assert Names(pages, [chain[i]], down, q) == PageNames(At(pages, chain[i]), down, q) by {
      assert [chain[i]][..0] == [];
    }
    hide Names;
    assert chain == chain[..i] + [chain[i]] + chain[i + 1..];
    NamesConcat(pages, chain[..i] + [chain[i]], chain[i + 1..], down, q);
    NamesConcat(pages, chain[..i], [chain[i]], down, q);
  }

  lemma {:induction false} NamesFrame(pages: Pages, pages': Pages, chain: seq<PageId>, down: bool, q: PageId)
    requires forall i :: 0 <= i < |chain| ==>
      PageNames(At(pages', chain[i]), down, q) == PageNames(At(pages, chain[i]), down, q)
    ensures Names(pages', chain, down, q) == Names(pages, chain, down, q)
  {
    if chain != [] {
      NamesFrame(pages, pages', chain[..|chain| - 1], down, q);
      assert PageNames(At(pages', chain[|chain| - 1]), down, q) == PageNames(At(pages, chain[|chain| - 1]), down, q);
    }
  }

  // ---------------------------------------------------------------- one page of one level changes

  ghost predicate SamePages(pages: Pages, pages': Pages, chain: seq<PageId>) {
    forall i :: 0 <= i < |chain| ==> At(pages', chain[i]) == At(pages, chain[i])
  }

  lemma LevelFrame(pages: Pages, pages': Pages, chain: seq<PageId>, l: nat, root: PageId)
    requires SamePages(pages, pages', chain) && LevelOk(pages, chain, l, root)
    ensures LevelOk(pages', chain, l, root)
  {
    hide PageOk;
    forall i | 0 <= i < |chain| ensures LinkOk(pages', chain, i) {
      assert LinkOk(pages, chain, i);
    }
  }

  /** Pages of different levels are different pages. */
  lemma LevelsApart(pages: Pages, levels: Levels, root: PageId, l: nat, m: nat, i: nat)
    requires Shape(pages, levels, root) && l < |levels| && m < |levels| && l != m && i < |levels[l]|
    ensures levels[l][i] !in levels[m]
  {
    hide Sorted, Fits, Linked;
    assert LevelOk(pages, levels[l], l, root) && LevelOk(pages, levels[m], m, root);
    assert At(pages, levels[l][i]).level == l;
  }

  /** Rewriting one page in place, links untouched, keeps its level. */
  lemma LevelReplace(pages: Pages, chain: seq<PageId>, l: nat, root: PageId, i: nat, pg: Page)
    requires LevelOk(pages, chain, l, root) && i < |chain| && PageOk(pg, chain[i], l, root)
    requires pg.prev == At(pages, chain[i]).prev && pg.next == At(pages, chain[i]).next
    ensures LevelOk(pages[chain[i] := pg], chain, l, root)
  {
    var pages' := pages[chain[i] := pg];
    hide PageOk;
    assert At(pages', chain[i]) == pg;
    forall j | 0 <= j < |chain| ensures LinkOk(pages', chain, j) && PageOk(At(pages', chain[j]), chain[j], l, root) {
      assert LinkOk(pages, chain, j);
      assert j != i ==> chain[j] != chain[i];
    }
  }

  lemma NamesReplace(pages: Pages, chain: seq<PageId>, i: nat, pg: Page, down: bool, q: PageId)
    requires NoDup(chain) && i < |chain|
    ensures Names(pages[chain[i] := pg], chain, down, q) ==
      Names(pages, chain, down, q) - PageNames(At(pages, chain[i]), down, q) + PageNames(pg, down, q)
  {
    hide Names, PageNames;
    var pages' := pages[chain[i] := pg];
    NamesAt(pages, chain, i, down, q);
    NamesAt(pages', chain, i, down, q);
    assert At(pages', chain[i]) == pg;
    NamesFrame(pages, pages', chain[..i], down, q);
    NamesFrame(pages, pages', chain[i + 1..], down, q);
  }

  /** A page that keeps its place and its links. */
  ghost predicate Replaceable(pages: Pages, levels: Levels, root: PageId, l: nat, i: nat, pg: Page) {
    && l < |levels| && i < |levels[l]| && PageOk(pg, levels[l][i], l, root)
    && At(pages, levels[l][i]).Page?
    && pg.prev == At(pages, levels[l][i]).prev && pg.next == At(pages, levels[l][i]).next
  }

  lemma ShapeReplace(pages: Pages, levels: Levels, root: PageId, l: nat, i: nat, pg: Page)
    requires Shape(pages, levels, root) && Replaceable(pages, levels, root, l, i, pg)
    ensures Shape(pages[levels[l][i] := pg], levels, root)
  {
    hide PageOk;
    var pages' := pages[levels[l][i] := pg];
    forall m | 0 <= m < |levels| ensures LevelOk(pages', levels[m], m, root) {
      assert LevelOk(pages, levels[m], m, root);
      if m == l {
        LevelReplace(pages, levels[l], l, root, i, pg);
      } else {
        LevelsApart(pages, levels, root, l, m, i);
        LevelFrame(pages, pages', levels[m], m, root);
      }
    }
  }

  /** What the names of page `q` on level `m` become. */
  lemma NamesAfter(pages: Pages, levels: Levels, root: PageId, l: nat, i: nat, pg: Page, m: nat, down: bool, q: PageId)
    requires Shape(pages, levels, root) && l < |levels| && i < |levels[l]| && m < |levels|
    ensures Names(pages[levels[l][i] := pg], levels[m], down, q) == Names(pages, levels[m], down, q)
      + if m == l then PageNames(pg, down, q) - PageNames(At(pages, levels[l][i]), down, q) else 0
  {
    hide Names, PageNames, PageOk;
    assert LevelOk(pages, levels[l], l, root);
    if m == l {
      NamesReplace(pages, levels[l], i, pg, down, q);
    } else {
      LevelsApart(pages, levels, root, l, m, i);
      NamesFrame(pages, pages[levels[l][i] := pg], levels[m], down, q);
    }
  }

  /** Rewriting a page without changing what it names keeps the tree. */
  lemma TreeReplace(pages: Pages, levels: Levels, root: PageId, l: nat, i: nat, pg: Page)
    requires TreeOk(pages, levels, root) && Replaceable(pages, levels, root, l, i, pg)
    requires forall q :: PageNames(pg, false, q) == PageNames(At(pages, levels[l][i]), false, q)
    requires l > 0 ==> forall q :: PageNames(pg, true, q) == PageNames(At(pages, levels[l][i]), true, q)
    ensures TreeOk(pages[levels[l][i] := pg], levels, root)
  {
    hide Names, PageNames, PageOk;
    var pages' := pages[levels[l][i] := pg];
    ShapeReplace(pages, levels, root, l, i, pg);
    forall m, q | 0 <= m < |levels|
      ensures Downlinks(pages', levels, root, m, q) + Names(pages', levels[m], false, q)
        == if q in levels[m] then 1 else 0
    {
      assert NamedOnce(pages, levels, root, m);
      NamesAfter(pages, levels, root, l, i, pg, m, false, q);
      if m + 1 < |levels| { NamesAfter(pages, levels, root, l, i, pg, m + 1, true, q); }
      assert Downlinks(pages, levels, root, m, q) + Names(pages, levels[m], false, q)
             == if q in levels[m] then 1 else 0;
    }
  }

  // ---------------------------------------------------------------- the logged steps

  /** An entry put where the page stays sorted keeps the page sound, if the page takes it at all. */
  lemma InsertedPage(pg: Page, p: PageId, l: nat, root: PageId, slot: nat, e: Entry, lsn: nat)
    requires PageOk(pg, p, l, root) && InsertEntryAt(pg, slot, e).Ok?
    requires |e.key| <= MAX_INDEX_KEY_BYTES && (l == 0 ==> Sorted(pg.entries[..slot] + [e] + pg.entries[slot..]))
    ensures PageOk(Stamp(InsertEntryAt(pg, slot, e).value, lsn), p, l, root)
  {
    InsertBytes(l, pg.entries, slot, e);
    var s := pg.entries[..slot] + [e] + pg.entries[slot..];
    forall i | 0 <= i < |s| ensures |s[i].key| <= MAX_INDEX_KEY_BYTES {
      assert s[i] == if i < slot then pg.entries[i] else if i == slot then e else pg.entries[i - 1];
    }
  }

  /** A page within its geometry takes every entry it has the free bytes for. */
  lemma RoomSuffices(pg: Page, p: PageId, l: nat, root: PageId, slot: nat, e: Entry)
    requires PageOk(pg, p, l, root) && slot <= |pg.entries| && |e.key| <= MAX_INDEX_KEY_BYTES
    ensures InsertEntryAt(pg, slot, e).Ok? <==> Cost(l, e) <= FreeSpace(pg)
  {
  }

  lemma LeafInsertKeeps(pages: Pages, levels: Levels, root: PageId, i: nat, slot: nat, e: Entry, lsn: nat)
    requires TreeOk(pages, levels, root) && i < |levels[0]|
    requires At(pages, levels[0][i]).Page? && InsertEntryAt(At(pages, levels[0][i]), slot, e).Ok?
    requires |e.key| <= MAX_INDEX_KEY_BYTES
    requires var es := At(pages, levels[0][i]).entries; Sorted(es[..slot] + [e] + es[slot..])
    ensures TreeOk(pages[levels[0][i] := Stamp(InsertEntryAt(At(pages, levels[0][i]), slot, e).value, lsn)], levels,
      root)
  {
    var p := levels[0][i];
    var pg := At(pages, p);
    assert LevelOk(pages, levels[0], 0, root);
    assert PageOk(pg, p, 0, root);
    InsertedPage(pg, p, 0, root, slot, e, lsn);
    TreeReplace(pages, levels, root, 0, i, Stamp(InsertEntryAt(pg, slot, e).value, lsn));
  }

  /** The right twin goes in directly behind its left page. */
  function Spliced(chain: seq<PageId>, i: nat, r: PageId): seq<PageId>
    requires i < |chain|
  {
    chain[..i + 1] + [r] + chain[i + 1..]
  }

  ghost predicate Unused(levels: Levels, r: PageId) {
    r != INVALID && forall l :: 0 <= l < |levels| ==> r !in levels[l]
  }

  /** What Prepare writes: the left page points at a fresh, empty right page and is marked. */
  ghost predicate Prepared(pg: Page, left: PageId, r: PageId, pgL: Page, pgR: Page) {
    && pg.Page? && !pg.flags.incomplete
    && SameContent(pgL, PrepareLeft(pg, r)) && SameContent(pgR, InitRightPage(left, pg.next, pg.level))
  }

  lemma RootOnTop(pages: Pages, levels: Levels, root: PageId)
    requires TreeOk(pages, levels, root)
    ensures root in levels[|levels| - 1]
  {
    var top := |levels| - 1;
    assert NamedOnce(pages, levels, root, top);
    assert Downlinks(pages, levels, root, top, root) + Names(pages, levels[top], false, root)
           == if root in levels[top] then 1 else 0;
  }

  lemma SplicedAt(chain: seq<PageId>, i: nat, r: PageId, x: nat)
    requires i < |chain| && x <= |chain|
    ensures |Spliced(chain, i, r)| == |chain| + 1
    ensures Spliced(chain, i, r)[x] == if x <= i then chain[x] else if x == i + 1 then r else chain[x - 1]
  {
  }

  /** A page left of position `j` is still left of it after the splice. */
  lemma SplicedPrefix(chain: seq<PageId>, i: nat, r: PageId, was: nat, p: PageId)
    requires i < |chain| && was < |chain| && p in chain[..was]
    ensures p in Spliced(chain, i, r)[..if was <= i then was else was + 1]
  {
    var x :| 0 <= x < was && chain[x] == p;
    SplicedAt(chain, i, r, if x <= i then x else x + 1);
    var cut := if was <= i then was else was + 1;
    assert Spliced(chain, i, r)[..cut][if x <= i then x else x + 1] == p;
  }

  lemma SplicedLink(pages: Pages, chain: seq<PageId>, i: nat, r: PageId, pgL: Page, pgR: Page, j: nat)
    requires Linked(pages, chain) && i < |chain| && r != INVALID && r !in chain
    requires Prepared(At(pages, chain[i]), chain[i], r, pgL, pgR) && j <= |chain|
    ensures LinkOk(pages[r := pgR][chain[i] := pgL], Spliced(chain, i, r), j)
  {
    SplicedAt(chain, i, r, j);
    if j < |chain| { SplicedAt(chain, i, r, j + 1); }
    if j == i + 1 {
      SplicedAt(chain, i, r, i);
      NextOf(pages, chain, i);
      assert Spliced(chain, i, r)[..j][i] == chain[i];
    } else {
      var was := if j <= i then j else j - 1;
      assert LinkOk(pages, chain, was);
      if was > 0 { SplicedPrefix(chain, i, r, was, At(pages, chain[was]).prev); }
    }
  }

  lemma SplicedNoDup(chain: seq<PageId>, i: nat, r: PageId)
    requires NoDup(chain) && i < |chain| && r !in chain
    ensures NoDup(Spliced(chain, i, r))
  {
    forall x, y | 0 <= x < y <= |chain| ensures Spliced(chain, i, r)[x] != Spliced(chain, i, r)[y] {
      SplicedAt(chain, i, r, x);
      SplicedAt(chain, i, r, y);
    }
  }

  lemma SplicedLevel(pages: Pages, chain: seq<PageId>, l: nat, root: PageId, i: nat, r: PageId, pgL: Page, pgR: Page)
    requires LevelOk(pages, chain, l, root) && i < |chain| && r != INVALID && r !in chain && r != root
    requires Prepared(At(pages, chain[i]), chain[i], r, pgL, pgR)
    ensures LevelOk(pages[r := pgR][chain[i] := pgL], Spliced(chain, i, r), l, root)
  {
    var chain', pages' := Spliced(chain, i, r), pages[r := pgR][chain[i] := pgL];
    assert PageOk(At(pages, chain[i]), chain[i], l, root);
    assert PageOk(pgL, chain[i], l, root) && PageOk(pgR, r, l, root);
    SplicedNoDup(chain, i, r);
    hide PageOk, LinkOk, NoDup;
    forall j | 0 <= j < |chain'|
      ensures LinkOk(pages', chain', j) && PageOk(At(pages', chain'[j]), chain'[j], l, root)
    {
      SplicedLink(pages, chain, i, r, pgL, pgR, j);
      SplicedAt(chain, i, r, j);
    }
  }

  lemma SplicedNames(pages: Pages, chain: seq<PageId>, i: nat, r: PageId, pgL: Page, pgR: Page, down: bool, q: PageId)
    requires NoDup(chain) && i < |chain| && r !in chain
    requires Prepared(At(pages, chain[i]), chain[i], r, pgL, pgR)
    ensures Names(pages[r := pgR][chain[i] := pgL], Spliced(chain, i, r), down, q)
         == Names(pages, chain, down, q) + if !down && q == r then 1 else 0
  {
    var chain', added, pages' := Spliced(chain, i, r), pages[r := pgR], pages[r := pgR][chain[i] := pgL];
    assert PageNames(pgR, down, q) == 0;
    assert PageNames(pgL, down, q) == PageNames(At(pages, chain[i]), down, q) + if !down && q == r then 1 else 0;
    hide Names, PageNames;
    NamesFrame(pages, added, chain, down, q);
    NamesReplace(added, chain, i, pgL, down, q);
    NamesAt(pages', chain', i + 1, down, q);
    assert chain'[..i + 1] == chain[..i + 1] && chain'[i + 2..] == chain[i + 1..] &&
           chain[..i + 1] + chain[i + 1..] == chain;
    NamesConcat(pages', chain[..i + 1], chain[i + 1..], down, q);
  }

  lemma SplicedFlat(pages: Pages, chain: seq<PageId>, i: nat, r: PageId, pgL: Page, pgR: Page)
    requires NoDup(chain) && i < |chain| && r !in chain
    requires Prepared(At(pages, chain[i]), chain[i], r, pgL, pgR)
    ensures Flat(pages[r := pgR][chain[i] := pgL], Spliced(chain, i, r)) == Flat(pages, chain)
  {
    hide Flat;
    var chain', pages' := Spliced(chain, i, r), pages[r := pgR][chain[i] := pgL];
    FlatFrame(pages, pages', chain);
    FlatAt(pages', chain', i + 1);
    assert chain'[..i + 1] == chain[..i + 1] && chain'[i + 2..] == chain[i + 1..] &&
           chain[..i + 1] + chain[i + 1..] == chain;
    FlatConcat(pages', chain[..i + 1], chain[i + 1..]);
  }

  /** The levels Prepare does not touch. */
  lemma SplicedElsewhere(pages: Pages, levels: Levels, root: PageId, l: nat, i: nat, r: PageId, pgL: Page, pgR: Page,
                         m: nat)
    requires Shape(pages, levels, root) && l < |levels| && i < |levels[l]| && m < |levels| && m != l
    requires Unused(levels, r)
    ensures SamePages(pages, pages[r := pgR][levels[l][i] := pgL], levels[m])
  {
    LevelsApart(pages, levels, root, l, m, i);
  }

  lemma PrepareShape(pages: Pages, levels: Levels, root: PageId, l: nat, i: nat, r: PageId, pgL: Page, pgR: Page)
    requires Shape(pages, levels, root) && l < |levels| && i < |levels[l]| && Unused(levels, r) && r != root
    requires Prepared(At(pages, levels[l][i]), levels[l][i], r, pgL, pgR)
    ensures Shape(pages[r := pgR][levels[l][i] := pgL], levels[l := Spliced(levels[l], i, r)], root)
  {
    hide PageOk, Linked;
    var pages', levels' := pages[r := pgR][levels[l][i] := pgL], levels[l := Spliced(levels[l], i, r)];
    forall m | 0 <= m < |levels'| ensures LevelOk(pages', levels'[m], m, root) {
      assert LevelOk(pages, levels[m], m, root);
      if m == l {
        SplicedLevel(pages, levels[l], l, root, i, r, pgL, pgR);
      } else {
        SplicedElsewhere(pages, levels, root, l, i, r, pgL, pgR, m);
        LevelFrame(pages, pages', levels[m], m, root);
      }
    }
  }

  lemma PrepareNames(pages: Pages, levels: Levels, root: PageId, l: nat, i: nat, r: PageId, pgL: Page, pgR: Page,
                     m: nat, down: bool, q: PageId)
    requires Shape(pages, levels, root) && l < |levels| && i < |levels[l]| && Unused(levels, r) && m < |levels|
    requires Prepared(At(pages, levels[l][i]), levels[l][i], r, pgL, pgR)
    ensures Names(pages[r := pgR][levels[l][i] := pgL], levels[l := Spliced(levels[l], i, r)][m], down, q)
         == Names(pages, levels[m], down, q) + if m == l && !down && q == r then 1 else 0
  {
    hide Names, PageNames, PageOk;
    assert LevelOk(pages, levels[l], l, root);
    if m == l {
      SplicedNames(pages, levels[l], i, r, pgL, pgR, down, q);
    } else {
      SplicedElsewhere(pages, levels, root, l, i, r, pgL, pgR, m);
      NamesFrame(pages, pages[r := pgR][levels[l][i] := pgL], levels[m], down, q);
    }
  }

  /** Prepare keeps the tree: the new page is named by its left twin alone, and holds nothing. */
  lemma PrepareKeeps(pages: Pages, levels: Levels, root: PageId, l: nat, i: nat, r: PageId, pgL: Page, pgR: Page)
    requires TreeOk(pages, levels, root) && l < |levels| && i < |levels[l]| && Unused(levels, r)
    requires Prepared(At(pages, levels[l][i]), levels[l][i], r, pgL, pgR)
    ensures TreeOk(pages[r := pgR][levels[l][i] := pgL], levels[l := Spliced(levels[l], i, r)], root)
  {
    hide Names, PageNames, PageOk, Prepared;
    var pages', levels' := pages[r := pgR][levels[l][i] := pgL], levels[l := Spliced(levels[l], i, r)];
    RootOnTop(pages, levels, root);
    PrepareShape(pages, levels, root, l, i, r, pgL, pgR);
    forall m, q | 0 <= m < |levels'|
      ensures Downlinks(pages', levels', root, m, q) + Names(pages', levels'[m], false, q)
        == if q in levels'[m] then 1 else 0
    {
      assert NamedOnce(pages, levels, root, m);
      PrepareNames(pages, levels, root, l, i, r, pgL, pgR, m, false, q);
      if m + 1 < |levels| { PrepareNames(pages, levels, root, l, i, r, pgL, pgR, m + 1, true, q); }
      assert Downlinks(pages, levels, root, m, q) + Names(pages, levels[m], false, q)
             == if q in levels[m] then 1 else 0;
      if m == l { SplicedMember(levels[l], i, r, q); }
    }
  }

  lemma SplicedMember(chain: seq<PageId>, i: nat, r: PageId, q: PageId)
    requires i < |chain|
    ensures q in Spliced(chain, i, r) <==> q in chain || q == r
  {
    assert chain == chain[..i + 1] + chain[i + 1..];
  }

  /** Copy: the left page keeps its first `start` entries, the empty right page gets the rest. */
  ghost predicate Copied(left: Page, right: Page, start: nat, pgL: Page, pgR: Page) {
    && left.Page? && right.Page? && right.level == left.level && right.entries == [] && right.upper == SPECIAL
    && start <= |left.entries|
    && SameContent(pgL, Rebuild(left, start))
    && SameContent(pgR,
       right.(entries := left.entries[start..], upper := SPECIAL - Bytes(left.level, left.entries[start..])))
  }

  /** Two pages that hold the entries of one, cut at slot `k`, each freshly packed. */
  ghost predicate Halves(was: Page, k: nat, pgL: Page, pgR: Page) {
    && was.Page? && pgL.Page? && pgR.Page? && pgL.level == was.level && pgR.level == was.level && k <= |was.entries|
    && pgL.entries == was.entries[..k] && pgL.upper == SPECIAL - Bytes(was.level, was.entries[..k])
    && pgR.entries == was.entries[k..] && pgR.upper == SPECIAL - Bytes(was.level, was.entries[k..])
  }

  /** The half the comparison picks has room for the pending entry. */
  lemma ReservedRoom(was: Page, k: nat, pgL: Page, pgR: Page, e: Entry, p: nat)
    requires Halves(was, k, pgL, pgR) && k < |was.entries| && Sorted(was.entries) && e !in was.entries
    requires IsLowerBound(was.entries, e, p) && ValidSplit(was.level, was.entries, e, p, k)
    ensures Less(e, was.entries[k]) ==> Cost(was.level, e) <= FreeSpace(pgL)
    ensures !Less(e, was.entries[k]) ==> Cost(was.level, e) <= FreeSpace(pgR)
  {
    ReservedHalfIsChosen(was.entries, e, p, k);
  }

  /** Both halves of a sound page are sound, and the right half always fits. */
  lemma CopiedPages(left: Page, p: PageId, right: Page, r: PageId, l: nat, root: PageId, start: nat, pgL: Page,
                    pgR: Page)
    requires PageOk(left, p, l, root) && PageOk(right, r, l, root) && Copied(left, right, start, pgL, pgR)
    ensures PageOk(pgL, p, l, root) && PageOk(pgR, r, l, root)
  {
    var s := left.entries;
    CostSplit(l, s, start);
    assert s == s[..start] + s[start..];
    SortedConcat(s[..start], s[start..]);
  }

  lemma CopySucceeds(left: Page, p: PageId, right: Page, l: nat, root: PageId, start: nat, lsn: nat)
    requires PageOk(left, p, l, root) && right.Page? && right.level == l && right.entries == []
    requires right.upper == SPECIAL
    requires 1 <= start <= |left.entries|
    ensures SplitCopy(left, right, start, true).Ok?
    ensures var (a, b) := SplitCopy(left, right, start, true).value; Copied(left, right, start, Stamp(a, lsn),
      Stamp(b, lsn))
  {
    CostSplit(l, left.entries, start);
    assert right.entries + left.entries[start..] == left.entries[start..];
  }

  lemma CopyShape(pages: Pages, levels: Levels, root: PageId, l: nat, i: nat, start: nat, pgL: Page, pgR: Page)
    requires Shape(pages, levels, root) && l < |levels| && i + 1 < |levels[l]|
    requires Copied(At(pages, levels[l][i]), At(pages, levels[l][i + 1]), start, pgL, pgR)
    ensures Shape(pages[levels[l][i] := pgL], levels, root)
    ensures Shape(pages[levels[l][i] := pgL][levels[l][i + 1] := pgR], levels, root)
  {
    var left, right := levels[l][i], levels[l][i + 1];
    assert LevelOk(pages, levels[l], l, root);
    assert left != right && PageOk(At(pages, left), left, l, root) && PageOk(At(pages, right), right, l, root);
    CopiedPages(At(pages, left), left, At(pages, right), right, l, root, start, pgL, pgR);
    hide PageOk;
    ShapeReplace(pages, levels, root, l, i, pgL);
    ShapeReplace(pages[left := pgL], levels, root, l, i + 1, pgR);
  }

  lemma SiblingsDiffer(pages: Pages, levels: Levels, root: PageId, l: nat, i: nat)
    requires Shape(pages, levels, root) && l < |levels| && i + 1 < |levels[l]|
    ensures levels[l][i] != levels[l][i + 1]
  {
    assert LevelOk(pages, levels[l], l, root);
  }

  lemma NoPointers(q: PageId)
    ensures PtrCount([], q) == 0
  {
  }

  lemma CopyNames(pages: Pages, levels: Levels, root: PageId, l: nat, i: nat, start: nat, pgL: Page, pgR: Page, m: nat,
                  down: bool, q: PageId)
    requires Shape(pages, levels, root) && l < |levels| && i + 1 < |levels[l]| && m < |levels|
    requires Copied(At(pages, levels[l][i]), At(pages, levels[l][i + 1]), start, pgL, pgR)
    ensures Names(pages[levels[l][i] := pgL][levels[l][i + 1] := pgR], levels[m], down, q)
      == Names(pages, levels[m], down, q)
  {
    hide Shape, Names, Bytes, PtrCount;
    var left, right := levels[l][i], levels[l][i + 1];
    CopyShape(pages, levels, root, l, i, start, pgL, pgR);
    assert left != right by { SiblingsDiffer(pages, levels, root, l, i); }
    assert PtrCount([], q) == 0 by { NoPointers(q); }
    NamesAfter(pages, levels, root, l, i, pgL, m, down, q);
    NamesAfter(pages[left := pgL], levels, root, l, i + 1, pgR, m, down, q);
    var es := At(pages, left).entries;
    assert es == es[..start] + es[start..];
    PtrCountConcat(es[..start], es[start..], q);
  }

  lemma CopyFlat(pages: Pages, chain: seq<PageId>, i: nat, start: nat, pgL: Page, pgR: Page)
    requires NoDup(chain) && i + 1 < |chain| && Copied(At(pages, chain[i]), At(pages, chain[i + 1]), start, pgL, pgR)
    ensures Flat(pages[chain[i] := pgL][chain[i + 1] := pgR], chain) == Flat(pages, chain)
  {
    hide Flat;
    var pages', rest := pages[chain[i] := pgL][chain[i + 1] := pgR], chain[i + 1..];
    FlatAt(pages, chain, i);
    FlatAt(pages', chain, i);
    FlatAt(pages, rest, 0);
    FlatAt(pages', rest, 0);
    FlatFrame(pages, pages', chain[..i]);
    FlatFrame(pages, pages', rest[1..]);
    FlatFrame(pages, pages', rest[..0]);
    assert rest[0] == chain[i + 1] && chain[i] != chain[i + 1];
    assert Flat(pages, rest[..0]) == [] by { FlatEmpty(pages); assert rest[..0] == []; }
    Rejoin(Flat(pages, chain[..i]), At(pages, chain[i]).entries, start, Flat(pages, rest[..0]), Flat(pages, rest[1..]));
  }

  lemma FlatEmpty(pages: Pages)
    ensures Flat(pages, []) == []
  {
  }

  lemma Rejoin<T>(pre: seq<T>, s: seq<T>, k: nat, none: seq<T>, post: seq<T>)
    requires k <= |s| && none == []
    ensures pre + s[..k] + (none + s[k..] + post) == pre + s + (none + [] + post)
  {
    assert s == s[..k] + s[k..];
  }

  /** Copy keeps the tree and the entry sequence of its level. */
  lemma CopyKeeps(pages: Pages, levels: Levels, root: PageId, l: nat, i: nat, start: nat, pgL: Page, pgR: Page)
    requires TreeOk(pages, levels, root) && l < |levels| && i + 1 < |levels[l]|
    requires Copied(At(pages, levels[l][i]), At(pages, levels[l][i + 1]), start, pgL, pgR)
    ensures TreeOk(pages[levels[l][i] := pgL][levels[l][i + 1] := pgR], levels, root)
  {
    hide Names, PageNames, PageOk, Copied;
    var pages' := pages[levels[l][i] := pgL][levels[l][i + 1] := pgR];
    CopyShape(pages, levels, root, l, i, start, pgL, pgR);
    forall m, q | 0 <= m < |levels|
      ensures Downlinks(pages', levels, root, m, q) + Names(pages', levels[m], false, q)
        == if q in levels[m] then 1 else 0
    {
      assert NamedOnce(pages, levels, root, m);
      CopyNames(pages, levels, root, l, i, start, pgL, pgR, m, false, q);
      if m + 1 < |levels| { CopyNames(pages, levels, root, l, i, start, pgL, pgR, m + 1, true, q); }
      assert Downlinks(pages, levels, root, m, q) + Names(pages, levels[m], false, q)
             == if q in levels[m] then 1 else 0;
    }
  }

  /** What Commit writes: one downlink in the parent, the mark off the left page. */
  ghost predicate Committed(left: Page, parent: Page, slot: nat, sep: seq<byte>, r: PageId, pgL: Page, pgP: Page) {
    && left.Page? && left.flags.incomplete && left.next == r && parent.Page?
    && |sep| <= MAX_INDEX_KEY_BYTES && InsertEntryAt(parent, slot, Entry(sep, r, 0)).Ok?
    && SameContent(pgP, InsertEntryAt(parent, slot, Entry(sep, r, 0)).value)
    && SameContent(pgL, CommitLeft(left))
  }

  lemma CommitShape(pages: Pages, levels: Levels, root: PageId, l: nat, i: nat, j: nat, slot: nat, sep: seq<byte>,
                    r: PageId, pgL: Page, pgP: Page)
    requires Shape(pages, levels, root) && l + 1 < |levels| && i < |levels[l]| && j < |levels[l + 1]|
    requires levels[l][i] != root
    requires Committed(At(pages, levels[l][i]), At(pages, levels[l + 1][j]), slot, sep, r, pgL, pgP)
    ensures Shape(pages[levels[l + 1][j] := pgP], levels, root) && levels[l][i] != levels[l + 1][j]
    ensures Shape(pages[levels[l + 1][j] := pgP][levels[l][i] := pgL], levels, root)
  {
    var left, parent := levels[l][i], levels[l + 1][j];
    assert LevelOk(pages, levels[l], l, root) && LevelOk(pages, levels[l + 1], l + 1, root);
    assert PageOk(At(pages, left), left, l, root) && PageOk(At(pages, parent), parent, l + 1, root);
    InsertedPage(At(pages, parent), parent, l + 1, root, slot, Entry(sep, r, 0), 0);
    assert PageOk(pgP, parent, l + 1, root) && PageOk(pgL, left, l, root) && left != parent;
    hide PageOk;
    ShapeReplace(pages, levels, root, l + 1, j, pgP);
    ShapeReplace(pages[parent := pgP], levels, root, l, i, pgL);
  }

  lemma CommittedPages(pages: Pages, levels: Levels, root: PageId, l: nat, i: nat, j: nat)
    requires Shape(pages, levels, root) && l + 1 < |levels| && i < |levels[l]| && j < |levels[l + 1]|
    ensures PageOk(At(pages, levels[l][i]), levels[l][i], l, root)
    ensures PageOk(At(pages, levels[l + 1][j]), levels[l + 1][j], l + 1, root)
    ensures levels[l][i] != levels[l + 1][j]
  {
    assert LevelOk(pages, levels[l], l, root) && LevelOk(pages, levels[l + 1], l + 1, root);
  }

  lemma CommitNames(pages: Pages, levels: Levels, root: PageId, l: nat, i: nat, j: nat, slot: nat, sep: seq<byte>,
                    r: PageId, pgL: Page, pgP: Page,
                    m: nat, down: bool, q: PageId)
    requires Shape(pages, levels, root) && l + 1 < |levels| && i < |levels[l]| && j < |levels[l + 1]|
    requires levels[l][i] != root && m < |levels|
    requires Committed(At(pages, levels[l][i]), At(pages, levels[l + 1][j]), slot, sep, r, pgL, pgP)
    ensures Names(pages[levels[l + 1][j] := pgP][levels[l][i] := pgL], levels[m], down, q)
      == Names(pages, levels[m], down, q)
      + if q != r then 0 else if down && m == l + 1 then 1 else if !down && m == l then -1 else 0
  {
    hide Shape, Names, Bytes;
    var left, parent := levels[l][i], levels[l + 1][j];
    CommitShape(pages, levels, root, l, i, j, slot, sep, r, pgL, pgP);
    CommittedPages(pages, levels, root, l, i, j);
    NamesAfter(pages, levels, root, l + 1, j, pgP, m, down, q);
    NamesAfter(pages[parent := pgP], levels, root, l, i, pgL, m, down, q);
    PtrCountInsert(At(pages, parent).entries, slot, Entry(sep, r, 0), q);
  }

  /** Commit keeps the tree: the right page trades its twin's mark for a downlink. */
  lemma CommitKeeps(pages: Pages, levels: Levels, root: PageId, l: nat, i: nat, j: nat, slot: nat, sep: seq<byte>,
                    r: PageId, pgL: Page, pgP: Page)
    requires TreeOk(pages, levels, root) && l + 1 < |levels| && i < |levels[l]| && j < |levels[l + 1]|
    requires Committed(At(pages, levels[l][i]), At(pages, levels[l + 1][j]), slot, sep, r, pgL, pgP)
    ensures TreeOk(pages[levels[l + 1][j] := pgP][levels[l][i] := pgL], levels, root)
  {
    hide Names, PageNames, PageOk, Committed;
    var pages' := pages[levels[l + 1][j] := pgP][levels[l][i] := pgL];
    RootOnTop(pages, levels, root);
    LevelsApart(pages, levels, root, l, |levels| - 1, i);
    CommitShape(pages, levels, root, l, i, j, slot, sep, r, pgL, pgP);
    forall m, q | 0 <= m < |levels|
      ensures Downlinks(pages', levels, root, m, q) + Names(pages', levels[m], false, q)
        == if q in levels[m] then 1 else 0
    {
      assert NamedOnce(pages, levels, root, m);
      CommitNames(pages, levels, root, l, i, j, slot, sep, r, pgL, pgP, m, false, q);
      if m + 1 < |levels| { CommitNames(pages, levels, root, l, i, j, slot, sep, r, pgL, pgP, m + 1, true, q); }
      assert Downlinks(pages, levels, root, m, q) + Names(pages, levels[m], false, q)
             == if q in levels[m] then 1 else 0;
    }
  }

  /** The page `create_new_root` leaves: alone on its level, naming only the old root. */
  function NewRootPage(level: nat, left: PageId, lsn: nat): Page {
    Page(level, Flags(false, true, false), INVALID, INVALID, [Entry([], left, 0)], SPECIAL - INTERNAL_TRAILER_SIZE, lsn)
  }

  lemma NewRootShape(pages: Pages, levels: Levels, root: PageId, r: PageId, lsn: nat)
    requires Shape(pages, levels, root) && Unused(levels, r)
    requires At(pages, root).Page? && At(pages, root).flags.incomplete
    ensures Shape(pages[r := NewRootPage(|levels|, root, lsn)], levels + [[r]], r)
  {
    var pg := NewRootPage(|levels|, root, lsn);
    var pages', levels' := pages[r := pg], levels + [[r]];
    forall m | 0 <= m < |levels'| ensures LevelOk(pages', levels'[m], m, r) {
      if m < |levels| {
        assert LevelOk(pages, levels[m], m, root) && r !in levels[m];
        LevelFrame(pages, pages', levels[m], m, root);
      } else {
        BytesOne(m, Entry([], root, 0));
        assert LinkOk(pages', [r], 0);
      }
    }
  }

  /** Promoting a root whose split lacks its Commit keeps the tree. */
  lemma NewRootKeeps(pages: Pages, levels: Levels, root: PageId, r: PageId, lsn: nat)
    requires TreeOk(pages, levels, root) && Unused(levels, r)
    requires At(pages, root).Page? && At(pages, root).flags.incomplete
    ensures TreeOk(pages[r := NewRootPage(|levels|, root, lsn)], levels + [[r]], r)
  {
    var pg := NewRootPage(|levels|, root, lsn);
    var pages', levels', top := pages[r := pg], levels + [[r]], |levels|;
    NewRootShape(pages, levels, root, r, lsn);
    forall m, q | 0 <= m < |levels'|
      ensures Downlinks(pages', levels', r, m, q) + Names(pages', levels'[m], false, q)
        == if q in levels'[m] then 1 else 0
    {
      NamesAt(pages', [r], 0, m + 1 == top, q);
      assert [r][..0] == [] && [r][1..] == [];
      assert PtrCount([Entry([], root, 0)], q) == if q == root then 1 else 0 by {
        PtrCountInsert([], 0, Entry([], root, 0), q);
      }
      if m < top {
        assert r !in levels[m] && NamedOnce(pages, levels, root, m);
        NamesFrame(pages, pages', levels[m], false, q);
        if m + 1 < top {
          assert r !in levels[m + 1];
          NamesFrame(pages, pages', levels[m + 1], true, q);
        }
        assert Downlinks(pages, levels, root, m, q) + Names(pages, levels[m], false, q)
               == if q in levels[m] then 1 else 0;
      }
    }
  }

  // ---------------------------------------------------------------- abandoning a split

  /** The chain without the page behind `i`. */
  function Unspliced(chain: seq<PageId>, i: nat): seq<PageId>
    requires i + 1 < |chain|
  {
    chain[..i + 1] + chain[i + 2..]
  }

  /** What an unlink writes to the left page, and what makes it safe: the right page is drained, closed, and
      nobody's hint. */
  ghost predicate Unlinkable(pages: Pages, chain: seq<PageId>, i: nat, pgL: Page) {
    && i + 1 < |chain| && At(pages, chain[i]).Page? && At(pages, chain[i + 1]).Page?
    && At(pages, chain[i]).flags.incomplete && !At(pages, chain[i + 1]).flags.incomplete
    && At(pages, chain[i + 1]).entries == []
    && (forall c :: 0 <= c < |chain| && At(pages, chain[c]).Page? ==> At(pages, chain[c]).prev != chain[i + 1])
    && SameContent(pgL,
       At(pages, chain[i]).(next := At(pages, chain[i + 1]).next,
         flags := At(pages, chain[i]).flags.(incomplete := false)))
  }

  lemma UnsplicedAt(chain: seq<PageId>, i: nat, x: nat)
    requires i + 1 < |chain| && x < |chain| - 1
    ensures |Unspliced(chain, i)| == |chain| - 1
    ensures Unspliced(chain, i)[x] == if x <= i then chain[x] else chain[x + 1]
  {
  }

  lemma UnsplicedMember(chain: seq<PageId>, i: nat, q: PageId)
    requires NoDup(chain) && i + 1 < |chain|
    ensures q in Unspliced(chain, i) <==> q in chain && q != chain[i + 1]
  {
    if q in Unspliced(chain, i) {
      var x :| 0 <= x < |Unspliced(chain, i)| && Unspliced(chain, i)[x] == q;
      UnsplicedAt(chain, i, x);
    }
    if q in chain && q != chain[i + 1] {
      var x :| 0 <= x < |chain| && chain[x] == q;
      UnsplicedAt(chain, i, if x <= i then x else x - 1);
    }
  }

  lemma UnsplicedPrefix(chain: seq<PageId>, i: nat, was: nat, p: PageId)
    requires i + 1 < |chain| && was < |chain| && was != i + 1 && p in chain[..was] && p != chain[i + 1]
    ensures p in Unspliced(chain, i)[..if was <= i then was else was - 1]
  {
    var x :| 0 <= x < was && chain[x] == p;
    var y, cut := if x <= i then x else x - 1, if was <= i then was else was - 1;
    UnsplicedAt(chain, i, y);
    assert Unspliced(chain, i)[..cut][y] == p;
  }

  lemma UnlinkedLink(pages: Pages, chain: seq<PageId>, i: nat, pgL: Page, j: nat)
    requires Linked(pages, chain) && Unlinkable(pages, chain, i, pgL) && j < |chain| - 1
    ensures j < |Unspliced(chain, i)| && LinkOk(pages[chain[i] := pgL], Unspliced(chain, i), j)
  {
    var was := if j <= i then j else j + 1;
    UnsplicedAt(chain, i, j);
    if j + 1 < |chain| - 1 { UnsplicedAt(chain, i, j + 1); }
    assert LinkOk(pages, chain, was);
    NextOf(pages, chain, i + 1);
    if was > 0 { UnsplicedPrefix(chain, i, was, At(pages, chain[was]).prev); }
  }

  lemma UnlinkedLevel(pages: Pages, chain: seq<PageId>, l: nat, root: PageId, i: nat, pgL: Page)
    requires LevelOk(pages, chain, l, root) && Unlinkable(pages, chain, i, pgL)
    ensures LevelOk(pages[chain[i] := pgL], Unspliced(chain, i), l, root)
  {
    var chain', pages' := Unspliced(chain, i), pages[chain[i] := pgL];
    assert PageOk(At(pages, chain[i]), chain[i], l, root) && PageOk(pgL, chain[i], l, root);
    hide PageOk, LinkOk;
    forall x, y | 0 <= x < y < |chain'| ensures chain'[x] != chain'[y] {
      UnsplicedAt(chain, i, x);
      UnsplicedAt(chain, i, y);
    }
    forall j | 0 <= j < |chain'|
      ensures LinkOk(pages', chain', j) && PageOk(At(pages', chain'[j]), chain'[j], l, root)
    {
      UnlinkedLink(pages, chain, i, pgL, j);
      UnsplicedAt(chain, i, j);
    }
  }

  lemma UnlinkedNames(pages: Pages, chain: seq<PageId>, i: nat, pgL: Page, down: bool, q: PageId)
    requires NoDup(chain) && Unlinkable(pages, chain, i, pgL) && At(pages, chain[i]).next == chain[i + 1]
    ensures Names(pages[chain[i] := pgL], Unspliced(chain, i), down, q)
         == Names(pages, chain, down, q) - if !down && q == chain[i + 1] then 1 else 0
  {
    var chain', pages' := Unspliced(chain, i), pages[chain[i] := pgL];
    assert PageNames(At(pages', chain[i + 1]), down, q) == 0;
    assert PageNames(pgL, down, q) == PageNames(At(pages, chain[i]), down, q) - if !down &&
           q == chain[i + 1] then 1 else 0;
    hide Names, PageNames;
    NamesReplace(pages, chain, i, pgL, down, q);
    NamesAt(pages', chain, i + 1, down, q);
    NamesConcat(pages', chain[..i + 1], chain[i + 2..], down, q);
  }

  lemma UnlinkedFlat(pages: Pages, chain: seq<PageId>, i: nat, pgL: Page)
    requires Unlinkable(pages, chain, i, pgL)
    ensures Flat(pages[chain[i] := pgL], Unspliced(chain, i)) == Flat(pages, chain)
  {
    hide Flat;
    var pages' := pages[chain[i] := pgL];
    FlatFrame(pages, pages', Unspliced(chain, i));
    FlatAt(pages, chain, i + 1);
    FlatConcat(pages, chain[..i + 1], chain[i + 2..]);
  }

  lemma UnlinkShape(pages: Pages, levels: Levels, root: PageId, l: nat, i: nat, pgL: Page)
    requires Shape(pages, levels, root) && l < |levels| && Unlinkable(pages, levels[l], i, pgL)
    ensures Shape(pages[levels[l][i] := pgL], levels[l := Unspliced(levels[l], i)], root)
  {
    assert i + 1 < |levels[l]|;
    hide PageOk, Linked, Unlinkable;
    var pages', levels' := pages[levels[l][i] := pgL], levels[l := Unspliced(levels[l], i)];
    forall m | 0 <= m < |levels'| ensures LevelOk(pages', levels'[m], m, root) {
      assert LevelOk(pages, levels[m], m, root);
      if m == l {
        UnlinkedLevel(pages, levels[l], l, root, i, pgL);
      } else {
        LevelsApart(pages, levels, root, l, m, i);
        LevelFrame(pages, pages', levels[m], m, root);
      }
    }
  }

  /** Unlinking keeps the tree: the drained page leaves its level together with the only mark that named it. */
  lemma UnlinkKeeps(pages: Pages, levels: Levels, root: PageId, l: nat, i: nat, pgL: Page)
    requires TreeOk(pages, levels, root) && l < |levels| && Unlinkable(pages, levels[l], i, pgL)
    ensures TreeOk(pages[levels[l][i] := pgL], levels[l := Unspliced(levels[l], i)], root)
  {
    assert i + 1 < |levels[l]|;
    assert LevelOk(pages, levels[l], l, root);
    NextOf(pages, levels[l], i);
    assert NoDup(levels[l]);
    hide Names, PageNames, LevelOk, Unlinkable;
    var pages', levels' := pages[levels[l][i] := pgL], levels[l := Unspliced(levels[l], i)];
    UnlinkShape(pages, levels, root, l, i, pgL);
    forall m, q | 0 <= m < |levels'|
      ensures Downlinks(pages', levels', root, m, q) + Names(pages', levels'[m], false, q)
        == if q in levels'[m] then 1 else 0
    {
      UnlinkNamed(pages, levels, root, l, i, pgL, m, q);
    }
  }

  lemma UnlinkNamed(pages: Pages, levels: Levels, root: PageId, l: nat, i: nat, pgL: Page, m: nat, q: PageId)
    requires TreeOk(pages, levels, root) && l < |levels| && Unlinkable(pages, levels[l], i, pgL) && m < |levels|
    requires At(pages, levels[l][i]).next == levels[l][i + 1] && NoDup(levels[l])
    ensures var pages', levels' := pages[levels[l][i] := pgL], levels[l := Unspliced(levels[l], i)];
      Downlinks(pages', levels', root, m, q) + Names(pages', levels'[m], false, q) == if q in levels'[m] then 1 else 0
  {
    assert NamedOnce(pages, levels, root, m);
    assert Downlinks(pages, levels, root, m, q) + Names(pages, levels[m], false, q) == if q in levels[m] then 1 else 0;
    hide Names, TreeOk, NamedOnce;
    assert Shape(pages, levels, root);
    UnlinkNames(pages, levels, root, l, i, pgL, m, false, q);
    if m + 1 < |levels| { UnlinkNames(pages, levels, root, l, i, pgL, m + 1, true, q); }
    if m == l { UnsplicedMember(levels[l], i, q); }
  }

  lemma UnlinkNames(pages: Pages, levels: Levels, root: PageId, l: nat, i: nat, pgL: Page, m: nat, down: bool,
                    q: PageId)
    requires Shape(pages, levels, root) && l < |levels| && Unlinkable(pages, levels[l], i, pgL) && m < |levels|
    requires At(pages, levels[l][i]).next == levels[l][i + 1]
    ensures Names(pages[levels[l][i] := pgL], levels[l := Unspliced(levels[l], i)][m], down, q)
         == Names(pages, levels[m], down, q) - if m == l && !down && q == levels[l][i + 1] then 1 else 0
  {
    hide Names, PageNames, PageOk;
    assert LevelOk(pages, levels[l], l, root);
    if m == l {
      UnlinkedNames(pages, levels[l], i, pgL, down, q);
    } else {
      LevelsApart(pages, levels, root, l, m, i);
      NamesFrame(pages, pages[levels[l][i] := pgL], levels[m], down, q);
    }
  }

  // ---------------------------------------------------------------- facts about single pages of the tree

  predicate Open(pages: Pages, p: PageId) {
    At(pages, p).Page? && At(pages, p).flags.incomplete
  }

  ghost predicate NoneOpen(pages: Pages, levels: Levels, l: nat) {
    forall m, i :: l <= m < |levels| && 0 <= i < |levels[m]| ==> !Open(pages, levels[m][i])
  }

  /** Every page above level `l` is in `(key, child)` order. */
  ghost predicate InnerSorted(pages: Pages, levels: Levels, l: nat) {
    forall m, i :: l < m < |levels| && 0 <= i < |levels[m]| ==> Sorted(EntriesOf(pages, levels[m][i]))
  }

  /** A page of the tree can be split around any entry within the key bound. */
  lemma AlwaysSplittable(pg: Page, p: PageId, l: nat, root: PageId, e: Entry)
    requires PageOk(pg, p, l, root) && |e.key| <= MAX_INDEX_KEY_BYTES
    ensures Splittable(pg, e)
  {
    var all := pg.entries + [e];
    forall i | 0 <= i < |all| ensures |all[i].key| <= MAX_INDEX_KEY_BYTES {
      assert i < |pg.entries| ==> all[i] == pg.entries[i];
    }
  }

  /** An internal page without room for a downlink has entries enough to split. */
  lemma FullInternalSplits(pg: Page, p: PageId, l: nat, root: PageId, e: Entry)
    requires PageOk(pg, p, l, root) && l > 0 && |e.key| <= MAX_INDEX_KEY_BYTES && FreeSpace(pg) < Cost(l, e)
    ensures |pg.entries| >= 2
  {
    if |pg.entries| <= 1 {
      FewBytes(l, pg.entries);
    }
  }

  lemma FewBytes(l: nat, s: seq<Entry>)
    requires |s| <= 1 && WithinKeyBound(s)
    ensures TotalCost(l, s) <= MAX_COST
  {
    if |s| == 1 {
      assert s == [s[0]];
      BytesOne(l, s[0]);
    }
  }

  /** What the split point promises the pending entry. */
  ghost predicate SplitAround(pg: Page, pending: Option<Entry>, k: nat)
    requires pg.Page?
  {
    && k <= |pg.entries|
    && (pending.Some? && Sorted(pg.entries) ==>
         exists p :: IsLowerBound(pg.entries, pending.value, p) &&
           ValidSplit(pg.level, pg.entries, pending.value, p, k))
  }

  lemma PageAt(pages: Pages, levels: Levels, root: PageId, l: nat, i: nat)
    requires TreeOk(pages, levels, root) && l < |levels| && i < |levels[l]|
    ensures PageOk(At(pages, levels[l][i]), levels[l][i], l, root)
  {
    assert LevelOk(pages, levels[l], l, root);
  }

  ghost predicate AllPages(pages: Pages, chain: seq<PageId>) {
    forall x :: 0 <= x < |chain| ==> At(pages, chain[x]).Page?
  }

  lemma LevelIsPages(pages: Pages, levels: Levels, root: PageId, l: nat)
    requires TreeOk(pages, levels, root) && l < |levels|
    ensures AllPages(pages, levels[l])
  {
    forall x | 0 <= x < |levels[l]| ensures At(pages, levels[l][x]).Page? { PageAt(pages, levels, root, l, x); }
  }

  lemma TreeApart(pages: Pages, levels: Levels, root: PageId, l: nat, m: nat, i: nat)
    requires TreeOk(pages, levels, root) && l < |levels| && m < |levels| && l != m && i < |levels[l]|
    ensures levels[l][i] !in levels[m]
  {
    LevelsApart(pages, levels, root, l, m, i);
  }

  lemma NeighboursDiffer(pages: Pages, levels: Levels, root: PageId, l: nat, i: nat)
    requires TreeOk(pages, levels, root) && l < |levels| && i + 1 < |levels[l]|
    ensures levels[l][i] != levels[l][i + 1]
  {
    assert LevelOk(pages, levels[l], l, root);
  }

  lemma NeighboursApart(pages: Pages, levels: Levels, root: PageId, l: nat)
    requires TreeOk(pages, levels, root) && l < |levels|
    ensures Linked(pages, levels[l])
  {
    assert LevelOk(pages, levels[l], l, root);
  }

  /** A page its incomplete left twin names has no downlink. */
  lemma NoDownlinkYet(pages: Pages, levels: Levels, root: PageId, l: nat, i: nat, j: nat, e: Entry)
    requires TreeOk(pages, levels, root) && l + 1 < |levels| && i < |levels[l]| && j < |levels[l + 1]|
    requires Open(pages, levels[l][i]) && At(pages, levels[l][i]).next == e.ptr
    ensures e !in EntriesOf(pages, levels[l + 1][j])
  {
    var es, q := EntriesOf(pages, levels[l + 1][j]), e.ptr;
    assert NamedOnce(pages, levels, root, l);
    assert Downlinks(pages, levels, root, l, q) + Names(pages, levels[l], false, q) == if q in levels[l] then 1 else 0;
    hide Names, TreeOk;
    NamesAt(pages, levels[l], i, false, q);
    NamesAt(pages, levels[l + 1], j, true, q);
    if e in es {
      var x :| 0 <= x < |es| && es[x] == e;
      PtrCounted(es, x);
    }
  }

  /** A child an internal page names is on the level below. */
  lemma ChildBelow(pages: Pages, levels: Levels, root: PageId, l: nat, i: nat, slot: nat)
    requires TreeOk(pages, levels, root) && 0 < l < |levels| && i < |levels[l]|
    requires slot < |EntriesOf(pages, levels[l][i])|
    ensures EntriesOf(pages, levels[l][i])[slot].ptr in levels[l - 1]
  {
    hide PageOk, Linked;
    var es := EntriesOf(pages, levels[l][i]);
    var q := es[slot].ptr;
    PtrCounted(es, slot);
    NamesAt(pages, levels[l], i, true, q);
    assert NamedOnce(pages, levels, root, l - 1);
    assert Downlinks(pages, levels, root, l - 1, q) + Names(pages, levels[l - 1], false, q)
           == if q in levels[l - 1] then 1 else 0;
  }

  lemma OnLevel(pages: Pages, levels: Levels, root: PageId, l: nat, p: PageId) returns (i: nat)
    requires TreeOk(pages, levels, root) && l < |levels| && p in levels[l]
    ensures i < |levels[l]| && levels[l][i] == p && At(pages, p).Page? && At(pages, p).level == l
    ensures Linked(pages, levels[l]) && LinkOk(pages, levels[l], i)
  {
    i :| 0 <= i < |levels[l]| && levels[l][i] == p;
    assert LevelOk(pages, levels[l], l, root);
    assert PageOk(At(pages, levels[l][i]), levels[l][i], l, root);
  }
}
