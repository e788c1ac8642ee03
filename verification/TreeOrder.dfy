/** Order above the leaves, which no page check enforces: separators sorted and none but the first of a level empty,
    and the root flag only on the root or on a marked page. Every step of an insert or a split keeps it. */
module TreeOrder {
  import opened Entries
  import opened BtPages
  import opened BtLog
  import opened Chains
  import opened SplitPoint
  import opened TreeShape

  /** Only the first separator of an internal level may be the empty key. */
  ghost predicate KeyedAt(e: Entry, k: nat, i: nat, x: nat) {
    e.key == [] ==> k > 0 && i == 0 && x == 0
  }

  ghost predicate Keyed(es: seq<Entry>, k: nat, i: nat) {
    forall x :: 0 <= x < |es| ==> KeyedAt(es[x], k, i, x)
  }

  /** A page with the root flag is the one the meta page names. */
  predicate RootKnown(pages: Pages, left: PageId, root: PageId) {
    At(pages, left).Page? && At(pages, left).flags.root ==> root == left
  }

  /** The same, but for marked pages, whose promotion may be under way, and leaves, on which undo may leave a stale
      flag. */
  predicate RootKept(pages: Pages, p: PageId, k: nat, root: PageId) {
    k == 0 || Open(pages, p) || RootKnown(pages, p, root)
  }

  ghost predicate PageNeat(pages: Pages, p: PageId, k: nat, i: nat, root: PageId) {
    && (k > 0 ==> Sorted(EntriesOf(pages, p))) && Keyed(EntriesOf(pages, p), k, i)
    && (!Open(pages, p) ==> RootKnown(pages, p, root))
  }

  ghost predicate Neat(pages: Pages, levels: Levels, root: PageId) {
    forall k, i :: 0 <= k < |levels| && 0 <= i < |levels[k]| ==> PageNeat(pages, levels[k][i], k, i, root)
  }

  lemma NeatInner(pages: Pages, levels: Levels, root: PageId, l: nat)
    requires Neat(pages, levels, root)
    ensures InnerSorted(pages, levels, l)
  {
    hide Sorted;
    forall m, i | l < m < |levels| && 0 <= i < |levels[m]| ensures Sorted(EntriesOf(pages, levels[m][i])) {
      assert PageNeat(pages, levels[m][i], m, i, root);
    }
  }

  /** Behind the first page of a level, and anywhere on the leaves, no key is empty. */
  lemma NeatKey(pages: Pages, levels: Levels, root: PageId, l: nat, i: nat, x: nat)
    requires Neat(pages, levels, root) && l < |levels| && i < |levels[l]| && x < |EntriesOf(pages, levels[l][i])|
    requires l == 0 || i > 0 || x > 0
    ensures EntriesOf(pages, levels[l][i])[x].key != []
  {
    assert PageNeat(pages, levels[l][i], l, i, root);
    assert KeyedAt(EntriesOf(pages, levels[l][i])[x], l, i, x);
  }

  /** The page at an index that is zero exactly if it was. */
  lemma NeatMoved(s: Pages, s': Pages, p: PageId, k: nat, y: nat, x: nat, root: PageId)
    requires PageNeat(s, p, k, y, root) && At(s', p) == At(s, p) && (x == 0 <==> y == 0)
    ensures PageNeat(s', p, k, x, root)
  {
    forall z | 0 <= z < |EntriesOf(s', p)| ensures KeyedAt(EntriesOf(s', p)[z], k, x, z) {
      assert KeyedAt(EntriesOf(s, p)[z], k, y, z);
    }
  }

  /** Two pages rewritten in place, both still neat. */
  lemma OthersNeat(s: Pages, s': Pages, levels: Levels, root: PageId, k: nat, x: nat, m: nat, y: nat)
    requires Neat(s, levels, root) && TreeOk(s, levels, root)
    requires k < |levels| && x < |levels[k]| && m < |levels| && y < |levels[m]|
    requires forall r :: r != levels[k][x] && r != levels[m][y] ==> At(s', r) == At(s, r)
    requires PageNeat(s', levels[k][x], k, x, root) && PageNeat(s', levels[m][y], m, y, root)
    ensures Neat(s', levels, root)
  {
    NeighboursApart(s, levels, root, k);
    NeighboursApart(s, levels, root, m);
    hide TreeOk, Sorted, Keyed;
    var p, q := levels[k][x], levels[m][y];
    forall n, z | 0 <= n < |levels| && 0 <= z < |levels[n]| ensures PageNeat(s', levels[n][z], n, z, root) {
      assert PageNeat(s, levels[n][z], n, z, root);
      if n != k { TreeApart(s, levels, root, n, k, z); }
      if n != m { TreeApart(s, levels, root, n, m, z); }
      if levels[n][z] != p && levels[n][z] != q { NeatMoved(s, s', levels[n][z], n, z, z, root); }
    }
  }

  // ---------------------------------------------------------------- the steps of a split

  lemma EmptyNeat(s: Pages, p: PageId, k: nat, x: nat, root: PageId)
    requires At(s, p).Page? && EntriesOf(s, p) == [] && !At(s, p).flags.root
    ensures PageNeat(s, p, k, x, root)
  {
  }

  lemma PrepareNeat(s: Pages, levels: Levels, root: PageId, l: nat, i: nat, right: PageId, pgL: Page, pgR: Page)
    requires TreeOk(s, levels, root) && Neat(s, levels, root) && l < |levels| && i < |levels[l]|
    requires Unused(levels, right)
    requires Prepared(At(s, levels[l][i]), levels[l][i], right, pgL, pgR)
    ensures Neat(s[right := pgR][levels[l][i] := pgL], levels[l := Spliced(levels[l], i, right)], root)
  {
    var s', levels' := s[right := pgR][levels[l][i] := pgL], levels[l := Spliced(levels[l], i, right)];
    hide TreeOk, Sorted, Keyed;
    NeighboursApart(s, levels, root, l);
    assert NoDup(levels[l]);
    hide Linked;
    forall k, x | 0 <= k < |levels'| && 0 <= x < |levels'[k]| ensures PageNeat(s', levels'[k][x], k, x, root) {
      if k != l {
        TreeApart(s, levels, root, l, k, i);
        assert PageNeat(s, levels[k][x], k, x, root);
        NeatMoved(s, s', levels[k][x], k, x, x, root);
      } else {
        SplicedAt(levels[l], i, right, x);
        var y := if x <= i then x else x - 1;
        assert PageNeat(s, levels[l][y], l, y, root);
        if x != i && x != i + 1 { NeatMoved(s, s', levels[l][y], l, y, x, root); }
        if x == i + 1 { EmptyNeat(s', right, l, x, root); }
      }
    }
  }

  /** The halves of a page in order. */
  lemma HalvesKeyed(es: seq<Entry>, start: nat, l: nat, i: nat)
    requires Keyed(es, l, i) && 1 <= start <= |es|
    ensures Keyed(es[..start], l, i) && Keyed(es[start..], l, i + 1)
    ensures Sorted(es) ==> Sorted(es[..start]) && Sorted(es[start..])
  {
    forall z | 0 <= z < start ensures KeyedAt(es[..start][z], l, i, z) { assert KeyedAt(es[z], l, i, z); }
    forall z | 0 <= z < |es| - start ensures KeyedAt(es[start..][z], l, i + 1, z) {
      assert KeyedAt(es[z + start], l, i, z + start);
    }
  }

  lemma CopyNeat(s: Pages, levels: Levels, root: PageId, l: nat, i: nat, start: nat, pgL: Page, pgR: Page)
    requires TreeOk(s, levels, root) && Neat(s, levels, root) && l < |levels| && i + 1 < |levels[l]| && 1 <= start
    requires Copied(At(s, levels[l][i]), At(s, levels[l][i + 1]), start, pgL, pgR)
    ensures Neat(s[levels[l][i] := pgL][levels[l][i + 1] := pgR], levels, root)
  {
    var s' := s[levels[l][i] := pgL][levels[l][i + 1] := pgR];
    NeighboursDiffer(s, levels, root, l, i);
    assert PageNeat(s, levels[l][i], l, i, root) && PageNeat(s, levels[l][i + 1], l, i + 1, root);
    HalvesKeyed(EntriesOf(s, levels[l][i]), start, l, i);
    hide TreeOk, Sorted, Keyed, Bytes;
    OthersNeat(s, s', levels, root, l, i, l, i + 1);
  }

  /** A keyed downlink at its slot of a page in order. */
  lemma LinkOrdered(es: seq<Entry>, slot: nat, e: Entry, m: nat, j: nat)
    requires Sorted(es) && Keyed(es, m, j) && m > 0 && e.key != [] && e !in es && IsLowerBound(es, e, slot)
    ensures Sorted(es[..slot] + [e] + es[slot..]) && Keyed(es[..slot] + [e] + es[slot..], m, j)
  {
    var now := es[..slot] + [e] + es[slot..];
    InsertSorted(es, e, slot);
    assert es != [] && es[0].key == [] ==> Less(es[0], e) && slot > 0;
    forall z | 0 <= z < |now| ensures KeyedAt(now[z], m, j, z) {
      var y := if z < slot then z else z - 1;
      if z != slot { assert KeyedAt(es[y], m, j, y); }
    }
  }

  lemma CommitNeat(s: Pages, levels: Levels, root: PageId, l: nat, i: nat, j: nat, slot: nat, sep: seq<byte>, r: PageId,
                   pgL: Page, pgP: Page)
    requires TreeOk(s, levels, root) && Neat(s, levels, root) && l + 1 < |levels| && i < |levels[l]|
    requires j < |levels[l + 1]|
    requires Committed(At(s, levels[l][i]), At(s, levels[l + 1][j]), slot, sep, r, pgL, pgP) && sep != []
    requires IsLowerBound(EntriesOf(s, levels[l + 1][j]), Entry(sep, r, 0), slot)
    ensures Neat(s[levels[l + 1][j] := pgP][levels[l][i] := pgL], levels, root)
  {
    var left, parent, e := levels[l][i], levels[l + 1][j], Entry(sep, r, 0);
    var s' := s[parent := pgP][left := pgL];
    TreeApart(s, levels, root, l + 1, l, j);
    assert left in levels[l] && left != parent;
    NoDownlinkYet(s, levels, root, l, i, j, e);
    assert PageNeat(s, levels[l][i], l, i, root) && PageNeat(s, levels[l + 1][j], l + 1, j, root);
    hide TreeOk, Sorted, Keyed, Bytes;
    LinkOrdered(EntriesOf(s, parent), slot, e, l + 1, j);
    OthersNeat(s, s', levels, root, l, i, l + 1, j);
  }

  lemma PromoteNeat(s: Pages, levels: Levels, root: PageId, top: PageId, lsn: nat)
    requires TreeOk(s, levels, root) && Neat(s, levels, root) && Unused(levels, top) && Open(s, root)
    ensures Neat(s[top := NewRootPage(|levels|, root, lsn)], levels + [[top]], top)
  {
    var s', levels' := s[top := NewRootPage(|levels|, root, lsn)], levels + [[top]];
    hide TreeOk;
    forall k, x | 0 <= k < |levels'| && 0 <= x < |levels'[k]| ensures PageNeat(s', levels'[k][x], k, x, top) {
      if k < |levels| {
        assert PageNeat(s, levels[k][x], k, x, root) && levels[k][x] in levels[k];
        NeatMoved(s, s', levels[k][x], k, x, x, root);
      }
    }
  }

  // ---------------------------------------------------------------- the leaves

  /** A leaf whose entries, links apart, changed without an empty key. */
  lemma LeafNeat(s: Pages, s': Pages, levels: Levels, root: PageId, i: nat)
    requires TreeOk(s, levels, root) && Neat(s, levels, root) && i < |levels[0]|
    requires forall p :: p != levels[0][i] ==> At(s', p) == At(s, p)
    requires At(s, levels[0][i]).Page? && At(s', levels[0][i]).Page?
    requires At(s', levels[0][i]).flags == At(s, levels[0][i]).flags
    requires Keyed(EntriesOf(s', levels[0][i]), 0, i)
    ensures Neat(s', levels, root)
  {
    assert PageNeat(s, levels[0][i], 0, i, root);
    hide TreeOk, Sorted, Keyed;
    OthersNeat(s, s', levels, root, 0, i, 0, i);
  }

  lemma InsertKeyed(es: seq<Entry>, slot: nat, e: Entry, i: nat)
    requires Keyed(es, 0, i) && slot <= |es| && e.key != []
    ensures Keyed(es[..slot] + [e] + es[slot..], 0, i)
  {
    var now := es[..slot] + [e] + es[slot..];
    forall z | 0 <= z < |now| ensures KeyedAt(now[z], 0, i, z) {
      var y := if z < slot then z else z - 1;
      if z != slot { assert KeyedAt(es[y], 0, i, y); }
    }
  }

  lemma RemoveKeyed(es: seq<Entry>, slot: nat, i: nat)
    requires Keyed(es, 0, i) && slot < |es|
    ensures Keyed(es[..slot] + es[slot + 1..], 0, i)
  {
    var now := es[..slot] + es[slot + 1..];
    forall z | 0 <= z < |now| ensures KeyedAt(now[z], 0, i, z) {
      var y := if z < slot then z else z + 1;
      assert now[z] == es[y] && KeyedAt(es[y], 0, i, y);
    }
  }

  // ---------------------------------------------------------------- a delete

  lemma RemovedSorted(a: seq<Entry>, es: seq<Entry>, b: seq<Entry>, slot: nat)
    requires Sorted(a + es + b) && slot < |es|
    ensures Sorted(a + (es[..slot] + es[slot + 1..]) + b) && Sorted(es[..slot] + es[slot + 1..])
  {
    var was, kept := a + es + b, es[..slot] + es[slot + 1..];
    var now, cut := a + kept + b, |a| + slot;
    forall i, j | 0 <= i < j < |now| ensures Less(now[i], now[j]) {
      assert now[i] == was[if i < cut then i else i + 1] && now[j] == was[if j < cut then j else j + 1];
    }
    forall i, j | 0 <= i < j < |kept| ensures Less(kept[i], kept[j]) {
      assert kept[i] == now[|a| + i] && kept[j] == now[|a| + j];
    }
  }

  lemma {:induction false} RemovedBytes(level: nat, es: seq<Entry>, slot: nat)
    requires slot < |es|
    ensures Bytes(level, es[..slot] + es[slot + 1..]) <= Bytes(level, es)
  {
    BytesConcat(level, es[..slot], es[slot + 1..]);
    BytesConcat(level, es[..slot], es[slot..]);
    BytesConcat(level, [es[slot]], es[slot + 1..]);
    assert es[..slot] + es[slot..] == es && [es[slot]] + es[slot + 1..] == es[slot..];
  }

  lemma DeletedPage(pg: Page, p: PageId, root: PageId, slot: nat, lsn: nat)
    requires PageOk(pg, p, 0, root) && RemoveEntryAt(pg, slot).Ok?
    requires Sorted(pg.entries[..slot] + pg.entries[slot + 1..])
    ensures PageOk(Stamp(RemoveEntryAt(pg, slot).value, lsn), p, 0, root)
  {
    RemovedBytes(0, pg.entries, slot);
    hide Bytes, Sorted;
    var kept := pg.entries[..slot] + pg.entries[slot + 1..];
    forall x | 0 <= x < |kept| ensures |kept[x].key| <= MAX_INDEX_KEY_BYTES {
      assert kept[x] == pg.entries[if x < slot then x else x + 1];
    }
  }

  lemma Unsplice<T>(a: seq<T>, es: seq<T>, b: seq<T>, slot: nat)
    requires slot < |es|
    ensures var all, cut := a + es + b, |a| + slot;
      cut < |all| && all[cut] == es[slot] && a + (es[..slot] + es[slot + 1..]) + b == all[..cut] + all[cut + 1..]
  {
    var all, cut := a + es + b, |a| + slot;
    assert all[..cut] == a + es[..slot];
    assert all[cut + 1..] == es[slot + 1..] + b;
  }

  /** A delete takes one entry out of the leaf sequence and leaves it in order. */
  lemma DeletedFlat(s: Pages, chain: seq<PageId>, i: nat, slot: nat, pg: Page)
    requires Sorted(Flat(s, chain)) && NoDup(chain) && i < |chain| && slot < |EntriesOf(s, chain[i])| && pg.Page?
    requires pg.entries == EntriesOf(s, chain[i])[..slot] + EntriesOf(s, chain[i])[slot + 1..]
    ensures Sorted(Flat(s[chain[i] := pg], chain)) && Sorted(pg.entries)
    ensures Removed(Flat(s, chain), Flat(s[chain[i] := pg], chain), EntriesOf(s, chain[i])[slot])
  {
    var s': Pages := s[chain[i] := pg];
    FlatAt(s, chain, i);
    FlatAt(s', chain, i);
    FlatFrame(s, s', chain[..i]);
    FlatFrame(s, s', chain[i + 1..]);
    hide Flat;
    Unsplice(Flat(s, chain[..i]), EntriesOf(s, chain[i]), Flat(s, chain[i + 1..]), slot);
    assert Removed(Flat(s, chain), Flat(s', chain), EntriesOf(s, chain[i])[slot]);
    RemovedSorted(Flat(s, chain[..i]), EntriesOf(s, chain[i]), Flat(s, chain[i + 1..]), slot);
  }

  ghost predicate Removed(flat: seq<Entry>, flat': seq<Entry>, e: Entry) {
    exists n :: 0 <= n < |flat| && flat[n] == e && flat' == flat[..n] + flat[n + 1..]
  }

  lemma LeafDeleteKeeps(s: Pages, levels: Levels, root: PageId, i: nat, slot: nat, lsn: nat)
    requires TreeOk(s, levels, root) && i < |levels[0]| && Sorted(Flat(s, levels[0]))
    requires RemoveEntryAt(At(s, levels[0][i]), slot).Ok?
    ensures var p := levels[0][i];
      var s' := s[p := Stamp(RemoveEntryAt(At(s, p), slot).value, lsn)];
      && TreeOk(s', levels, root) && Sorted(Flat(s', levels[0]))
      && Removed(Flat(s, levels[0]), Flat(s', levels[0]), EntriesOf(s, p)[slot])
  {
    var p := levels[0][i];
    var pg := Stamp(RemoveEntryAt(At(s, p), slot).value, lsn);
    NeighboursApart(s, levels, root, 0);
    PageAt(s, levels, root, 0, i);
    hide Flat, TreeOk, Sorted, Bytes, Removed;
    DeletedFlat(s, levels[0], i, slot, pg);
    DeletedPage(At(s, p), p, root, slot, lsn);
    TreeReplace(s, levels, root, 0, i, pg);
  }
}
