/** The key ranges of pages: a downlink's key is the lower bound of what its page holds, and the upper bound of what
    stands left of it. Pages name their ranges strictly, so every key belongs to exactly one page of each level. A split
    that cuts no run of equal keys keeps this; one that does cannot. */
module Fences {
  import opened Entries
  import opened BtPages
  import opened BtLog
  import opened Chains
  import opened TreeShape
  import opened Lookup

  /** The lower bound of each page that has one. */
  type Lows = map<PageId, seq<byte>>

  ghost predicate AllFrom(es: seq<Entry>, k: seq<byte>) {
    forall x :: 0 <= x < |es| ==> !KeyLess(es[x].key, k)
  }

  ghost predicate AllUnder(es: seq<Entry>, k: seq<byte>) {
    forall x :: 0 <= x < |es| ==> KeyLess(es[x].key, k)
  }

  /** The right page of a split without its Commit: no downlink, and its range is its left twin's. */
  predicate IsTwin(pages: Pages, chain: seq<PageId>, i: nat)
    requires i < |chain|
  {
    i > 0 && Open(pages, chain[i - 1])
  }

  /** Page `c` against the lower bound of page `i`. */
  ghost predicate Apart(pages: Pages, chain: seq<PageId>, lo: Lows, i: nat, c: nat)
    requires i < |chain| && c < |chain|
  {
    chain[i] in lo ==>
      && (if c < i then AllUnder(EntriesOf(pages, chain[c]), lo[chain[i]])
          else AllFrom(EntriesOf(pages, chain[c]), lo[chain[i]]))
      && (i < c && chain[c] in lo ==> KeyLess(lo[chain[i]], lo[chain[c]]))
  }

  /** Every page but a twin has a lower bound; above the leaves it is the page's first key. */
  ghost predicate Bounded(pages: Pages, chain: seq<PageId>, l: nat, lo: Lows, i: nat)
    requires i < |chain|
  {
    && (chain[i] in lo <==> !IsTwin(pages, chain, i))
    && (l > 0 && chain[i] in lo && EntriesOf(pages, chain[i]) != [] ==>
         EntriesOf(pages, chain[i])[0].key == lo[chain[i]])
  }

  ghost predicate LevelFenced(pages: Pages, chain: seq<PageId>, l: nat, lo: Lows) {
    && chain != [] && chain[0] in lo && lo[chain[0]] == []
    && (forall i :: 0 <= i < |chain| ==> Bounded(pages, chain, l, lo, i))
    && (forall i, c :: 0 <= i < |chain| && 0 <= c < |chain| ==> Apart(pages, chain, lo, i, c))
  }

  /** The entry is a downlink to a page with that lower bound. */
  predicate Keys(e: Entry, lo: Lows) {
    e.ptr in lo && lo[e.ptr] == e.key
  }

  ghost predicate AllKeys(es: seq<Entry>, lo: Lows) {
    forall x :: 0 <= x < |es| ==> Keys(es[x], lo)
  }

  ghost predicate LinksKeyed(pages: Pages, levels: Levels, lo: Lows) {
    forall l, j :: 0 < l < |levels| && 0 <= j < |levels[l]| ==> AllKeys(EntriesOf(pages, levels[l][j]), lo)
  }

  ghost predicate FencedBy(pages: Pages, levels: Levels, lo: Lows) {
    && LinksKeyed(pages, levels, lo)
    && forall l :: 0 <= l < |levels| ==> LevelFenced(pages, levels[l], l, lo)
  }

  ghost predicate Fenced(pages: Pages, levels: Levels) {
    exists lo :: FencedBy(pages, levels, lo)
  }

  // ---------------------------------------------------------------- keys

  lemma KeyBelow(a: seq<byte>, b: seq<byte>, c: seq<byte>)
    ensures KeyLess(a, b) && !KeyLess(c, b) ==> KeyLess(a, c)
    ensures !KeyLess(b, a) && KeyLess(b, c) ==> KeyLess(a, c)
    ensures !KeyLess(b, a) && !KeyLess(c, b) ==> !KeyLess(c, a)
  {
    KeyTotal(b, c);
    KeyTotal(a, b);
    KeyTotal(a, c);
    if KeyLess(a, b) && KeyLess(b, c) { KeyTransitive(a, b, c); }
    if KeyLess(c, a) && KeyLess(a, b) { KeyTransitive(c, a, b); }
  }

  lemma UnderTwice(es: seq<Entry>, a: seq<byte>, b: seq<byte>)
    requires AllUnder(es, a) && KeyLess(a, b)
    ensures AllUnder(es, b)
  {
    forall x | 0 <= x < |es| ensures KeyLess(es[x].key, b) { KeyTransitive(es[x].key, a, b); }
  }

  lemma FromTwice(es: seq<Entry>, a: seq<byte>, b: seq<byte>)
    requires AllFrom(es, b) && !KeyLess(b, a)
    ensures AllFrom(es, a)
  {
    forall x | 0 <= x < |es| ensures !KeyLess(es[x].key, a) { KeyBelow(a, b, es[x].key); }
  }

  // ---------------------------------------------------------------- a level whose pages move

  lemma ApartMoved(s: Pages, s': Pages, chain: seq<PageId>, chain': seq<PageId>, lo: Lows, lo': Lows, i: nat, c: nat,
                   i': nat, c': nat)
    requires i < |chain| && c < |chain| && i' < |chain'| && c' < |chain'|
    requires chain'[i'] == chain[i] && chain'[c'] == chain[c] && (i < c <==> i' < c') && (c < i <==> c' < i')
    requires EntriesOf(s', chain[c]) == EntriesOf(s, chain[c])
    requires (chain[i] in lo' <==> chain[i] in lo) && (chain[i] in lo ==> lo'[chain[i]] == lo[chain[i]])
    requires (chain[c] in lo' <==> chain[c] in lo) && (chain[c] in lo ==> lo'[chain[c]] == lo[chain[c]])
    requires Apart(s, chain, lo, i, c)
    ensures Apart(s', chain', lo', i', c')
  {
  }

  /** Nothing of the level changed. */
  ghost predicate LevelSame(s: Pages, s': Pages, chain: seq<PageId>, lo: Lows, lo': Lows) {
    forall i :: 0 <= i < |chain| ==>
      && EntriesOf(s', chain[i]) == EntriesOf(s, chain[i]) && (Open(s', chain[i]) <==> Open(s, chain[i]))
      && (chain[i] in lo' <==> chain[i] in lo) && (chain[i] in lo ==> lo'[chain[i]] == lo[chain[i]])
  }

  lemma FencedFrame(s: Pages, s': Pages, chain: seq<PageId>, l: nat, lo: Lows, lo': Lows)
    requires LevelFenced(s, chain, l, lo) && LevelSame(s, s', chain, lo, lo')
    ensures LevelFenced(s', chain, l, lo')
  {
    hide AllFrom, AllUnder;
    forall i | 0 <= i < |chain| ensures Bounded(s', chain, l, lo', i) { assert Bounded(s, chain, l, lo, i); }
    forall i, c | 0 <= i < |chain| && 0 <= c < |chain| ensures Apart(s', chain, lo', i, c) {
      assert Apart(s, chain, lo, i, c);
    }
  }

  // ---------------------------------------------------------------- the steps of a split

  lemma SplicedFenced(s: Pages, chain: seq<PageId>, l: nat, lo: Lows, a: nat, right: PageId, pgL: Page, pgR: Page)
    requires LevelFenced(s, chain, l, lo) && NoDup(chain) && a < |chain| && right !in chain
    requires Prepared(At(s, chain[a]), chain[a], right, pgL, pgR)
    ensures LevelFenced(s[right := pgR][chain[a] := pgL], Spliced(chain, a, right), l, lo - {right})
  {
    var s', chain', lo' := s[right := pgR][chain[a] := pgL], Spliced(chain, a, right), lo - {right};
    hide AllFrom, AllUnder;
    SplicedAt(chain, a, right, 0);
    forall x | 0 <= x < |chain'| ensures Bounded(s', chain', l, lo', x) {
      SplicedAt(chain, a, right, x);
      if x > 0 { SplicedAt(chain, a, right, x - 1); }
      if x != a + 1 { assert Bounded(s, chain, l, lo, if x <= a then x else x - 1); }
    }
    forall x, c | 0 <= x < |chain'| && 0 <= c < |chain'| ensures Apart(s', chain', lo', x, c) {
      SplicedAt(chain, a, right, x);
      SplicedAt(chain, a, right, c);
      if x != a + 1 && c != a + 1 {
        var i, d := if x <= a then x else x - 1, if c <= a then c else c - 1;
        assert Apart(s, chain, lo, i, d);
        ApartMoved(s, s', chain, chain', lo, lo', i, d, x, c);
      } else if x != a + 1 {
        EmptyApart(s', chain', lo', x, c);
      }
    }
  }

  lemma EmptyApart(s: Pages, chain: seq<PageId>, lo: Lows, i: nat, c: nat)
    requires i < |chain| && c < |chain| && EntriesOf(s, chain[c]) == [] && chain[c] !in lo
    ensures Apart(s, chain, lo, i, c)
  {
  }

  lemma LinksAmong(s: Pages, levels: Levels, root: PageId, lo: Lows, right: PageId)
    requires TreeOk(s, levels, root) && LinksKeyed(s, levels, lo) && Unused(levels, right)
    ensures LinksKeyed(s, levels, lo - {right})
  {
    hide TreeOk;
    forall l, j | 0 < l < |levels| && 0 <= j < |levels[l]| ensures AllKeys(EntriesOf(s, levels[l][j]), lo - {right}) {
      var es := EntriesOf(s, levels[l][j]);
      forall x | 0 <= x < |es| ensures Keys(es[x], lo - {right}) {
        ChildBelow(s, levels, root, l, j, x);
        assert AllKeys(es, lo) && Keys(es[x], lo);
      }
    }
  }

  lemma PrepareFenced(s: Pages, levels: Levels, root: PageId, lo: Lows, l: nat, a: nat, right: PageId, pgL: Page,
                      pgR: Page)
    requires TreeOk(s, levels, root) && FencedBy(s, levels, lo) && l < |levels| && a < |levels[l]|
    requires Unused(levels, right) && Prepared(At(s, levels[l][a]), levels[l][a], right, pgL, pgR)
    ensures FencedBy(s[right := pgR][levels[l][a] := pgL], levels[l := Spliced(levels[l], a, right)], lo - {right})
  {
    var s', levels' := s[right := pgR][levels[l][a] := pgL], levels[l := Spliced(levels[l], a, right)];
    var lo' := lo - {right};
    LinksAmong(s, levels, root, lo, right);
    NeighboursApart(s, levels, root, l);
    assert NoDup(levels[l]);
    hide TreeOk, LevelFenced, AllKeys, Linked;
    forall m | 0 <= m < |levels'| ensures LevelFenced(s', levels'[m], m, lo') {
      if m == l {
        SplicedFenced(s, levels[l], l, lo, a, right, pgL, pgR);
      } else {
        TreeApart(s, levels, root, l, m, a);
        FencedFrame(s, s', levels[m], m, lo, lo');
      }
    }
    forall m, j | 0 < m < |levels'| && 0 <= j < |levels'[m]| ensures AllKeys(EntriesOf(s', levels'[m][j]), lo') {
      if m == l {
        SplicedAt(levels[l], a, right, j);
        if j == a + 1 { NoKeys(lo'); }
      } else {
        TreeApart(s, levels, root, l, m, a);
      }
    }
  }

  lemma NoKeys(lo: Lows)
    ensures AllKeys([], lo)
  {
  }

  lemma CutBounds(es: seq<Entry>, start: nat, k: seq<byte>, lo: Lows)
    requires start <= |es|
    ensures AllFrom(es, k) ==> AllFrom(es[..start], k) && AllFrom(es[start..], k)
    ensures AllUnder(es, k) ==> AllUnder(es[..start], k) && AllUnder(es[start..], k)
    ensures AllKeys(es, lo) ==> AllKeys(es[..start], lo) && AllKeys(es[start..], lo)
  {
  }

  lemma CopiedFenced(s: Pages, chain: seq<PageId>, l: nat, lo: Lows, a: nat, start: nat, pgL: Page, pgR: Page)
    requires LevelFenced(s, chain, l, lo) && NoDup(chain) && a + 1 < |chain| && 1 <= start && Open(s, chain[a])
    requires Copied(At(s, chain[a]), At(s, chain[a + 1]), start, pgL, pgR)
    ensures LevelFenced(s[chain[a] := pgL][chain[a + 1] := pgR], chain, l, lo)
  {
    var s' := s[chain[a] := pgL][chain[a + 1] := pgR];
    var es := EntriesOf(s, chain[a]);
    hide AllFrom, AllUnder, Bytes;
    assert chain[a] != chain[a + 1];
    forall i | 0 <= i < |chain| ensures Bounded(s', chain, l, lo, i) { assert Bounded(s, chain, l, lo, i); }
    assert Bounded(s, chain, l, lo, a + 1);
    forall i, c | 0 <= i < |chain| && 0 <= c < |chain| ensures Apart(s', chain, lo, i, c) {
      assert Apart(s, chain, lo, i, c) && Apart(s, chain, lo, i, a);
      if chain[i] in lo {
        CutBounds(es, start, lo[chain[i]], lo);
        assert i != a + 1;
      }
    }
  }

  lemma CopyFenced(s: Pages, levels: Levels, root: PageId, lo: Lows, l: nat, a: nat, start: nat, pgL: Page, pgR: Page)
    requires TreeOk(s, levels, root) && FencedBy(s, levels, lo) && l < |levels| && a + 1 < |levels[l]| && 1 <= start
    requires Open(s, levels[l][a]) && Copied(At(s, levels[l][a]), At(s, levels[l][a + 1]), start, pgL, pgR)
    ensures FencedBy(s[levels[l][a] := pgL][levels[l][a + 1] := pgR], levels, lo)
  {
    var s' := s[levels[l][a] := pgL][levels[l][a + 1] := pgR];
    NeighboursApart(s, levels, root, l);
    assert NoDup(levels[l]);
    NeighboursDiffer(s, levels, root, l, a);
    hide TreeOk, LevelFenced, AllKeys, Linked, Bytes;
    forall m | 0 <= m < |levels| ensures LevelFenced(s', levels[m], m, lo) {
      if m == l {
        CopiedFenced(s, levels[l], l, lo, a, start, pgL, pgR);
      } else {
        TreeApart(s, levels, root, l, m, a);
        TreeApart(s, levels, root, l, m, a + 1);
        FencedFrame(s, s', levels[m], m, lo, lo);
      }
    }
    forall m, j | 0 < m < |levels| && 0 <= j < |levels[m]| ensures AllKeys(EntriesOf(s', levels[m][j]), lo) {
      assert AllKeys(EntriesOf(s, levels[m][j]), lo);
      if m == l {
        CutBounds(EntriesOf(s, levels[l][a]), start, [], lo);
        assert AllKeys(EntriesOf(s, levels[l][a]), lo);
      } else {
        TreeApart(s, levels, root, l, m, a);
        TreeApart(s, levels, root, l, m, a + 1);
      }
    }
  }

  // ---------------------------------------------------------------- the Commit

  /** The key belongs to page `j` of the chain. */
  ghost predicate Covers(chain: seq<PageId>, lo: Lows, j: nat, k: seq<byte>) {
    && j < |chain|
    && (forall i :: 0 <= i <= j && chain[i] in lo ==> !KeyLess(k, lo[chain[i]]))
    && (forall i :: j < i < |chain| && chain[i] in lo ==> KeyLess(k, lo[chain[i]]))
  }

  /** The split cuts no run of equal keys. */
  ghost predicate CleanCut(s: Pages, left: PageId, right: PageId) {
    EntriesOf(s, right) != [] && AllUnder(EntriesOf(s, left), EntriesOf(s, right)[0].key)
  }

  ghost predicate KeysUp(es: seq<Entry>) {
    forall x :: 0 <= x < |es| ==> !KeyLess(es[x].key, es[0].key)
  }

  lemma SortedUp(es: seq<Entry>)
    requires Sorted(es)
    ensures KeysUp(es)
  {
    forall x | 0 <= x < |es| ensures !KeyLess(es[x].key, es[0].key) {
      KeyTotal(es[0].key, es[x].key);
      if x > 0 { assert Less(es[0], es[x]); }
    }
  }

  /** The twin's first key lies strictly between its neighbours' bounds. */
  ghost predicate Between(chain: seq<PageId>, lo: Lows, a: nat, sep: seq<byte>) {
    && a + 1 < |chain|
    && (forall i :: 0 <= i <= a && chain[i] in lo ==> KeyLess(lo[chain[i]], sep))
    && (forall i :: a + 1 < i < |chain| && chain[i] in lo ==> KeyLess(sep, lo[chain[i]]))
  }

  lemma TwinBetween(s: Pages, chain: seq<PageId>, l: nat, lo: Lows, a: nat)
    requires LevelFenced(s, chain, l, lo) && a + 1 < |chain| && Open(s, chain[a]) && CleanCut(s, chain[a], chain[a + 1])
    requires !Open(s, chain[a + 1]) && EntriesOf(s, chain[a]) != []
    ensures Between(chain, lo, a, EntriesOf(s, chain[a + 1])[0].key)
  {
    var sep, x := EntriesOf(s, chain[a + 1])[0].key, EntriesOf(s, chain[a])[0].key;
    forall i | 0 <= i <= a && chain[i] in lo ensures KeyLess(lo[chain[i]], sep) {
      assert Apart(s, chain, lo, i, a);
      KeyBelow(lo[chain[i]], x, sep);
    }
    forall i | a + 1 < i < |chain| && chain[i] in lo ensures KeyLess(sep, lo[chain[i]]) {
      assert Apart(s, chain, lo, i, a + 1);
    }
  }

  /** The level of the pair: the twin gets its bound. */
  lemma CommittedLower(s: Pages, s': Pages, chain: seq<PageId>, l: nat, lo: Lows, a: nat, sep: seq<byte>)
    requires LevelFenced(s, chain, l, lo) && NoDup(chain) && Between(chain, lo, a, sep) && Open(s, chain[a])
    requires CleanCut(s, chain[a], chain[a + 1]) && sep == EntriesOf(s, chain[a + 1])[0].key
    requires !Open(s, chain[a + 1]) && KeysUp(EntriesOf(s, chain[a + 1])) && !Open(s', chain[a])
    requires !IsTwin(s, chain, a)
    requires forall i :: 0 <= i < |chain| ==> EntriesOf(s', chain[i]) == EntriesOf(s, chain[i])
    requires forall i :: 0 <= i < |chain| && i != a ==> (Open(s', chain[i]) <==> Open(s, chain[i]))
    ensures LevelFenced(s', chain, l, lo[chain[a + 1] := sep])
  {
    var right := chain[a + 1];
    var lo' := lo[right := sep];
    hide AllFrom, AllUnder, KeysUp;
    assert forall i :: 0 <= i < |chain| && i != a + 1 ==> chain[i] != right;
    assert Bounded(s, chain, l, lo, a + 1);
    forall i | 0 <= i < |chain| ensures Bounded(s', chain, l, lo', i) { assert Bounded(s, chain, l, lo, i); }
    forall i, c | 0 <= i < |chain| && 0 <= c < |chain| ensures Apart(s', chain, lo', i, c) {
      assert Apart(s, chain, lo, i, c);
      if i == a + 1 { TwinApart(s, chain, l, lo, a, sep, c); }
    }
  }

  lemma TwinApart(s: Pages, chain: seq<PageId>, l: nat, lo: Lows, a: nat, sep: seq<byte>, c: nat)
    requires LevelFenced(s, chain, l, lo) && NoDup(chain) && Between(chain, lo, a, sep) && c < |chain|
    requires CleanCut(s, chain[a], chain[a + 1]) && sep == EntriesOf(s, chain[a + 1])[0].key
    requires !Open(s, chain[a + 1]) && KeysUp(EntriesOf(s, chain[a + 1])) && Open(s, chain[a])
    requires !IsTwin(s, chain, a)
    ensures if c <= a then AllUnder(EntriesOf(s, chain[c]), sep) else AllFrom(EntriesOf(s, chain[c]), sep)
  {
    assert Bounded(s, chain, l, lo, a);
    if c < a {
      assert Apart(s, chain, lo, a, c);
      UnderTwice(EntriesOf(s, chain[c]), lo[chain[a]], sep);
    } else if c > a + 1 {
      assert Bounded(s, chain, l, lo, a + 2) && Apart(s, chain, lo, a + 2, c);
      KeyTotal(sep, lo[chain[a + 2]]);
      FromTwice(EntriesOf(s, chain[c]), sep, lo[chain[a + 2]]);
    }
  }

  lemma InsertBounds(es: seq<Entry>, slot: nat, e: Entry, k: seq<byte>, lo: Lows)
    requires slot <= |es|
    ensures var now := es[..slot] + [e] + es[slot..];
      && (AllFrom(es, k) && !KeyLess(e.key, k) ==> AllFrom(now, k))
      && (AllUnder(es, k) && KeyLess(e.key, k) ==> AllUnder(now, k))
      && (AllKeys(es, lo) && Keys(e, lo) ==> AllKeys(now, lo))
  {
    var now := es[..slot] + [e] + es[slot..];
    forall x | 0 <= x < |now| ensures now[x] == if x < slot then es[x] else if x == slot then e else es[x - 1] {
    }
  }

  /** The level above: the parent takes the downlink behind its first entry. */
  lemma CommittedUpper(s: Pages, s': Pages, chain: seq<PageId>, m: nat, lo: Lows, lo': Lows, j: nat, slot: nat,
                       e: Entry)
    requires LevelFenced(s, chain, m, lo) && NoDup(chain) && Covers(chain, lo, j, e.key)
    requires 0 < slot <= |EntriesOf(s, chain[j])|
    requires EntriesOf(s', chain[j]) == EntriesOf(s, chain[j])[..slot] + [e] + EntriesOf(s, chain[j])[slot..]
    requires forall i :: 0 <= i < |chain| && i != j ==> EntriesOf(s', chain[i]) == EntriesOf(s, chain[i])
    requires forall i :: 0 <= i < |chain| ==> (Open(s', chain[i]) <==> Open(s, chain[i]))
    requires forall i :: 0 <= i < |chain| ==>
      (chain[i] in lo' <==> chain[i] in lo) && (chain[i] in lo ==> lo'[chain[i]] == lo[chain[i]])
    ensures LevelFenced(s', chain, m, lo')
  {
    hide AllFrom, AllUnder, AllKeys;
    forall i | 0 <= i < |chain| ensures Bounded(s', chain, m, lo', i) { assert Bounded(s, chain, m, lo, i); }
    forall i, c | 0 <= i < |chain| && 0 <= c < |chain| ensures Apart(s', chain, lo', i, c) {
      assert Apart(s, chain, lo, i, c);
      if c == j && chain[i] in lo { InsertBounds(EntriesOf(s, chain[j]), slot, e, lo[chain[i]], lo); }
    }
  }

  lemma MoreKeys(es: seq<Entry>, lo: Lows, right: PageId, sep: seq<byte>)
    requires AllKeys(es, lo) && right !in lo
    ensures AllKeys(es, lo[right := sep])
  {
    forall x | 0 <= x < |es| ensures Keys(es[x], lo[right := sep]) { assert Keys(es[x], lo); }
  }

  /** What a Commit needs to keep the ranges: a clean cut, and the parent whose range the separator is in. */
  ghost predicate CommitInRange(s: Pages, levels: Levels, lo: Lows, l: nat, a: nat, j: nat, slot: nat) {
    && l + 1 < |levels| && a + 1 < |levels[l]| && j < |levels[l + 1]|
    && Open(s, levels[l][a]) && !IsTwin(s, levels[l], a) && !Open(s, levels[l][a + 1])
    && CleanCut(s, levels[l][a], levels[l][a + 1]) && KeysUp(EntriesOf(s, levels[l][a + 1]))
    && var sep := EntriesOf(s, levels[l][a + 1])[0].key;
       && Between(levels[l], lo, a, sep) && Covers(levels[l + 1], lo, j, sep)
       && 0 < slot <= |EntriesOf(s, levels[l + 1][j])|
  }

  /** What the two page writes of a Commit leave of entries and marks. */
  ghost predicate CommitWritten(s: Pages, s': Pages, left: PageId, parent: PageId, slot: nat, e: Entry) {
    && left != parent && slot <= |EntriesOf(s, parent)|
    && EntriesOf(s', left) == EntriesOf(s, left) && !Open(s', left)
    && EntriesOf(s', parent) == EntriesOf(s, parent)[..slot] + [e] + EntriesOf(s, parent)[slot..]
    && (Open(s', parent) <==> Open(s, parent))
    && forall p :: p != left && p != parent ==> At(s', p) == At(s, p)
  }

  lemma CommitIsWritten(s: Pages, left: PageId, parent: PageId, slot: nat, sep: seq<byte>, right: PageId, pgL: Page,
                        pgP: Page)
    requires left != parent && Committed(At(s, left), At(s, parent), slot, sep, right, pgL, pgP)
    ensures CommitWritten(s, s[parent := pgP][left := pgL], left, parent, slot, Entry(sep, right, 0))
  {
  }

  lemma CommitKeys(s: Pages, s': Pages, levels: Levels, lo: Lows, left: PageId, parent: PageId, slot: nat, e: Entry)
    requires LinksKeyed(s, levels, lo) && CommitWritten(s, s', left, parent, slot, e) && e.ptr !in lo
    ensures LinksKeyed(s', levels, lo[e.ptr := e.key])
  {
    var lo' := lo[e.ptr := e.key];
    forall m, i | 0 < m < |levels| && 0 <= i < |levels[m]| ensures AllKeys(EntriesOf(s', levels[m][i]), lo') {
      var es := EntriesOf(s, levels[m][i]);
      assert AllKeys(es, lo);
      MoreKeys(es, lo, e.ptr, e.key);
      hide AllKeys;
      if levels[m][i] == parent { InsertBounds(es, slot, e, e.key, lo'); }
    }
  }

  lemma CommitElsewhere(s: Pages, s': Pages, levels: Levels, root: PageId, lo: Lows, l: nat, a: nat, j: nat, slot: nat,
                        e: Entry, m: nat)
    requires TreeOk(s, levels, root) && l + 1 < |levels| && a + 1 < |levels[l]| && j < |levels[l + 1]|
    requires CommitWritten(s, s', levels[l][a], levels[l + 1][j], slot, e) && e.ptr == levels[l][a + 1]
    requires m < |levels| && m != l
    ensures forall i :: 0 <= i < |levels[m]| && !(m == l + 1 && i == j) ==>
      EntriesOf(s', levels[m][i]) == EntriesOf(s, levels[m][i])
    ensures forall i :: 0 <= i < |levels[m]| ==> (Open(s', levels[m][i]) <==> Open(s, levels[m][i]))
    ensures forall i :: 0 <= i < |levels[m]| ==> levels[m][i] != e.ptr
  {
    TreeApart(s, levels, root, l, m, a);
    TreeApart(s, levels, root, l, m, a + 1);
    if m != l + 1 { TreeApart(s, levels, root, l + 1, m, j); }
    NeighboursApart(s, levels, root, l + 1);
    assert NoDup(levels[l + 1]);
    hide TreeOk, Linked;
  }

  lemma CommitFenced(s: Pages, levels: Levels, root: PageId, lo: Lows, l: nat, a: nat, j: nat, slot: nat, s': Pages)
    requires TreeOk(s, levels, root) && FencedBy(s, levels, lo) && CommitInRange(s, levels, lo, l, a, j, slot)
    requires var right := levels[l][a + 1];
      CommitWritten(s, s', levels[l][a], levels[l + 1][j], slot, Entry(EntriesOf(s, right)[0].key, right, 0))
    ensures var right := levels[l][a + 1]; FencedBy(s', levels, lo[right := EntriesOf(s, right)[0].key])
  {
    hide TreeOk, LevelFenced, AllKeys, Linked, Between, Covers, KeysUp, LinksKeyed, CommitWritten, AllUnder, IsTwin,
         Open, EntriesOf;
    var left, right, parent := levels[l][a], levels[l][a + 1], levels[l + 1][j];
    var sep := EntriesOf(s, right)[0].key;
    var lo', e := lo[right := sep], Entry(sep, right, 0);
    TwinUnbounded(s, levels[l], l, lo, a);
    CommitKeys(s, s', levels, lo, left, parent, slot, e);
    CommitLower(s, levels, root, lo, l, a, j, slot, s');
    CommitUpper(s, levels, root, lo, l, a, j, slot, s');
    forall m | 0 <= m < |levels| && m != l && m != l + 1 ensures LevelFenced(s', levels[m], m, lo') {
      CommitOther(s, s', levels, root, lo, l, a, j, slot, e, m);
    }
  }

  lemma TwinUnbounded(s: Pages, chain: seq<PageId>, l: nat, lo: Lows, a: nat)
    requires LevelFenced(s, chain, l, lo) && a + 1 < |chain| && Open(s, chain[a])
    ensures chain[a + 1] !in lo
  {
    assert Bounded(s, chain, l, lo, a + 1);
  }

  lemma CommitOther(s: Pages, s': Pages, levels: Levels, root: PageId, lo: Lows, l: nat, a: nat, j: nat, slot: nat,
                    e: Entry, m: nat)
    requires TreeOk(s, levels, root) && l + 1 < |levels| && a + 1 < |levels[l]| && j < |levels[l + 1]|
    requires CommitWritten(s, s', levels[l][a], levels[l + 1][j], slot, e) && e.ptr == levels[l][a + 1]
    requires m < |levels| && m != l && m != l + 1 && LevelFenced(s, levels[m], m, lo)
    ensures LevelFenced(s', levels[m], m, lo[e.ptr := e.key])
  {
    hide TreeOk, LevelFenced, CommitWritten;
    CommitElsewhere(s, s', levels, root, lo, l, a, j, slot, e, m);
    FencedFrame(s, s', levels[m], m, lo, lo[e.ptr := e.key]);
  }

  lemma CommitLower(s: Pages, levels: Levels, root: PageId, lo: Lows, l: nat, a: nat, j: nat, slot: nat, s': Pages)
    requires TreeOk(s, levels, root) && FencedBy(s, levels, lo) && CommitInRange(s, levels, lo, l, a, j, slot)
    requires var right := levels[l][a + 1];
      CommitWritten(s, s', levels[l][a], levels[l + 1][j], slot, Entry(EntriesOf(s, right)[0].key, right, 0))
    ensures var right := levels[l][a + 1];
      LevelFenced(s', levels[l], l, lo[right := EntriesOf(s, right)[0].key])
  {
    NeighboursApart(s, levels, root, l);
    assert NoDup(levels[l]);
    TreeApart(s, levels, root, l + 1, l, j);
    hide TreeOk, LevelFenced, AllKeys, Linked, Between, Covers, CleanCut, KeysUp, LinksKeyed;
    CommittedLower(s, s', levels[l], l, lo, a, EntriesOf(s, levels[l][a + 1])[0].key);
  }

  lemma CommitUpper(s: Pages, levels: Levels, root: PageId, lo: Lows, l: nat, a: nat, j: nat, slot: nat, s': Pages)
    requires TreeOk(s, levels, root) && FencedBy(s, levels, lo) && CommitInRange(s, levels, lo, l, a, j, slot)
    requires var right := levels[l][a + 1];
      CommitWritten(s, s', levels[l][a], levels[l + 1][j], slot, Entry(EntriesOf(s, right)[0].key, right, 0))
    ensures var right := levels[l][a + 1];
      LevelFenced(s', levels[l + 1], l + 1, lo[right := EntriesOf(s, right)[0].key])
  {
    NeighboursApart(s, levels, root, l + 1);
    assert NoDup(levels[l + 1]);
    hide TreeOk, LevelFenced, AllKeys, Linked, Between, Covers, CleanCut, KeysUp, LinksKeyed;
    var right := levels[l][a + 1];
    var sep := EntriesOf(s, right)[0].key;
    CommitElsewhere(s, s', levels, root, lo, l, a, j, slot, Entry(sep, right, 0), l + 1);
    CommittedUpper(s, s', levels[l + 1], l + 1, lo, lo[right := sep], j, slot, Entry(sep, right, 0));
  }

  /** The other direction: the twin's bound is above everything on its left page. */
  lemma FencedCutsClean(s: Pages, levels: Levels, lo: Lows, l: nat, a: nat, j: nat, x: nat)
    requires FencedBy(s, levels, lo) && l + 1 < |levels| && a + 1 < |levels[l]| && j < |levels[l + 1]|
    requires x < |EntriesOf(s, levels[l + 1][j])| && EntriesOf(s, levels[l + 1][j])[x].ptr == levels[l][a + 1]
    requires EntriesOf(s, levels[l][a + 1]) != []
    requires EntriesOf(s, levels[l + 1][j])[x].key == EntriesOf(s, levels[l][a + 1])[0].key
    ensures CleanCut(s, levels[l][a], levels[l][a + 1])
  {
    assert LevelFenced(s, levels[l], l, lo) && Apart(s, levels[l], lo, a + 1, a);
    assert AllKeys(EntriesOf(s, levels[l + 1][j]), lo) && Keys(EntriesOf(s, levels[l + 1][j])[x], lo);
  }

  // ---------------------------------------------------------------- promotion, unlink, leaf writes

  lemma PromoteFenced(s: Pages, levels: Levels, root: PageId, lo: Lows, top: PageId, lsn: nat)
    requires TreeOk(s, levels, root) && FencedBy(s, levels, lo) && Unused(levels, top)
    requires levels[|levels| - 1][0] == root
    ensures FencedBy(s[top := NewRootPage(|levels|, root, lsn)], levels + [[top]], lo[top := []])
  {
    var s', levels', lo' := s[top := NewRootPage(|levels|, root, lsn)], levels + [[top]], lo[top := []];
    LinksAmong(s, levels, root, lo, top);
    assert LevelFenced(s, levels[|levels| - 1], |levels| - 1, lo);
    hide TreeOk, LevelFenced, AllKeys;
    forall m | 0 <= m < |levels'| ensures LevelFenced(s', levels'[m], m, lo') {
      if m < |levels| {
        assert forall i :: 0 <= i < |levels[m]| ==> levels[m][i] != top;
        FencedFrame(s, s', levels[m], m, lo, lo');
      } else {
        LoneFenced(s', top, m, lo');
      }
    }
    forall m, i | 0 < m < |levels'| && 0 <= i < |levels'[m]| ensures AllKeys(EntriesOf(s', levels'[m][i]), lo') {
      if m < |levels| {
        assert levels[m][i] != top && AllKeys(EntriesOf(s, levels[m][i]), lo - {top});
        MoreKeys(EntriesOf(s, levels[m][i]), lo - {top}, top, []);
        assert (lo - {top})[top := []] == lo';
      } else {
        RootKeys(root, lo');
      }
    }
  }

  lemma RootKeys(root: PageId, lo: Lows)
    requires root in lo && lo[root] == []
    ensures AllKeys([Entry([], root, 0)], lo)
  {
  }

  lemma LoneFenced(s: Pages, p: PageId, l: nat, lo: Lows)
    requires p in lo && lo[p] == []
    requires l > 0 && EntriesOf(s, p) != [] ==> EntriesOf(s, p)[0].key == []
    ensures LevelFenced(s, [p], l, lo)
  {
    assert Bounded(s, [p], l, lo, 0) && Apart(s, [p], lo, 0, 0);
  }

  lemma UnlinkedFenced(s: Pages, chain: seq<PageId>, l: nat, lo: Lows, a: nat, pgL: Page)
    requires LevelFenced(s, chain, l, lo) && NoDup(chain) && Unlinkable(s, chain, a, pgL)
    ensures LevelFenced(s[chain[a] := pgL], Unspliced(chain, a), l, lo)
  {
    var s', chain' := s[chain[a] := pgL], Unspliced(chain, a);
    hide AllFrom, AllUnder;
    UnsplicedAt(chain, a, 0);
    forall x | 0 <= x < |chain'| ensures Bounded(s', chain', l, lo, x) {
      UnsplicedAt(chain, a, x);
      if x > 0 { UnsplicedAt(chain, a, x - 1); }
      assert Bounded(s, chain, l, lo, if x <= a then x else x + 1);
    }
    forall x, c | 0 <= x < |chain'| && 0 <= c < |chain'| ensures Apart(s', chain', lo, x, c) {
      UnsplicedAt(chain, a, x);
      UnsplicedAt(chain, a, c);
      var i, d := if x <= a then x else x + 1, if c <= a then c else c + 1;
      assert Apart(s, chain, lo, i, d);
      ApartMoved(s, s', chain, chain', lo, lo, i, d, x, c);
    }
  }

  lemma UnlinkFenced(s: Pages, levels: Levels, root: PageId, lo: Lows, l: nat, a: nat, pgL: Page)
    requires TreeOk(s, levels, root) && FencedBy(s, levels, lo) && l < |levels| && Unlinkable(s, levels[l], a, pgL)
    ensures FencedBy(s[levels[l][a] := pgL], levels[l := Unspliced(levels[l], a)], lo)
  {
    var s', levels' := s[levels[l][a] := pgL], levels[l := Unspliced(levels[l], a)];
    NeighboursApart(s, levels, root, l);
    assert NoDup(levels[l]) && EntriesOf(s', levels[l][a]) == EntriesOf(s, levels[l][a]);
    hide TreeOk, LevelFenced, AllKeys, Linked, Unlinkable;
    assert a + 1 < |levels[l]| by { UnlinkIndex(s, levels[l], a, pgL); }
    forall m | 0 <= m < |levels'| ensures LevelFenced(s', levels'[m], m, lo) {
      if m == l {
        UnlinkedFenced(s, levels[l], l, lo, a, pgL);
      } else {
        TreeApart(s, levels, root, l, m, a);
        FencedFrame(s, s', levels[m], m, lo, lo);
      }
    }
    forall m, i | 0 < m < |levels'| && 0 <= i < |levels'[m]| ensures AllKeys(EntriesOf(s', levels'[m][i]), lo) {
      if m == l { UnsplicedAt(levels[l], a, i); }
    }
  }

  lemma UnlinkIndex(s: Pages, chain: seq<PageId>, a: nat, pgL: Page)
    requires Unlinkable(s, chain, a, pgL)
    ensures a + 1 < |chain|
  {
  }

  /** A leaf takes an entry of its range, or gives one up. */
  lemma LeafFenced(s: Pages, s': Pages, levels: Levels, root: PageId, lo: Lows, c: nat)
    requires TreeOk(s, levels, root) && FencedBy(s, levels, lo) && |levels| > 0 && c < |levels[0]|
    requires forall p :: p != levels[0][c] ==> At(s', p) == At(s, p)
    requires Open(s', levels[0][c]) <==> Open(s, levels[0][c])
    requires forall x :: 0 <= x < |EntriesOf(s', levels[0][c])| ==>
      Covers(levels[0], lo, c, EntriesOf(s', levels[0][c])[x].key)
    ensures FencedBy(s', levels, lo)
  {
    NeighboursApart(s, levels, root, 0);
    assert NoDup(levels[0]);
    hide TreeOk, LevelFenced, AllKeys, Linked;
    forall m | 0 <= m < |levels| ensures LevelFenced(s', levels[m], m, lo) {
      if m == 0 {
        LeafLevelFenced(s, s', levels[0], lo, c);
      } else {
        TreeApart(s, levels, root, 0, m, c);
        FencedFrame(s, s', levels[m], m, lo, lo);
      }
    }
    forall m, i | 0 < m < |levels| && 0 <= i < |levels[m]| ensures AllKeys(EntriesOf(s', levels[m][i]), lo) {
      TreeApart(s, levels, root, 0, m, c);
    }
  }

  lemma LeafLevelFenced(s: Pages, s': Pages, chain: seq<PageId>, lo: Lows, c: nat)
    requires LevelFenced(s, chain, 0, lo) && c < |chain| && NoDup(chain)
    requires forall p :: p != chain[c] ==> At(s', p) == At(s, p)
    requires Open(s', chain[c]) <==> Open(s, chain[c])
    requires forall x :: 0 <= x < |EntriesOf(s', chain[c])| ==> Covers(chain, lo, c, EntriesOf(s', chain[c])[x].key)
    ensures LevelFenced(s', chain, 0, lo)
  {
    forall i | 0 <= i < |chain| ensures Bounded(s', chain, 0, lo, i) { assert Bounded(s, chain, 0, lo, i); }
    forall i, d | 0 <= i < |chain| && 0 <= d < |chain| ensures Apart(s', chain, lo, i, d) {
      assert Apart(s, chain, lo, i, d);
    }
  }

  /** What a page holds is in its range. */
  lemma HeldInRange(s: Pages, chain: seq<PageId>, l: nat, lo: Lows, c: nat, x: nat)
    requires LevelFenced(s, chain, l, lo) && c < |chain| && x < |EntriesOf(s, chain[c])|
    ensures Covers(chain, lo, c, EntriesOf(s, chain[c])[x].key)
  {
    forall i | 0 <= i < |chain| && chain[i] in lo
      ensures if i <= c then !KeyLess(EntriesOf(s, chain[c])[x].key, lo[chain[i]])
              else KeyLess(EntriesOf(s, chain[c])[x].key, lo[chain[i]])
    {
      assert Apart(s, chain, lo, i, c);
    }
  }

  // ---------------------------------------------------------------- pages above the leaves are never empty

  ghost predicate Filled(pages: Pages, levels: Levels) {
    forall l, i :: 0 < l < |levels| && 0 <= i < |levels[l]| ==>
      EntriesOf(pages, levels[l][i]) != [] || IsTwin(pages, levels[l], i)
  }

  lemma PrepareFilled(s: Pages, levels: Levels, root: PageId, l: nat, a: nat, right: PageId, pgL: Page, pgR: Page)
    requires TreeOk(s, levels, root) && Filled(s, levels) && l < |levels| && a < |levels[l]|
    requires Unused(levels, right) && Prepared(At(s, levels[l][a]), levels[l][a], right, pgL, pgR)
    ensures Filled(s[right := pgR][levels[l][a] := pgL], levels[l := Spliced(levels[l], a, right)])
  {
    var s', levels' := s[right := pgR][levels[l][a] := pgL], levels[l := Spliced(levels[l], a, right)];
    NeighboursApart(s, levels, root, l);
    assert NoDup(levels[l]);
    hide TreeOk, Linked;
    forall m, x | 0 < m < |levels'| && 0 <= x < |levels'[m]|
      ensures EntriesOf(s', levels'[m][x]) != [] || IsTwin(s', levels'[m], x)
    {
      if m != l {
        TreeApart(s, levels, root, l, m, a);
        if x > 0 { assert levels[m][x - 1] in levels[m]; }
      } else {
        SplicedAt(levels[l], a, right, x);
        if x > 0 { SplicedAt(levels[l], a, right, x - 1); }
      }
    }
  }

  /** Pages rewritten in place: the ones that are not twins keep entries. */
  lemma StillFilled(s: Pages, s': Pages, levels: Levels)
    requires Filled(s, levels)
    requires forall l, i :: 0 < l < |levels| && 0 <= i < |levels[l]| && EntriesOf(s, levels[l][i]) != [] ==>
      EntriesOf(s', levels[l][i]) != []
    requires forall l, i :: 0 < l < |levels| && 0 <= i < |levels[l]| && IsTwin(s, levels[l], i) ==>
      EntriesOf(s', levels[l][i]) != [] || IsTwin(s', levels[l], i)
    ensures Filled(s', levels)
  {
  }

  lemma CopyFilled(s: Pages, levels: Levels, root: PageId, l: nat, a: nat, start: nat, pgL: Page, pgR: Page)
    requires TreeOk(s, levels, root) && Filled(s, levels) && l < |levels| && a + 1 < |levels[l]| && 1 <= start
    requires Copied(At(s, levels[l][a]), At(s, levels[l][a + 1]), start, pgL, pgR)
    ensures Filled(s[levels[l][a] := pgL][levels[l][a + 1] := pgR], levels)
  {
    var s' := s[levels[l][a] := pgL][levels[l][a + 1] := pgR];
    NeighboursDiffer(s, levels, root, l, a);
    hide TreeOk, Bytes;
    StillFilled(s, s', levels);
  }

  lemma LevelNoDup(s: Pages, levels: Levels, root: PageId, l: nat)
    requires TreeOk(s, levels, root) && l < |levels|
    ensures NoDup(levels[l])
  {
    NeighboursApart(s, levels, root, l);
  }

  lemma CommitFilled(s: Pages, levels: Levels, root: PageId, l: nat, a: nat, j: nat, slot: nat, e: Entry, s': Pages)
    requires TreeOk(s, levels, root) && Filled(s, levels) && l + 1 < |levels| && a < |levels[l]|
    requires j < |levels[l + 1]| && CommitWritten(s, s', levels[l][a], levels[l + 1][j], slot, e)
    requires a + 1 < |levels[l]| && l > 0 ==> EntriesOf(s, levels[l][a + 1]) != []
    ensures Filled(s', levels)
  {
    hide TreeOk, Linked, Filled;
    LevelNoDup(s, levels, root, l);
    forall m, i | 0 < m < |levels| && 0 <= i < |levels[m]| && IsTwin(s, levels[m], i)
      ensures EntriesOf(s', levels[m][i]) != [] || IsTwin(s', levels[m], i)
    {
      if m != l { TreeApart(s, levels, root, l, m, a); }
      assert m == l && i - 1 != a ==> levels[l][i - 1] != levels[l][a];
    }
    StillFilled(s, s', levels);
  }

  lemma PromoteFilled(s: Pages, levels: Levels, top: PageId, root: PageId, lsn: nat)
    requires Filled(s, levels) && Unused(levels, top)
    ensures Filled(s[top := NewRootPage(|levels|, root, lsn)], levels + [[top]])
  {
    var s', levels' := s[top := NewRootPage(|levels|, root, lsn)], levels + [[top]];
    forall m, x | 0 < m < |levels'| && 0 <= x < |levels'[m]|
      ensures EntriesOf(s', levels'[m][x]) != [] || IsTwin(s', levels'[m], x)
    {
      if m < |levels| {
        assert levels[m][x] in levels[m] && (x > 0 ==> levels[m][x - 1] in levels[m]);
      }
    }
  }

  lemma LeafFilled(s: Pages, s': Pages, levels: Levels, root: PageId, c: nat)
    requires TreeOk(s, levels, root) && Filled(s, levels) && |levels| > 0 && c < |levels[0]|
    requires forall p :: p != levels[0][c] ==> At(s', p) == At(s, p)
    ensures Filled(s', levels)
  {
    forall m | 0 < m < |levels| ensures levels[0][c] !in levels[m] { TreeApart(s, levels, root, 0, m, c); }
    hide TreeOk;
    StillFilled(s, s', levels);
  }

  // ---------------------------------------------------------------- where a separator goes

  /** A split in flight, both halves with entries. */
  ghost predicate Halfway(s: Pages, chain: seq<PageId>, a: nat) {
    && a + 1 < |chain| && Open(s, chain[a]) && !IsTwin(s, chain, a) && !Open(s, chain[a + 1])
    && EntriesOf(s, chain[a]) != [] && EntriesOf(s, chain[a + 1]) != [] && KeysUp(EntriesOf(s, chain[a + 1]))
  }

  /** A page that names the left half has the separator in its range. */
  lemma ParentInRange(s: Pages, levels: Levels, root: PageId, lo: Lows, l: nat, a: nat, j: nat, x: nat)
    requires TreeOk(s, levels, root) && FencedBy(s, levels, lo) && Filled(s, levels) && l + 1 < |levels|
    requires Halfway(s, levels[l], a) && CleanCut(s, levels[l][a], levels[l][a + 1])
    requires j < |levels[l + 1]| && x < |EntriesOf(s, levels[l + 1][j])|
    requires EntriesOf(s, levels[l + 1][j])[x].ptr == levels[l][a]
    ensures var sep := EntriesOf(s, levels[l][a + 1])[0].key;
      && Between(levels[l], lo, a, sep) && Covers(levels[l + 1], lo, j, sep)
      && (levels[l + 1][j] in lo ==> KeyLess(lo[levels[l + 1][j]], sep))
  {
    hide TreeOk, AllKeys, KeysUp, Filled;
    var chain, up, sep := levels[l], levels[l + 1], EntriesOf(s, levels[l][a + 1])[0].key;
    TwinBetween(s, chain, l, lo, a);
    var es := EntriesOf(s, up[j]);
    assert Keys(es[x], lo) by { KeyOf(s, levels, lo, l + 1, j, x); }
    var k := lo[chain[a]];
    assert es[x].key == k && KeyLess(k, sep);
    forall i | 0 <= i <= j && up[i] in lo ensures KeyLess(lo[up[i]], sep) {
      assert Apart(s, up, lo, i, j);
      KeyBelow(lo[up[i]], k, sep);
    }
    forall i | j < i < |up| && up[i] in lo ensures KeyLess(sep, lo[up[i]]) {
      assert Apart(s, up, lo, i, j) && KeyLess(k, lo[up[i]]);
      LaterParent(s, levels, root, lo, l, a, i, sep);
    }
    forall i | 0 <= i <= j && up[i] in lo ensures !KeyLess(sep, lo[up[i]]) { KeyTotal(sep, lo[up[i]]); }
  }

  lemma KeyOf(s: Pages, levels: Levels, lo: Lows, l: nat, j: nat, x: nat)
    requires LinksKeyed(s, levels, lo) && 0 < l < |levels| && j < |levels[l]| && x < |EntriesOf(s, levels[l][j])|
    ensures Keys(EntriesOf(s, levels[l][j])[x], lo)
  {
    assert AllKeys(EntriesOf(s, levels[l][j]), lo);
  }

  /** A page above whose bound exceeds the left half's exceeds the separator. */
  lemma LaterParent(s: Pages, levels: Levels, root: PageId, lo: Lows, l: nat, a: nat, i: nat, sep: seq<byte>)
    requires TreeOk(s, levels, root) && FencedBy(s, levels, lo) && Filled(s, levels) && l + 1 < |levels|
    requires a < |levels[l]| && levels[l][a] in lo && Open(s, levels[l][a]) && Between(levels[l], lo, a, sep)
    requires i < |levels[l + 1]| && levels[l + 1][i] in lo && KeyLess(lo[levels[l][a]], lo[levels[l + 1][i]])
    ensures KeyLess(sep, lo[levels[l + 1][i]])
  {
    var chain, up := levels[l], levels[l + 1];
    assert LevelFenced(s, up, l + 1, lo) && Bounded(s, up, l + 1, lo, i);
    assert EntriesOf(s, up[i]) != [];
    ChildBelow(s, levels, root, l + 1, i, 0);
    KeyOf(s, levels, lo, l + 1, i, 0);
    hide TreeOk, Filled, LinksKeyed, AllKeys;
    var q := EntriesOf(s, up[i])[0].ptr;
    var b :| 0 <= b < |chain| && chain[b] == q;
    assert LevelFenced(s, chain, l, lo) && Apart(s, chain, lo, b, a) && Bounded(s, chain, l, lo, a + 1);
    KeyTotal(lo[chain[a]], lo[chain[b]]);
    KeyTotal(lo[chain[a]], lo[chain[a]]);
    assert a + 1 < b;
  }

  /** The Commit into the page that names the left half, at the separator's slot. */
  lemma ReadyToCommit(s: Pages, levels: Levels, root: PageId, lo: Lows, l: nat, a: nat, j: nat, x: nat, slot: nat)
    requires TreeOk(s, levels, root) && FencedBy(s, levels, lo) && Filled(s, levels) && l + 1 < |levels|
    requires Halfway(s, levels[l], a) && CleanCut(s, levels[l][a], levels[l][a + 1])
    requires j < |levels[l + 1]| && !IsTwin(s, levels[l + 1], j) && x < |EntriesOf(s, levels[l + 1][j])|
    requires EntriesOf(s, levels[l + 1][j])[x].ptr == levels[l][a]
    requires var right := levels[l][a + 1];
      IsLowerBound(EntriesOf(s, levels[l + 1][j]), Entry(EntriesOf(s, right)[0].key, right, 0), slot)
    ensures CommitInRange(s, levels, lo, l, a, j, slot)
  {
    hide TreeOk, AllKeys, KeysUp, Filled;
    ParentInRange(s, levels, root, lo, l, a, j, x);
    var es := EntriesOf(s, levels[l + 1][j]);
    assert LevelFenced(s, levels[l + 1], l + 1, lo) && Bounded(s, levels[l + 1], l + 1, lo, j);
    assert Less(es[0], Entry(EntriesOf(s, levels[l][a + 1])[0].key, levels[l][a + 1], 0));
  }

  // ---------------------------------------------------------------- the one path to a key

  lemma {:induction false} NamedBySome(s: Pages, chain: seq<PageId>, q: PageId) returns (d: nat, y: nat)
    requires Names(s, chain, true, q) > 0
    ensures d < |chain| && y < |EntriesOf(s, chain[d])| && EntriesOf(s, chain[d])[y].ptr == q
    decreases |chain|
  {
    var last := |chain| - 1;
    if PageNames(At(s, chain[last]), true, q) > 0 {
      d := last;
      y := PointerAt(EntriesOf(s, chain[last]), q);
    } else {
      d, y := NamedBySome(s, chain[..last], q);
    }
  }

  lemma {:induction false} PointerAt(es: seq<Entry>, q: PageId) returns (y: nat)
    requires PtrCount(es, q) > 0
    ensures y < |es| && es[y].ptr == q
    decreases |es|
  {
    var last := |es| - 1;
    if es[last].ptr == q { y := last; } else { y := PointerAt(es[..last], q); }
  }

  /** In a tree without a split in flight every page below the top has its downlink. */
  lemma HasDownlink(s: Pages, levels: Levels, root: PageId, l: nat, i: nat) returns (d: nat, y: nat)
    requires TreeOk(s, levels, root) && NoneOpen(s, levels, l) && l + 1 < |levels| && i < |levels[l]|
    ensures d < |levels[l + 1]| && y < |EntriesOf(s, levels[l + 1][d])|
    ensures EntriesOf(s, levels[l + 1][d])[y].ptr == levels[l][i]
  {
    var q := levels[l][i];
    assert NamedOnce(s, levels, root, l);
    assert Downlinks(s, levels, root, l, q) + Names(s, levels[l], false, q) == if q in levels[l] then 1 else 0;
    hide Names, TreeOk;
    NothingOpen(s, levels[l], q);
    d, y := NamedBySome(s, levels[l + 1], q);
  }

  lemma {:induction false} NothingOpen(s: Pages, chain: seq<PageId>, q: PageId)
    requires forall i :: 0 <= i < |chain| ==> !Open(s, chain[i])
    ensures Names(s, chain, false, q) == 0
    decreases |chain|
  {
    if chain != [] {
      assert !Open(s, chain[|chain| - 1]);
      NothingOpen(s, chain[..|chain| - 1], q);
    }
  }

  /** The child the descent picks has the key in its range. */
  lemma ChildInRange(s: Pages, levels: Levels, root: PageId, lo: Lows, l: nat, at: nat, slot: nat, key: seq<byte>)
    returns (c: nat)
    requires TreeOk(s, levels, root) && FencedBy(s, levels, lo) && Filled(s, levels) && NoneOpen(s, levels, 0)
    requires 0 < l < |levels| && Covers(levels[l], lo, at, key) && Sorted(EntriesOf(s, levels[l][at]))
    requires slot < |EntriesOf(s, levels[l][at])|
    requires forall i :: slot < i < |EntriesOf(s, levels[l][at])| ==> KeyLess(key, EntriesOf(s, levels[l][at])[i].key)
    requires slot > 0 ==> !KeyLess(key, EntriesOf(s, levels[l][at])[slot].key)
    ensures c < |levels[l - 1]| && levels[l - 1][c] == EntriesOf(s, levels[l][at])[slot].ptr
    ensures Covers(levels[l - 1], lo, c, key)
  {
    hide TreeOk, Filled, LinksKeyed, AllKeys, Sorted, NoneOpen, AllFrom, AllUnder;
    var es, chain, down := EntriesOf(s, levels[l][at]), levels[l], levels[l - 1];
    ChildBelow(s, levels, root, l, at, slot);
    KeyOf(s, levels, lo, l, at, slot);
    c :| 0 <= c < |down| && down[c] == es[slot].ptr;
    if slot == 0 { RangeStays(s, levels, lo, l, at, key); }
    assert LevelFenced(s, chain, l, lo) && LevelFenced(s, down, l - 1, lo) && Bounded(s, chain, l, lo, at);
    assert Apart(s, chain, lo, at, at) && !KeyLess(key, lo[down[c]]);
    forall i | 0 <= i <= c && down[i] in lo ensures !KeyLess(key, lo[down[i]]) {
      assert Apart(s, down, lo, i, c);
      KeyTotal(lo[down[i]], lo[down[c]]);
      KeyBelow(lo[down[i]], lo[down[c]], key);
    }
    forall i | c < i < |down| && down[i] in lo ensures KeyLess(key, lo[down[i]]) {
      NextChild(s, levels, root, lo, l, at, slot, key, c, i);
    }
  }

  lemma NotFalling(es: seq<Entry>, x: nat, y: nat)
    requires Sorted(es) && x <= y < |es|
    ensures !KeyLess(es[y].key, es[x].key)
  {
    KeyTotal(es[x].key, es[y].key);
    if x < y { assert Less(es[x], es[y]); }
  }

  lemma NextChild(s: Pages, levels: Levels, root: PageId, lo: Lows, l: nat, at: nat, slot: nat, key: seq<byte>, c: nat,
                  i: nat)
    requires TreeOk(s, levels, root) && FencedBy(s, levels, lo) && NoneOpen(s, levels, 0)
    requires 0 < l < |levels| && Covers(levels[l], lo, at, key) && Sorted(EntriesOf(s, levels[l][at]))
    requires slot < |EntriesOf(s, levels[l][at])|
    requires forall i :: slot < i < |EntriesOf(s, levels[l][at])| ==> KeyLess(key, EntriesOf(s, levels[l][at])[i].key)
    requires c < i < |levels[l - 1]| && levels[l - 1][c] == EntriesOf(s, levels[l][at])[slot].ptr
    requires levels[l - 1][i] in lo
    ensures KeyLess(key, lo[levels[l - 1][i]])
  {
    var es, chain, down := EntriesOf(s, levels[l][at]), levels[l], levels[l - 1];
    var d, y := HasDownlink(s, levels, root, l - 1, i);
    KeyOf(s, levels, lo, l, at, slot);
    KeyOf(s, levels, lo, l, d, y);
    hide TreeOk, LinksKeyed, AllKeys;
    assert LevelFenced(s, chain, l, lo) && LevelFenced(s, down, l - 1, lo);
    assert Bounded(s, chain, l, lo, at) && Bounded(s, chain, l, lo, d);
    assert Apart(s, down, lo, c, i) && KeyLess(es[slot].key, lo[down[i]]);
    if d < at {
      assert Apart(s, chain, lo, at, d) && Apart(s, chain, lo, at, at);
      KeyBelow(lo[down[i]], lo[chain[at]], es[slot].key);
      KeyTotal(lo[down[i]], es[slot].key);
    } else if d > at {
      assert Apart(s, chain, lo, d, d);
      KeyBelow(key, lo[chain[d]], lo[down[i]]);
    } else if y <= slot {
      NotFalling(es, y, slot);
      assert false;
    }
  }

  /** On the leaves the page in whose range the key is holds the probe's position. */
  lemma RangeIsPosition(s: Pages, chain: seq<PageId>, lo: Lows, c: nat, probe: Entry)
    requires LevelFenced(s, chain, 0, lo) && Covers(chain, lo, c, probe.key)
    requires forall i :: 0 <= i < |chain| ==> !Open(s, chain[i])
    ensures PositionAt(s, chain, c, probe)
  {
    forall j | 0 <= j < |chain| && j != c
      ensures if j < c then AllBelow(EntriesOf(s, chain[j]), probe) else AllAbove(EntriesOf(s, chain[j]), probe)
    {
      var es := EntriesOf(s, chain[j]);
      assert Bounded(s, chain, 0, lo, c) && Bounded(s, chain, 0, lo, j);
      assert Apart(s, chain, lo, c, j) && Apart(s, chain, lo, j, j);
      forall x | 0 <= x < |es| ensures if j < c then Less(es[x], probe) else Less(probe, es[x]) {
        KeyBelow(es[x].key, lo[chain[c]], probe.key);
        KeyBelow(probe.key, lo[chain[j]], es[x].key);
      }
    }
  }

  /** Above the leaves that page neither starts above the key nor does the next one own it. */
  lemma RangeStays(s: Pages, levels: Levels, lo: Lows, l: nat, at: nat, key: seq<byte>)
    requires FencedBy(s, levels, lo) && Filled(s, levels) && NoneOpen(s, levels, 0) && 0 < l < |levels|
    requires Covers(levels[l], lo, at, key)
    ensures EntriesOf(s, levels[l][at]) != [] && !KeyLess(key, EntriesOf(s, levels[l][at])[0].key)
    ensures at + 1 < |levels[l]| ==>
      EntriesOf(s, levels[l][at + 1]) != [] && KeyLess(key, EntriesOf(s, levels[l][at + 1])[0].key)
  {
    var chain := levels[l];
    assert LevelFenced(s, chain, l, lo) && Bounded(s, chain, l, lo, at);
    if at + 1 < |chain| { assert Bounded(s, chain, l, lo, at + 1); }
  }

  lemma RangeUnique(s: Pages, chain: seq<PageId>, l: nat, lo: Lows, c: nat, d: nat, key: seq<byte>)
    requires LevelFenced(s, chain, l, lo) && Covers(chain, lo, c, key) && Covers(chain, lo, d, key)
    requires forall i :: 0 <= i < |chain| ==> !Open(s, chain[i])
    ensures c == d
  {
    assert Bounded(s, chain, l, lo, c) && Bounded(s, chain, l, lo, d);
  }

  /** The root alone on its level has every key in its range. */
  lemma RootInRange(s: Pages, root: PageId, l: nat, lo: Lows, key: seq<byte>)
    requires LevelFenced(s, [root], l, lo)
    ensures Covers([root], lo, 0, key)
  {
  }

  /** What the descents rely on: ranges, no empty page above the leaves, no split in flight, separators in order. */
  ghost predicate Passable(s: Pages, levels: Levels, lo: Lows) {
    FencedBy(s, levels, lo) && Filled(s, levels) && NoneOpen(s, levels, 0) && InnerSorted(s, levels, 0)
  }

  /** Without a split in flight the root is alone on top. */
  lemma TopAlone(s: Pages, levels: Levels, root: PageId)
    requires TreeOk(s, levels, root) && NoneOpen(s, levels, 0)
    ensures |levels| > 0 && levels[|levels| - 1] == [root]
  {
    var top := |levels| - 1;
    RootOnTop(s, levels, root);
    NeighboursApart(s, levels, root, top);
    assert NamedOnce(s, levels, root, top) && NoDup(levels[top]);
    hide TreeOk, Names, Linked;
    if |levels[top]| > 1 {
      var q := if levels[top][0] == root then levels[top][1] else levels[top][0];
      assert q in levels[top] && q != root;
      assert Downlinks(s, levels, root, top, q) + Names(s, levels[top], false, q) == 1;
      NothingOpen(s, levels[top], q);
      assert false;
    }
  }

  // ---------------------------------------------------------------- the steps, for every assignment of bounds

  lemma PrepareFences(s: Pages, levels: Levels, root: PageId, l: nat, a: nat, right: PageId, pgL: Page, pgR: Page)
    requires TreeOk(s, levels, root) && l < |levels| && a < |levels[l]| && Unused(levels, right)
    requires Prepared(At(s, levels[l][a]), levels[l][a], right, pgL, pgR)
    ensures forall lo :: FencedBy(s, levels, lo) ==>
      FencedBy(s[right := pgR][levels[l][a] := pgL], levels[l := Spliced(levels[l], a, right)], lo - {right})
  {
    hide *;
    forall lo | FencedBy(s, levels, lo)
      ensures FencedBy(s[right := pgR][levels[l][a] := pgL], levels[l := Spliced(levels[l], a, right)], lo - {right})
    {
      PrepareFenced(s, levels, root, lo, l, a, right, pgL, pgR);
    }
  }

  lemma CopyFences(s: Pages, levels: Levels, root: PageId, l: nat, a: nat, start: nat, pgL: Page, pgR: Page)
    requires TreeOk(s, levels, root) && l < |levels| && a + 1 < |levels[l]| && 1 <= start && Open(s, levels[l][a])
    requires Copied(At(s, levels[l][a]), At(s, levels[l][a + 1]), start, pgL, pgR)
    ensures forall lo :: FencedBy(s, levels, lo) ==>
      FencedBy(s[levels[l][a] := pgL][levels[l][a + 1] := pgR], levels, lo)
  {
    hide *;
    forall lo | FencedBy(s, levels, lo)
      ensures FencedBy(s[levels[l][a] := pgL][levels[l][a + 1] := pgR], levels, lo)
    {
      CopyFenced(s, levels, root, lo, l, a, start, pgL, pgR);
    }
  }

  lemma PromoteFences(s: Pages, levels: Levels, root: PageId, top: PageId, lsn: nat)
    requires TreeOk(s, levels, root) && Unused(levels, top)
    ensures forall lo :: FencedBy(s, levels, lo) ==>
      FencedBy(s[top := NewRootPage(|levels|, root, lsn)], levels + [[top]], lo[top := []])
  {
    RootFirst(s, levels, root);
    hide *;
    forall lo | FencedBy(s, levels, lo)
      ensures FencedBy(s[top := NewRootPage(|levels|, root, lsn)], levels + [[top]], lo[top := []])
    {
      PromoteFenced(s, levels, root, lo, top, lsn);
    }
  }

  lemma {:induction false} NobodysTwin(s: Pages, chain: seq<PageId>, n: nat)
    requires Linked(s, chain) && n <= |chain| && chain != []
    ensures Names(s, chain[..n], false, chain[0]) == 0
    decreases n
  {
    if n > 0 {
      NobodysTwin(s, chain, n - 1);
      assert chain[..n][..n - 1] == chain[..n - 1];
      NextOf(s, chain, n - 1);
      NoInvalid(s, chain);
      assert n < |chain| ==> chain[n] != chain[0];
    }
  }

  /** The root comes first on its level. */
  lemma RootFirst(s: Pages, levels: Levels, root: PageId)
    requires TreeOk(s, levels, root)
    ensures |levels| > 0 && levels[|levels| - 1] != [] && levels[|levels| - 1][0] == root
  {
    var top := |levels| - 1;
    RootOnTop(s, levels, root);
    NeighboursApart(s, levels, root, top);
    var chain := levels[top];
    var q := chain[0];
    assert NamedOnce(s, levels, root, top);
    assert Downlinks(s, levels, root, top, q) + Names(s, chain, false, q) == if q in chain then 1 else 0;
    hide TreeOk, Names, Linked;
    NobodysTwin(s, chain, |chain|);
    assert chain[..|chain|] == chain;
  }

  // ---------------------------------------------------------------- clean cuts

  ghost predicate Strict(es: seq<Entry>) {
    forall x, y :: 0 <= x < y < |es| ==> KeyLess(es[x].key, es[y].key)
  }

  lemma StrictCut(es: seq<Entry>, k: nat)
    requires Strict(es) && 1 <= k < |es|
    ensures AllUnder(es[..k], es[k].key)
  {
  }

  /** Separators of one page differ: two children never share a bound. */
  lemma InnerStrict(s: Pages, levels: Levels, root: PageId, lo: Lows, l: nat, j: nat)
    requires TreeOk(s, levels, root) && FencedBy(s, levels, lo) && 0 < l < |levels| && j < |levels[l]|
    requires Sorted(EntriesOf(s, levels[l][j]))
    ensures Strict(EntriesOf(s, levels[l][j]))
  {
    var es := EntriesOf(s, levels[l][j]);
    forall x, y | 0 <= x < y < |es| ensures KeyLess(es[x].key, es[y].key) {
      NamedApart(s, levels, root, l, j, x, y);
      ChildBelow(s, levels, root, l, j, x);
      ChildBelow(s, levels, root, l, j, y);
      KeyOf(s, levels, lo, l, j, x);
      KeyOf(s, levels, lo, l, j, y);
      hide TreeOk, LinksKeyed;
      var a :| 0 <= a < |levels[l - 1]| && levels[l - 1][a] == es[x].ptr;
      var b :| 0 <= b < |levels[l - 1]| && levels[l - 1][b] == es[y].ptr;
      assert LevelFenced(s, levels[l - 1], l - 1, lo);
      assert Apart(s, levels[l - 1], lo, a, b) && Apart(s, levels[l - 1], lo, b, a);
      assert Less(es[x], es[y]);
      KeyTotal(es[x].key, es[y].key);
    }
  }

  lemma NamedApart(s: Pages, levels: Levels, root: PageId, l: nat, j: nat, x: nat, y: nat)
    requires TreeOk(s, levels, root) && 0 < l < |levels| && j < |levels[l]| && x < y < |EntriesOf(s, levels[l][j])|
    ensures EntriesOf(s, levels[l][j])[x].ptr != EntriesOf(s, levels[l][j])[y].ptr
  {
    var es := EntriesOf(s, levels[l][j]);
    var q := es[x].ptr;
    assert NamedOnce(s, levels, root, l - 1);
    assert Downlinks(s, levels, root, l - 1, q) + Names(s, levels[l - 1], false, q)
           == if q in levels[l - 1] then 1 else 0;
    hide TreeOk, Names;
    NamesAt(s, levels[l], j, true, q);
    if q == es[y].ptr {
      PtrCountConcat(es[..y], es[y..], q);
      assert es[..y] + es[y..] == es;
      PtrCounted(es[..y], x);
      PtrCounted(es[y..], 0);
    }
  }

  /** The level above has the downlink. */
  ghost predicate HasLink(pages: Pages, levels: Levels, l: nat, e: Entry) {
    l + 1 < |levels| && exists p :: p in levels[l + 1] && e in EntriesOf(pages, p)
  }

  ghost predicate StartsWith(es: seq<Entry>, key: seq<byte>) {
    es != [] && es[0].key == key
  }

  /** The half of a split parent that the comparison picks is the one with the separator in its range. */
  lemma TargetIs(s: Pages, levels: Levels, lo: Lows, l: nat, j: nat, d: nat, sep: seq<byte>, right: PageId)
    requires FencedBy(s, levels, lo) && l + 1 < |levels| && j + 1 < |levels[l + 1]| && NoneOpen(s, levels, l + 1)
    requires (d == j || d == j + 1) && Covers(levels[l + 1], lo, d, sep)
    requires levels[l + 1][d] in lo ==> KeyLess(lo[levels[l + 1][d]], sep)
    requires EntriesOf(s, levels[l + 1][j + 1]) != []
    ensures Less(Entry(sep, right, 0), EntriesOf(s, levels[l + 1][j + 1])[0]) <==> d == j
  {
    var up := levels[l + 1];
    assert LevelFenced(s, up, l + 1, lo) && Bounded(s, up, l + 1, lo, j + 1);
    var first := EntriesOf(s, up[j + 1])[0];
    assert first.key == lo[up[j + 1]];
    KeyTotal(sep, first.key);
  }
}
