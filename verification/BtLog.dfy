/** The write-ahead log of the B+Tree and what a running index does to its pages as it appends. */
module BtLog {
  import opened Entries
  import opened BtPages

  datatype Record =
    | Image(page: PageId, image: Page)
    | Insert(page: PageId, slot: nat, level: nat, flags: Flags, entry: Entry)
    | Delete(page: PageId, slot: nat)
    | Prepare(left: PageId, right: PageId, level: nat, oldNext: PageId, highKey: seq<byte>)
    | Copy(left: PageId, right: PageId, start: nat, preLsn: nat)
    | Commit(left: PageId, right: PageId, parent: PageId, separator: seq<byte>, slot: nat)

  /** Pages by id; an id never written reads as the zero page. */
  type Pages = map<PageId, Page>

  function At(s: Pages, p: PageId): Page {
    if p in s then s[p] else Zero
  }

  /** Record `k` of the log has LSN `k + 1`. */
  function LsnOf(k: nat): nat {
    k + 1
  }

  // ---------------------------------------------------------------- the writing run

  predicate SameContent(a: Page, b: Page) {
    a.Page? && b.Page? && a.(lsn := 0) == b.(lsn := 0)
  }

  /** What the writing code checks, or has set up, before it appends `rec`. */
  predicate Allowed(rec: Record, lsn: nat, s: Pages) {
    match rec
    case Image(p, image) => image.Page? && image.lsn < lsn
    case Insert(p, slot, level, flags, e) =>
      var pg := At(s, p);
      pg.Page? && pg.level == level && pg.flags == flags && InsertEntryAt(pg, slot, e).Ok?
    case Delete(p, slot) => RemoveEntryAt(At(s, p), slot).Ok?
    case Prepare(l, r, level, oldNext, highKey) =>
      var pg := At(s, l);
      && l != r && pg.Page? && !pg.flags.incomplete && pg.level == level && pg.next == oldNext
      && |pg.entries| >= 2 && highKey == pg.entries[|pg.entries| - 1].key
      && SameContent(At(s, r), InitRightPage(l, oldNext, level))
    case Copy(l, r, start, preLsn) =>
      l != r && preLsn == PdLsn(At(s, l)) && SplitCopy(At(s, l), At(s, r), start, true).Ok?
    case Commit(l, r, parent, sep, slot) =>
      l != parent && At(s, l).Page? && InsertEntryAt(At(s, parent), slot, Entry(sep, r, 0)).Ok?
  }

  /** The page writes that follow the append. */
  function Do(rec: Record, lsn: nat, s: Pages): Pages
    requires Allowed(rec, lsn, s)
  {
    match rec
    case Image(p, image) => s[p := Stamp(image, lsn)]
    case Insert(p, slot, level, flags, e) => s[p := Stamp(InsertEntryAt(At(s, p), slot, e).value, lsn)]
    case Delete(p, slot) => s[p := Stamp(RemoveEntryAt(At(s, p), slot).value, lsn)]
    case Prepare(l, r, level, oldNext, highKey) =>
      s[r := Stamp(At(s, r), lsn)][l := Stamp(PrepareLeft(At(s, l), r), lsn)]
    case Copy(l, r, start, preLsn) =>
      var (left, right) := SplitCopy(At(s, l), At(s, r), start, true).value;
      s[l := Stamp(left, lsn)][r := Stamp(right, lsn)]
    case Commit(l, r, parent, sep, slot) =>
      s[parent := Stamp(InsertEntryAt(At(s, parent), slot, Entry(sep, r, 0)).value, lsn)]
       [l := Stamp(CommitLeft(At(s, l)), lsn)]
  }

  /** The buffer-pool pages of the writing run once the first `k` records are applied, starting
      from an empty data file; `None` when no run of the index writes this log. */
  ghost function Run(wal: seq<Record>, k: nat): Option<Pages>
    requires k <= |wal|
  {
    if k == 0 then Some(map[])
    else match Run(wal, k - 1)
      case None => None
      case Some(s) => if Allowed(wal[k - 1], LsnOf(k - 1), s) then Some(Do(wal[k - 1], LsnOf(k - 1), s)) else None
  }

  ghost predicate ValidRun(wal: seq<Record>) {
    Run(wal, |wal|).Some?
  }

  predicate Touches(rec: Record, p: PageId) {
    match rec
    case Image(q, _) => p == q
    case Insert(q, _, _, _, _) => p == q
    case Delete(q, _) => p == q
    case Prepare(l, r, _, _, _) => p == l || p == r
    case Copy(l, r, _, _) => p == l || p == r
    case Commit(l, _, parent, _, _) => p == l || p == parent
  }

  lemma {:induction false} ValidPrefix(wal: seq<Record>, j: nat, k: nat)
    requires j <= k <= |wal| && Run(wal, k).Some?
    ensures Run(wal, j).Some?
    decreases k
  {
    if j < k { ValidPrefix(wal, j, k - 1); }
  }

  ghost function Online(wal: seq<Record>, k: nat): Pages
    requires k <= |wal| && ValidRun(wal)
  {
    ValidPrefix(wal, k, |wal|);
    Run(wal, k).value
  }

  /** Version `k` of page `p`: its content after the first `k` records. */
  ghost function Version(wal: seq<Record>, k: nat, p: PageId): Page
    requires k <= |wal| && ValidRun(wal)
  {
    At(Online(wal, k), p)
  }

  lemma Advance(wal: seq<Record>, k: nat)
    requires k < |wal| && ValidRun(wal)
    ensures Allowed(wal[k], LsnOf(k), Online(wal, k))
    ensures Online(wal, k + 1) == Do(wal[k], LsnOf(k), Online(wal, k))
  {
    ValidPrefix(wal, k + 1, |wal|);
  }

  // ---------------------------------------------------------------- page LSNs tell page versions apart

  /** A record stamps exactly the pages it touches. */
  lemma DoStamps(rec: Record, lsn: nat, s: Pages, p: PageId)
    requires Allowed(rec, lsn, s) && PdLsn(At(s, p)) < lsn
    ensures PdLsn(At(Do(rec, lsn, s), p)) == if Touches(rec, p) then lsn else PdLsn(At(s, p))
    ensures !Touches(rec, p) ==> At(Do(rec, lsn, s), p) == At(s, p)
  {
  }

  /** A page's LSN never exceeds the version it was taken at, and a record that touches the page
      is visible in the LSN of every later version. */
  lemma {:induction false} LsnBounds(wal: seq<Record>, j: nat, k: nat, p: PageId)
    requires j <= k <= |wal| && ValidRun(wal)
    ensures PdLsn(Version(wal, k, p)) <= k
    ensures j < k && Touches(wal[j], p) ==> j + 1 <= PdLsn(Version(wal, k, p))
    decreases k
  {
    if k > 0 {
      LsnBounds(wal, if j < k then j else 0, k - 1, p);
      Advance(wal, k - 1);
      DoStamps(wal[k - 1], LsnOf(k - 1), Online(wal, k - 1), p);
    }
  }

  lemma Untouched(wal: seq<Record>, k: nat, p: PageId)
    requires k < |wal| && ValidRun(wal) && !Touches(wal[k], p)
    ensures Version(wal, k + 1, p) == Version(wal, k, p)
  {
    Advance(wal, k);
    LsnBounds(wal, 0, k, p);
    DoStamps(wal[k], LsnOf(k), Online(wal, k), p);
  }

  // ---------------------------------------------------------------- a log that grows

  lemma {:induction false} RunPrefix(wal: seq<Record>, more: seq<Record>, k: nat)
    requires k <= |wal|
    ensures Run(wal + more, k) == Run(wal, k)
    decreases k
  {
    if k > 0 {
      RunPrefix(wal, more, k - 1);
      assert (wal + more)[k - 1] == wal[k - 1];
    }
  }

  /** Appending a record the pages allow, and applying it, keeps the log a run of the index. */
  lemma RunAppend(wal: seq<Record>, rec: Record, s: Pages)
    requires Run(wal, |wal|) == Some(s) && Allowed(rec, LsnOf(|wal|), s)
    ensures Run(wal + [rec], |wal| + 1) == Some(Do(rec, LsnOf(|wal|), s))
  {
    RunPrefix(wal, [rec], |wal|);
    assert (wal + [rec])[|wal|] == rec;
  }
}
