/** The compensation record that finishes a split whose Commit was lost, and its application - one code path for
    undo and for the redo of the record itself, each page guarded by its own LSN. */
module SplitClr {
  import opened Entries
  import opened Layout
  import opened BtPages
  import opened BtLog

  /** Exactly one of `parent` and `newRoot` is set, or neither for an abandoned split. */
  datatype Clr = Clr(left: PageId, right: PageId, level: nat, start: nat, parent: PageId, sep: seq<byte>, slot: nat,
    newRoot: PageId)

  datatype ClrError = BadPage | Inverted | Resurrects | MoveLost | NoSpace

  /** The meta page's last record: the root it names. */
  datatype Meta = Meta(root: PageId, lsn: nat)

  datatype Disk = Disk(pages: Pages, meta: Meta)

  predicate IsUnlink(rec: Clr) {
    rec.parent == INVALID && rec.newRoot == INVALID
  }

  /** The page the downlink goes to. */
  function LinkOf(rec: Clr): PageId {
    if rec.newRoot != INVALID then rec.newRoot else rec.parent
  }

  /** How many leading entries sort below `e`: where a sorted page is cut at `e`. */
  function CutPoint(s: seq<Entry>, e: Entry): (k: nat)
    ensures k <= |s|
  {
    if s != [] && Less(s[0], e) then 1 + CutPoint(s[1..], e) else 0
  }

  lemma {:induction false} CutPointIsLowerBound(s: seq<Entry>, e: Entry, p: nat)
    requires IsLowerBound(s, e, p)
    ensures CutPoint(s, e) == p
  {
    if p > 0 {
      CutPointIsLowerBound(s[1..], e, p - 1);
    }
  }

  /** A sorted page is cut at its own entry `k` exactly in front of it. */
  lemma CutAtOwn(s: seq<Entry>, k: nat)
    requires Sorted(s) && k < |s|
    ensures CutPoint(s, s[k]) == k
  {
    LessOrder();
    CutPointIsLowerBound(s, s[k], k);
  }

  /** A sorted page whose entries all sort below `e` is not cut at all. */
  lemma CutBeyond(s: seq<Entry>, e: Entry)
    requires forall x :: 0 <= x < |s| ==> Less(s[x], e)
    ensures CutPoint(s, e) == |s|
  {
    CutPointIsLowerBound(s, e, |s|);
  }

  /** The left page as the record leaves it: linked to the right page, committed. */
  function Finished(p: Page, right: PageId): Page
    requires p.Page?
  {
    CommitLeft(p.(next := right))
  }

  /** Step 1: the pair. The right page's content decides, never the left page's slot count. */
  function PairStep(rec: Clr, lsn: nat, s: Pages): Result<Pages, ClrError> {
    var left, right := At(s, rec.left), At(s, rec.right);
    if left.Zero? || right.Zero? then Err(BadPage)
    else if left.lsn < lsn then
      if IsUnlink(rec) then
        Ok(s[rec.right := Stamp(right, lsn)]
            [rec.left := Stamp(left.(next := right.next, flags := left.flags.(incomplete := false)), lsn)])
      else if right.entries != [] then
        var k := CutPoint(left.entries, right.entries[0]);
        if left.entries != [] && k == 0 then Err(Inverted)
        else
          var kept := if left.entries == [] then left else Rebuild(left, k);
          Ok(s[rec.right := Stamp(right, lsn)][rec.left := Stamp(Finished(kept, rec.right), lsn)])
      else if !NeverHadEntries(right) then Err(Resurrects)
      else
        match SplitCopy(left, right, rec.start, true)
        case Err(_) => Err(BadPage)
        case Ok((l, r)) => Ok(s[rec.right := Stamp(r, lsn)][rec.left := Stamp(Finished(l, rec.right), lsn)])
    else if !IsUnlink(rec) && right.entries == [] && NeverHadEntries(right) then Err(MoveLost)
    else Ok(s)
  }

  /** The root page a root split creates. */
  function RootPage(rec: Clr, lsn: nat): Page {
    Page(rec.level + 1, Flags(false, true, false), INVALID, INVALID,
      [Entry([], rec.left, 0), Entry(rec.sep, rec.right, 0)],
         SPECIAL - (2 * INTERNAL_TRAILER_SIZE + |rec.sep|), lsn)
  }

  /** Step 2: the downlink. */
  function LinkStep(rec: Clr, lsn: nat, s: Pages): Result<Pages, ClrError> {
    if rec.newRoot != INVALID then
      if PdLsn(At(s, rec.newRoot)) < lsn then Ok(s[rec.newRoot := RootPage(rec, lsn)]) else Ok(s)
    else if rec.parent != INVALID && PdLsn(At(s, rec.parent)) < lsn then
      match InsertEntryAt(At(s, rec.parent), rec.slot, Entry(rec.sep, rec.right, 0))
      case Err(_) => Err(NoSpace)
      case Ok(p) => Ok(s[rec.parent := Stamp(p, lsn)])
    else Ok(s)
  }

  /** Step 3: the meta page. */
  function MetaStep(rec: Clr, lsn: nat, m: Meta): Meta {
    if rec.newRoot != INVALID && m.lsn < lsn then Meta(rec.newRoot, lsn) else m
  }

  /** `apply_split_clr`. */
  function ApplyClr(rec: Clr, lsn: nat, d: Disk): Result<Disk, ClrError> {
    match PairStep(rec, lsn, d.pages)
    case Err(e) => Err(e)
    case Ok(s) =>
      match LinkStep(rec, lsn, s)
      case Err(e) => Err(e)
      case Ok(t) => Ok(Disk(t, MetaStep(rec, lsn, d.meta)))
  }

  // ---------------------------------------------------------------- a crash in the middle of the application

  /** The record still owes the move of entries. */
  predicate OwesMove(rec: Clr, s: Pages) {
    !IsUnlink(rec) && At(s, rec.right).Page? && At(s, rec.right).entries == [] && NeverHadEntries(At(s, rec.right))
  }

  /** The pages the record touches are apart, and none has seen it. */
  ghost predicate Unseen(rec: Clr, lsn: nat, d: Disk) {
    && rec.left != rec.right && rec.parent != rec.left && rec.parent != rec.right && rec.newRoot != rec.left
    && rec.newRoot != rec.right
    && PdLsn(At(d.pages, rec.left)) < lsn && PdLsn(At(d.pages, rec.right)) < lsn
    && PdLsn(At(d.pages, rec.parent)) < lsn && PdLsn(At(d.pages, rec.newRoot)) < lsn && d.meta.lsn < lsn
  }

  /** The state undo logs the record in: unseen, the left page sorted, and a move with something to move. */
  ghost predicate Unapplied(rec: Clr, lsn: nat, d: Disk) {
    && Unseen(rec, lsn, d)
    && At(d.pages, rec.left).Page? && Sorted(At(d.pages, rec.left).entries)
    && (OwesMove(rec, d.pages) ==> rec.start < |At(d.pages, rec.left).entries|)
  }

  /** Page by page, and for the meta page, the version from before the record or the one from after it. */
  ghost predicate Mixed(before: Disk, after: Disk, mid: Disk) {
    && (forall p :: At(mid.pages, p) == At(before.pages, p) || At(mid.pages, p) == At(after.pages, p))
    && (mid.meta == before.meta || mid.meta == after.meta)
  }

  ghost predicate SameDisk(a: Disk, b: Disk) {
    (forall p :: At(a.pages, p) == At(b.pages, p)) && a.meta == b.meta
  }

  /** The left page is past the record while the right page never got the entries it gave away. */
  ghost predicate EntriesNowhere(rec: Clr, before: Disk, after: Disk, mid: Disk) {
    && OwesMove(rec, before.pages)
    && At(mid.pages, rec.left) == At(after.pages, rec.left) && At(mid.pages, rec.right) == At(before.pages, rec.right)
  }

  /** The application flushes the right page before anything can flush the left one. */
  ghost predicate RightFirst(rec: Clr, after: Disk, mid: Disk) {
    At(mid.pages, rec.left) == At(after.pages, rec.left) ==> At(mid.pages, rec.right) == At(after.pages, rec.right)
  }

  lemma AppliedPages(rec: Clr, lsn: nat, d: Disk)
    requires Unseen(rec, lsn, d) && ApplyClr(rec, lsn, d).Ok?
    ensures var t := ApplyClr(rec, lsn, d).value.pages; var s := PairStep(rec, lsn, d.pages).value;
      && At(t, rec.left) == At(s, rec.left) && At(t, rec.right) == At(s, rec.right)
      && (rec.newRoot != INVALID ==> At(t, rec.newRoot) == RootPage(rec, lsn))
      && (rec.newRoot == INVALID && rec.parent != INVALID ==>
            && InsertEntryAt(At(d.pages, rec.parent), rec.slot, Entry(rec.sep, rec.right, 0)).Ok?
            && At(t, rec.parent) == Stamp(InsertEntryAt(At(d.pages, rec.parent), rec.slot,
               Entry(rec.sep, rec.right, 0)).value, lsn))
      && (forall p :: p != rec.left && p != rec.right && (p != LinkOf(rec) || p == INVALID) ==>
         At(t, p) == At(d.pages, p))
  {
  }

  /** The pair re-applied over any mix that has not lost the moved entries. In particular a move replayed over an
      already filled right page cuts the sorted left page at exactly the original copy slot. */
  lemma PairReplays(rec: Clr, lsn: nat, d: Disk, m: Pages)
    requires Unapplied(rec, lsn, d) && PairStep(rec, lsn, d.pages).Ok?
    requires var t := PairStep(rec, lsn, d.pages).value;
      && (At(m, rec.left) == At(d.pages, rec.left) || At(m, rec.left) == At(t, rec.left))
      && (At(m, rec.right) == At(d.pages, rec.right) || At(m, rec.right) == At(t, rec.right))
      && (At(m, rec.left) == At(t, rec.left) ==> At(m, rec.right) == At(t, rec.right))
    ensures var t := PairStep(rec, lsn, d.pages).value;
      && PairStep(rec, lsn, m).Ok?
      && At(PairStep(rec, lsn, m).value, rec.left) == At(t, rec.left)
      && At(PairStep(rec, lsn, m).value, rec.right) == At(t, rec.right)
      && (forall p :: p != rec.left && p != rec.right ==> At(PairStep(rec, lsn, m).value, p) == At(m, p))
  {
    var left := At(d.pages, rec.left);
    if OwesMove(rec, d.pages) {
      CutAtOwn(left.entries, rec.start);
    }
  }

  /** Steps 2 and 3 over any mix reach what they reach from before. */
  lemma LinkReplays(rec: Clr, lsn: nat, before: Disk, mid: Disk, m: Pages)
    requires Unapplied(rec, lsn, before) && ApplyClr(rec, lsn, before).Ok?
    requires Mixed(before, ApplyClr(rec, lsn, before).value, mid)
    requires forall p :: p != rec.left && p != rec.right ==> At(m, p) == At(mid.pages, p)
    ensures LinkStep(rec, lsn, m).Ok? && MetaStep(rec, lsn, mid.meta) == ApplyClr(rec, lsn, before).value.meta
    ensures forall p :: p != rec.left && p != rec.right ==>
      At(LinkStep(rec, lsn, m).value, p) == At(ApplyClr(rec, lsn, before).value.pages, p)
    ensures At(LinkStep(rec, lsn, m).value, rec.left) == At(m, rec.left)
    ensures At(LinkStep(rec, lsn, m).value, rec.right) == At(m, rec.right)
  {
    AppliedPages(rec, lsn, before);
    var after := ApplyClr(rec, lsn, before).value;
    hide PairStep, ApplyClr;
    assert At(mid.pages, rec.parent) == At(before.pages, rec.parent) ||
           At(mid.pages, rec.parent) == At(after.pages, rec.parent);
    assert At(mid.pages, rec.newRoot) == At(before.pages, rec.newRoot) ||
           At(mid.pages, rec.newRoot) == At(after.pages, rec.newRoot);
  }

  /** Re-applying the record after a crash at any point of its own application reaches the same final pages. */
  lemma ReapplyConverges(rec: Clr, lsn: nat, before: Disk, mid: Disk)
    requires Unapplied(rec, lsn, before) && ApplyClr(rec, lsn, before).Ok?
    requires Mixed(before, ApplyClr(rec, lsn, before).value, mid)
    requires RightFirst(rec, ApplyClr(rec, lsn, before).value, mid)
    ensures ApplyClr(rec, lsn, mid).Ok? && SameDisk(ApplyClr(rec, lsn, mid).value, ApplyClr(rec, lsn, before).value)
  {
    AppliedPages(rec, lsn, before);
    PairReplays(rec, lsn, before, mid.pages);
    LinkReplays(rec, lsn, before, mid, PairStep(rec, lsn, mid.pages).value);
  }

  /** Without that flush order the record still applies, except where the moved entries are nowhere - the one state
      the application refuses. */
  lemma RefusedExactlyWhenLost(rec: Clr, lsn: nat, before: Disk, mid: Disk)
    requires Unapplied(rec, lsn, before) && ApplyClr(rec, lsn, before).Ok?
    requires Mixed(before, ApplyClr(rec, lsn, before).value, mid)
    ensures ApplyClr(rec, lsn, mid).Ok? <==> !EntriesNowhere(rec, before, ApplyClr(rec, lsn, before).value, mid)
    ensures ApplyClr(rec, lsn, mid).Err? ==> ApplyClr(rec, lsn, mid).error == MoveLost
  {
    var after := ApplyClr(rec, lsn, before).value;
    AppliedPages(rec, lsn, before);
    if At(mid.pages, rec.left) == At(after.pages, rec.left) && At(mid.pages, rec.right) == At(before.pages, rec.right) {
      if !OwesMove(rec, before.pages) { LinkReplays(rec, lsn, before, mid, mid.pages); }
    } else {
      assert RightFirst(rec, after, mid);
      ReapplyConverges(rec, lsn, before, mid);
    }
  }
}
