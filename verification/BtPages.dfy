/** B+Tree pages at the level of their sorted line-pointer array: entries in slot order, the
    `pd_upper` mark that only a rebuild ever raises, sibling links, level, flags and `pd_lsn`. */
module BtPages {
  import opened Entries
  import opened Layout

  /** Usable bytes of a fresh page. */
  const CAPACITY: nat := SPECIAL - PAGE_HEADER_SIZE
  const MAX_INDEX_KEY_BYTES: nat := CAPACITY / 3 - 16
  const LEAF_TRAILER_SIZE: nat := 10
  const INTERNAL_TRAILER_SIZE: nat := 8

  /** `btpo_level` has four bits. */
  const MAX_LEVEL: nat := 15

  datatype Flags = Flags(leaf: bool, root: bool, incomplete: bool)

  /** `Zero` is the all-zero page (`pd_upper == 0`) that extending the data file leaves behind. */
  datatype Page =
    | Zero
    | Page(level: nat, flags: Flags, prev: PageId, next: PageId, entries: seq<Entry>, upper: int, lsn: nat)

  datatype PageError = Corrupted | KeyTooLarge | PageFull

  function EntryLen(level: nat, e: Entry): nat {
    |e.key| + if level == 0 then LEAF_TRAILER_SIZE else INTERNAL_TRAILER_SIZE
  }

  /** Bytes an entry costs on a page: its body plus one line pointer. */
  function Cost(level: nat, e: Entry): nat {
    EntryLen(level, e) + LINE_POINTER_SIZE
  }

  function Bytes(level: nat, s: seq<Entry>): nat {
    if s == [] then 0 else Bytes(level, s[..|s| - 1]) + EntryLen(level, s[|s| - 1])
  }

  function TotalCost(level: nat, s: seq<Entry>): nat {
    Bytes(level, s) + LINE_POINTER_SIZE * |s|
  }

  function Lower(p: Page): nat
    requires p.Page?
  {
    PAGE_HEADER_SIZE + LINE_POINTER_SIZE * |p.entries|
  }

  function FreeSpace(p: Page): nat
    requires p.Page?
  {
    if Lower(p) <= p.upper then p.upper - Lower(p) else 0
  }

  function PdLsn(p: Page): nat {
    if p.Zero? then 0 else p.lsn
  }

  /** `stamp_pd_lsn`: advance, never move back. */
  function Stamp(p: Page, lsn: nat): Page {
    if p.Zero? then p else p.(lsn := Max(p.lsn, lsn))
  }

  function FlagsForLevel(level: nat): Flags {
    Flags(level == 0, false, false)
  }

  function InitPage(level: nat, flags: Flags): Page {
    Page(level, flags, INVALID, INVALID, [], SPECIAL, 0)
  }

  function InitIfFresh(p: Page, level: nat, flags: Flags): Page {
    if p.Zero? then InitPage(level, flags) else p
  }

  function InitRightPage(left: PageId, oldNext: PageId, level: nat): Page {
    Page(level, FlagsForLevel(level), left, oldNext, [], SPECIAL, 0)
  }

  /** The page never held a tuple since it was initialized: deletes shrink only the line-pointer
      array, so this tells "Copy never ran" from "everything copied was deleted". */
  predicate NeverHadEntries(p: Page) {
    p.Page? && p.upper == SPECIAL
  }

  function InsertEntryAt(p: Page, slot: nat, e: Entry): Result<Page, PageError> {
    if p.Zero? || p.upper < Lower(p) || SPECIAL < p.upper then Err(Corrupted)
    else if |p.entries| < slot then Err(Corrupted)
    else if CAPACITY < Cost(p.level, e) then Err(KeyTooLarge)
    else if FreeSpace(p) < Cost(p.level, e) then Err(PageFull)
    else Ok(p.(entries := p.entries[..slot] + [e] + p.entries[slot..], upper := p.upper - EntryLen(p.level, e)))
  }

  function RemoveEntryAt(p: Page, slot: nat): Result<Page, PageError> {
    if p.Zero? || p.upper < Lower(p) || SPECIAL < p.upper then Err(Corrupted)
    else if |p.entries| <= slot then Err(Corrupted)
    else Ok(p.(entries := p.entries[..slot] + p.entries[slot + 1..]))
  }

  /** Append `s` in slot order (`add_tuple` on a page without unused slots). */
  function AppendAll(p: Page, s: seq<Entry>): Result<Page, PageError> {
    if p.Zero? then Err(Corrupted)
    else if FreeSpace(p) < TotalCost(p.level, s) then Err(PageFull)
    else Ok(p.(entries := p.entries + s, upper := p.upper - Bytes(p.level, s)))
  }

  /** The left page rebuilt with its first `keep` entries, identity fields preserved. */
  function Rebuild(p: Page, keep: nat): Page
    requires p.Page? && keep <= |p.entries|
  {
    p.(entries := p.entries[..keep], upper := SPECIAL - Bytes(p.level, p.entries[..keep]))
  }

  /** `apply_split_copy`: move `left[start..]` to the end of `right` (unless `right` already holds
      the copy) and rebuild `left` with what it keeps. */
  function SplitCopy(left: Page, right: Page, start: nat, moveToRight: bool): Result<(Page, Page), PageError> {
    if left.Zero? || start == 0 || |left.entries| < start then Err(Corrupted)
    else if moveToRight then
      match AppendAll(right, left.entries[start..])
      case Ok(r) => Ok((Rebuild(left, start), r))
      case Err(e) => Err(e)
    else Ok((Rebuild(left, start), right))
  }

  /** `apply_prepare_left`. */
  function PrepareLeft(p: Page, right: PageId): Page
    requires p.Page?
  {
    p.(flags := p.flags.(incomplete := true), next := right)
  }

  /** `apply_commit_left`. */
  function CommitLeft(p: Page): Page
    requires p.Page?
  {
    p.(flags := p.flags.(incomplete := false, root := false))
  }
}
