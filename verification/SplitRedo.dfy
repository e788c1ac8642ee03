/** Crash recovery of B+Tree pages: whatever version of each page happens to be durable at a crash,
    the redo handlers must bring it back to what the log says. */
module SplitRedo {
  import opened Entries
  import opened Layout
  import opened BtPages
  import opened BtLog

  // ---------------------------------------------------------------- recovery

  /** The tracker entry redo keeps per split whose Commit it has not seen. */
  datatype IncompleteSplit = IncompleteSplit(right: PageId, level: nat, oldNext: PageId, copyStart: Option<nat>)

  type Tracker = map<PageId, IncompleteSplit>

  datatype Recovered = Recovered(pool: Pages, disk: Pages, tracker: Tracker)

  datatype RedoError = MetadataCorrupted

  function Applied(r: Result<Page, PageError>, st: Recovered, p: PageId, lsn: nat): Result<Recovered, RedoError> {
    match r
    case Ok(pg) => Ok(st.(pool := st.pool[p := Stamp(pg, lsn)]))
    case Err(_) => Err(MetadataCorrupted)
  }

  /** A page image is restored unconditionally: the page on disk may be torn. */
  function RedoImage(st: Recovered, lsn: nat, p: PageId, image: Page): Result<Recovered, RedoError> {
    Ok(st.(pool := st.pool[p := Stamp(image, lsn)]))
  }

  function RedoInsert(st: Recovered, lsn: nat, p: PageId, slot: nat, level: nat, flags: Flags, e: Entry)
    : Result<Recovered, RedoError>
  {
    if lsn <= PdLsn(At(st.pool, p)) then Ok(st)
    else Applied(InsertEntryAt(InitIfFresh(At(st.pool, p), level, flags), slot, e), st, p, lsn)
  }

  function RedoDelete(st: Recovered, lsn: nat, p: PageId, slot: nat): Result<Recovered, RedoError> {
    if lsn <= PdLsn(At(st.pool, p)) then Ok(st)
    else Applied(RemoveEntryAt(At(st.pool, p), slot), st, p, lsn)
  }

  function RedoPrepareRight(pg: Page, lsn: nat, left: PageId, oldNext: PageId, level: nat): Page {
    if PdLsn(pg) < lsn then Stamp(InitRightPage(left, oldNext, level), lsn) else pg
  }

  function RedoPrepareLeft(pg: Page, lsn: nat, right: PageId, level: nat, highKey: seq<byte>): Result<Page, PageError> {
    if lsn <= PdLsn(pg) then Ok(pg)
    else
      var pg' := InitIfFresh(pg, level, FlagsForLevel(level));
      if pg'.entries != [] && pg'.entries[|pg'.entries| - 1].key != highKey then Err(Corrupted)
      else Ok(Stamp(PrepareLeft(pg', right), lsn))
  }

  function RedoPrepare(st: Recovered, lsn: nat, left: PageId, right: PageId, level: nat, oldNext: PageId,
                       highKey: seq<byte>): Result<Recovered, RedoError>
  {
    var tracker := st.tracker[left := IncompleteSplit(right, level, oldNext, None)];
    var pool := st.pool[right := RedoPrepareRight(At(st.pool, right), lsn, left, oldNext, level)];
    match RedoPrepareLeft(At(pool, left), lsn, right, level, highKey)
    case Ok(pg) => Ok(Recovered(pool[left := pg], st.disk, tracker))
    case Err(_) => Err(MetadataCorrupted)
  }

  function MarkCopy(t: Tracker, left: PageId, start: nat): Tracker {
    if left in t then t[left := t[left].(copyStart := Some(start))] else t
  }

  /** The Copy handler's branches, in its order. The payload has no entries: they are recomputed
      from the left page, or adopted from the right page's pooled or on-disk image. */
  function RedoCopy(st: Recovered, lsn: nat, left: PageId, right: PageId, start: nat, preLsn: nat)
    : Result<Recovered, RedoError>
  {
    var tracker := MarkCopy(st.tracker, left, start);
    var l, r := At(st.pool, left), At(st.pool, right);
    if PdLsn(l) != preLsn then
      if lsn <= PdLsn(l) then
        if lsn <= PdLsn(r) then Ok(st.(tracker := tracker))
        else if lsn <= PdLsn(At(st.disk, right)) then
          Ok(Recovered(st.pool[right := At(st.disk, right)], st.disk, tracker))
        else Err(MetadataCorrupted)
      else if lsn <= PdLsn(r) then
        match SplitCopy(l, r, start, false)
        case Ok((l', r')) => Ok(Recovered(st.pool[left := Stamp(l', lsn)], st.disk, tracker))
        case Err(_) => Err(MetadataCorrupted)
      else Err(MetadataCorrupted)
    else
      match SplitCopy(l, r, start, PdLsn(r) < lsn)
      case Err(_) => Err(MetadataCorrupted)
      case Ok((l', r')) =>
        var right' := if PdLsn(r) < lsn then Stamp(r', lsn) else r';
        // The right page is flushed before the left latch is released.
        Ok(Recovered(st.pool[left := Stamp(l', lsn)][right := right'], st.disk[right := right'], tracker))
  }

  function RedoCommit(st: Recovered, lsn: nat, left: PageId, right: PageId, parent: PageId, sep: seq<byte>, slot: nat)
    : Result<Recovered, RedoError>
  {
    var tracker := st.tracker - {left};
    var pp := At(st.pool, parent);
    var pr := if PdLsn(pp) < lsn then InsertEntryAt(pp, slot, Entry(sep, right, 0)) else Ok(pp);
    if pr.Err? then Err(MetadataCorrupted)
    else
      var pool := if PdLsn(pp) < lsn then st.pool[parent := Stamp(pr.value, lsn)] else st.pool;
      var pl := At(pool, left);
      if PdLsn(pl) < lsn then
        if pl.Zero? then Err(MetadataCorrupted)
        else Ok(Recovered(pool[left := Stamp(CommitLeft(pl), lsn)], st.disk, tracker))
      else Ok(Recovered(pool, st.disk, tracker))
  }

  function Redo(st: Recovered, lsn: nat, rec: Record): Result<Recovered, RedoError> {
    match rec
    case Image(p, image) => RedoImage(st, lsn, p, image)
    case Insert(p, slot, level, flags, e) => RedoInsert(st, lsn, p, slot, level, flags, e)
    case Delete(p, slot) => RedoDelete(st, lsn, p, slot)
    case Prepare(l, r, level, oldNext, highKey) => RedoPrepare(st, lsn, l, r, level, oldNext, highKey)
    case Copy(l, r, start, preLsn) => RedoCopy(st, lsn, l, r, start, preLsn)
    case Commit(l, r, parent, sep, slot) => RedoCommit(st, lsn, l, r, parent, sep, slot)
  }

  // ---------------------------------------------------------------- which versions replay holds

  /** Version numbers of a page's pooled and on-disk images. */
  datatype Versions = Versions(pool: nat, disk: nat)

  /** The pages the buffer pool writes back after each record of the replay. */
  type Evictions = nat -> set<PageId>

  /** What record `k` makes of the versions of `p`: an image regresses the pool, Copy redo flushes or reloads the right
      page, every other record brings a lagging page up by one. */
  ghost function Bumped(wal: seq<Record>, k: nat, leftPast: bool, me: Versions, p: PageId): Versions
    requires k < |wal|
  {
    match wal[k]
    case Image(q, _) => if p == q then me.(pool := k + 1) else me.(pool := Max(me.pool, k + 1))
    case Copy(l, r, _, _) =>
      if p != r then me.(pool := Max(me.pool, k + 1))
      else if !leftPast then Versions(Max(me.pool, k + 1), Max(me.pool, k + 1))
      else if me.pool > k then me
      else me.(pool := me.disk)
    case _ => me.(pool := Max(me.pool, k + 1))
  }

  /** The versions replay holds of `p` once it has passed record `k - 1`, from the durable versions `v`, the log and
      the evictions alone. */
  ghost function Held(wal: seq<Record>, s: nat, v: PageId -> nat, e: Evictions, k: nat, p: PageId): Versions
    requires s <= k <= |wal|
    decreases k, 0
  {
    if k == s then Versions(v(p), v(p))
    else
      var now := After(wal, s, v, e, k - 1, p);
      if p in e(k - 1) then now.(disk := now.pool) else now
  }

  /** The same right after record `k`, before the evictions that follow it. */
  ghost function After(wal: seq<Record>, s: nat, v: PageId -> nat, e: Evictions, k: nat, p: PageId): Versions
    requires s <= k < |wal|
    decreases k, 1
  {
    var leftPast := wal[k].Copy? && Held(wal, s, v, e, k, wal[k].left).pool > k;
    Bumped(wal, k, leftPast, Held(wal, s, v, e, k, p), p)
  }

  /** Copy record `k` finds its left page past the copy while neither image of the right page
      has it: the one branch that has nothing to rebuild the moved entries from. */
  ghost predicate EntriesLost(wal: seq<Record>, s: nat, v: PageId -> nat, e: Evictions, k: nat)
    requires s <= k < |wal|
  {
    && wal[k].Copy?
    && Held(wal, s, v, e, k, wal[k].left).pool > k
    && Held(wal, s, v, e, k, wal[k].right).pool <= k
    && Held(wal, s, v, e, k, wal[k].right).disk <= k
  }

  ghost predicate NoneLost(wal: seq<Record>, s: nat, v: PageId -> nat, e: Evictions, k: nat)
    requires s <= k <= |wal|
  {
    forall j :: s <= j < k ==> !EntriesLost(wal, s, v, e, j)
  }

  /** Durable versions a crash can leave: nothing older than the redo start, no page ahead of the
      log, and a right page durable before its left page. */
  ghost predicate CrashState(wal: seq<Record>, s: nat, v: PageId -> nat) {
    && s <= |wal|
    && (forall p :: s <= v(p) <= |wal|)
    && (forall k :: s <= k < |wal| && wal[k].Copy? && k < v(wal[k].left) ==> k < v(wal[k].right))
  }

  lemma {:induction false} HeldBounds(wal: seq<Record>, s: nat, v: PageId -> nat, e: Evictions, k: nat, p: PageId)
    requires CrashState(wal, s, v) && s <= k <= |wal| && NoneLost(wal, s, v, e, k)
    ensures k <= Held(wal, s, v, e, k, p).pool <= Max(k, v(p))
    ensures Held(wal, s, v, e, k, p).disk <= Max(k, v(p))
    decreases k
  {
    if k > s {
      HeldBounds(wal, s, v, e, k - 1, p);
      assert !EntriesLost(wal, s, v, e, k - 1);
    }
  }

  /** Replay's pool and disk hold exactly these versions of `p`. */
  ghost predicate HoldsAs(st: Recovered, wal: seq<Record>, k: nat, p: PageId, h: Versions)
    requires ValidRun(wal) && k <= |wal|
  {
    && k <= h.pool <= |wal| && h.disk <= |wal|
    && At(st.pool, p) == Version(wal, h.pool, p)
    && At(st.disk, p) == Version(wal, h.disk, p)
  }

  ghost predicate Holds(st: Recovered, wal: seq<Record>, s: nat, v: PageId -> nat, e: Evictions, k: nat, p: PageId)
    requires ValidRun(wal) && s <= k <= |wal|
  {
    HoldsAs(st, wal, k, p, Held(wal, s, v, e, k, p))
  }

  ghost predicate Tracks(st: Recovered, wal: seq<Record>, s: nat, v: PageId -> nat, e: Evictions, k: nat)
    requires ValidRun(wal) && s <= k <= |wal|
  {
    forall p :: Holds(st, wal, s, v, e, k, p)
  }

  /** Record `k` is replayed, the evictions after it are not. */
  ghost predicate Passed(st: Recovered, wal: seq<Record>, s: nat, v: PageId -> nat, e: Evictions, k: nat)
    requires ValidRun(wal) && s <= k < |wal|
  {
    forall p :: HoldsAs(st, wal, k + 1, p, After(wal, s, v, e, k, p))
  }

  function WrittenBack(st: Recovered, ps: set<PageId>): Recovered {
    st.(disk := map p | p in st.disk.Keys + ps :: if p in ps then At(st.pool, p) else st.disk[p])
  }

  lemma StepEvict(st: Recovered, wal: seq<Record>, s: nat, v: PageId -> nat, e: Evictions, k: nat)
    requires ValidRun(wal) && s <= k < |wal| && Passed(st, wal, s, v, e, k)
    ensures Tracks(WrittenBack(st, e(k)), wal, s, v, e, k + 1)
  {
    var st', k' := WrittenBack(st, e(k)), k + 1;
    forall p ensures Holds(st', wal, s, v, e, k', p) {
      assert HoldsAs(st, wal, k', p, After(wal, s, v, e, k, p));
    }
  }

  /** The LSN guard reads the version: a page at version `k` is behind record `k`, a later one of a
      page the record touches is not. */
  lemma Guard(st: Recovered, wal: seq<Record>, s: nat, v: PageId -> nat, e: Evictions, k: nat, p: PageId)
    requires ValidRun(wal) && s <= k < |wal| && Tracks(st, wal, s, v, e, k)
    ensures Holds(st, wal, s, v, e, k, p)
    ensures var w := Held(wal, s, v, e, k, p).pool;
      && (w == k ==> PdLsn(At(st.pool, p)) < LsnOf(k))
      && (w > k && Touches(wal[k], p) ==> LsnOf(k) <= PdLsn(At(st.pool, p)))
    ensures var d := Held(wal, s, v, e, k, p).disk;
      && (d <= k ==> PdLsn(At(st.disk, p)) < LsnOf(k))
      && (d > k && Touches(wal[k], p) ==> LsnOf(k) <= PdLsn(At(st.disk, p)))
  {
    assert Holds(st, wal, s, v, e, k, p);
    LsnBounds(wal, k, Held(wal, s, v, e, k, p).pool, p);
    var d := Held(wal, s, v, e, k, p).disk;
    LsnBounds(wal, if k < d then k else d, d, p);
  }

  /** What every handler but Image and Copy does to a page it touches: bring a page at version `k` to
      version `k + 1`, leave a later one alone. */
  ghost predicate Guarded(before: Pages, after: Pages, wal: seq<Record>, k: nat, p: PageId)
    requires ValidRun(wal) && k < |wal|
  {
    At(after, p) ==
      if Touches(wal[k], p) && PdLsn(At(before, p)) < LsnOf(k) then Version(wal, k + 1, p) else At(before, p)
  }

  lemma StepGuarded(st: Recovered, st': Recovered, wal: seq<Record>, s: nat, v: PageId -> nat, e: Evictions, k: nat)
    requires ValidRun(wal) && s <= k < |wal| && Tracks(st, wal, s, v, e, k)
    requires !wal[k].Copy? && !wal[k].Image? && st'.disk == st.disk
    requires forall p :: Guarded(st.pool, st'.pool, wal, k, p)
    ensures Passed(st', wal, s, v, e, k)
  {
    var k' := k + 1;
    forall p ensures HoldsAs(st', wal, k', p, After(wal, s, v, e, k, p)) {
      Guard(st, wal, s, v, e, k, p);
      assert Guarded(st.pool, st'.pool, wal, k, p);
      if !Touches(wal[k], p) { Untouched(wal, k, p); }
    }
  }

  lemma StepInsert(st: Recovered, wal: seq<Record>, s: nat, v: PageId -> nat, e: Evictions, k: nat)
    requires ValidRun(wal) && s <= k < |wal| && Tracks(st, wal, s, v, e, k)
    requires wal[k].Insert? || wal[k].Delete?
    ensures Redo(st, LsnOf(k), wal[k]).Ok?
    ensures Passed(Redo(st, LsnOf(k), wal[k]).value, wal, s, v, e, k)
  {
    Advance(wal, k);
    Guard(st, wal, s, v, e, k, wal[k].page);
    var st' := Redo(st, LsnOf(k), wal[k]).value;
    assert forall p :: Guarded(st.pool, st'.pool, wal, k, p);
    StepGuarded(st, st', wal, s, v, e, k);
  }

  lemma PrepareOutcome(st: Recovered, wal: seq<Record>, k: nat, l: PageId, r: PageId)
    requires ValidRun(wal) && k < |wal| && wal[k].Prepare? && l == wal[k].left && r == wal[k].right
    requires PdLsn(At(st.pool, l)) < LsnOf(k) ==> At(st.pool, l) == Version(wal, k, l)
    ensures var res := Redo(st, LsnOf(k), wal[k]);
      && res.Ok? && res.value.disk == st.disk
      && (forall p :: p != l && p != r ==> At(res.value.pool, p) == At(st.pool, p))
      && Guarded(st.pool, res.value.pool, wal, k, l) && Guarded(st.pool, res.value.pool, wal, k, r)
  {
    Advance(wal, k);
    LsnBounds(wal, 0, k, r);
  }

  lemma StepPrepare(st: Recovered, wal: seq<Record>, s: nat, v: PageId -> nat, e: Evictions, k: nat)
    requires ValidRun(wal) && s <= k < |wal| && Tracks(st, wal, s, v, e, k) && wal[k].Prepare?
    ensures Redo(st, LsnOf(k), wal[k]).Ok?
    ensures Passed(Redo(st, LsnOf(k), wal[k]).value, wal, s, v, e, k)
  {
    Guard(st, wal, s, v, e, k, wal[k].left);
    PrepareOutcome(st, wal, k, wal[k].left, wal[k].right);
    var st' := Redo(st, LsnOf(k), wal[k]).value;
    assert forall p :: Guarded(st.pool, st'.pool, wal, k, p);
    StepGuarded(st, st', wal, s, v, e, k);
  }

  lemma CommitOutcome(st: Recovered, wal: seq<Record>, k: nat)
    requires ValidRun(wal) && k < |wal| && wal[k].Commit?
    requires PdLsn(At(st.pool, wal[k].left)) < LsnOf(k) ==> At(st.pool, wal[k].left) == Version(wal, k, wal[k].left)
    requires PdLsn(At(st.pool, wal[k].parent)) < LsnOf(k) ==>
      At(st.pool, wal[k].parent) == Version(wal, k, wal[k].parent)
    ensures var res := Redo(st, LsnOf(k), wal[k]);
      res.Ok? && res.value.disk == st.disk && forall p :: Guarded(st.pool, res.value.pool, wal, k, p)
  {
    Advance(wal, k);
    var st' := Redo(st, LsnOf(k), wal[k]).value;
    assert forall p :: Guarded(st.pool, st'.pool, wal, k, p);
  }

  lemma StepCommit(st: Recovered, wal: seq<Record>, s: nat, v: PageId -> nat, e: Evictions, k: nat)
    requires ValidRun(wal) && s <= k < |wal| && Tracks(st, wal, s, v, e, k) && wal[k].Commit?
    ensures Redo(st, LsnOf(k), wal[k]).Ok?
    ensures Passed(Redo(st, LsnOf(k), wal[k]).value, wal, s, v, e, k)
  {
    hide Held, After, Run;
    Guard(st, wal, s, v, e, k, wal[k].left);
    Guard(st, wal, s, v, e, k, wal[k].parent);
    CommitOutcome(st, wal, k);
    var st' := Redo(st, LsnOf(k), wal[k]).value;
    StepGuarded(st, st', wal, s, v, e, k);
  }

  lemma StepImage(st: Recovered, wal: seq<Record>, s: nat, v: PageId -> nat, e: Evictions, k: nat)
    requires ValidRun(wal) && s <= k < |wal| && Tracks(st, wal, s, v, e, k) && wal[k].Image?
    ensures Redo(st, LsnOf(k), wal[k]).Ok?
    ensures Passed(Redo(st, LsnOf(k), wal[k]).value, wal, s, v, e, k)
  {
    Advance(wal, k);
    var st' := Redo(st, LsnOf(k), wal[k]).value;
    var k' := k + 1;
    forall p ensures HoldsAs(st', wal, k', p, After(wal, s, v, e, k, p)) {
      Guard(st, wal, s, v, e, k, p);
      if p != wal[k].page { Untouched(wal, k, p); }
    }
  }

  /** What Copy redo leaves on the two pages, by the images it finds. */
  lemma CopyOutcome(st: Recovered, wal: seq<Record>, k: nat, l: PageId, r: PageId)
    requires ValidRun(wal) && k < |wal| && wal[k].Copy? && l == wal[k].left && r == wal[k].right
    requires PdLsn(At(st.pool, l)) < LsnOf(k) ==> At(st.pool, l) == Version(wal, k, l)
    requires PdLsn(At(st.pool, r)) < LsnOf(k) ==> At(st.pool, r) == Version(wal, k, r)
    ensures var res := Redo(st, LsnOf(k), wal[k]);
      if PdLsn(At(st.pool, l)) < LsnOf(k) then
        res.Ok? && l != r && At(res.value.pool, l) == Version(wal, k + 1, l)
        && At(res.value.pool, r) == At(res.value.disk, r)
        && At(res.value.pool, r)
           == (if PdLsn(At(st.pool, r)) < LsnOf(k) then Version(wal, k + 1, r) else At(st.pool, r))
        && (forall p :: p != l && p != r ==> At(res.value.pool, p) == At(st.pool, p))
        && (forall p :: p != r ==> At(res.value.disk, p) == At(st.disk, p))
      else if LsnOf(k) <= PdLsn(At(st.pool, r)) then
        res.Ok? && res.value.pool == st.pool && res.value.disk == st.disk
      else if LsnOf(k) <= PdLsn(At(st.disk, r)) then
        res.Ok? && res.value.pool == st.pool[r := At(st.disk, r)] && res.value.disk == st.disk
      else res.Err?
  {
    Advance(wal, k);
    LsnBounds(wal, 0, k, l);
    LsnBounds(wal, 0, k, r);
  }

  /** A page's versions across a Copy record. */
  lemma AfterCopy(wal: seq<Record>, s: nat, v: PageId -> nat, e: Evictions, k: nat, p: PageId)
    requires s <= k < |wal| && wal[k].Copy?
    ensures var me := Held(wal, s, v, e, k, p);
      After(wal, s, v, e, k, p) ==
        if p != wal[k].right then me.(pool := Max(me.pool, k + 1))
        else if Held(wal, s, v, e, k, wal[k].left).pool <= k then Versions(Max(me.pool, k + 1), Max(me.pool, k + 1))
        else if me.pool > k then me
        else me.(pool := me.disk)
  {
  }

  /** One page across a Copy that loses nothing. */
  lemma CopyHolds(st: Recovered, st': Recovered, wal: seq<Record>, s: nat, v: PageId -> nat, e: Evictions, k: nat,
                  p: PageId)
    requires ValidRun(wal) && s <= k < |wal| && Tracks(st, wal, s, v, e, k) && wal[k].Copy?
    requires !EntriesLost(wal, s, v, e, k)
    requires Redo(st, LsnOf(k), wal[k]) == Ok(st')
    ensures HoldsAs(st', wal, k + 1, p, After(wal, s, v, e, k, p))
  {
    hide Held, After, Run, Redo, Version;
    var l, r := wal[k].left, wal[k].right;
    Guard(st, wal, s, v, e, k, l);
    Guard(st, wal, s, v, e, k, r);
    CopyOutcome(st, wal, k, l, r);
    AfterCopy(wal, s, v, e, k, p);
    if p != l && p != r {
      Guard(st, wal, s, v, e, k, p);
      Untouched(wal, k, p);
    }
  }

  lemma CopyFails(st: Recovered, wal: seq<Record>, s: nat, v: PageId -> nat, e: Evictions, k: nat)
    requires ValidRun(wal) && s <= k < |wal| && Tracks(st, wal, s, v, e, k) && wal[k].Copy?
    ensures Redo(st, LsnOf(k), wal[k]).Ok? <==> !EntriesLost(wal, s, v, e, k)
  {
    Guard(st, wal, s, v, e, k, wal[k].left);
    Guard(st, wal, s, v, e, k, wal[k].right);
    CopyOutcome(st, wal, k, wal[k].left, wal[k].right);
  }

  /** Copy redo fails exactly when the moved entries exist in no image it can see; otherwise it
      holds the predicted versions. */
  lemma StepCopy(st: Recovered, wal: seq<Record>, s: nat, v: PageId -> nat, e: Evictions, k: nat)
    requires ValidRun(wal) && s <= k < |wal| && Tracks(st, wal, s, v, e, k) && wal[k].Copy?
    ensures Redo(st, LsnOf(k), wal[k]).Ok? <==> !EntriesLost(wal, s, v, e, k)
    ensures !EntriesLost(wal, s, v, e, k) ==> Passed(Redo(st, LsnOf(k), wal[k]).value, wal, s, v, e, k)
  {
    CopyFails(st, wal, s, v, e, k);
    if !EntriesLost(wal, s, v, e, k) {
      var st', k' := Redo(st, LsnOf(k), wal[k]).value, k + 1;
      forall p ensures HoldsAs(st', wal, k', p, After(wal, s, v, e, k, p)) {
        CopyHolds(st, st', wal, s, v, e, k, p);
      }
    }
  }

  lemma Step(st: Recovered, wal: seq<Record>, s: nat, v: PageId -> nat, e: Evictions, k: nat)
    requires ValidRun(wal) && s <= k < |wal| && Tracks(st, wal, s, v, e, k)
    ensures Redo(st, LsnOf(k), wal[k]).Ok? <==> !EntriesLost(wal, s, v, e, k)
    ensures !EntriesLost(wal, s, v, e, k) ==> Passed(Redo(st, LsnOf(k), wal[k]).value, wal, s, v, e, k)
  {
    match wal[k]
    case Image(_, _) => StepImage(st, wal, s, v, e, k);
    case Insert(_, _, _, _, _) => StepInsert(st, wal, s, v, e, k);
    case Delete(_, _) => StepInsert(st, wal, s, v, e, k);
    case Prepare(_, _, _, _, _) => StepPrepare(st, wal, s, v, e, k);
    case Copy(_, _, _, _) => StepCopy(st, wal, s, v, e, k);
    case Commit(_, _, _, _, _) => StepCommit(st, wal, s, v, e, k);
  }

  // ---------------------------------------------------------------- the incomplete-split tracker

  predicate Opens(rec: Record, l: PageId) {
    rec.Prepare? && rec.left == l
  }

  predicate Closes(rec: Record, l: PageId) {
    rec.Commit? && rec.left == l
  }

  /** `j` is the record that left `l` with an open split: the last of `l`'s Prepare and Commit
      records in the window, and a Prepare. */
  ghost predicate OpenedBy(wal: seq<Record>, s: nat, k: nat, l: PageId, j: nat)
    requires s <= k <= |wal|
  {
    && s <= j < k && Opens(wal[j], l)
    && forall i :: j < i < k ==> !Opens(wal[i], l) && !Closes(wal[i], l)
  }

  ghost predicate CopiedBy(wal: seq<Record>, j: nat, k: nat, l: PageId, i: nat)
    requires k <= |wal|
  {
    && j < i < k && wal[i].Copy? && wal[i].left == l
    && forall m :: i < m < k ==> !(wal[m].Copy? && wal[m].left == l)
  }

  /** `x` describes the split record `j` opened, with the slot of its Copy if one was logged since. */
  ghost predicate Describes(x: IncompleteSplit, wal: seq<Record>, j: nat, k: nat, l: PageId)
    requires j < k <= |wal| && Opens(wal[j], l)
  {
    && x.right == wal[j].right && x.level == wal[j].level && x.oldNext == wal[j].oldNext
    && (x.copyStart.Some? ==> exists i: nat :: CopiedBy(wal, j, k, l, i) && x.copyStart.value == wal[i].start)
    && (x.copyStart.None? ==> forall i: nat :: !CopiedBy(wal, j, k, l, i))
  }

  ghost predicate TracksLeft(t: Tracker, wal: seq<Record>, s: nat, k: nat, l: PageId)
    requires s <= k <= |wal|
  {
    if l in t then exists j: nat :: OpenedBy(wal, s, k, l, j) && Describes(t[l], wal, j, k, l)
    else forall j: nat :: !OpenedBy(wal, s, k, l, j)
  }

  /** The tracker names exactly the splits of the window that have no Commit. */
  ghost predicate TrackerExact(t: Tracker, wal: seq<Record>, s: nat, k: nat)
    requires s <= k <= |wal|
  {
    forall l :: TracksLeft(t, wal, s, k, l)
  }

  function Track(t: Tracker, rec: Record): Tracker {
    match rec
    case Prepare(l, r, level, oldNext, _) => t[l := IncompleteSplit(r, level, oldNext, None)]
    case Copy(l, _, start, _) => MarkCopy(t, l, start)
    case Commit(l, _, _, _, _) => t - {l}
    case _ => t
  }

  lemma TrackStep(t: Tracker, wal: seq<Record>, s: nat, k: nat)
    requires s <= k < |wal| && TrackerExact(t, wal, s, k)
    ensures TrackerExact(Track(t, wal[k]), wal, s, k + 1)
  {
    var t', k' := Track(t, wal[k]), k + 1;
    forall l ensures TracksLeft(t', wal, s, k', l) {
      assert TracksLeft(t, wal, s, k, l);
      if Opens(wal[k], l) {
        assert OpenedBy(wal, s, k', l, k) && Describes(t'[l], wal, k, k', l);
      } else if l in t && !Closes(wal[k], l) {
        var j: nat :| OpenedBy(wal, s, k, l, j) && Describes(t[l], wal, j, k, l);
        assert OpenedBy(wal, s, k', l, j);
        DescribeStep(t[l], wal, j, k, l);
        assert Describes(t'[l], wal, j, k', l);
      } else if l !in t {
        forall j: nat ensures !OpenedBy(wal, s, k', l, j) {
          assert !OpenedBy(wal, s, k, l, j);
        }
      }
    }
  }

  lemma DescribeStep(x: IncompleteSplit, wal: seq<Record>, j: nat, k: nat, l: PageId)
    requires j < k < |wal| && Opens(wal[j], l) && Describes(x, wal, j, k, l)
    ensures Describes(if wal[k].Copy? &&
      wal[k].left == l then x.(copyStart := Some(wal[k].start)) else x, wal, j, k + 1, l)
  {
    var k' := k + 1;
    if wal[k].Copy? && wal[k].left == l {
      assert CopiedBy(wal, j, k', l, k);
    } else if x.copyStart.Some? {
      var i: nat :| CopiedBy(wal, j, k, l, i) && x.copyStart.value == wal[i].start;
      assert CopiedBy(wal, j, k', l, i);
    } else {
      forall i: nat ensures !CopiedBy(wal, j, k', l, i) {
        assert !CopiedBy(wal, j, k, l, i);
      }
    }
  }

  lemma ReplayStart(st: Recovered, wal: seq<Record>, s: nat, v: PageId -> nat, e: Evictions)
    requires ValidRun(wal) && CrashState(wal, s, v) && st.pool == st.disk
    requires forall p :: At(st.disk, p) == Version(wal, v(p), p)
    ensures Tracks(st, wal, s, v, e, s)
  {
  }

  lemma ReplayEnd(st: Recovered, wal: seq<Record>, s: nat, v: PageId -> nat, e: Evictions)
    requires ValidRun(wal) && CrashState(wal, s, v)
    requires NoneLost(wal, s, v, e, |wal|) && Tracks(st, wal, s, v, e, |wal|)
    ensures forall p :: At(st.pool, p) == Version(wal, |wal|, p)
  {
    var n := |wal|;
    forall p ensures At(st.pool, p) == Version(wal, n, p) {
      assert Holds(st, wal, s, v, e, n, p);
      HeldBounds(wal, s, v, e, n, p);
    }
  }

  // ---------------------------------------------------------------- the handlers, as they run

  /** The recovery pass: a buffer pool over the data file, and the tracker. */
  class Recovery {
    var pool: Pages
    var disk: Pages
    var tracker: Tracker

    ghost function State(): Recovered
      reads this
    {
      Recovered(pool, disk, tracker)
    }

    constructor (dataFile: Pages)
      ensures pool == disk == dataFile && tracker == map[]
    {
      pool, disk, tracker := dataFile, dataFile, map[];
    }

    method ApplyInsert(lsn: nat, p: PageId, slot: nat, level: nat, flags: Flags, e: Entry) returns (ok: bool)
      modifies this
      ensures ok == RedoInsert(old(State()), lsn, p, slot, level, flags, e).Ok?
      ensures ok ==> State() == RedoInsert(old(State()), lsn, p, slot, level, flags, e).value
    {
      var pg := At(pool, p);
      if lsn <= PdLsn(pg) {
        return true;
      }
      pg := InitIfFresh(pg, level, flags);
      var r := InsertEntryAt(pg, slot, e);
      if r.Err? {
        return false;
      }
      pool := pool[p := Stamp(r.value, lsn)];
      ok := true;
    }

    method ApplyDelete(lsn: nat, p: PageId, slot: nat) returns (ok: bool)
      modifies this
      ensures ok == RedoDelete(old(State()), lsn, p, slot).Ok?
      ensures ok ==> State() == RedoDelete(old(State()), lsn, p, slot).value
    {
      if lsn <= PdLsn(At(pool, p)) {
        return true;
      }
      var r := RemoveEntryAt(At(pool, p), slot);
      if r.Err? {
        return false;
      }
      pool := pool[p := Stamp(r.value, lsn)];
      ok := true;
    }

    method ApplyPrepare(lsn: nat, left: PageId, right: PageId, level: nat, oldNext: PageId, highKey: seq<byte>)
      returns (ok: bool)
      modifies this
      ensures ok == RedoPrepare(old(State()), lsn, left, right, level, oldNext, highKey).Ok?
      ensures ok ==> State() == RedoPrepare(old(State()), lsn, left, right, level, oldNext, highKey).value
    {
      tracker := tracker[left := IncompleteSplit(right, level, oldNext, None)];
      var r := At(pool, right);
      if PdLsn(r) < lsn {
        r := Stamp(InitRightPage(left, oldNext, level), lsn);
      }
      pool := pool[right := r];
      var l := At(pool, left);
      if PdLsn(l) < lsn {
        l := InitIfFresh(l, level, FlagsForLevel(level));
        if |l.entries| > 0 {
          if l.entries[|l.entries| - 1].key != highKey {
            return false;
          }
        }
        l := Stamp(PrepareLeft(l, right), lsn);
      }
      pool := pool[left := l];
      ok := true;
    }

    method ApplyCopy(lsn: nat, left: PageId, right: PageId, start: nat, preLsn: nat) returns (ok: bool)
      modifies this
      ensures ok == RedoCopy(old(State()), lsn, left, right, start, preLsn).Ok?
      ensures ok ==> State() == RedoCopy(old(State()), lsn, left, right, start, preLsn).value
    {
      if left in tracker {
        tracker := tracker[left := tracker[left].(copyStart := Some(start))];
      }
      var l, r := At(pool, left), At(pool, right);
      if PdLsn(l) != preLsn {
        if lsn <= PdLsn(l) {
          if lsn <= PdLsn(r) {
            return true;
          }
          if lsn <= PdLsn(At(disk, right)) {
            pool := pool[right := At(disk, right)];
            return true;
          }
          return false;
        }
        if lsn <= PdLsn(r) {
          var c := SplitCopy(l, r, start, false);
          if c.Err? {
            return false;
          }
          pool := pool[left := Stamp(c.value.0, lsn)];
          return true;
        }
        return false;
      }
      var moveToRight := PdLsn(r) < lsn;
      var c := SplitCopy(l, r, start, moveToRight);
      if c.Err? {
        return false;
      }
      r := c.value.1;
      if moveToRight {
        r := Stamp(r, lsn);
      }
      pool := pool[left := Stamp(c.value.0, lsn)][right := r];
      disk := disk[right := r];
      ok := true;
    }

    method ApplyCommit(lsn: nat, left: PageId, right: PageId, parent: PageId, sep: seq<byte>, slot: nat)
      returns (ok: bool)
      modifies this
      ensures ok == RedoCommit(old(State()), lsn, left, right, parent, sep, slot).Ok?
      ensures ok ==> State() == RedoCommit(old(State()), lsn, left, right, parent, sep, slot).value
    {
      tracker := tracker - {left};
      if PdLsn(At(pool, parent)) < lsn {
        var r := InsertEntryAt(At(pool, parent), slot, Entry(sep, right, 0));
        if r.Err? {
          return false;
        }
        pool := pool[parent := Stamp(r.value, lsn)];
      }
      var l := At(pool, left);
      if PdLsn(l) < lsn {
        if l.Zero? {
          return false;
        }
        pool := pool[left := Stamp(CommitLeft(l), lsn)];
      }
      ok := true;
    }

    method Apply(lsn: nat, rec: Record) returns (ok: bool)
      modifies this
      ensures ok == Redo(old(State()), lsn, rec).Ok?
      ensures ok ==> State() == Redo(old(State()), lsn, rec).value && tracker == Track(old(tracker), rec)
    {
      match rec
      case Image(p, image) => pool := pool[p := Stamp(image, lsn)]; ok := true;
      case Insert(p, slot, level, flags, e) => ok := ApplyInsert(lsn, p, slot, level, flags, e);
      case Delete(p, slot) => ok := ApplyDelete(lsn, p, slot);
      case Prepare(l, r, level, oldNext, highKey) => ok := ApplyPrepare(lsn, l, r, level, oldNext, highKey);
      case Copy(l, r, start, preLsn) => ok := ApplyCopy(lsn, l, r, start, preLsn);
      case Commit(l, r, parent, sep, slot) => ok := ApplyCommit(lsn, l, r, parent, sep, slot);
    }

    /** The pool writes some pages back, evicted or flushed. */
    method WriteBack(ps: set<PageId>)
      modifies this
      ensures State() == WrittenBack(old(State()), ps)
    {
      disk := map p | p in disk.Keys + ps :: if p in ps then At(pool, p) else disk[p];
    }

    /** Replay the log from the redo start over whatever each page's durable version is, while the buffer pool writes
        back what it likes. The pass fails exactly when some Copy's moved entries are in no image left; otherwise every
        page ends as the writing run left it - entries, links, flags and LSN - and the tracker names exactly the splits
        still open. */
    method Replay(wal: seq<Record>, s: nat, e: Evictions, ghost v: PageId -> nat) returns (ok: bool)
      requires ValidRun(wal) && CrashState(wal, s, v)
      requires pool == disk && tracker == map[]
      requires forall p :: At(disk, p) == Version(wal, v(p), p)
      modifies this
      ensures ok <==> NoneLost(wal, s, v, e, |wal|)
      ensures ok ==> forall p :: At(pool, p) == Version(wal, |wal|, p)
      ensures ok ==> TrackerExact(tracker, wal, s, |wal|)
    {
      var k := s;
      ok := true;
      ReplayStart(State(), wal, s, v, e);
      while k < |wal|
        invariant s <= k <= |wal|
        invariant NoneLost(wal, s, v, e, k)
        invariant Tracks(State(), wal, s, v, e, k)
        invariant TrackerExact(tracker, wal, s, k)
      {
        Step(State(), wal, s, v, e, k);
        TrackStep(tracker, wal, s, k);
        ok := Apply(LsnOf(k), wal[k]);
        if !ok {
          return;
        }
        StepEvict(State(), wal, s, v, e, k);
        WriteBack(e(k));
        k := k + 1;
      }
      ReplayEnd(State(), wal, s, v, e);
    }
  }

  // ---------------------------------------------------------------- when nothing can be lost

  /** No page is the right page of two splits inside the replay window. */
  ghost predicate RecycledOnce(wal: seq<Record>, s: nat) {
    forall j, k :: s <= j < k < |wal| && wal[j].Copy? && wal[k].Copy? ==> wal[j].right != wal[k].right
  }

  /** The right page of Copy `k` is not written back between the replay of its image and that of the Copy. */
  ghost predicate SteadyAt(wal: seq<Record>, s: nat, e: Evictions, k: nat)
    requires k < |wal| && wal[k].Copy?
  {
    forall i, j :: s <= i <= j < k && wal[i].Image? && wal[i].page == wal[k].right ==> wal[k].right !in e(j)
  }

  ghost predicate Steady(wal: seq<Record>, s: nat, e: Evictions) {
    forall k :: s <= k < |wal| && wal[k].Copy? ==> SteadyAt(wal, s, e, k)
  }

  /** Up to its Copy at `c`, a right page keeps on disk what was durable. */
  lemma {:induction false} DiskAhead(wal: seq<Record>, s: nat, v: PageId -> nat, e: Evictions, k: nat, c: nat)
    requires RecycledOnce(wal, s) && s <= k <= c < |wal| && wal[c].Copy? && SteadyAt(wal, s, e, c)
    ensures v(wal[c].right) <= Held(wal, s, v, e, k, wal[c].right).disk
    ensures (forall i :: s <= i < k ==> !(wal[i].Image? && wal[i].page == wal[c].right)) ==>
      v(wal[c].right) <= Held(wal, s, v, e, k, wal[c].right).pool
    decreases k
  {
    if s < k { DiskAhead(wal, s, v, e, k - 1, c); }
  }

  lemma NothingLost(wal: seq<Record>, s: nat, v: PageId -> nat, e: Evictions, k: nat)
    requires CrashState(wal, s, v) && RecycledOnce(wal, s) && Steady(wal, s, e) && s <= k <= |wal|
    ensures NoneLost(wal, s, v, e, k)
    decreases k
  {
    if s < k {
      NothingLost(wal, s, v, e, k - 1);
      if wal[k - 1].Copy? {
        HeldBounds(wal, s, v, e, k - 1, wal[k - 1].left);
        DiskAhead(wal, s, v, e, k - 1, k - 1);
      }
      assert !EntriesLost(wal, s, v, e, k - 1);
    }
  }

  /** Past its Copy a right page on disk stays past it. */
  lemma {:induction false} RightKept(wal: seq<Record>, s: nat, v: PageId -> nat, e: Evictions, k: nat, j: nat)
    requires CrashState(wal, s, v) && RecycledOnce(wal, s) && Steady(wal, s, e)
    requires s <= j < k <= |wal| && wal[j].Copy?
    ensures j < Held(wal, s, v, e, k, wal[j].right).disk
    decreases k
  {
    NothingLost(wal, s, v, e, k);
    HeldBounds(wal, s, v, e, k, wal[j].right);
    if j + 1 < k {
      RightKept(wal, s, v, e, k - 1, j);
    } else {
      HeldBounds(wal, s, v, e, j, wal[j].left);
      DiskAhead(wal, s, v, e, j, j);
    }
  }

  /** Where the left page on disk is past a Copy, so is the right page. */
  lemma RightStaysAhead(wal: seq<Record>, s: nat, v: PageId -> nat, e: Evictions, k: nat, j: nat)
    requires CrashState(wal, s, v) && RecycledOnce(wal, s) && Steady(wal, s, e) && s <= k <= |wal|
    requires s <= j < |wal| && wal[j].Copy? && j < Held(wal, s, v, e, k, wal[j].left).disk
    ensures j < Held(wal, s, v, e, k, wal[j].right).disk
  {
    if k <= j {
      NothingLost(wal, s, v, e, k);
      HeldBounds(wal, s, v, e, k, wal[j].left);
      DiskAhead(wal, s, v, e, k, j);
    } else {
      RightKept(wal, s, v, e, k, j);
    }
  }

  lemma {:induction false} DiskBounds(wal: seq<Record>, s: nat, v: PageId -> nat, e: Evictions, k: nat, p: PageId)
    requires CrashState(wal, s, v) && s <= k <= |wal| && NoneLost(wal, s, v, e, k)
    ensures s <= Held(wal, s, v, e, k, p).disk <= |wal|
    decreases k
  {
    if s < k { DiskBounds(wal, s, v, e, k - 1, p); }
    HeldBounds(wal, s, v, e, k, p);
  }

  /** What a replay that stops before record `k` leaves on disk. */
  ghost function DiskAt(wal: seq<Record>, s: nat, v: PageId -> nat, e: Evictions, k: nat): PageId -> nat
    requires s <= k <= |wal|
  {
    (p: PageId) => Held(wal, s, v, e, k, p).disk
  }

  /** Recovery may itself crash at any point, whatever was written back: what it leaves on disk is again a state replay
      can start from, and that replay loses nothing either. */
  lemma RestartableAnywhere(wal: seq<Record>, s: nat, v: PageId -> nat, e: Evictions, k: nat, again: Evictions)
    requires ValidRun(wal) && CrashState(wal, s, v) && RecycledOnce(wal, s) && s <= k <= |wal|
    requires Steady(wal, s, e) && Steady(wal, s, again)
    ensures var d := DiskAt(wal, s, v, e, k);
      CrashState(wal, s, d) && NoneLost(wal, s, d, again, |wal|)
  {
    var d := DiskAt(wal, s, v, e, k);
    NothingLost(wal, s, v, e, k);
    forall p ensures s <= d(p) <= |wal| {
      DiskBounds(wal, s, v, e, k, p);
    }
    forall j | s <= j < |wal| && wal[j].Copy? && j < d(wal[j].left) ensures j < d(wal[j].right) {
      RightStaysAhead(wal, s, v, e, k, j);
    }
    NothingLost(wal, s, d, again, |wal|);
  }

  // ---------------------------------------------------------------- what is lost otherwise

  /** A page that no record regresses stays at its durable version. */
  lemma {:induction false} PoolKept(wal: seq<Record>, s: nat, v: PageId -> nat, e: Evictions, k: nat, p: PageId)
    requires s <= k <= |wal| && k <= v(p)
    requires forall j :: s <= j < k ==> (wal[j].Image? ==> wal[j].page != p) && (wal[j].Copy? ==> wal[j].right != p)
    ensures Held(wal, s, v, e, k, p).pool == v(p)
    decreases k
  {
    if s < k { PoolKept(wal, s, v, e, k - 1, p); }
  }

  /** An image at `i` regresses the pooled page, and later records bring it up one by one. */
  lemma {:induction false} PoolImaged(wal: seq<Record>, s: nat, v: PageId -> nat, e: Evictions, i: nat, k: nat,
                                      p: PageId)
    requires s <= i < k <= |wal| && wal[i].Image? && wal[i].page == p
    requires forall j :: i < j < k ==> wal[j].Copy? ==> wal[j].right != p
    ensures Held(wal, s, v, e, k, p).pool == k
    decreases k
  {
    if i + 1 < k { PoolImaged(wal, s, v, e, i, k - 1, p); }
  }

  /** A regressed page written back at `j` is behind on disk from then on. */
  lemma {:induction false} DiskRegressed(wal: seq<Record>, s: nat, v: PageId -> nat, e: Evictions, i: nat, j: nat,
        k: nat, p: PageId)
    requires s <= i <= j < k <= |wal| && wal[i].Image? && wal[i].page == p && p in e(j)
    requires forall m :: i < m < k ==> wal[m].Copy? ==> wal[m].right != p
    ensures Held(wal, s, v, e, k, p).disk <= k
    decreases k
  {
    PoolImaged(wal, s, v, e, i, k, p);
    if j + 1 < k { DiskRegressed(wal, s, v, e, i, j, k - 1, p); }
  }

  /** A Copy loses its moved entries exactly when replay finds the left page past it and the right page was written
      back between the replay of its image and the Copy. */
  lemma LostExactly(wal: seq<Record>, s: nat, v: PageId -> nat, e: Evictions, k: nat)
    requires CrashState(wal, s, v) && RecycledOnce(wal, s) && s <= k < |wal| && wal[k].Copy?
    requires NoneLost(wal, s, v, e, k)
    ensures EntriesLost(wal, s, v, e, k) <==> Held(wal, s, v, e, k, wal[k].left).pool > k && !SteadyAt(wal, s, e, k)
  {
    if SteadyAt(wal, s, e, k) {
      HeldBounds(wal, s, v, e, k, wal[k].left);
      DiskAhead(wal, s, v, e, k, k);
    } else {
      var i, j :| s <= i <= j < k && wal[i].Image? && wal[i].page == wal[k].right && wal[k].right in e(j);
      PoolImaged(wal, s, v, e, i, k, wal[k].right);
      DiskRegressed(wal, s, v, e, i, j, k, wal[k].right);
    }
  }

  function TwoKeys(): Page {
    Page(0, FlagsForLevel(0), INVALID, INVALID, [Entry([1], 9, 0), Entry([2], 9, 1)], SPECIAL - 22, 0)
  }

  lemma RunStep(wal: seq<Record>, k: nat, s: Pages)
    requires k < |wal| && Run(wal, k) == Some(s) && Allowed(wal[k], LsnOf(k), s)
    ensures Run(wal, k + 1) == Some(Do(wal[k], LsnOf(k), s))
  {
  }

  /** A page holding `TwoKeys` splits onto `r`. */
  lemma SplitRuns(wal: seq<Record>, k: nat, s: Pages, l: PageId, r: PageId) returns (s': Pages)
    requires k + 3 <= |wal| && Run(wal, k) == Some(s) && l != r
    requires SameContent(At(s, l), TwoKeys()) && At(s, l).lsn <= k
    requires wal[k] == Image(r, InitRightPage(l, INVALID, 0))
    requires wal[k + 1] == Prepare(l, r, 0, INVALID, [2]) && wal[k + 2] == Copy(l, r, 1, k + 2)
    ensures Run(wal, k + 3) == Some(s')
    ensures forall q :: q != l && q != r ==> At(s', q) == At(s, q)
  {
    var moved := [Entry([2], 9, 1)];
    assert Bytes(0, moved) == 11 by { assert moved[..0] == []; }
    assert At(s, l).entries[1..] == moved;
    RunStep(wal, k, s);
    var s1 := Do(wal[k], LsnOf(k), s);
    RunStep(wal, k + 1, s1);
    var s2 := Do(wal[k + 1], LsnOf(k + 1), s1);
    RunStep(wal, k + 2, s2);
    s' := Do(wal[k + 2], LsnOf(k + 2), s2);
  }

  /** Page 3 is the right page of a split of page 1, is given back, and becomes the right page of a split of page 2:
      no log the index writes, since nothing frees a page of the tree. */
  function RecycledTwice(): seq<Record> {
    [Image(2, TwoKeys()), Image(1, TwoKeys()),
     Image(3, InitRightPage(1, INVALID, 0)), Prepare(1, 3, 0, INVALID, [2]), Copy(1, 3, 1, 4),
     Image(3, InitRightPage(2, INVALID, 0)), Prepare(2, 3, 0, INVALID, [2]), Copy(2, 3, 1, 7)]
  }

  /** What would break if tree pages were ever freed, even without evictions: Copy redo flushes the right page it
      rebuilt over a newer image on disk, so with everything durable and the log replayed from its second record, the
      second Copy finds the entries of page 2 nowhere. */
  lemma RecycledTwiceLosesEntries()
    ensures var wal, v, e := RecycledTwice(), (p: PageId) => 8, (k: nat) => {};
      ValidRun(wal) && CrashState(wal, 1, v) && !NoneLost(wal, 1, v, e, |wal|)
  {
    hide Run, Held, TwoKeys, InitRightPage, EntriesLost;
    var wal, v, e := RecycledTwice(), (p: PageId) => 8, (k: nat) => {};
    RecycledTwiceRuns();
    LosesEntries(wal, v, e);
  }

  lemma LosesEntries(wal: seq<Record>, v: PageId -> nat, e: Evictions)
    requires |wal| == 8 && (forall p :: v(p) == 8) && forall k :: e(k) == {}
    requires wal[1].Image? && wal[1].page == 1 && wal[2].Image? && wal[2].page == 3 && wal[3].Prepare?
    requires wal[4].Copy? && wal[4].left == 1 && wal[4].right == 3
    requires wal[5].Image? && wal[5].page == 3 && wal[6].Prepare?
    requires wal[7].Copy? && wal[7].left == 2 && wal[7].right == 3
    ensures EntriesLost(wal, 1, v, e, 7)
  {
    PoolKept(wal, 1, v, e, 7, 2);
    PoolImaged(wal, 1, v, e, 1, 4, 1);
    PoolImaged(wal, 1, v, e, 2, 4, 3);
    assert Held(wal, 1, v, e, 5, 3).disk == 5;
    assert Held(wal, 1, v, e, 6, 3).disk == 5;
    assert Held(wal, 1, v, e, 7, 3).disk == 5;
    PoolImaged(wal, 1, v, e, 5, 7, 3);
  }

  lemma RecycledTwiceRuns()
    ensures ValidRun(RecycledTwice())
  {
    var wal := RecycledTwice();
    RunStep(wal, 0, map[]);
    var s1 := Do(wal[0], 1, map[]);
    RunStep(wal, 1, s1);
    var s5 := SplitRuns(wal, 2, Do(wal[1], 2, s1), 1, 3);
    var s8 := SplitRuns(wal, 5, s5, 2, 3);
  }
}
