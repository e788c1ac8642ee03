/** Full page images and the split Commit. The Commit record is appended before either of its page writes, so an
    image taken in between and logged after the record would, on replay, roll the page back past it. This is the
    interleaving argument that no such image exists: splits one after another, each cascading as far up as it has to,
    any number of leaf writers, fuzzy checkpoints and page flushes in any order. */
module CommitImages {
  import opened Entries

  type Actor = nat

  /** What the machine needs of a page: its split mark, which log records its content reflects, its LSN, whether it
      has an image on disk, and who holds its write latch. */
  datatype Frame = Frame(marked: bool, applied: set<nat>, lsn: nat, onDisk: bool, latch: Option<Actor>)

  datatype Rec =
    | Image(page: PageId, applied: set<nat>)
    | Commit(left: PageId, parent: PageId)
    | Change(page: PageId)

  /** The committer is actor 0; online splits are serialized by the root latch. */
  const COMMITTER: Actor := 0

  /** Where the splitting thread stands. `parent` stays latched from `Latched` until its downlink is written, unless
      the split promotes a new root, which nothing latches. While a full parent is split first the child's split waits
      for it. */
  datatype Split =
    | Idle
    | Waiting(left: PageId)
    | Latched(left: PageId, parent: PageId, guarded: bool)
    | Copied(left: PageId, parent: PageId, guarded: bool)
    | RootTouching(left: PageId, parent: PageId, guarded: bool)
    | RootTouched(left: PageId, parent: PageId, guarded: bool)
    | Touching(left: PageId, parent: PageId, guarded: bool)
    | Touched(left: PageId, parent: PageId, guarded: bool)
    | Appended(left: PageId, parent: PageId, guarded: bool, at: nat)
    | Linked(left: PageId, parent: PageId, guarded: bool, at: nat)

  /** Where a leaf writer, or a write descent, stands with the page it latched. */
  datatype Writer = Away | Holding(page: PageId) | Imaging(page: PageId) | Ready(page: PageId)

  /** `below` are the left pages of the splits that wait for the current one, the leaf's first. */
  datatype State = State(frames: map<PageId, Frame>, wal: seq<Rec>, ckpt: nat, split: Split, below: seq<PageId>,
                         writers: map<Actor, Writer>)

  predicate Free(s: State, p: PageId) {
    p in s.frames && s.frames[p].latch.None?
  }

  predicate HeldBy(s: State, p: PageId, a: Actor) {
    p in s.frames && s.frames[p].latch == Some(a)
  }

  function Latch(s: State, p: PageId, a: Option<Actor>): State
    requires p in s.frames
  {
    s.(frames := s.frames[p := s.frames[p].(latch := a)])
  }

  /** The image gate: on disk, and not yet modified in this checkpoint cycle. */
  predicate Due(s: State, p: PageId)
    requires p in s.frames
  {
    s.frames[p].onDisk && 0 < s.ckpt && s.frames[p].lsn < s.ckpt
  }

  function AppendImage(s: State, p: PageId): State
    requires p in s.frames
  {
    s.(wal := s.wal + [Image(p, s.frames[p].applied)], frames := s.frames[p := s.frames[p].(lsn := |s.wal| + 1)])
  }

  /** Record `at` applied to a page; its LSN is its position plus one, 0 being the invalid LSN. */
  function Applied(f: Frame, at: nat): Frame {
    f.(applied := f.applied + {at}, lsn := if f.lsn < at + 1 then at + 1 else f.lsn)
  }

  function AppendChange(s: State, p: PageId): State
    requires p in s.frames
  {
    s.(wal := s.wal + [Change(p)], frames := s.frames[p := Applied(s.frames[p], |s.wal|)])
  }

  function Pc(s: State, w: Actor): Writer {
    if w in s.writers then s.writers[w] else Away
  }

  /** One atomic step; what runs under one latch without touching the log or another page is one step. */
  datatype Step =
    | BeginSplit(left: PageId, parent: PageId, guarded: bool, imageLeft: bool, imageParent: bool)
    | PrepareAndCopy
    | SplitParent(grand: PageId, guarded: bool, image: bool)
    | Relatch(target: PageId, image: bool)
    | TouchRoot
    | DropRoot(image: bool)
    | TouchLeft
    | DropLeft(image: bool)
    | AppendCommit
    | ApplyParent
    | ApplyLeft
    | WriterLatch(w: Actor, p: PageId)
    | WriterCheck(w: Actor)
    | WriterImage(w: Actor)
    | WriterChange(w: Actor)
    | WriterDrop(w: Actor)
    | Checkpoint
    | Flush(p: PageId)

  predicate Enabled(s: State, step: Step) {
    match step
    case BeginSplit(left, parent, guarded, imageLeft, imageParent) =>
      // the pessimistic pass latches its path, emitting due images of unmarked pages, and refuses marked ones
      && s.split.Idle? && left != parent && Free(s, left) && Free(s, parent) && !s.frames[left].marked
      && !s.frames[parent].marked
      && (imageLeft ==> Due(s, left)) && (imageParent ==> guarded && Due(s, parent))
    case PrepareAndCopy => s.split.Latched? && HeldBy(s, s.split.left, COMMITTER)
    // a full parent is split first, under the latch held since the descent; its own parent is latched here, later than
    // the descent does, which only leaves the others more room
    case SplitParent(grand, guarded, image) =>
      && s.split.Copied? && s.split.guarded && grand != s.split.parent && Free(s, grand) && !s.frames[grand].marked
      && (image ==> guarded && Due(s, grand))
    // the half of the parent that has room for the downlink
    case Relatch(target, image) =>
      s.split.Waiting? && target != s.split.left && Free(s, target) && !s.frames[target].marked &&
      (image ==> Due(s, target))
    // a new root is pre-touched before the left page
    case TouchRoot => s.split.Copied? && !s.split.guarded && Free(s, s.split.parent)
    case DropRoot(image) =>
      s.split.RootTouching? && HeldBy(s, s.split.parent, COMMITTER) && (image ==> Due(s, s.split.parent))
    case TouchLeft => (if s.split.Copied? then s.split.guarded else s.split.RootTouched?) && Free(s, s.split.left)
    case DropLeft(image) => s.split.Touching? && HeldBy(s, s.split.left, COMMITTER) && (image ==> Due(s, s.split.left))
    case AppendCommit => s.split.Touched?
    case ApplyParent => s.split.Appended? &&
      if s.split.guarded then HeldBy(s, s.split.parent, COMMITTER) else Free(s, s.split.parent)
    case ApplyLeft => s.split.Linked? && Free(s, s.split.left)
    case WriterLatch(w, p) => w != COMMITTER && Pc(s, w) == Away && Free(s, p)
    case WriterCheck(w) => Pc(s, w).Holding? && Pc(s, w).page in s.frames
    case WriterImage(w) => Pc(s, w).Imaging? && Pc(s, w).page in s.frames
    case WriterChange(w) => Pc(s, w).Ready? && Pc(s, w).page in s.frames
    case WriterDrop(w) => Pc(s, w).Ready? && Pc(s, w).page in s.frames
    case Checkpoint => true
    case Flush(p) => Free(s, p)
  }

  function Do(s: State, step: Step): State
    requires Enabled(s, step)
  {
    match step
    case BeginSplit(left, parent, guarded, imageLeft, imageParent) =>
      var a := if imageParent then AppendImage(s, parent) else s;
      var b := if imageLeft then AppendImage(a, left) else a;
      var c := Latch(b, left, Some(COMMITTER));
      var d := if guarded then Latch(c, parent, Some(COMMITTER)) else c;
      d.(split := Latched(left, parent, guarded))
    case PrepareAndCopy =>
      // both records under the left latch, which is then dropped
      var left := s.split.left;
      var a := AppendChange(AppendChange(s, left), left);
      a.(frames := a.frames[left := a.frames[left].(marked := true, latch := None)],
        split := Copied(left, s.split.parent, s.split.guarded))
    case SplitParent(grand, guarded, image) =>
      var a := if image then AppendImage(s, grand) else s;
      var b := if guarded then Latch(a, grand, Some(COMMITTER)) else a;
      b.(split := Latched(s.split.parent, grand, guarded), below := s.below + [s.split.left])
    case Relatch(target, image) =>
      var a := if image then AppendImage(s, target) else s;
      Latch(a, target, Some(COMMITTER)).(split := Copied(s.split.left, target, true))
    case TouchRoot =>
      Latch(s, s.split.parent, Some(COMMITTER)).(split := RootTouching(s.split.left, s.split.parent, s.split.guarded))
    case DropRoot(image) =>
      var a := if image then AppendImage(s, s.split.parent) else s;
      Latch(a, s.split.parent, None).(split := RootTouched(s.split.left, s.split.parent, s.split.guarded))
    case TouchLeft =>
      Latch(s, s.split.left, Some(COMMITTER)).(split := Touching(s.split.left, s.split.parent, s.split.guarded))
    case DropLeft(image) =>
      var a := if image then AppendImage(s, s.split.left) else s;
      Latch(a, s.split.left, None).(split := Touched(s.split.left, s.split.parent, s.split.guarded))
    case AppendCommit =>
      s.(wal := s.wal + [Commit(s.split.left, s.split.parent)],
        split := Appended(s.split.left, s.split.parent, s.split.guarded, |s.wal|))
    case ApplyParent =>
      // the downlink, under the latch held since the descent; a new root is latched only for the write
      var p := s.split.parent;
      s.(frames := s.frames[p := Applied(s.frames[p], s.split.at).(latch := None)],
        split := Linked(s.split.left, p, s.split.guarded, s.split.at))
    case ApplyLeft =>
      // the mark comes off under a fresh latch taken without an image
      var p := s.split.left;
      s.(frames := s.frames[p := Applied(s.frames[p], s.split.at).(marked := false)],
        split := if s.below == [] then Idle else Waiting(s.below[|s.below| - 1]),
        below := if s.below == [] then [] else s.below[..|s.below| - 1])
    case WriterLatch(w, p) => Latch(s, p, Some(w)).(writers := s.writers[w := Holding(p)])
    case WriterCheck(w) =>
      // a marked page goes on without an image, an unmarked one through the gate
      var p := Pc(s, w).page;
      s.(writers := s.writers[w := if !s.frames[p].marked && Due(s, p) then Imaging(p) else Ready(p)])
    case WriterImage(w) => AppendImage(s, Pc(s, w).page).(writers := s.writers[w := Ready(Pc(s, w).page)])
    case WriterChange(w) => AppendChange(s, Pc(s, w).page)
    case WriterDrop(w) => Latch(s, Pc(s, w).page, None).(writers := s.writers[w := Away])
    case Checkpoint => s.(ckpt := |s.wal| + 1)
    case Flush(p) => s.(frames := s.frames[p := s.frames[p].(onDisk := true)])
  }

  ghost predicate Init(s: State) {
    && s.wal == [] && s.split.Idle? && s.below == [] && s.ckpt == 0
    && (forall p :: p in s.frames ==>
       s.frames[p].latch.None? && !s.frames[p].marked && s.frames[p].applied == {} && s.frames[p].lsn == 0)
    && (forall w :: w in s.writers ==> s.writers[w] == Away)
  }

  /** The state after a sequence of steps, if each was enabled when it was taken. */
  function Run(s: State, steps: seq<Step>): Option<State>
    decreases |steps|
  {
    if steps == [] then Some(s)
    else if Enabled(s, steps[0]) then Run(Do(s, steps[0]), steps[1..])
    else None
  }

  /** No step of the run promotes a root. */
  ghost predicate AllGuarded(steps: seq<Step>) {
    forall i :: 0 <= i < |steps| && (steps[i].BeginSplit? || steps[i].SplitParent?) ==> steps[i].guarded
  }

  // ---------------------------------------------------------------- the property and its invariant

  predicate Touches(r: Rec, p: PageId) {
    r.Commit? && (r.left == p || r.parent == p)
  }

  /** No image placed after a Commit record, of a page that Commit writes, lacks its effect. */
  ghost predicate ImagesKeepCommits(wal: seq<Rec>) {
    forall k, j :: 0 <= k < j < |wal| && wal[j].Image? && Touches(wal[k], wal[j].page) ==> k in wal[j].applied
  }

  /** Commit record `k` still has to be written to page `p`. */
  predicate Owed(s: State, k: nat, p: PageId) {
    || (s.split.Appended? && k == s.split.at && (p == s.split.left || p == s.split.parent))
    || (s.split.Linked? && k == s.split.at && p == s.split.left)
  }

  /** What every step keeps, root promotions included. */
  ghost predicate Inv(s: State) {
    && (forall k, p :: 0 <= k < |s.wal| && Touches(s.wal[k], p) && !Owed(s, k, p) ==>
       p in s.frames && k in s.frames[p].applied)
    && (forall p, k :: p in s.frames && k in s.frames[p].applied ==> k < |s.wal|)
    && SplitOk(s) && WritersOk(s)
  }

  predicate Splitting(s: State) {
    !s.split.Idle? && !s.split.Waiting?
  }

  ghost predicate SplitOk(s: State) {
    && (s.split.Appended? || s.split.Linked? ==>
       s.split.at < |s.wal| && s.wal[s.split.at] == Commit(s.split.left, s.split.parent))
    && (Splitting(s) ==> s.split.left != s.split.parent && s.split.left in s.frames && s.split.parent in s.frames)
    && (s.split.Appended? ==> s.split.at !in s.frames[s.split.parent].applied)
    && (Splitting(s) ==> s.frames[s.split.left].marked == !s.split.Latched?)
    && (Splitting(s) && !s.split.Linked? && s.split.guarded ==>
       HeldBy(s, s.split.parent, COMMITTER) && !s.frames[s.split.parent].marked)
    && (s.split.Latched? || s.split.Touching? ==> HeldBy(s, s.split.left, COMMITTER))
    && (s.split.RootTouching? ==> !s.split.guarded && HeldBy(s, s.split.parent, COMMITTER))
    && WaitingOk(s)
  }

  /** The splits below the current one are copied, and theirs are other pages. */
  ghost predicate WaitingOk(s: State) {
    && (s.split.Idle? ==> s.below == [])
    && (s.split.Waiting? ==> s.split.left in s.frames && s.frames[s.split.left].marked)
    && (!s.split.Idle? ==> s.split.left !in s.below)
    && (forall i :: 0 <= i < |s.below| ==> s.below[i] in s.frames && s.frames[s.below[i]].marked)
    && (forall i, j :: 0 <= i < j < |s.below| ==> s.below[i] != s.below[j])
  }

  ghost predicate WritersOk(s: State) {
    && (forall w :: Pc(s, w) != Away ==> w != COMMITTER && HeldBy(s, s.writers[w].page, w))
    && (forall w :: Pc(s, w).Imaging? ==> HeldBy(s, s.writers[w].page, w) && !s.frames[s.writers[w].page].marked)
  }

  /** A writer images the new root of a promotion between the append of its Commit and the write of its downlink. */
  predicate Escapes(s: State, step: Step) {
    && step.WriterImage? && s.split.Appended? && !s.split.guarded
    && Pc(s, step.w).Imaging? && Pc(s, step.w).page == s.split.parent
  }

  /** A step loses no Commit to an image unless it escapes. */
  ghost predicate Sound(s: State, step: Step)
    requires Enabled(s, step)
  {
    var s' := Do(s, step);
    Inv(s') && s.wal <= s'.wal && (ImagesKeepCommits(s.wal) ==> (ImagesKeepCommits(s'.wal) <==> !Escapes(s, step)))
  }

  lemma InvInit(s: State)
    requires Init(s)
    ensures Inv(s)
  {
  }

  /** Nothing is owed to `p`: every Commit that writes it has. */
  ghost predicate Settled(s: State, p: PageId) {
    forall k :: 0 <= k < |s.wal| ==> !Owed(s, k, p)
  }

  lemma ImageInv(s: State, p: PageId)
    requires Inv(s) && p in s.frames
    ensures Inv(AppendImage(s, p))
  {
  }

  /** A settled page may be imaged at any time. */
  lemma ImageKeeps(s: State, p: PageId)
    requires Inv(s) && p in s.frames && Settled(s, p)
    ensures ImagesKeepCommits(s.wal) ==> ImagesKeepCommits(AppendImage(s, p).wal)
  {
  }

  lemma ChangeKeeps(s: State, p: PageId)
    requires Inv(s) && p in s.frames
    ensures Inv(AppendChange(s, p))
    ensures ImagesKeepCommits(s.wal) ==> ImagesKeepCommits(AppendChange(s, p).wal)
  {
  }

  lemma LatchesKeep(s: State, left: PageId, parent: PageId, guarded: bool)
    requires Inv(s) && s.split.Idle? && left != parent && Free(s, left) && Free(s, parent)
    requires !s.frames[left].marked && !s.frames[parent].marked
    ensures var c := Latch(s, left, Some(COMMITTER));
      Inv((if guarded then Latch(c, parent, Some(COMMITTER)) else c).(split := Latched(left, parent, guarded)))
  {
  }

  lemma BeginKeeps(s: State, left: PageId, parent: PageId, guarded: bool, imageLeft: bool, imageParent: bool)
    requires Inv(s) && Enabled(s, BeginSplit(left, parent, guarded, imageLeft, imageParent))
    ensures Sound(s, BeginSplit(left, parent, guarded, imageLeft, imageParent))
  {
    hide Inv, ImagesKeepCommits;
    if imageParent { ImageInv(s, parent); ImageKeeps(s, parent); }
    var a := if imageParent then AppendImage(s, parent) else s;
    if imageLeft { ImageInv(a, left); ImageKeeps(a, left); }
    var b := if imageLeft then AppendImage(a, left) else a;
    assert b.split.Idle? && Free(b, left) && Free(b, parent);
    LatchesKeep(b, left, parent, guarded);
  }

  lemma PushKeeps(s: State, grand: PageId, guarded: bool)
    requires Inv(s) && s.split.Copied? && s.split.guarded && grand != s.split.parent
    requires Free(s, grand) && !s.frames[grand].marked
    ensures Inv((if guarded then Latch(s, grand, Some(COMMITTER)) else s).(
                split := Latched(s.split.parent, grand, guarded), below := s.below + [s.split.left]))
  {
  }

  lemma ParentSplitKeeps(s: State, grand: PageId, guarded: bool, image: bool)
    requires Inv(s) && Enabled(s, SplitParent(grand, guarded, image))
    ensures Sound(s, SplitParent(grand, guarded, image))
  {
    hide Inv, ImagesKeepCommits;
    if image { ImageInv(s, grand); ImageKeeps(s, grand); }
    PushKeeps(if image then AppendImage(s, grand) else s, grand, guarded);
  }

  lemma PopKeeps(s: State, target: PageId)
    requires Inv(s) && s.split.Waiting? && target != s.split.left && Free(s, target) && !s.frames[target].marked
    ensures Inv(Latch(s, target, Some(COMMITTER)).(split := Copied(s.split.left, target, true)))
  {
  }

  lemma RelatchKeeps(s: State, target: PageId, image: bool)
    requires Inv(s) && Enabled(s, Relatch(target, image))
    ensures Sound(s, Relatch(target, image))
  {
    hide Inv, ImagesKeepCommits;
    if image { ImageInv(s, target); ImageKeeps(s, target); }
    PopKeeps(if image then AppendImage(s, target) else s, target);
  }

  /** The mark goes on and the latch off. */
  lemma MarkKeeps(s: State)
    requires Inv(s) && s.split.Latched? && HeldBy(s, s.split.left, COMMITTER)
    ensures var left := s.split.left;
      Inv(s.(frames := s.frames[left := s.frames[left].(marked := true, latch := None)],
             split := Copied(left, s.split.parent, s.split.guarded)))
  {
  }

  lemma CopyKeeps(s: State)
    requires Inv(s) && Enabled(s, PrepareAndCopy)
    ensures Sound(s, PrepareAndCopy)
  {
    hide Inv, ImagesKeepCommits;
    var a := AppendChange(s, s.split.left);
    ChangeKeeps(s, s.split.left);
    ChangeKeeps(a, s.split.left);
    MarkKeeps(AppendChange(a, s.split.left));
  }

  lemma RootDropKeeps(s: State, image: bool)
    requires Inv(s) && Enabled(s, DropRoot(image))
    ensures Sound(s, DropRoot(image))
  {
    if image { ImageInv(s, s.split.parent); ImageKeeps(s, s.split.parent); }
  }

  lemma DropKeeps(s: State, image: bool)
    requires Inv(s) && Enabled(s, DropLeft(image))
    ensures Sound(s, DropLeft(image))
  {
    if image { ImageInv(s, s.split.left); ImageKeeps(s, s.split.left); }
  }

  lemma AppendKeeps(s: State)
    requires Inv(s) && Enabled(s, AppendCommit)
    ensures Sound(s, AppendCommit)
  {
  }

  lemma ParentKeeps(s: State)
    requires Inv(s) && Enabled(s, ApplyParent)
    ensures Sound(s, ApplyParent)
  {
    hide ImagesKeepCommits;
  }

  lemma LeftKeeps(s: State)
    requires Inv(s) && Enabled(s, ApplyLeft)
    ensures Sound(s, ApplyLeft)
  {
    hide ImagesKeepCommits;
  }

  /** The page a writer is about to image is unmarked and latched by the writer. The left page in flight is marked and
      a guarded parent is latched by the splitting thread, so only an unguarded parent can be owed its Commit. */
  lemma WriterKeeps(s: State, w: Actor)
    requires Inv(s) && Enabled(s, WriterImage(w))
    ensures Sound(s, WriterImage(w))
  {
    var p, s' := Pc(s, w).page, Do(s, WriterImage(w));
    assert HeldBy(s, p, w) && !s.frames[p].marked && w != COMMITTER;
    ImageInv(s, p);
    WriterInv(s, w);
    if Escapes(s, WriterImage(w)) {
      assert s'.wal[|s.wal|] == Image(p, s.frames[p].applied) && s'.wal[s.split.at] == s.wal[s.split.at];
      assert Touches(s'.wal[s.split.at], p);
    } else {
      assert Settled(s, p);
      ImageKeeps(s, p);
    }
  }

  lemma WriterInv(s: State, w: Actor)
    requires Inv(s) && Enabled(s, WriterImage(w)) && Inv(AppendImage(s, Pc(s, w).page))
    ensures Inv(Do(s, WriterImage(w)))
  {
    hide ImagesKeepCommits, Touches;
  }

  lemma TouchKeeps(s: State, step: Step)
    requires Inv(s) && Enabled(s, step) && (step.TouchRoot? || step.TouchLeft?)
    ensures Sound(s, step)
  {
    hide ImagesKeepCommits, Touches;
  }

  lemma WriterLatchKeeps(s: State, w: Actor, p: PageId)
    requires Inv(s) && Enabled(s, WriterLatch(w, p))
    ensures Sound(s, WriterLatch(w, p))
  {
    hide ImagesKeepCommits, Touches;
  }

  lemma WriterCheckKeeps(s: State, w: Actor)
    requires Inv(s) && Enabled(s, WriterCheck(w))
    ensures Sound(s, WriterCheck(w))
  {
    hide ImagesKeepCommits, Touches;
  }

  lemma WriterDropKeeps(s: State, w: Actor)
    requires Inv(s) && Enabled(s, WriterDrop(w))
    ensures Sound(s, WriterDrop(w))
  {
    hide ImagesKeepCommits, Touches;
  }

  lemma PoolKeeps(s: State, step: Step)
    requires Inv(s) && Enabled(s, step) && (step.Checkpoint? || step.Flush?)
    ensures Sound(s, step)
  {
    hide ImagesKeepCommits, Touches;
  }

  lemma StepKeeps(s: State, step: Step)
    requires Inv(s) && Enabled(s, step)
    ensures Sound(s, step)
  {
    hide Inv, ImagesKeepCommits;
    match step
    case BeginSplit(left, parent, guarded, imageLeft, imageParent) => BeginKeeps(s, left, parent, guarded, imageLeft,
      imageParent);
    case PrepareAndCopy => CopyKeeps(s);
    case SplitParent(grand, guarded, image) => ParentSplitKeeps(s, grand, guarded, image);
    case Relatch(target, image) => RelatchKeeps(s, target, image);
    case DropLeft(image) => DropKeeps(s, image);
    case WriterImage(w) => WriterKeeps(s, w);
    case WriterChange(w) => ChangeKeeps(s, Pc(s, w).page);
    case AppendCommit => AppendKeeps(s);
    case ApplyParent => ParentKeeps(s);
    case ApplyLeft => LeftKeeps(s);
    case TouchRoot => TouchKeeps(s, step);
    case DropRoot(image) => RootDropKeeps(s, image);
    case TouchLeft => TouchKeeps(s, step);
    case WriterLatch(w, p) => WriterLatchKeeps(s, w, p);
    case WriterCheck(w) => WriterCheckKeeps(s, w);
    case WriterDrop(w) => WriterDropKeeps(s, w);
    case Checkpoint => PoolKeeps(s, step);
    case Flush(_) => PoolKeeps(s, step);
  }

  /** Some step of the run escapes. */
  ghost predicate RunEscapes(s: State, steps: seq<Step>)
    decreases |steps|
  {
    steps != [] && Enabled(s, steps[0]) && (Escapes(s, steps[0]) || RunEscapes(Do(s, steps[0]), steps[1..]))
  }

  /** Once an image lacks a Commit it does in every longer log. */
  lemma LostForGood(a: seq<Rec>, b: seq<Rec>)
    requires a <= b && ImagesKeepCommits(b)
    ensures ImagesKeepCommits(a)
  {
    forall k, j | 0 <= k < j < |a| && a[j].Image? && Touches(a[k], a[j].page) ensures k in a[j].applied {
      assert a[k] == b[k] && a[j] == b[j];
    }
  }

  lemma {:induction false} LogGrows(s: State, steps: seq<Step>)
    requires Inv(s) && Run(s, steps).Some?
    ensures s.wal <= Run(s, steps).value.wal
    decreases |steps|
  {
    if steps != [] {
      hide Inv, Enabled, Do;
      StepKeeps(s, steps[0]);
      LogGrows(Do(s, steps[0]), steps[1..]);
    }
  }

  lemma {:induction false} RunKeeps(s: State, steps: seq<Step>)
    requires Inv(s) && ImagesKeepCommits(s.wal) && Run(s, steps).Some?
    ensures ImagesKeepCommits(Run(s, steps).value.wal) <==> !RunEscapes(s, steps)
    decreases |steps|
  {
    if steps != [] {
      hide Inv, Enabled, Do, Escapes, ImagesKeepCommits;
      StepKeeps(s, steps[0]);
      var t := Do(s, steps[0]);
      if Escapes(s, steps[0]) {
        LogGrows(t, steps[1..]);
        if ImagesKeepCommits(Run(s, steps).value.wal) { LostForGood(t.wal, Run(s, steps).value.wal); }
      } else {
        RunKeeps(t, steps[1..]);
      }
    }
  }

  /** In every interleaving, an image placed after a Commit of its page lacks that Commit exactly if some writer imaged
      the new root of a promotion between the append of its Commit and the write of its downlink. */
  lemma OnlyNewRootsEscape(s: State, steps: seq<Step>)
    requires Init(s) && Run(s, steps).Some?
    ensures ImagesKeepCommits(Run(s, steps).value.wal) <==> !RunEscapes(s, steps)
  {
    InvInit(s);
    RunKeeps(s, steps);
  }

  lemma {:induction false} GuardedNeverEscapes(s: State, steps: seq<Step>)
    requires AllGuarded(steps) && (Splitting(s) ==> s.split.guarded)
    ensures !RunEscapes(s, steps)
    decreases |steps|
  {
    if steps != [] && Enabled(s, steps[0]) { GuardedNeverEscapes(Do(s, steps[0]), steps[1..]); }
  }

  /** In every interleaving without a root promotion, no image of a Commit's pages placed after it lacks its effect. */
  lemma NoImageLacksACommit(s: State, steps: seq<Step>)
    requires Init(s) && AllGuarded(steps) && Run(s, steps).Some?
    ensures ImagesKeepCommits(Run(s, steps).value.wal)
  {
    OnlyNewRootsEscape(s, steps);
    GuardedNeverEscapes(s, steps);
  }

  // ---------------------------------------------------------------- what that is worth on replay

  datatype Cell = Cell(applied: set<nat>, lsn: nat)

  /** Redo of one page over the first `n` records: images unconditionally, everything else under the LSN guard. */
  function Replay(wal: seq<Rec>, p: PageId, n: nat): Cell
    requires n <= |wal|
  {
    if n == 0 then Cell({}, 0) else
      var c := Replay(wal, p, n - 1);
      match wal[n - 1]
      case Image(q, applied) => if q == p then Cell(applied, n) else c
      case Commit(left, parent) => if (p == left || p == parent) && c.lsn < n then Cell(c.applied + {n - 1}, n) else c
      case Change(q) => if q == p && c.lsn < n then Cell(c.applied + {n - 1}, n) else c
  }

  /** Every Commit of the log survives replay on both its pages. */
  lemma {:induction false} ReplayKeepsCommits(wal: seq<Rec>, p: PageId, n: nat)
    requires ImagesKeepCommits(wal) && n <= |wal|
    ensures Replay(wal, p, n).lsn <= n
    ensures forall k :: 0 <= k < n && Touches(wal[k], p) ==> k in Replay(wal, p, n).applied
    decreases n
  {
    if n > 0 { ReplayKeepsCommits(wal, p, n - 1); }
  }

  // ---------------------------------------------------------------- a root promotion

  /** An old root with an image on disk, and a page that will be the new root and has none yet. */
  function Start(): State {
    State(map[1 := Frame(false, {}, 0, true, None), 2 := Frame(false, {}, 0, false, None)], [], 0, Idle, [], map[])
  }

  lemma Unroll(s: State, steps: seq<Step>)
    requires steps != [] && Enabled(s, steps[0])
    ensures Run(s, steps) == Run(Do(s, steps[0]), steps[1..])
  {
  }

  lemma RunFour(s: State, a: Step, b: Step, c: Step, d: Step)
    requires Enabled(s, a) && Enabled(Do(s, a), b) && Enabled(Do(Do(s, a), b), c) && Enabled(Do(Do(Do(s, a), b), c), d)
    ensures Run(s, [a, b, c, d]) == Some(Do(Do(Do(Do(s, a), b), c), d))
  {
    hide Enabled, Do;
    Unroll(s, [a, b, c, d]);
    Unroll(Do(s, a), [b, c, d]);
    Unroll(Do(Do(s, a), b), [c, d]);
    Unroll(Do(Do(Do(s, a), b), c), [d]);
    assert [a, b, c, d][1..] == [b, c, d] && [b, c, d][1..] == [c, d] && [c, d][1..] == [d] && [d][1..] == [];
    assert Run(Do(Do(Do(Do(s, a), b), c), d), []) == Some(Do(Do(Do(Do(s, a), b), c), d));
  }

  /** The old root is split and the new one pre-touched. */
  lemma RootMade() returns (s: State)
    ensures Run(Start(), [BeginSplit(1, 2, false, false, false), PrepareAndCopy, TouchRoot, DropRoot(false)]) == Some(s)
    ensures s.wal == [Change(1), Change(1)] && s.writers == map[] && s.split == RootTouched(1, 2, false)
    ensures Free(s, 1) && 2 in s.frames && s.frames[2] == Frame(false, {}, 0, false, None)
  {
    hide Run;
    RunFour(Start(), BeginSplit(1, 2, false, false, false), PrepareAndCopy, TouchRoot, DropRoot(false));
    s := Do(Do(Do(Do(Start(), BeginSplit(1, 2, false, false, false)), PrepareAndCopy), TouchRoot), DropRoot(false));
  }

  /** The Commit is appended, and the new root reaches the disk before its downlink is written. */
  lemma CommitLogged(s: State) returns (t: State)
    requires s.wal == [Change(1), Change(1)] && s.writers == map[] && s.split == RootTouched(1, 2, false)
    requires Free(s, 1) && 2 in s.frames && s.frames[2] == Frame(false, {}, 0, false, None)
    ensures Run(s, [TouchLeft, DropLeft(false), AppendCommit, Flush(2)]) == Some(t)
    ensures t.wal == [Change(1), Change(1), Commit(1, 2)] && t.writers == map[]
    ensures 2 in t.frames && t.frames[2] == Frame(false, {}, 0, true, None)
  {
    hide Run;
    RunFour(s, TouchLeft, DropLeft(false), AppendCommit, Flush(2));
    t := Do(Do(Do(Do(s, TouchLeft), DropLeft(false)), AppendCommit), Flush(2));
  }

  /** A checkpoint begins and a write descent images the new root. */
  lemma ImageOfNewRoot(s: State) returns (t: State)
    requires s.wal == [Change(1), Change(1), Commit(1, 2)] && s.writers == map[]
    requires 2 in s.frames && s.frames[2] == Frame(false, {}, 0, true, None)
    ensures Run(s, [Checkpoint, WriterLatch(5, 2), WriterCheck(5), WriterImage(5)]) == Some(t)
    ensures !ImagesKeepCommits(t.wal)
  {
    hide Run;
    RunFour(s, Checkpoint, WriterLatch(5, 2), WriterCheck(5), WriterImage(5));
    t := Do(Do(Do(Do(s, Checkpoint), WriterLatch(5, 2)), WriterCheck(5)), WriterImage(5));
    assert t.wal[3] == Image(2, {}) && Touches(t.wal[2], 2);
  }

  /** A new root is unlatched and unmarked between append and write; a write descent may image it there. */
  lemma RootPromotionEscapes() returns (steps: seq<Step>)
    ensures Init(Start()) && Run(Start(), steps).Some? && !ImagesKeepCommits(Run(Start(), steps).value.wal)
  {
    hide Run, Do, Enabled;
    var s := RootMade();
    var t := CommitLogged(s);
    var u := ImageOfNewRoot(t);
    var a := [BeginSplit(1, 2, false, false, false), PrepareAndCopy, TouchRoot, DropRoot(false)];
    var b := [TouchLeft, DropLeft(false), AppendCommit, Flush(2)];
    var c := [Checkpoint, WriterLatch(5, 2), WriterCheck(5), WriterImage(5)];
    RunConcat(Start(), a, b);
    RunConcat(Start(), a + b, c);
    steps := a + b + c;
  }

  lemma {:induction false} RunConcat(s: State, a: seq<Step>, b: seq<Step>)
    requires Run(s, a).Some?
    ensures Run(s, a + b) == Run(Run(s, a).value, b)
    decreases |a|
  {
    if a == [] {
      assert a + b == b;
    } else {
      assert (a + b)[1..] == a[1..] + b;
      RunConcat(Do(s, a[0]), a[1..], b);
    }
  }
}
