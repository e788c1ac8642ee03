/** Who writes the log that recovery replays: the index takes every page of a split from the shared allocator, and only
    heap pages are ever given back. So no log has a page as the right page of two splits, which is what Copy redo
    needs to find the moved entries again. */
module SplitWriter {
  import opened Entries
  import opened Layout
  import opened BtPages
  import opened BtLog
  import opened Chains
  import opened SplitRedo

  /** The log and its pages, the pages handed to the tree and to the heap, the allocator, the splits whose Copy is
      still to come, and how much of the log each page on disk reflects. */
  datatype Writer = Writer(wal: seq<Record>, pages: Pages, tree: set<PageId>, heap: set<PageId>, freelist: seq<PageId>,
                           fileEnd: PageId, copying: map<PageId, PageId>, durable: map<PageId, nat>)

  datatype Action =
    | Log(rec: Record)
    | NewPage(image: Page)
    | Split(left: PageId)
    | Move(left: PageId, start: nat)
    | HeapTake
    | HeapFree(page: PageId)
    | Flush(page: PageId)

  const START: Writer := Writer([], map[], {}, {}, [], 1, map[], map[])

  /** The allocator: a recycled id if there is one, else the end of the file. */
  function NextId(w: Writer): PageId {
    if w.freelist == [] then w.fileEnd else w.freelist[|w.freelist| - 1]
  }

  function Take(w: Writer): Writer {
    if w.freelist == [] then w.(fileEnd := w.fileEnd + 1) else w.(freelist := w.freelist[..|w.freelist| - 1])
  }

  function Appended(w: Writer, rec: Record): Writer
    requires Allowed(rec, LsnOf(|w.wal|), w.pages)
  {
    w.(wal := w.wal + [rec], pages := Do(rec, LsnOf(|w.wal|), w.pages))
  }

  function RightImage(w: Writer, left: PageId): Record
    requires At(w.pages, left).Page?
  {
    Image(NextId(w), InitRightPage(left, At(w.pages, left).next, At(w.pages, left).level))
  }

  function PrepareRecord(w: Writer, left: PageId): Record
    requires At(w.pages, left).Page? && At(w.pages, left).entries != []
  {
    var pg := At(w.pages, left);
    Prepare(left, NextId(w), pg.level, pg.next, pg.entries[|pg.entries| - 1].key)
  }

  /** Entry and Commit records and page images of the tree's own pages; a new page imaged; a split's right page imaged
      and prepared; its entries copied, once; and what the heap does with the same allocator.
      Any page may be flushed at any time, and a Copy flushes the right page before anything else can happen. */
  predicate Enabled(w: Writer, a: Action) {
    match a
    case Log(rec) =>
      && !rec.Prepare? && !rec.Copy? && Allowed(rec, LsnOf(|w.wal|), w.pages) && (rec.Image? ==> rec.page in w.tree)
    case NewPage(image) => Allowed(Image(NextId(w), image), LsnOf(|w.wal|), w.pages)
    case Split(left) =>
      && left in w.tree && At(w.pages, left).Page? && |At(w.pages, left).entries| >= 2
      && !At(w.pages, left).flags.incomplete
      && left != NextId(w)
    case Move(left, start) =>
      left in w.copying &&
        Allowed(Copy(left, w.copying[left], start, PdLsn(At(w.pages, left))), LsnOf(|w.wal|), w.pages)
    case HeapTake => true
    case HeapFree(page) => page in w.heap
    case Flush(_) => true
  }

  lemma SplitAllowed(w: Writer, left: PageId)
    requires Enabled(w, Split(left))
    ensures Allowed(RightImage(w, left), LsnOf(|w.wal|), w.pages)
    ensures var x := Appended(w, RightImage(w, left)); Allowed(PrepareRecord(w, left), LsnOf(|x.wal|), x.pages)
  {
  }

  function Act(w: Writer, a: Action): Writer
    requires Enabled(w, a)
  {
    match a
    case Log(rec) => Appended(w, rec)
    case NewPage(image) =>
      var id := NextId(w);
      Take(Appended(w, Image(id, image))).(tree := w.tree + {id})
    case Split(left) =>
      SplitAllowed(w, left);
      var id := NextId(w);
      var x := Appended(Appended(w, RightImage(w, left)), PrepareRecord(w, left));
      Take(x).(tree := w.tree + {id}, copying := w.copying[left := id])
    case Move(left, start) =>
      Appended(w, Copy(left, w.copying[left], start, PdLsn(At(w.pages, left)))).(
        copying := w.copying - {left}, durable := w.durable[w.copying[left] := |w.wal| + 1])
    case HeapTake => Take(w).(heap := w.heap + {NextId(w)})
    case HeapFree(page) => w.(heap := w.heap - {page}, freelist := w.freelist + [page])
    case Flush(page) => w.(durable := w.durable[page := |w.wal|])
  }

  function Perform(w: Writer, actions: seq<Action>): Option<Writer>
    decreases |actions|
  {
    if actions == [] then Some(w)
    else if !Enabled(w, actions[0]) then None
    else Perform(Act(w, actions[0]), actions[1..])
  }

  // ---------------------------------------------------------------- what every action keeps

  ghost predicate AllocatorOk(w: Writer) {
    && NoDup(w.freelist) && w.tree !! w.heap
    && (forall p :: p in w.tree || p in w.heap || p in w.freelist ==> p < w.fileEnd)
    && (forall p :: p in w.freelist ==> p !in w.tree && p !in w.heap)
  }

  predicate CopiedTo(wal: seq<Record>, p: PageId) {
    exists k :: 0 <= k < |wal| && wal[k].Copy? && wal[k].right == p
  }

  /** A page that entries were copied to belongs to the tree and awaits no other Copy. */
  ghost predicate CopiesOk(w: Writer) {
    && RecycledOnce(w.wal, 0)
    && (forall p :: CopiedTo(w.wal, p) ==> p in w.tree)
    && (forall l :: l in w.copying ==> w.copying[l] in w.tree && !CopiedTo(w.wal, w.copying[l]))
    && (forall l, m :: l in w.copying && m in w.copying && l != m ==> w.copying[l] != w.copying[m])
  }

  function Durable(durable: map<PageId, nat>, p: PageId): nat {
    if p in durable then durable[p] else 0
  }

  /** Nothing is durable ahead of the log, and every Copy's right page is durable past it. */
  ghost predicate FlushedOk(wal: seq<Record>, durable: map<PageId, nat>) {
    && (forall p :: Durable(durable, p) <= |wal|)
    && (forall k :: 0 <= k < |wal| && wal[k].Copy? ==> k < Durable(durable, wal[k].right))
  }

  lemma QuietFlushed(wal: seq<Record>, durable: map<PageId, nat>, rec: Record)
    requires FlushedOk(wal, durable) && !rec.Copy?
    ensures FlushedOk(wal + [rec], durable)
  {
    var more := wal + [rec];
    forall p ensures Durable(durable, p) <= |more| { assert Durable(durable, p) <= |wal|; }
  }

  lemma CopyFlushed(wal: seq<Record>, durable: map<PageId, nat>, rec: Record)
    requires FlushedOk(wal, durable) && rec.Copy?
    ensures FlushedOk(wal + [rec], durable[rec.right := |wal| + 1])
  {
    var more, now := wal + [rec], durable[rec.right := |wal| + 1];
    forall p ensures Durable(durable, p) <= Durable(now, p) <= |more| { assert Durable(durable, p) <= |wal|; }
    forall k | 0 <= k < |more| && more[k].Copy? ensures k < Durable(now, more[k].right) {
      if k < |wal| { assert more[k] == wal[k] && Durable(durable, wal[k].right) <= Durable(now, wal[k].right); }
    }
  }

  lemma PageFlushed(wal: seq<Record>, durable: map<PageId, nat>, p: PageId)
    requires FlushedOk(wal, durable)
    ensures FlushedOk(wal, durable[p := |wal|])
  {
    var now := durable[p := |wal|];
    forall q ensures Durable(durable, q) <= Durable(now, q) <= |wal| { assert Durable(durable, q) <= |wal|; }
  }

  ghost predicate Inv(w: Writer) {
    AllocatorOk(w) && CopiesOk(w) && FlushedOk(w.wal, w.durable) && Run(w.wal, |w.wal|) == Some(w.pages)
  }

  lemma NextIsFresh(w: Writer)
    requires AllocatorOk(w)
    ensures NextId(w) !in w.tree && NextId(w) !in w.heap && NextId(w) < Take(w).fileEnd
    ensures NextId(w) !in Take(w).freelist
    ensures forall p :: p in Take(w).freelist ==> p in w.freelist
  {
  }

  lemma AppendRuns(w: Writer, rec: Record)
    requires Run(w.wal, |w.wal|) == Some(w.pages) && Allowed(rec, LsnOf(|w.wal|), w.pages)
    ensures var x := Appended(w, rec); Run(x.wal, |x.wal|) == Some(x.pages)
  {
    RunAppend(w.wal, rec, w.pages);
  }

  /** A record that copies nothing. */
  lemma QuietCopies(wal: seq<Record>, rec: Record)
    requires !rec.Copy?
    ensures forall p :: CopiedTo(wal + [rec], p) <==> CopiedTo(wal, p)
    ensures RecycledOnce(wal, 0) ==> RecycledOnce(wal + [rec], 0)
  {
    var more := wal + [rec];
    forall p ensures CopiedTo(more, p) <==> CopiedTo(wal, p) {
      if k :| 0 <= k < |wal| && wal[k].Copy? && wal[k].right == p { assert more[k] == wal[k]; }
    }
  }

  lemma NewCopy(wal: seq<Record>, rec: Record)
    requires rec.Copy? && RecycledOnce(wal, 0) && !CopiedTo(wal, rec.right)
    ensures RecycledOnce(wal + [rec], 0)
    ensures forall p :: CopiedTo(wal + [rec], p) <==> CopiedTo(wal, p) || p == rec.right
  {
    var more := wal + [rec];
    forall p ensures CopiedTo(more, p) <==> CopiedTo(wal, p) || p == rec.right {
      if k :| 0 <= k < |wal| && wal[k].Copy? && wal[k].right == p { assert more[k] == wal[k]; }
      assert more[|wal|] == rec;
    }
    forall j, k | 0 <= j < k < |more| && more[j].Copy? && more[k].Copy? ensures more[j].right != more[k].right {
      assert more[j] == wal[j] && CopiedTo(wal, wal[j].right);
    }
  }

  lemma LogKeeps(w: Writer, rec: Record)
    requires Inv(w) && Enabled(w, Log(rec))
    ensures Inv(Act(w, Log(rec)))
  {
    AppendRuns(w, rec);
    hide RecycledOnce, CopiedTo, Run, Allowed, Do, FlushedOk;
    QuietCopies(w.wal, rec);
    QuietFlushed(w.wal, w.durable, rec);
  }

  lemma NewPageKeeps(w: Writer, image: Page)
    requires Inv(w) && Enabled(w, NewPage(image))
    ensures Inv(Act(w, NewPage(image)))
  {
    AppendRuns(w, Image(NextId(w), image));
    NextIsFresh(w);
    hide RecycledOnce, CopiedTo, Run, Allowed, Do, FlushedOk;
    QuietCopies(w.wal, Image(NextId(w), image));
    QuietFlushed(w.wal, w.durable, Image(NextId(w), image));
  }

  /** The allocator after a page went to the tree. */
  lemma TakenOk(w: Writer, x: Writer)
    requires AllocatorOk(w) && x.freelist == Take(w).freelist && x.fileEnd == Take(w).fileEnd
    requires x.tree == w.tree + {NextId(w)} && x.heap == w.heap
    ensures AllocatorOk(x)
  {
    NextIsFresh(w);
  }

  lemma SplitKeeps(w: Writer, left: PageId)
    requires Inv(w) && Enabled(w, Split(left))
    ensures Inv(Act(w, Split(left)))
  {
    hide RecycledOnce, CopiedTo, Run, Allowed, Do, FlushedOk, AllocatorOk, InitRightPage, At, NoDup;
    SplitAllowed(w, left);
    NextIsFresh(w);
    var x := Appended(w, RightImage(w, left));
    AppendRuns(w, RightImage(w, left));
    AppendRuns(x, PrepareRecord(w, left));
    QuietCopies(w.wal, RightImage(w, left));
    QuietCopies(x.wal, PrepareRecord(w, left));
    QuietFlushed(w.wal, w.durable, RightImage(w, left));
    QuietFlushed(x.wal, w.durable, PrepareRecord(w, left));
    assert !CopiedTo(w.wal, NextId(w));
    TakenOk(w, Act(w, Split(left)));
  }

  lemma MoveKeeps(w: Writer, left: PageId, start: nat)
    requires Inv(w) && Enabled(w, Move(left, start))
    ensures Inv(Act(w, Move(left, start)))
  {
    var rec := Copy(left, w.copying[left], start, PdLsn(At(w.pages, left)));
    AppendRuns(w, rec);
    hide RecycledOnce, CopiedTo, Run, Allowed, Do, FlushedOk;
    NewCopy(w.wal, rec);
    CopyFlushed(w.wal, w.durable, rec);
  }

  lemma ActKeeps(w: Writer, a: Action)
    requires Inv(w) && Enabled(w, a)
    ensures Inv(Act(w, a))
  {
    hide RecycledOnce, CopiedTo, Run, FlushedOk;
    match a
    case Log(rec) => LogKeeps(w, rec);
    case NewPage(image) => NewPageKeeps(w, image);
    case Split(left) => SplitKeeps(w, left);
    case Move(left, start) => MoveKeeps(w, left, start);
    case HeapTake => NextIsFresh(w);
    case HeapFree(page) =>
    case Flush(page) => PageFlushed(w.wal, w.durable, page);
  }

  lemma {:induction false} PerformKeeps(w: Writer, actions: seq<Action>)
    requires Inv(w) && Perform(w, actions).Some?
    ensures Inv(Perform(w, actions).value)
    decreases |actions|
  {
    if actions != [] {
      ActKeeps(w, actions[0]);
      hide Inv, Enabled, Act;
      PerformKeeps(Act(w, actions[0]), actions[1..]);
    }
  }

  // ---------------------------------------------------------------- recovery of what it wrote

  /** No page of the log is the right page of two splits. */
  lemma WrittenOnce(actions: seq<Action>)
    requires Perform(START, actions).Some?
    ensures var wal := Perform(START, actions).value.wal; ValidRun(wal) && forall s :: 0 <= s ==> RecycledOnce(wal, s)
  {
    assert Inv(START);
    PerformKeeps(START, actions);
  }

  /** Replay may start at record `s`: no page on disk lacks an earlier one. */
  ghost predicate RedoPoint(w: Writer, s: nat) {
    s <= |w.wal| && forall p, k :: Durable(w.durable, p) <= k < s ==> !Touches(w.wal[k], p)
  }

  /** The version each page on disk has, as a replay from `s` sees it. */
  function DurableFrom(w: Writer, s: nat): PageId -> nat {
    (p: PageId) => Max(s, Durable(w.durable, p))
  }

  lemma {:induction false} SameVersion(wal: seq<Record>, a: nat, b: nat, p: PageId)
    requires ValidRun(wal) && a <= b <= |wal| && forall k :: a <= k < b ==> !Touches(wal[k], p)
    ensures Version(wal, b, p) == Version(wal, a, p)
    decreases b
  {
    if a < b {
      SameVersion(wal, a, b - 1, p);
      Untouched(wal, b - 1, p);
    }
  }

  /** The flush order replay relies on holds at every crash. */
  lemma CrashLeaves(actions: seq<Action>, s: nat)
    requires Perform(START, actions).Some? && RedoPoint(Perform(START, actions).value, s)
    ensures var w := Perform(START, actions).value;
      && ValidRun(w.wal) && CrashState(w.wal, s, DurableFrom(w, s))
      && forall p ::
         Durable(w.durable, p) <= |w.wal| &&
           Version(w.wal, Durable(w.durable, p), p) == Version(w.wal, DurableFrom(w, s)(p), p)
  {
    assert Inv(START);
    PerformKeeps(START, actions);
    hide Perform;
    var w := Perform(START, actions).value;
    forall p
      ensures Durable(w.durable, p) <= |w.wal|
      ensures Version(w.wal, Durable(w.durable, p), p) == Version(w.wal, DurableFrom(w, s)(p), p)
    {
      SameVersion(w.wal, Durable(w.durable, p), Max(s, Durable(w.durable, p)), p);
    }
  }

  /** Crash anywhere, replay from any redo point: no moved entry is lost, and a crash of the replay itself leaves a
      state
      that the next replay recovers from as well. */
  lemma RecoversAnything(actions: seq<Action>, s: nat, e: Evictions, k: nat, again: Evictions)
    requires Perform(START, actions).Some? && RedoPoint(Perform(START, actions).value, s)
    requires var wal := Perform(START, actions).value.wal;
      Steady(wal, s, e) && Steady(wal, s, again) && s <= k <= |wal|
    ensures var w := Perform(START, actions).value;
      var v := DurableFrom(w, s);
      var d := DiskAt(w.wal, s, v, e, k);
      NoneLost(w.wal, s, v, e, |w.wal|) && CrashState(w.wal, s, d) && NoneLost(w.wal, s, d, again, |w.wal|)
  {
    var w := Perform(START, actions).value;
    WrittenOnce(actions);
    CrashLeaves(actions, s);
    hide Perform, DiskAt, EntriesLost, DurableFrom;
    NothingLost(w.wal, s, DurableFrom(w, s), e, |w.wal|);
    RestartableAnywhere(w.wal, s, DurableFrom(w, s), e, k, again);
  }

  // ---------------------------------------------------------------- an eviction at the wrong moment

  /** A leaf with two entries split onto a second page, everything flushed. */
  function OneSplit(): seq<Action> {
    [NewPage(TwoKeys()), Split(1), Move(1, 1), Flush(1)]
  }

  lemma OneSplitRuns() returns (w: Writer)
    ensures Perform(START, OneSplit()) == Some(w)
    ensures w.wal
      == [Image(1, TwoKeys()), Image(2, InitRightPage(1, INVALID, 0)), Prepare(1, 2, 0, INVALID, [2]), Copy(1, 2, 1, 3)]
    ensures w.durable == map[2 := 4, 1 := 4]
  {
    var moved := [Entry([2], 9, 1)];
    assert Bytes(0, moved) == 11 by { assert moved[..0] == []; }
    assert TwoKeys().entries[1..] == moved;
    var w1 := Act(START, NewPage(TwoKeys()));
    var w2 := Act(w1, Split(1));
    var w3 := Act(w2, Move(1, 1));
    w := Act(w3, Flush(1));
    hide Act, Enabled;
    Steps4(START, NewPage(TwoKeys()), Split(1), Move(1, 1), Flush(1));
  }

  lemma Steps4(w: Writer, a: Action, b: Action, c: Action, d: Action)
    requires Enabled(w, a) && Enabled(Act(w, a), b) && Enabled(Act(Act(w, a), b), c)
    requires Enabled(Act(Act(Act(w, a), b), c), d)
    ensures Perform(w, [a, b, c, d]) == Some(Act(Act(Act(Act(w, a), b), c), d))
  {
    hide Act, Enabled;
    var w1 := Act(w, a);
    var w2 := Act(w1, b);
    var w3 := Act(w2, c);
    assert [a, b, c, d][1..] == [b, c, d] && [b, c, d][1..] == [c, d] && [c, d][1..] == [d] && [d][1..] == [];
    assert Perform(w3, [d]) == Some(Act(w3, d));
    assert Perform(w2, [c, d]) == Perform(w3, [d]);
    assert Perform(w1, [b, c, d]) == Perform(w2, [c, d]);
  }

  /** Replayed from its second record while the pool evicts page 2 as soon as the page's image is replayed: the
      write-back destroys the only image that has the moved entries, and the Copy fails. */
  lemma EvictionLosesEntries()
    ensures var e := (k: nat) => if k == 1 then {2} else {};
      && Perform(START, OneSplit()).Some?
      && var w := Perform(START, OneSplit()).value;
         RedoPoint(w, 1) && !NoneLost(w.wal, 1, DurableFrom(w, 1), e, |w.wal|)
  {
    var w := OneSplitRuns();
    hide Perform, Held, TwoKeys, InitRightPage, EntriesLost;
    var wal, v, e := w.wal, DurableFrom(w, 1), (k: nat) => if k == 1 then {2} else {};
    assert CrashState(wal, 1, v) && RecycledOnce(wal, 1);
    PoolKept(wal, 1, v, e, 3, 1);
    assert wal[1].Image? && wal[1].page == wal[3].right && wal[3].right in e(1);
    assert !SteadyAt(wal, 1, e, 3);
    if NoneLost(wal, 1, v, e, 3) { LostExactly(wal, 1, v, e, 3); }
  }
}
