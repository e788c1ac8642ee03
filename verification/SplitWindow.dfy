/** What a crash between Prepare and Commit leaves for undo: every run of split steps with inserts and deletes in
    their windows, from a tree without open splits, ends in the state undo starts from. */
module SplitWindow {
  import opened Entries
  import opened BtPages
  import opened BtLog
  import opened Chains
  import opened TreeShape
  import opened TreeOrder
  import opened PageAlloc
  import opened Fences
  import D = Descent
  import opened UndoSteps
  import opened UndoTidy
  import opened UndoFences

  datatype Tree = Tree(pages: Pages, levels: Levels, root: PageId)

  /** The logged steps that touch the tree, with the pages they write. */
  datatype Step =
    | Prepare(l: nat, i: nat, right: PageId, pgL: Page, pgR: Page)
    | Copy(l: nat, i: nat, start: nat, pgL: Page, pgR: Page)
    | Commit(l: nat, i: nat, j: nat, slot: nat, sep: seq<byte>, pgL: Page, pgP: Page)
    | Promote(top: PageId, lsn: nat)
    | Insert(i: nat, slot: nat, e: Entry, lsn: nat)
    | Delete(i: nat, slot: nat, lsn: nat)

  /** The page is neither marked nor the twin of a marked one. */
  ghost predicate Clear(s: Tree, l: nat, i: nat)
    requires l < |s.levels| && i < |s.levels[l]|
  {
    !Open(s.pages, s.levels[l][i]) && (i > 0 ==> !Open(s.pages, s.levels[l][i - 1]))
  }

  /** A split starts on a clear page in order; its copy finds the twin still unwritten; a downlink goes to a clear
      page; an insert goes to its position in the leaf order. */
  ghost predicate Enabled(s: Tree, step: Step) {
    match step
    case Prepare(l, i, right, pgL, pgR) =>
      && l < |s.levels| && i < |s.levels[l]| && Clear(s, l, i) && Unused(s.levels, right)
      && Sorted(EntriesOf(s.pages, s.levels[l][i]))
      && Prepared(At(s.pages, s.levels[l][i]), s.levels[l][i], right, pgL, pgR)
    case Copy(l, i, start, pgL, pgR) =>
      && l < |s.levels| && i + 1 < |s.levels[l]| && Open(s.pages, s.levels[l][i]) && 1 <= start
      && Copied(At(s.pages, s.levels[l][i]), At(s.pages, s.levels[l][i + 1]), start, pgL, pgR)
    case Commit(l, i, j, slot, sep, pgL, pgP) =>
      && l + 1 < |s.levels| && i + 1 < |s.levels[l]| && j < |s.levels[l + 1]| && Clear(s, l + 1, j)
      && Committed(At(s.pages, s.levels[l][i]), At(s.pages, s.levels[l + 1][j]), slot, sep, s.levels[l][i + 1], pgL,
         pgP)
    case Promote(top, _) => Unused(s.levels, top) && Open(s.pages, s.root)
    case Insert(i, slot, e, lsn) =>
      && |s.levels| > 0 && i < |s.levels[0]| && |e.key| <= MAX_INDEX_KEY_BYTES
      && InsertEntryAt(At(s.pages, s.levels[0][i]), slot, e).Ok?
      && Sorted(Flat(s.pages[s.levels[0][i] := Stamp(InsertEntryAt(At(s.pages, s.levels[0][i]), slot, e).value, lsn)],
         s.levels[0]))
    case Delete(i, slot, _) =>
      |s.levels| > 0 && i < |s.levels[0]| && RemoveEntryAt(At(s.pages, s.levels[0][i]), slot).Ok?
  }

  ghost function Do(s: Tree, step: Step): Tree
    requires Enabled(s, step)
  {
    match step
    case Prepare(l, i, right, pgL, pgR) =>
      s.(pages := s.pages[right := pgR][s.levels[l][i] := pgL], levels := s.levels[l := Spliced(s.levels[l], i, right)])
    case Copy(l, i, _, pgL, pgR) => s.(pages := s.pages[s.levels[l][i] := pgL][s.levels[l][i + 1] := pgR])
    case Commit(l, i, j, _, _, pgL, pgP) => s.(pages := s.pages[s.levels[l + 1][j] := pgP][s.levels[l][i] := pgL])
    case Promote(top, lsn) =>
      Tree(s.pages[top := NewRootPage(|s.levels|, s.root, lsn)], s.levels + [[top]], top)
    case Insert(i, slot, e, lsn) =>
      s.(pages := s.pages[s.levels[0][i] := Stamp(InsertEntryAt(At(s.pages, s.levels[0][i]), slot, e).value, lsn)])
    case Delete(i, slot, lsn) =>
      s.(pages := s.pages[s.levels[0][i] := Stamp(RemoveEntryAt(At(s.pages, s.levels[0][i]), slot).value, lsn)])
  }

  ghost function Run(s: Tree, steps: seq<Step>): Option<Tree>
    decreases |steps|
  {
    if steps == [] then Some(s) else if !Enabled(s, steps[0]) then None else Run(Do(s, steps[0]), steps[1..])
  }

  // ---------------------------------------------------------------- marked pages and their twins

  ghost predicate HasTwin(pages: Pages, chain: seq<PageId>, i: nat) {
    && i + 1 < |chain| && !Open(pages, chain[i + 1]) && PairOrdered(At(pages, chain[i]), At(pages, chain[i + 1]))
    && (forall c :: 0 <= c < |chain| ==> PrevOf(pages, chain[c]) != chain[i + 1])
  }

  ghost predicate Paired(pages: Pages, chain: seq<PageId>) {
    forall i :: 0 <= i < |chain| && Open(pages, chain[i]) ==> HasTwin(pages, chain, i)
  }

  ghost predicate Inv(s: Tree) {
    && TreeOk(s.pages, s.levels, s.root) && Sorted(Flat(s.pages, s.levels[0]))
    && forall l :: 0 <= l < |s.levels| ==> Paired(s.pages, s.levels[l])
  }

  /** No page of the chain was written. */
  lemma PairedSame(s: Pages, s': Pages, chain: seq<PageId>)
    requires Paired(s, chain) && SamePages(s, s', chain)
    ensures Paired(s', chain)
  {
    forall i | 0 <= i < |chain| && Open(s', chain[i]) ensures HasTwin(s', chain, i) {
      assert Open(s, chain[i]) && HasTwin(s, chain, i);
    }
  }

  /** Links and marks of the leaf chain unchanged, its entries still in order. */
  lemma PairedLeaves(s: Pages, s': Pages, chain: seq<PageId>)
    requires Paired(s, chain) && Sorted(Flat(s', chain))
    requires forall i :: 0 <= i < |chain| ==> SameFrame(s, s', chain[i])
    ensures Paired(s', chain)
  {
    hide Flat;
    forall i | 0 <= i < |chain| && Open(s', chain[i]) ensures HasTwin(s', chain, i) {
      assert SameFrame(s, s', chain[i]) && HasTwin(s, chain, i) && SameFrame(s, s', chain[i + 1]);
      PageOrder(s', chain, i, i + 1);
      forall c | 0 <= c < |chain| ensures PrevOf(s', chain[c]) != chain[i + 1] { assert SameFrame(s, s', chain[c]); }
    }
  }

  ghost predicate SameFrame(s: Pages, s': Pages, p: PageId) {
    At(s, p).Page? && At(s', p).Page? && At(s', p).flags == At(s, p).flags && At(s', p).prev == At(s, p).prev
  }

  /** Prepare on a clear page gives it a twin and leaves every other twin alone. */
  lemma PreparePairs(s: Pages, chain: seq<PageId>, i: nat, right: PageId, pgL: Page, pgR: Page)
    requires Paired(s, chain) && Linked(s, chain) && i < |chain| && right !in chain && right != INVALID
    requires !Open(s, chain[i]) && (i > 0 ==> !Open(s, chain[i - 1])) && Sorted(EntriesOf(s, chain[i]))
    requires Prepared(At(s, chain[i]), chain[i], right, pgL, pgR)
    ensures Paired(s[right := pgR][chain[i] := pgL], Spliced(chain, i, right))
  {
    var s', chain' := s[right := pgR][chain[i] := pgL], Spliced(chain, i, right);
    var left := chain[i];
    assert left != right;
    forall c | 0 <= c < |chain'| && Open(s', chain'[c]) ensures HasTwin(s', chain', c) {
      SplicedAt(chain, i, right, c);
      SplicedAt(chain, i, right, i + 1);
      var x := if c <= i then c else c - 1;
      if c != i {
        assert HasTwin(s, chain, x) && x + 1 != i;
        SplicedAt(chain, i, right, c + 1);
      }
      var twin := chain'[c + 1];
      assert twin == if c == i then right else chain[x + 1];
      forall d | 0 <= d < |chain'| ensures PrevOf(s', chain'[d]) != twin {
        SplicedAt(chain, i, right, d);
        PrevAfter(s, chain, i, right, pgL, pgR, d, twin, if c == i then -1 else x);
      }
    }
  }

  lemma PrevAfter(s: Pages, chain: seq<PageId>, i: nat, right: PageId, pgL: Page, pgR: Page, d: nat, twin: PageId,
                  x: int)
    requires Linked(s, chain) && i < |chain| && right !in chain && right != INVALID && d <= |chain|
    requires Prepared(At(s, chain[i]), chain[i], right, pgL, pgR)
    requires
      if x < 0 then twin == right
      else x + 1 < |chain| && x + 1 != i && HasTwin(s, chain, x) && twin == chain[x + 1]
    ensures PrevOf(s[right := pgR][chain[i] := pgL], Spliced(chain, i, right)[d]) != twin
  {
    SplicedAt(chain, i, right, d);
    var y := if d <= i then d else d - 1;
    if d != i + 1 {
      assert LinkOk(s, chain, y);
      assert chain[y] != right by { assert chain[y] in chain; }
      if x >= 0 { assert PrevOf(s, chain[y]) != chain[x + 1]; }
    } else if x >= 0 {
      assert chain[i] != chain[x + 1];
    } else {
      assert chain[i] in chain;
    }
  }

  /** Copy keeps the pair in order. */
  lemma CopyPairs(s: Pages, chain: seq<PageId>, i: nat, start: nat, pgL: Page, pgR: Page)
    requires Paired(s, chain) && NoDup(chain) && i + 1 < |chain| && Open(s, chain[i])
    requires Copied(At(s, chain[i]), At(s, chain[i + 1]), start, pgL, pgR)
    ensures Paired(s[chain[i] := pgL][chain[i + 1] := pgR], chain)
  {
    var s' := s[chain[i] := pgL][chain[i + 1] := pgR];
    assert HasTwin(s, chain, i);
    forall c | 0 <= c < |chain| && Open(s', chain[c]) ensures HasTwin(s', chain, c) {
      assert HasTwin(s, chain, c);
      assert c != i ==> c != i + 1 && c + 1 != i;
      forall d | 0 <= d < |chain| ensures PrevOf(s', chain[d]) != chain[c + 1] {}
    }
  }

  /** Commit takes a mark off. */
  lemma UnmarkPairs(s: Pages, chain: seq<PageId>, i: nat, pgL: Page)
    requires Paired(s, chain) && NoDup(chain) && i < |chain| && Open(s, chain[i])
    requires SameContent(pgL, CommitLeft(At(s, chain[i])))
    ensures Paired(s[chain[i] := pgL], chain)
  {
    var s' := s[chain[i] := pgL];
    forall c | 0 <= c < |chain| && Open(s', chain[c]) ensures HasTwin(s', chain, c) {
      assert HasTwin(s, chain, c) && c != i && c + 1 != i;
      forall d | 0 <= d < |chain| ensures PrevOf(s', chain[d]) != chain[c + 1] {}
    }
  }

  /** A downlink into a clear page. */
  lemma LinkPairs(s: Pages, chain: seq<PageId>, j: nat, pgP: Page)
    requires Paired(s, chain) && NoDup(chain) && j < |chain| && !Open(s, chain[j]) && (j > 0 ==> !Open(s, chain[j - 1]))
    requires At(s, chain[j]).Page? && pgP.Page? && pgP.flags == At(s, chain[j]).flags
    requires pgP.prev == At(s, chain[j]).prev
    ensures Paired(s[chain[j] := pgP], chain)
  {
    var s' := s[chain[j] := pgP];
    forall c | 0 <= c < |chain| && Open(s', chain[c]) ensures HasTwin(s', chain, c) {
      assert HasTwin(s, chain, c) && c != j && c + 1 != j;
      forall d | 0 <= d < |chain| ensures PrevOf(s', chain[d]) != chain[c + 1] {}
    }
  }

  // ---------------------------------------------------------------- every step keeps it

  lemma PrepareStep(s: Tree, step: Step)
    requires Inv(s) && step.Prepare? && Enabled(s, step)
    ensures Inv(Do(s, step))
  {
    var l, chain, s' := step.l, s.levels[step.l], Do(s, step);
    NeighboursApart(s.pages, s.levels, s.root, l);
    PrepareKeeps(s.pages, s.levels, s.root, l, step.i, step.right, step.pgL, step.pgR);
    PreparePairs(s.pages, chain, step.i, step.right, step.pgL, step.pgR);
    SplicedFlat(s.pages, chain, step.i, step.right, step.pgL, step.pgR);
    hide TreeOk, Flat, Linked, Paired, Prepared;
    forall k | 0 <= k < |s.levels| && k != l ensures SamePages(s.pages, s'.pages, s.levels[k]) {
      TreeApart(s.pages, s.levels, s.root, l, k, step.i);
    }
    forall k | 0 <= k < |s'.levels| ensures Paired(s'.pages, s'.levels[k]) {
      if k != l { PairedSame(s.pages, s'.pages, s.levels[k]); }
    }
    if l != 0 { FlatFrame(s.pages, s'.pages, s.levels[0]); }
  }

  /** The levels of neither written page. */
  lemma PairedElsewhere(s: Tree, s': Pages, l: nat, i: nat, m: nat, j: nat)
    requires Inv(s) && l < |s.levels| && m < |s.levels| && i < |s.levels[l]| && j < |s.levels[m]|
    requires forall p :: p != s.levels[l][i] && p != s.levels[m][j] ==> At(s', p) == At(s.pages, p)
    ensures forall k :: 0 <= k < |s.levels| && k != l && k != m ==> Paired(s', s.levels[k])
  {
    hide TreeOk, Flat, Sorted, Paired;
    forall k | 0 <= k < |s.levels| && k != l && k != m ensures Paired(s', s.levels[k]) {
      TreeApart(s.pages, s.levels, s.root, l, k, i);
      TreeApart(s.pages, s.levels, s.root, m, k, j);
      PairedSame(s.pages, s', s.levels[k]);
    }
  }

  lemma CopyPaired(s: Tree, step: Step)
    requires Inv(s) && step.Copy? && Enabled(s, step)
    ensures forall k :: 0 <= k < |s.levels| ==> Paired(Do(s, step).pages, s.levels[k])
  {
    hide TreeOk, Flat, Paired, Copied, Sorted, Linked;
    var l := step.l;
    NeighboursApart(s.pages, s.levels, s.root, l);
    LinkedNoDup(s.pages, s.levels[l]);
    CopyPairs(s.pages, s.levels[l], step.i, step.start, step.pgL, step.pgR);
    PairedElsewhere(s, Do(s, step).pages, l, step.i, l, step.i + 1);
  }

  lemma CopyFlatKept(s: Tree, step: Step)
    requires Inv(s) && step.Copy? && Enabled(s, step)
    ensures Flat(Do(s, step).pages, s.levels[0]) == Flat(s.pages, s.levels[0])
  {
    hide TreeOk, Flat, Paired, Copied, Sorted, Linked;
    var l, s' := step.l, Do(s, step);
    NeighboursApart(s.pages, s.levels, s.root, l);
    LinkedNoDup(s.pages, s.levels[l]);
    CopyFlat(s.pages, s.levels[l], step.i, step.start, step.pgL, step.pgR);
    if l != 0 {
      TreeApart(s.pages, s.levels, s.root, l, 0, step.i);
      TreeApart(s.pages, s.levels, s.root, l, 0, step.i + 1);
      FlatFrame(s.pages, s'.pages, s.levels[0]);
    }
  }

  lemma CopyStep(s: Tree, step: Step)
    requires Inv(s) && step.Copy? && Enabled(s, step)
    ensures Inv(Do(s, step))
  {
    hide TreeOk, Flat, Paired, Copied, Sorted;
    CopyKeeps(s.pages, s.levels, s.root, step.l, step.i, step.start, step.pgL, step.pgR);
    CopyPaired(s, step);
    CopyFlatKept(s, step);
  }

  lemma CommitStep(s: Tree, step: Step)
    requires Inv(s) && step.Commit? && Enabled(s, step)
    ensures Inv(Do(s, step))
  {
    var l, s' := step.l, Do(s, step);
    hide TreeOk, Flat, Paired, Sorted;
    CommitKeeps(s.pages, s.levels, s.root, l, step.i, step.j, step.slot, step.sep, s.levels[l][step.i + 1], step.pgL,
      step.pgP);
    CommitPairs(s, step);
    PairedElsewhere(s, s'.pages, l, step.i, l + 1, step.j);
    CommitFlat(s, step);
  }

  /** The level of the mark and the one of the downlink. */
  lemma CommitPairs(s: Tree, step: Step)
    requires Inv(s) && step.Commit? && Enabled(s, step)
    ensures Paired(Do(s, step).pages, s.levels[step.l]) && Paired(Do(s, step).pages, s.levels[step.l + 1])
  {
    var l, s' := step.l, Do(s, step);
    var left, parent := s.levels[l][step.i], s.levels[l + 1][step.j];
    hide TreeOk, Flat, Paired, Sorted;
    NeighboursApart(s.pages, s.levels, s.root, l);
    NeighboursApart(s.pages, s.levels, s.root, l + 1);
    LinkedNoDup(s.pages, s.levels[l]);
    LinkedNoDup(s.pages, s.levels[l + 1]);
    hide Linked;
    TreeApart(s.pages, s.levels, s.root, l + 1, l, step.j);
    TreeApart(s.pages, s.levels, s.root, l, l + 1, step.i);
    UnmarkPairs(s.pages, s.levels[l], step.i, step.pgL);
    LinkPairs(s.pages, s.levels[l + 1], step.j, step.pgP);
    var a, b: Pages := s.pages[left := step.pgL], s.pages[parent := step.pgP];
    assert SamePages(a, s'.pages, s.levels[l]) && SamePages(b, s'.pages, s.levels[l + 1]);
    PairedSame(a, s'.pages, s.levels[l]);
    PairedSame(b, s'.pages, s.levels[l + 1]);
  }

  lemma CommitFlat(s: Tree, step: Step)
    requires TreeOk(s.pages, s.levels, s.root) && step.Commit? && Enabled(s, step)
    ensures Flat(Do(s, step).pages, s.levels[0]) == Flat(s.pages, s.levels[0])
  {
    TreeApart(s.pages, s.levels, s.root, step.l + 1, 0, step.j);
    FlatFrame(s.pages, Do(s, step).pages, s.levels[0]);
  }

  lemma PromoteStep(s: Tree, step: Step)
    requires Inv(s) && step.Promote? && Enabled(s, step)
    ensures Inv(Do(s, step))
  {
    var s' := Do(s, step);
    NewRootKeeps(s.pages, s.levels, s.root, step.top, step.lsn);
    hide TreeOk, Flat, Linked;
    forall k | 0 <= k < |s'.levels| ensures Paired(s'.pages, s'.levels[k]) {
      if k < |s.levels| { PairedSame(s.pages, s'.pages, s.levels[k]); }
    }
    FlatFrame(s.pages, s'.pages, s.levels[0]);
  }

  /** A leaf rewritten with links and marks kept and the leaf order intact. */
  lemma LeafStep(s: Tree, i: nat, pg: Page)
    requires Inv(s) && i < |s.levels[0]| && TreeOk(s.pages[s.levels[0][i] := pg], s.levels, s.root)
    requires At(s.pages, s.levels[0][i]).Page?
    requires pg.Page? && pg.flags == At(s.pages, s.levels[0][i]).flags && pg.prev == At(s.pages, s.levels[0][i]).prev
    requires Sorted(Flat(s.pages[s.levels[0][i] := pg], s.levels[0]))
    ensures Inv(s.(pages := s.pages[s.levels[0][i] := pg]))
  {
    var s': Pages := s.pages[s.levels[0][i] := pg];
    LevelIsPages(s.pages, s.levels, s.root, 0);
    hide TreeOk, Flat, Paired;
    forall k | 0 <= k < |s.levels| ensures Paired(s', s.levels[k]) {
      if k == 0 {
        PairedLeaves(s.pages, s', s.levels[0]);
      } else {
        TreeApart(s.pages, s.levels, s.root, 0, k, i);
        PairedSame(s.pages, s', s.levels[k]);
      }
    }
  }

  lemma InsertStep(s: Tree, step: Step)
    requires Inv(s) && step.Insert? && Enabled(s, step)
    ensures Inv(Do(s, step))
  {
    var p := s.levels[0][step.i];
    var pg := Stamp(InsertEntryAt(At(s.pages, p), step.slot, step.e).value, step.lsn);
    PageAt(s.pages, s.levels, s.root, 0, step.i);
    hide Flat, TreeOk;
    PageOrder(s.pages[p := pg], s.levels[0], step.i, step.i);
    LeafInsertKeeps(s.pages, s.levels, s.root, step.i, step.slot, step.e, step.lsn);
    LeafStep(s, step.i, pg);
  }

  lemma DeleteStep(s: Tree, step: Step)
    requires Inv(s) && step.Delete? && Enabled(s, step)
    ensures Inv(Do(s, step))
  {
    PageAt(s.pages, s.levels, s.root, 0, step.i);
    hide Flat, TreeOk, Paired, Sorted, Bytes, Removed;
    LeafDeleteKeeps(s.pages, s.levels, s.root, step.i, step.slot, step.lsn);
    LeafStep(s, step.i, Stamp(RemoveEntryAt(At(s.pages, s.levels[0][step.i]), step.slot).value, step.lsn));
  }

  lemma StepKeeps(s: Tree, step: Step)
    requires Inv(s) && Enabled(s, step)
    ensures Inv(Do(s, step))
  {
    hide Inv, Enabled, Do;
    match step
    case Prepare(_, _, _, _, _) => PrepareStep(s, step);
    case Copy(_, _, _, _, _) => CopyStep(s, step);
    case Commit(_, _, _, _, _, _, _) => CommitStep(s, step);
    case Promote(_, _) => PromoteStep(s, step);
    case Insert(_, _, _, _) => InsertStep(s, step);
    case Delete(_, _, _) => DeleteStep(s, step);
  }

  lemma {:induction false} RunKeeps(s: Tree, steps: seq<Step>)
    requires Inv(s) && Run(s, steps).Some?
    ensures Inv(Run(s, steps).value)
    decreases |steps|
  {
    hide Inv, Enabled, Do;
    if steps != [] {
      StepKeeps(s, steps[0]);
      RunKeeps(Do(s, steps[0]), steps[1..]);
    }
  }

  /** From a tree with no open split and its leaves in order, whatever splits, inserts and deletes a crash cuts off,
      every marked page awaits undo as undo requires. */
  lemma CrashAwaits(s: Tree, steps: seq<Step>, freelist: seq<PageId>, fileEnd: PageId)
    requires TreeOk(s.pages, s.levels, s.root) && NoneOpen(s.pages, s.levels, 0) && Sorted(Flat(s.pages, s.levels[0]))
    requires Run(s, steps).Some? && AllocOk(Run(s, steps).value.levels, freelist, fileEnd)
    ensures var t := Run(s, steps).value;
      && TreeOk(t.pages, t.levels, t.root) && Sorted(Flat(t.pages, t.levels[0]))
      && AwaitingUpTo(View(t.pages, t.levels, freelist, fileEnd), |t.levels| - 1, fileEnd)
  {
    assert Inv(s);
    RunKeeps(s, steps);
    var t := Run(s, steps).value;
    var v := View(t.pages, t.levels, freelist, fileEnd);
    hide Run, TreeOk, Flat;
    forall m, i | 0 <= m < |v.levels| && 0 <= i < |v.levels[m]| && Open(v.pages, v.levels[m][i])
      ensures Twin(v, m, i) && v.levels[m][i] < fileEnd
    {
      assert Paired(t.pages, t.levels[m]);
      assert HasTwin(t.pages, t.levels[m], i);
    }
  }

  // ---------------------------------------------------------------- and leaves it in order

  /** A downlink with a key goes to its slot; no indexed key is empty. */
  ghost predicate InOrder(s: Tree, step: Step) {
    && Enabled(s, step)
    && (step.Commit? ==>
          && step.sep != []
          && IsLowerBound(EntriesOf(s.pages, s.levels[step.l + 1][step.j]),
                          Entry(step.sep, s.levels[step.l][step.i + 1], 0), step.slot))
    && (step.Insert? ==> step.e.key != [])
  }

  ghost predicate RunsInOrder(s: Tree, steps: seq<Step>)
    decreases |steps|
  {
    steps == [] || (InOrder(s, steps[0]) && RunsInOrder(Do(s, steps[0]), steps[1..]))
  }

  lemma NeatKept(s: Tree, step: Step)
    requires Inv(s) && Neat(s.pages, s.levels, s.root) && InOrder(s, step)
    ensures var t := Do(s, step); Neat(t.pages, t.levels, t.root)
  {
    hide Neat, TreeOk, Flat, Sorted, Paired, Prepared, Copied, Committed, Spliced, Clear, NewRootPage, InsertEntryAt,
         RemoveEntryAt, Stamp;
    match step
    case Prepare(l, i, right, pgL, pgR) => PrepareNeat(s.pages, s.levels, s.root, l, i, right, pgL, pgR);
    case Copy(l, i, start, pgL, pgR) => CopyNeat(s.pages, s.levels, s.root, l, i, start, pgL, pgR);
    case Commit(l, i, j, slot, sep, pgL, pgP) =>
      CommitNeat(s.pages, s.levels, s.root, l, i, j, slot, sep, s.levels[l][i + 1], pgL, pgP);
    case Promote(top, lsn) => PromoteNeat(s.pages, s.levels, s.root, top, lsn);
    case Insert(i, _, _, _) => WriteNeat(s, step, i);
    case Delete(i, _, _) => WriteNeat(s, step, i);
  }

  lemma WriteNeat(s: Tree, step: Step, i: nat)
    requires Inv(s) && Neat(s.pages, s.levels, s.root) && InOrder(s, step)
    requires (step.Insert? && i == step.i) || (step.Delete? && i == step.i)
    ensures var t := Do(s, step); Neat(t.pages, t.levels, t.root)
  {
    var es := EntriesOf(s.pages, s.levels[0][i]);
    assert PageNeat(s.pages, s.levels[0][i], 0, i, s.root);
    if step.Insert? { InsertKeyed(es, step.slot, step.e, i); } else { RemoveKeyed(es, step.slot, i); }
    hide Flat, TreeOk, Paired, Sorted, Keyed, Neat;
    LeafNeat(s.pages, Do(s, step).pages, s.levels, s.root, i);
  }

  lemma {:induction false} RunNeat(s: Tree, steps: seq<Step>)
    requires Inv(s) && Neat(s.pages, s.levels, s.root) && RunsInOrder(s, steps)
    ensures Run(s, steps).Some? && var t := Run(s, steps).value; Neat(t.pages, t.levels, t.root)
    decreases |steps|
  {
    if steps != [] {
      assert InOrder(s, steps[0]);
      StepKeeps(s, steps[0]);
      NeatKept(s, steps[0]);
      hide Inv, Neat, Enabled, Do;
      RunNeat(Do(s, steps[0]), steps[1..]);
    }
  }

  /** After such a crash the tree is in order for undo. */
  lemma CrashTidy(s: Tree, steps: seq<Step>, v: View)
    requires TreeOk(s.pages, s.levels, s.root) && NoneOpen(s.pages, s.levels, 0) && Sorted(Flat(s.pages, s.levels[0]))
    requires Neat(s.pages, s.levels, s.root) && RunsInOrder(s, steps)
    requires Run(s, steps).Some? ==> v.pages == Run(s, steps).value.pages && v.levels == Run(s, steps).value.levels
    ensures Run(s, steps).Some? && Tidy(v, Run(s, steps).value.root, 0)
  {
    assert Inv(s);
    RunNeat(s, steps);
    var t := Run(s, steps).value;
    hide Run, TreeOk, Flat, Sorted, Keyed;
    forall k, i | 0 <= k < |v.levels| && 0 <= i < |v.levels[k]|
      ensures PageTidy(v.pages, v.levels[k][i], k, i, t.root)
    {
      assert PageNeat(t.pages, t.levels[k][i], k, i, t.root);
    }
  }

  // ---------------------------------------------------------------- ranges over a run

  /** The leaf has the key in its range, whatever bounds fit. */
  ghost predicate Fitting(s: Tree, i: nat, key: seq<byte>) {
    |s.levels| > 0 && forall lo :: FencedBy(s.pages, s.levels, lo) ==> Covers(s.levels[0], lo, i, key)
  }

  /** A Commit goes to the page that names the left half, with the right half's first key as separator and the run of
      equal keys not cut; an insert goes to the leaf with the key in its range. */
  ghost predicate InRange(s: Tree, step: Step) {
    && InOrder(s, step)
    && (step.Commit? ==>
          && Halfway(s.pages, s.levels[step.l], step.i)
          && CleanCut(s.pages, s.levels[step.l][step.i], s.levels[step.l][step.i + 1])
          && StartsWith(EntriesOf(s.pages, s.levels[step.l][step.i + 1]), step.sep)
          && D.Points(EntriesOf(s.pages, s.levels[step.l + 1][step.j]), s.levels[step.l][step.i]))
    && (step.Insert? ==> Fitting(s, step.i, step.e.key))
  }

  ghost predicate RunsInRange(s: Tree, steps: seq<Step>)
    decreases |steps|
  {
    steps == [] || (InRange(s, steps[0]) && RunsInRange(Do(s, steps[0]), steps[1..]))
  }

  ghost predicate TreeRanged(s: Tree) {
    Fenced(s.pages, s.levels) && Filled(s.pages, s.levels)
  }

  lemma CommitRanged(s: Tree, step: Step)
    requires Inv(s) && TreeRanged(s) && step.Commit? && InRange(s, step)
    ensures TreeRanged(Do(s, step))
  {
    hide TreeOk, FencedBy, Filled, Flat, Paired, Sorted, Committed, IsLowerBound, CommitInRange, CleanCut, Halfway,
         D.Points;
    var Commit(l, i, j, slot, sep, pgL, pgP) := step;
    var s', left, right, parent := Do(s, step).pages, s.levels[l][i], s.levels[l][i + 1], s.levels[l + 1][j];
    TreeApart(s.pages, s.levels, s.root, l + 1, l, j);
    assert left in s.levels[l] && left != parent;
    CommitIsWritten(s.pages, left, parent, slot, sep, right, pgL, pgP);
    hide CommitWritten;
    var x := Pointed(EntriesOf(s.pages, parent), left);
    assert !IsTwin(s.pages, s.levels[l + 1], j);
    var lo :| FencedBy(s.pages, s.levels, lo);
    ReadyToCommit(s.pages, s.levels, s.root, lo, l, i, j, x, slot);
    CommitFenced(s.pages, s.levels, s.root, lo, l, i, j, slot, s');
    CommitFilled(s.pages, s.levels, s.root, l, i, j, slot, Entry(sep, right, 0), s');
  }

  lemma LeafRanged(s: Tree, i: nat, pg: Page, lo: Lows)
    requires TreeOk(s.pages, s.levels, s.root) && |s.levels| > 0 && i < |s.levels[0]| && pg.Page?
    requires FencedBy(s.pages, s.levels, lo) && Filled(s.pages, s.levels) && At(s.pages, s.levels[0][i]).Page?
    requires pg.flags == At(s.pages, s.levels[0][i]).flags
    requires forall x :: 0 <= x < |pg.entries| ==> Covers(s.levels[0], lo, i, pg.entries[x].key)
    ensures Fenced(s.pages[s.levels[0][i] := pg], s.levels) && Filled(s.pages[s.levels[0][i] := pg], s.levels)
  {
    var s': Pages := s.pages[s.levels[0][i] := pg];
    hide TreeOk, FencedBy, Filled, Covers;
    LeafFenced(s.pages, s', s.levels, s.root, lo, i);
    LeafFilled(s.pages, s', s.levels, s.root, i);
  }

  lemma HeldAll(s: Tree, lo: Lows, i: nat)
    requires |s.levels| > 0 && i < |s.levels[0]| && FencedBy(s.pages, s.levels, lo)
    ensures forall y :: 0 <= y < |EntriesOf(s.pages, s.levels[0][i])| ==>
      Covers(s.levels[0], lo, i, EntriesOf(s.pages, s.levels[0][i])[y].key)
  {
    assert LevelFenced(s.pages, s.levels[0], 0, lo);
    hide FencedBy, LevelFenced, Covers;
    forall y | 0 <= y < |EntriesOf(s.pages, s.levels[0][i])|
      ensures Covers(s.levels[0], lo, i, EntriesOf(s.pages, s.levels[0][i])[y].key)
    {
      HeldInRange(s.pages, s.levels[0], 0, lo, i, y);
    }
  }

  lemma InsertRanged(s: Tree, step: Step)
    requires Inv(s) && TreeRanged(s) && step.Insert? && InRange(s, step)
    ensures TreeRanged(Do(s, step))
  {
    hide TreeOk, FencedBy, Filled, Covers, Flat, Paired, Sorted;
    var Insert(i, slot, e, lsn) := step;
    var was, pg := At(s.pages, s.levels[0][i]), At(Do(s, step).pages, s.levels[0][i]);
    var lo :| FencedBy(s.pages, s.levels, lo);
    HeldAll(s, lo, i);
    assert pg.entries == was.entries[..slot] + [e] + was.entries[slot..];
    forall x | 0 <= x < |pg.entries| ensures Covers(s.levels[0], lo, i, pg.entries[x].key) {
      if x != slot {
        var y := if x < slot then x else x - 1;
        assert pg.entries[x] == EntriesOf(s.pages, s.levels[0][i])[y];
      }
    }
    LeafRanged(s, i, pg, lo);
  }

  lemma DeleteRanged(s: Tree, step: Step)
    requires Inv(s) && TreeRanged(s) && step.Delete? && InRange(s, step)
    ensures TreeRanged(Do(s, step))
  {
    hide TreeOk, FencedBy, Filled, Covers, Flat, Paired, Sorted;
    var Delete(i, slot, lsn) := step;
    var was, pg := At(s.pages, s.levels[0][i]), At(Do(s, step).pages, s.levels[0][i]);
    var lo :| FencedBy(s.pages, s.levels, lo);
    HeldAll(s, lo, i);
    assert pg.entries == was.entries[..slot] + was.entries[slot + 1..];
    forall x | 0 <= x < |pg.entries| ensures Covers(s.levels[0], lo, i, pg.entries[x].key) {
      var y := if x < slot then x else x + 1;
      assert pg.entries[x] == EntriesOf(s.pages, s.levels[0][i])[y];
    }
    LeafRanged(s, i, pg, lo);
  }

  lemma StepRanged(s: Tree, step: Step)
    requires Inv(s) && TreeRanged(s) && InRange(s, step)
    ensures TreeRanged(Do(s, step))
  {
    hide TreeOk, FencedBy, Filled, Flat, Paired, Sorted;
    var lo :| FencedBy(s.pages, s.levels, lo);
    match step
    case Prepare(l, i, right, pgL, pgR) =>
      PrepareFenced(s.pages, s.levels, s.root, lo, l, i, right, pgL, pgR);
      PrepareFilled(s.pages, s.levels, s.root, l, i, right, pgL, pgR);
    case Copy(l, i, start, pgL, pgR) =>
      CopyFenced(s.pages, s.levels, s.root, lo, l, i, start, pgL, pgR);
      CopyFilled(s.pages, s.levels, s.root, l, i, start, pgL, pgR);
    case Commit(_, _, _, _, _, _, _) => CommitRanged(s, step);
    case Promote(top, lsn) =>
      RootFirst(s.pages, s.levels, s.root);
      PromoteFenced(s.pages, s.levels, s.root, lo, top, lsn);
      PromoteFilled(s.pages, s.levels, top, s.root, lsn);
    case Insert(_, _, _, _) => InsertRanged(s, step);
    case Delete(_, _, _) => DeleteRanged(s, step);
  }

  lemma {:induction false} RunRanged(s: Tree, steps: seq<Step>)
    requires Inv(s) && TreeRanged(s) && RunsInRange(s, steps)
    ensures Run(s, steps).Some? && TreeRanged(Run(s, steps).value) && Inv(Run(s, steps).value)
    decreases |steps|
  {
    hide Inv, TreeRanged, InRange, Do;
    if steps != [] {
      assert Enabled(s, steps[0]) by { InRangeEnabled(s, steps[0]); }
      StepKeeps(s, steps[0]);
      StepRanged(s, steps[0]);
      RunRanged(Do(s, steps[0]), steps[1..]);
    }
  }

  lemma InRangeEnabled(s: Tree, step: Step)
    requires InRange(s, step)
    ensures Enabled(s, step)
  {
  }

  /** A crash after any run in range leaves a tree with ranges for undo to start from. */
  lemma CrashRanged(s: Tree, steps: seq<Step>, v: View)
    requires TreeOk(s.pages, s.levels, s.root) && NoneOpen(s.pages, s.levels, 0) && Sorted(Flat(s.pages, s.levels[0]))
    requires TreeRanged(s) && RunsInRange(s, steps)
    requires Run(s, steps).Some? ==> v.pages == Run(s, steps).value.pages && v.levels == Run(s, steps).value.levels
    ensures Run(s, steps).Some? && Ranged(v)
  {
    assert Inv(s);
    RunRanged(s, steps);
  }

  // ---------------------------------------------------------------- a promotion without its Commit

  ghost predicate InTree(levels: Levels, p: PageId) {
    exists l :: 0 <= l < |levels| && p in levels[l]
  }

  /** A marked page of the tree that claims to be the root and is not. */
  ghost predicate Disowned(s: Tree, p: PageId) {
    Open(s.pages, p) && At(s.pages, p).flags.root && p != s.root && InTree(s.levels, p)
  }

  predicate Commits(s: Tree, step: Step, p: PageId) {
    && step.Commit? && step.l < |s.levels| && step.i < |s.levels[step.l]| && s.levels[step.l][step.i] == p
  }

  /** No step of the run is the Commit of `p`. */
  ghost predicate Uncommitted(s: Tree, steps: seq<Step>, p: PageId)
    decreases |steps|
  {
    steps == [] || (Enabled(s, steps[0]) && !Commits(s, steps[0], p) && Uncommitted(Do(s, steps[0]), steps[1..], p))
  }

  lemma PromotionDisowns(s: Tree, step: Step)
    requires Inv(s) && step.Promote? && Enabled(s, step)
    ensures Disowned(Do(s, step), s.root)
  {
    var top := |s.levels| - 1;
    RootOnTop(s.pages, s.levels, s.root);
    var c :| 0 <= c < |s.levels[top]| && s.levels[top][c] == s.root;
    PageAt(s.pages, s.levels, s.root, top, c);
    hide TreeOk, Flat, Sorted, Paired;
    var s' := Do(s, step);
    assert s'.levels[top] == s.levels[top];
  }

  lemma SplitDisowned(s: Tree, step: Step, p: PageId)
    requires Inv(s) && Disowned(s, p) && (step.Prepare? || step.Copy?) && Enabled(s, step)
    ensures Disowned(Do(s, step), p)
  {
    hide TreeOk, Flat, Sorted;
    var s', l := Do(s, step), step.l;
    var m :| 0 <= m < |s.levels| && p in s.levels[m];
    if step.Copy? {
      assert Paired(s.pages, s.levels[l]) && HasTwin(s.pages, s.levels[l], step.i);
    } else {
      SplicedMember(s.levels[l], step.i, step.right, p);
      assert p != step.right;
      if m == l { assert p in s'.levels[l]; } else { assert s'.levels[m] == s.levels[m]; }
    }
  }

  lemma DisownedStep(s: Tree, step: Step, p: PageId)
    requires Inv(s) && Disowned(s, p) && Enabled(s, step) && !Commits(s, step, p)
    ensures Disowned(Do(s, step), p)
  {
    hide TreeOk, Flat, Sorted, Paired;
    var s' := Do(s, step);
    var m :| 0 <= m < |s.levels| && p in s.levels[m];
    match step
    case Prepare(_, _, _, _, _) => SplitDisowned(s, step, p);
    case Copy(_, _, _, _, _) => SplitDisowned(s, step, p);
    case Commit(_, _, _, _, _, _, _) =>
    case Promote(top, _) =>
      assert s'.levels[m] == s.levels[m];
    case Insert(_, _, _, _) =>
    case Delete(_, _, _) =>
  }

  lemma {:induction false} DisownedStays(s: Tree, steps: seq<Step>, p: PageId)
    requires Inv(s) && Disowned(s, p) && Uncommitted(s, steps, p)
    ensures Run(s, steps).Some? && Inv(Run(s, steps).value) && Disowned(Run(s, steps).value, p)
    decreases |steps|
  {
    if steps != [] {
      StepKeeps(s, steps[0]);
      DisownedStep(s, steps[0], p);
      hide Inv, Disowned, Enabled, Do, Commits;
      DisownedStays(Do(s, steps[0]), steps[1..], p);
    }
  }

  /** A crash after a root promotion and before the Commit of the old root, whatever else was logged around them: undo
      can finish the tree only if the old root's twin has lost every entry by then. */
  lemma CrashInPromotion(s: Tree, before: seq<Step>, top: PageId, lsn: nat, later: seq<Step>, known: map<PageId, nat>,
                         v: View)
    requires TreeOk(s.pages, s.levels, s.root) && NoneOpen(s.pages, s.levels, 0) && Sorted(Flat(s.pages, s.levels[0]))
    requires Run(s, before).Some? && Enabled(Run(s, before).value, Promote(top, lsn))
    requires var m := Run(s, before).value; Uncommitted(Do(m, Promote(top, lsn)), later, m.root)
    ensures var m := Run(s, before).value;
      && Run(Do(m, Promote(top, lsn)), later).Some?
      && var t := Run(Do(m, Promote(top, lsn)), later).value;
         && At(t.pages, m.root).Page?
         && (v.pages == t.pages && v.levels == t.levels && Undoable(v, known, t.root, 0) ==>
               Drained(t.pages, At(t.pages, m.root).next))
  {
    assert Inv(s);
    RunKeeps(s, before);
    var m := Run(s, before).value;
    var n := Do(m, Promote(top, lsn));
    StepKeeps(m, Promote(top, lsn));
    PromotionDisowns(m, Promote(top, lsn));
    DisownedStays(n, later, m.root);
    var t := Run(n, later).value;
    hide Run, TreeOk, Flat, Sorted, Inv;
    if v.pages == t.pages && v.levels == t.levels && Undoable(v, known, t.root, 0) {
      var l :| 0 <= l < |t.levels| && m.root in t.levels[l];
      assert LevelUndoable(v, known, t.root, l);
    }
  }
}
