/** Two crashes of a one-leaf tree that undo does not recover from, as runs of the logged steps. */
module UndoCases {
  import opened Entries
  import opened Layout
  import opened BtPages
  import opened BtLog
  import opened Chains
  import opened SplitPoint
  import opened TreeShape
  import opened TreeOrder
  import opened PageAlloc
  import opened SplitClr
  import opened UndoSteps
  import opened UndoTidy
  import opened SplitUndo
  import I = TreeInsert
  import W = SplitWindow

  function Entry1(): Entry {
    Entry([1], 9, 0)
  }

  function Entry2(): Entry {
    Entry([2], 9, 1)
  }

  function LeafOf(root: bool, marked: bool, prev: PageId, next: PageId, entries: seq<Entry>): Page {
    Page(0, Flags(true, root, marked), prev, next, entries, SPECIAL - 11 * |entries|, 1)
  }

  /** A root leaf with two entries. */
  function OneLeaf(): W.Tree {
    W.Tree(map[1 := LeafOf(true, false, INVALID, INVALID, [Entry1(), Entry2()])], [[1]], 1)
  }

  function Prepared1(): W.Step {
    W.Prepare(0, 0, 2, LeafOf(true, true, INVALID, 2, [Entry1(), Entry2()]), LeafOf(false, false, 1, INVALID, []))
  }

  function Copied1(): W.Step {
    W.Copy(0, 0, 1, LeafOf(true, true, INVALID, 2, [Entry1()]), LeafOf(false, false, 1, INVALID, [Entry2()]))
  }

  /** Its split after Prepare and Copy. */
  function HalfSplit(): W.Tree {
    W.Tree(map[1 := LeafOf(true, true, INVALID, 2, [Entry1()]), 2 := LeafOf(false, false, 1, INVALID, [Entry2()])],
           [[1, 2]], 1)
  }

  /** And after the promotion that should have been followed by the Commit. */
  function Promoted(): W.Tree {
    W.Tree(HalfSplit().pages[3 := NewRootPage(1, 1, 1)], [[1, 2], [3]], 3)
  }

  lemma Sizes()
    ensures Bytes(0, [Entry1()]) == 11 && Bytes(0, [Entry2()]) == 11 && Bytes(0, [Entry1(), Entry2()]) == 22
    ensures Bytes(0, []) == 0 && Sorted([Entry1(), Entry2()])
  {
    BytesOne(0, Entry1());
    BytesOne(0, Entry2());
    BytesConcat(0, [Entry1()], [Entry2()]);
    assert [Entry1()] + [Entry2()] == [Entry1(), Entry2()];
  }

  lemma LeafStarts()
    ensures var s := OneLeaf();
      && TreeOk(s.pages, s.levels, s.root) && NoneOpen(s.pages, s.levels, 0) && Sorted(Flat(s.pages, s.levels[0]))
      && Neat(s.pages, s.levels, s.root)
  {
    Sizes();
    hide TreeOk, Bytes, Flat;
    var s := OneLeaf();
    I.LoneTree(s.pages, 1);
    assert PageNeat(s.pages, s.levels[0][0], 0, 0, s.root);
  }

  /** Two steps lead there, in order. */
  lemma HalfRuns()
    ensures W.RunsInOrder(OneLeaf(), [Prepared1(), Copied1()])
    ensures W.Run(OneLeaf(), [Prepared1(), Copied1()]) == Some(HalfSplit())
  {
    Sizes();
    hide Bytes, Sorted, Flat;
    var s, p, c := OneLeaf(), Prepared1(), Copied1();
    assert At(s.pages, 1).entries[..1] == [Entry1()] && At(s.pages, 1).entries[1..] == [Entry2()];
    assert W.Enabled(s, p);
    var m := W.Do(s, p);
    assert Spliced([1], 0, 2) == [1, 2];
    assert m.levels == [[1, 2]];
    assert W.Enabled(m, c);
    assert W.Do(m, c).pages == HalfSplit().pages;
    assert W.Do(m, c) == HalfSplit();
    assert [p, c][1..] == [c] && [c][1..] == [];
    hide W.Enabled, W.Do;
    assert W.Run(HalfSplit(), []) == Some(HalfSplit());
    assert W.Run(m, [c]) == Some(HalfSplit());
    assert W.RunsInOrder(m, [c]);
  }

  lemma PromotedRuns()
    ensures W.Enabled(HalfSplit(), W.Promote(3, 1)) && W.Do(HalfSplit(), W.Promote(3, 1)) == Promoted()
  {
  }

  /** Pages of no other relation. */
  lemma NobodyElse(t: W.Tree, end: PageId)
    requires t == HalfSplit() || t == Promoted()
    requires end == 3 || end == 4
    requires t == Promoted() ==> end == 4
    ensures AllocOk(t.levels, [], end) && LsnsBelow(t.pages, Meta(t.root, 0), 10)
    ensures NoStrays(t.pages, t.levels, {}) && Ours(t.levels, [], end, {})
  {
    hide Bytes;
    assert t.levels[0] == [1, 2];
    forall p | At(t.pages, p).Page? ensures OnTree(t.pages, t.levels, p) {
      if p == 3 { assert t.levels[1] == [3] && 3 in t.levels[1]; } else { assert p in t.levels[0]; }
    }
  }

  /** A split found by scanning the pages, its Copy record behind the redo start, is finished if and only if redo saw
      the copy slot: undo computes a median of the left page, which has a single entry, although the right page
      holds its entries and no move is owed. */
  method ScanFound(known: map<PageId, nat>) returns (r: Result<(), UndoError>)
    requires forall p :: p in known ==> 1 <= known[p]
    ensures r.Ok? <==> 1 in known
  {
    ghost var t := HalfSplit();
    ghost var v := View(t.pages, t.levels, [], 3);
    HalfStarts();
    HalfQuestion(known);
    var undo := new UndoPass(
      map[1 := LeafOf(true, true, INVALID, 2, [Entry1()]), 2 := LeafOf(false, false, 1, INVALID, [Entry2()])],
      Meta(1, 0), [], 3, 10, [[1, 2]], {});
    hide TreeOk, AllocOk, NoStrays, Ours, LsnsBelow, AwaitingUpTo, Orderly, Undoable;
    assert undo.Now() == v;
    r := undo.Undo(known);
  }

  lemma HalfStarts()
    ensures var t := HalfSplit();
      var v := View(t.pages, t.levels, [], 3);
      && TreeOk(t.pages, t.levels, 1) && AwaitingUpTo(v, 0, 3) && Orderly(v, 1, 3)
      && AllocOk(t.levels, [], 3) && LsnsBelow(t.pages, Meta(1, 0), 10)
      && NoStrays(t.pages, t.levels, {}) && Ours(t.levels, [], 3, {})
  {
    var t := HalfSplit();
    var v := View(t.pages, t.levels, [], 3);
    LeafStarts();
    HalfRuns();
    NobodyElse(t, 3);
    hide TreeOk, NoStrays, Ours, LsnsBelow, AwaitingUpTo, Tidy, Neat, Flat, Sorted, W.Run, W.RunsInOrder;
    W.CrashAwaits(OneLeaf(), [Prepared1(), Copied1()], [], 3);
    W.CrashTidy(OneLeaf(), [Prepared1(), Copied1()], v);
    assert OpenIds(t.pages, 3) <= 3;
  }

  lemma HalfQuestion(known: map<PageId, nat>)
    ensures var t := HalfSplit(); Undoable(View(t.pages, t.levels, [], 3), known, 1, 0) <==> 1 in known
  {
    var t := HalfSplit();
    var v := View(t.pages, t.levels, [], 3);
    assert v.levels[0] == [1, 2];
    assert LevelUndoable(v, known, 1, 0) <==> Finishable(v.pages, 1, Seen(known, 1), 1);
  }

  /** After Prepare, Copy and the root promotion, but not the Commit, undo fails whatever redo saw: the left page claims
      to be a root that the meta page no longer names. */
  method PromotionLost(known: map<PageId, nat>) returns (r: Result<(), UndoError>)
    requires forall p :: p in known ==> 1 <= known[p]
    ensures r.Err?
  {
    ghost var t := Promoted();
    ghost var v := View(t.pages, t.levels, [], 4);
    PromotedStarts();
    PromotedQuestion(known);
    var undo := new UndoPass(map[1 := LeafOf(true, true, INVALID, 2, [Entry1()]),
                                 2 := LeafOf(false, false, 1, INVALID, [Entry2()]), 3 := NewRootPage(1, 1, 1)],
                             Meta(3, 0), [], 4, 10, [[1, 2], [3]], {});
    assert undo.pages == t.pages;
    hide TreeOk, AllocOk, NoStrays, Ours, LsnsBelow, AwaitingUpTo, Orderly, Undoable;
    assert undo.Now() == v;
    r := undo.Undo(known);
  }

  lemma PromotedStarts()
    ensures var t := Promoted();
      var v := View(t.pages, t.levels, [], 4);
      && TreeOk(t.pages, t.levels, 3) && AwaitingUpTo(v, 1, 4)
      && AllocOk(t.levels, [], 4) && LsnsBelow(t.pages, Meta(3, 0), 10)
      && NoStrays(t.pages, t.levels, {}) && Ours(t.levels, [], 4, {})
  {
    hide TreeOk, NoStrays, Ours, LsnsBelow, AwaitingUpTo, Flat, Sorted, W.Enabled, W.Do;
    var t, h, p := Promoted(), HalfSplit(), W.Promote(3, 1);
    LeafStarts();
    HalfRuns();
    PromotedRuns();
    NobodyElse(t, 4);
    var a, all := [Prepared1(), Copied1()], [Prepared1(), Copied1(), p];
    assert all[1..] == [Copied1(), p] && all[1..][1..] == [p] && [p][1..] == [];
    assert a[1..] == [Copied1()] && a[1..][1..] == [];
    assert W.Run(t, []) == Some(t);
    assert W.Run(h, [p]) == Some(t);
    assert W.Run(OneLeaf(), all) == Some(t);
    hide W.Run;
    W.CrashAwaits(OneLeaf(), all, [], 4);
  }

  lemma PromotedQuestion(known: map<PageId, nat>)
    ensures var t := Promoted(); !Undoable(View(t.pages, t.levels, [], 4), known, 3, 0)
  {
    var t := Promoted();
    var v := View(t.pages, t.levels, [], 4);
    assert v.levels[0] == [1, 2] && 1 in v.levels[0];
    assert !Finishable(v.pages, 1, Seen(known, 1), 3);
    assert !LevelUndoable(v, known, 3, 0);
  }
}
