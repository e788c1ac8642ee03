/** The page allocator as its callers see it: recycled ids first, then the end of the file. */
module PageAlloc {
  import opened Entries
  import opened Chains
  import opened TreeShape

  /** The allocator: recycled ids first, then the end of the file. Nothing it can hand out is in the tree. */
  ghost predicate AllocOk(levels: Levels, freelist: seq<PageId>, fileEnd: PageId) {
    && fileEnd > 0 && NoDup(freelist)
    && (forall l, i :: 0 <= l < |levels| && 0 <= i < |levels[l]| ==> levels[l][i] < fileEnd)
    && (forall k :: 0 <= k < |freelist| ==> freelist[k] < fileEnd && Unused(levels, freelist[k]))
  }

  /** `r` is taken: not in the tree yet, and the allocator will not hand it out again. */
  ghost predicate Reserved(levels: Levels, freelist: seq<PageId>, fileEnd: PageId, r: PageId) {
    Unused(levels, r) && r !in freelist && r < fileEnd
  }

  lemma UsedUp(levels: Levels, levels': Levels, freelist: seq<PageId>, fileEnd: PageId, r: PageId)
    requires AllocOk(levels, freelist, fileEnd) && Reserved(levels, freelist, fileEnd, r)
    requires forall l, i :: 0 <= l < |levels'| && 0 <= i < |levels'[l]| ==>
      levels'[l][i] == r || exists m :: 0 <= m < |levels| && levels'[l][i] in levels[m]
    ensures AllocOk(levels', freelist, fileEnd)
  {
    forall l, i | 0 <= l < |levels'| && 0 <= i < |levels'[l]|
      ensures levels'[l][i] < fileEnd && levels'[l][i] !in freelist
    {
      if levels'[l][i] != r {
        var m :| 0 <= m < |levels| && levels'[l][i] in levels[m];
      }
    }
  }

  lemma SplicedUsed(levels: Levels, freelist: seq<PageId>, fileEnd: PageId, l: nat, i: nat, r: PageId)
    requires AllocOk(levels, freelist, fileEnd) && Reserved(levels, freelist, fileEnd, r)
    requires l < |levels| && i < |levels[l]|
    ensures AllocOk(levels[l := Spliced(levels[l], i, r)], freelist, fileEnd)
  {
    var levels' := levels[l := Spliced(levels[l], i, r)];
    forall m, x | 0 <= m < |levels'| && 0 <= x < |levels'[m]|
      ensures levels'[m][x] == r || exists o :: 0 <= o < |levels| && levels'[m][x] in levels[o]
    {
      if m == l { SplicedMember(levels[l], i, r, levels'[m][x]); } else { assert levels'[m][x] in levels[m]; }
    }
    UsedUp(levels, levels', freelist, fileEnd, r);
  }

  lemma RootUsed(levels: Levels, freelist: seq<PageId>, fileEnd: PageId, r: PageId)
    requires AllocOk(levels, freelist, fileEnd) && Reserved(levels, freelist, fileEnd, r)
    ensures AllocOk(levels + [[r]], freelist, fileEnd)
  {
    var levels' := levels + [[r]];
    forall m, x | 0 <= m < |levels'| && 0 <= x < |levels'[m]|
      ensures levels'[m][x] == r || exists o :: 0 <= o < |levels| && levels'[m][x] in levels[o]
    {
      if m < |levels| { assert levels'[m][x] in levels[m]; }
    }
    UsedUp(levels, levels', freelist, fileEnd, r);
  }
}
