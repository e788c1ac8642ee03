/** Where a full page is split: the slot nearest the median at which both halves, with the pending
    entry on the side it sorts into, fit a fresh page. */
module SplitPoint {
  import opened Entries
  import opened Layout
  import opened BtPages

  ghost predicate WithinKeyBound(s: seq<Entry>) {
    forall i :: 0 <= i < |s| ==> |s[i].key| <= MAX_INDEX_KEY_BYTES
  }

  /** The largest an entry within the key bound can cost, line pointer included. */
  const MAX_COST: nat := MAX_INDEX_KEY_BYTES + LEAF_TRAILER_SIZE + LINE_POINTER_SIZE

  lemma {:induction false} BytesConcat(level: nat, a: seq<Entry>, b: seq<Entry>)
    ensures Bytes(level, a + b) == Bytes(level, a) + Bytes(level, b)
  {
    if b == [] {
      assert a + b == a;
    } else {
      var c := a + b;
      BytesConcat(level, a, b[..|b| - 1]);
      assert c[..|c| - 1] == a + b[..|b| - 1] && c[|c| - 1] == b[|b| - 1];
    }
  }

  lemma BytesOne(level: nat, e: Entry)
    ensures Bytes(level, [e]) == EntryLen(level, e)
  {
    assert [e][..0] == [];
  }

  lemma CostSplit(level: nat, s: seq<Entry>, k: nat)
    requires k <= |s|
    ensures TotalCost(level, s) == TotalCost(level, s[..k]) + TotalCost(level, s[k..])
  {
    assert s == s[..k] + s[k..];
    BytesConcat(level, s[..k], s[k..]);
  }

  /** Left cost at `k + 1` is left cost at `k` plus one entry. */
  lemma CostStep(level: nat, s: seq<Entry>, k: nat)
    requires k < |s|
    ensures TotalCost(level, s[..k + 1]) == TotalCost(level, s[..k]) + Cost(level, s[k])
  {
    assert s[..k + 1][..k] == s[..k];
  }

  lemma InsertBytes(level: nat, s: seq<Entry>, slot: nat, e: Entry)
    requires slot <= |s|
    ensures Bytes(level, s[..slot] + [e] + s[slot..]) == Bytes(level, s) + EntryLen(level, e)
  {
    hide Bytes;
    BytesConcat(level, s[..slot] + [e], s[slot..]);
    BytesConcat(level, s[..slot], [e]);
    BytesConcat(level, s[..slot], s[slot..]);
    BytesOne(level, e);
    assert s[..slot] + s[slot..] == s;
  }

  /** Both halves fit a fresh page with the pending entry on the side its insertion position `p` puts it. */
  predicate ValidSplit(level: nat, s: seq<Entry>, e: Entry, p: nat, k: nat)
    requires k <= |s|
  {
    && TotalCost(level, s[k..]) + (if p <= k then 0 else Cost(level, e)) <= CAPACITY
    && TotalCost(level, s[..k]) + (if p <= k then Cost(level, e) else 0) <= CAPACITY
  }

  /** What the key bound and a full page give the split: small entries that all came off one page. */
  ghost predicate Splittable(page: Page, e: Entry)
    requires page.Page?
  {
    WithinKeyBound(page.entries + [e]) && TotalCost(page.level, page.entries) <= CAPACITY
  }

  /** Under the key bound one of at most two slots next to the insertion position is valid. */
  lemma SplitExists(level: nat, s: seq<Entry>, e: Entry, p: nat) returns (k: nat)
    requires |s| >= 2 && p <= |s| && WithinKeyBound(s + [e]) && TotalCost(level, s) <= CAPACITY
    ensures 1 <= k < |s| && ValidSplit(level, s, e, p, k)
  {
    var all := s + [e];
    forall i | 0 <= i < |s| ensures Cost(level, s[i]) <= MAX_COST { assert all[i] == s[i]; }
    assert all[|s|] == e && Cost(level, e) <= MAX_COST;
    k := if p <= 1 then 1 else if p == |s| then p - 1 else p;
    CostSplit(level, s, k);
    if p <= 1 {
      CostStep(level, s, 0);
    } else {
      CostStep(level, s, p - 1);
      CostSplit(level, s, p - 1);
      CostSplit(level, s, p);
      if p < |s| && !ValidSplit(level, s, e, p, p) {
        k := p - 1;
      }
    }
  }

  /** `choose_split_slot`. Without a pending entry the median; with one, the valid slot closest to it. */
  method ChooseSplitSlot(page: Page, pending: Option<Entry>) returns (r: Result<nat, PageError>)
    requires page.Page?
    ensures r.Ok? ==> 1 <= r.value < |page.entries|
    ensures |page.entries| < 2 ==> r.Err?
    ensures pending.None? && |page.entries| >= 2 ==> r == Ok(|page.entries| / 2)
    ensures r.Ok? && pending.Some? && Sorted(page.entries) ==> exists p ::
      IsLowerBound(page.entries, pending.value, p) && ValidSplit(page.level, page.entries, pending.value, p, r.value)
    ensures r.Ok? && pending.Some? && Sorted(page.entries) ==> forall k, p ::
      IsLowerBound(page.entries, pending.value, p) && 1 <= k < |page.entries| &&
        ValidSplit(page.level, page.entries, pending.value, p, k)
      ==> Distance(r.value, |page.entries| / 2) <= Distance(k, |page.entries| / 2)
    ensures |page.entries| >= 2 && (pending.Some? ==> Splittable(page, pending.value)) ==> r.Ok?
  {
    var count := |page.entries|;
    if count < 2 {
      return Err(Corrupted);
    }
    if pending.None? {
      return Ok(count / 2);
    }
    var e := pending.value;
    var p := LowerBound(page.entries, e);
    forall q | Sorted(page.entries) && IsLowerBound(page.entries, e, q) ensures q == p {
      LowerBoundUnique(page.entries, e, p, q);
    }
    hide ValidSplit, IsLowerBound, Sorted;
    var mid, d := count / 2, 0;
    while d <= count / 2 + 1
      invariant 0 <= d <= count / 2 + 2
      invariant forall k :: 1 <= k < count && Distance(k, mid) < d ==> !ValidSplit(page.level, page.entries, e, p, k)
    {
      var above := mid + d;
      if above < count && ValidSplit(page.level, page.entries, e, p, above) {
        return Ok(above);
      }
      var below := if d <= mid then mid - d else 0;
      if 1 <= below < count && ValidSplit(page.level, page.entries, e, p, below) {
        return Ok(below);
      }
      d := d + 1;
    }
    assert forall k :: 1 <= k < count ==> Distance(k, mid) < d;
    if Splittable(page, e) {
      ghost var k := SplitExists(page.level, page.entries, e, p);
      assert false;
    }
    r := Err(PageFull);
  }

  function Distance(a: nat, b: nat): nat {
    if a < b then b - a else a - b
  }

  /** The half room was reserved on is the half the later entry comparison picks. */
  lemma ReservedHalfIsChosen(s: seq<Entry>, e: Entry, p: nat, k: nat)
    requires Sorted(s) && IsLowerBound(s, e, p) && k < |s| && e !in s
    ensures p <= k <==> Less(e, s[k])
  {
    LessTotal(e, s[k]);
    if p <= k { assert !Less(s[k], e); }
  }

  /** For an entry already on the page the two rules part only where the entry itself starts the right half. */
  lemma ReservedHalfOfPresent(s: seq<Entry>, e: Entry, p: nat, k: nat)
    requires Sorted(s) && IsLowerBound(s, e, p) && k < |s|
    ensures (p <= k <==> Less(e, s[k])) <==> s[k] != e
  {
    LessTotal(e, s[k]);
    if p <= k { assert !Less(s[k], e); }
  }
}
