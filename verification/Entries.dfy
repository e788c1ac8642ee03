/** Index keys, heap tuple ids and index entries, with the one order the whole B+Tree rests on:
    byte-wise lexicographic on the key, then the trailer. */
module Entries {

  datatype Option<+T> = None | Some(value: T)

  datatype Result<+T, +E> = Ok(value: T) | Err(error: E)

  type byte = x: int | 0 <= x < 256

  /** Page id 0 is the reserved `INVALID` id. */
  type PageId = nat

  const INVALID: PageId := 0

  /** A leaf entry has the heap TID `(ptr, sub) = (page, slot)` as its trailer; an internal entry
      has the child page id as `ptr` and `sub == 0`. */
  datatype Entry = Entry(key: seq<byte>, ptr: nat, sub: nat)

  predicate KeyLess(a: seq<byte>, b: seq<byte>) {
    if b == [] then false
    else if a == [] then true
    else a[0] < b[0] || (a[0] == b[0] && KeyLess(a[1..], b[1..]))
  }

  /** The full `(key, trailer)` order of `entry_cmp`. */
  predicate Less(a: Entry, b: Entry) {
    || KeyLess(a.key, b.key)
    || (a.key == b.key && (a.ptr < b.ptr || (a.ptr == b.ptr && a.sub < b.sub)))
  }

  lemma {:induction false} KeyTotal(a: seq<byte>, b: seq<byte>)
    ensures KeyLess(a, b) || a == b || KeyLess(b, a)
    ensures !(KeyLess(a, b) && KeyLess(b, a))
    ensures !KeyLess(a, a)
  {
    if a != [] {
      KeyTotal(a[1..], a[1..]);
      if b != [] {
        KeyTotal(a[1..], b[1..]);
        assert a == [a[0]] + a[1..] && b == [b[0]] + b[1..];
      }
    }
  }

  lemma {:induction false} KeyTransitive(a: seq<byte>, b: seq<byte>, c: seq<byte>)
    requires KeyLess(a, b) && KeyLess(b, c)
    ensures KeyLess(a, c)
  {
    if a != [] && a[0] == b[0] == c[0] {
      KeyTransitive(a[1..], b[1..], c[1..]);
    }
  }

  /** The keys agree up to `k`, where `a` has the smaller byte. */
  predicate DiffersAt(a: seq<byte>, b: seq<byte>, k: nat) {
    k < |a| && k < |b| && a[..k] == b[..k] && a[k] < b[k]
  }

  /** The key order is lexicographic: a proper prefix, or smaller at the first difference. */
  lemma {:induction false} KeyLexicographic(a: seq<byte>, b: seq<byte>)
    ensures KeyLess(a, b) <==> a < b || exists k :: DiffersAt(a, b, k)
    decreases |a|
  {
    if a != [] && b != [] && a[0] == b[0] {
      KeyLexicographic(a[1..], b[1..]);
      assert a == [a[0]] + a[1..] && b == [b[0]] + b[1..];
      if k: nat :| DiffersAt(a, b, k) {
        assert k > 0 && a[1..][..k - 1] == a[..k][1..] && b[1..][..k - 1] == b[..k][1..];
        assert DiffersAt(a[1..], b[1..], k - 1);
      }
      if k: nat :| DiffersAt(a[1..], b[1..], k) {
        assert a[..k + 1] == [a[0]] + a[1..][..k] && b[..k + 1] == [b[0]] + b[1..][..k];
        assert DiffersAt(a, b, k + 1);
      }
    } else if a != [] && b != [] {
      assert a[0] < b[0] ==> DiffersAt(a, b, 0);
      if k: nat :| DiffersAt(a, b, k) { assert k > 0 ==> a[..k][0] == b[..k][0]; }
    }
  }

  lemma LessTotal(a: Entry, b: Entry)
    ensures Less(a, b) || a == b || Less(b, a)
    ensures !(Less(a, b) && Less(b, a))
    ensures !Less(a, a)
  {
    KeyTotal(a.key, b.key);
    KeyTotal(a.key, a.key);
  }

  lemma LessTransitive(a: Entry, b: Entry, c: Entry)
    requires Less(a, b) && Less(b, c)
    ensures Less(a, c)
  {
    if KeyLess(a.key, b.key) && KeyLess(b.key, c.key) {
      KeyTransitive(a.key, b.key, c.key);
    }
  }

  /** The order facts in quantified form, for proofs that compare many entries. */
  lemma LessOrder()
    ensures forall a, b :: Less(a, b) || a == b || Less(b, a)
    ensures forall a, b :: Less(a, b) ==> !Less(b, a) && a != b
    ensures forall a, b, c :: Less(a, b) && Less(b, c) ==> Less(a, c)
  {
    forall a, b ensures (Less(a, b) || a == b || Less(b, a)) && (Less(a, b) ==> !Less(b, a) && a != b) {
      LessTotal(a, b);
    }
    forall a, b, c | Less(a, b) && Less(b, c) ensures Less(a, c) {
      LessTransitive(a, b, c);
    }
  }

  /** Strictly ascending in the full order. */
  ghost predicate Sorted(s: seq<Entry>) {
    forall i, j {:trigger Less(s[i], s[j])} :: 0 <= i < j < |s| ==> Less(s[i], s[j])
  }

  /** Every entry of `a` sorts below every entry of `b`. */
  ghost predicate Below(a: seq<Entry>, b: seq<Entry>) {
    forall x, y {:trigger Less(a[x], b[y])} :: 0 <= x < |a| && 0 <= y < |b| ==> Less(a[x], b[y])
  }

  lemma SortedConcat(a: seq<Entry>, b: seq<Entry>)
    ensures Sorted(a + b) <==> Sorted(a) && Sorted(b) && Below(a, b)
  {
    var c := a + b;
    if Sorted(c) {
      forall i, j | 0 <= i < j < |a| ensures Less(a[i], a[j]) { assert a[i] == c[i] && a[j] == c[j]; }
      forall i, j | 0 <= i < j < |b| ensures Less(b[i], b[j]) { assert b[i] == c[|a| + i] && b[j] == c[|a| + j]; }
      forall x, y | 0 <= x < |a| && 0 <= y < |b| ensures Less(a[x], b[y]) { assert a[x] == c[x] && b[y] == c[|a| + y]; }
    }
  }

  lemma BelowInner(p: seq<Entry>, a: seq<Entry>, m: seq<Entry>, b: seq<Entry>, z: seq<Entry>)
    requires Below(p + a, m + b + z)
    ensures Below(a, b)
  {
    forall x, y | 0 <= x < |a| && 0 <= y < |b| ensures Less(a[x], b[y]) {
      assert (p + a)[|p| + x] == a[x] && (m + b + z)[|m| + y] == b[y];
    }
  }

  /** `p` splits `s` into the entries below `e` and those at or above it: the binary-search result. */
  ghost predicate IsLowerBound(s: seq<Entry>, e: Entry, p: nat) {
    && p <= |s|
    && (forall i :: 0 <= i < p ==> Less(s[i], e))
    && (forall i :: p <= i < |s| ==> !Less(s[i], e))
  }

  /** `entry_lower_bound`, `leaf_lower_bound` and `internal_lower_bound`: one binary search over
      three encodings of the same order, total on any input, meaningful on a sorted one. */
  method LowerBound(s: seq<Entry>, e: Entry) returns (p: nat)
    ensures p <= |s| && (Sorted(s) ==> IsLowerBound(s, e, p))
  {
    LessOrder();
    var hi := |s|;
    p := 0;
    while p < hi
      invariant 0 <= p <= hi <= |s|
      invariant Sorted(s) ==> forall i :: 0 <= i < p ==> Less(s[i], e)
      invariant Sorted(s) ==> forall i :: hi <= i < |s| ==> !Less(s[i], e)
    {
      var mid := (p + hi) / 2;
      if Less(s[mid], e) {
        p := mid + 1;
      } else {
        hi := mid;
      }
    }
  }

  lemma LowerBoundUnique(s: seq<Entry>, e: Entry, p: nat, q: nat)
    requires IsLowerBound(s, e, p) && IsLowerBound(s, e, q)
    ensures p == q
  {
    assert p < |s| ==> !Less(s[p], e);
    assert q < |s| ==> !Less(s[q], e);
  }

  /** Inserting an absent entry at its lower bound keeps the sequence strictly sorted. */
  lemma InsertSorted(s: seq<Entry>, e: Entry, p: nat)
    requires Sorted(s) && IsLowerBound(s, e, p) && e !in s
    ensures Sorted(s[..p] + [e] + s[p..])
  {
    forall i | p <= i < |s| ensures Less(e, s[i]) {
      LessTotal(e, s[i]);
    }
  }

  /** Position of the pair in the sorted sequence is unique: two sorted sequences with the same
      members are equal. */
  lemma {:induction false} SortedUnique(s: seq<Entry>, t: seq<Entry>)
    requires Sorted(s) && Sorted(t)
    requires forall e :: e in s <==> e in t
    ensures s == t
  {
    assert t != [] ==> t[0] in t;
    if s != [] {
      assert s[0] in t;
      assert t[0] in s;
      LessTotal(s[0], t[0]);
      var i :| 0 <= i < |t| && t[i] == s[0];
      var j :| 0 <= j < |s| && s[j] == t[0];
      assert s[0] == t[0];
      forall e ensures e in s[1..] <==> e in t[1..] {
        TailMember(s, e);
        TailMember(t, e);
      }
      SortedUnique(s[1..], t[1..]);
      assert s == [s[0]] + s[1..] && t == [t[0]] + t[1..];
    }
  }

  lemma TailMember(s: seq<Entry>, e: Entry)
    requires Sorted(s) && s != []
    ensures e in s[1..] <==> e in s && e != s[0]
  {
    LessTotal(s[0], s[0]);
    if e in s && e != s[0] {
      var i :| 0 <= i < |s| && s[i] == e;
      assert s[1..][i - 1] == e;
    }
  }
}
