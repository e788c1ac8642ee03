/** HOT chains on one heap page: versions linked by `t_ctid`, only the chain root indexed, and vacuum's rule that a
    chain is killed whole or not at all. */
module HotChains {
  import opened Entries
  import opened FiniteSets

  /** What a tuple header says of its chain, and the indexed columns of the row. */
  datatype Row = Row(heapOnly: bool, hotUpdated: bool, ctid: nat, key: nat)

  /** A page by slot; a slot without a readable tuple is `None`. */
  type Rows = seq<Option<Row>>

  predicate Holds(rows: Rows, s: nat) {
    s < |rows| && rows[s].Some?
  }

  predicate Links(rows: Rows, a: nat, b: nat) {
    Holds(rows, a) && rows[a].value.hotUpdated && rows[a].value.ctid == b
  }

  predicate HasNext(rows: Rows, a: nat) {
    Holds(rows, a) && rows[a].value.hotUpdated
  }

  /** Every link leads to a younger heap-only version of the same row, no two to the same one. `born` orders versions
      by creation; it exists only for the argument. */
  ghost predicate ChainsOk(rows: Rows, born: seq<nat>, clock: nat) {
    && |born| == |rows| && (forall s :: 0 <= s < |rows| ==> born[s] < clock)
    && (forall a :: 0 <= a < |rows| && HasNext(rows, a) ==>
          var b := rows[a].value.ctid;
          Holds(rows, b) && rows[b].value.heapOnly && born[a] < born[b] && rows[b].value.key == rows[a].value.key)
    && (forall a, c ::
          && 0 <= a < |rows| && 0 <= c < |rows| && HasNext(rows, a) && HasNext(rows, c)
          && rows[a].value.ctid == rows[c].value.ctid
          ==> a == c)
  }

  ghost predicate IsRoot(rows: Rows, r: nat) {
    Holds(rows, r) && forall a :: 0 <= a < |rows| ==> !Links(rows, a, r)
  }

  /** The versions reachable forward from `s`, oldest first. */
  ghost function Chain(rows: Rows, born: seq<nat>, clock: nat, s: nat): (c: seq<nat>)
    requires ChainsOk(rows, born, clock) && Holds(rows, s)
    ensures |c| > 0 && c[0] == s
    decreases clock - born[s]
  {
    [s] + if HasNext(rows, s) then Chain(rows, born, clock, rows[s].value.ctid) else []
  }

  // ---------------------------------------------------------------- chains are disjoint and acyclic

  /** `t` holds a version of the same row, no older than `s`. */
  ghost predicate SameRow(rows: Rows, born: seq<nat>, s: nat, t: nat) {
    Holds(rows, s) && Holds(rows, t) && |born| == |rows| && rows[t].value.key == rows[s].value.key && born[s] <= born[t]
  }

  ghost predicate Older(born: seq<nat>, a: nat, b: nat) {
    a < |born| && b < |born| && born[a] < born[b]
  }

  ghost predicate Rising(rows: Rows, born: seq<nat>, s: nat, c: seq<nat>) {
    && (forall i :: 0 <= i < |c| ==> SameRow(rows, born, s, c[i]))
    && (forall i, j :: 0 <= i < j < |c| ==> Older(born, c[i], c[j]))
  }

  /** Along a chain versions get younger, all hold a row, and all share the root's key: no link dangles, none returns.
      */
  lemma {:induction false} ChainRises(rows: Rows, born: seq<nat>, clock: nat, s: nat)
    requires ChainsOk(rows, born, clock) && Holds(rows, s)
    ensures Rising(rows, born, s, Chain(rows, born, clock, s))
    decreases clock - born[s]
  {
    if HasNext(rows, s) {
      var next := rows[s].value.ctid;
      ChainRises(rows, born, clock, next);
      RisingCons(rows, born, s, next, Chain(rows, born, clock, next));
    }
  }

  lemma RisingCons(rows: Rows, born: seq<nat>, s: nat, next: nat, d: seq<nat>)
    requires Rising(rows, born, next, d) && SameRow(rows, born, s, next) && Older(born, s, next)
    ensures Rising(rows, born, s, [s] + d)
  {
    var c := [s] + d;
    forall i | 0 <= i < |c| ensures SameRow(rows, born, s, c[i]) && (i > 0 ==> Older(born, s, c[i])) {
      if i > 0 { assert SameRow(rows, born, next, d[i - 1]); }
    }
    forall i, j | 0 <= i < j < |c| ensures Older(born, c[i], c[j]) {
      if i > 0 { assert Older(born, d[i - 1], d[j - 1]); }
    }
  }

  /** Chains of different roots are disjoint. */
  lemma {:induction false} RootsDisjoint(rows: Rows, born: seq<nat>, clock: nat, r: nat, q: nat, i: nat, j: nat)
    requires ChainsOk(rows, born, clock) && IsRoot(rows, r) && IsRoot(rows, q)
    requires i < |Chain(rows, born, clock, r)| && j < |Chain(rows, born, clock, q)|
    requires Chain(rows, born, clock, r)[i] == Chain(rows, born, clock, q)[j]
    ensures r == q
    decreases i + j
  {
    if i > 0 { PrevLinks(rows, born, clock, r, i); }
    if j > 0 { PrevLinks(rows, born, clock, q, j); }
    if i > 0 && j > 0 {
      RootsDisjoint(rows, born, clock, r, q, i - 1, j - 1);
    }
  }

  lemma {:induction false} PrevLinks(rows: Rows, born: seq<nat>, clock: nat, s: nat, i: nat)
    requires ChainsOk(rows, born, clock) && Holds(rows, s) && 0 < i < |Chain(rows, born, clock, s)|
    ensures Links(rows, Chain(rows, born, clock, s)[i - 1], Chain(rows, born, clock, s)[i])
    decreases i
  {
    if i > 1 { PrevLinks(rows, born, clock, rows[s].value.ctid, i - 1); }
  }

  /** The last version of a chain has no successor. */
  lemma {:induction false} ChainEnds(rows: Rows, born: seq<nat>, clock: nat, s: nat)
    requires ChainsOk(rows, born, clock) && Holds(rows, s)
    ensures var c := Chain(rows, born, clock, s); !HasNext(rows, c[|c| - 1])
    ensures var c := Chain(rows, born, clock, s); forall i :: 0 <= i < |c| - 1 ==>
      HasNext(rows, c[i]) && rows[c[i]].value.ctid == c[i + 1]
    decreases clock - born[s]
  {
    if HasNext(rows, s) { ChainEnds(rows, born, clock, rows[s].value.ctid); }
  }

  // ---------------------------------------------------------------- the hop bound

  /** More than `n` distinct slots do not exist on a page of `n`. */
  lemma SlotsBound(seen: set<nat>, n: nat)
    requires forall x :: x in seen ==> x < n
    ensures |seen| <= n
  {
    IntervalSize(0, n);
    assert seen <= Interval(0, n);
    SubsetSize(seen, Interval(0, n));
  }

  /** A chain is never longer than the page has slots. */
  lemma ChainLength(rows: Rows, born: seq<nat>, clock: nat, s: nat)
    requires ChainsOk(rows, born, clock) && Holds(rows, s)
    ensures |Chain(rows, born, clock, s)| <= |rows|
  {
    var c := Chain(rows, born, clock, s);
    ChainRises(rows, born, clock, s);
    RisingDistinct(rows, born, s, c);
    SlotsBound(Members(c), |rows|);
  }

  lemma RisingDistinct(rows: Rows, born: seq<nat>, s: nat, c: seq<nat>)
    requires Rising(rows, born, s, c)
    ensures |Members(c)| == |c| && forall x :: x in Members(c) ==> x < |rows|
  {
    assert forall i, j :: 0 <= i < j < |c| ==> Older(born, c[i], c[j]) && c[i] != c[j];
    Distinct(c);
    assert forall i :: 0 <= i < |c| ==> SameRow(rows, born, s, c[i]);
  }

  function Members(c: seq<nat>): (m: set<nat>)
    ensures forall x :: x in m <==> x in c
  {
    if c == [] then {} else Members(c[1..]) + {c[0]}
  }

  lemma {:induction false} Distinct(c: seq<nat>)
    requires forall i, j :: 0 <= i < j < |c| ==> c[i] != c[j]
    ensures |Members(c)| == |c|
  {
    if c != [] { Distinct(c[1..]); }
  }

  // ---------------------------------------------------------------- chain roots

  ghost predicate OnChain(rows: Rows, born: seq<nat>, clock: nat, r: nat, s: nat) {
    ChainsOk(rows, born, clock) && Holds(rows, r) && s in Chain(rows, born, clock, r)
  }

  ghost function RootOf(rows: Rows, born: seq<nat>, clock: nat, s: nat): nat
    requires ChainsOk(rows, born, clock) && Holds(rows, s)
    decreases born[s]
  {
    if a :| 0 <= a < |rows| && Links(rows, a, s) then RootOf(rows, born, clock, a) else s
  }

  /** Every version lies on the chain of exactly one root. */
  lemma {:induction false} RootUnique(rows: Rows, born: seq<nat>, clock: nat, s: nat)
    requires ChainsOk(rows, born, clock) && Holds(rows, s)
    ensures IsRoot(rows, RootOf(rows, born, clock, s)) && OnChain(rows, born, clock, RootOf(rows, born, clock, s), s)
    ensures forall r :: IsRoot(rows, r) && OnChain(rows, born, clock, r, s) ==> r == RootOf(rows, born, clock, s)
  {
    RootExists(rows, born, clock, s, s);
    var q := RootOf(rows, born, clock, s);
    forall r | IsRoot(rows, r) && OnChain(rows, born, clock, r, s) ensures r == q {
      var i :| 0 <= i < |Chain(rows, born, clock, r)| && Chain(rows, born, clock, r)[i] == s;
      var j :| 0 <= j < |Chain(rows, born, clock, q)| && Chain(rows, born, clock, q)[j] == s;
      RootsDisjoint(rows, born, clock, r, q, i, j);
    }
  }

  lemma {:induction false} RootExists(rows: Rows, born: seq<nat>, clock: nat, s: nat, t: nat)
    requires OnChain(rows, born, clock, s, t)
    ensures IsRoot(rows, RootOf(rows, born, clock, s)) && OnChain(rows, born, clock, RootOf(rows, born, clock, s), t)
    decreases born[s]
  {
    if a :| 0 <= a < |rows| && Links(rows, a, s) {
      assert Chain(rows, born, clock, a) == [a] + Chain(rows, born, clock, s);
      RootExists(rows, born, clock, a, t);
    }
  }

  /** Linked versions share their root. */
  lemma LinkSameRoot(rows: Rows, born: seq<nat>, clock: nat, a: nat)
    requires ChainsOk(rows, born, clock) && HasNext(rows, a)
    ensures RootOf(rows, born, clock, rows[a].value.ctid) == RootOf(rows, born, clock, a)
  {
    var b := rows[a].value.ctid;
    RootUnique(rows, born, clock, a);
    RootUnique(rows, born, clock, b);
    NextOnChain(rows, born, clock, RootOf(rows, born, clock, a), a);
  }

  lemma NextOnChain(rows: Rows, born: seq<nat>, clock: nat, r: nat, a: nat)
    requires OnChain(rows, born, clock, r, a) && HasNext(rows, a)
    ensures OnChain(rows, born, clock, r, rows[a].value.ctid)
  {
    var c := Chain(rows, born, clock, r);
    ChainEnds(rows, born, clock, r);
    hide Chain;
    var i :| 0 <= i < |c| && c[i] == a;
    assert i < |c| - 1 && c[i + 1] == rows[a].value.ctid;
  }

  // ---------------------------------------------------------------- following a chain

  datatype HotError = Cycle

  function FirstIn(c: seq<nat>, visible: set<nat>): Option<nat> {
    if c == [] then None else if c[0] in visible then Some(c[0]) else FirstIn(c[1..], visible)
  }

  /** The chain walk of a read: the oldest visible version from `start`. The hop bound is an error only for a page
      without slots, never for a chain. */
  method FollowHotChain(rows: Rows, start: nat, visible: set<nat>, ghost born: seq<nat>, ghost clock: nat)
    returns (r: Result<Option<nat>, HotError>)
    ensures ChainsOk(rows, born, clock) ==> (r.Err? <==> rows == [])
    ensures ChainsOk(rows, born, clock) && Holds(rows, start) ==>
      r == Ok(FirstIn(Chain(rows, born, clock, start), visible))
    ensures rows != [] && !Holds(rows, start) ==> r == Ok(None)
  {
    var cur, i := start, 0;
    if ChainsOk(rows, born, clock) && Holds(rows, start) { ChainLength(rows, born, clock, start); }
    while i < |rows|
      invariant i <= |rows|
      invariant i == 0 ==> cur == start
      invariant i > 0 ==> Holds(rows, start)
      invariant ChainsOk(rows, born, clock) && Holds(rows, start) ==>
        && Holds(rows, cur) && i + |Chain(rows, born, clock, cur)| <= |rows|
        && FirstIn(Chain(rows, born, clock, cur), visible) == FirstIn(Chain(rows, born, clock, start), visible)
    {
      if !Holds(rows, cur) { return Ok(None); }
      if cur in visible { return Ok(Some(cur)); }
      if !HasNext(rows, cur) || rows[cur].value.ctid == cur { return Ok(None); }
      cur, i := rows[cur].value.ctid, i + 1;
    }
    return Err(Cycle);
  }

  /** The forward links of the page, by target. */
  method LinkMap(rows: Rows) returns (links: map<nat, nat>)
    ensures forall t :: t in links ==> Links(rows, links[t], t)
    ensures forall a :: 0 <= a < |rows| && HasNext(rows, a) ==> rows[a].value.ctid in links
  {
    links := map[];
    for slot := 0 to |rows|
      invariant forall t :: t in links ==> Links(rows, links[t], t)
      invariant forall a :: 0 <= a < slot && HasNext(rows, a) ==> rows[a].value.ctid in links
    {
      if HasNext(rows, slot) { links := links[rows[slot].value.ctid := slot]; }
    }
  }

  /** The version that owns the index entries of `s`. */
  method HotChainRoot(rows: Rows, s: nat, ghost born: seq<nat>, ghost clock: nat) returns (r: Result<nat, HotError>)
    ensures ChainsOk(rows, born, clock) && Holds(rows, s) ==> r == Ok(RootOf(rows, born, clock, s))
    ensures rows != [] && !Holds(rows, s) ==> r == Ok(s)
  {
    var links := LinkMap(rows);
    var cur, i := s, 0;
    if ChainsOk(rows, born, clock) && Holds(rows, s) { RootUnique(rows, born, clock, s); }
    while i < |rows|
      invariant i <= |rows|
      invariant i == 0 ==> cur == s
      invariant i > 0 ==> Holds(rows, s)
      invariant ChainsOk(rows, born, clock) && Holds(rows, s) ==>
        OnChain(rows, born, clock, cur, s) && i < |Chain(rows, born, clock, cur)|
    {
      if !Holds(rows, cur) || !rows[cur].value.heapOnly { return Ok(cur); }
      if cur !in links { return Ok(cur); }
      cur, i := links[cur], i + 1;
    }
    if ChainsOk(rows, born, clock) && Holds(rows, s) { ChainLength(rows, born, clock, cur); }
    return Err(Cycle);
  }

  /** What is walked and what is left from `cur` make up the chain. */
  ghost predicate Walked(rows: Rows, born: seq<nat>, clock: nat, chain: seq<nat>, cur: nat, whole: seq<nat>) {
    ChainsOk(rows, born, clock) && Holds(rows, cur) && whole == chain + Chain(rows, born, clock, cur)
  }

  lemma WalkStep(rows: Rows, born: seq<nat>, clock: nat, chain: seq<nat>, cur: nat, whole: seq<nat>)
    requires Walked(rows, born, clock, chain, cur, whole) && HasNext(rows, cur)
    ensures Walked(rows, born, clock, chain + [cur], rows[cur].value.ctid, whole)
    ensures rows[cur].value.ctid != cur
  {
    var next := rows[cur].value.ctid;
    assert Holds(rows, next);
    assert whole == chain + ([cur] + Chain(rows, born, clock, next));
  }

  lemma WalkEnd(rows: Rows, born: seq<nat>, clock: nat, chain: seq<nat>, cur: nat, whole: seq<nat>)
    requires Walked(rows, born, clock, chain, cur, whole)
    ensures |chain| < |whole|
    ensures !HasNext(rows, cur) ==> whole == chain + [cur]
  {
  }

  /** The whole chain forward from `root`, or the report that the hop bound ran out. */
  method WalkChain(rows: Rows, root: nat, ghost born: seq<nat>, ghost clock: nat)
    returns (chain: seq<nat>, terminated: bool)
    ensures ChainsOk(rows, born, clock) && Holds(rows, root) ==> terminated && chain == Chain(rows, born, clock, root)
  {
    var cur, i := root, 0;
    chain, terminated := [], false;
    ghost var ok := ChainsOk(rows, born, clock) && Holds(rows, root);
    ghost var whole := if ok then Chain(rows, born, clock, root) else [];
    if ok {
      ChainLength(rows, born, clock, root);
      assert Walked(rows, born, clock, chain, cur, whole);
    }
    hide Walked, Chain;
    while i < |rows|
      invariant i <= |rows| && |chain| == i
      invariant ok ==> Walked(rows, born, clock, chain, cur, whole)
    {
      if ok {
        WalkEnd(rows, born, clock, chain, cur, whole);
        if HasNext(rows, cur) { WalkStep(rows, born, clock, chain, cur, whole); }
      }
      chain := chain + [cur];
      if !HasNext(rows, cur) || rows[cur].value.ctid == cur { return chain, true; }
      cur, i := rows[cur].value.ctid, i + 1;
    }
    if ok { WalkEnd(rows, born, clock, chain, cur, whole); }
  }

  // ---------------------------------------------------------------- vacuum's classification

  datatype Classified = Classified(keys: seq<nat>, kills: seq<nat>)

  ghost predicate FullyDead(rows: Rows, born: seq<nat>, clock: nat, r: nat, dead: set<nat>) {
    ChainsOk(rows, born, clock) && Holds(rows, r) && Members(Chain(rows, born, clock, r)) <= dead
  }

  /** The version lies on a chain of which every version is dead. */
  ghost predicate Doomed(rows: Rows, born: seq<nat>, clock: nat, s: nat, dead: set<nat>) {
    && ChainsOk(rows, born, clock) && Holds(rows, s)
    && FullyDead(rows, born, clock, RootOf(rows, born, clock, s), dead)
  }

  ghost predicate RootIn(rows: Rows, born: seq<nat>, clock: nat, s: nat, done: set<nat>) {
    ChainsOk(rows, born, clock) && Holds(rows, s) && RootOf(rows, born, clock, s) in done
  }

  ghost predicate IsDoneRoot(rows: Rows, born: seq<nat>, clock: nat, q: nat, visited: set<nat>) {
    IsRoot(rows, q) && ChainsOk(rows, born, clock) && Members(Chain(rows, born, clock, q)) <= visited
  }

  ghost predicate VisitedDone(rows: Rows, born: seq<nat>, clock: nat, visited: set<nat>, done: set<nat>) {
    && (forall s :: s in visited && Holds(rows, s) ==> RootIn(rows, born, clock, s, done))
    && (forall q :: q in done ==> IsDoneRoot(rows, born, clock, q, visited))
  }

  ghost predicate KeysOk(rows: Rows, born: seq<nat>, clock: nat, dead: set<nat>, done: set<nat>, keys: seq<nat>) {
    && (forall t :: t in keys <==> t in done && FullyDead(rows, born, clock, t, dead))
    && (forall i, j :: 0 <= i < j < |keys| ==> keys[i] != keys[j])
  }

  ghost predicate KillsOk(rows: Rows, born: seq<nat>, clock: nat, dead: set<nat>, done: set<nat>, kills: set<nat>) {
    forall s :: s in kills <==> RootIn(rows, born, clock, s, done) && Doomed(rows, born, clock, s, dead)
  }

  /** `done` are the roots of the chains walked so far; keys and kills are what those chains call for. */
  ghost predicate Settled(rows: Rows, born: seq<nat>, clock: nat, dead: set<nat>, visited: set<nat>, done: set<nat>,
                          keys: seq<nat>, kills: set<nat>) {
    && VisitedDone(rows, born, clock, visited, done)
    && KeysOk(rows, born, clock, dead, done, keys)
    && KillsOk(rows, born, clock, dead, done, kills)
  }

  lemma ChainIsRootClass(rows: Rows, born: seq<nat>, clock: nat, r: nat, s: nat)
    requires ChainsOk(rows, born, clock) && IsRoot(rows, r)
    ensures s in Members(Chain(rows, born, clock, r)) <==> Holds(rows, s) && RootOf(rows, born, clock, s) == r
  {
    if s in Members(Chain(rows, born, clock, r)) {
      OnChainHolds(rows, born, clock, r, s);
      RootUnique(rows, born, clock, s);
    } else if Holds(rows, s) {
      RootUnique(rows, born, clock, s);
    }
  }

  lemma OnChainHolds(rows: Rows, born: seq<nat>, clock: nat, r: nat, s: nat)
    requires OnChain(rows, born, clock, r, s)
    ensures Holds(rows, s)
  {
    var c := Chain(rows, born, clock, r);
    var i :| 0 <= i < |c| && c[i] == s;
    ChainRises(rows, born, clock, r);
    assert SameRow(rows, born, r, c[i]);
  }

  lemma RootOfRoot(rows: Rows, born: seq<nat>, clock: nat, r: nat)
    requires ChainsOk(rows, born, clock) && IsRoot(rows, r)
    ensures RootOf(rows, born, clock, r) == r
  {
  }

  /** The versions with root `r`. */
  ghost predicate IsClass(rows: Rows, born: seq<nat>, clock: nat, r: nat, chain: set<nat>) {
    && IsDoneRoot(rows, born, clock, r, chain) && Members(Chain(rows, born, clock, r)) == chain
    && forall s :: s in chain <==> RootIn(rows, born, clock, s, {r})
  }

  lemma ClassOf(rows: Rows, born: seq<nat>, clock: nat, r: nat)
    requires ChainsOk(rows, born, clock) && IsRoot(rows, r)
    ensures IsClass(rows, born, clock, r, Members(Chain(rows, born, clock, r)))
  {
    forall s ensures s in Members(Chain(rows, born, clock, r)) <==> RootIn(rows, born, clock, s, {r}) {
      ChainIsRootClass(rows, born, clock, r, s);
    }
  }

  lemma VisitMore(rows: Rows, born: seq<nat>, clock: nat, visited: set<nat>, done: set<nat>, r: nat, chain: set<nat>)
    requires IsClass(rows, born, clock, r, chain) && VisitedDone(rows, born, clock, visited, done)
    ensures VisitedDone(rows, born, clock, visited + chain, done + {r})
  {
    hide Chain, RootOf, ChainsOk, IsRoot;
    forall s | s in visited + chain && Holds(rows, s) ensures RootIn(rows, born, clock, s, done + {r}) {
      assert RootIn(rows, born, clock, s, done) || RootIn(rows, born, clock, s, {r});
    }
    forall q | q in done + {r} ensures IsDoneRoot(rows, born, clock, q, visited + chain) {
      assert IsDoneRoot(rows, born, clock, q, visited) || IsDoneRoot(rows, born, clock, q, chain);
    }
  }

  lemma KeyMore(rows: Rows, born: seq<nat>, clock: nat, dead: set<nat>, done: set<nat>, keys: seq<nat>, r: nat,
                chain: set<nat>)
    requires IsClass(rows, born, clock, r, chain) && KeysOk(rows, born, clock, dead, done, keys) && r !in done
    ensures KeysOk(rows, born, clock, dead, done + {r}, if chain <= dead then keys + [r] else keys)
  {
    hide Chain, RootOf, ChainsOk, IsRoot;
    assert FullyDead(rows, born, clock, r, dead) <==> chain <= dead;
  }

  lemma KillMore(rows: Rows, born: seq<nat>, clock: nat, dead: set<nat>, done: set<nat>, kills: set<nat>, r: nat,
                 chain: set<nat>)
    requires IsClass(rows, born, clock, r, chain) && KillsOk(rows, born, clock, dead, done, kills)
    ensures KillsOk(rows, born, clock, dead, done + {r}, if chain <= dead then kills + chain else kills)
  {
    hide Chain, RootOf, ChainsOk, IsRoot;
    var now := if chain <= dead then kills + chain else kills;
    forall s ensures s in now <==> RootIn(rows, born, clock, s, done + {r}) && Doomed(rows, born, clock, s, dead) {
      assert RootIn(rows, born, clock, s, done + {r}) <==>
             RootIn(rows, born, clock, s, done) || RootIn(rows, born, clock, s, {r});
      if s in chain {
        assert RootIn(rows, born, clock, s, {r});
        assert Doomed(rows, born, clock, s, dead) <==> chain <= dead;
      }
    }
  }

  /** One more chain walked, the one of an unvisited version. */
  lemma SettleMore(rows: Rows, born: seq<nat>, clock: nat, dead: set<nat>, visited: set<nat>, done: set<nat>,
                   keys: seq<nat>, kills: set<nat>, slot: nat, r: nat)
    requires ChainsOk(rows, born, clock) && IsRoot(rows, r) && slot in Members(Chain(rows, born, clock, r))
    requires slot !in visited
    requires Settled(rows, born, clock, dead, visited, done, keys, kills)
    ensures var chain := Members(Chain(rows, born, clock, r));
      Settled(rows, born, clock, dead, visited + {slot} + chain, done + {r},
              if chain <= dead then keys + [r] else keys, if chain <= dead then kills + chain else kills)
  {
    var chain := Members(Chain(rows, born, clock, r));
    ClassOf(rows, born, clock, r);
    hide Chain, RootOf, ChainsOk, IsRoot, KeysOk, KillsOk, IsClass;
    assert visited + {slot} + chain == visited + chain;
    assert r in done ==> IsDoneRoot(rows, born, clock, r, visited);
    VisitMore(rows, born, clock, visited, done, r, chain);
    KeyMore(rows, born, clock, dead, done, keys, r, chain);
    KillMore(rows, born, clock, dead, done, kills, r, chain);
  }

  lemma SettleNone(rows: Rows, born: seq<nat>, clock: nat, dead: set<nat>, visited: set<nat>, done: set<nat>,
                   keys: seq<nat>, kills: set<nat>, slot: nat)
    requires Settled(rows, born, clock, dead, visited, done, keys, kills) && !Holds(rows, slot)
    ensures Settled(rows, born, clock, dead, visited + {slot}, done, keys, kills)
  {
    forall q | q in done ensures IsDoneRoot(rows, born, clock, q, visited + {slot}) {
      assert IsDoneRoot(rows, born, clock, q, visited);
    }
  }

  /** A version without the heap-only bit is its own root. */
  lemma PickedRoot(rows: Rows, born: seq<nat>, clock: nat, slot: nat, root: nat)
    requires ChainsOk(rows, born, clock) && Holds(rows, slot)
    requires root == if rows[slot].value.heapOnly then RootOf(rows, born, clock, slot) else slot
    ensures IsRoot(rows, root) && Holds(rows, root) && slot in Members(Chain(rows, born, clock, root))
    ensures forall t :: t in Members(Chain(rows, born, clock, root)) ==> Holds(rows, t)
  {
    RootUnique(rows, born, clock, slot);
    forall t | t in Members(Chain(rows, born, clock, root)) ensures Holds(rows, t) {
      OnChainHolds(rows, born, clock, root, t);
    }
  }

  /** Every dead slot has been seen: nothing is left to settle. */
  lemma AllSettled(rows: Rows, born: seq<nat>, clock: nat, dead: set<nat>, visited: set<nat>, done: set<nat>,
                   keys: seq<nat>, kills: set<nat>)
    requires ChainsOk(rows, born, clock) && Settled(rows, born, clock, dead, visited, done, keys, kills)
    requires forall d :: d in dead && d < |rows| ==> d in visited
    ensures forall s :: s in kills <==> Doomed(rows, born, clock, s, dead)
    ensures forall s :: s in kills ==> s < |rows|
    ensures forall i, j :: 0 <= i < j < |keys| ==> keys[i] != keys[j]
    ensures forall t :: t in keys <==> IsRoot(rows, t) && FullyDead(rows, born, clock, t, dead)
  {
    forall t | IsRoot(rows, t) && FullyDead(rows, born, clock, t, dead) ensures t in done {
      assert t in Chain(rows, born, clock, t);
      assert RootIn(rows, born, clock, t, done);
      RootOfRoot(rows, born, clock, t);
    }
    forall t | t in done ensures IsRoot(rows, t) { assert IsDoneRoot(rows, born, clock, t, visited); }
    forall s | Doomed(rows, born, clock, s, dead) ensures RootIn(rows, born, clock, s, done) {
      RootUnique(rows, born, clock, s);
    }
  }

  /** Ascending and without repetition. */
  method Ascending(kills: set<nat>, n: nat) returns (s: seq<nat>)
    ensures forall x :: x in s <==> x in kills && x < n
    ensures forall i, j :: 0 <= i < j < |s| ==> s[i] < s[j]
  {
    s := [];
    for x := 0 to n
      invariant forall y :: y in s <==> y in kills && y < x
      invariant forall i :: 0 <= i < |s| ==> s[i] < x
      invariant forall i, j :: 0 <= i < j < |s| ==> s[i] < s[j]
    {
      if x in kills { s := s + [x]; }
    }
  }

  /** The chain a dead version is on: its root and its members. */
  method ChainOf(rows: Rows, slot: nat, ghost born: seq<nat>, ghost clock: nat)
    returns (r: Result<(nat, set<nat>), HotError>)
    requires Holds(rows, slot)
    ensures ChainsOk(rows, born, clock) ==>
      && r.Ok? && IsRoot(rows, r.value.0) && slot in r.value.1
      && r.value.1 == Members(Chain(rows, born, clock, r.value.0))
      && forall t :: t in r.value.1 ==> Holds(rows, t)
  {
    var root := slot;
    if rows[slot].value.heapOnly {
      var found := HotChainRoot(rows, slot, born, clock);
      if found.Err? { return Err(Cycle); }
      root := found.value;
    }
    if ChainsOk(rows, born, clock) { PickedRoot(rows, born, clock, slot, root); }
    var chain, terminated := WalkChain(rows, root, born, clock);
    if !terminated { return Err(Cycle); }
    return Ok((root, Members(chain)));
  }

  /** Classifies the dead versions of a page: exactly the versions of fully dead chains are killed, in ascending
      order, and each such chain gives up its root's index key once. */
  method ClassifyDead(rows: Rows, deadSlots: seq<nat>, ghost born: seq<nat>, ghost clock: nat)
    returns (r: Result<Classified, HotError>)
    ensures ChainsOk(rows, born, clock) ==> r.Ok?
    ensures ChainsOk(rows, born, clock) ==> forall s :: s in r.value.kills <==>
      Doomed(rows, born, clock, s, Members(deadSlots))
    ensures ChainsOk(rows, born, clock) ==>
      forall i, j :: 0 <= i < j < |r.value.kills| ==> r.value.kills[i] < r.value.kills[j]
    ensures ChainsOk(rows, born, clock) ==>
      && (forall t :: t in r.value.keys <==> IsRoot(rows, t) && FullyDead(rows, born, clock, t, Members(deadSlots)))
      && (forall i, j :: 0 <= i < j < |r.value.keys| ==> r.value.keys[i] != r.value.keys[j])
  {
    var dead := Members(deadSlots);
    var visited: set<nat>, keys: seq<nat>, kills: set<nat> := {}, [], {};
    ghost var done: set<nat> := {};
    assert ChainsOk(rows, born, clock) ==> Settled(rows, born, clock, dead, visited, done, keys, kills);
    hide Chain, RootOf, ChainsOk, IsRoot, Doomed, FullyDead, Settled;
    for k := 0 to |deadSlots|
      invariant forall j :: 0 <= j < k && deadSlots[j] < |rows| ==> deadSlots[j] in visited
      invariant ChainsOk(rows, born, clock) ==> Settled(rows, born, clock, dead, visited, done, keys, kills)
    {
      var slot := deadSlots[k];
      if slot < |rows| && slot !in visited {
        if rows[slot].None? {
          if ChainsOk(rows, born, clock) { SettleNone(rows, born, clock, dead, visited, done, keys, kills, slot); }
          visited := visited + {slot};
        } else {
          var found := ChainOf(rows, slot, born, clock);
          if found.Err? { return Err(Cycle); }
          var (root, members) := found.value;
          if ChainsOk(rows, born, clock) {
            SettleMore(rows, born, clock, dead, visited, done, keys, kills, slot, root);
            done := done + {root};
          }
          visited := visited + {slot} + members;
          if (forall t :: t in members ==> Holds(rows, t)) && members <= dead {
            keys, kills := keys + [root], kills + members;
          }
        }
      }
    }
    if ChainsOk(rows, born, clock) { AllSettled(rows, born, clock, dead, visited, done, keys, kills); }
    var list := Ascending(kills, |rows|);
    return Ok(Classified(keys, list));
  }

  // ---------------------------------------------------------------- the page over its life

  function Put(rows: Rows, slot: nat, row: Row): Rows
    requires slot <= |rows|
  {
    if slot < |rows| then rows[slot := Some(row)] else rows + [Some(row)]
  }

  ghost function PutBorn(born: seq<nat>, slot: nat, t: nat): seq<nat>
    requires slot <= |born|
  {
    if slot < |born| then born[slot := t] else born + [t]
  }

  predicate Unused(rows: Rows, slot: nat) {
    slot <= |rows| && !Holds(rows, slot)
  }

  lemma NobodyLinksUnused(rows: Rows, born: seq<nat>, clock: nat, slot: nat)
    requires ChainsOk(rows, born, clock) && Unused(rows, slot)
    ensures forall a :: 0 <= a < |rows| ==> !Links(rows, a, slot)
  {
  }

  lemma PutKeeps(rows: Rows, born: seq<nat>, clock: nat, slot: nat, row: Row)
    requires ChainsOk(rows, born, clock) && Unused(rows, slot) && !row.hotUpdated
    ensures ChainsOk(Put(rows, slot, row), PutBorn(born, slot, clock), clock + 1)
  {
  }

  /** Linking a version to a younger heap-only one nobody links to. */
  lemma LinkKeeps(rows: Rows, born: seq<nat>, clock: nat, a: nat, b: nat)
    requires ChainsOk(rows, born, clock) && Holds(rows, a) && Holds(rows, b)
    requires rows[b].value.heapOnly && born[a] < born[b] && rows[b].value.key == rows[a].value.key
    requires forall c :: 0 <= c < |rows| ==> !Links(rows, c, b)
    ensures ChainsOk(rows[a := Some(rows[a].value.(hotUpdated := true, ctid := b))], born, clock)
  {
    var now := rows[a := Some(rows[a].value.(hotUpdated := true, ctid := b))];
    forall c | 0 <= c < |rows| && c != a ensures HasNext(now, c) <==> HasNext(rows, c) && rows[c].value.ctid != b {
      assert !Links(rows, c, b);
    }
    assert forall t :: 0 <= t < |rows| ==> (Holds(now, t) <==> Holds(rows, t));
  }

  /** The page after a HOT update of `a` into `b`. */
  function Relinked(rows: Rows, a: nat, b: nat, row: Row): Rows
    requires Holds(rows, a) && b <= |rows|
  {
    Put(rows, b, row)[a := Some(rows[a].value.(hotUpdated := true, ctid := b))]
  }

  lemma RelinkedAt(rows: Rows, a: nat, b: nat, row: Row)
    requires Holds(rows, a) && Unused(rows, b)
    ensures var now := Relinked(rows, a, b, row);
      Links(now, a, b) && b < |now| && now[b] == Some(row) && now[a].value.key == rows[a].value.key
  {
  }

  lemma RelinkKeeps(rows: Rows, born: seq<nat>, clock: nat, a: nat, b: nat, row: Row)
    requires ChainsOk(rows, born, clock) && Holds(rows, a) && Unused(rows, b)
    requires row.heapOnly && !row.hotUpdated && row.key == rows[a].value.key
    ensures ChainsOk(Relinked(rows, a, b, row), PutBorn(born, b, clock), clock + 1)
  {
    var put, birth := Put(rows, b, row), PutBorn(born, b, clock);
    PutKeeps(rows, born, clock, b, row);
    NobodyLinksUnused(rows, born, clock, b);
    assert forall c :: 0 <= c < |rows| ==> (HasNext(put, c) <==> HasNext(rows, c)) && !Links(rows, c, b);
    LinkKeeps(put, birth, clock + 1, a, b);
  }

  /** A successor the old version had is a root afterwards. */
  lemma LeftBehind(rows: Rows, born: seq<nat>, clock: nat, a: nat, b: nat, row: Row)
    requires ChainsOk(rows, born, clock) && HasNext(rows, a) && Unused(rows, b) && !row.hotUpdated
    ensures IsRoot(Relinked(rows, a, b, row), rows[a].value.ctid)
  {
  }

  /** Every chain that ended in the old version now ends in the new one behind it; every other chain that does not run
      through the old version is as it was. */
  lemma {:induction false} ChainGrows(rows: Rows, born: seq<nat>, clock: nat, a: nat, b: nat, row: Row, s: nat)
    requires ChainsOk(rows, born, clock) && Holds(rows, a) && !HasNext(rows, a) && Unused(rows, b) && Holds(rows, s)
    requires row.heapOnly && !row.hotUpdated && row.key == rows[a].value.key
    requires ChainsOk(Relinked(rows, a, b, row), PutBorn(born, b, clock), clock + 1)
    requires Holds(Relinked(rows, a, b, row), s)
    ensures var c := Chain(rows, born, clock, s);
      Chain(Relinked(rows, a, b, row), PutBorn(born, b, clock), clock + 1, s) == if a in c then c + [b] else c
    decreases clock - born[s]
  {
    var now, birth := Relinked(rows, a, b, row), PutBorn(born, b, clock);
    if s == a {
      assert Chain(now, birth, clock + 1, b) == [b];
      assert Chain(rows, born, clock, s) == [a];
    } else if HasNext(rows, s) {
      var n := rows[s].value.ctid;
      ChainGrows(rows, born, clock, a, b, row, n);
      var c := Chain(rows, born, clock, n);
      assert [s] + (c + [b]) == [s] + c + [b];
    } else {
      assert Chain(rows, born, clock, s) == [s];
    }
  }

  /** Chains through `a` have `b` behind it, the others are the same. */
  ghost predicate Grown(was: Rows, wasBorn: seq<nat>, before: nat, rows: Rows, born: seq<nat>, clock: nat, a: nat,
                        b: nat)
  {
    && ChainsOk(was, wasBorn, before) && ChainsOk(rows, born, clock)
    && forall s :: Holds(was, s) ==>
         var c := Chain(was, wasBorn, before, s);
         Holds(rows, s) && Chain(rows, born, clock, s) == if a in c then c + [b] else c
  }

  lemma ChainsGrow(rows: Rows, born: seq<nat>, clock: nat, a: nat, b: nat, row: Row)
    requires ChainsOk(rows, born, clock) && Holds(rows, a) && !HasNext(rows, a) && Unused(rows, b)
    requires row.heapOnly && !row.hotUpdated && row.key == rows[a].value.key
    ensures Grown(rows, born, clock, Relinked(rows, a, b, row), PutBorn(born, b, clock), clock + 1, a, b)
  {
    RelinkKeeps(rows, born, clock, a, b, row);
    var now, birth := Relinked(rows, a, b, row), PutBorn(born, b, clock);
    forall s | Holds(rows, s)
      ensures Holds(now, s)
      ensures var c := Chain(rows, born, clock, s); Chain(now, birth, clock + 1, s) == if a in c then c + [b] else c
    {
      ChainGrows(rows, born, clock, a, b, row, s);
    }
  }

  function Killed(rows: Rows, kills: set<nat>): (r: Rows)
    ensures |r| == |rows|
    ensures forall s :: 0 <= s < |rows| ==> r[s] == if s in kills then None else rows[s]
  {
    seq(|rows|, s requires 0 <= s < |rows| => if s in kills then None else rows[s])
  }

  /** Links lead from killed to killed and from kept to kept versions. */
  ghost predicate WholeChains(rows: Rows, kills: set<nat>) {
    forall a :: 0 <= a < |rows| && HasNext(rows, a) ==> (a in kills <==> rows[a].value.ctid in kills)
  }

  lemma WholeKeeps(rows: Rows, born: seq<nat>, clock: nat, kills: set<nat>)
    requires ChainsOk(rows, born, clock) && WholeChains(rows, kills)
    ensures ChainsOk(Killed(rows, kills), born, clock)
  {
  }

  /** Killing whole chains leaves no dangling link. */
  lemma KillKeeps(rows: Rows, born: seq<nat>, clock: nat, dead: set<nat>, kills: set<nat>)
    requires ChainsOk(rows, born, clock)
    requires forall s :: s in kills <==> Doomed(rows, born, clock, s, dead)
    ensures ChainsOk(Killed(rows, kills), born, clock)
  {
    forall a | 0 <= a < |rows| && HasNext(rows, a) ensures a in kills <==> rows[a].value.ctid in kills {
      LinkSameRoot(rows, born, clock, a);
    }
    WholeKeeps(rows, born, clock, kills);
  }

  class HotPage {
    var rows: Rows
    ghost var born: seq<nat>
    ghost var clock: nat

    ghost predicate Valid()
      reads this
    {
      ChainsOk(rows, born, clock)
    }

    /** A plain insert, or the new version of an update that is not HOT. */
    method InsertRow(slot: nat, key: nat)
      requires Valid() && Unused(rows, slot)
      modifies this
      ensures Valid() && rows == Put(old(rows), slot, Row(false, false, slot, key))
    {
      PutKeeps(rows, born, clock, slot, Row(false, false, slot, key));
      rows := Put(rows, slot, Row(false, false, slot, key));
      born, clock := PutBorn(born, slot, clock), clock + 1;
    }

    /** A HOT update: the new version shares the indexed columns and is linked from the old one. A successor left
        by a rolled-back update loses its link and becomes a root of its own. */
    method HotUpdate(a: nat, b: nat)
      requires Valid() && Holds(rows, a) && Unused(rows, b)
      modifies this
      ensures Valid() && Links(rows, a, b) && rows[b] == Some(Row(true, false, b, rows[a].value.key))
      ensures rows == Relinked(old(rows), a, b, Row(true, false, b, rows[a].value.key))
      ensures !old(HasNext(rows, a)) ==> Grown(old(rows), old(born), old(clock), rows, born, clock, a, b)
      ensures old(HasNext(rows, a)) ==> IsRoot(rows, old(rows)[a].value.ctid)
    {
      hide ChainsOk, IsRoot, Grown, Relinked, Chain;
      var row := Row(true, false, b, rows[a].value.key);
      RelinkedAt(rows, a, b, row);
      RelinkKeeps(rows, born, clock, a, b, row);
      if HasNext(rows, a) {
        LeftBehind(rows, born, clock, a, b, row);
      } else {
        ChainsGrow(rows, born, clock, a, b, row);
      }
      rows := Relinked(rows, a, b, row);
      born, clock := PutBorn(born, b, clock), clock + 1;
    }

    /** One vacuum pass over the page for any set of dead versions: never an error, chains go whole or not at all,
        and what is left is well-formed again. */
    method Vacuum(deadSlots: seq<nat>) returns (keys: seq<nat>)
      requires Valid()
      modifies this
      ensures Valid() && born == old(born) && clock == old(clock) && |rows| == |old(rows)|
      ensures forall s :: 0 <= s < |rows| ==>
        rows[s] == if Doomed(old(rows), born, clock, s, Members(deadSlots)) then None else old(rows)[s]
      ensures forall t ::
        t in keys <==> IsRoot(old(rows), t) && FullyDead(old(rows), born, clock, t, Members(deadSlots))
      ensures forall i, j :: 0 <= i < j < |keys| ==> keys[i] != keys[j]
    {
      var c := ClassifyDead(rows, deadSlots, born, clock);
      var kills := Members(c.value.kills);
      KillKeeps(rows, born, clock, Members(deadSlots), kills);
      rows := Killed(rows, kills);
      keys := c.value.keys;
    }
  }
}
