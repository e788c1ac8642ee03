/** The reachability audit of an HNSW graph: a level-by-level search from the entry point that never climbs back, and
    the census of what it did not reach. */
module Reachability {
  import opened Entries

  /** Node `n` has a top level, neighbour lists for levels `0` to that level, and two state bits. */
  datatype Node = Node(top: nat, edges: seq<seq<nat>>, live: bool, tombstoned: bool)

  type Graph = seq<Node>

  const NO_NODE: nat := 0xFFFF_FFFF

  datatype AuditError = BadEmptyMeta | NoStart | BadState | TooHigh | EntryLevel | DanglingEdge | LevelDiscipline

  datatype Report = Report(nodes: nat, reached: nat, hanging: seq<nat>, initializing: nat, tombstoned: nat)

  ghost predicate Shaped(g: Graph) {
    forall n :: 0 <= n < |g| ==> |g[n].edges| == g[n].top + 1
  }

  // ---------------------------------------------------------------- what reachable means

  datatype Hop = Hop(level: nat, to: nat)

  /** The node lists the neighbour on that level. */
  predicate Lists(g: Graph, n: nat, level: nat, to: nat) {
    n < |g| && level < |g[n].edges| && to in g[n].edges[level]
  }

  /** The neighbour exists and reaches up to the level. */
  predicate Proper(g: Graph, level: nat, to: nat) {
    to < |g| && g[to].top >= level
  }

  function End(entry: nat, p: seq<Hop>): nat {
    if p == [] then entry else p[|p| - 1].to
  }

  /** A path from the entry point over listed, proper edges whose levels never rise and stay at `level` or above. */
  ghost predicate IsPath(g: Graph, entry: nat, p: seq<Hop>, level: nat) {
    p == [] ||
      var h, init := p[|p| - 1], p[..|p| - 1];
      h.level >= level && IsPath(g, entry, init, h.level) && Lists(g, End(entry, init), h.level, h.to) &&
        Proper(g, h.level, h.to)
  }

  ghost predicate Reaches(g: Graph, entry: nat, level: nat, n: nat) {
    exists p :: IsPath(g, entry, p, level) && End(entry, p) == n
  }

  /** An edge on the way of the search that is not proper. */
  ghost predicate Broken(g: Graph, entry: nat) {
    exists n, level, to :: Reaches(g, entry, level, n) && Lists(g, n, level, to) && !Proper(g, level, to)
  }

  lemma {:induction false} FirstHopBelowTop(g: Graph, entry: nat, p: seq<Hop>, level: nat)
    requires Shaped(g) && IsPath(g, entry, p, level) && p != [] && entry < |g|
    ensures level <= g[entry].top
    decreases |p|
  {
    var h, init := p[|p| - 1], p[..|p| - 1];
    if init != [] { FirstHopBelowTop(g, entry, init, h.level); }
  }

  lemma Lower(g: Graph, entry: nat, level: nat, n: nat)
    requires Reaches(g, entry, level + 1, n)
    ensures Reaches(g, entry, level, n)
  {
    var p :| IsPath(g, entry, p, level + 1) && End(entry, p) == n;
    assert IsPath(g, entry, p, level);
  }

  lemma Extend(g: Graph, entry: nat, level: nat, n: nat, to: nat)
    requires Reaches(g, entry, level, n) && Lists(g, n, level, to) && Proper(g, level, to)
    ensures Reaches(g, entry, level, to)
  {
    var p :| IsPath(g, entry, p, level) && End(entry, p) == n;
    var q := p + [Hop(level, to)];
    assert q[..|q| - 1] == p;
    assert IsPath(g, entry, q, level);
  }

  /** Marks are closed under the level's edges. */
  ghost predicate Closed(g: Graph, marks: set<nat>, level: nat, n: nat) {
    forall to :: Lists(g, n, level, to) ==> Proper(g, level, to) && to in marks
  }

  /** Marks that hold what was reached above the level and are closed under its edges hold all it reaches. */
  lemma {:induction false} ClosedIsAll(g: Graph, entry: nat, marks: set<nat>, level: nat, p: seq<Hop>)
    requires forall n :: Reaches(g, entry, level + 1, n) ==> n in marks
    requires forall n :: n in marks ==> Closed(g, marks, level, n)
    requires IsPath(g, entry, p, level)
    ensures End(entry, p) in marks
    decreases |p|
  {
    if p == [] {
      assert IsPath(g, entry, [], level + 1);
      assert Reaches(g, entry, level + 1, entry);
    } else {
      var h, init := p[|p| - 1], p[..|p| - 1];
      if h.level > level {
        assert IsPath(g, entry, p, level + 1);
        assert Reaches(g, entry, level + 1, End(entry, p));
      } else {
        ClosedIsAll(g, entry, marks, level, init);
        assert Closed(g, marks, level, End(entry, init));
      }
    }
  }

  // ---------------------------------------------------------------- the search

  /** The nodes marked so far with `top >= level`, as the stack to start the level with. */
  method Seeds(g: Graph, marks: set<nat>, level: nat) returns (stack: seq<nat>)
    ensures forall n :: n in stack <==> n < |g| && n in marks && g[n].top >= level
  {
    stack := [];
    for n := 0 to |g|
      invariant forall m :: m in stack <==> m < n && m in marks && g[m].top >= level
    {
      if n in marks && g[n].top >= level { stack := stack + [n]; }
    }
  }

  ghost predicate Sound(g: Graph, entry: nat, level: nat, marks: set<nat>) {
    forall n :: n in marks ==> n < |g| && Reaches(g, entry, level, n)
  }

  /** Every marked node that has the level is still on the stack or done. */
  ghost predicate Pending(g: Graph, marks: set<nat>, level: nat, stack: seq<nat>) {
    && (forall n :: n in stack ==> n in marks && n < |g| && g[n].top >= level)
    && (forall n :: n in marks && n !in stack ==> Closed(g, marks, level, n))
  }

  function AllNodes(g: Graph): set<nat> {
    set n: nat | n < |g| && IsNode(g, n)
  }

  predicate IsNode(g: Graph, n: nat) {
    n < |g|
  }

  /** Walks one node's edges on the level, marking and stacking what is new. */
  method Expand(g: Graph, n: nat, level: nat, marks: set<nat>, stack: seq<nat>, ghost entry: nat)
    returns (r: Result<(set<nat>, seq<nat>), AuditError>)
    requires n in marks && n < |g| && level < |g[n].edges| && Reaches(g, entry, level, n)
    requires Sound(g, entry, level, marks)
    requires Pending(g, marks, level, stack + [n])
    ensures r.Err? ==> Broken(g, entry)
    ensures r.Ok? ==>
      && marks <= r.value.0 && Sound(g, entry, level, r.value.0) && Pending(g, r.value.0, level, r.value.1)
      && (r.value == (marks, stack) || marks < r.value.0)
  {
    var now: set<nat>, rest: seq<nat> := marks, stack;
    assert forall m :: m in stack + [n] <==> m in stack || m == n;
    for i := 0 to |g[n].edges[level]|
      invariant marks <= now && Sound(g, entry, level, now)
      invariant forall m :: m in rest ==> m in now && m < |g| && g[m].top >= level
      invariant forall m :: m in now && m !in rest && m != n ==> Closed(g, now, level, m)
      invariant forall j :: 0 <= j < i ==> Proper(g, level, g[n].edges[level][j]) && g[n].edges[level][j] in now
      invariant (now == marks && rest == stack) || marks < now
    {
      var to := g[n].edges[level][i];
      assert Lists(g, n, level, to);
      if to >= |g| {
        return Err(DanglingEdge);
      }
      if g[to].top < level {
        return Err(LevelDiscipline);
      }
      if to !in now {
        Extend(g, entry, level, n, to);
        ghost var was := now;
        now, rest := now + {to}, rest + [to];
        forall m | m in now && m !in rest && m != n ensures Closed(g, now, level, m) {
          assert Closed(g, was, level, m);
        }
      }
    }
    assert Closed(g, now, level, n);
    return Ok((now, rest));
  }

  /** One level: from exactly what the levels above reach to exactly what this one adds. */
  method SearchLevel(g: Graph, entry: nat, level: nat, above: set<nat>) returns (r: Result<set<nat>, AuditError>)
    requires Shaped(g) && entry < |g|
    requires forall n :: n in above <==> Reaches(g, entry, level + 1, n)
    requires forall n :: n in above ==> n < |g|
    ensures r.Err? ==> Broken(g, entry)
    ensures r.Ok? ==> forall n :: n in r.value <==> Reaches(g, entry, level, n)
    ensures r.Ok? ==> forall n :: n in r.value ==> n < |g| && Closed(g, r.value, level, n)
  {
    var marks := above;
    var stack := Seeds(g, marks, level);
    forall n | n in marks ensures Reaches(g, entry, level, n) { Lower(g, entry, level, n); }
    while stack != []
      invariant above <= marks && Sound(g, entry, level, marks) && Pending(g, marks, level, stack)
      decreases AllNodes(g) - marks, |stack|
    {
      var n := stack[|stack| - 1];
      var rest := stack[..|stack| - 1];
      assert stack == rest + [n];
      assert n in stack;
      var next := Expand(g, n, level, marks, rest, entry);
      if next.Err? {
        return Err(next.error);
      }
      assert marks < next.value.0 ==> AllNodes(g) - next.value.0 < AllNodes(g) - marks by {
        if marks < next.value.0 {
          var x :| x in next.value.0 && x !in marks;
          assert IsNode(g, x) && x in AllNodes(g) - marks && x !in AllNodes(g) - next.value.0;
        }
      }
      marks, stack := next.value.0, next.value.1;
    }
    forall n | Reaches(g, entry, level, n) ensures n in marks {
      var p :| IsPath(g, entry, p, level) && End(entry, p) == n;
      ClosedIsAll(g, entry, marks, level, p);
    }
    return Ok(marks);
  }

  lemma OnlyEntryAbove(g: Graph, entry: nat, level: nat, n: nat)
    requires Shaped(g) && entry < |g| && level > g[entry].top
    ensures Reaches(g, entry, level, n) <==> n == entry
  {
    assert IsPath(g, entry, [], level);
    if Reaches(g, entry, level, n) {
      var p :| IsPath(g, entry, p, level) && End(entry, p) == n;
      if p != [] { FirstHopBelowTop(g, entry, p, level); }
    }
  }

  /** All levels, top down. */
  method Search(g: Graph, entry: nat) returns (r: Result<set<nat>, AuditError>)
    requires Shaped(g) && entry < |g|
    ensures r.Err? <==> Broken(g, entry)
    ensures r.Ok? ==> forall n :: n in r.value <==> Reaches(g, entry, 0, n)
    ensures r.Ok? ==> forall n :: n in r.value ==> n < |g|
  {
    var marks: set<nat>, level: nat := {entry}, g[entry].top + 1;
    forall l: nat, n: nat | l >= level ensures n in marks <==> Reaches(g, entry, l, n) {
      OnlyEntryAbove(g, entry, l, n);
    }
    while level > 0
      invariant level <= g[entry].top + 1
      invariant forall n :: n in marks <==> Reaches(g, entry, level, n)
      invariant forall n :: n in marks ==> n < |g|
      invariant forall l: nat, n: nat, to: nat :: level <= l && Reaches(g, entry, l, n) && Lists(g, n, l, to) ==>
        Proper(g, l, to)
    {
      var next := SearchLevel(g, entry, level - 1, marks);
      if next.Err? {
        return Err(next.error);
      }
      level, marks := level - 1, next.value;
    }
    return Ok(marks);
  }

  // ---------------------------------------------------------------- the census

  datatype Class = Reached | Hanging | Initializing | Tombstoned

  function ClassOf(g: Graph, marks: set<nat>, n: nat): Class
    requires n < |g|
  {
    if n in marks then Reached else if g[n].tombstoned then Tombstoned else if g[n].live then Hanging else Initializing
  }

  /** How many of the first `k` nodes are in the class. */
  function CountOf(g: Graph, marks: set<nat>, c: Class, k: nat): nat
    requires k <= |g|
  {
    if k == 0 then 0 else CountOf(g, marks, c, k - 1) + if ClassOf(g, marks, k - 1) == c then 1 else 0
  }

  /** The report counts every class, lists the hanging nodes in order, and loses no node. */
  ghost predicate IsCensus(g: Graph, marks: set<nat>, r: Report) {
    && r.nodes == |g| == r.reached + |r.hanging| + r.initializing + r.tombstoned
    && r.reached == CountOf(g, marks, Reached, |g|) && |r.hanging| == CountOf(g, marks, Hanging, |g|)
    && r.initializing == CountOf(g, marks, Initializing, |g|) && r.tombstoned == CountOf(g, marks, Tombstoned, |g|)
    && (forall n: nat :: n in r.hanging <==> n < |g| && ClassOf(g, marks, n) == Hanging)
    && (forall i, j :: 0 <= i < j < |r.hanging| ==> r.hanging[i] < r.hanging[j])
  }

  /** No node is tombstoned before it was live. */
  predicate StatesOk(g: Graph) {
    forall n :: 0 <= n < |g| ==> (g[n].tombstoned ==> g[n].live)
  }

  method Census(g: Graph, marks: set<nat>) returns (r: Report)
    requires StatesOk(g)
    ensures IsCensus(g, marks, r)
  {
    var reached, hanging: seq<nat>, initializing, tombstoned := 0, [], 0, 0;
    for n := 0 to |g|
      invariant reached == CountOf(g, marks, Reached, n) && |hanging| == CountOf(g, marks, Hanging, n)
      invariant initializing == CountOf(g, marks, Initializing, n) && tombstoned == CountOf(g, marks, Tombstoned, n)
      invariant reached + |hanging| + initializing + tombstoned == n
      invariant forall m: nat :: m in hanging <==> m < n && ClassOf(g, marks, m) == Hanging
      invariant forall i, j :: 0 <= i < j < |hanging| ==> hanging[i] < hanging[j]
      invariant forall i :: 0 <= i < |hanging| ==> hanging[i] < n
    {
      if n in marks {
        reached := reached + 1;
      } else {
        if g[n].live && !g[n].tombstoned { hanging := hanging + [n]; }
        if !g[n].live { initializing := initializing + 1; }
        if g[n].tombstoned { tombstoned := tombstoned + 1; }
      }
    }
    return Report(|g|, reached, hanging, initializing, tombstoned);
  }

  /** The shape pass over the nodes. */
  method CheckNodes(g: Graph, maxTop: nat) returns (r: Option<AuditError>)
    ensures r.None? <==> StatesOk(g) && forall n :: 0 <= n < |g| ==> g[n].top <= maxTop
  {
    for n := 0 to |g|
      invariant forall m :: 0 <= m < n ==> (g[m].tombstoned ==> g[m].live) && g[m].top <= maxTop
    {
      if g[n].tombstoned && !g[n].live { return Some(BadState); }
      if g[n].top > maxTop { return Some(TooHigh); }
    }
    return None;
  }

  /** What the audit demands before it searches. */
  predicate MetaOk(g: Graph, entry: nat, maxLevel: nat, maxTop: nat) {
    if g == [] then entry == NO_NODE && maxLevel == 0
    else
      && entry < |g| && g[entry].top == maxLevel
      && StatesOk(g) && forall n :: 0 <= n < |g| ==> g[n].top <= maxTop
  }

  /** The audit accepts exactly the graphs with sane metadata and no broken edge on the way, and its report is the
      census of the nodes some never-rising path leads to. */
  method AuditReachability(g: Graph, entry: nat, maxLevel: nat, maxTop: nat)
    returns (r: Result<Report, AuditError>, ghost marks: set<nat>)
    requires Shaped(g)
    ensures r.Ok? <==> MetaOk(g, entry, maxLevel, maxTop) && !Broken(g, entry)
    ensures r.Ok? && g != [] ==> (forall n :: n in marks <==> Reaches(g, entry, 0, n)) && IsCensus(g, marks, r.value)
    ensures r.Ok? && g == [] ==> r.value == Report(0, 0, [], 0, 0)
  {
    marks := {};
    if g == [] {
      if entry != NO_NODE || maxLevel != 0 {
        return Err(BadEmptyMeta), marks;
      }
      return Ok(Report(0, 0, [], 0, 0)), marks;
    }
    if entry >= |g| {
      return Err(NoStart), marks;
    }
    var bad := CheckNodes(g, maxTop);
    if bad.Some? {
      return Err(bad.value), marks;
    }
    if g[entry].top != maxLevel {
      return Err(EntryLevel), marks;
    }
    var found := Search(g, entry);
    if found.Err? {
      return Err(found.error), marks;
    }
    marks := found.value;
    var report := Census(g, found.value);
    return Ok(report), marks;
  }
}
