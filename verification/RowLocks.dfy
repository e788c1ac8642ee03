/** The row-lock gate on `t_xmax`: exclusive locks and writers stamp the row, share locks stamp it and are listed in
    a registry beside it, and every pass runs under the page latch while transactions end on their own time. */
module RowLocks {
  import opened Entries

  type Xid = nat
  type Tid = nat

  /** A transaction ends in two steps: its outcome is published in the commit log before it leaves the active set.
      A transaction a crash cut off is in no active set and never gets an outcome. */
  datatype Stage = Running | Ending(committed: bool) | Ended(committed: bool) | Crashed

  datatype Clog = InProgress | Committed | Aborted

  type Txns = map<Xid, Stage>

  function StageOf(t: Txns, x: Xid): Stage {
    if x in t then t[x] else Crashed
  }

  function ClogOf(s: Stage): Clog {
    match s
    case Running => InProgress
    case Crashed => InProgress
    case Ending(c) => if c then Committed else Aborted
    case Ended(c) => if c then Committed else Aborted
  }

  predicate Active(s: Stage) {
    s.Running? || s.Ending?
  }

  predicate Later(a: Stage, b: Stage) {
    || a == b
    || (a.Running? && (b.Ending? || b.Ended?))
    || (a.Ending? && b == Ended(a.committed))
  }

  ghost predicate Advances(a: Txns, b: Txns) {
    forall x :: Later(StageOf(a, x), StageOf(b, x))
  }

  /** What `t_xmax` and its info bits say: nothing, a share lock, an exclusive lock, or a delete or update. */
  datatype Stamp = NoStamp | Share(xid: Xid) | Exclusive(xid: Xid) | Real(xid: Xid)

  datatype Request = ForShare | ForUpdate | Write

  datatype Verdict = Proceed | ProceedNoStamp | Wait(on: Xid) | ConcurrentlyUpdated | OwnRealStamp

  /** The transaction table as the gate pass sees it: the commit log, then the active set, then the commit log again,
      with transactions ending in between. */
  datatype Looks = Looks(first: Txns, second: Txns, third: Txns)

  ghost predicate During(before: Txns, looks: Looks, after: Txns) {
    Advances(before, looks.first) && Advances(looks.first, looks.second) && Advances(looks.second, looks.third) &&
      Advances(looks.third, after)
  }

  /** Neither log nor active set says the transaction is over. */
  predicate LooksLive(looks: Looks, x: Xid) {
    ClogOf(StageOf(looks.first, x)).InProgress? && Active(StageOf(looks.second, x))
  }

  function LiveHolders(looks: Looks, registry: set<Xid>, stamper: Xid): set<Xid> {
    set h | h in registry + {stamper} && LooksLive(looks, h)
  }

  predicate IsFirst(s: set<Xid>, x: Xid) {
    x in s && forall y :: y in s ==> x <= y
  }

  /** The first holder in id order: holders are waited for one at a time. */
  function First(s: set<Xid>): (x: Xid)
    requires s != {}
    ensures IsFirst(s, x)
  {
    FirstExists(s);
    var x :| IsFirst(s, x);
    x
  }

  lemma {:induction false} FirstExists(s: set<Xid>)
    requires s != {}
    ensures exists x :: IsFirst(s, x)
    decreases s
  {
    var x :| x in s;
    var rest := s - {x};
    if rest == {} {
      assert s == {x} && IsFirst(s, x);
    } else {
      FirstExists(rest);
      var y :| IsFirst(rest, y);
      assert forall z :: z in s ==> z == x || z in rest;
      assert IsFirst(s, if x <= y then x else y);
    }
  }

  /** The registry after a stamp is about to be overwritten: a fresh share set, or none. */
  function Overwritten(self: Xid, request: Request): set<Xid> {
    if request.ForShare? then {self} else {}
  }

  /** The decision of one gate pass and the registry it leaves. */
  function Gate(stamp: Stamp, registry: set<Xid>, self: Xid, request: Request, looks: Looks): (Verdict, set<Xid>) {
    match stamp
    case NoStamp => (Proceed, Overwritten(self, request))
    case Real(x) =>
      if x == self then (if request.Write? then Proceed else OwnRealStamp, registry)
      else OtherStamp(stamp, registry, self, request, looks)
    case Exclusive(x) =>
      if x == self then (if request.ForShare? then ProceedNoStamp else Proceed, registry)
      else OtherStamp(stamp, registry, self, request, looks)
    case Share(x) =>
      var live := LiveHolders(looks, registry, x);
      if x == self && request.ForShare? then (ProceedNoStamp, registry + {self})
      else if x == self || self in live then
        if request.ForShare? then (ProceedNoStamp, live + {self})
        else if live - {self} != {} then (Wait(First(live - {self})), live)
        else (Proceed, Overwritten(self, request))
      else if request.ForShare? then
        if live == {} then (Proceed, Overwritten(self, request)) else (ProceedNoStamp, live + {self})
      else if live != {} then (Wait(First(live)), live)
      else (Proceed, Overwritten(self, request))
  }

  /** Someone else's exclusive lock, delete or update. */
  function OtherStamp(stamp: Stamp, registry: set<Xid>, self: Xid, request: Request, looks: Looks): (Verdict, set<Xid>)
    requires stamp.Exclusive? || stamp.Real?
  {
    var seen := ClogOf(StageOf(looks.first, stamp.xid));
    if seen.InProgress? && Active(StageOf(looks.second, stamp.xid)) then (Wait(stamp.xid), registry)
    else
      var state := if seen.InProgress? then ClogOf(StageOf(looks.third, stamp.xid)) else seen;
      if state.Committed? && stamp.Real? then (ConcurrentlyUpdated, registry) else (Proceed, Overwritten(self, request))
  }

  // ---------------------------------------------------------------- the verdict, from the holders

  /** Who a stamp and the registry beside it name. */
  function Named(stamp: Stamp, registry: set<Xid>): set<Xid> {
    match stamp
    case NoStamp => {}
    case Share(x) => registry + {x}
    case Exclusive(x) => {x}
    case Real(x) => {x}
  }

  /** Others that look live. They block a request unless it and the lock they hold are both shared. */
  function Blockers(stamp: Stamp, registry: set<Xid>, self: Xid, request: Request, looks: Looks): set<Xid> {
    if stamp.Share? && request.ForShare? then {}
    else set h | h in Named(stamp, registry) && h != self && LooksLive(looks, h)
  }

  /** By the last look at it the transaction was over and had committed. */
  predicate SeenCommitted(looks: Looks, x: Xid) {
    var seen := ClogOf(StageOf(looks.first, x));
    || seen.Committed?
    || (seen.InProgress? && !Active(StageOf(looks.second, x)) && ClogOf(StageOf(looks.third, x)).Committed?)
  }

  /** Another's committed delete or update. */
  predicate Superseded(stamp: Stamp, self: Xid, looks: Looks) {
    stamp.Real? && stamp.xid != self && SeenCommitted(looks, stamp.xid)
  }

  /** The transaction already holds the lock it asks for, or joins live sharers. */
  predicate Covered(stamp: Stamp, registry: set<Xid>, self: Xid, request: Request, looks: Looks) {
    && request.ForShare?
    && (stamp == Exclusive(self) || stamp == Share(self)
        || (stamp.Share? && exists h :: h in Named(stamp, registry) && LooksLive(looks, h)))
  }

  /** What the pass leaves in the registry: nothing of an overwritten stamp, and under a share stamp no one who looks
      live is dropped. */
  ghost predicate RegistryRight(stamp: Stamp, registry: set<Xid>, self: Xid, request: Request, looks: Looks, v: Verdict,
                                left: set<Xid>)
  {
    if v.Proceed? && (stamp.NoStamp? || stamp.Share? || stamp.xid != self) then
      left == if request.ForShare? then {self} else {}
    else if stamp.Share? then
      && (forall h :: h in left ==> h in registry || h == stamp.xid || h == self)
      && (forall h :: h in registry && LooksLive(looks, h) ==> h in left)
      && (stamp.xid != self && LooksLive(looks, stamp.xid) ==> stamp.xid in left)
      && (v.ProceedNoStamp? ==> self in left)
    else
      left == registry
  }

  /** Every verdict of the gate, from who holds the row and what the looks say of them: a pass waits exactly while
      someone else blocks it, on the first of those or on the stamper; a lock is refused exactly over one's own delete,
      a version given up exactly for another's committed one; every other request is granted. */
  ghost predicate VerdictRight(stamp: Stamp, registry: set<Xid>, self: Xid, request: Request, looks: Looks, v: Verdict)
  {
    && (v.Wait? <==> Blockers(stamp, registry, self, request, looks) != {})
    && (v.Wait? ==> v.on in Blockers(stamp, registry, self, request, looks))
    && (v.Wait? ==> forall h :: h in Blockers(stamp, registry, self, request, looks) ==> v.on <= h)
    && (v.ConcurrentlyUpdated? <==> Superseded(stamp, self, looks))
    && (v.OwnRealStamp? <==> stamp == Real(self) && !request.Write?)
    && (v.ProceedNoStamp? <==> Covered(stamp, registry, self, request, looks))
  }

  lemma GateDecides(stamp: Stamp, registry: set<Xid>, self: Xid, request: Request, looks: Looks)
    ensures var (v, left) := Gate(stamp, registry, self, request, looks);
      && VerdictRight(stamp, registry, self, request, looks, v)
      && RegistryRight(stamp, registry, self, request, looks, v, left)
  {
    if stamp.Share? {
      var live := LiveHolders(looks, registry, stamp.xid);
      if !request.ForShare? { assert Blockers(stamp, registry, self, request, looks) == live - {self}; }
      assert live != {} <==> exists h :: h in Named(stamp, registry) && LooksLive(looks, h) by {
        if live != {} { assert First(live) in Named(stamp, registry) && LooksLive(looks, First(live)); }
        if h :| h in Named(stamp, registry) && LooksLive(looks, h) { assert h in live; }
      }
    } else if !stamp.NoStamp? && stamp.xid != self {
      assert Blockers(stamp, registry, self, request, looks) == if LooksLive(looks, stamp.xid) then {stamp.xid} else {};
    }
  }

  /** What the looks make of a transaction is what became of it. */
  lemma LooksTell(before: Txns, looks: Looks, after: Txns, x: Xid)
    requires During(before, looks, after)
    ensures LooksLive(looks, x) ==> StageOf(before, x).Running?
    ensures !LooksLive(looks, x) ==> (SeenCommitted(looks, x) <==> ClogOf(StageOf(after, x)).Committed?)
  {
    assert Later(StageOf(before, x), StageOf(looks.first, x));
    assert Later(StageOf(looks.first, x), StageOf(looks.second, x));
    assert Later(StageOf(looks.second, x), StageOf(looks.third, x));
    assert Later(StageOf(looks.third, x), StageOf(after, x));
  }

  function NewStamp(self: Xid, request: Request): Stamp {
    match request
    case ForShare => Share(self)
    case ForUpdate => Exclusive(self)
    case Write => Real(self)
  }

  // ---------------------------------------------------------------- the table of rows

  class HeapRows {
    var stamps: map<Tid, Stamp>
    var shareLocks: map<Tid, set<Xid>>

    function Holders(tid: Tid): set<Xid>
      reads this
    {
      if tid in shareLocks then shareLocks[tid] else {}
    }

    /** `live_share_holders`: the registry and the stamper, pruned, and the pruned set written back. */
    method LiveShareHolders(tid: Tid, stamper: Xid, looks: Looks) returns (live: set<Xid>)
      modifies `shareLocks
      ensures live == LiveHolders(looks, old(Holders(tid)), stamper)
      ensures Holders(tid) == live && forall t :: t != tid ==> Holders(t) == old(Holders(t))
    {
      var todo := Holders(tid) + {stamper};
      live := {};
      while todo != {}
        invariant todo <= Holders(tid) + {stamper}
        invariant live == set h | h in Holders(tid) + {stamper} && h !in todo && LooksLive(looks, h)
        decreases |todo|
      {
        var h :| h in todo;
        if ClogOf(StageOf(looks.first, h)).InProgress? && Active(StageOf(looks.second, h)) {
          live := live + {h};
        }
        todo := todo - {h};
      }
      if live == {} {
        shareLocks := shareLocks - {tid};
      } else {
        shareLocks := shareLocks[tid := live];
      }
    }

    method NoteStampOverwrite(tid: Tid, self: Xid, request: Request)
      modifies `shareLocks
      ensures Holders(tid) == Overwritten(self, request) && forall t :: t != tid ==> Holders(t) == old(Holders(t))
    {
      if request.ForShare? {
        shareLocks := shareLocks[tid := {self}];
      } else {
        shareLocks := shareLocks - {tid};
      }
    }

    method RegisterShareHolder(tid: Tid, x: Xid)
      modifies `shareLocks
      ensures Holders(tid) == old(Holders(tid)) + {x} && forall t :: t != tid ==> Holders(t) == old(Holders(t))
    {
      shareLocks := shareLocks[tid := Holders(tid) + {x}];
    }

    /** `row_lock_gate` with `share_stamp_gate`. */
    method RowLockGate(tid: Tid, self: Xid, request: Request, looks: Looks) returns (v: Verdict)
      requires tid in stamps
      modifies `shareLocks
      ensures (v, Holders(tid)) == Gate(stamps[tid], old(Holders(tid)), self, request, looks)
      ensures VerdictRight(stamps[tid], old(Holders(tid)), self, request, looks, v)
      ensures RegistryRight(stamps[tid], old(Holders(tid)), self, request, looks, v, Holders(tid))
      ensures forall t :: t != tid ==> Holders(t) == old(Holders(t))
    {
      GateDecides(stamps[tid], Holders(tid), self, request, looks);
      var stamp := stamps[tid];
      if stamp.NoStamp? {
        NoteStampOverwrite(tid, self, request);
        return Proceed;
      }
      if stamp.xid == self {
        if stamp.Real? {
          return if request.Write? then Proceed else OwnRealStamp;
        }
        if stamp.Exclusive? {
          return if request.ForShare? then ProceedNoStamp else Proceed;
        }
        if request.ForShare? {
          RegisterShareHolder(tid, self);
          return ProceedNoStamp;
        }
        var live := LiveShareHolders(tid, self, looks);
        if live - {self} != {} {
          return Wait(First(live - {self}));
        }
        NoteStampOverwrite(tid, self, request);
        return Proceed;
      }
      if stamp.Share? {
        v := ShareStampGate(tid, self, stamp.xid, request, looks);
        return;
      }
      var state := ClogOf(StageOf(looks.first, stamp.xid));
      if state.InProgress? {
        if Active(StageOf(looks.second, stamp.xid)) {
          return Wait(stamp.xid);
        }
        state := ClogOf(StageOf(looks.third, stamp.xid));
      }
      if state.Committed? && stamp.Real? {
        return ConcurrentlyUpdated;
      }
      NoteStampOverwrite(tid, self, request);
      v := Proceed;
    }

    method ShareStampGate(tid: Tid, self: Xid, stamper: Xid, request: Request, looks: Looks) returns (v: Verdict)
      requires tid in stamps && stamps[tid] == Share(stamper) && stamper != self
      modifies `shareLocks
      ensures (v, Holders(tid)) == Gate(stamps[tid], old(Holders(tid)), self, request, looks)
      ensures forall t :: t != tid ==> Holders(t) == old(Holders(t))
    {
      var live := LiveShareHolders(tid, stamper, looks);
      if self in live {
        if request.ForShare? {
          RegisterShareHolder(tid, self);
          return ProceedNoStamp;
        }
        if live - {self} != {} {
          return Wait(First(live - {self}));
        }
        NoteStampOverwrite(tid, self, request);
        return Proceed;
      }
      if request.ForShare? {
        if live == {} {
          NoteStampOverwrite(tid, self, request);
          return Proceed;
        }
        RegisterShareHolder(tid, self);
        return ProceedNoStamp;
      }
      if live != {} {
        return Wait(First(live));
      }
      NoteStampOverwrite(tid, self, request);
      v := Proceed;
    }

    /** A gate pass and the stamp it allows, under one latch: `lock_tuple`, `delete`, and an update on the same page. */
    method GateAndStamp(tid: Tid, self: Xid, request: Request, looks: Looks) returns (v: Verdict)
      requires tid in stamps
      modifies `stamps, `shareLocks
      ensures (v, Holders(tid)) == Gate(old(stamps)[tid], old(Holders(tid)), self, request, looks)
      ensures stamps == if v.Proceed? then old(stamps)[tid := NewStamp(self, request)] else old(stamps)
      ensures forall t :: t != tid ==> Holders(t) == old(Holders(t))
    {
      v := RowLockGate(tid, self, request, looks);
      if v.Proceed? {
        stamps := stamps[tid := NewStamp(self, request)];
      }
    }
  }

  // ---------------------------------------------------------------- runs

  /** A lock some pass granted. */
  datatype Lock = Lock(tid: Tid, xid: Xid, request: Request)

  /** The rows, the transactions, and a record of every grant. */
  datatype World = World(stamps: map<Tid, Stamp>, registry: map<Tid, set<Xid>>, txns: Txns, granted: set<Lock>)

  function Registered(w: World, tid: Tid): set<Xid> {
    if tid in w.registry then w.registry[tid] else {}
  }

  /** A holder is live until its outcome is published. */
  predicate Live(w: World, x: Xid) {
    StageOf(w.txns, x).Running?
  }

  /** `after` is the transaction table when the pass ends; the passing transaction itself runs throughout. The gate of
      a cross-page update runs first, without a stamp, and the latch is dropped behind it. */
  datatype Step =
    | Pass(tid: Tid, self: Xid, request: Request, looks: Looks, after: Txns)
    | GateOnly(tid: Tid, self: Xid, looks: Looks, after: Txns)
    | Begin(xid: Xid)
    | Finish(after: Txns)
    | NewRow(tid: Tid)
    | Restart

  ghost predicate Enabled(w: World, step: Step) {
    match step
    case Pass(tid, self, _, looks, after) => tid in w.stamps && During(w.txns, looks, after) && Live(w, self) &&
      StageOf(after, self).Running?
    case GateOnly(tid, self, looks, after) => tid in w.stamps && During(w.txns, looks, after) && Live(w, self) &&
      StageOf(after, self).Running?
    case Begin(x) => x !in w.txns && forall g :: g in w.granted ==> g.xid != x
    case Finish(after) => Advances(w.txns, after)
    case NewRow(tid) => forall g :: g in w.granted && g.tid == tid ==> !Live(w, g.xid)
    case Restart => true
  }

  function Do(w: World, step: Step): World
    requires Enabled(w, step)
  {
    match step
    case Pass(tid, self, request, looks, after) =>
      var (v, reg) := Gate(w.stamps[tid], Registered(w, tid), self, request, looks);
      World(if v.Proceed? then w.stamps[tid := NewStamp(self, request)] else w.stamps, w.registry[tid := reg], after,
            if v.Proceed? || v.ProceedNoStamp? then w.granted + {Lock(tid, self, request)} else w.granted)
    case GateOnly(tid, self, looks, after) =>
      w.(registry := w.registry[tid := Gate(w.stamps[tid], Registered(w, tid), self, Write, looks).1], txns := after)
    case Begin(x) => w.(txns := w.txns[x := Running])
    case Finish(after) => w.(txns := after)
    case NewRow(tid) => w.(stamps := w.stamps[tid := NoStamp])
    case Restart => w.(registry := map[], txns := map x | x in w.txns ::
      if w.txns[x].Running? then Crashed else w.txns[x])
  }

  /** The stamp names the holder, or names a share lock the registry lists it under. */
  predicate Recorded(w: World, g: Lock) {
    && g.tid in w.stamps
    && var stamp := w.stamps[g.tid];
       || (stamp.Exclusive? && stamp.xid == g.xid) || (stamp.Real? && stamp.xid == g.xid)
       || (g.request.ForShare? && stamp.Share? && (stamp.xid == g.xid || g.xid in Registered(w, g.tid)))
  }

  ghost predicate Inv(w: World) {
    forall g :: g in w.granted && Live(w, g.xid) ==> Recorded(w, g)
  }

  ghost predicate Init(w: World) {
    w.granted == {}
  }

  /** A transaction that still runs when the pass ends looked live at every look. */
  lemma RunningLooksLive(before: Txns, looks: Looks, after: Txns, x: Xid)
    requires During(before, looks, after) && StageOf(after, x).Running?
    ensures StageOf(before, x).Running? && LooksLive(looks, x)
  {
    assert Later(StageOf(looks.third, x), StageOf(after, x));
    assert Later(StageOf(looks.second, x), StageOf(looks.third, x));
    assert Later(StageOf(looks.first, x), StageOf(looks.second, x));
    assert Later(StageOf(before, x), StageOf(looks.first, x));
  }

  /** Whoever the stamp or the registry records keeps a pass that does not wait from going on. */
  lemma PassKeepsOthers(w: World, step: Step, g: Lock)
    requires step.Pass? && Enabled(w, step) && Inv(w) && g in w.granted && g.xid != step.self
    requires Live(Do(w, step), g.xid)
    ensures Recorded(Do(w, step), g)
  {
    RunningLooksLive(w.txns, step.looks, step.after, g.xid);
    assert Recorded(w, g);
    var live := LiveHolders(step.looks, Registered(w, step.tid),
        if w.stamps[step.tid].Share? then w.stamps[step.tid].xid else g.xid);
    if g.tid == step.tid && w.stamps[g.tid].Share? {
      assert g.xid in live;
    }
  }

  lemma PassRecordsSelf(w: World, step: Step, g: Lock)
    requires step.Pass? && Enabled(w, step) && Inv(w) && g in Do(w, step).granted && g.xid == step.self
    ensures Recorded(Do(w, step), g)
  {
    if g in w.granted { assert Recorded(w, g); }
    RunningLooksLive(w.txns, step.looks, step.after, step.self);
  }

  lemma StepKeeps(w: World, step: Step)
    requires Inv(w) && Enabled(w, step) && !step.GateOnly?
    ensures Inv(Do(w, step))
  {
    var w' := Do(w, step);
    forall g | g in w'.granted && Live(w', g.xid) ensures Recorded(w', g) {
      if step.Pass? {
        if g.xid == step.self { PassRecordsSelf(w, step, g); } else { PassKeepsOthers(w, step, g); }
      } else if step.Finish? {
        assert Later(StageOf(w.txns, g.xid), StageOf(step.after, g.xid));
      }
    }
  }

  ghost function Run(w: World, steps: seq<Step>): Option<World>
    decreases |steps|
  {
    if steps == [] then Some(w)
    else if Enabled(w, steps[0]) then Run(Do(w, steps[0]), steps[1..])
    else None
  }

  /** Every pass of the run stamps under the latch it was decided under. */
  ghost predicate AllStamp(steps: seq<Step>) {
    forall i :: 0 <= i < |steps| ==> !steps[i].GateOnly?
  }

  lemma {:induction false} RunKeeps(w: World, steps: seq<Step>)
    requires Inv(w) && AllStamp(steps) && Run(w, steps).Some?
    ensures Inv(Run(w, steps).value)
    decreases |steps|
  {
    if steps != [] {
      StepKeeps(w, steps[0]);
      RunKeeps(Do(w, steps[0]), steps[1..]);
    }
  }

  /** A live exclusive or writer holder is the only live holder of the row. */
  ghost predicate Exclusion(w: World) {
    forall g, h ::
      && g in w.granted && h in w.granted && g.tid == h.tid && !g.request.ForShare?
      && Live(w, g.xid) && Live(w, h.xid)
      ==> g.xid == h.xid
  }

  /** Every live share holder is in the registry or named by the stamp. */
  ghost predicate SharersKnown(w: World) {
    forall g :: g in w.granted && g.request.ForShare? && Live(w, g.xid) ==>
      g.tid in w.stamps && w.stamps[g.tid] != NoStamp && (g.xid == w.stamps[g.tid].xid || g.xid in Registered(w, g.tid))
  }

  /** In every run whose passes stamp under their own latch, with transactions ending at any moment, locks exclude. */
  lemma LocksExclude(w: World, steps: seq<Step>)
    requires Init(w) && AllStamp(steps) && Run(w, steps).Some?
    ensures Exclusion(Run(w, steps).value) && SharersKnown(Run(w, steps).value)
  {
    RunKeeps(w, steps);
    var e := Run(w, steps).value;
    forall g, h | g in e.granted && h in e.granted && g.tid == h.tid && !g.request.ForShare? && Live(e, g.xid) &&
      Live(e, h.xid)
      ensures g.xid == h.xid
    {
      assert Recorded(e, g) && Recorded(e, h);
    }
    assert forall g :: g in e.granted && Live(e, g.xid) ==> Recorded(e, g);
  }

  /** A pass overwrites another transaction's delete or update only once that transaction is aborted or cut off by a
      crash - never while it runs, and never after it committed, however its end falls between the looks. */
  lemma CommittedStampsStay(w: World, step: Step)
    requires (step.Pass? || step.GateOnly?) && Enabled(w, step)
    ensures var stamp := w.stamps[step.tid];
      stamp.Real? && stamp.xid != step.self && Do(w, step).stamps[step.tid] != stamp ==>
        StageOf(step.after, stamp.xid) in {Ending(false), Ended(false), Crashed}
  {
    var stamp := w.stamps[step.tid];
    if stamp.Real? {
      var x := stamp.xid;
      assert Later(StageOf(w.txns, x), StageOf(step.looks.first, x)) &&
             Later(StageOf(step.looks.first, x), StageOf(step.looks.second, x));
      assert Later(StageOf(step.looks.second, x), StageOf(step.looks.third, x)) &&
             Later(StageOf(step.looks.third, x), StageOf(step.after, x));
    }
  }

  // ---------------------------------------------------------------- who waits

  /** Every stamp and every registration comes from a grant. */
  ghost predicate Backed(w: World) {
    && (forall tid :: tid in w.stamps ==> StampBacked(w, tid))
    && (forall tid, x :: x in Registered(w, tid) ==> Lock(tid, x, ForShare) in w.granted)
  }

  predicate StampBacked(w: World, tid: Tid)
    requires tid in w.stamps
  {
    match w.stamps[tid]
    case NoStamp => true
    case Share(x) => Lock(tid, x, ForShare) in w.granted
    case Exclusive(x) => Lock(tid, x, ForUpdate) in w.granted
    case Real(x) => Lock(tid, x, Write) in w.granted
  }

  lemma StepBacks(w: World, step: Step)
    requires Backed(w) && Enabled(w, step)
    ensures Backed(Do(w, step))
  {
    var w' := Do(w, step);
    forall tid, x | x in Registered(w', tid) ensures Lock(tid, x, ForShare) in w'.granted {
      if step.Pass? || step.GateOnly? {
        var stamp, request := w.stamps[step.tid], if step.Pass? then step.request else Write;
        GateDecides(stamp, Registered(w, step.tid), step.self, request, step.looks);
        if tid == step.tid { assert StampBacked(w, tid); } else { assert x in Registered(w, tid); }
      }
    }
    forall tid | tid in w'.stamps ensures StampBacked(w', tid) {
      if tid in w.stamps { assert StampBacked(w, tid); }
    }
  }

  lemma {:induction false} RunBacks(w: World, steps: seq<Step>)
    requires Backed(w) && Run(w, steps).Some?
    ensures Backed(Run(w, steps).value)
    decreases |steps|
  {
    if steps != [] {
      StepBacks(w, steps[0]);
      RunBacks(Do(w, steps[0]), steps[1..]);
    }
  }

  /** A lock on the row that another transaction holds and that is not compatible with the request. */
  predicate Conflicts(g: Lock, tid: Tid, self: Xid, request: Request) {
    g.tid == tid && g.xid != self && !(g.request.ForShare? && request.ForShare?)
  }

  function VerdictOf(w: World, step: Step): Verdict
    requires step.Pass? && step.tid in w.stamps
  {
    Gate(w.stamps[step.tid], Registered(w, step.tid), step.self, step.request, step.looks).0
  }

  /** Such a lock is held to the end of the pass. */
  predicate Holding(g: Lock, step: Step)
    requires step.Pass?
  {
    Conflicts(g, step.tid, step.self, step.request) && StageOf(step.after, g.xid).Running?
  }

  /** The transaction waited for holds such a lock and ran when the pass began. */
  ghost predicate WaitsFor(e: World, step: Step)
    requires step.Pass? && step.tid in e.stamps && VerdictOf(e, step).Wait?
  {
    Live(e, VerdictOf(e, step).on) &&
    exists g :: g in e.granted && g.xid == VerdictOf(e, step).on && Conflicts(g, step.tid, step.self, step.request)
  }

  /** From rows nobody ever locked, in every run whose passes stamp under their own latch: a pass waits if a conflicting
      lock is held throughout it, and only on the holder of a conflicting lock that ran when the pass began. So nobody
      waits for themselves, for someone who is through, or for a fellow sharer. */
  lemma WaitsOnHolders(w: World, steps: seq<Step>, step: Step)
    requires Init(w) && Backed(w) && AllStamp(steps) && Run(w, steps).Some?
    requires step.Pass? && Enabled(Run(w, steps).value, step)
    ensures var e := Run(w, steps).value;
      && (forall g :: g in e.granted && Holding(g, step) ==> VerdictOf(e, step).Wait?)
      && (VerdictOf(e, step).Wait? ==> WaitsFor(e, step))
  {
    RunKeeps(w, steps);
    RunBacks(w, steps);
    var e := Run(w, steps).value;
    var stamp, registry := e.stamps[step.tid], Registered(e, step.tid);
    GateDecides(stamp, registry, step.self, step.request, step.looks);
    forall g | g in e.granted && Holding(g, step) ensures VerdictOf(e, step).Wait? { HolderBlocks(e, step, g); }
    if VerdictOf(e, step).Wait? { WaitIsBacked(e, step, VerdictOf(e, step).on); }
  }

  lemma HolderBlocks(e: World, step: Step, g: Lock)
    requires Inv(e) && step.Pass? && Enabled(e, step) && g in e.granted
    requires Conflicts(g, step.tid, step.self, step.request) && StageOf(step.after, g.xid).Running?
    ensures g.xid in Blockers(e.stamps[step.tid], Registered(e, step.tid), step.self, step.request, step.looks)
  {
    RunningLooksLive(e.txns, step.looks, step.after, g.xid);
    assert Recorded(e, g);
  }

  lemma WaitIsBacked(e: World, step: Step, h: Xid)
    requires Backed(e) && step.Pass? && Enabled(e, step)
    requires h in Blockers(e.stamps[step.tid], Registered(e, step.tid), step.self, step.request, step.looks)
    ensures Live(e, h)
    ensures exists g :: g in e.granted && g.xid == h && Conflicts(g, step.tid, step.self, step.request)
  {
    LooksTell(e.txns, step.looks, step.after, h);
    var tid := step.tid;
    assert StampBacked(e, tid);
    var g := match e.stamps[tid]
      case Share(_) => Lock(tid, h, ForShare)
      case Exclusive(_) => Lock(tid, h, ForUpdate)
      case _ => Lock(tid, h, Write);
    assert g in e.granted && Conflicts(g, step.tid, step.self, step.request) && g.xid == h;
  }

  // ---------------------------------------------------------------- the pass that does not stamp

  /** The transaction holds its share lock only through the registry. */
  predicate OnlyRegistered(w: World, tid: Tid, x: Xid) {
    && Lock(tid, x, ForShare) in w.granted && tid in w.stamps
    && w.stamps[tid].Share? && w.stamps[tid].xid != x
  }

  /** A gate pass whose stamp comes later loses a record exactly when the passing transaction holds a share lock that
      only the registry knows and no other holder of the row looks live: then the registry is retired with nothing
      stamped in its place. */
  lemma GateOnlyKeeps(w: World, step: Step)
    requires step.GateOnly? && Enabled(w, step) && Inv(w)
    ensures Inv(Do(w, step)) <==>
      !(OnlyRegistered(w, step.tid, step.self) &&
        LiveHolders(step.looks, Registered(w, step.tid), w.stamps[step.tid].xid) <= {step.self})
  {
    var w', tid, self := Do(w, step), step.tid, step.self;
    RunningLooksLive(w.txns, step.looks, step.after, self);
    forall g | g in w.granted && Live(w', g.xid) && g.xid != self ensures Recorded(w', g) {
      GateOnlyKeepsOthers(w, step, g);
    }
    if OnlyRegistered(w, tid, self) && LiveHolders(step.looks, Registered(w, tid), w.stamps[tid].xid) <= {self} {
      assert !Recorded(w', Lock(tid, self, ForShare));
    } else {
      forall g | g in w.granted && g.xid == self ensures Recorded(w', g) { assert Recorded(w, g); }
    }
  }

  lemma GateOnlyKeepsOthers(w: World, step: Step, g: Lock)
    requires step.GateOnly? && Enabled(w, step) && Inv(w) && g in w.granted && g.xid != step.self
    requires Live(Do(w, step), g.xid)
    ensures Recorded(Do(w, step), g)
  {
    RunningLooksLive(w.txns, step.looks, step.after, g.xid);
    assert Recorded(w, g);
    if g.tid == step.tid && w.stamps[g.tid].Share? {
      assert g.xid in LiveHolders(step.looks, Registered(w, step.tid), w.stamps[step.tid].xid);
    }
  }

  function Still(t: Txns): Looks {
    Looks(t, t, t)
  }

  function BothRunning(): Txns {
    map[10 := Running, 11 := Running, 12 := Running]
  }

  function FirstEnded(): Txns {
    map[10 := Ended(true), 11 := Running, 12 := Running]
  }

  function OneRow(): World {
    World(map[1 := NoStamp], map[], BothRunning(), {})
  }

  /** Transactions 10 and 11 share the row; the stamp names 10, the registry both. */
  lemma TwoSharers() returns (w: World)
    ensures Run(OneRow(),
      [Pass(1, 10, ForShare, Still(BothRunning()), BothRunning()),
        Pass(1, 11, ForShare, Still(BothRunning()), BothRunning())]) == Some(w)
    ensures w.stamps == map[1 := Share(10)] && Registered(w, 1) == {10, 11} && w.txns == BothRunning()
    ensures Lock(1, 11, ForShare) in w.granted
  {
    var t, w0 := BothRunning(), OneRow();
    var steps := [Pass(1, 10, ForShare, Still(t), t), Pass(1, 11, ForShare, Still(t), t)];
    assert LiveHolders(Still(t), {10}, 10) == {10};
    var w1 := Do(w0, steps[0]);
    w := Do(w1, steps[1]);
    assert Run(w1, steps[1..]) == Some(w) by { assert steps[1..][1..] == []; }
  }

  /** Stamper 10 ends; 11's cross-page update passes the gate without stamping; 12 then gets the row exclusively. */
  lemma SharerForgotten(w: World) returns (e: World)
    requires w.stamps == map[1 := Share(10)] && Registered(w, 1) == {10, 11} && w.txns == BothRunning()
    requires Lock(1, 11, ForShare) in w.granted
    ensures Run(w,
      [Finish(FirstEnded()), GateOnly(1, 11, Still(FirstEnded()), FirstEnded()),
        Pass(1, 12, ForUpdate, Still(FirstEnded()), FirstEnded())]) == Some(e)
    ensures !Exclusion(e)
  {
    var t := FirstEnded();
    var steps := [Finish(t), GateOnly(1, 11, Still(t), t), Pass(1, 12, ForUpdate, Still(t), t)];
    assert LiveHolders(Still(t), {10, 11}, 10) == {11};
    assert LiveHolders(Still(t), {}, 10) == {};
    var w1 := Do(w, steps[0]);
    var w2 := Do(w1, steps[1]);
    e := Do(w2, steps[2]);
    var g, h := Lock(1, 12, ForUpdate), Lock(1, 11, ForShare);
    assert g in e.granted && h in e.granted && Live(e, 11) && Live(e, 12);
    assert Run(w2, steps[2..]) == Some(e) by { assert steps[2..][1..] == []; }
    assert Run(w1, steps[1..]) == Some(e) by { assert steps[1..][1..] == steps[2..]; }
  }

  /** With a pass that does not stamp, a live share holder and a live exclusive holder can meet on one row. */
  lemma UnstampedPassBreaksExclusion() returns (steps: seq<Step>)
    ensures Init(OneRow()) && Run(OneRow(), steps).Some? && !Exclusion(Run(OneRow(), steps).value)
  {
    var w := TwoSharers();
    var e := SharerForgotten(w);
    var a := [Pass(1, 10, ForShare, Still(BothRunning()), BothRunning()),
        Pass(1, 11, ForShare, Still(BothRunning()), BothRunning())];
    var b := [Finish(FirstEnded()), GateOnly(1, 11, Still(FirstEnded()), FirstEnded()),
        Pass(1, 12, ForUpdate, Still(FirstEnded()), FirstEnded())];
    hide Do, Enabled, Exclusion;
    RunConcat(OneRow(), a, b);
    steps := a + b;
  }

  lemma {:induction false} RunConcat(w: World, a: seq<Step>, b: seq<Step>)
    requires Run(w, a).Some?
    ensures Run(w, a + b) == Run(Run(w, a).value, b)
    decreases |a|
  {
    if a == [] {
      assert a + b == b;
    } else {
      assert (a + b)[1..] == a[1..] + b;
      RunConcat(Do(w, a[0]), a[1..], b);
    }
  }
}
