/** Redo of the heap: the records the heap writes, the row-lock stamps it does not log, and the handlers that bring
    any mix of durable page versions back to the state of the writing run. */
module HeapRedo {
  import opened Entries
  import opened Layout
  import opened RowLocks

  /** A tuple version: its header fields and the bytes behind them. `ctid` is the slot of the next version. */
  datatype Version = Version(xmin: nat, stamp: Stamp, cid: nat, updated: bool, hotUpdated: bool, heapOnly: bool,
    ctid: nat, body: seq<byte>)

  type Slots = seq<Option<Version>>

  datatype HeapPage = HeapPage(slots: Slots, upper: nat, next: PageId, lsn: nat)

  /** A page never written: the first writer initialises it in place. */
  const EMPTY := HeapPage([], SPECIAL, INVALID, 0)

  datatype Shot = Before | Init | Link(to: PageId)

  /** What the writing run does to pages. All but `Lock` are log records; an image record carries the page as it is
      after the change it stands for. */
  datatype Event =
    | Insert(page: PageId, slot: nat, v: Version)
    | Update(page: PageId, oldSlot: nat, newPage: PageId, newSlot: nat, xid: Xid, cid: nat, v: Version)
    | Delete(page: PageId, slot: nat, xid: Xid, cid: nat)
    | HotUpdate(page: PageId, oldSlot: nat, newSlot: nat, xid: Xid, cid: nat, v: Version)
    | Cleanup(page: PageId, dead: seq<nat>, prev: PageId, next: PageId)
    | Image(page: PageId, how: Shot, image: HeapPage)
    | Lock(page: PageId, slot: nat, stamp: Stamp, cid: nat)

  // ---------------------------------------------------------------- page operations

  function Size(v: Version): nat {
    TUPLE_HEADER_SIZE + |v.body|
  }

  predicate Holds(p: HeapPage, s: nat) {
    s < |p.slots| && p.slots[s].Some?
  }

  /** `add_tuple_at` accepts the slot: at most one past the end, not in use, and the bytes fit. */
  predicate Placeable(p: HeapPage, s: nat, v: Version) {
    && s <= |p.slots| && !Holds(p, s)
    && var line := if s == |p.slots| then LINE_POINTER_SIZE else 0;
       p.upper >= PAGE_HEADER_SIZE + LINE_POINTER_SIZE * |p.slots| + Size(v) + line
  }

  function Add(p: HeapPage, s: nat, v: Version): HeapPage
    requires Placeable(p, s, v)
  {
    p.(slots := if s == |p.slots| then p.slots + [Some(v)] else p.slots[s := Some(v)], upper := p.upper - Size(v))
  }

  /** A real stamp clears the lock bits; redo does not know the command id and leaves it. */
  function Stamped(v: Version, xid: Xid, cid: Option<nat>, updated: bool): Version {
    v.(stamp := Real(xid), cid := if cid.Some? then cid.value else v.cid, updated := v.updated || updated)
  }

  function StampDeleted(p: HeapPage, s: nat, xid: Xid, cid: Option<nat>, updated: bool): HeapPage
    requires Holds(p, s)
  {
    p.(slots := p.slots[s := Some(Stamped(p.slots[s].value, xid, cid, updated))])
  }

  function StampHotUpdate(p: HeapPage, s: nat, to: nat, xid: Xid, cid: Option<nat>): HeapPage
    requires Holds(p, s)
  {
    p.(slots := p.slots[s := Some(Stamped(p.slots[s].value, xid, cid, true).(hotUpdated := true, ctid := to))])
  }

  predicate KillListOk(p: HeapPage, dead: seq<nat>) {
    && (forall i, j :: 0 <= i < j < |dead| ==> dead[i] < dead[j])
    && (forall i :: 0 <= i < |dead| ==> Holds(p, dead[i]))
  }

  function Swept(slots: Slots, dead: seq<nat>): (r: Slots)
    ensures |r| == |slots|
    ensures forall s :: 0 <= s < |slots| ==> r[s] == if s in dead then None else slots[s]
  {
    seq(|slots|, s requires 0 <= s < |slots| => if s in dead then None else slots[s])
  }

  function LiveBytes(slots: Slots): nat {
    if slots == [] then 0
    else LiveBytes(slots[..|slots| - 1]) + if slots[|slots| - 1].Some? then Size(slots[|slots| - 1].value) else 0
  }

  function Compact(p: HeapPage, dead: seq<nat>): HeapPage {
    var slots := Swept(p.slots, dead);
    p.(slots := slots, upper := if LiveBytes(slots) <= SPECIAL then SPECIAL - LiveBytes(slots) else 0)
  }

  function Shoot(p: HeapPage, how: Shot): HeapPage {
    match how
    case Before => p
    case Init => EMPTY.(lsn := p.lsn)
    case Link(to) => p.(next := to)
  }

  // ---------------------------------------------------------------- the writing run, page by page

  predicate Touches(e: Event, id: PageId) {
    e.page == id || (e.Update? && e.newPage == id) || (e.Cleanup? && e.prev != INVALID && e.prev == id)
  }

  /** A lock stamp goes only where the gate lets it: never over a real stamp of a transaction that may yet count. */
  predicate Lockable(p: HeapPage, s: nat, stamp: Stamp, lost: set<Xid>) {
    && Holds(p, s) && (stamp.Share? || stamp.Exclusive?)
    && (p.slots[s].value.stamp.Real? ==> p.slots[s].value.stamp.xid in lost)
  }

  /** The operations the event runs on page `id` are accepted. */
  predicate Fits(e: Event, id: PageId, p: HeapPage) {
    Touches(e, id) ==>
      match e
      case Insert(_, s, v) => Placeable(p, s, v)
      case Update(from, s, into, t, _, _, v) => (id == from ==> Holds(p, s)) && (id == into ==> Placeable(p, t, v))
      case Delete(_, s, _, _) => Holds(p, s)
      case HotUpdate(_, s, t, _, _, v) => Holds(p, s) && Placeable(p, t, v)
      case Cleanup(page, dead, _, _) => id == page ==> KillListOk(p, dead)
      case Image(_, _, _) => true
      case Lock(_, s, _, _) => Holds(p, s)
  }

  /** What the writer makes sure of before it logs and applies the event. */
  predicate Ready(e: Event, id: PageId, p: HeapPage, lost: set<Xid>) {
    && Fits(e, id, p) && (e.Cleanup? ==> e.page != e.prev)
    && (Touches(e, id) && e.Image? ==> e.image == Shoot(p, e.how))
    && (Touches(e, id) && e.Lock? ==> Lockable(p, e.slot, e.stamp, lost))
  }

  /** The content of page `id` after the event, written or redone. */
  function Effect(e: Event, id: PageId, p: HeapPage, redo: bool): HeapPage
    requires Fits(e, id, p)
  {
    if !Touches(e, id) then p else
      match e
      case Insert(_, s, v) => Add(p, s, v)
      case Update(from, s, into, t, xid, cid, v) =>
        var known := if redo then None else Some(cid);
        if from == into then Add(StampDeleted(p, s, xid, known, true), t, v)
        else if id == from then StampDeleted(p, s, xid, known, true)
        else Add(p, t, v)
      case Delete(_, s, xid, cid) => StampDeleted(p, s, xid, if redo then None else Some(cid), false)
      case HotUpdate(_, s, t, xid, cid, v) => Add(StampHotUpdate(p, s, t, xid, if redo then None else Some(cid)), t, v)
      case Cleanup(page, dead, _, next) => if id == page then Compact(p, dead) else p.(next := next)
      case Image(_, _, image) => image
      case Lock(_, s, stamp, cid) =>
        if redo then p else p.(slots := p.slots[s := Some(p.slots[s].value.(stamp := stamp, cid := cid))])
  }

  /** Page `id` after the first `k` events of the run; event `k` has log position `k + 1`. */
  function PageAfter(run: seq<Event>, id: PageId, k: nat): HeapPage
    requires k <= |run|
  {
    if k == 0 then EMPTY else
      var p := PageAfter(run, id, k - 1);
      var e := run[k - 1];
      if !Touches(e, id) || !Fits(e, id, p) then p
      else if e.Lock? then Effect(e, id, p, false)
      else Effect(e, id, p, false).(lsn := k)
  }

  /** `lost` are the transactions that never commit. */
  ghost predicate ValidRun(run: seq<Event>, lost: set<Xid>) {
    forall k, id :: 0 <= k < |run| ==> Ready(run[k], id, PageAfter(run, id, k), lost)
  }

  // ---------------------------------------------------------------- what a record does to the slots

  function SlotAt(p: HeapPage, s: nat): Option<Version> {
    if s < |p.slots| then p.slots[s] else None
  }

  ghost predicate OthersKept(p: HeapPage, q: HeapPage, changed: set<nat>) {
    q.next == p.next && |q.slots| >= |p.slots| && forall s :: s !in changed ==> SlotAt(q, s) == SlotAt(p, s)
  }

  /** The version now carries the deleter and keeps what it is; only the writer knows the command id. */
  ghost predicate DeletedBy(was: Option<Version>, now: Option<Version>, xid: Xid, cid: nat, updated: bool, redo: bool) {
    && was.Some? && now.Some? && now.value.stamp == Real(xid) && now.value.cid == (if redo then was.value.cid else cid)
    && now.value.updated == (updated || was.value.updated) && now.value.xmin == was.value.xmin
    && now.value.heapOnly == was.value.heapOnly && now.value.body == was.value.body
  }

  ghost predicate SameLink(was: Option<Version>, now: Option<Version>) {
    && was.Some? && now.Some? && now.value.hotUpdated == was.value.hotUpdated && now.value.ctid == was.value.ctid
  }

  /** The new version stands in its slot and takes its bytes. */
  ghost predicate Added(p: HeapPage, q: HeapPage, s: nat, v: Version) {
    SlotAt(p, s) == None && SlotAt(q, s) == Some(v) && q.upper + TUPLE_HEADER_SIZE + |v.body| == p.upper
  }

  /** The event's outcome on page `id`, slot by slot. */
  ghost predicate Outcome(e: Event, id: PageId, p: HeapPage, q: HeapPage, redo: bool) {
    match e
    case Insert(_, s, v) => Added(p, q, s, v) && OthersKept(p, q, {s})
    case Update(from, s, into, t, xid, cid, v) =>
      && (id == from ==>
         DeletedBy(SlotAt(p, s), SlotAt(q, s), xid, cid, true, redo) && SameLink(SlotAt(p, s), SlotAt(q, s)))
      && (id == into ==> Added(p, q, t, v)) && (id != into ==> q.upper == p.upper)
      && OthersKept(p, q, (if id == from then {s} else {}) + (if id == into then {t} else {}))
    case Delete(_, s, xid, cid) =>
      && DeletedBy(SlotAt(p, s), SlotAt(q, s), xid, cid, false, redo) && SameLink(SlotAt(p, s), SlotAt(q, s))
      && q.upper == p.upper && OthersKept(p, q, {s})
    case HotUpdate(_, s, t, xid, cid, v) =>
      && DeletedBy(SlotAt(p, s), SlotAt(q, s), xid, cid, true, redo)
      && SlotAt(q, s).value.hotUpdated && SlotAt(q, s).value.ctid == t
      && Added(p, q, t, v) && OthersKept(p, q, {s, t})
    case Cleanup(page, dead, _, next) =>
      if id == page then
        && |q.slots| == |p.slots| && q.next == p.next
        && (forall s :: SlotAt(q, s) == if s in dead then None else SlotAt(p, s))
        && (LiveBytes(q.slots) <= SPECIAL ==> q.upper + LiveBytes(q.slots) == SPECIAL)
      else q.slots == p.slots && q.upper == p.upper && q.next == next
    case Image(_, _, image) => q.slots == image.slots && q.upper == image.upper && q.next == image.next
    case Lock(_, s, stamp, cid) =>
      if redo then q == p else
        && SlotAt(p, s).Some? && SlotAt(q, s) == Some(SlotAt(p, s).value.(stamp := stamp, cid := cid))
        && q.upper == p.upper && OthersKept(p, q, {s})
  }

  /** What the writer does and what redo does to a page has that outcome. */
  lemma EffectRight(e: Event, id: PageId, p: HeapPage, redo: bool)
    requires Fits(e, id, p) && Touches(e, id)
    ensures Outcome(e, id, p, Effect(e, id, p, redo), redo)
  {
  }

  // ---------------------------------------------------------------- the same page as far as it matters

  /** The deleter a version has, if it counts. */
  function Deleter(v: Version, lost: set<Xid>): Option<Xid> {
    if v.stamp.Real? && v.stamp.xid !in lost then Some(v.stamp.xid) else None
  }

  /** Equal but for the command id and for stamps that are absent, lock-only or of a lost transaction. */
  predicate AlikeVersion(a: Version, b: Version, lost: set<Xid>) {
    a.(stamp := NoStamp, cid := 0) == b.(stamp := NoStamp, cid := 0) && Deleter(a, lost) == Deleter(b, lost)
  }

  predicate AlikeSlot(a: Option<Version>, b: Option<Version>, lost: set<Xid>) {
    a.Some? == b.Some? && (a.Some? ==> AlikeVersion(a.value, b.value, lost))
  }

  predicate AlikeSlots(a: Slots, b: Slots, lost: set<Xid>) {
    |a| == |b| && forall s :: 0 <= s < |a| ==> AlikeSlot(a[s], b[s], lost)
  }

  predicate Alike(p: HeapPage, q: HeapPage, lost: set<Xid>) {
    p.upper == q.upper && p.next == q.next && p.lsn == q.lsn && AlikeSlots(p.slots, q.slots, lost)
  }

  lemma AlikeTransitive(p: HeapPage, q: HeapPage, r: HeapPage, lost: set<Xid>)
    requires Alike(p, q, lost) && Alike(q, r, lost)
    ensures Alike(p, r, lost) && Alike(r, p, lost)
  {
    forall s | 0 <= s < |p.slots|
      ensures AlikeSlot(p.slots[s], r.slots[s], lost) && AlikeSlot(r.slots[s], p.slots[s], lost)
    {
      assert AlikeSlot(p.slots[s], q.slots[s], lost) && AlikeSlot(q.slots[s], r.slots[s], lost);
    }
  }

  lemma AlikeSelf(p: HeapPage, lost: set<Xid>)
    ensures Alike(p, p, lost)
  {
  }

  lemma {:induction false} AlikeBytes(a: Slots, b: Slots, lost: set<Xid>)
    requires AlikeSlots(a, b, lost)
    ensures LiveBytes(a) == LiveBytes(b)
    decreases |a|
  {
    if a != [] {
      assert AlikeSlot(a[|a| - 1], b[|b| - 1], lost);
      AlikeBytes(a[..|a| - 1], b[..|b| - 1], lost);
    }
  }

  lemma AlikeFits(e: Event, id: PageId, p: HeapPage, q: HeapPage, lost: set<Xid>)
    requires Alike(p, q, lost) && Fits(e, id, q)
    ensures Fits(e, id, p)
  {
    assert forall s :: AlikeHolds(p, q, s);
    if e.Cleanup? && Touches(e, id) && id == e.page {
      forall i | 0 <= i < |e.dead| ensures Holds(p, e.dead[i]) { assert AlikeHolds(p, q, e.dead[i]); }
    }
  }

  predicate AlikeHolds(p: HeapPage, q: HeapPage, s: nat) {
    Holds(p, s) <==> Holds(q, s)
  }

  lemma AlikeAdd(p: HeapPage, q: HeapPage, s: nat, v: Version, lost: set<Xid>)
    requires Alike(p, q, lost) && Placeable(p, s, v) && Placeable(q, s, v)
    ensures Alike(Add(p, s, v), Add(q, s, v), lost)
  {
  }

  /** A redone delete is never masked: whatever lock bits the durable version carries, the stamp ends up the same. */
  lemma AlikeStamp(p: HeapPage, q: HeapPage, s: nat, xid: Xid, cid: nat, updated: bool, lost: set<Xid>)
    requires Alike(p, q, lost) && Holds(p, s) && Holds(q, s)
    ensures Alike(StampDeleted(p, s, xid, None, updated), StampDeleted(q, s, xid, Some(cid), updated), lost)
    ensures StampDeleted(p, s, xid, None, updated).slots[s].value.stamp == Real(xid)
  {
    assert AlikeSlot(p.slots[s], q.slots[s], lost);
  }

  lemma AlikeHot(p: HeapPage, q: HeapPage, s: nat, to: nat, xid: Xid, cid: nat, lost: set<Xid>)
    requires Alike(p, q, lost) && Holds(p, s) && Holds(q, s)
    ensures Alike(StampHotUpdate(p, s, to, xid, None), StampHotUpdate(q, s, to, xid, Some(cid)), lost)
  {
    assert AlikeSlot(p.slots[s], q.slots[s], lost);
  }

  lemma AlikeCompact(p: HeapPage, q: HeapPage, dead: seq<nat>, lost: set<Xid>)
    requires Alike(p, q, lost)
    ensures Alike(Compact(p, dead), Compact(q, dead), lost)
  {
    AlikeBytes(Swept(p.slots, dead), Swept(q.slots, dead), lost);
  }

  /** Redoing a record on a page like the one the writer had gives a page like the one the writer left. */
  lemma AlikeEffect(e: Event, id: PageId, p: HeapPage, q: HeapPage, lost: set<Xid>)
    requires Alike(p, q, lost) && Fits(e, id, p) && Fits(e, id, q) && !e.Lock?
    ensures Alike(Effect(e, id, p, true), Effect(e, id, q, false), lost)
  {
    if Touches(e, id) {
      match e
      case Insert(_, s, v) => AlikeAdd(p, q, s, v, lost);
      case Update(from, s, into, t, xid, cid, v) =>
        if id == from {
          AlikeStamp(p, q, s, xid, cid, true, lost);
          if id == into {
            AlikeAdd(StampDeleted(p, s, xid, None, true), StampDeleted(q, s, xid, Some(cid), true), t, v, lost);
          }
        } else {
          AlikeAdd(p, q, t, v, lost);
        }
      case Delete(_, s, xid, cid) => AlikeStamp(p, q, s, xid, cid, false, lost);
      case HotUpdate(_, s, t, xid, cid, v) =>
        AlikeHot(p, q, s, t, xid, cid, lost);
        AlikeAdd(StampHotUpdate(p, s, t, xid, None), StampHotUpdate(q, s, t, xid, Some(cid)), t, v, lost);
      case Cleanup(page, dead, _, _) => if id == page { AlikeCompact(p, q, dead, lost); }
      case Image(_, _, image) => AlikeSelf(image, lost);
    }
  }

  // ---------------------------------------------------------------- versions of one page

  lemma LockAlike(e: Event, id: PageId, p: HeapPage, lost: set<Xid>)
    requires e.Lock? && Ready(e, id, p, lost)
    ensures Alike(Effect(e, id, p, false), p, lost)
  {
  }

  lemma {:induction false} LsnBound(run: seq<Event>, lost: set<Xid>, id: PageId, k: nat)
    requires ValidRun(run, lost) && k <= |run|
    ensures PageAfter(run, id, k).lsn <= k
    decreases k
  {
    if k > 0 {
      LsnBound(run, lost, id, k - 1);
      assert Ready(run[k - 1], id, PageAfter(run, id, k - 1), lost);
    }
  }

  /** Between two points with no record on the page there are only lock stamps, and they change nothing that counts. */
  lemma {:induction false} LocksOnly(run: seq<Event>, lost: set<Xid>, id: PageId, a: nat, b: nat)
    requires ValidRun(run, lost) && a <= b <= |run| && PageAfter(run, id, b).lsn <= a
    ensures Alike(PageAfter(run, id, a), PageAfter(run, id, b), lost)
    decreases b
  {
    if a == b {
      AlikeSelf(PageAfter(run, id, a), lost);
    } else {
      var p, q := PageAfter(run, id, b - 1), PageAfter(run, id, b);
      assert Ready(run[b - 1], id, p, lost);
      LockStepAlike(run, lost, id, b - 1);
      LocksOnly(run, lost, id, a, b - 1);
      AlikeTransitive(PageAfter(run, id, a), p, q, lost);
    }
  }

  lemma LockStepAlike(run: seq<Event>, lost: set<Xid>, id: PageId, k: nat)
    requires ValidRun(run, lost) && k < |run| && PageAfter(run, id, k + 1).lsn <= k
    ensures Alike(PageAfter(run, id, k), PageAfter(run, id, k + 1), lost)
  {
    var p, e := PageAfter(run, id, k), run[k];
    assert Ready(e, id, p, lost);
    AlikeSelf(p, lost);
    if Touches(e, id) {
      LockAlike(e, id, p, lost);
      AlikeTransitive(PageAfter(run, id, k + 1), p, p, lost);
    }
  }

  /** Page `p` is, as far as it matters, page `id` at point `k` of the run or at its own later log position. */
  ghost predicate Caught(run: seq<Event>, lost: set<Xid>, k: nat, id: PageId, p: HeapPage) {
    && k <= |run| && p.lsn <= |run|
    && Alike(p, PageAfter(run, id, Max(k, p.lsn)), lost)
  }

  /** Any version durable at the redo start `s` or later qualifies for a replay from there. */
  lemma DurableCaught(run: seq<Event>, lost: set<Xid>, s: nat, id: PageId, w: nat, p: HeapPage)
    requires ValidRun(run, lost) && s <= w <= |run| && Alike(p, PageAfter(run, id, w), lost)
    ensures Caught(run, lost, s, id, p)
  {
    LsnBound(run, lost, id, w);
    LocksOnly(run, lost, id, Max(s, p.lsn), w);
    var q := PageAfter(run, id, Max(s, p.lsn));
    AlikeTransitive(q, PageAfter(run, id, w), PageAfter(run, id, w), lost);
    AlikeTransitive(p, PageAfter(run, id, w), q, lost);
  }

  /** What a handler leaves of page `id`: image records are copied unconditionally, the rest is guarded by `pd_lsn`. */
  function Redone(e: Event, lsn: nat, id: PageId, p: HeapPage): HeapPage {
    if e.Lock? || !Touches(e, id) then p
    else if e.Image? then e.image.(lsn := Max(lsn, e.image.lsn))
    else if p.lsn >= lsn || !Fits(e, id, p) then p
    else Effect(e, id, p, true).(lsn := lsn)
  }

  /** A handler leaves an untouched page, or one past the record, as it is; any other gets the record's outcome and its
      log position. */
  ghost predicate RecordDone(e: Event, lsn: nat, id: PageId, p: HeapPage, q: HeapPage) {
    if !Touches(e, id) || (!e.Image? && p.lsn >= lsn) then q == p
    else Outcome(e, id, p, q, true) && q.lsn == if e.Image? then Max(lsn, e.image.lsn) else lsn
  }

  lemma RedoneRight(e: Event, lsn: nat, id: PageId, p: HeapPage)
    requires !e.Lock? && Accepted(e, lsn, id, p)
    ensures RecordDone(e, lsn, id, p, Redone(e, lsn, id, p))
  {
    if Touches(e, id) && !e.Image? && p.lsn < lsn {
      hide Effect, Fits;
      EffectRight(e, id, p, true);
      OutcomeLsn(e, id, p, Effect(e, id, p, true), lsn);
    }
  }

  lemma OutcomeLsn(e: Event, id: PageId, p: HeapPage, q: HeapPage, lsn: nat)
    requires !e.Lock? && Outcome(e, id, p, q, true)
    ensures Outcome(e, id, p, q.(lsn := lsn), true)
  {
    assert forall s :: SlotAt(q.(lsn := lsn), s) == SlotAt(q, s);
  }

  /** No operation is refused: the page is past the record or takes it. */
  predicate Accepted(e: Event, lsn: nat, id: PageId, p: HeapPage) {
    e.Lock? || e.Image? || p.lsn >= lsn || Fits(e, id, p)
  }

  /** The step of replay on one page. */
  lemma CaughtStep(run: seq<Event>, lost: set<Xid>, k: nat, id: PageId, p: HeapPage)
    requires ValidRun(run, lost) && k < |run| && Caught(run, lost, k, id, p)
    ensures Accepted(run[k], k + 1, id, p)
    ensures Caught(run, lost, k + 1, id, Redone(run[k], k + 1, id, p))
    ensures Redone(run[k], k + 1, id, p).lsn <= Max(k + 1, p.lsn)
  {
    var e, q, r := run[k], PageAfter(run, id, k), PageAfter(run, id, k + 1);
    assert Ready(e, id, q, lost);
    LsnBound(run, lost, id, k);
    if Touches(e, id) && e.Image? {
      AlikeSelf(r, lost);
    } else if p.lsn <= k {
      AlikeFits(e, id, p, q, lost);
      if e.Lock? || !Touches(e, id) {
        LockStepAlike(run, lost, id, k);
        AlikeTransitive(p, q, r, lost);
      } else {
        AlikeEffect(e, id, p, q, lost);
      }
    }
  }

  // ---------------------------------------------------------------- the handlers

  datatype HeapError = InvalidSlot | PageFull | TupleNotFound | BadKillList

  /** A version of the page a crash can leave when replay has to start at `s`: the page at any later point of the run,
      or what replay had made of it. */
  ghost predicate Durable(run: seq<Event>, lost: set<Xid>, s: nat, id: PageId, p: HeapPage) {
    exists w :: s <= w <= |run| && Alike(p, PageAfter(run, id, w), lost)
  }

  lemma CaughtDurable(run: seq<Event>, lost: set<Xid>, s: nat, k: nat, id: PageId, p: HeapPage)
    requires s <= k && Caught(run, lost, k, id, p)
    ensures Durable(run, lost, s, id, p)
  {
    assert s <= Max(k, p.lsn) <= |run|;
  }

  lemma StartsCaught(run: seq<Event>, lost: set<Xid>, s: nat, id: PageId, p: HeapPage)
    requires ValidRun(run, lost) && Durable(run, lost, s, id, p)
    ensures Caught(run, lost, s, id, p)
  {
    var w :| s <= w <= |run| && Alike(p, PageAfter(run, id, w), lost);
    DurableCaught(run, lost, s, id, w, p);
  }

  lemma EndsAlike(run: seq<Event>, lost: set<Xid>, n: nat, id: PageId, p: HeapPage)
    requires Caught(run, lost, n, id, p) && p.lsn <= n
    ensures Alike(p, PageAfter(run, id, n), lost)
  {
  }

  class HeapRecovery {
    var pages: map<PageId, HeapPage>

    function At(id: PageId): HeapPage
      reads this
    {
      if id in pages then pages[id] else EMPTY
    }

    method AddTupleAt(id: PageId, s: nat, v: Version) returns (r: Result<(), HeapError>)
      modifies this
      ensures r.Ok? <==> Placeable(old(At(id)), s, v)
      ensures r.Err? ==> pages == old(pages)
      ensures r.Ok? ==> pages == old(pages)[id := Add(old(At(id)), s, v)]
    {
      var p := At(id);
      if s > |p.slots| || (s < |p.slots| && p.slots[s].Some?) {
        return Err(InvalidSlot);
      }
      var cost := if s == |p.slots| then LINE_POINTER_SIZE else 0;
      if p.upper < PAGE_HEADER_SIZE + LINE_POINTER_SIZE * |p.slots| + Size(v) + cost {
        return Err(PageFull);
      }
      var slots := if s == |p.slots| then p.slots + [Some(v)] else p.slots[s := Some(v)];
      pages := pages[id := p.(slots := slots, upper := p.upper - Size(v))];
      return Ok(());
    }

    /** Advances `pd_lsn`, never back. */
    method StampLsn(id: PageId, lsn: nat)
      modifies this
      ensures pages == old(pages)[id := old(At(id)).(lsn := Max(lsn, old(At(id)).lsn))]
    {
      var p := At(id);
      pages := pages[id := p.(lsn := Max(lsn, p.lsn))];
    }

    method StampOld(id: PageId, s: nat, xid: Xid, updated: bool, to: Option<nat>) returns (r: Result<(), HeapError>)
      modifies this
      ensures r.Ok? <==> Holds(old(At(id)), s)
      ensures r.Err? ==> pages == old(pages)
      ensures r.Ok? && to.None? ==> pages == old(pages)[id := StampDeleted(old(At(id)), s, xid, None, updated)]
      ensures r.Ok? && to.Some? && updated ==>
        pages == old(pages)[id := StampHotUpdate(old(At(id)), s, to.value, xid, None)]
    {
      var p := At(id);
      if s >= |p.slots| || p.slots[s].None? {
        return Err(TupleNotFound);
      }
      var v := p.slots[s].value.(stamp := Real(xid));
      if updated { v := v.(updated := true); }
      if to.Some? { v := v.(hotUpdated := true, ctid := to.value); }
      pages := pages[id := p.(slots := p.slots[s := Some(v)])];
      return Ok(());
    }

    /** The contract every handler has: it fails exactly when a page it touches is behind the record and refuses it. */
    ghost predicate AllAccept(e: Event, lsn: nat)
      reads this
    {
      forall id :: Accepted(e, lsn, id, At(id))
    }

    twostate predicate AllRedone(e: Event, lsn: nat)
      reads this
    {
      forall id :: At(id) == Redone(e, lsn, id, old(At(id)))
    }

    method ApplyInsert(e: Event, lsn: nat) returns (r: Result<(), HeapError>)
      requires e.Insert?
      modifies this
      ensures r.Ok? <==> old(AllAccept(e, lsn))
      ensures r.Ok? ==> AllRedone(e, lsn)
    {
      assert Accepted(e, lsn, e.page, At(e.page)) ==> AllAccept(e, lsn);
      if At(e.page).lsn >= lsn {
        return Ok(());
      }
      r := AddTupleAt(e.page, e.slot, e.v);
      if r.Err? { return; }
      StampLsn(e.page, lsn);
    }

    method ApplyDelete(e: Event, lsn: nat) returns (r: Result<(), HeapError>)
      requires e.Delete?
      modifies this
      ensures r.Ok? <==> old(AllAccept(e, lsn))
      ensures r.Ok? ==> AllRedone(e, lsn)
    {
      assert Accepted(e, lsn, e.page, At(e.page)) ==> AllAccept(e, lsn);
      if At(e.page).lsn >= lsn {
        return Ok(());
      }
      r := StampOld(e.page, e.slot, e.xid, false, None);
      if r.Err? { return; }
      StampLsn(e.page, lsn);
    }

    method ApplyHotUpdate(e: Event, lsn: nat) returns (r: Result<(), HeapError>)
      requires e.HotUpdate?
      modifies this
      ensures r.Ok? <==> old(AllAccept(e, lsn))
      ensures r.Ok? ==> AllRedone(e, lsn)
    {
      assert Accepted(e, lsn, e.page, At(e.page)) ==> AllAccept(e, lsn);
      if At(e.page).lsn >= lsn {
        return Ok(());
      }
      r := StampOld(e.page, e.oldSlot, e.xid, true, Some(e.newSlot));
      if r.Err? { return; }
      r := AddTupleAt(e.page, e.newSlot, e.v);
      if r.Err? { return; }
      StampLsn(e.page, lsn);
    }

    /** One guard for a same-page update, one guard per page otherwise. */
    method ApplyUpdate(e: Event, lsn: nat) returns (r: Result<(), HeapError>)
      requires e.Update?
      modifies this
      ensures r.Ok? <==> old(AllAccept(e, lsn))
      ensures r.Ok? ==> AllRedone(e, lsn)
    {
      assert Accepted(e, lsn, e.page, At(e.page)) && Accepted(e, lsn, e.newPage, At(e.newPage)) ==> AllAccept(e, lsn);
      if e.page == e.newPage {
        if At(e.page).lsn < lsn {
          r := StampOld(e.page, e.oldSlot, e.xid, true, None);
          if r.Err? { return; }
          r := AddTupleAt(e.page, e.newSlot, e.v);
          if r.Err? { return; }
          StampLsn(e.page, lsn);
        }
        return Ok(());
      }
      if At(e.page).lsn < lsn {
        r := StampOld(e.page, e.oldSlot, e.xid, true, None);
        if r.Err? { return; }
        StampLsn(e.page, lsn);
      }
      if At(e.newPage).lsn < lsn {
        r := AddTupleAt(e.newPage, e.newSlot, e.v);
        if r.Err? { return; }
        StampLsn(e.newPage, lsn);
      }
      return Ok(());
    }

    method ApplyCleanup(e: Event, lsn: nat) returns (r: Result<(), HeapError>)
      requires e.Cleanup?
      modifies this
      ensures r.Ok? <==> old(AllAccept(e, lsn))
      ensures r.Ok? ==> AllRedone(e, lsn)
    {
      assert Accepted(e, lsn, e.page, At(e.page)) ==> AllAccept(e, lsn);
      var p := At(e.page);
      if p.lsn < lsn {
        if !KillListOk(p, e.dead) {
          return Err(BadKillList);
        }
        pages := pages[e.page := Compact(p, e.dead)];
        StampLsn(e.page, lsn);
      }
      if e.prev != INVALID && At(e.prev).lsn < lsn {
        pages := pages[e.prev := At(e.prev).(next := e.next)];
        StampLsn(e.prev, lsn);
      }
      return Ok(());
    }

    method ApplyImage(e: Event, lsn: nat)
      requires e.Image?
      modifies this
      ensures AllRedone(e, lsn)
    {
      pages := pages[e.page := e.image];
      StampLsn(e.page, lsn);
    }

    method Apply(e: Event, lsn: nat) returns (r: Result<(), HeapError>)
      requires !e.Lock?
      modifies this
      ensures r.Ok? <==> old(AllAccept(e, lsn))
      ensures r.Ok? ==> AllRedone(e, lsn)
      ensures r.Ok? ==> forall id :: RecordDone(e, lsn, id, old(At(id)), At(id))
    {
      forall id | Accepted(e, lsn, id, At(id)) ensures RecordDone(e, lsn, id, At(id), Redone(e, lsn, id, At(id))) {
        RedoneRight(e, lsn, id, At(id));
      }
      hide RecordDone, Redone, Accepted;
      match e {
        case Insert(_, _, _) => r := ApplyInsert(e, lsn);
        case Update(_, _, _, _, _, _, _) => r := ApplyUpdate(e, lsn);
        case Delete(_, _, _, _) => r := ApplyDelete(e, lsn);
        case HotUpdate(_, _, _, _, _, _) => r := ApplyHotUpdate(e, lsn);
        case Cleanup(_, _, _, _) => r := ApplyCleanup(e, lsn);
        case Image(_, _, _) =>
          ApplyImage(e, lsn);
          r := Ok(());
      }
    }

    ghost predicate AllCaught(run: seq<Event>, lost: set<Xid>, k: nat)
      reads this
    {
      forall id :: Caught(run, lost, k, id, At(id))
    }

    /** One record of the log; a lock stamp has left none. */
    method ReplayOne(run: seq<Event>, k: nat, ghost lost: set<Xid>)
      requires ValidRun(run, lost) && k < |run| && AllCaught(run, lost, k)
      modifies this
      ensures AllCaught(run, lost, k + 1)
      ensures forall id :: At(id).lsn <= Max(k + 1, old(At(id)).lsn)
    {
      forall id
        ensures Accepted(run[k], k + 1, id, At(id))
        ensures Caught(run, lost, k + 1, id, Redone(run[k], k + 1, id, At(id)))
        ensures Redone(run[k], k + 1, id, At(id)).lsn <= Max(k + 1, At(id).lsn)
      {
        CaughtStep(run, lost, k, id, At(id));
      }
      hide Redone, Caught, Accepted;
      if !run[k].Lock? {
        var r := Apply(run[k], k + 1);
        assert r.Ok?;
      }
    }

    /** Replay of the events from the redo start `s` up to `n` over any versions durable at `s` or later. No record is
        refused, every page is durable again at the end and, if no version was ahead of the log, is the page the writer
        had. */
    method Replay(run: seq<Event>, s: nat, n: nat, ghost lost: set<Xid>) returns (r: Result<(), HeapError>)
      requires ValidRun(run, lost) && s <= n <= |run|
      requires forall id :: Durable(run, lost, s, id, At(id))
      modifies this
      ensures r.Ok?
      ensures forall id :: Durable(run, lost, s, id, At(id))
      ensures (forall id :: old(At(id)).lsn <= n) ==> forall id :: Alike(At(id), PageAfter(run, id, n), lost)
    {
      hide ValidRun, PageAfter, Alike, Durable, Caught;
      forall id ensures Caught(run, lost, s, id, At(id)) {
        StartsCaught(run, lost, s, id, At(id));
      }
      for k := s to n
        invariant AllCaught(run, lost, k)
        invariant forall id :: At(id).lsn <= Max(n, old(At(id)).lsn)
      {
        ReplayOne(run, k, lost);
      }
      r := Ok(());
      forall id ensures Durable(run, lost, s, id, At(id)) {
        CaughtDurable(run, lost, s, n, id, At(id));
      }
      forall id | At(id).lsn <= n ensures Alike(At(id), PageAfter(run, id, n), lost) {
        EndsAlike(run, lost, n, id, At(id));
      }
    }
  }
}
