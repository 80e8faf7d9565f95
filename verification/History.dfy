/**
 The time accounting of bhist (lsbatch/bhist/bhist.c, the event loop of
 displayhist): the time between the events of one job is added to six totals
 according to the job's status.
 */
module History {

  /* A jStatus value: 0, one of the bit patterns the accounting tells apart, or
     any other pattern with the bits it tests. */
  datatype Status =
    | Zero | Psusp | Pend | RunWait | Run | Ssusp | Ususp | Done | Exit
    | Other(doneBit: bool, exitBit: bool, postDoneBit: bool, postErrBit: bool)

  datatype Reasons = Reasons(zombie: bool, killZombie: bool, finishPend: bool, rerun: bool)

  /* `switched` marks a queue switch; `matched` says that the request covers it. */
  datatype Event = Event(switched: bool, jStatus: Status, reasons: Reasons, timeStamp: int, matched: bool)

  datatype Totals = Totals(pend: int, psusp: int, run: int, ssusp: int, ususp: int, unknown: int)
  {
    function Sum(): int { pend + psusp + run + ssusp + ususp + unknown }
  }

  datatype Query = Query(now: int, submitTime: int, windowEnded: bool)

  /* The loop variables. */
  datatype Loop = Loop(totals: Totals, nextTimeStamp: int, laststatus: Status, stayTime: int)

  function Start(laststatus: Status): Loop { Loop(Totals(0, 0, 0, 0, 0, 0), 0, laststatus, 0) }

  /* The first event at or after `i` that is not a queue switch. */
  function NextReal(evs: seq<Event>, i: nat): nat
    requires i <= |evs|
    ensures i <= NextReal(evs, i) <= |evs|
    ensures forall k :: i <= k < NextReal(evs, i) ==> evs[k].switched
    ensures NextReal(evs, i) < |evs| ==> !evs[NextReal(evs, i)].switched
    decreases |evs| - i
  {
    if i < |evs| && evs[i].switched then NextReal(evs, i + 1) else i
  }

  predicate PostFinish(s: Status) { s.Other? && (s.postDoneBit || s.postErrBit) }

  predicate HasPostDone(s: Status) { s.Other? && s.postDoneBit }

  /* Nothing more is expected of the job. */
  predicate Ended(e: Event) {
    var s, r := e.jStatus, e.reasons;
    (s.Done? || (s.Other? && s.doneBit)) ||
    ((s.Exit? || (s.Other? && s.exitBit)) && !r.zombie && !r.killZombie && !r.finishPend && !r.rerun)
  }

  /* The totals an interval goes into. */
  datatype Slot = SPend | SPsusp | SRun | SSsusp | SUsusp | SUnknown

  function Slots(status: Status, laststatus: Status, e: Event, next: seq<Event>): seq<Slot> {
    match status
    case Psusp => [SPsusp]
    case Pend => [SPend]
    case RunWait => [SPend]
    case Run => [SRun]
    case Ssusp => [SSsusp]
    case Ususp => if laststatus.RunWait? then [SPend] else [SUsusp]
    case Done =>
      if e.reasons.finishPend || (next != [] && !HasPostDone(next[0].jStatus)) then [SPend] else []
    case Exit =>
      (if e.reasons.rerun || e.reasons.finishPend || next != [] then [SPend] else []) +
      (if e.reasons.zombie || e.reasons.killZombie then [SUnknown] else [])
    case _ => if PostFinish(status) then [] else [SUnknown]
  }

  function AddTo(t: Totals, s: Slot, dt: int): Totals {
    match s
    case SPend => t.(pend := t.pend + dt)
    case SPsusp => t.(psusp := t.psusp + dt)
    case SRun => t.(run := t.run + dt)
    case SSsusp => t.(ssusp := t.ssusp + dt)
    case SUsusp => t.(ususp := t.ususp + dt)
    case SUnknown => t.(unknown := t.unknown + dt)
  }

  function AddAll(t: Totals, ss: seq<Slot>, dt: int): Totals
    decreases |ss|
  {
    if ss == [] then t else AddAll(AddTo(t, ss[0], dt), ss[1..], dt)
  }

  function Add(t: Totals, status: Status, laststatus: Status, e: Event, next: seq<Event>, dt: int): Totals {
    AddAll(t, Slots(status, laststatus, e, next), dt)
  }

  /* The status an event is accounted under. */
  function EffectiveStatus(e: Event, last: bool, laststatus: Status, q: Query): Status {
    var s := if last && !Ended(e) && q.windowEnded then Exit else e.jStatus;
    if s.Zero? then laststatus else s
  }

  /* The event after `i` that bounds its interval, if there is one. */
  function Following(evs: seq<Event>, i: nat): (next: seq<Event>)
    requires i < |evs|
  {
    var n := NextReal(evs, i + 1);
    if n == |evs| then [] else [evs[n]]
  }

  function Stamp(e: Event, st: Loop): int { if st.nextTimeStamp > 0 then st.nextTimeStamp else e.timeStamp }

  function RawInterval(e: Event, next: seq<Event>, st: Loop, q: Query): int {
    (if next == [] then q.now else next[0].timeStamp) - Stamp(e, st)
  }

  function Stay(e: Event, st: Loop, q: Query): int {
    if Ended(e) then Stamp(e, st) - q.submitTime
    else if q.now < q.submitTime then st.totals.Sum()
    else q.now - q.submitTime
  }

  function NewTotals(e: Event, next: seq<Event>, st: Loop, q: Query): Totals {
    var raw := RawInterval(e, next, st, q);
    if !e.matched || e.switched then st.totals
    else Add(st.totals, EffectiveStatus(e, next == [], st.laststatus, q), st.laststatus, e, next, if raw < 0 then 0 else raw)
  }

  /* One turn of the loop. */
  function Step(e: Event, next: seq<Event>, st: Loop, q: Query): Loop {
    var raw := RawInterval(e, next, st, q);
    Loop(NewTotals(e, next, st, q),
         if next == [] then st.nextTimeStamp else if raw < 0 then Stamp(e, st) else 0,
         if e.matched then EffectiveStatus(e, next == [], st.laststatus, q) else st.laststatus,
         if next == [] then Stay(e, st, q) else st.stayTime)
  }

  function After(evs: seq<Event>, i: nat, last0: Status, q: Query): Loop
    requires i <= |evs|
  {
    if i == 0 then Start(last0) else Step(evs[i - 1], Following(evs, i - 1), After(evs, i - 1, last0, q), q)
  }

  /* The status an event holds after its turn: the loop writes it back. */
  function Written(e: Event, next: seq<Event>, st: Loop, q: Query): Status {
    if e.matched then EffectiveStatus(e, next == [], st.laststatus, q)
    else if next == [] && !Ended(e) && q.windowEnded then Exit
    else e.jStatus
  }

  function Rewritten(evs: seq<Event>, i: nat, last0: Status, q: Query): (r: seq<Status>)
    requires i <= |evs|
    ensures |r| == i
  {
    if i == 0 then []
    else Rewritten(evs, i - 1, last0, q) + [Written(evs[i - 1], Following(evs, i - 1), After(evs, i - 1, last0, q), q)]
  }

  lemma {:induction false} AddFew(t: Totals, ss: seq<Slot>, dt: int)
    requires |ss| <= 2
    ensures AddAll(t, ss, dt) ==
      if |ss| == 0 then t else if |ss| == 1 then AddTo(t, ss[0], dt) else AddTo(AddTo(t, ss[0], dt), ss[1], dt)
  {
    if |ss| == 1 {
      assert ss[1..] == [];
    } else if |ss| == 2 {
      var t1 := AddTo(t, ss[0], dt);
      assert ss[1..][1..] == [];
      assert AddAll(t1, ss[1..], dt) == AddTo(t1, ss[1], dt);
    }
  }

  /* The switch over the status: each interval is added to the totals in place. */
  method AccountInterval(before: Totals, jStatus: Status, laststatus: Status, event: Event, nextevent: seq<Event>, dt: int)
    returns (t: Totals)
    ensures t == Add(before, jStatus, laststatus, event, nextevent, dt)
  {
    AddFew(before, Slots(jStatus, laststatus, event, nextevent), dt);
    t := before;
    match jStatus {
      case Psusp => t := t.(psusp := t.psusp + dt);
      case Pend => t := t.(pend := t.pend + dt);
      case RunWait => t := t.(pend := t.pend + dt);
      case Run => t := t.(run := t.run + dt);
      case Ssusp => t := t.(ssusp := t.ssusp + dt);
      case Ususp =>
        if laststatus.RunWait? {
          t := t.(pend := t.pend + dt);
        } else {
          t := t.(ususp := t.ususp + dt);
        }
      case Done =>
        if event.reasons.finishPend || (nextevent != [] && !HasPostDone(nextevent[0].jStatus)) {
          t := t.(pend := t.pend + dt);
        }
      case Exit =>
        if event.reasons.rerun || event.reasons.finishPend || nextevent != [] {
          t := t.(pend := t.pend + dt);
        }
        if event.reasons.zombie || event.reasons.killZombie {
          t := t.(unknown := t.unknown + dt);
        }
      case _ =>
        if !PostFinish(jStatus) {
          t := t.(unknown := t.unknown + dt);
        }
    }
  }

  method AccountEvent(event: Event, nextevent: seq<Event>, before: Loop, q: Query) returns (st: Loop, status: Status)
    ensures st == Step(event, nextevent, before, q)
    ensures status == Written(event, nextevent, before, q)
  {
    st := before;
    status := event.jStatus;
    var timeStamp := if st.nextTimeStamp > 0 then st.nextTimeStamp else event.timeStamp;
    var timeinterval;
    if nextevent == [] {
      if Ended(event) {
        st := st.(stayTime := timeStamp - q.submitTime);
      } else {
        st := st.(stayTime := q.now - q.submitTime);
        if q.windowEnded { status := Exit; }
        if st.stayTime < 0 { st := st.(stayTime := st.totals.Sum()); }
      }
      timeinterval := q.now - timeStamp;
      if timeinterval < 0 { timeinterval := 0; }
    } else {
      timeinterval := nextevent[0].timeStamp - timeStamp;
      if timeinterval < 0 {
        timeinterval := 0;
        st := st.(nextTimeStamp := timeStamp);
      } else {
        st := st.(nextTimeStamp := 0);
      }
    }
    if !event.matched { return; }
    if status.Zero? { status := st.laststatus; }
    if !event.switched {
      var totals := AccountInterval(st.totals, status, st.laststatus, event, nextevent, timeinterval);
      st := st.(totals := totals);
    }
    st := st.(laststatus := status);
  }

  lemma {:induction false} SameTail(a: seq<Event>, b: seq<Event>, i: nat)
    requires |a| == |b| && i < |a| && a[i..] == b[i..]
    ensures forall k :: i <= k < |a| ==> a[k] == b[k]
    ensures a[i + 1..] == b[i + 1..]
  {
    forall k | i <= k < |a| ensures a[k] == b[k] { assert a[i..][k - i] == b[i..][k - i]; }
  }

  lemma {:induction false} Turn(evs: seq<Event>, i: nat, last0: Status, q: Query)
    requires i < |evs|
    ensures After(evs, i + 1, last0, q) == Step(evs[i], Following(evs, i), After(evs, i, last0, q), q)
    ensures Rewritten(evs, i + 1, last0, q) == Rewritten(evs, i, last0, q) + [Written(evs[i], Following(evs, i), After(evs, i, last0, q), q)]
  {
  }

  /* The next event that is not a queue switch. */
  method NextEvent(events: array<Event>, i: nat, ghost evs: seq<Event>) returns (nextevent: seq<Event>)
    requires i < events.Length == |evs| && forall k :: i <= k < events.Length ==> events[k] == evs[k]
    ensures nextevent == Following(evs, i)
  {
    var n := i + 1;
    while n < events.Length && events[n].switched
      invariant i < n <= events.Length
      invariant NextReal(evs, i + 1) == NextReal(evs, n)
    {
      n := n + 1;
    }
    nextevent := if n == events.Length then [] else [events[n]];
  }

  /** The event loop: it leaves the totals of `After`, and in each event the status
      it was accounted under. */
  method DisplayHist(events: array<Event>, last0: Status, q: Query) returns (st: Loop)
    modifies events
    ensures st == After(old(events[..]), events.Length, last0, q)
    ensures var evs := old(events[..]); forall k :: 0 <= k < events.Length ==>
      events[k] == evs[k].(jStatus := Rewritten(evs, events.Length, last0, q)[k])
  {
    ghost var evs := events[..];
    ghost var written := [];
    st := Start(last0);
    var i := 0;
    while i < events.Length
      invariant 0 <= i <= events.Length
      invariant st == After(evs, i, last0, q)
      invariant events[i..] == evs[i..]
      invariant written == Rewritten(evs, i, last0, q)
      invariant forall k :: 0 <= k < i ==> events[k] == evs[k].(jStatus := written[k])
    {
      SameTail(events[..], evs, i);
      var event := events[i];
      var nextevent := NextEvent(events, i, evs);
      var status;
      st, status := AccountEvent(event, nextevent, st, q);
      Turn(evs, i, last0, q);
      events[i] := event.(jStatus := status);
      written := written + [status];
      i := i + 1;
    }
  }

  // ----- Conservation -----

  predicate Sorted(evs: seq<Event>) {
    forall i, j :: 0 <= i < j < |evs| ==> evs[i].timeStamp <= evs[j].timeStamp
  }

  /* The time up to which the events before `i` have been accounted. */
  function Upto(evs: seq<Event>, i: nat, q: Query): int
    requires 0 < i <= |evs|
  {
    var n := NextReal(evs, i);
    if n < |evs| then evs[n].timeStamp
    else if q.now < LastReal(evs, i) then LastReal(evs, i) else q.now
  }

  /* The time of the last event before `i` that is not a queue switch. */
  function LastReal(evs: seq<Event>, i: nat): int
    requires 0 < i <= |evs|
  {
    if i == 1 || !evs[i - 1].switched then evs[i - 1].timeStamp else LastReal(evs, i - 1)
  }

  /* The interval charged to event `i`, and how many totals it went into. */
  function Interval(evs: seq<Event>, i: nat, q: Query): int
    requires i < |evs|
  {
    Upto(evs, i + 1, q) - evs[i].timeStamp
  }

  function Weight(evs: seq<Event>, i: nat, last0: Status, q: Query): nat
    requires i < |evs|
  {
    var e, next, last := evs[i], Following(evs, i), After(evs, i, last0, q).laststatus;
    if !e.matched || e.switched then 0 else |Slots(EffectiveStatus(e, next == [], last, q), last, e, next)|
  }

  /* Time that went into no total, and time that went into two. */
  function Lost(evs: seq<Event>, i: nat, last0: Status, q: Query): int
    requires i <= |evs|
  {
    if i == 0 then 0
    else
      var dt := if !evs[i - 1].switched && Weight(evs, i - 1, last0, q) == 0 then Interval(evs, i - 1, q) else 0;
      Lost(evs, i - 1, last0, q) + dt
  }

  function Doubled(evs: seq<Event>, i: nat, last0: Status, q: Query): int
    requires i <= |evs|
  {
    if i == 0 then 0
    else
      var dt := if Weight(evs, i - 1, last0, q) == 2 then Interval(evs, i - 1, q) else 0;
      Doubled(evs, i - 1, last0, q) + dt
  }

  lemma {:induction false} AddToSum(t: Totals, s: Slot, dt: int)
    ensures AddTo(t, s, dt).Sum() == t.Sum() + dt
  {
  }

  lemma {:induction false} AddAllSum(t: Totals, ss: seq<Slot>, dt: int)
    requires |ss| <= 2
    ensures AddAll(t, ss, dt).Sum() == if |ss| == 0 then t.Sum() else if |ss| == 1 then t.Sum() + dt else t.Sum() + dt + dt
    decreases |ss|
  {
    if ss != [] {
      AddToSum(t, ss[0], dt);
      AddAllSum(AddTo(t, ss[0], dt), ss[1..], dt);
    }
  }

  /* While the events are in order no time stamp is carried over. */
  lemma {:induction false} NothingCarried(evs: seq<Event>, i: nat, last0: Status, q: Query)
    requires Sorted(evs) && i <= |evs|
    ensures After(evs, i, last0, q).nextTimeStamp == 0
    decreases i
  {
    if i > 0 { NothingCarried(evs, i - 1, last0, q); }
  }

  lemma {:induction false} IntervalIsRaw(evs: seq<Event>, i: nat, st: Loop, q: Query)
    requires Sorted(evs) && i < |evs| && st.nextTimeStamp == 0 && !evs[i].switched
    ensures var raw := RawInterval(evs[i], Following(evs, i), st, q);
      Interval(evs, i, q) == if raw < 0 then 0 else raw
  {
  }

  /* One event moves the accounted time forward by its interval. */
  lemma {:induction false} StepSum(evs: seq<Event>, i: nat, last0: Status, q: Query)
    requires Sorted(evs) && i < |evs|
    ensures var a, b := After(evs, i, last0, q).totals.Sum(), After(evs, i + 1, last0, q).totals.Sum();
      var w, dt := Weight(evs, i, last0, q), Interval(evs, i, q);
      w <= 2 && b == if w == 0 then a else if w == 1 then a + dt else a + dt + dt
  {
    NothingCarried(evs, i, last0, q);
    var e, next, st := evs[i], Following(evs, i), After(evs, i, last0, q);
    assert After(evs, i + 1, last0, q).totals == NewTotals(e, next, st, q);
    if e.matched && !e.switched {
      IntervalIsRaw(evs, i, st, q);
      AddAllSum(st.totals, Slots(EffectiveStatus(e, next == [], st.laststatus, q), st.laststatus, e, next), Interval(evs, i, q));
    }
  }

  lemma {:induction false} UptoStep(evs: seq<Event>, i: nat, q: Query)
    requires Sorted(evs) && 0 < i < |evs|
    ensures if evs[i].switched then Upto(evs, i + 1, q) == Upto(evs, i, q) else Upto(evs, i, q) == evs[i].timeStamp
  {
  }

  lemma {:induction false} LedgerStep(evs: seq<Event>, i: nat, last0: Status, q: Query)
    requires i < |evs|
    ensures var w, dt := Weight(evs, i, last0, q), Interval(evs, i, q);
      Lost(evs, i + 1, last0, q) == Lost(evs, i, last0, q) + (if !evs[i].switched && w == 0 then dt else 0) &&
      Doubled(evs, i + 1, last0, q) == Doubled(evs, i, last0, q) + (if w == 2 then dt else 0) &&
      (evs[i].switched ==> w == 0)
  {
  }

  /* What has been accounted, with the lost time added and the doubled time taken off. */
  function Balance(evs: seq<Event>, i: nat, last0: Status, q: Query): int
    requires i <= |evs|
  {
    After(evs, i, last0, q).totals.Sum() + Lost(evs, i, last0, q) - Doubled(evs, i, last0, q)
  }

  lemma {:induction false} BalanceStep(evs: seq<Event>, i: nat, last0: Status, q: Query)
    requires Sorted(evs) && i < |evs|
    ensures Balance(evs, i + 1, last0, q) == Balance(evs, i, last0, q) + (if evs[i].switched then 0 else Interval(evs, i, q))
  {
    StepSum(evs, i, last0, q);
    LedgerStep(evs, i, last0, q);
  }

  lemma {:induction false} BalanceStart(evs: seq<Event>, last0: Status, q: Query)
    ensures Balance(evs, 0, last0, q) == 0
  {
  }

  ghost predicate GrowsAt(evs: seq<Event>, f: nat -> int, k: nat, q: Query)
    requires k < |evs|
  {
    f(k + 1) == f(k) + (if evs[k].switched then 0 else Interval(evs, k, q))
  }

  /* Anything that grows by the intervals of the real events measures elapsed time. */
  lemma {:induction false} Telescope(evs: seq<Event>, f: nat -> int, i: nat, q: Query)
    requires Sorted(evs) && 0 < i <= |evs| && !evs[0].switched && f(0) == 0
    requires forall k: nat :: k < |evs| ==> GrowsAt(evs, f, k, q)
    ensures f(i) == Upto(evs, i, q) - evs[0].timeStamp
    decreases i
  {
    assert GrowsAt(evs, f, i - 1, q);
    if i > 1 {
      Telescope(evs, f, i - 1, q);
      UptoStep(evs, i - 1, q);
    }
  }

  /** Time conservation, for every history in order that starts with a real event:
      the totals hold the elapsed time, less what went nowhere, plus what was
      counted twice; queue switches make no difference. */
  lemma {:induction false} TimeConserved(evs: seq<Event>, i: nat, last0: Status, q: Query)
    requires Sorted(evs) && 0 < i <= |evs| && !evs[0].switched
    ensures Balance(evs, i, last0, q) == Upto(evs, i, q) - evs[0].timeStamp
  {
    var f := (k: nat) => if k <= |evs| then Balance(evs, k, last0, q) else 0;
    BalanceStart(evs, last0, q);
    forall k: nat | k < |evs| ensures GrowsAt(evs, f, k, q) {
      BalanceStep(evs, k, last0, q);
    }
    Telescope(evs, f, i, q);
  }

  // ----- Ordinary histories -----

  /* Covered by the request, no zombie exit, no post-execution status. */
  predicate Ordinary(e: Event) {
    e.matched && !e.reasons.zombie && !e.reasons.killZombie && !PostFinish(e.jStatus)
  }

  /* The status of the last event before `i` that the request covers and that has one. */
  function StatusBefore(evs: seq<Event>, i: nat, last0: Status): Status
    requires i <= |evs|
  {
    if i == 0 then last0
    else if evs[i - 1].matched && !evs[i - 1].jStatus.Zero? then evs[i - 1].jStatus
    else StatusBefore(evs, i - 1, last0)
  }

  lemma {:induction false} CarriedStatus(evs: seq<Event>, i: nat, k: nat, last0: Status, q: Query)
    requires k <= i < |evs| && !evs[i].switched
    ensures After(evs, k, last0, q).laststatus == StatusBefore(evs, k, last0)
    decreases k
  {
    if k > 0 {
      CarriedStatus(evs, i, k - 1, last0, q);
      assert NextReal(evs, k) <= i;
    }
  }

  /* The status event `i` is accounted under. */
  function StatusAt(evs: seq<Event>, i: nat, last0: Status, q: Query): Status
    requires i < |evs|
  {
    EffectiveStatus(evs[i], NextReal(evs, i + 1) == |evs|, StatusBefore(evs, i, last0), q)
  }

  /* A status that ends the job, for an event that nothing follows. */
  predicate EndsJob(s: Status, e: Event) {
    (s.Done? && !e.reasons.finishPend) || (s.Exit? && !e.reasons.finishPend && !e.reasons.rerun)
  }

  /* The status the last real event is accounted under, and whether it ends the job. */
  predicate Final(evs: seq<Event>, last0: Status, q: Query)
    requires evs != []
  {
    var k := LastRealIndex(evs, |evs|);
    EndsJob(EffectiveStatus(evs[k], true, StatusBefore(evs, k, last0), q), evs[k])
  }

  function LastRealIndex(evs: seq<Event>, i: nat): nat
    requires 0 < i <= |evs|
    ensures LastRealIndex(evs, i) < i
  {
    if i == 1 || !evs[i - 1].switched then i - 1 else LastRealIndex(evs, i - 1)
  }

  lemma {:induction false} OrdinaryStatuses(evs: seq<Event>, i: nat, last0: Status, q: Query)
    requires i <= |evs| && !PostFinish(last0) && forall k :: 0 <= k < |evs| ==> Ordinary(evs[k])
    ensures !PostFinish(After(evs, i, last0, q).laststatus)
    decreases i
  {
    if i > 0 { OrdinaryStatuses(evs, i - 1, last0, q); }
  }

  lemma {:induction false} OrdinarySlots(s: Status, last: Status, e: Event, next: seq<Event>)
    requires !PostFinish(s) && Ordinary(e) && forall k :: 0 <= k < |next| ==> Ordinary(next[k])
    ensures |Slots(s, last, e, next)| == if next == [] && EndsJob(s, e) then 0 else 1
  {
  }

  /* Every real event but the last goes into exactly one total. */
  lemma {:induction false} OrdinaryWeight(evs: seq<Event>, i: nat, last0: Status, q: Query)
    requires i < |evs| && !PostFinish(last0) && !evs[i].switched && forall k :: 0 <= k < |evs| ==> Ordinary(evs[k])
    ensures Weight(evs, i, last0, q) <= 1
    ensures Following(evs, i) != [] ==> Weight(evs, i, last0, q) == 1
    ensures Following(evs, i) == [] ==> (Weight(evs, i, last0, q) == 0 <==> i == LastRealIndex(evs, |evs|) && Final(evs, last0, q))
  {
    var next, last := Following(evs, i), After(evs, i, last0, q).laststatus;
    CarriedStatus(evs, i, i, last0, q);
    OrdinaryStatuses(evs, i, last0, q);
    OrdinarySlots(EffectiveStatus(evs[i], next == [], last, q), last, evs[i], next);
    if next == [] { LastIsLast(evs, i, |evs|); }
  }

  lemma {:induction false} LastIsLast(evs: seq<Event>, i: nat, m: nat)
    requires i < m <= |evs| && !evs[i].switched && NextReal(evs, i + 1) >= m
    ensures LastRealIndex(evs, m) == i
    decreases m
  {
    if m > i + 1 { LastIsLast(evs, i, m - 1); }
  }

  /* If every real event but possibly the one at `last` has weight 1. */
  lemma {:induction false} OrdinaryLedger(evs: seq<Event>, i: nat, last0: Status, q: Query, last: nat, ended: bool)
    requires i <= |evs| && last < |evs| && !evs[last].switched
    requires forall k {:trigger Weight(evs, k, last0, q)} :: 0 <= k < |evs| && !evs[k].switched ==>
      Weight(evs, k, last0, q) == if k == last && ended then 0 else 1
    ensures Doubled(evs, i, last0, q) == 0
    ensures Lost(evs, i, last0, q) == if last < i && ended then Interval(evs, last, q) else 0
    decreases i
  {
    if i > 0 {
      LedgerStep(evs, i - 1, last0, q);
      OrdinaryLedger(evs, i - 1, last0, q, last, ended);
    }
  }

  lemma {:induction false} RealIsReal(evs: seq<Event>, i: nat)
    requires 0 < i <= |evs| && !evs[0].switched
    ensures !evs[LastRealIndex(evs, i)].switched && NextReal(evs, LastRealIndex(evs, i) + 1) >= i
    ensures LastReal(evs, i) == evs[LastRealIndex(evs, i)].timeStamp
    decreases i
  {
    if i > 1 && evs[i - 1].switched { RealIsReal(evs, i - 1); }
  }

  /** For an ordinary history the six totals add up to the time from submission to
      the final DONE or EXIT of a finished job, and to now otherwise, however many
      queue switches are interleaved. */
  lemma {:induction false} OrdinaryTimeConserved(evs: seq<Event>, last0: Status, q: Query)
    requires evs != [] && Sorted(evs) && !evs[0].switched && evs[0].timeStamp == q.submitTime
    requires !PostFinish(last0) && forall k :: 0 <= k < |evs| ==> Ordinary(evs[k])
    requires evs[|evs| - 1].timeStamp <= q.now
    ensures After(evs, |evs|, last0, q).totals.Sum() ==
      (if Final(evs, last0, q) then evs[LastRealIndex(evs, |evs|)].timeStamp else q.now) - q.submitTime
  {
    var m := |evs|;
    var last, ended := LastRealIndex(evs, m), Final(evs, last0, q);
    RealIsReal(evs, m);
    forall k | 0 <= k < m && !evs[k].switched
      ensures Weight(evs, k, last0, q) == if k == last && ended then 0 else 1
    {
      OrdinaryWeight(evs, k, last0, q);
      if k == last { assert NextReal(evs, last + 1) == m; }
    }
    OrdinaryLedger(evs, m, last0, q, last, ended);
    TimeConserved(evs, m, last0, q);
    IntervalOfLast(evs, last, q);
  }

  lemma {:induction false} IntervalOfLast(evs: seq<Event>, last: nat, q: Query)
    requires last < |evs| && Sorted(evs) && !evs[0].switched && last == LastRealIndex(evs, |evs|) && evs[|evs| - 1].timeStamp <= q.now
    ensures Upto(evs, |evs|, q) == q.now && Interval(evs, last, q) == q.now - evs[last].timeStamp
  {
    RealIsReal(evs, |evs|);
    assert NextReal(evs, last + 1) == |evs|;
    RealIsReal(evs, last + 1);
  }

  // ----- Time counted twice -----

  /* An exit of a zombie, by its own status, by the one carried over, or because the
     search window ends at an unfinished last event, after which the job goes on. */
  predicate ZombieGoesOn(evs: seq<Event>, i: nat, last0: Status, q: Query)
    requires i < |evs|
  {
    var e, last := evs[i], NextReal(evs, i + 1) == |evs|;
    && e.matched && !e.switched && (e.reasons.zombie || e.reasons.killZombie)
    && (!last || e.reasons.rerun || e.reasons.finishPend)
    && (e.jStatus.Exit? || (last && !Ended(e) && q.windowEnded) ||
        (e.jStatus.Zero? && StatusBefore(evs, i, last0).Exit?))
  }

  /** Time is counted twice exactly for a zombie exit after which the job goes on: its
      interval goes to pending and to unknown, and any other interval at most once
      into the totals. */
  lemma {:induction false} DoubledIsZombie(evs: seq<Event>, i: nat, last0: Status, q: Query)
    requires Sorted(evs) && i < |evs|
    ensures var before, after := After(evs, i, last0, q).totals, After(evs, i + 1, last0, q).totals;
      var dt := Interval(evs, i, q);
      if ZombieGoesOn(evs, i, last0, q) then after == before.(pend := before.pend + dt, unknown := before.unknown + dt)
      else after.Sum() == before.Sum() || after.Sum() == before.Sum() + dt
  {
    StepSum(evs, i, last0, q);
    if !evs[i].switched {
      CarriedStatus(evs, i, i, last0, q);
      var st, next := After(evs, i, last0, q), Following(evs, i);
      var status := EffectiveStatus(evs[i], next == [], st.laststatus, q);
      ZombieSlots(evs, i, last0, q);
      if ZombieGoesOn(evs, i, last0, q) {
        NothingCarried(evs, i, last0, q);
        IntervalIsRaw(evs, i, st, q);
        AddFew(st.totals, Slots(status, st.laststatus, evs[i], next), Interval(evs, i, q));
      }
    }
  }

  lemma {:induction false} ZombieSlots(evs: seq<Event>, i: nat, last0: Status, q: Query)
    requires i < |evs| && !evs[i].switched
    ensures var last, next := After(evs, i, last0, q).laststatus, Following(evs, i);
      var slots := Slots(EffectiveStatus(evs[i], next == [], last, q), last, evs[i], next);
      if ZombieGoesOn(evs, i, last0, q) then slots == [SPend, SUnknown] else Weight(evs, i, last0, q) <= 1
  {
    CarriedStatus(evs, i, i, last0, q);
  }

  // ----- Time counted nowhere -----

  /* An event outside the request, or after which nothing is to be counted: a post-
     execution status, a final exit, or a job done, last or before its post-execution. */
  predicate Uncounted(evs: seq<Event>, i: nat, last0: Status, q: Query)
    requires i < |evs|
  {
    var e, n, s := evs[i], NextReal(evs, i + 1), StatusAt(evs, i, last0, q);
    var r := e.reasons;
    || !e.matched || e.switched || (s.Other? && (s.postDoneBit || s.postErrBit))
    || (s.Done? && !r.finishPend && (n == |evs| || (evs[n].jStatus.Other? && evs[n].jStatus.postDoneBit)))
    || (s.Exit? && n == |evs| && !r.rerun && !r.finishPend && !r.zombie && !r.killZombie)
  }

  /** The totals stay as they are exactly at such events; at any other the interval enters
      their sum, once or twice. */
  lemma {:induction false} LostIsUncounted(evs: seq<Event>, i: nat, last0: Status, q: Query)
    requires Sorted(evs) && i < |evs|
    ensures var before, after := After(evs, i, last0, q).totals, After(evs, i + 1, last0, q).totals;
      var dt := Interval(evs, i, q);
      if Uncounted(evs, i, last0, q) then after == before
      else after.Sum() == before.Sum() + dt || after.Sum() == before.Sum() + dt + dt
  {
    StepSum(evs, i, last0, q);
    if evs[i].matched && !evs[i].switched {
      CarriedStatus(evs, i, i, last0, q);
      var st, next := After(evs, i, last0, q), Following(evs, i);
      UncountedSlots(StatusAt(evs, i, last0, q), st.laststatus, evs[i], next);
      assert Slots(StatusAt(evs, i, last0, q), st.laststatus, evs[i], next) == [] <==> Uncounted(evs, i, last0, q);
    }
  }

  lemma {:induction false} UncountedSlots(s: Status, last: Status, e: Event, next: seq<Event>)
    ensures Slots(s, last, e, next) == [] <==>
      || PostFinish(s)
      || (s.Done? && !e.reasons.finishPend && (next == [] || HasPostDone(next[0].jStatus)))
      || (s.Exit? && next == [] && !e.reasons.rerun && !e.reasons.finishPend && !e.reasons.zombie && !e.reasons.killZombie)
  {
  }

  function ZombieHistory(): seq<Event> {
    var plain, zombie := Reasons(false, false, false, false), Reasons(true, false, false, false);
    [Event(false, Pend, plain, 0, true), Event(false, Exit, zombie, 10, true), Event(false, Pend, plain, 20, true)]
  }

  lemma {:induction false} ZombieTurn(i: nat, before: Totals, last: Status)
    requires i < 3
    ensures var evs, st := ZombieHistory(), Step(ZombieHistory()[i], Following(ZombieHistory(), i), Loop(before, 0, last, 0), Query(30, 0, false));
      st.nextTimeStamp == 0 && st.laststatus == evs[i].jStatus && (i < 2 ==> st.stayTime == 0) &&
      st.totals == before.(pend := before.pend + 10, unknown := before.unknown + if i == 1 then 10 else 0)
  {
    var evs := ZombieHistory();
    assert Following(evs, i) == if i < 2 then [evs[i + 1]] else [];
    AddFew(before, Slots(evs[i].jStatus, last, evs[i], Following(evs, i)), 10);
  }

  lemma {:induction false} ZombieAfter(k: nat)
    requires k <= 3
    ensures var evs, st := ZombieHistory(), After(ZombieHistory(), k, Zero, Query(30, 0, false));
      st.totals == Totals(10 * k, 0, 0, 0, 0, if k >= 2 then 10 else 0) && st.nextTimeStamp == 0 &&
      (k < 3 ==> st.stayTime == 0)
    decreases k
  {
    if k > 0 {
      var evs, q := ZombieHistory(), Query(30, 0, false);
      ZombieAfter(k - 1);
      var st := After(evs, k - 1, Zero, q);
      Turn(evs, k - 1, Zero, q);
      ZombieTurn(k - 1, st.totals, st.laststatus);
      assert st == Loop(st.totals, 0, st.laststatus, 0);
    }
  }

  /** A job submitted at 0, whose zombie exits at 10 and which is pending again from 20
      on, has at 30 spent 40 units of time. */
  lemma {:induction false} ZombieWitness()
    ensures var evs, q := ZombieHistory(), Query(30, 0, false);
      Sorted(evs) && ZombieGoesOn(evs, 1, Zero, q) &&
      After(evs, 3, Zero, q).totals == Totals(30, 0, 0, 0, 0, 10) && After(evs, 3, Zero, q).totals.Sum() == 40
  {
    ZombieAfter(3);
  }

  // ----- Each total on its own -----

  function Get(t: Totals, s: Slot): int {
    match s
    case SPend => t.pend
    case SPsusp => t.psusp
    case SRun => t.run
    case SSsusp => t.ssusp
    case SUsusp => t.ususp
    case SUnknown => t.unknown
  }

  /* Whether the time from event `i` to the next one belongs to the state. */
  predicate Belongs(evs: seq<Event>, i: nat, last0: Status, q: Query, slot: Slot)
    requires i < |evs|
  {
    var e, n, s := evs[i], NextReal(evs, i + 1), StatusAt(evs, i, last0, q);
    var waited, goesOn := StatusBefore(evs, i, last0) == RunWait, n < |evs|;
    e.matched && !e.switched &&
    match slot
    case SRun => s == Run
    case SSsusp => s == Ssusp
    case SPsusp => s == Psusp
    case SUsusp => s == Ususp && !waited
    case SPend =>
      || s == Pend || s == RunWait || (s == Ususp && waited)
      || (s == Done && (e.reasons.finishPend || (goesOn && !(evs[n].jStatus.Other? && evs[n].jStatus.postDoneBit))))
      || (s == Exit && (e.reasons.finishPend || e.reasons.rerun || goesOn))
    case SUnknown =>
      || s == Zero || (s.Other? && !s.postDoneBit && !s.postErrBit)
      || (s == Exit && (e.reasons.zombie || e.reasons.killZombie))
  }

  /* When the time of event `i` starts: a later stamp of an event before it is carried over. */
  function StampAt(evs: seq<Event>, i: nat): int
    requires i < |evs|
  {
    if i == 0 then evs[0].timeStamp
    else
      var n, before := NextReal(evs, i), StampAt(evs, i - 1);
      if n < |evs| && 0 < before && evs[n].timeStamp < before then before else evs[i].timeStamp
  }

  /* The time charged for event `i`. */
  function Charge(evs: seq<Event>, i: nat, q: Query): int
    requires i < |evs|
  {
    var n := NextReal(evs, i + 1);
    var until := if n < |evs| then evs[n].timeStamp else q.now;
    if until < StampAt(evs, i) then 0 else until - StampAt(evs, i)
  }

  function SumOf(evs: seq<Event>, i: nat, last0: Status, q: Query, slot: Slot): int
    requires i <= |evs|
  {
    if i == 0 then 0
    else SumOf(evs, i - 1, last0, q, slot) + if Belongs(evs, i - 1, last0, q, slot) then Charge(evs, i - 1, q) else 0
  }

  lemma {:induction false} StampIs(evs: seq<Event>, i: nat, last0: Status, q: Query)
    requires i < |evs| && NextReal(evs, i) < |evs|
    ensures Stamp(evs[i], After(evs, i, last0, q)) == StampAt(evs, i)
    decreases i
  {
    if i > 0 {
      StampIs(evs, i - 1, last0, q);
      assert Following(evs, i - 1) == [evs[NextReal(evs, i)]];
    }
  }

  lemma {:induction false} AddFewGet(t: Totals, ss: seq<Slot>, dt: int, slot: Slot)
    requires |ss| <= 2 && (|ss| == 2 ==> ss[0] != ss[1])
    ensures Get(AddAll(t, ss, dt), slot) == Get(t, slot) + if slot in ss then dt else 0
  {
    AddFew(t, ss, dt);
  }

  lemma {:induction false} SlotsAre(evs: seq<Event>, i: nat, last0: Status, q: Query, slot: Slot)
    requires i < |evs| && evs[i].matched && !evs[i].switched
    ensures var ss := Slots(StatusAt(evs, i, last0, q), StatusBefore(evs, i, last0), evs[i], Following(evs, i));
      |ss| <= 2 && (|ss| == 2 ==> ss[0] != ss[1]) && (slot in ss <==> Belongs(evs, i, last0, q, slot))
  {
  }

  lemma {:induction false} TotalStep(evs: seq<Event>, i: nat, last0: Status, q: Query, slot: Slot)
    requires i < |evs|
    ensures Get(After(evs, i + 1, last0, q).totals, slot) ==
      Get(After(evs, i, last0, q).totals, slot) + if Belongs(evs, i, last0, q, slot) then Charge(evs, i, q) else 0
  {
    if evs[i].matched && !evs[i].switched {
      var st, next := After(evs, i, last0, q), Following(evs, i);
      Turn(evs, i, last0, q);
      StampIs(evs, i, last0, q);
      CarriedStatus(evs, i, i, last0, q);
      SlotsAre(evs, i, last0, q, slot);
      AddFewGet(st.totals, Slots(StatusAt(evs, i, last0, q), st.laststatus, evs[i], next), Charge(evs, i, q), slot);
    }
  }

  /** Each of the six totals is the time of exactly the events that belong to its state,
      for every list of events, in order or not. */
  lemma {:induction false} EachTotal(evs: seq<Event>, i: nat, last0: Status, q: Query, slot: Slot)
    requires i <= |evs|
    ensures Get(After(evs, i, last0, q).totals, slot) == SumOf(evs, i, last0, q, slot)
    decreases i
  {
    if i > 0 {
      EachTotal(evs, i - 1, last0, q, slot);
      TotalStep(evs, i - 1, last0, q, slot);
    }
  }

  /** In an ordered history the time charged for an event is the time to the next one. */
  lemma {:induction false} OrderedCharge(evs: seq<Event>, i: nat, q: Query)
    requires Sorted(evs) && i < |evs| && !evs[i].switched
    ensures StampAt(evs, i) == evs[i].timeStamp && Charge(evs, i, q) == Interval(evs, i, q)
  {
    OrderedStamp(evs, i, i);
    if NextReal(evs, i + 1) == |evs| { RealStamp(evs, i); }
  }

  lemma {:induction false} OrderedStamp(evs: seq<Event>, i: nat, k: nat)
    requires Sorted(evs) && k <= i < |evs|
    ensures StampAt(evs, k) == evs[k].timeStamp
    decreases k
  {
    if k > 0 { OrderedStamp(evs, i, k - 1); }
  }

  lemma {:induction false} RealStamp(evs: seq<Event>, i: nat)
    requires i < |evs| && !evs[i].switched && NextReal(evs, i + 1) == |evs|
    ensures LastReal(evs, i + 1) == evs[i].timeStamp
  {
  }

  /* The latest time so far. */
  function Latest(evs: seq<Event>, i: nat): int
    requires i < |evs|
  {
    if i == 0 then evs[0].timeStamp
    else if evs[i].timeStamp < Latest(evs, i - 1) then Latest(evs, i - 1) else evs[i].timeStamp
  }

  /** Out of order no time is counted twice: without queue switches the time of an event
      starts at the latest time so far. */
  lemma {:induction false} StampIsLatest(evs: seq<Event>, i: nat)
    requires i < |evs| && forall k :: 0 <= k < |evs| ==> !evs[k].switched && evs[k].timeStamp > 0
    ensures StampAt(evs, i) == Latest(evs, i) > 0
    decreases i
  {
    if i > 0 { StampIsLatest(evs, i - 1); }
  }

  /** The status left in an event that is no queue switch is the one it was accounted under; an
      event outside the request keeps its own, but for the last one of an unfinished job when
      the search window ends. */
  lemma {:induction false} StatusLeft(evs: seq<Event>, i: nat, k: nat, last0: Status, q: Query)
    requires k < i <= |evs| && !evs[k].switched
    ensures var e, last := evs[k], NextReal(evs, k + 1) == |evs|;
      Rewritten(evs, i, last0, q)[k] ==
      if e.matched then StatusAt(evs, k, last0, q) else if last && !Ended(e) && q.windowEnded then Exit else e.jStatus
    decreases i
  {
    if k < i - 1 {
      StatusLeft(evs, i - 1, k, last0, q);
    } else {
      CarriedStatus(evs, k, k, last0, q);
    }
  }

  // ----- The time a job has stayed -----

  predicate NoReason(r: Reasons) { !r.zombie && !r.killZombie && !r.finishPend && !r.rerun }

  /** The time stayed: up to its last event for a job that is done or has exited for no other
      reason, and up to now otherwise. */
  lemma {:induction false} StayTime(evs: seq<Event>, last0: Status, q: Query)
    requires evs != [] && Sorted(evs) && !evs[|evs| - 1].switched && q.submitTime <= q.now
    ensures var e, stay := evs[|evs| - 1], After(evs, |evs|, last0, q).stayTime;
      (e.jStatus == Done || (e.jStatus == Exit && NoReason(e.reasons)) ==> stay == e.timeStamp - q.submitTime) &&
      (e.jStatus in {Zero, Psusp, Pend, RunWait, Run, Ssusp, Ususp} || (e.jStatus == Exit && !NoReason(e.reasons)) ==>
        stay == q.now - q.submitTime)
  {
    var n := |evs| - 1;
    Turn(evs, n, last0, q);
    NothingCarried(evs, n, last0, q);
  }

  /** For an ordinary history it is what the six totals sum up to, unless the job is done but
      still pending to finish, or the search window ended it. */
  lemma {:induction false} StayIsSum(evs: seq<Event>, last0: Status, q: Query)
    requires evs != [] && Sorted(evs) && !evs[0].switched && evs[0].timeStamp == q.submitTime && !evs[|evs| - 1].switched
    requires !PostFinish(last0) && forall k :: 0 <= k < |evs| ==> Ordinary(evs[k])
    requires evs[|evs| - 1].timeStamp <= q.now && !q.windowEnded
    requires var e := evs[|evs| - 1]; !e.jStatus.Zero? && !e.jStatus.Other? && !(e.jStatus.Done? && e.reasons.finishPend)
    ensures After(evs, |evs|, last0, q).stayTime == After(evs, |evs|, last0, q).totals.Sum()
  {
    StayTime(evs, last0, q);
    FinalOfLast(evs, last0, q);
    OrdinaryTimeConserved(evs, last0, q);
  }

  lemma {:induction false} FinalOfLast(evs: seq<Event>, last0: Status, q: Query)
    requires evs != [] && !evs[|evs| - 1].switched && Ordinary(evs[|evs| - 1]) && !q.windowEnded
    requires var e := evs[|evs| - 1]; !e.jStatus.Zero? && !e.jStatus.Other? && !(e.jStatus.Done? && e.reasons.finishPend)
    ensures LastRealIndex(evs, |evs|) == |evs| - 1
    ensures var e := evs[|evs| - 1]; Final(evs, last0, q) <==> e.jStatus == Done || (e.jStatus == Exit && NoReason(e.reasons))
  {
  }
}
