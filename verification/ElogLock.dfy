/**
 The event-log lock between master batch daemons (lsbatch/daemons/elock.c) as a
 protocol of many processes over one lock file.

 One event is one system call together with the decisions that only use what
 that call returned, but for two: creating the file writes its owner, and reading
 the owner opens the file.  A process that has read the owner probes it in an event
 of its own, and one that has decided to take the lock over is at `Force` until it
 opens the file.
 */
module ElogLock {
  import opened Common

  /* What the lock file records about its owner. */
  datatype Ident = Ident(host: int, pid: int)

  datatype LockFile = LockFile(owner: Ident, mtime: int)

  /* Where a process is in getElock, or what it is otherwise. */
  datatype Pc =
    | Gone
    | Access
    | ReadOwner
    | Probe(owner: Ident)
    | FirstStat
    | Wait(lastmodtime: int, retry: nat)
    | Force
    | Hold

  datatype Proc = Proc(id: Ident, pc: Pc)

  /* `clock` is the latest file time given out so far. */
  datatype State = State(file: Option<LockFile>, clock: int, procs: seq<Proc>)

  datatype Event =
    | Start(p: nat, id: Ident)          // a daemon comes up and calls getElock
    | Open(p: nat, t: int)              // open with O_CREAT | O_EXCL
    | ReadFile(p: nat)                  // open read-only and read the owner
    | CheckOwner(p: nat, alive: bool)   // kill(pid, 0) of the owner read, if it is local
    | StatFile(p: nat)                  // the stat before the polling loop
    | Poll(p: nat)                      // one turn of the polling loop
    | Seize(p: nat, t: int)             // open with O_CREAT | O_TRUNC
    | Touch(p: nat, t: int)             // touchElock
    | Release(p: nat)                   // releaseElogLock, then exit
    | Leave(p: nat)                     // crash, resign, or any fatal exit

  predicate Live(s: State, p: nat) { p < |s.procs| && !s.procs[p].pc.Gone? }

  predicate At(s: State, p: nat, pc: Pc) { p < |s.procs| && s.procs[p].pc == pc }

  predicate Holds(s: State, p: nat) { At(s, p, Hold) }

  /* When an event can happen.  Every write advances the file time; kill fails
     only if no such process is alive; a new process gets an unused identity. */
  ghost predicate Enabled(s: State, e: Event) {
    e.p < |s.procs| &&
    var pc := s.procs[e.p].pc;
    match e
    case Start(p, id) => pc.Gone? && forall q: nat :: Live(s, q) ==> s.procs[q].id != id
    case Open(p, t) => pc.Access? && s.clock < t
    case ReadFile(p) => pc.ReadOwner?
    case CheckOwner(p, alive) =>
      pc.Probe? && ((exists q: nat :: Live(s, q) && s.procs[q].id == pc.owner) ==> alive)
    case StatFile(p) => pc.FirstStat?
    case Poll(p) => pc.Wait?
    case Seize(p, t) => pc.Force? && s.clock < t
    case Touch(p, t) => pc.Hold? && s.clock < t
    case Release(p) => pc.Hold?
    case Leave(p) => !pc.Gone?
  }

  function Goto(s: State, p: nat, pc: Pc): State
    requires p < |s.procs|
  {
    s.(procs := s.procs[p := s.procs[p].(pc := pc)])
  }

  function Write(s: State, owner: Ident, t: int): State { s.(file := Some(LockFile(owner, t)), clock := t) }

  const MAX_RETRY := 4

  function Apply(s: State, e: Event): State
    requires e.p < |s.procs|
  {
    var me := s.procs[e.p];
    match e
    case Start(p, id) => s.(procs := s.procs[p := Proc(id, Access)])
    case Open(p, t) =>
      if s.file.None? then Goto(Write(s, me.id, t), p, Hold) else Goto(s, p, ReadOwner)
    case ReadFile(p) =>
      if s.file.None? then Goto(s, p, Gone) else Goto(s, p, Probe(s.file.value.owner))
    case CheckOwner(p, alive) =>
      if me.pc.Probe? && me.pc.owner.host == me.id.host && !alive then Goto(s, p, Force)
      else Goto(s, p, FirstStat)
    case StatFile(p) =>
      if s.file.None? then Goto(s, p, Gone) else Goto(s, p, Wait(s.file.value.mtime, 0))
    case Poll(p) =>
      if !me.pc.Wait? then s
      else if s.file.None? then Goto(s, p, Access)
      else if s.file.value.mtime == me.pc.lastmodtime then
        if me.pc.retry > MAX_RETRY then Goto(s, p, Force) else Goto(s, p, Wait(me.pc.lastmodtime, me.pc.retry + 1))
      else Goto(s, p, Wait(s.file.value.mtime, 0))
    case Seize(p, t) => Goto(Write(s, me.id, t), p, Hold)
    case Touch(p, t) =>
      if s.file.None? then Goto(s, p, Gone) else Write(s, s.file.value.owner, t)
    case Release(p) => Goto(s.(file := None), p, Gone)
    case Leave(p) => Goto(s, p, Gone)
  }

  // ----- Runs -----

  datatype Run = Run(states: seq<State>, events: seq<Event>)

  /* Nobody is up at first; a lock file may be left over. */
  ghost predicate Init(s: State) {
    (forall p :: 0 <= p < |s.procs| ==> s.procs[p].pc == Gone) &&
    (s.file.Some? ==> s.file.value.mtime <= s.clock)
  }

  ghost predicate IsRun(r: Run) {
    && |r.states| == |r.events| + 1 && Init(r.states[0])
    && forall k {:trigger r.events[k]} :: 0 <= k < |r.events| ==>
         Enabled(r.states[k], r.events[k]) && r.states[k + 1] == Apply(r.states[k], r.events[k])
  }

  /* A process that has decided to take over opens the file, or dies, before anyone
     else does anything. */
  ghost predicate OpensAtOnce(r: Run)
    requires |r.states| == |r.events| + 1
  {
    forall k: nat, p: nat :: k < |r.events| && At(r.states[k], p, Force) ==> r.events[k].p == p
  }

  /* A process that finds the owner dead has just read who that is. */
  ghost predicate ProbesAtOnce(r: Run)
    requires |r.states| == |r.events| + 1
  {
    forall k: nat :: k < |r.events| && r.events[k].CheckOwner? && At(r.states[k + 1], r.events[k].p, Force) ==>
      k > 0 && r.events[k - 1] == ReadFile(r.events[k].p)
  }

  /* From what the decision rests on to opening the file all is one step. */
  ghost predicate Immediate(r: Run)
    requires |r.states| == |r.events| + 1
  {
    OpensAtOnce(r) && ProbesAtOnce(r)
  }

  predicate IsPoll(e: Event, w: nat) { e.Poll? && e.p == w }

  /* How often `w` polls in the events from `i` up to `j`. */
  function Polls(r: Run, w: nat, i: nat, j: nat): nat
    requires i <= j <= |r.events|
    decreases j - i
  {
    if i == j then 0 else Polls(r, w, i, j - 1) + (if IsPoll(r.events[j - 1], w) then 1 else 0)
  }

  /* `n` consecutive polls of `w`, the first at `i` and the last at `j`, during
     which `h` holds the lock. */
  ghost predicate PolledWhileHeld(r: Run, w: nat, h: nat, i: nat, j: nat, n: nat)
    requires |r.states| == |r.events| + 1
  {
    && i <= j < |r.events| && IsPoll(r.events[i], w) && IsPoll(r.events[j], w) && Polls(r, w, i, j + 1) == n
    && forall k :: i <= k <= j ==> Holds(r.states[k], h)
  }

  ghost predicate TouchedBetween(r: Run, h: nat, i: nat, j: nat) {
    exists k :: i < k < j && k < |r.events| && r.events[k].Touch? && r.events[k].p == h
  }

  /* Between the first and the last of any `n` consecutive polls of a waiter, a
     process that holds the lock all the while touches it. */
  ghost predicate Heartbeat(r: Run, n: nat)
    requires |r.states| == |r.events| + 1
  {
    forall w: nat, h: nat, i: nat, j: nat :: PolledWhileHeld(r, w, h, i, j, n) ==> TouchedBetween(r, h, i, j)
  }

  ghost predicate MutuallyExclusive(r: Run) {
    forall k: nat, p: nat, q: nat :: k < |r.states| && Holds(r.states[k], p) && Holds(r.states[k], q) ==> p == q
  }

  // ----- What every step keeps -----

  /* The file names the live holder, live identities differ, and nobody holds the
     lock while another is about to seize it. */
  ghost predicate Inv(s: State) {
    && (forall h: nat :: Holds(s, h) ==> s.file.Some? && s.file.value.owner == s.procs[h].id)
    && (forall p: nat, q: nat :: Live(s, p) && Live(s, q) && s.procs[p].id == s.procs[q].id ==> p == q)
    && (forall p: nat, h: nat :: At(s, p, Force) ==> !Holds(s, h))
    && (s.file.Some? ==> s.file.value.mtime <= s.clock)
  }

  lemma {:induction false} OneHolder(s: State, p: nat, q: nat)
    requires Inv(s) && Holds(s, p) && Holds(s, q)
    ensures p == q
  {
    assert Live(s, p) && Live(s, q);
  }

  lemma {:induction false} OthersStay(s: State, e: Event, q: nat)
    requires e.p < |s.procs| && q != e.p
    ensures var s' := Apply(s, e);
      |s'.procs| == |s.procs| && (q < |s.procs| ==> s'.procs[q] == s.procs[q]) &&
      Holds(s', q) == Holds(s, q) && Live(s', q) == Live(s, q) && At(s', q, Force) == At(s, q, Force)
  {
  }

  /* The file still names the owner that the process has read. */
  ghost predicate StillNamed(s: State, p: nat) {
    p < |s.procs| && s.procs[p].pc.Probe? && s.file.Some? && s.file.value.owner == s.procs[p].pc.owner
  }

  /* Nobody holds when a process has just got, or is just about to get, the lock. */
  lemma {:induction false} NobodyElse(s: State, e: Event, h: nat)
    requires Inv(s) && Enabled(s, e)
    requires e.Poll? && At(Apply(s, e), e.p, Force) ==> !Holds(s, h)
    requires e.CheckOwner? && At(Apply(s, e), e.p, Force) ==> StillNamed(s, e.p)
    requires At(Apply(s, e), e.p, Force) || (At(Apply(s, e), e.p, Hold) && !e.Touch?) || e.Release?
    ensures Holds(s, h) ==> e.Release? && h == e.p
  {
    assert e.Seize? ==> At(s, e.p, Force);
    if Holds(s, h) {
      assert Live(s, h);
      if e.Release? { OneHolder(s, h, e.p); }
    }
  }

  /* A step keeps the invariant if, when a poll decides to take over, nobody holds, and
     when a probe does, the owner is the one read. */
  lemma {:induction false} StepKeepsInv(s: State, e: Event)
    requires Inv(s) && Enabled(s, e)
    requires forall p: nat :: At(s, p, Force) ==> e.p == p
    requires e.Poll? && At(Apply(s, e), e.p, Force) ==> forall h: nat :: !Holds(s, h)
    requires e.CheckOwner? && At(Apply(s, e), e.p, Force) ==> StillNamed(s, e.p)
    ensures Inv(Apply(s, e))
  {
    var s', p := Apply(s, e), e.p;
    forall q: nat | q != p
      ensures q < |s.procs| ==> s'.procs[q] == s.procs[q]
      ensures Holds(s', q) == Holds(s, q) && Live(s', q) == Live(s, q) && At(s', q, Force) == At(s, q, Force)
    {
      OthersStay(s, e, q);
    }
    assert !At(s', p, Force) ==> forall q: nat :: !At(s', q, Force);
    if At(s', p, Force) || (At(s', p, Hold) && !e.Touch?) || e.Release? {
      forall h: nat ensures Holds(s, h) ==> e.Release? && h == p { NobodyElse(s, e, h); }
    }
    forall q: nat | Live(s', q) && q != p && Live(s', p) ensures s'.procs[q].id != s'.procs[p].id {
      assert Live(s, q);
      if !e.Start? { assert Live(s, p); }
    }
  }

  // ----- What happened while a waiter saw the file unchanged -----

  /* From `since` on the waiter waits with the same time and has polled `retry` times. */
  ghost predicate WaitedSince(r: Run, w: nat, since: nat, k: nat, l: int, retry: nat)
    requires IsRun(r) && k < |r.states|
  {
    && since <= k && Polls(r, w, since, k) == retry
    && r.states[since].file.Some? && r.states[since].file.value.mtime == l && l <= r.states[since].clock
  }

  lemma {:induction false} WaitHistory(r: Run, w: nat, k: nat) returns (since: nat)
    requires IsRun(r) && k < |r.states| && w < |r.states[k].procs| && r.states[k].procs[w].pc.Wait?
    requires forall m :: 0 <= m < k ==> Inv(r.states[m])
    ensures WaitedSince(r, w, since, k, r.states[k].procs[w].pc.lastmodtime, r.states[k].procs[w].pc.retry)
    decreases k
  {
    assert k > 0;
    var e, s := r.events[k - 1], r.states[k - 1];
    assert r.states[k] == Apply(s, e) && Enabled(s, e) && Inv(s);
    WaitStep(s, e, w);
    if KeepsWaiting(s, e, w) {
      since := WaitHistory(r, w, k - 1);
    } else {
      since := k;
    }
  }

  /* The waiter goes on waiting for a change of the same file time. */
  predicate KeepsWaiting(s: State, e: Event, w: nat)
    requires w < |s.procs|
  {
    s.procs[w].pc.Wait? && (IsPoll(e, w) ==> s.file.Some? && s.file.value.mtime == s.procs[w].pc.lastmodtime)
  }

  lemma {:induction false} WaitStep(s: State, e: Event, w: nat)
    requires Enabled(s, e) && w < |Apply(s, e).procs| && Apply(s, e).procs[w].pc.Wait?
    requires s.file.Some? ==> s.file.value.mtime <= s.clock
    ensures w < |s.procs|
    ensures var s', pc := Apply(s, e), Apply(s, e).procs[w].pc;
      if KeepsWaiting(s, e, w) then
        pc == Wait(s.procs[w].pc.lastmodtime, s.procs[w].pc.retry + if IsPoll(e, w) then 1 else 0)
      else
        s'.file.Some? && pc == Wait(s'.file.value.mtime, 0) && s'.file.value.mtime <= s'.clock
  {
  }

  /* File times only grow: a file as old as the clock at `i` has not been touched
     since `i`. */
  lemma {:induction false} FileUnchanged(r: Run, i: nat, k: nat)
    requires IsRun(r) && i <= k < |r.states|
    requires r.states[k].file.Some? && r.states[k].file.value.mtime <= r.states[i].clock
    ensures forall m :: i <= m <= k ==> r.states[m].file == r.states[k].file && r.states[m].clock == r.states[i].clock
    decreases k
  {
    if i < k {
      var s, e := r.states[k - 1], r.events[k - 1];
      ClockGrows(r, i, k - 1);
      assert Enabled(s, e) && r.states[k] == Apply(s, e);
      FileUnchanged(r, i, k - 1);
    }
  }

  lemma {:induction false} ClockGrows(r: Run, i: nat, k: nat)
    requires IsRun(r) && i <= k < |r.states|
    ensures r.states[i].clock <= r.states[k].clock
    decreases k
  {
    if i < k {
      ClockGrows(r, i, k - 1);
      assert Enabled(r.states[k - 1], r.events[k - 1]) && r.states[k] == Apply(r.states[k - 1], r.events[k - 1]);
    }
  }

  /* While nothing was written, a holder has been holding all along. */
  lemma {:induction false} HeldThroughout(r: Run, h: nat, i: nat, k: nat)
    requires IsRun(r) && i <= k < |r.states| && Holds(r.states[k], h)
    requires forall m :: i <= m <= k ==> r.states[m].clock == r.states[i].clock
    ensures forall m :: i <= m <= k ==> Holds(r.states[m], h)
    decreases k
  {
    if i < k {
      var s, e := r.states[k - 1], r.events[k - 1];
      assert Enabled(s, e) && r.states[k] == Apply(s, e) && r.states[k].clock == s.clock;
      HeldThroughout(r, h, i, k - 1);
    }
  }

  /* The first of the last `n` polls. */
  lemma {:induction false} NthLastPoll(r: Run, w: nat, since: nat, k: nat, n: nat) returns (i: nat)
    requires |r.states| == |r.events| + 1 && since <= k <= |r.events| && 1 <= n <= Polls(r, w, since, k)
    ensures since <= i < k && IsPoll(r.events[i], w) && Polls(r, w, i, k) == n
    decreases k
  {
    if IsPoll(r.events[k - 1], w) {
      if n == 1 {
        i := k - 1;
        assert Polls(r, w, i, i) == 0;
      } else {
        i := NthLastPoll(r, w, since, k - 1, n - 1);
      }
    } else {
      i := NthLastPoll(r, w, since, k - 1, n);
    }
  }

  /* A holder would have been polled past its heartbeat without touching. */
  lemma {:induction false} UnchangedMeansUnheld(r: Run, n: nat, w: nat, since: nat, k: nat, h: nat)
    requires IsRun(r) && Heartbeat(r, n) && since <= k < |r.events| && 1 <= n <= Polls(r, w, since, k + 1)
    requires IsPoll(r.events[k], w)
    requires r.states[k].file.Some? && r.states[k].file.value.mtime <= r.states[since].clock
    ensures !Holds(r.states[k], h)
  {
    var i := NthLastPoll(r, w, since, k + 1, n);
    FileUnchanged(r, since, k);
    assert !TouchedBetween(r, h, i, k);
    assert !PolledWhileHeld(r, w, h, i, k, n);
    if Holds(r.states[k], h) { HeldThroughout(r, h, since, k); }
  }

  /* When the sixth unchanged poll decides to take over, nobody holds the lock. */
  lemma {:induction false} NobodyHolds(r: Run, n: nat, k: nat, h: nat)
    requires IsRun(r) && Heartbeat(r, n) && 1 <= n <= MAX_RETRY + 2 && k < |r.events|
    requires forall m :: 0 <= m <= k ==> Inv(r.states[m])
    requires r.events[k].Poll? && At(r.states[k + 1], r.events[k].p, Force)
    ensures !Holds(r.states[k], h)
  {
    var w := r.events[k].p;
    assert Enabled(r.states[k], r.events[k]) && r.states[k + 1] == Apply(r.states[k], r.events[k]);
    var since := WaitHistory(r, w, k);
    assert Polls(r, w, since, k + 1) == Polls(r, w, since, k) + 1;
    UnchangedMeansUnheld(r, n, w, since, k, h);
  }

  lemma {:induction false} JustRead(r: Run, k: nat)
    requires IsRun(r) && ProbesAtOnce(r) && k < |r.events|
    requires r.events[k].CheckOwner? && At(r.states[k + 1], r.events[k].p, Force)
    ensures StillNamed(r.states[k], r.events[k].p)
  {
    assert Enabled(r.states[k - 1], r.events[k - 1]) && r.states[k] == Apply(r.states[k - 1], r.events[k - 1]);
    assert Enabled(r.states[k], r.events[k]);
  }

  lemma {:induction false} InvHolds(r: Run, n: nat, k: nat)
    requires IsRun(r) && Immediate(r) && Heartbeat(r, n) && 1 <= n <= MAX_RETRY + 2 && k < |r.states|
    ensures forall m :: 0 <= m <= k ==> Inv(r.states[m])
    decreases k
  {
    if k > 0 {
      InvHolds(r, n, k - 1);
      var s, e := r.states[k - 1], r.events[k - 1];
      assert Enabled(s, e) && r.states[k] == Apply(s, e);
      if e.Poll? && At(r.states[k], e.p, Force) {
        forall h: nat ensures !Holds(s, h) { NobodyHolds(r, n, k - 1, h); }
      }
      if e.CheckOwner? && At(r.states[k], e.p, Force) { JustRead(r, k - 1); }
      StepKeepsInv(s, e);
    }
  }

  /** Safety over all runs: if reading or polling, deciding and opening are one step
      and a holder touches the file within any six consecutive polls of a waiter, then
      in every state of every run at most one live process holds the lock. */
  lemma {:induction false} Safety(r: Run, n: nat)
    requires IsRun(r) && Immediate(r) && Heartbeat(r, n) && 1 <= n <= MAX_RETRY + 2
    ensures MutuallyExclusive(r)
  {
    InvHolds(r, n, |r.states| - 1);
    forall k: nat, p: nat, q: nat | k < |r.states| && Holds(r.states[k], p) && Holds(r.states[k], q) ensures p == q {
      OneHolder(r.states[k], p, q);
    }
  }

  // ----- How sharp the assumptions are -----

  const A := Ident(0, 10)
  const B := Ident(1, 20)

  function Two(file: Option<LockFile>, clock: int, a: Pc, b: Pc): State { State(file, clock, [Proc(A, a), Proc(B, b)]) }

  /* One daemon gets the lock and never touches it; another polls six times. */
  function SlowStates(): seq<State> {
    var f := Some(LockFile(A, 1));
    [Two(None, 0, Gone, Gone), Two(None, 0, Access, Gone), Two(f, 1, Hold, Gone), Two(f, 1, Hold, Access),
     Two(f, 1, Hold, ReadOwner), Two(f, 1, Hold, Probe(A)), Two(f, 1, Hold, FirstStat),
     Two(f, 1, Hold, Wait(1, 0)), Two(f, 1, Hold, Wait(1, 1)), Two(f, 1, Hold, Wait(1, 2)), Two(f, 1, Hold, Wait(1, 3)),
     Two(f, 1, Hold, Wait(1, 4)), Two(f, 1, Hold, Wait(1, 5)), Two(f, 1, Hold, Force),
     Two(Some(LockFile(B, 2)), 2, Hold, Hold)]
  }

  function SlowEvents(): seq<Event> {
    [Start(0, A), Open(0, 1), Start(1, B), Open(1, 2), ReadFile(1), CheckOwner(1, true), StatFile(1),
     Poll(1), Poll(1), Poll(1), Poll(1), Poll(1), Poll(1), Seize(1, 2)]
  }

  lemma {:induction false} SlowIsImmediate()
    ensures Immediate(Run(SlowStates(), SlowEvents()))
  {
    var r := Run(SlowStates(), SlowEvents());
    forall k: nat, p: nat | k < 14 && At(SlowStates()[k], p, Force) ensures k == 13 && p == 1 {}
    forall k: nat | k < 14 && SlowEvents()[k].CheckOwner? ensures k == 5 {}
    assert !At(SlowStates()[6], 1, Force);
  }

  lemma {:induction false} SlowStartStep(k: nat)
    requires k < 7
    ensures Enabled(SlowStates()[k], SlowEvents()[k]) && SlowStates()[k + 1] == Apply(SlowStates()[k], SlowEvents()[k])
  {
  }

  lemma {:induction false} SlowPollStep(k: nat)
    requires 7 <= k < 14
    ensures Enabled(SlowStates()[k], SlowEvents()[k]) && SlowStates()[k + 1] == Apply(SlowStates()[k], SlowEvents()[k])
  {
  }

  lemma {:induction false} PollsBound(r: Run, w: nat, i: nat, j: nat, lo: nat, hi: nat)
    requires i <= j <= |r.events| && lo <= hi
    requires forall k :: 0 <= k < |r.events| && IsPoll(r.events[k], w) ==> lo <= k < hi
    ensures Polls(r, w, i, j) <= hi - lo
    ensures j <= hi ==> Polls(r, w, i, j) <= if j < lo then 0 else j - lo
    decreases j - i
  {
    if i < j { PollsBound(r, w, i, j - 1, lo, hi); }
  }

  /** Six is the exact bound: with the heartbeat promised only within seven or more
      polls, two live processes can hold the lock at once. */
  lemma {:induction false} SixIsSharp(n: nat)
    requires n >= 1
    ensures n <= MAX_RETRY + 2 <==>
      forall r: Run :: IsRun(r) && Immediate(r) && Heartbeat(r, n) ==> MutuallyExclusive(r)
  {
    if n <= MAX_RETRY + 2 {
      forall r: Run | IsRun(r) && Immediate(r) && Heartbeat(r, n) ensures MutuallyExclusive(r) { Safety(r, n); }
    } else {
      var r := Run(SlowStates(), SlowEvents());
      forall k | 0 <= k < 14 ensures Enabled(r.states[k], r.events[k]) && r.states[k + 1] == Apply(r.states[k], r.events[k]) {
        if k < 7 { SlowStartStep(k); } else { SlowPollStep(k); }
      }
      SlowIsImmediate();
      SlowHeartbeat(n);
      SlowBothHold();
    }
  }

  lemma {:induction false} SlowHeartbeat(n: nat)
    requires n > MAX_RETRY + 2
    ensures Heartbeat(Run(SlowStates(), SlowEvents()), n)
  {
    var r := Run(SlowStates(), SlowEvents());
    forall w: nat, h: nat, i: nat, j: nat ensures !PolledWhileHeld(r, w, h, i, j, n) {
      forall k | 0 <= k < |r.events| && IsPoll(r.events[k], w) ensures 7 <= k < 13 {}
      if i <= j < |r.events| { PollsBound(r, w, i, j + 1, 7, 13); }
    }
  }

  lemma {:induction false} SlowBothHold()
    ensures !MutuallyExclusive(Run(SlowStates(), SlowEvents()))
  {
    var r := Run(SlowStates(), SlowEvents());
    assert Holds(r.states[14], 0) && Holds(r.states[14], 1);
  }

  function Three(file: Option<LockFile>, clock: int, a: Pc, b: Pc, c: Pc): State {
    State(file, clock, [Proc(Ident(0, 1), a), Proc(Ident(0, 2), b), Proc(Ident(0, 3), c)])
  }

  const DEAD := Ident(0, 1)

  /* What both races start with: a daemon leaves its lock file behind when it dies, and
     two others find the file there. */
  function LeftOver(): Option<LockFile> { Some(LockFile(DEAD, 1)) }

  function StartStates(): seq<State> {
    var f := LeftOver();
    [Three(None, 0, Gone, Gone, Gone), Three(None, 0, Access, Gone, Gone), Three(f, 1, Hold, Gone, Gone),
     Three(f, 1, Gone, Gone, Gone), Three(f, 1, Gone, Access, Gone), Three(f, 1, Gone, ReadOwner, Gone),
     Three(f, 1, Gone, ReadOwner, Access), Three(f, 1, Gone, ReadOwner, ReadOwner)]
  }

  function StartEvents(): seq<Event> {
    [Start(0, DEAD), Open(0, 1), Leave(0), Start(1, Ident(0, 2)), Open(1, 2), Start(2, Ident(0, 3)), Open(2, 2)]
  }

  /* Both find the owner dead before either opens the file. */
  function RaceStates(): seq<State> {
    var f := LeftOver();
    StartStates() +
    [Three(f, 1, Gone, Probe(DEAD), ReadOwner), Three(f, 1, Gone, Force, ReadOwner),
     Three(f, 1, Gone, Force, Probe(DEAD)), Three(f, 1, Gone, Force, Force),
     Three(Some(LockFile(Ident(0, 2), 2)), 2, Gone, Hold, Force), Three(Some(LockFile(Ident(0, 3), 3)), 3, Gone, Hold, Hold)]
  }

  function RaceEvents(): seq<Event> {
    StartEvents() + [ReadFile(1), CheckOwner(1, false), ReadFile(2), CheckOwner(2, false), Seize(1, 2), Seize(2, 3)]
  }

  /* One reads the owner, the other reads, probes and seizes, and then the first probes. */
  function StaleStates(): seq<State> {
    var f, g := LeftOver(), Some(LockFile(Ident(0, 3), 2));
    StartStates() +
    [Three(f, 1, Gone, Probe(DEAD), ReadOwner), Three(f, 1, Gone, Probe(DEAD), Probe(DEAD)),
     Three(f, 1, Gone, Probe(DEAD), Force), Three(g, 2, Gone, Probe(DEAD), Hold), Three(g, 2, Gone, Force, Hold),
     Three(Some(LockFile(Ident(0, 2), 3)), 3, Gone, Hold, Hold)]
  }

  function StaleEvents(): seq<Event> {
    StartEvents() + [ReadFile(1), ReadFile(2), CheckOwner(2, false), Seize(2, 2), CheckOwner(1, false), Seize(1, 3)]
  }

  lemma {:induction false} StartStep(k: nat)
    requires k < 7
    ensures Enabled(StartStates()[k], StartEvents()[k]) && StartStates()[k + 1] == Apply(StartStates()[k], StartEvents()[k])
  {
  }

  lemma {:induction false} RaceStep(k: nat)
    requires 7 <= k < 13
    ensures Enabled(RaceStates()[k], RaceEvents()[k]) && RaceStates()[k + 1] == Apply(RaceStates()[k], RaceEvents()[k])
  {
  }

  lemma {:induction false} StaleStep(k: nat)
    requires 7 <= k < 13
    ensures Enabled(StaleStates()[k], StaleEvents()[k]) && StaleStates()[k + 1] == Apply(StaleStates()[k], StaleEvents()[k])
  {
  }

  lemma {:induction false} RaceIsRun()
    ensures IsRun(Run(RaceStates(), RaceEvents()))
  {
    var r := Run(RaceStates(), RaceEvents());
    forall k | 0 <= k < |r.events| ensures Enabled(r.states[k], r.events[k]) && r.states[k + 1] == Apply(r.states[k], r.events[k]) {
      if k < 7 { StartStep(k); } else { RaceStep(k); }
    }
  }

  lemma {:induction false} StaleIsRun()
    ensures IsRun(Run(StaleStates(), StaleEvents()))
  {
    var r := Run(StaleStates(), StaleEvents());
    forall k | 0 <= k < |r.events| ensures Enabled(r.states[k], r.events[k]) && r.states[k + 1] == Apply(r.states[k], r.events[k]) {
      if k < 7 { StartStep(k); } else { StaleStep(k); }
    }
  }

  lemma {:induction false} NoPolls(r: Run, n: nat)
    requires |r.states| == |r.events| + 1 && n >= 1 && forall k :: 0 <= k < |r.events| ==> !r.events[k].Poll?
    ensures Heartbeat(r, n)
  {
  }

  /** Without deciding and opening as one step the lock is unsafe, whatever the
      heartbeat: two daemons that both find the owner dead both seize it. */
  lemma {:induction false} RaceWithoutOneStep(n: nat)
    requires n >= 1
    ensures var r := Run(RaceStates(), RaceEvents());
      IsRun(r) && Heartbeat(r, n) && ProbesAtOnce(r) && !OpensAtOnce(r) && !MutuallyExclusive(r)
  {
    var r := Run(RaceStates(), RaceEvents());
    RaceIsRun();
    NoPolls(r, n);
    RaceProbes();
    assert At(r.states[9], 1, Force) && r.events[9].p == 2;
    assert Holds(r.states[13], 1) && Holds(r.states[13], 2);
  }

  lemma {:induction false} RaceProbes()
    ensures |RaceStates()| == |RaceEvents()| + 1 && ProbesAtOnce(Run(RaceStates(), RaceEvents()))
  {
    var es := RaceEvents();
    forall k: nat | k < 13 && es[k].CheckOwner? ensures k == 8 || k == 10 {}
    assert es[7] == ReadFile(1) && es[8].p == 1 && es[9] == ReadFile(2) && es[10].p == 2;
  }

  /** Nor is it enough that deciding and opening are one step: a daemon that probes an
      owner it read earlier finds that one dead although another has the lock by now. */
  lemma {:induction false} RaceAfterRead(n: nat)
    requires n >= 1
    ensures var r := Run(StaleStates(), StaleEvents());
      IsRun(r) && Heartbeat(r, n) && OpensAtOnce(r) && !ProbesAtOnce(r) && !MutuallyExclusive(r)
  {
    var r := Run(StaleStates(), StaleEvents());
    StaleIsRun();
    NoPolls(r, n);
    StaleOpens();
    assert r.events[11] == CheckOwner(1, false) && At(r.states[12], 1, Force) && r.events[10] == Seize(2, 2);
    assert Holds(r.states[13], 1) && Holds(r.states[13], 2);
  }

  lemma {:induction false} StaleOpens()
    ensures |StaleStates()| == |StaleEvents()| + 1 && OpensAtOnce(Run(StaleStates(), StaleEvents()))
  {
    var st, es := StaleStates(), StaleEvents();
    forall k: nat, p: nat | k < 13 && At(st[k], p, Force) ensures (k == 10 && p == 2) || (k == 12 && p == 1) {}
    assert es[10].p == 2 && es[12].p == 1;
  }

  // ----- Progress -----

  /* From its first stat at `i` up to `k` the file is unchanged, and the waiter does
     nothing but poll; the others may do anything else. */
  ghost predicate WaitsUnchanged(r: Run, w: nat, i: nat, k: nat)
    requires IsRun(r)
  {
    && i < k < |r.states| && r.events[i] == StatFile(w) && r.states[i].file.Some?
    && (forall m :: i <= m < k ==> r.states[m].file == r.states[i].file)
    && (forall m :: i < m < k && r.events[m].p == w ==> r.events[m].Poll?)
  }

  /* What `n` unchanged polls since the first stat have led to: the sixth decides. */
  function WaitedPc(mtime: int, n: nat): Pc { if n == MAX_RETRY + 2 then Force else Wait(mtime, n) }

  lemma {:induction false} OwnPoll(s: State, w: nat, n: nat)
    requires Enabled(s, Poll(w)) && s.file.Some? && n <= MAX_RETRY + 2
    requires s.procs[w].pc == WaitedPc(s.file.value.mtime, n)
    ensures n + 1 <= MAX_RETRY + 2 && Apply(s, Poll(w)).procs[w].pc == WaitedPc(s.file.value.mtime, n + 1)
  {
  }

  lemma {:induction false} FirstStatWaits(s: State, w: nat)
    requires Enabled(s, StatFile(w)) && s.file.Some?
    ensures w < |Apply(s, StatFile(w)).procs| && Apply(s, StatFile(w)).procs[w].pc == WaitedPc(s.file.value.mtime, 0)
  {
  }

  lemma {:induction false} WaiterStep(s: State, e: Event, w: nat, n: nat)
    requires Enabled(s, e) && w < |s.procs| && s.file.Some? && n <= MAX_RETRY + 2
    requires s.procs[w].pc == WaitedPc(s.file.value.mtime, n) && (e.p == w ==> e.Poll?)
    ensures w < |Apply(s, e).procs|
    ensures var m := n + if IsPoll(e, w) then 1 else 0;
      m <= MAX_RETRY + 2 && Apply(s, e).procs[w].pc == WaitedPc(s.file.value.mtime, m)
  {
    if e.p == w { OwnPoll(s, w, n); } else { OthersStay(s, e, w); }
  }

  lemma {:induction false} UnchangedStep(r: Run, w: nat, i: nat, k: nat)
    requires IsRun(r) && WaitsUnchanged(r, w, i, k)
    ensures var s, e := r.states[k - 1], r.events[k - 1];
      Enabled(s, e) && r.states[k] == Apply(s, e) && s.file == r.states[i].file &&
      (k > i + 1 ==> WaitsUnchanged(r, w, i, k - 1) && (e.p == w ==> e.Poll?))
  {
  }

  /** A waiter that sees an unchanged file polls at most six times, whatever the other
      processes do meanwhile, and decides to take over at exactly the sixth poll. */
  lemma {:induction false} TakeoverAfterSix(r: Run, w: nat, i: nat, k: nat)
    requires IsRun(r) && WaitsUnchanged(r, w, i, k)
    ensures w < |r.states[k].procs| && Polls(r, w, i + 1, k) <= MAX_RETRY + 2
    ensures r.states[k].procs[w].pc == WaitedPc(r.states[i].file.value.mtime, Polls(r, w, i + 1, k))
    decreases k
  {
    UnchangedStep(r, w, i, k);
    var s := r.states[k - 1];
    if k == i + 1 {
      FirstStatWaits(s, w);
    } else {
      TakeoverAfterSix(r, w, i, k - 1);
      WaiterStep(s, r.events[k - 1], w, Polls(r, w, i + 1, k - 1));
    }
  }

  // ----- Handing over -----

  /* Nobody opens the file for writing in the events from `i` up to `k`. */
  ghost predicate Unopened(r: Run, i: nat, k: nat)
    requires k <= |r.events|
  {
    forall m :: i <= m < k ==> !r.events[m].Open? && !r.events[m].Seize?
  }

  /* The process `p` does nothing in the events from `i` up to `k`. */
  ghost predicate Idle(r: Run, p: nat, i: nat, k: nat)
    requires k <= |r.events|
  {
    forall m :: i <= m < k ==> r.events[m].p != p
  }

  lemma {:induction false} StaysGone(r: Run, i: nat, k: nat)
    requires IsRun(r) && i <= k < |r.states| && r.states[i].file.None? && Unopened(r, i, k)
    ensures r.states[k].file.None?
    decreases k
  {
    if i < k {
      StaysGone(r, i, k - 1);
      assert Enabled(r.states[k - 1], r.events[k - 1]) && r.states[k] == Apply(r.states[k - 1], r.events[k - 1]);
    }
  }

  lemma {:induction false} StaysPut(r: Run, p: nat, i: nat, k: nat)
    requires IsRun(r) && i <= k < |r.states| && p < |r.states[i].procs| && Idle(r, p, i, k)
    ensures p < |r.states[k].procs| && r.states[k].procs[p] == r.states[i].procs[p]
    decreases k
  {
    if i < k {
      StaysPut(r, p, i, k - 1);
      assert Enabled(r.states[k - 1], r.events[k - 1]) && r.states[k] == Apply(r.states[k - 1], r.events[k - 1]);
      OthersStay(r.states[k - 1], r.events[k - 1], p);
    }
  }

  /** After a release the lock is free: the file stays away until someone opens it, the
      first process to open it then holds the lock, with its name in the file, and a waiter
      that polls before goes back to opening. */
  lemma {:induction false} AfterRelease(r: Run, i: nat, k: nat)
    requires IsRun(r) && i < k < |r.events| && r.events[i].Release? && Unopened(r, i + 1, k)
    ensures r.states[k].file.None? && !At(r.states[i + 1], r.events[i].p, Hold)
    ensures var e, after := r.events[k], r.states[k + 1];
      (e.Open? ==> Holds(after, e.p) && after.file == Some(LockFile(after.procs[e.p].id, e.t))) &&
      (e.Poll? ==> At(after, e.p, Access))
  {
    assert Enabled(r.states[i], r.events[i]) && r.states[i + 1] == Apply(r.states[i], r.events[i]);
    StaysGone(r, i + 1, k);
    assert Enabled(r.states[k], r.events[k]) && r.states[k + 1] == Apply(r.states[k], r.events[k]);
  }

  /** So a waiter that polls at `j` and opens at `k`, before anyone else opens, gets the
      lock that was released at `i`, without the six polls of a takeover. */
  lemma {:induction false} Handover(r: Run, w: nat, i: nat, j: nat, k: nat, t: int)
    requires IsRun(r) && i < j < k < |r.events| && r.events[i].Release? && Unopened(r, i + 1, k)
    requires r.events[j] == Poll(w) && Idle(r, w, j + 1, k) && r.events[k] == Open(w, t)
    ensures At(r.states[j + 1], w, Access) && At(r.states[k], w, Access) && Holds(r.states[k + 1], w)
  {
    AfterRelease(r, i, j);
    AfterRelease(r, i, k);
    StaysPut(r, w, j + 1, k);
  }

  // ----- Taking over -----

  /* Polls of `w` in a row that all saw the same file time. */
  ghost predicate SawUnchanged(r: Run, w: nat, since: nat, k: nat, n: nat)
    requires IsRun(r) && k < |r.states|
  {
    since <= k && Polls(r, w, since, k) == n &&
    r.states[since].file.Some? && r.states[k].file.Some? && r.states[since].file.value.mtime == r.states[k].file.value.mtime
  }

  ghost predicate FoundDead(s: State, p: nat) {
    p < |s.procs| && s.procs[p].pc.Probe? && s.procs[p].pc.owner.host == s.procs[p].id.host &&
    forall q: nat :: Live(s, q) ==> s.procs[q].id != s.procs[p].pc.owner
  }

  /** A process decides to take over for two reasons only: the owner it read was a process
      of its own host that is not alive, or it has polled an unchanged file six times. */
  lemma {:induction false} ReasonsToTakeOver(r: Run, k: nat) returns (since: nat)
    requires IsRun(r) && k < |r.events| && forall m :: 0 <= m <= k ==> Inv(r.states[m])
    requires var w := r.events[k].p; !At(r.states[k], w, Force) && At(r.states[k + 1], w, Force)
    ensures var w := r.events[k].p;
      if r.events[k].CheckOwner? then FoundDead(r.states[k], w)
      else SawUnchanged(r, w, since, k + 1, MAX_RETRY + 2)
  {
    var w, s, e := r.events[k].p, r.states[k], r.events[k];
    since := 0;
    assert Enabled(s, e) && r.states[k + 1] == Apply(s, e);
    if e.Poll? {
      since := WaitHistory(r, w, k);
      RetryBound(r, w, k);
      assert Polls(r, w, since, k + 1) == Polls(r, w, since, k) + 1;
    }
  }

  lemma {:induction false} RetryBound(r: Run, w: nat, k: nat)
    requires IsRun(r) && k < |r.states| && w < |r.states[k].procs| && r.states[k].procs[w].pc.Wait?
    ensures r.states[k].procs[w].pc.retry <= MAX_RETRY + 1
    decreases k
  {
    assert k > 0;
    var s, e := r.states[k - 1], r.events[k - 1];
    assert Enabled(s, e) && r.states[k] == Apply(s, e);
    if s.procs[w].pc.Wait? { RetryBound(r, w, k - 1); }
  }

  /** A daemon that finds the file gone where it must read it gives up; so a holder whose file
      was removed no longer holds after its next touch. */
  lemma {:induction false} FileLost(s: State, e: Event)
    requires Enabled(s, e) && s.file.None? && (e.ReadFile? || e.StatFile? || e.Touch?)
    ensures At(Apply(s, e), e.p, Gone) && Apply(s, e).file.None?
  {
  }

  /** A process of the same host takes a dead owner's lock over at once: it probes, seizes
      and holds, without waiting. */
  lemma {:induction false} LocalTakeover(s: State, p: nat, t: int)
    requires FoundDead(s, p) && s.clock < t
    ensures var probed := Apply(s, CheckOwner(p, false));
      Enabled(s, CheckOwner(p, false)) && Enabled(probed, Seize(p, t)) && Holds(Apply(probed, Seize(p, t)), p)
  {
  }

  /** A process of another host never finds an owner dead; it always goes on to wait. */
  lemma {:induction false} RemoteWaits(s: State, p: nat, alive: bool)
    requires Enabled(s, CheckOwner(p, alive)) && s.procs[p].pc.owner.host != s.procs[p].id.host
    ensures At(Apply(s, CheckOwner(p, alive)), p, FirstStat)
  {
  }
}
