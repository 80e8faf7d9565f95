/**
 What the leaves of a condition answer over the life of a job and of a job array
 (lsbatch/daemons/mbd.dep.c, evalJobDep, opExpr, getCounterOfDep and the leaf cases
 of evalDepCond), as a table of phases and as counts of jobs.
 */
module DepLife {
  import opened Common
  import opened DepTerms
  import opened DepCond
  import JobIds

  // ----- One job -----

  /* Where a job is in its life, as a dependent job that last ended at `since` sees it. */
  datatype Phase =
    | NeverRan
    | InPreExec
    | Running
    | DoneWaitingPost
    | DonePostDone
    | DonePostFailed
    | Exited(code: int)
    | RequeuedAfterSuccess
    | RequeuedAfterExit(code: int)
    | EndedBefore(finished: bool)

  predicate NotFinished(j: JobState) { !j.done && !j.exited && !j.postDone && !j.postErr && !j.void }

  /* The job has ended, and after `since`. */
  predicate EndedSince(j: JobState, since: Option<int>) { since == None || since.value < j.endTime }

  predicate InPhase(j: JobState, p: Phase, since: Option<int>) {
    match p
    case NeverRan =>
      (j.pend || j.psusp) && NotFinished(j) && j.startTime == 0 && j.endTime == 0 && since.Some? && since.value >= 0
    case InPreExec => !j.pend && !j.psusp && NotFinished(j) && j.startTime > 0 && j.preExec
    case Running =>
      !j.pend && !j.psusp && NotFinished(j) && j.startTime > 0 && !j.preExec && (since == None || since.value < j.startTime)
    case DoneWaitingPost =>
      !j.pend && !j.psusp && j.done && !j.exited && !j.postDone && !j.postErr && !j.void && EndedSince(j, since)
    case DonePostDone =>
      !j.pend && !j.psusp && j.done && !j.exited && j.postDone && !j.postErr && !j.void && EndedSince(j, since)
    case DonePostFailed =>
      !j.pend && !j.psusp && j.done && !j.exited && !j.postDone && j.postErr && !j.void && EndedSince(j, since)
    case Exited(c) =>
      !j.pend && !j.psusp && j.exited && !j.done && !j.postDone && !j.postErr && !j.void && EndedSince(j, since) &&
      256 * c <= j.exitStatus < 256 * c + 256
    case RequeuedAfterSuccess => (j.pend || j.psusp) && NotFinished(j) && j.lastRunSucc && EndedSince(j, since)
    case RequeuedAfterExit(c) =>
      (j.pend || j.psusp) && NotFinished(j) && !j.lastRunSucc && EndedSince(j, since) &&
      256 * c <= j.exitStatus < 256 * c + 256
    case EndedBefore(finished) =>
      since.Some? && j.endTime <= since.value && j.startTime <= since.value && !j.void &&
      if finished then (j.exited && !j.done) || (j.done && (j.postDone || j.postErr)) else NotFinished(j)
  }

  /* Whether a difference satisfies a comparison with 0. */
  predicate Compares(cmp: Cmp, difference: int) {
    (cmp == Always) ||
    (difference < 0 && cmp in {LT, LE, NE}) || (difference == 0 && cmp in {LE, GE, EQ}) || (difference > 0 && cmp in {GT, GE, NE})
  }

  /* Whether a job in the phase satisfies the event, and if not whether it never will. */
  function Answer(ev: JobEvent, p: Phase): int {
    match p
    case NeverRan => DP_FALSE
    case InPreExec => DP_FALSE
    case Running => if ev == Started then DP_TRUE else DP_FALSE
    case DoneWaitingPost =>
      if ev == Done || ev == Ended then DP_TRUE else if ev == PostDone || ev == PostErr then DP_FALSE else DP_INVALID
    case DonePostDone => if ev == Done || ev == Ended || ev == PostDone then DP_TRUE else DP_INVALID
    case DonePostFailed => if ev == Done || ev == Ended || ev == PostErr then DP_TRUE else DP_INVALID
    case Exited(c) =>
      if ev == Ended || (ev.Exit? && Compares(ev.cmp, c - ev.code)) then DP_TRUE else DP_INVALID
    case RequeuedAfterSuccess => if ev == Done || ev == Ended then DP_TRUE else DP_FALSE
    case RequeuedAfterExit(c) =>
      if ev == Ended || (ev.Exit? && Compares(ev.cmp, c - ev.code)) then DP_TRUE else DP_FALSE
    case EndedBefore(finished) => if finished then DP_INVALID else DP_FALSE
  }

  lemma {:induction false} ComparesIsOpExpr(cmp: Cmp, x: int, y: int)
    ensures OpExpr(cmp, x, y) <==> Compares(cmp, x - y)
  {
  }

  lemma {:induction false} ExitCodeOf(status: int, c: int)
    requires 256 * c <= status < 256 * c + 256
    ensures status / 256 == c
  {
  }

  /* Whether the job was started since, for the events that do not ask it. */
  predicate StartedSince(j: JobState, since: Option<int>) {
    j.startTime > 0 && !j.preExec && (since == None || since.value < j.startTime)
  }

  /** Every event but started answers as the table says, whatever else the record holds;
      so does started before the job has ended, and in any later phase it is TRUE exactly
      if the job was started after the dependent job last ended. */
  lemma {:induction false} LifeOfAJob(ev: JobEvent, id: JobId, p: Phase, env: Env)
    requires InPhase(env.job(id), p, env.dependentEnd)
    ensures ev != Started || p in {NeverRan, InPreExec, Running} || p.EndedBefore? ==>
      Eval(On(ev, id), env).value == Answer(ev, p)
    ensures env.job(id).startTime >= 0 ==>
      (Eval(On(Started, id), env).value == DP_TRUE <==> StartedSince(env.job(id), env.dependentEnd))
  {
    var j := env.job(id);
    OnOneJob(ev, id, env);
    OnOneJob(Started, id, env);
    if ev.Exit? { ComparesIsOpExpr(ev.cmp, j.exitStatus / 256, ev.code); }
    if p.Exited? || p.RequeuedAfterExit? { ExitCodeOf(j.exitStatus, p.code); }
  }

  /** A void job satisfies an event or never will. */
  lemma {:induction false} VoidJob(ev: JobEvent, id: JobId, env: Env)
    requires env.job(id).void
    ensures Eval(On(ev, id), env).value != DP_FALSE
  {
    OnOneJob(ev, id, env);
  }

  /** A name that matched no job can never be satisfied. */
  lemma {:induction false} NoSuchJob(ev: JobEvent, idx: Option<JobIdx>, env: Env)
    ensures Eval(NewLeaf(JobTerm(ev, NoJob, idx)), env).value == DP_INVALID
  {
  }

  // ----- A job array by its counters -----

  datatype Member = MPend | MHeld | MRun | MSuspended | MExit | MDone

  function CountOf(ms: seq<Member>, m: Member): nat
    decreases |ms|
  {
    if ms == [] then 0 else (if ms[0] == m then 1 else 0) + CountOf(ms[1..], m)
  }

  /* The counters of an array with these members. */
  function Tally(ms: seq<Member>): GroupState {
    GroupState(false, |ms|, CountOf(ms, MPend), CountOf(ms, MHeld), CountOf(ms, MRun), CountOf(ms, MExit), CountOf(ms, MDone))
  }

  /* Whether a counter is about members in this state. */
  predicate IsAbout(c: Counter, m: Member) {
    match c
    case NumPend => m == MPend
    case NumHold => m == MHeld
    case NumRun => m == MRun
    case NumExit => m == MExit
    case NumDone => m == MDone
    case NumStart => m != MPend && m != MHeld
    case NumEnded => m == MExit || m == MDone
  }

  function Counted(ms: seq<Member>, c: Counter): nat
    decreases |ms|
  {
    if ms == [] then 0 else (if IsAbout(c, ms[0]) then 1 else 0) + Counted(ms[1..], c)
  }

  lemma {:induction false} CounterCounts(c: Counter, ms: seq<Member>)
    ensures CounterOf(c, Tally(ms)) == Counted(ms, c)
    decreases |ms|
  {
    if ms != [] { CounterCounts(c, ms[1..]); }
  }

  /** A counter leaf compares the number of members in question with its bound, or with
      the size of the array for "*"; without the array, or with a void one, it is INVALID. */
  lemma {:induction false} CountLeaf(c: Counter, cmp: Cmp, bound: Option<int>, g: nat, ms: seq<Member>, env: Env, stored: int)
    requires env.group(g) == Tally(ms)
    ensures var n := if bound.Some? then bound.value else if ms == [] then INFINIT_INT else |ms|;
      TermVerdict(CountTerm(c, cmp, bound, Some(g)), env, stored) ==
      if Compares(cmp, Counted(ms, c) - n) then DP_TRUE else DP_FALSE
    ensures TermVerdict(CountTerm(c, cmp, bound, None), env, stored) == DP_INVALID
  {
    CounterCounts(c, ms);
    var n := if bound.Some? then bound.value else if ms == [] then INFINIT_INT else |ms|;
    ComparesIsOpExpr(cmp, CounterOf(c, Tally(ms)), n);
  }

  lemma {:induction false} VoidArray(c: Counter, cmp: Cmp, bound: Option<int>, g: nat, env: Env, stored: int)
    requires env.group(g).void
    ensures TermVerdict(CountTerm(c, cmp, bound, Some(g)), env, stored) == DP_INVALID
    ensures TermAfter(CountTerm(c, cmp, bound, Some(g)), env) == CountTerm(c, cmp, bound, None)
  {
  }

  // ----- Index lists -----

  function AsRange(r: IdxRange): JobIds.Range { JobIds.Range(r.start, r.end, r.step) }

  function AsRanges(rs: seq<IdxRange>): seq<JobIds.Range> { seq(|rs|, i requires 0 <= i < |rs| => AsRange(rs[i])) }

  /** The daemon's test whether an element is in an index list agrees with the commands'
      expansion of the same list: the element is in it exactly if its packed id is among
      the expanded ones. */
  lemma {:induction false} InIdxListIsExpanded(id: JobId, rs: seq<IdxRange>)
    requires 0 <= id.job <= JobIds.INT_MAX && 0 <= id.index <= JobIds.MAX_ARRAY_IDX
    requires rs != [] && JobIds.ValidList(AsRanges(rs))
    ensures InIdxList(id, rs) <==> JobIds.Pack(id.job, id.index) in JobIds.ListIds(id.job, AsRanges(rs))
  {
    var x := JobIds.Pack(id.job, id.index);
    JobIds.ListExact(id.job, AsRanges(rs), x);
    forall k | 0 <= k < |rs|
      ensures JobIds.InRange(id.job, AsRanges(rs)[k], x) <==>
        rs[k].start <= id.index <= rs[k].end && (id.index - rs[k].start) % rs[k].step == 0
    {
      assert AsRanges(rs)[k] == AsRange(rs[k]);
      OneRange(id, AsRange(rs[k]));
    }
  }

  lemma {:induction false} OneRange(id: JobId, r: JobIds.Range)
    requires 0 <= id.job <= JobIds.INT_MAX && 0 <= id.index <= JobIds.MAX_ARRAY_IDX && JobIds.ValidRange(r)
    ensures JobIds.InRange(id.job, r, JobIds.Pack(id.job, id.index)) <==>
      r.start <= id.index <= r.end && (id.index - r.start) % r.step == 0
  {
    var x := JobIds.Pack(id.job, id.index);
    if JobIds.InRange(id.job, r, x) {
      var j :| r.start <= j <= r.end && JobIds.OnStep(j - r.start, r.step) && x == JobIds.Pack(id.job, j);
      JobIds.PackInjective(id.job, id.index, id.job, j);
    }
    if r.start <= id.index <= r.end && (id.index - r.start) % r.step == 0 {
      assert JobIds.OnStep(id.index - r.start, r.step);
    }
  }
}
