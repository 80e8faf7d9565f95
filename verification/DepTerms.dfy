/**
 The leaves of a job-dependency condition and the verdict each one gets
 (lsbatch/daemons/mbd.dep.c, evalJobDep, opExpr, getCounterOfDep and the leaf
 cases of evalDepCond).

 A leaf asks about one job, about the elements of a job array, about a time
 window or about a counter of a job array.  The state of the daemon at the
 moment of evaluation is the value `Env`.
 */
module DepTerms {
  import opened Common

  /* The four codes of lsbatch/daemons/mbd.h. */
  const DP_TRUE := 1
  const DP_FALSE := 0
  const DP_INVALID := -1
  const DP_REJECT := -2

  datatype JobId = JobId(job: int, index: int)

  /* The bits of jStatus and jFlags, and the times, that a leaf reads. */
  datatype JobState = JobState(
    pend: bool, psusp: bool, done: bool, exited: bool,
    postDone: bool, postErr: bool, void: bool, preExec: bool,
    lastRunSucc: bool, exitStatus: int, startTime: int, endTime: int)
  {
    predicate IsPend() { pend || psusp }
    predicate IsFinish() { done || exited }
    predicate IsPostFinish() { postDone || postErr }
  }

  datatype Cmp = GT | GE | LT | LE | EQ | NE | Always

  datatype JobEvent = Done | PostDone | PostErr | Exit(cmp: Cmp, code: int) | Ended | Started

  datatype IdxRangeRaw = IdxRange(start: int, end: int, step: int)
  type IdxRange = r: IdxRangeRaw | r.step > 0 witness IdxRange(1, 1, 1)

  /* A shared index list; `ref` is its identity. */
  datatype JobIdx = JobIdx(ref: nat, ranges: seq<IdxRange>, depJobs: seq<JobId>)

  datatype Target = NoJob | Job(id: JobId) | Array(id: JobId)

  datatype Counter = NumPend | NumHold | NumRun | NumExit | NumDone | NumStart | NumEnded

  /* `bound` is None for "*", which stands for the size of the array. */
  datatype Term =
    | JobTerm(event: JobEvent, target: Target, idx: Option<JobIdx>)
    | WindowTerm(window: nat)
    | CountTerm(counter: Counter, cmp: Cmp, bound: Option<int>, group: Option<nat>)

  datatype GroupState = GroupState(void: bool, njobs: int, pend: int, psusp: int, run: int, exited: int, done: int)

  /* What evaluation reads: job records, the nextJob chain of each array, the
     time windows, the job arrays, and the end time of the dependent job. */
  datatype Env = Env(
    job: JobId -> JobState,
    chain: JobId -> seq<JobId>,
    windowOpen: nat -> bool,
    group: nat -> GroupState,
    dependentEnd: Option<int>)

  const INFINIT_INT := 0x7fff_ffff

  predicate OpExpr(op: Cmp, x: int, y: int) {
    match op
    case LT => x < y
    case LE => x <= y
    case GT => x > y
    case GE => x >= y
    case EQ => x == y
    case NE => x != y
    case Always => true
  }

  function CounterOf(c: Counter, g: GroupState): int {
    match c
    case NumPend => g.pend
    case NumRun => g.run
    case NumHold => g.psusp
    case NumExit => g.exited
    case NumDone => g.done
    case NumStart => g.njobs - g.pend - g.psusp
    case NumEnded => g.exited + g.done
  }

  /* The dependent job has not run since this one ended. */
  predicate EndedAfter(j: JobState, dependentEnd: Option<int>) {
    dependentEnd.None? || dependentEnd.value < j.endTime
  }

  predicate EvalJobDep(ev: JobEvent, j: JobState, dependentEnd: Option<int>) {
    match ev
    case Done =>
      EndedAfter(j, dependentEnd) && (j.done || (j.IsPend() && j.lastRunSucc))
    case PostDone =>
      EndedAfter(j, dependentEnd) && j.postDone && j.done
    case PostErr =>
      EndedAfter(j, dependentEnd) && j.postErr && j.done
    case Exit(cmp, code) =>
      && EndedAfter(j, dependentEnd)
      && OpExpr(cmp, j.exitStatus / 256, code)
      && (j.IsFinish() || (j.IsPend() && !j.lastRunSucc))
      && !j.done
    case Ended =>
      EndedAfter(j, dependentEnd) && (j.IsFinish() || j.IsPend())
    case Started =>
      && j.startTime != 0
      && (dependentEnd.None? || dependentEnd.value < j.startTime)
      && !j.preExec
  }

  /* The verdict of one job record. */
  function JobVerdict(ev: JobEvent, j: JobState, dependentEnd: Option<int>): int {
    if EvalJobDep(ev, j, dependentEnd) then DP_TRUE
    else if j.void || (j.IsFinish() && !(!j.IsPostFinish() && j.done && (ev.PostDone? || ev.PostErr?))) then DP_INVALID
    else DP_FALSE
  }

  predicate InIdxList(id: JobId, ranges: seq<IdxRange>) {
    ranges == [] ||
    exists k :: 0 <= k < |ranges| &&
      ranges[k].start <= id.index <= ranges[k].end &&
      (id.index - ranges[k].start) % ranges[k].step == 0
  }

  predicate InRange(id: JobId, idx: Option<JobIdx>) {
    idx.None? || InIdxList(id, idx.value.ranges)
  }

  /* The job records a job leaf walks over, in order. */
  function Elements(target: Target, idx: Option<JobIdx>, env: Env): seq<JobId> {
    match target
    case NoJob => []
    case Job(id) => [id]
    case Array(id) =>
      if idx.Some? && idx.value.depJobs != [] then idx.value.depJobs else env.chain(id)
  }

  /* The walk: the first in-range element that does not answer DP_TRUE decides;
     with nothing in range the stored value stays. */
  function Walk(ev: JobEvent, idx: Option<JobIdx>, ids: seq<JobId>, env: Env, stored: int): int {
    if ids == [] then stored
    else if !InRange(ids[0], idx) then Walk(ev, idx, ids[1..], env, stored)
    else
      var v := JobVerdict(ev, env.job(ids[0]), env.dependentEnd);
      if v == DP_TRUE then Walk(ev, idx, ids[1..], env, DP_TRUE) else v
  }

  /* What evaluation leaves in a leaf whose stored value is `stored`. */
  function TermVerdict(t: Term, env: Env, stored: int): int {
    match t
    case JobTerm(ev, target, idx) =>
      if target.NoJob? then DP_INVALID
      else Walk(ev, idx, Elements(target, idx, env), env, stored)
    case WindowTerm(w) =>
      if env.windowOpen(w) then DP_TRUE else DP_FALSE
    case CountTerm(c, cmp, bound, group) =>
      if group.None? then DP_INVALID
      else
        var g := env.group(group.value);
        if g.void then DP_INVALID
        else
          var num := if bound.Some? then bound.value else if g.njobs <= 0 then INFINIT_INT else g.njobs;
          if OpExpr(cmp, CounterOf(c, g), num) then DP_TRUE else DP_FALSE
  }

  /* A leaf on a void array forgets the array. */
  function TermAfter(t: Term, env: Env): Term {
    match t
    case CountTerm(_, _, _, Some(g)) => if env.group(g).void then t.(group := None) else t
    case _ => t
  }

  predicate IsTri(v: int) { v == DP_TRUE || v == DP_FALSE || v == DP_INVALID }

  lemma {:induction false} WalkIsTri(ev: JobEvent, idx: Option<JobIdx>, ids: seq<JobId>, env: Env, stored: int)
    requires IsTri(stored)
    ensures IsTri(Walk(ev, idx, ids, env, stored))
  {
    if ids != [] {
      WalkIsTri(ev, idx, ids[1..], env, stored);
      WalkIsTri(ev, idx, ids[1..], env, DP_TRUE);
    }
  }

  lemma {:induction false} TermVerdictIsTri(t: Term, env: Env, stored: int)
    requires IsTri(stored)
    ensures IsTri(TermVerdict(t, env, stored))
  {
    if t.JobTerm? && !t.target.NoJob? {
      WalkIsTri(t.event, t.idx, Elements(t.target, t.idx, env), env, stored);
    }
  }

  ghost predicate Failing(ev: JobEvent, idx: Option<JobIdx>, id: JobId, env: Env) {
    InRange(id, idx) && !EvalJobDep(ev, env.job(id), env.dependentEnd)
  }

  /* With no element in range the stored value stays. */
  lemma {:induction false} WalkOutOfRange(ev: JobEvent, idx: Option<JobIdx>, ids: seq<JobId>, env: Env, stored: int)
    requires forall k :: 0 <= k < |ids| ==> !InRange(ids[k], idx)
    ensures Walk(ev, idx, ids, env, stored) == stored
  {
    if ids != [] { WalkOutOfRange(ev, idx, ids[1..], env, stored); }
  }

  /* The verdict of the first in-range element that fails. */
  lemma {:induction false} WalkFirstFailing(ev: JobEvent, idx: Option<JobIdx>, ids: seq<JobId>, env: Env, stored: int, k: nat)
    requires k < |ids| && Failing(ev, idx, ids[k], env)
    requires forall m :: 0 <= m < k ==> !Failing(ev, idx, ids[m], env)
    ensures Walk(ev, idx, ids, env, stored) == JobVerdict(ev, env.job(ids[k]), env.dependentEnd)
    decreases k
  {
    if k > 0 {
      assert !Failing(ev, idx, ids[0], env);
      WalkFirstFailing(ev, idx, ids[1..], env, if InRange(ids[0], idx) then DP_TRUE else stored, k - 1);
    }
  }

  lemma {:induction false} WalkAllPass(ev: JobEvent, idx: Option<JobIdx>, ids: seq<JobId>, env: Env, stored: int)
    requires forall k :: 0 <= k < |ids| ==> !Failing(ev, idx, ids[k], env)
    requires stored == DP_TRUE || exists k :: 0 <= k < |ids| && InRange(ids[k], idx)
    ensures Walk(ev, idx, ids, env, stored) == DP_TRUE
  {
    if ids != [] {
      assert !Failing(ev, idx, ids[0], env);
      var rest := ids[1..];
      var next := if InRange(ids[0], idx) then DP_TRUE else stored;
      if next != DP_TRUE {
        var k :| 0 <= k < |ids| && InRange(ids[k], idx);
        assert ids[k] == rest[k - 1];
      }
      WalkAllPass(ev, idx, rest, env, next);
    }
  }

  /** Dependency on an array with some element in range: true exactly when every
      in-range element satisfies it, and otherwise the verdict, INVALID or FALSE,
      of the first one in list order that does not. */
  lemma {:induction false} WalkCharacterised(ev: JobEvent, idx: Option<JobIdx>, ids: seq<JobId>, env: Env, stored: int)
    requires exists k :: 0 <= k < |ids| && InRange(ids[k], idx)
    ensures Walk(ev, idx, ids, env, stored) == DP_TRUE <==> forall k :: 0 <= k < |ids| ==> !Failing(ev, idx, ids[k], env)
    ensures Walk(ev, idx, ids, env, stored) != DP_TRUE ==>
      exists k :: 0 <= k < |ids| && FirstFailing(ev, idx, ids, env, k) &&
        Walk(ev, idx, ids, env, stored) == JobVerdict(ev, env.job(ids[k]), env.dependentEnd)
  {
    if forall k :: 0 <= k < |ids| ==> !Failing(ev, idx, ids[k], env) {
      WalkAllPass(ev, idx, ids, env, stored);
    } else {
      var k := 0;
      while !Failing(ev, idx, ids[k], env)
        invariant 0 <= k < |ids|
        invariant forall m :: 0 <= m < k ==> !Failing(ev, idx, ids[m], env)
        invariant exists m :: k <= m < |ids| && Failing(ev, idx, ids[m], env)
        decreases |ids| - k
      {
        k := k + 1;
      }
      WalkFirstFailing(ev, idx, ids, env, stored, k);
      assert FirstFailing(ev, idx, ids, env, k);
    }
  }

  ghost predicate FirstFailing(ev: JobEvent, idx: Option<JobIdx>, ids: seq<JobId>, env: Env, k: nat) {
    k < |ids| && Failing(ev, idx, ids[k], env) && forall m :: 0 <= m < k ==> !Failing(ev, idx, ids[m], env)
  }

  /** The loop of evalDepCond over the elements of a job leaf. */
  method EvalJobTerm(ev: JobEvent, idx: Option<JobIdx>, ids: seq<JobId>, env: Env, stored: int) returns (value: int)
    ensures value == Walk(ev, idx, ids, env, stored)
  {
    value := stored;
    var k := 0;
    while k < |ids|
      invariant 0 <= k <= |ids|
      invariant Walk(ev, idx, ids, env, stored) == Walk(ev, idx, ids[k..], env, value)
    {
      assert ids[k..][0] == ids[k] && ids[k..][1..] == ids[k + 1..];
      var jpbw := ids[k];
      if InRange(jpbw, idx) {
        var j := env.job(jpbw);
        if EvalJobDep(ev, j, env.dependentEnd) {
          value := DP_TRUE;
        } else if j.void || (j.IsFinish() && !(!j.IsPostFinish() && j.done && (ev.PostDone? || ev.PostErr?))) {
          value := DP_INVALID;
          return;
        } else {
          value := DP_FALSE;
          return;
        }
      }
      k := k + 1;
    }
  }
}
