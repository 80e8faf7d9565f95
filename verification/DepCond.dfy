/**
 Condition trees and their evaluation (lsbatch/daemons/mbd.dep.c, evalDepCond
 and resetDepCond).  Every node keeps the value of its last evaluation, and
 evaluation rewrites those values as it goes; `Eval` is the tree it leaves
 behind, whose root value is what the call returns.
 */
module DepCond {
  import opened Common
  import opened DepTerms

  /* A binary node; KLeft is an open bracket that the parser merged as if it
     were an operator. */
  datatype Kind = KAnd | KOr | KLeft

  datatype Cond =
    | Leaf(value: int, term: Term)
    | Not(value: int, arg: Cond)
    | Bin(kind: Kind, value: int, left: Cond, right: Cond)

  function NewLeaf(t: Term): Cond { Leaf(DP_FALSE, t) }
  function NewNot(c: Cond): Cond { Not(DP_FALSE, c) }
  function NewBin(k: Kind, l: Cond, r: Cond): Cond { Bin(k, DP_FALSE, l, r) }

  // ----- Evaluation as written -----

  function Eval(c: Cond, env: Env): Cond {
    match c
    case Leaf(v, t) => Leaf(TermVerdict(t, env, v), TermAfter(t, env))
    case Not(_, a) =>
      var a' := Eval(a, env);
      var v := if a'.value == DP_REJECT then DP_REJECT
               else if a'.value == DP_FALSE || a'.value == DP_INVALID then DP_TRUE
               else if a'.value == DP_TRUE then DP_FALSE
               else a'.value;
      Not(v, a')
    case Bin(KOr, _, l, r) =>
      var l' := Eval(l, env);
      if l'.value == DP_REJECT || l'.value == DP_TRUE then Bin(KOr, l'.value, l', r)
      else
        var r' := Eval(r, env);
        if l'.value == DP_FALSE then
          Bin(KOr, if r'.value == DP_REJECT || r'.value == DP_TRUE then r'.value else DP_FALSE, l', r')
        else Bin(KOr, r'.value, l', r')
    case Bin(KAnd, _, l, r) =>
      var l' := Eval(l, env);
      if l'.value == DP_INVALID || l'.value == DP_REJECT then Bin(KAnd, l'.value, l', r)
      else
        var r' := Eval(r, env);
        if l'.value == DP_FALSE then
          Bin(KAnd, if r'.value == DP_INVALID || r'.value == DP_REJECT then r'.value else DP_FALSE, l', r')
        else Bin(KAnd, r'.value, l', r')
    case Bin(KLeft, _, _, _) => c
  }

  function Reset(c: Cond): Cond {
    match c
    case Leaf(_, t) => Leaf(DP_FALSE, t)
    case Not(_, a) => Not(DP_FALSE, Reset(a))
    case Bin(k, _, l, r) => if k == KLeft then Bin(k, DP_FALSE, l, r) else Bin(k, DP_FALSE, Reset(l), Reset(r))
  }

  // ----- The intended meaning: minimum and maximum of the codes -----

  function Min(x: int, y: int): int { if x < y then x else y }
  function Max(x: int, y: int): int { if x < y then y else x }

  /* The value of a tree under a valuation of its leaves, given the stored value
     of each leaf. */
  function Val(c: Cond, lv: (Term, int) -> int): int {
    match c
    case Leaf(v, t) => lv(t, v)
    case Not(_, a) => if Val(a, lv) == DP_TRUE then DP_FALSE else DP_TRUE
    case Bin(KAnd, _, l, r) => Min(Val(l, lv), Val(r, lv))
    case Bin(KOr, _, l, r) => Max(Val(l, lv), Val(r, lv))
    case Bin(KLeft, v, _, _) => v
  }

  function Verdicts(env: Env): (Term, int) -> int { (t: Term, v: int) => TermVerdict(t, env, v) }

  /* Every stored value is one of TRUE, FALSE and INVALID. */
  predicate Clean(c: Cond) {
    IsTri(c.value) &&
    match c
    case Leaf(_, _) => true
    case Not(_, a) => Clean(a)
    case Bin(_, _, l, r) => Clean(l) && Clean(r)
  }

  /* Nothing has been evaluated yet. */
  predicate New(c: Cond) {
    c.value == DP_FALSE &&
    match c
    case Leaf(_, _) => true
    case Not(_, a) => New(a)
    case Bin(_, _, l, r) => New(l) && New(r)
  }

  lemma {:induction false} NewIsClean(c: Cond)
    requires New(c)
    ensures Clean(c)
  {
    match c
    case Leaf(_, _) =>
    case Not(_, a) => NewIsClean(a);
    case Bin(_, _, l, r) => NewIsClean(l); NewIsClean(r);
  }

  /** Evaluation as written, with its early returns and four codes, computes
      minimum for &&, maximum for || and keeps every stored value clean. */
  lemma {:induction false} EvalIsMinMax(c: Cond, env: Env)
    requires Clean(c)
    ensures Clean(Eval(c, env))
    ensures Eval(c, env).value == Val(c, Verdicts(env))
  {
    match c
    case Leaf(v, t) => TermVerdictIsTri(t, env, v);
    case Not(_, a) => EvalIsMinMax(a, env);
    case Bin(_, _, l, r) => EvalIsMinMax(l, env); EvalIsMinMax(r, env);
  }

  lemma {:induction false} ResetIsClean(c: Cond)
    requires Clean(c)
    ensures Clean(Reset(c))
  {
    match c
    case Leaf(_, _) =>
    case Not(_, a) => ResetIsClean(a);
    case Bin(_, _, l, r) => ResetIsClean(l); ResetIsClean(r);
  }

  // ----- Whole runs -----

  datatype Action = Evaluate(env: Env) | ResetAll

  function Act(c: Cond, a: Action): Cond {
    match a
    case Evaluate(env) => Eval(c, env)
    case ResetAll => Reset(c)
  }

  function After(c: Cond, acts: seq<Action>): Cond
    decreases |acts|
  {
    if acts == [] then c else Act(After(c, acts[..|acts| - 1]), acts[|acts| - 1])
  }

  /** No run of evaluations and resets ever stores or returns DP_REJECT, and each
      evaluation in the run returns the minimum/maximum meaning. */
  lemma {:induction false} NeverRejects(c: Cond, acts: seq<Action>, env: Env)
    requires Clean(c)
    ensures Clean(After(c, acts))
    ensures Eval(After(c, acts), env).value != DP_REJECT
    ensures Eval(After(c, acts), env).value == Val(After(c, acts), Verdicts(env))
    decreases |acts|
  {
    if acts != [] {
      var before := acts[..|acts| - 1];
      var a := acts[|acts| - 1];
      NeverRejects(c, before, env);
      if a.Evaluate? { EvalIsMinMax(After(c, before), a.env); } else { ResetIsClean(After(c, before)); }
    }
    EvalIsMinMax(After(c, acts), env);
  }

  // ----- Mirror images -----

  function Mirror(c: Cond): Cond {
    match c
    case Leaf(_, _) => c
    case Not(v, a) => Not(v, Mirror(a))
    case Bin(k, v, l, r) => Bin(k, v, Mirror(r), Mirror(l))
  }

  lemma {:induction false} MirrorKeepsValue(c: Cond, lv: (Term, int) -> int)
    ensures Val(Mirror(c), lv) == Val(c, lv)
  {
    match c
    case Leaf(_, _) =>
    case Not(_, a) => MirrorKeepsValue(a, lv);
    case Bin(_, _, l, r) => MirrorKeepsValue(l, lv); MirrorKeepsValue(r, lv);
  }

  lemma {:induction false} MirrorTwice(c: Cond)
    ensures Mirror(Mirror(c)) == c
    ensures Clean(Mirror(c)) == Clean(c)
  {
    match c
    case Leaf(_, _) =>
    case Not(_, a) => MirrorTwice(a);
    case Bin(_, _, l, r) => MirrorTwice(l); MirrorTwice(r);
  }

  // ----- Regrouping and reordering -----

  /* The operands of the maximal chain of operator `k` at the root. */
  function Operands(c: Cond, k: Kind): set<Cond> {
    if c.Bin? && c.kind == k then Operands(c.left, k) + Operands(c.right, k) else {c}
  }

  ghost predicate IsLeastOf(m: set<Cond>, lv: (Term, int) -> int, v: int) {
    && (exists c :: c in m && Val(c, lv) == v)
    && (forall c :: c in m ==> v <= Val(c, lv))
  }

  ghost predicate IsGreatestOf(m: set<Cond>, lv: (Term, int) -> int, v: int) {
    && (exists c :: c in m && Val(c, lv) == v)
    && (forall c :: c in m ==> Val(c, lv) <= v)
  }

  /** However an && chain is grouped, its value is the least value among its
      operands; for an || chain it is the greatest. */
  lemma {:induction false} AndChainValue(c: Cond, lv: (Term, int) -> int)
    ensures IsLeastOf(Operands(c, KAnd), lv, Val(c, lv))
  {
    if c.Bin? && c.kind == KAnd {
      AndChainValue(c.left, lv);
      AndChainValue(c.right, lv);
    } else {
      assert c in Operands(c, KAnd);
    }
  }

  lemma {:induction false} OrChainValue(c: Cond, lv: (Term, int) -> int)
    ensures IsGreatestOf(Operands(c, KOr), lv, Val(c, lv))
  {
    if c.Bin? && c.kind == KOr {
      OrChainValue(c.left, lv);
      OrChainValue(c.right, lv);
    } else {
      assert c in Operands(c, KOr);
    }
  }

  /** Reordering, regrouping or repeating the operands of a chain, with what they
      store, does not change what the next evaluation returns. */
  lemma {:induction false} RegroupingKeepsResult(c: Cond, d: Cond, k: Kind, env: Env)
    requires k != KLeft && Operands(c, k) == Operands(d, k)
    requires Clean(c) && Clean(d)
    ensures Eval(c, env).value == Eval(d, env).value
  {
    EvalIsMinMax(c, env);
    EvalIsMinMax(d, env);
    var lv := Verdicts(env);
    if k == KAnd {
      AndChainValue(c, lv);
      AndChainValue(d, lv);
    } else {
      OrChainValue(c, lv);
      OrChainValue(d, lv);
    }
  }

  /** Distributing && over || (and || over &&) and absorption keep the result of the
      next evaluation. */
  lemma {:induction false} DistributionKeepsResult(a: Cond, b: Cond, c: Cond, env: Env)
    requires Clean(a) && Clean(b) && Clean(c)
    ensures Eval(NewBin(KAnd, a, NewBin(KOr, b, c)), env).value
         == Eval(NewBin(KOr, NewBin(KAnd, a, b), NewBin(KAnd, a, c)), env).value
    ensures Eval(NewBin(KOr, a, NewBin(KAnd, b, c)), env).value
         == Eval(NewBin(KAnd, NewBin(KOr, a, b), NewBin(KOr, a, c)), env).value
    ensures Eval(NewBin(KOr, a, NewBin(KAnd, a, b)), env).value == Eval(a, env).value
  {
    EvalBin(KOr, b, c, env);
    EvalBin(KAnd, b, c, env);
    EvalBin(KOr, a, b, env);
    EvalBin(KAnd, a, b, env);
    EvalBin(KOr, a, c, env);
    EvalBin(KAnd, a, c, env);
    EvalBin(KAnd, a, NewBin(KOr, b, c), env);
    EvalBin(KOr, NewBin(KAnd, a, b), NewBin(KAnd, a, c), env);
    EvalBin(KOr, a, NewBin(KAnd, b, c), env);
    EvalBin(KAnd, NewBin(KOr, a, b), NewBin(KOr, a, c), env);
    EvalBin(KOr, a, NewBin(KAnd, a, b), env);
  }

  lemma {:induction false} EvalBin(k: Kind, a: Cond, b: Cond, env: Env)
    requires Clean(a) && Clean(b) && k != KLeft
    ensures Eval(NewBin(k, a, b), env).value
         == (if k == KAnd then Min(Eval(a, env).value, Eval(b, env).value) else Max(Eval(a, env).value, Eval(b, env).value))
  {
    EvalIsMinMax(a, env);
    EvalIsMinMax(b, env);
  }

  /** De Morgan's laws hold of one evaluation. */
  lemma {:induction false} DeMorgan(a: Cond, b: Cond, env: Env)
    requires Clean(a) && Clean(b)
    ensures Eval(NewNot(NewBin(KAnd, a, b)), env).value == Eval(NewBin(KOr, NewNot(a), NewNot(b)), env).value
    ensures Eval(NewNot(NewBin(KOr, a, b)), env).value == Eval(NewBin(KAnd, NewNot(a), NewNot(b)), env).value
  {
    EvalIsMinMax(a, env);
    EvalIsMinMax(b, env);
  }

  /** Double negation is lost exactly on DP_INVALID. */
  lemma {:induction false} DoubleNegation(a: Cond, env: Env)
    requires Clean(a)
    ensures Eval(NewNot(NewNot(a)), env).value == Eval(a, env).value <==> Eval(a, env).value != DP_INVALID
  {
    EvalIsMinMax(a, env);
  }

  // ----- One job: ended(j), done(j) and exit(j) -----

  function On(ev: JobEvent, id: JobId): Cond { NewLeaf(JobTerm(ev, Job(id), None)) }

  lemma {:induction false} OnOneJob(ev: JobEvent, id: JobId, env: Env)
    ensures Eval(On(ev, id), env).value == JobVerdict(ev, env.job(id), env.dependentEnd)
  {
    var v := JobVerdict(ev, env.job(id), env.dependentEnd);
    assert Walk(ev, None, [id], env, DP_FALSE) == if v == DP_TRUE then Walk(ev, None, [], env, DP_TRUE) else v by {
      assert [id][1..] == [] && InRange([id][0], None);
    }
  }

  /** For a single job, ended(j) and done(j) || exit(j) evaluate to the same code,
      whatever the state of the job and of the dependent; done(j) && exit(j) is
      true exactly for a pending job that is also marked exited, not done, and
      whose last run succeeded, and so never while a pending job is not marked
      finished as well. */
  lemma {:induction false} EndedIsDoneOrExit(id: JobId, env: Env)
    ensures Eval(On(Ended, id), env).value
         == Eval(NewBin(KOr, On(Done, id), On(Exit(Always, 0), id)), env).value
    ensures Eval(NewBin(KAnd, On(Done, id), On(Exit(Always, 0), id)), env).value == DP_TRUE
      <==> (var j := env.job(id);
            EndedAfter(j, env.dependentEnd) && j.IsPend() && j.lastRunSucc && j.exited && !j.done)
    ensures !(env.job(id).IsPend() && env.job(id).IsFinish()) ==>
      Eval(NewBin(KAnd, On(Done, id), On(Exit(Always, 0), id)), env).value != DP_TRUE
  {
    OnOneJob(Ended, id, env);
    OnOneJob(Done, id, env);
    OnOneJob(Exit(Always, 0), id, env);
  }

  /* Only a status with the pending and the exit bit does this; the daemon's own
     updates replace all status bits and store none such. */
  lemma {:induction false} DoneAndExitWitness(id: JobId, env: Env)
    requires env.job(id) == JobState(true, false, false, true, false, false, false, false, true, 0, 0, 1)
    requires env.dependentEnd.None?
    ensures Eval(On(Done, id), env).value == DP_TRUE && Eval(On(Exit(Always, 0), id), env).value == DP_TRUE
  {
    OnOneJob(Done, id, env);
    OnOneJob(Exit(Always, 0), id, env);
  }
}
