/**
 Evaluating the same condition again and again (lsbatch/daemons/mbd.dep.c,
 evalDepCond and resetDepCond on one tree over time).

 A node keeps the value of its last evaluation, a leaf on an array without an
 element in range answers with that value, and a leaf on a void array forgets the
 array.  So a result can depend on the past; this module says when it does not.
 */
module DepRuns {
  import opened Common
  import opened DepTerms
  import opened DepCond
  import opened DepParser
  import opened DepGrammar

  // ----- What a leaf remembers -----

  ghost predicate HasInRange(ids: seq<JobId>, idx: Option<JobIdx>) {
    exists k :: 0 <= k < |ids| && InRange(ids[k], idx)
  }

  /* The leaf has an element in range now. */
  ghost predicate Settled(t: Term, env: Env) {
    t.JobTerm? && !t.target.NoJob? ==> HasInRange(Elements(t.target, t.idx, env), t.idx)
  }

  lemma {:induction false} WalkIgnoresStored(ev: JobEvent, idx: Option<JobIdx>, ids: seq<JobId>, env: Env, v: int, w: int)
    requires HasInRange(ids, idx)
    ensures Walk(ev, idx, ids, env, v) == Walk(ev, idx, ids, env, w)
    decreases |ids|
  {
    if !InRange(ids[0], idx) {
      var k :| 0 <= k < |ids| && InRange(ids[k], idx);
      assert ids[1..][k - 1] == ids[k];
      WalkIgnoresStored(ev, idx, ids[1..], env, v, w);
    }
  }

  /** A leaf answers alike whatever it stores exactly when it has an element in range. */
  lemma {:induction false} SettledIff(t: Term, env: Env)
    ensures Settled(t, env) <==> forall v, w :: TermVerdict(t, env, v) == TermVerdict(t, env, w)
  {
    if t.JobTerm? && !t.target.NoJob? {
      var ids := Elements(t.target, t.idx, env);
      if Settled(t, env) {
        forall v, w
          ensures TermVerdict(t, env, v) == TermVerdict(t, env, w)
        {
          WalkIgnoresStored(t.event, t.idx, ids, env, v, w);
        }
      } else {
        WalkOutOfRange(t.event, t.idx, ids, env, DP_TRUE);
        WalkOutOfRange(t.event, t.idx, ids, env, DP_FALSE);
        assert TermVerdict(t, env, DP_TRUE) != TermVerdict(t, env, DP_FALSE);
      }
    }
  }

  /* The elements are those that the array has at the moment. */
  predicate FromChain(t: Term) {
    t.JobTerm? && t.target.Array? && (t.idx.None? || t.idx.value.depJobs == [])
  }

  ghost predicate Selects(t: Term)
    requires t.JobTerm?
  {
    exists id :: InRange(id, t.idx)
  }

  /* No environment gives the leaf an element in range. */
  ghost predicate NeverInRange(t: Term) {
    t.JobTerm? && !t.target.NoJob? &&
    if FromChain(t) then !Selects(t)
    else !HasInRange(if t.target.Job? then [t.target.id] else t.idx.value.depJobs, t.idx)
  }

  lemma {:induction false} NeverIsUnsettled(t: Term, env: Env)
    requires t.JobTerm? && !t.target.NoJob?
    ensures NeverInRange(t) ==> !Settled(t, env)
    ensures !Settled(t, env) && !(FromChain(t) && Selects(t)) ==> NeverInRange(t)
  {
  }

  // ----- When the past does not matter -----

  ghost predicate VoidIn(acts: seq<Action>, g: nat) {
    exists i :: 0 <= i < |acts| && acts[i].Evaluate? && acts[i].env.group(g).void
  }

  /* A leaf on a changing array has an element in range now, and a counted array that
     has been void before is void now. */
  ghost predicate LeafUndisturbed(t: Term, acts: seq<Action>, env: Env) {
    match t
    case JobTerm(_, _, _) => FromChain(t) && Selects(t) ==> Settled(t, env)
    case WindowTerm(_) => true
    case CountTerm(_, _, _, group) => group.Some? && VoidIn(acts, group.value) ==> env.group(group.value).void
  }

  ghost predicate Undisturbed(c: Cond, acts: seq<Action>, env: Env) {
    match c
    case Leaf(_, t) => LeafUndisturbed(t, acts, env)
    case Not(_, a) => Undisturbed(a, acts, env)
    case Bin(k, _, l, r) => k == KLeft || (Undisturbed(l, acts, env) && Undisturbed(r, acts, env))
  }

  /* `d` is `c` after `acts`, as far as evaluation can tell. */
  ghost predicate LeafKept(t: Term, v: int, t': Term, acts: seq<Action>) {
    && (t' == t || (t.CountTerm? && t.group.Some? && t' == t.(group := None) && VoidIn(acts, t.group.value)))
    && (NeverInRange(t) ==> v == DP_FALSE)
  }

  ghost predicate Kept(c: Cond, d: Cond, acts: seq<Action>) {
    match c
    case Leaf(_, t) => d.Leaf? && LeafKept(t, d.value, d.term, acts)
    case Not(_, a) => d.Not? && Kept(a, d.arg, acts)
    case Bin(k, _, l, r) =>
      d.Bin? && d.kind == k && if k == KLeft then d.value == DP_FALSE else Kept(l, d.left, acts) && Kept(r, d.right, acts)
  }

  lemma {:induction false} KeptStart(c: Cond)
    requires New(c)
    ensures Kept(c, c, [])
  {
    match c
    case Leaf(_, _) =>
    case Not(_, a) => KeptStart(a);
    case Bin(_, _, l, r) => KeptStart(l); KeptStart(r);
  }

  lemma {:induction false} VoidMore(acts: seq<Action>, a: Action, g: nat)
    ensures VoidIn(acts, g) ==> VoidIn(acts + [a], g)
    ensures a.Evaluate? && a.env.group(g).void ==> VoidIn(acts + [a], g)
  {
    if VoidIn(acts, g) {
      var i :| 0 <= i < |acts| && acts[i].Evaluate? && acts[i].env.group(g).void;
      assert (acts + [a])[i] == acts[i];
    }
    assert (acts + [a])[|acts|] == a;
  }

  lemma {:induction false} KeptMore(c: Cond, d: Cond, acts: seq<Action>, a: Action)
    requires Kept(c, d, acts)
    ensures Kept(c, d, acts + [a])
  {
    match c
    case Leaf(_, t) => if t.CountTerm? && t.group.Some? { VoidMore(acts, a, t.group.value); }
    case Not(_, x) => KeptMore(x, d.arg, acts, a);
    case Bin(k, _, l, r) => if k != KLeft { KeptMore(l, d.left, acts, a); KeptMore(r, d.right, acts, a); }
  }

  lemma {:induction false} LeafKeptEval(t: Term, v: int, t': Term, acts: seq<Action>, env: Env)
    requires LeafKept(t, v, t', acts)
    ensures LeafKept(t, TermVerdict(t', env, v), TermAfter(t', env), acts + [Evaluate(env)])
  {
    if t.CountTerm? && t.group.Some? { VoidMore(acts, Evaluate(env), t.group.value); }
    if NeverInRange(t) {
      NeverIsUnsettled(t, env);
      WalkOutOfRange(t.event, t.idx, Elements(t.target, t.idx, env), env, v);
    }
  }

  lemma {:induction false} KeptEval(c: Cond, d: Cond, acts: seq<Action>, env: Env)
    requires Kept(c, d, acts)
    ensures Kept(c, Eval(d, env), acts + [Evaluate(env)])
  {
    match c
    case Leaf(_, t) => LeafKeptEval(t, d.value, d.term, acts, env);
    case Not(_, x) => KeptEval(x, d.arg, acts, env);
    case Bin(k, _, l, r) =>
      if k != KLeft {
        KeptEval(l, d.left, acts, env);
        KeptEval(r, d.right, acts, env);
        KeptMore(r, d.right, acts, Evaluate(env));
      }
  }

  lemma {:induction false} KeptReset(c: Cond, d: Cond, acts: seq<Action>)
    requires Kept(c, d, acts)
    ensures Kept(c, Reset(d), acts)
  {
    match c
    case Leaf(_, t) =>
    case Not(_, x) => KeptReset(x, d.arg, acts);
    case Bin(k, _, l, r) => if k != KLeft { KeptReset(l, d.left, acts); KeptReset(r, d.right, acts); }
  }

  lemma {:induction false} KeptAfter(c: Cond, acts: seq<Action>)
    requires New(c)
    ensures Kept(c, After(c, acts), acts)
    decreases |acts|
  {
    if acts == [] {
      KeptStart(c);
    } else {
      var before, a := acts[..|acts| - 1], acts[|acts| - 1];
      assert acts == before + [a];
      KeptAfter(c, before);
      var d := After(c, before);
      if a.Evaluate? {
        KeptEval(c, d, before, a.env);
      } else {
        KeptReset(c, d, before);
        KeptMore(c, Reset(d), before, a);
      }
    }
  }

  lemma {:induction false} LeafValue(t: Term, v: int, t': Term, acts: seq<Action>, env: Env)
    requires LeafKept(t, v, t', acts) && LeafUndisturbed(t, acts, env)
    ensures TermVerdict(t', env, v) == TermVerdict(t, env, DP_FALSE)
  {
    if t.JobTerm? && !t.target.NoJob? {
      if Settled(t, env) {
        WalkIgnoresStored(t.event, t.idx, Elements(t.target, t.idx, env), env, v, DP_FALSE);
      } else {
        NeverIsUnsettled(t, env);
      }
    }
  }

  lemma {:induction false} KeptValue(c: Cond, d: Cond, acts: seq<Action>, env: Env)
    requires New(c) && Kept(c, d, acts) && Undisturbed(c, acts, env)
    ensures Val(d, Verdicts(env)) == Val(c, Verdicts(env))
  {
    match c
    case Leaf(_, t) => LeafValue(t, d.value, d.term, acts, env);
    case Not(_, x) => KeptValue(x, d.arg, acts, env);
    case Bin(k, _, l, r) => if k != KLeft { KeptValue(l, d.left, acts, env); KeptValue(r, d.right, acts, env); }
  }

  /** Whatever evaluations and resets came before, an undisturbed condition evaluates as
      if it were evaluated for the first time. */
  lemma {:induction false} PastIgnored(c: Cond, acts: seq<Action>, env: Env)
    requires New(c) && Undisturbed(c, acts, env)
    ensures Eval(After(c, acts), env).value == Eval(c, env).value
  {
    NewIsClean(c);
    NeverRejects(c, acts, env);
    EvalIsMinMax(c, env);
    KeptAfter(c, acts);
    KeptValue(c, After(c, acts), acts, env);
  }

  /** The same of what the parser returns. */
  lemma {:induction false} ParsedPastIgnored(toks: seq<Token>, acts: seq<Action>, env: Env)
    requires Parse(toks).Some? && Undisturbed(Parse(toks).value, acts, env)
    ensures Eval(After(Parse(toks).value, acts), env).value == Eval(Parse(toks).value, env).value
  {
    ParsedIsNew(toks);
    PastIgnored(Parse(toks).value, acts, env);
  }

  // ----- What a reset does -----

  /* Nothing that evaluation can see is stored. */
  predicate Forgotten(c: Cond) {
    match c
    case Leaf(v, _) => v == DP_FALSE
    case Not(v, a) => v == DP_FALSE && Forgotten(a)
    case Bin(k, v, l, r) => v == DP_FALSE && (k == KLeft || (Forgotten(l) && Forgotten(r)))
  }

  lemma {:induction false} ResetForgets(c: Cond)
    ensures Forgotten(Reset(c))
  {
    match c
    case Leaf(_, _) =>
    case Not(_, a) => ResetForgets(a);
    case Bin(_, _, l, r) => ResetForgets(l); ResetForgets(r);
  }

  /* A counted array that has been void before is void now. */
  ghost predicate NoneRevived(c: Cond, acts: seq<Action>, env: Env) {
    match c
    case Leaf(_, t) =>
      t.CountTerm? && t.group.Some? && VoidIn(acts, t.group.value) ==> env.group(t.group.value).void
    case Not(_, a) => NoneRevived(a, acts, env)
    case Bin(k, _, l, r) => k == KLeft || (NoneRevived(l, acts, env) && NoneRevived(r, acts, env))
  }

  lemma {:induction false} ForgottenValue(c: Cond, d: Cond, acts: seq<Action>, env: Env)
    requires New(c) && Kept(c, d, acts) && Forgotten(d) && NoneRevived(c, acts, env)
    ensures Val(d, Verdicts(env)) == Val(c, Verdicts(env))
  {
    match c
    case Leaf(_, t) =>
    case Not(_, x) => ForgottenValue(x, d.arg, acts, env);
    case Bin(k, _, l, r) => if k != KLeft { ForgottenValue(l, d.left, acts, env); ForgottenValue(r, d.right, acts, env); }
  }

  /** After a reset a condition evaluates as if for the first time, whatever its leaves
      answered before; only arrays that were void stay forgotten. */
  lemma {:induction false} ResetForgetsPast(c: Cond, acts: seq<Action>, env: Env)
    requires New(c) && NoneRevived(c, acts, env)
    ensures Eval(After(c, acts + [ResetAll]), env).value == Eval(c, env).value
  {
    var d := After(c, acts);
    assert (acts + [ResetAll])[..|acts|] == acts;
    KeptAfter(c, acts);
    KeptReset(c, d, acts);
    ResetForgets(d);
    ForgottenValue(c, Reset(d), acts, env);
    NewIsClean(c);
    EvalIsMinMax(c, env);
    NeverRejects(c, acts + [ResetAll], env);
  }

  /** A condition that is read as usual keeps the value of the usual reading over whole
      runs, if undisturbed. */
  lemma {:induction false} SafeOverRuns(e: Expr, acts: seq<Action>, env: Env)
    requires Safe(e) && Undisturbed(ParsedTree(e), acts, env)
    ensures Eval(After(ParsedTree(e), acts), env).value == Val(Usual(e), Verdicts(env))
  {
    PrintAccepted(e);
    ParsedPastIgnored(Print(e), acts, env);
    SafeMeansUsual(e, Verdicts(env), env);
  }

  // ----- For a single leaf the condition is exact -----

  /* The leaf is undisturbed whatever came before. */
  ghost predicate PastIrrelevant(t: Term, env: Env) {
    match t
    case JobTerm(_, _, _) => FromChain(t) && Selects(t) ==> Settled(t, env)
    case WindowTerm(_) => true
    case CountTerm(_, _, _, group) => group.Some? ==> env.group(group.value).void
  }

  /* A job that satisfies the event. */
  function Satisfying(ev: JobEvent): JobState {
    var code := if !ev.Exit? then 0
                else match ev.cmp
                  case GT => ev.code + 1
                  case LT => ev.code - 1
                  case NE => ev.code + 1
                  case _ => ev.code;
    var j := JobState(false, false, true, false, true, true, false, false, true, 0, 1, 1);
    if ev.Exit? then j.(done := false, exited := true, exitStatus := code * 256) else j
  }

  lemma {:induction false} SatisfyingSatisfies(ev: JobEvent)
    ensures EvalJobDep(ev, Satisfying(ev), None)
  {
  }

  /* An environment that leaves another trace in the leaf than the present one has. */
  lemma {:induction false} PastMatters(t: Term, env: Env) returns (past: Env)
    requires !PastIrrelevant(t, env)
    ensures Eval(After(NewLeaf(t), [Evaluate(past)]), env).value != Eval(NewLeaf(t), env).value
  {
    AfterOne(NewLeaf(t));
    if t.JobTerm? {
      var id :| InRange(id, t.idx);
      past := Env(_ => Satisfying(t.event), _ => [id], _ => false, _ => GroupState(true, 0, 0, 0, 0, 0, 0), None);
      SatisfyingSatisfies(t.event);
      var ids := Elements(t.target, t.idx, past);
      assert ids == [id] && !Failing(t.event, t.idx, ids[0], past) && InRange(ids[0], t.idx);
      WalkAllPass(t.event, t.idx, ids, past, DP_FALSE);
      WalkOutOfRange(t.event, t.idx, Elements(t.target, t.idx, env), env, DP_TRUE);
      WalkOutOfRange(t.event, t.idx, Elements(t.target, t.idx, env), env, DP_FALSE);
    } else {
      past := Env(_ => Satisfying(Done), _ => [], _ => false, _ => GroupState(true, 0, 0, 0, 0, 0, 0), None);
    }
    assert After(NewLeaf(t), [Evaluate(past)]) == Eval(NewLeaf(t), past);
  }

  /** A leaf answers in an environment as if for the first time, after all evaluations
      and resets there can be, exactly when its past is irrelevant there. */
  lemma {:induction false} LeafPast(t: Term, env: Env)
    ensures (forall acts :: Eval(After(NewLeaf(t), acts), env).value == Eval(NewLeaf(t), env).value)
      <==> PastIrrelevant(t, env)
  {
    if PastIrrelevant(t, env) {
      forall acts ensures Eval(After(NewLeaf(t), acts), env).value == Eval(NewLeaf(t), env).value {
        PastIgnored(NewLeaf(t), acts, env);
      }
    } else {
      var past := PastMatters(t, env);
    }
  }

  lemma {:induction false} AfterOne(c: Cond)
    ensures forall a: Action {:trigger After(c, [a])} :: After(c, [a]) == Act(c, a)
  {
    forall a: Action ensures After(c, [a]) == Act(c, a) { assert [a][..0] == []; }
  }

  // ----- The laws over whole runs -----

  lemma {:induction false} UndisturbedOperands(c: Cond, k: Kind, acts: seq<Action>, env: Env)
    requires k != KLeft
    ensures Undisturbed(c, acts, env) <==> forall x :: x in Operands(c, k) ==> Undisturbed(x, acts, env)
  {
    if c.Bin? && c.kind == k {
      UndisturbedOperands(c.left, k, acts, env);
      UndisturbedOperands(c.right, k, acts, env);
    }
  }

  /** Two chains over the same operands that went through the same evaluations and
      resets evaluate alike, if undisturbed. */
  lemma {:induction false} RegroupingOverRuns(c: Cond, d: Cond, k: Kind, acts: seq<Action>, env: Env)
    requires k != KLeft && Operands(c, k) == Operands(d, k) && New(c) && New(d)
    requires Undisturbed(c, acts, env)
    ensures Eval(After(c, acts), env).value == Eval(After(d, acts), env).value
  {
    UndisturbedOperands(c, k, acts, env);
    UndisturbedOperands(d, k, acts, env);
    PastIgnored(c, acts, env);
    PastIgnored(d, acts, env);
    NewIsClean(c);
    NewIsClean(d);
    RegroupingKeepsResult(c, d, k, env);
  }

  /** Distribution and absorption over whole runs. */
  lemma {:induction false} DistributionOverRuns(a: Cond, b: Cond, c: Cond, acts: seq<Action>, env: Env)
    requires New(a) && New(b) && New(c)
    requires Undisturbed(a, acts, env) && Undisturbed(b, acts, env) && Undisturbed(c, acts, env)
    ensures SameOverRun(NewBin(KAnd, a, NewBin(KOr, b, c)), NewBin(KOr, NewBin(KAnd, a, b), NewBin(KAnd, a, c)), acts, env)
    ensures SameOverRun(NewBin(KOr, a, NewBin(KAnd, b, c)), NewBin(KAnd, NewBin(KOr, a, b), NewBin(KOr, a, c)), acts, env)
    ensures SameOverRun(NewBin(KOr, a, NewBin(KAnd, a, b)), a, acts, env)
  {
    NewIsClean(a);
    NewIsClean(b);
    NewIsClean(c);
    DistributionKeepsResult(a, b, c, env);
    assert Undisturbed(NewBin(KAnd, a, b), acts, env) && Undisturbed(NewBin(KAnd, a, c), acts, env);
    assert Undisturbed(NewBin(KOr, a, b), acts, env) && Undisturbed(NewBin(KOr, a, c), acts, env);
    BothIgnorePast(NewBin(KAnd, a, NewBin(KOr, b, c)), NewBin(KOr, NewBin(KAnd, a, b), NewBin(KAnd, a, c)), acts, env);
    BothIgnorePast(NewBin(KOr, a, NewBin(KAnd, b, c)), NewBin(KAnd, NewBin(KOr, a, b), NewBin(KOr, a, c)), acts, env);
    BothIgnorePast(NewBin(KOr, a, NewBin(KAnd, a, b)), a, acts, env);
  }

  /** De Morgan's laws over whole runs. */
  lemma {:induction false} DeMorganOverRuns(a: Cond, b: Cond, acts: seq<Action>, env: Env)
    requires New(a) && New(b) && Undisturbed(a, acts, env) && Undisturbed(b, acts, env)
    ensures SameOverRun(NewNot(NewBin(KAnd, a, b)), NewBin(KOr, NewNot(a), NewNot(b)), acts, env)
    ensures SameOverRun(NewNot(NewBin(KOr, a, b)), NewBin(KAnd, NewNot(a), NewNot(b)), acts, env)
  {
    NewIsClean(a);
    NewIsClean(b);
    DeMorgan(a, b, env);
    assert Undisturbed(NewNot(a), acts, env) && Undisturbed(NewNot(b), acts, env);
    assert Undisturbed(NewBin(KAnd, a, b), acts, env) && Undisturbed(NewBin(KOr, a, b), acts, env);
    BothIgnorePast(NewNot(NewBin(KAnd, a, b)), NewBin(KOr, NewNot(a), NewNot(b)), acts, env);
    BothIgnorePast(NewNot(NewBin(KOr, a, b)), NewBin(KAnd, NewNot(a), NewNot(b)), acts, env);
  }

  ghost predicate SameOverRun(c: Cond, d: Cond, acts: seq<Action>, env: Env) {
    Eval(After(c, acts), env).value == Eval(After(d, acts), env).value
  }

  lemma {:induction false} BothIgnorePast(c: Cond, d: Cond, acts: seq<Action>, env: Env)
    requires New(c) && New(d) && Undisturbed(c, acts, env) && Undisturbed(d, acts, env)
    requires Eval(c, env).value == Eval(d, env).value
    ensures SameOverRun(c, d, acts, env)
  {
    PastIgnored(c, acts, env);
    PastIgnored(d, acts, env);
  }

  // ----- Where the order of operands shows -----

  /* The array has one job, done, and the window is open; then neither. */
  function Busy(): Env {
    Env(_ => Satisfying(Done), _ => [JobId(1, 1)], _ => true, _ => GroupState(false, 0, 0, 0, 0, 0, 0), None)
  }

  function Idle(): Env { Busy().(chain := _ => [], windowOpen := _ => false) }

  /** A window or an array that loses its elements: evaluated in both environments in
      turn, the second result depends on the order of the operands, because the open
      window keeps the leaf behind it from being evaluated. */
  lemma {:induction false} OrderShows()
    ensures var w, b := NewLeaf(WindowTerm(0)), NewLeaf(JobTerm(Done, Array(JobId(1, 0)), None));
      var c, d := NewBin(KOr, w, b), NewBin(KOr, b, w);
      Operands(c, KOr) == Operands(d, KOr) &&
      Eval(After(c, [Evaluate(Busy())]), Idle()).value == DP_FALSE &&
      Eval(After(d, [Evaluate(Busy())]), Idle()).value == DP_TRUE
  {
    var w, b := NewLeaf(WindowTerm(0)), NewLeaf(JobTerm(Done, Array(JobId(1, 0)), None));
    var c, d := NewBin(KOr, w, b), NewBin(KOr, b, w);
    AfterOne(c);
    AfterOne(d);
    var ids := [JobId(1, 1)];
    assert Elements(Array(JobId(1, 0)), None, Busy()) == ids && Elements(Array(JobId(1, 0)), None, Idle()) == [];
    assert !Failing(Done, None, ids[0], Busy()) && InRange(ids[0], None);
    WalkAllPass(Done, None, ids, Busy(), DP_FALSE);
  }
}
