/**
 The two-stack operator parser of lsbatch/daemons/mbd.dep.c (parseDepCond,
 mergeNode, createMoreNodes), over tokens: a leaf arrives as the list of job
 terms its name matched.

 The precedence table of the source has no entry for "(" although the parser
 looks it up; here "(" ranks below every operator.
 */
module DepParser {
  import opened Common
  import opened DepTerms
  import opened DepCond

  datatype Token = TAnd | TOr | TNot | TLeft | TRight | TTerms(first: Term, more: seq<Term>) | TBad

  /* What the operator stack holds. */
  datatype Oper = Binary(kind: Kind) | Bang

  function Rank(o: Oper): nat {
    match o
    case Bang => 3
    case Binary(KAnd) => 2
    case Binary(KOr) => 1
    case Binary(KLeft) => 0
  }

  /* Both stacks, bottom first. */
  datatype Stacks = Stacks(opers: seq<Oper>, operands: seq<Cond>)

  const EMPTY := Stacks([], [])

  // ----- mergeNode -----

  function MergeTop(s: Stacks): Option<Stacks> {
    var n, m := |s.opers|, |s.operands|;
    if n == 0 || m == 0 then None
    else if s.opers[n - 1].Bang? then
      Some(Stacks(s.opers[..n - 1], s.operands[..m - 1] + [NewNot(s.operands[m - 1])]))
    else if m == 1 then None
    else
      Some(Stacks(s.opers[..n - 1],
                  s.operands[..m - 2] + [NewBin(s.opers[n - 1].kind, s.operands[m - 1], s.operands[m - 2])]))
  }

  function MergeLeft(s: Stacks): Option<Stacks>
    decreases |s.opers|
  {
    var n := |s.opers|;
    if n == 0 then None
    else if s.opers[n - 1] == Binary(KLeft) then Some(s.(opers := s.opers[..n - 1]))
    else
      var t := MergeTop(s);
      if t.None? then None else MergeLeft(t.value)
  }

  function MergeAll(s: Stacks): Stacks
    decreases |s.opers|
  {
    var t := MergeTop(s);
    if t.None? then s else MergeAll(t.value)
  }

  // ----- parseDepCond -----

  /* The nodes for a name that matched several jobs, joined by &&. */
  function TermsTree(first: Term, more: seq<Term>): Cond
    decreases |more|
  {
    if more == [] then NewLeaf(first)
    else NewBin(KAnd, NewLeaf(more[|more| - 1]), TermsTree(first, more[..|more| - 1]))
  }

  function PushOper(s: Stacks, o: Oper): Stacks { s.(opers := s.opers + [o]) }
  function PushOperand(s: Stacks, c: Cond): Stacks { s.(operands := s.operands + [c]) }

  function Incoming(s: Stacks, o: Oper): Option<Stacks> {
    if s.opers != [] && Rank(s.opers[|s.opers| - 1]) > Rank(o) then
      var t := MergeTop(s);
      if t.None? then None else Some(PushOper(t.value, o))
    else Some(PushOper(s, o))
  }

  function Step(s: Stacks, t: Token): Option<Stacks> {
    match t
    case TAnd => Incoming(s, Binary(KAnd))
    case TOr => Incoming(s, Binary(KOr))
    case TNot => Incoming(s, Bang)
    case TLeft => Some(PushOper(s, Binary(KLeft)))
    case TRight => MergeLeft(s)
    case TTerms(first, more) => Some(PushOperand(s, TermsTree(first, more)))
    case TBad => None
  }

  function Run(s: Stacks, toks: seq<Token>): Option<Stacks>
    decreases |toks|
  {
    if toks == [] then Some(s)
    else
      var t := Step(s, toks[0]);
      if t.None? then None else Run(t.value, toks[1..])
  }

  /* The checks after the last token. */
  function Finish(s: Stacks): Option<Cond> {
    var m := MergeAll(s);
    if |m.operands| == 1 && m.opers == [] then Some(m.operands[0]) else None
  }

  function Parse(toks: seq<Token>): Option<Cond> {
    var s := Run(EMPTY, toks);
    if s.None? then None else Finish(s.value)
  }

  lemma {:induction false} RunAppend(s: Stacks, a: seq<Token>, b: seq<Token>)
    ensures Run(s, a + b) == (var t := Run(s, a); if t.None? then None else Run(t.value, b))
    decreases |a|
  {
    if a == [] {
      assert a + b == b;
    } else {
      assert (a + b)[0] == a[0] && (a + b)[1..] == a[1..] + b;
      if Step(s, a[0]).Some? { RunAppend(Step(s, a[0]).value, a[1..], b); }
    }
  }

  lemma {:induction false} RunOne(s: Stacks, t: Token)
    ensures Run(s, [t]) == Step(s, t)
  {
    assert [t][1..] == [];
  }

  /** A name that matched several jobs evaluates to the least verdict among them. */
  lemma {:induction false} SeveralJobsMinimum(first: Term, more: seq<Term>, env: Env)
    ensures Clean(TermsTree(first, more))
    ensures var v := Eval(TermsTree(first, more), env).value;
      (exists t :: t in [first] + more && TermVerdict(t, env, DP_FALSE) == v) &&
      (forall t :: t in [first] + more ==> v <= TermVerdict(t, env, DP_FALSE))
    decreases |more|
  {
    TermVerdictIsTri(first, env, DP_FALSE);
    if more == [] {
      assert [first] + more == [first];
      assert first in [first] + more;
    } else {
      var last := more[|more| - 1];
      var init := more[..|more| - 1];
      TermVerdictIsTri(last, env, DP_FALSE);
      SeveralJobsMinimum(first, init, env);
      EvalIsMinMax(TermsTree(first, more), env);
      EvalIsMinMax(TermsTree(first, init), env);
      assert [first] + more == [first] + init + [last];
      assert forall t :: t in [first] + more <==> t in [first] + init || t == last;
    }
  }

  // ----- Nothing is lost, nothing is invented -----

  /* One leaf, operator or open bracket of a condition. */
  datatype Sym = SLeaf(term: Term) | SBin(kind: Kind) | SNot

  /* The total weight of a tree, of the stacks and of the input, for a weight on
     symbols: how often a symbol occurs, or how many leaves share an index list. */
  function Weight(c: Cond, w: Sym -> nat): nat {
    match c
    case Leaf(_, t) => w(SLeaf(t))
    case Not(_, a) => w(SNot) + Weight(a, w)
    case Bin(k, _, l, r) => w(SBin(k)) + Weight(l, w) + Weight(r, w)
  }

  function OperSym(o: Oper): Sym {
    match o
    case Bang => SNot
    case Binary(k) => SBin(k)
  }

  function WeightOpers(s: seq<Oper>, w: Sym -> nat): nat
    decreases |s|
  {
    if s == [] then 0 else WeightOpers(s[..|s| - 1], w) + w(OperSym(s[|s| - 1]))
  }

  function WeightOperands(s: seq<Cond>, w: Sym -> nat): nat
    decreases |s|
  {
    if s == [] then 0 else WeightOperands(s[..|s| - 1], w) + Weight(s[|s| - 1], w)
  }

  function WeightStacks(s: Stacks, w: Sym -> nat): nat { WeightOpers(s.opers, w) + WeightOperands(s.operands, w) }

  function WeightTerms(first: Term, more: seq<Term>, w: Sym -> nat): nat
    decreases |more|
  {
    if more == [] then w(SLeaf(first))
    else WeightTerms(first, more[..|more| - 1], w) + w(SBin(KAnd)) + w(SLeaf(more[|more| - 1]))
  }

  function WeightToken(t: Token, w: Sym -> nat): nat {
    match t
    case TAnd => w(SBin(KAnd))
    case TOr => w(SBin(KOr))
    case TNot => w(SNot)
    case TLeft => w(SBin(KLeft))
    case TRight => 0
    case TTerms(first, more) => WeightTerms(first, more, w)
    case TBad => 0
  }

  function WeightInput(toks: seq<Token>, w: Sym -> nat): nat
    decreases |toks|
  {
    if toks == [] then 0 else WeightToken(toks[0], w) + WeightInput(toks[1..], w)
  }

  /* The weight of the open brackets that the close brackets of the input take away. */
  function WeightClosed(toks: seq<Token>, w: Sym -> nat): nat
    decreases |toks|
  {
    if toks == [] then 0 else (if toks[0].TRight? then w(SBin(KLeft)) else 0) + WeightClosed(toks[1..], w)
  }

  lemma {:induction false} TermsTreeWeight(first: Term, more: seq<Term>, w: Sym -> nat)
    ensures Weight(TermsTree(first, more), w) == WeightTerms(first, more, w)
    decreases |more|
  {
    if more != [] { TermsTreeWeight(first, more[..|more| - 1], w); }
  }

  lemma {:induction false} PushOperWeight(s: Stacks, o: Oper, w: Sym -> nat)
    ensures WeightStacks(PushOper(s, o), w) == WeightStacks(s, w) + w(OperSym(o))
  {
    assert (s.opers + [o])[..|s.opers|] == s.opers;
  }

  lemma {:induction false} PushOperandWeight(s: Stacks, c: Cond, w: Sym -> nat)
    ensures WeightStacks(PushOperand(s, c), w) == WeightStacks(s, w) + Weight(c, w)
  {
    assert (s.operands + [c])[..|s.operands|] == s.operands;
  }

  lemma {:induction false} LastTwoWeight(s: seq<Cond>, w: Sym -> nat)
    requires |s| >= 2
    ensures WeightOperands(s, w) == WeightOperands(s[..|s| - 2], w) + Weight(s[|s| - 2], w) + Weight(s[|s| - 1], w)
  {
    var init := s[..|s| - 1];
    assert init[..|init| - 1] == s[..|s| - 2];
  }

  lemma {:induction false} MergeTopWeight(s: Stacks, w: Sym -> nat)
    requires MergeTop(s).Some?
    ensures WeightStacks(MergeTop(s).value, w) == WeightStacks(s, w)
  {
    var n, m := |s.opers|, |s.operands|;
    var o := s.opers[n - 1];
    var u := Stacks(s.opers[..n - 1], s.operands[..if o.Bang? then m - 1 else m - 2]);
    if o.Bang? {
      PushOperandWeight(u, NewNot(s.operands[m - 1]), w);
    } else {
      LastTwoWeight(s.operands, w);
      PushOperandWeight(u, NewBin(o.kind, s.operands[m - 1], s.operands[m - 2]), w);
    }
  }

  lemma {:induction false} MergeLeftWeight(s: Stacks, w: Sym -> nat)
    requires MergeLeft(s).Some?
    ensures WeightStacks(MergeLeft(s).value, w) + w(SBin(KLeft)) == WeightStacks(s, w)
    decreases |s.opers|
  {
    if s.opers[|s.opers| - 1] != Binary(KLeft) {
      MergeTopWeight(s, w);
      MergeLeftWeight(MergeTop(s).value, w);
    }
  }

  lemma {:induction false} MergeAllWeight(s: Stacks, w: Sym -> nat)
    ensures WeightStacks(MergeAll(s), w) == WeightStacks(s, w)
    decreases |s.opers|
  {
    if MergeTop(s).Some? {
      MergeTopWeight(s, w);
      MergeAllWeight(MergeTop(s).value, w);
    }
  }

  lemma {:induction false} IncomingWeight(s: Stacks, o: Oper, w: Sym -> nat)
    requires Incoming(s, o).Some?
    ensures WeightStacks(Incoming(s, o).value, w) == WeightStacks(s, w) + w(OperSym(o))
  {
    if s.opers != [] && Rank(s.opers[|s.opers| - 1]) > Rank(o) {
      MergeTopWeight(s, w);
      PushOperWeight(MergeTop(s).value, o, w);
    } else {
      PushOperWeight(s, o, w);
    }
  }

  lemma {:induction false} StepWeight(s: Stacks, t: Token, w: Sym -> nat)
    requires Step(s, t).Some?
    ensures WeightStacks(Step(s, t).value, w) + (if t.TRight? then w(SBin(KLeft)) else 0)
         == WeightStacks(s, w) + WeightToken(t, w)
  {
    match t
    case TAnd => IncomingWeight(s, Binary(KAnd), w);
    case TOr => IncomingWeight(s, Binary(KOr), w);
    case TNot => IncomingWeight(s, Bang, w);
    case TLeft => PushOperWeight(s, Binary(KLeft), w);
    case TRight => MergeLeftWeight(s, w);
    case TTerms(first, more) =>
      TermsTreeWeight(first, more, w);
      PushOperandWeight(s, TermsTree(first, more), w);
  }

  lemma {:induction false} RunWeight(s: Stacks, toks: seq<Token>, w: Sym -> nat)
    requires Run(s, toks).Some?
    ensures WeightStacks(Run(s, toks).value, w) + WeightClosed(toks, w) == WeightStacks(s, w) + WeightInput(toks, w)
    decreases |toks|
  {
    if toks != [] {
      StepWeight(s, toks[0], w);
      RunWeight(Step(s, toks[0]).value, toks[1..], w);
    }
  }

  /** Conservation: whatever is counted, the tree of any accepted input, well
      formed or not, holds exactly what was read, less one open bracket for each
      close bracket. */
  lemma {:induction false} ParseConserves(toks: seq<Token>, w: Sym -> nat)
    requires Parse(toks).Some?
    ensures Weight(Parse(toks).value, w) + WeightClosed(toks, w) == WeightInput(toks, w)
  {
    var s := Run(EMPTY, toks).value;
    RunWeight(EMPTY, toks, w);
    MergeAllWeight(s, w);
    var c := MergeAll(s).operands[0];
    assert MergeAll(s) == PushOperand(EMPTY, c);
    PushOperandWeight(EMPTY, c, w);
  }

  lemma {:induction false} NothingClosed(toks: seq<Token>, w: Sym -> nat)
    requires w(SBin(KLeft)) == 0
    ensures WeightClosed(toks, w) == 0
    decreases |toks|
  {
    if toks != [] { NothingClosed(toks[1..], w); }
  }

  function LeafWeight(x: Sym): nat { if x.SLeaf? then 1 else 0 }
  function BinaryWeight(x: Sym): nat { if x.SBin? then 1 else 0 }

  lemma {:induction false} TreeCounts(c: Cond)
    ensures Weight(c, LeafWeight) == Weight(c, BinaryWeight) + 1
  {
    match c
    case Leaf(_, _) =>
    case Not(_, a) => TreeCounts(a);
    case Bin(_, _, l, r) => TreeCounts(l); TreeCounts(r);
  }

  /** In which order they come is not checked: `a b &&` is read as `a && b`. */
  lemma {:induction false} PostfixAccepted(a: Term, b: Term)
    ensures var toks := [TTerms(a, []), TTerms(b, []), TAnd];
      !IsCondition(toks) && Parse(toks) == Some(NewBin(KAnd, NewLeaf(b), NewLeaf(a)))
  {
    var ta, tb := TTerms(a, []), TTerms(b, []);
    var toks := [ta, tb, TAnd];
    assert toks[1..] == [tb, TAnd] && toks[1..][1..] == [TAnd];
    assert !Grammatical(toks[1..], 0, false);
    assert [] + [NewLeaf(a)] == [NewLeaf(a)] && [NewLeaf(a)] + [NewLeaf(b)] == [NewLeaf(a), NewLeaf(b)];
    RunOne(Stacks([], [NewLeaf(a), NewLeaf(b)]), TAnd);
    var s := Stacks([Binary(KAnd)], [NewLeaf(a), NewLeaf(b)]);
    assert [] + [Binary(KAnd)] == [Binary(KAnd)];
    assert Run(EMPTY, toks) == Some(s);
    LastMerge(s, KAnd, NewLeaf(a), NewLeaf(b));
  }

  lemma {:induction false} LastMerge(s: Stacks, k: Kind, a: Cond, b: Cond)
    requires s == Stacks([Binary(k)], [a, b])
    ensures Finish(s) == Some(NewBin(k, b, a))
  {
    var m := Stacks([], [NewBin(k, b, a)]);
    assert s.opers[..0] == [] && s.operands[..0] + m.operands == m.operands;
    assert MergeTop(s) == Some(m) && MergeTop(m) == None;
    assert MergeAll(s) == MergeAll(m) == m;
  }

  // ----- Exactly which inputs are accepted -----

  /* How many operators of two operands, brackets included. */
  function Binaries(opers: seq<Oper>): nat
    decreases |opers|
  {
    if opers == [] then 0 else Binaries(opers[..|opers| - 1]) + if opers[|opers| - 1].Bang? then 0 else 1
  }

  /* The operators above the nearest open bracket. */
  function Above(opers: seq<Oper>): seq<Oper>
    decreases |opers|
  {
    var n := |opers|;
    if n == 0 || opers[n - 1] == Binary(KLeft) then [] else Above(opers[..n - 1]) + [opers[n - 1]]
  }

  /* Enough operands to merge all these operators. */
  predicate Enough(opers: seq<Oper>, operands: nat) { opers == [] || operands > Binaries(opers) }

  lemma {:induction false} MergeTopIff(s: Stacks)
    ensures MergeTop(s).Some? <==> s.opers != [] && Enough(s.opers[|s.opers| - 1..], |s.operands|)
    ensures MergeTop(s).Some? ==> var t := MergeTop(s).value;
      t.opers == s.opers[..|s.opers| - 1] && |t.operands| + Binaries(s.opers[|s.opers| - 1..]) == |s.operands|
  {
    if s.opers != [] { LastBinary(s.opers); }
  }

  lemma {:induction false} BinariesPush(opers: seq<Oper>, o: Oper)
    ensures Binaries(opers + [o]) == Binaries(opers) + if o.Bang? then 0 else 1
  {
    assert (opers + [o])[..|opers|] == opers;
  }

  lemma {:induction false} LastBinary(opers: seq<Oper>)
    requires opers != []
    ensures Binaries(opers[|opers| - 1..]) == if opers[|opers| - 1].Bang? then 0 else 1
    ensures Binaries(opers) == Binaries(opers[..|opers| - 1]) + Binaries(opers[|opers| - 1..])
  {
    var top := opers[|opers| - 1..];
    assert top == [] + [opers[|opers| - 1]];
    BinariesPush([], opers[|opers| - 1]);
  }

  lemma {:induction false} MergeLeftIff(s: Stacks)
    ensures MergeLeft(s).Some? <==> Depth(s.opers) > 0 && Enough(Above(s.opers), |s.operands|)
    decreases |s.opers|
  {
    var n := |s.opers|;
    if n > 0 && s.opers[n - 1] != Binary(KLeft) {
      MergeTopIff(s);
      LastBinary(s.opers);
      BinariesPush(Above(s.opers[..n - 1]), s.opers[n - 1]);
      if MergeTop(s).Some? { MergeLeftIff(MergeTop(s).value); }
    }
  }

  lemma {:induction false} FinishIff(s: Stacks)
    ensures Finish(s).Some? <==> |s.operands| == Binaries(s.opers) + 1
    decreases |s.opers|
  {
    MergeTopIff(s);
    if s.opers != [] { LastBinary(s.opers); }
    if MergeTop(s).Some? { FinishIff(MergeTop(s).value); }
  }

  /* Whether the parser gives up at the token. */
  predicate GivesUp(s: Stacks, t: Token) {
    match t
    case TBad => true
    case TRight => Depth(s.opers) == 0 || !Enough(Above(s.opers), |s.operands|)
    case TLeft => false
    case TTerms(_, _) => false
    case _ =>
      var rank := if t == TOr then 1 else if t == TAnd then 2 else 3;
      s.opers != [] && Rank(s.opers[|s.opers| - 1]) > rank && !Enough(s.opers[|s.opers| - 1..], |s.operands|)
  }

  lemma {:induction false} StepIff(s: Stacks, t: Token)
    ensures Step(s, t).None? <==> GivesUp(s, t)
  {
    MergeTopIff(s);
    MergeLeftIff(s);
  }

  /* The parser gives up somewhere. */
  predicate GivesUpIn(s: Stacks, toks: seq<Token>)
    decreases |toks|
  {
    toks != [] && (GivesUp(s, toks[0]) || (Step(s, toks[0]).Some? && GivesUpIn(Step(s, toks[0]).value, toks[1..])))
  }

  lemma {:induction false} RunIff(s: Stacks, toks: seq<Token>)
    ensures Run(s, toks).None? <==> GivesUpIn(s, toks)
    ensures TBad in toks ==> GivesUpIn(s, toks)
    decreases |toks|
  {
    if toks != [] {
      StepIff(s, toks[0]);
      if Step(s, toks[0]).Some? { RunIff(Step(s, toks[0]).value, toks[1..]); }
    }
  }

  lemma {:induction false} OperandCounts(s: seq<Cond>)
    ensures WeightOperands(s, LeafWeight) == WeightOperands(s, BinaryWeight) + |s|
    decreases |s|
  {
    if s != [] {
      OperandCounts(s[..|s| - 1]);
      TreeCounts(s[|s| - 1]);
    }
  }

  lemma {:induction false} OperCounts(s: seq<Oper>)
    ensures WeightOpers(s, BinaryWeight) == Binaries(s) && WeightOpers(s, LeafWeight) == 0
    decreases |s|
  {
    if s != [] { OperCounts(s[..|s| - 1]); }
  }

  /** An input is accepted exactly if the parser gives up at no token and the input has one
      leaf more than binary operators and brackets left open; it gives up at a bad token, at a
      closing bracket without an opening one, and where too few operands are there to merge. */
  lemma {:induction false} AcceptedIff(toks: seq<Token>)
    ensures Parse(toks).Some? <==>
      !GivesUpIn(EMPTY, toks) && WeightInput(toks, LeafWeight) + WeightClosed(toks, BinaryWeight) == WeightInput(toks, BinaryWeight) + 1
    ensures TBad in toks ==> Parse(toks).None?
  {
    RunIff(EMPTY, toks);
    if Run(EMPTY, toks).Some? {
      var s := Run(EMPTY, toks).value;
      FinishIff(s);
      RunWeight(EMPTY, toks, LeafWeight);
      RunWeight(EMPTY, toks, BinaryWeight);
      NothingClosed(toks, LeafWeight);
      OperandCounts(s.operands);
      OperCounts(s.opers);
    }
  }

  // ----- Parsed trees never reject -----

  predicate NewStacks(s: Stacks) { forall i :: 0 <= i < |s.operands| ==> New(s.operands[i]) }

  lemma {:induction false} MergeTopNew(s: Stacks)
    requires NewStacks(s) && MergeTop(s).Some?
    ensures NewStacks(MergeTop(s).value)
  {
  }

  lemma {:induction false} MergeLeftNew(s: Stacks)
    requires NewStacks(s) && MergeLeft(s).Some?
    ensures NewStacks(MergeLeft(s).value)
    decreases |s.opers|
  {
    if s.opers[|s.opers| - 1] != Binary(KLeft) {
      MergeTopNew(s);
      MergeLeftNew(MergeTop(s).value);
    }
  }

  lemma {:induction false} MergeAllNew(s: Stacks)
    requires NewStacks(s)
    ensures NewStacks(MergeAll(s))
    decreases |s.opers|
  {
    if MergeTop(s).Some? {
      MergeTopNew(s);
      MergeAllNew(MergeTop(s).value);
    }
  }

  lemma {:induction false} TermsNew(first: Term, more: seq<Term>)
    ensures New(TermsTree(first, more))
    decreases |more|
  {
    if more != [] { TermsNew(first, more[..|more| - 1]); }
  }

  lemma {:induction false} StepNew(s: Stacks, t: Token)
    requires NewStacks(s) && Step(s, t).Some?
    ensures NewStacks(Step(s, t).value)
  {
    if MergeTop(s).Some? { MergeTopNew(s); }
    if t.TRight? { MergeLeftNew(s); }
    if t.TTerms? { TermsNew(t.first, t.more); }
  }

  lemma {:induction false} RunNew(s: Stacks, toks: seq<Token>)
    requires NewStacks(s) && Run(s, toks).Some?
    ensures NewStacks(Run(s, toks).value)
    decreases |toks|
  {
    if toks != [] {
      StepNew(s, toks[0]);
      RunNew(Step(s, toks[0]).value, toks[1..]);
    }
  }

  lemma {:induction false} ParsedIsNew(toks: seq<Token>)
    requires Parse(toks).Some?
    ensures New(Parse(toks).value) && Clean(Parse(toks).value)
  {
    RunNew(EMPTY, toks);
    MergeAllNew(Run(EMPTY, toks).value);
    NewIsClean(Parse(toks).value);
  }

  /** What the parser returns, for any accepted input, stores no DP_REJECT, and no
      run of evaluations and resets ever makes it yield one: each evaluation is the
      minimum and maximum over the leaves. */
  lemma {:induction false} ParsedNeverRejects(toks: seq<Token>, acts: seq<Action>, env: Env)
    requires Parse(toks).Some?
    ensures var c := After(Parse(toks).value, acts);
      Clean(c) && Eval(c, env).value != DP_REJECT && Eval(c, env).value == Val(c, Verdicts(env))
  {
    ParsedIsNew(toks);
    NeverRejects(Parse(toks).value, acts, env);
  }

  // ----- Grammatical input is accepted, and in order -----

  /* A condition read left to right with the brackets dropped. */
  function TermsReading(first: Term, more: seq<Term>): seq<Sym>
    decreases |more|
  {
    if more == [] then [SLeaf(first)]
    else TermsReading(first, more[..|more| - 1]) + [SBin(KAnd), SLeaf(more[|more| - 1])]
  }

  function TokenReading(t: Token): seq<Sym> {
    match t
    case TAnd => [SBin(KAnd)]
    case TOr => [SBin(KOr)]
    case TNot => [SNot]
    case TTerms(first, more) => TermsReading(first, more)
    case _ => []
  }

  function InputReading(toks: seq<Token>): seq<Sym>
    decreases |toks|
  {
    if toks == [] then [] else TokenReading(toks[0]) + InputReading(toks[1..])
  }

  /* A tree read with the children of every binary node swapped. */
  function Reading(c: Cond): seq<Sym> {
    match c
    case Leaf(_, t) => [SLeaf(t)]
    case Not(_, a) => [SNot] + Reading(a)
    case Bin(k, _, l, r) => Reading(r) + [SBin(k)] + Reading(l)
  }

  /* Operands alternate with binary operators, "!" and "(" come before operands,
     and brackets match; `depth` brackets are open. */
  predicate Grammatical(toks: seq<Token>, depth: nat, wantOperand: bool)
    decreases |toks|
  {
    if toks == [] then !wantOperand && depth == 0
    else
      var rest := toks[1..];
      match toks[0]
      case TNot => wantOperand && Grammatical(rest, depth, true)
      case TLeft => wantOperand && Grammatical(rest, depth + 1, true)
      case TTerms(_, _) => wantOperand && Grammatical(rest, depth, false)
      case TRight => !wantOperand && depth > 0 && Grammatical(rest, depth - 1, false)
      case TBad => false
      case _ => !wantOperand && Grammatical(rest, depth, true)
  }

  predicate IsCondition(toks: seq<Token>) { Grammatical(toks, 0, true) }

  /* Stacks waiting for an operand: one operand below each pending && or ||. */
  predicate Waiting(opers: seq<Oper>, operands: seq<Cond>)
    decreases |opers|
  {
    if opers == [] then operands == []
    else
      var n := |opers|;
      match opers[n - 1]
      case Binary(KLeft) => Waiting(opers[..n - 1], operands)
      case Bang => Waiting(opers[..n - 1], operands)
      case _ => operands != [] && Waiting(opers[..n - 1], operands[..|operands| - 1])
  }

  /* What such stacks have read so far. */
  function WaitingReading(opers: seq<Oper>, operands: seq<Cond>): seq<Sym>
    requires Waiting(opers, operands)
    decreases |opers|
  {
    if opers == [] then []
    else
      var n, m := |opers|, |operands|;
      match opers[n - 1]
      case Binary(KLeft) => WaitingReading(opers[..n - 1], operands)
      case Bang => WaitingReading(opers[..n - 1], operands) + [SNot]
      case Binary(k) => WaitingReading(opers[..n - 1], operands[..m - 1]) + Reading(operands[m - 1]) + [SBin(k)]
  }

  function Depth(opers: seq<Oper>): nat
    decreases |opers|
  {
    if opers == [] then 0
    else Depth(opers[..|opers| - 1]) + (if opers[|opers| - 1] == Binary(KLeft) then 1 else 0)
  }

  /* The operand just read sits on top. */
  predicate Holding(s: Stacks) { s.operands != [] && Waiting(s.opers, s.operands[..|s.operands| - 1]) }

  predicate InState(s: Stacks, wantOperand: bool) {
    if wantOperand then Waiting(s.opers, s.operands) else Holding(s)
  }

  function StateReading(s: Stacks, wantOperand: bool): seq<Sym>
    requires InState(s, wantOperand)
  {
    if wantOperand then WaitingReading(s.opers, s.operands)
    else
      var m := |s.operands|;
      WaitingReading(s.opers, s.operands[..m - 1]) + Reading(s.operands[m - 1])
  }

  lemma {:induction false} TermsTreeReading(first: Term, more: seq<Term>)
    ensures Reading(TermsTree(first, more)) == TermsReading(first, more)
    decreases |more|
  {
    if more != [] {
      TermsTreeReading(first, more[..|more| - 1]);
    }
  }

  lemma {:induction false} MergeBangKeeps(s: Stacks)
    requires Holding(s) && s.opers != [] && s.opers[|s.opers| - 1].Bang?
    ensures MergeTop(s).Some?
    ensures var t := MergeTop(s).value; Holding(t) && StateReading(t, false) == StateReading(s, false)
  {
    var t := MergeTop(s).value;
    assert t.operands[..|t.operands| - 1] == s.operands[..|s.operands| - 1];
  }

  lemma {:induction false} Regroup(w: seq<Sym>, a: seq<Sym>, k: Sym, b: seq<Sym>)
    ensures w + a + [k] + b == w + (a + [k] + b)
  {
  }

  lemma {:induction false} MergeBinaryKeeps(s: Stacks)
    requires Holding(s) && s.opers != [] && !s.opers[|s.opers| - 1].Bang? && s.opers[|s.opers| - 1] != Binary(KLeft)
    ensures MergeTop(s).Some?
    ensures var t := MergeTop(s).value; Holding(t) && StateReading(t, false) == StateReading(s, false)
  {
    var n, m := |s.opers|, |s.operands|;
    var opers, init := s.opers[..n - 1], s.operands[..m - 1];
    assert init != [] && init[..m - 2] == s.operands[..m - 2];
    var l, r := s.operands[m - 2], s.operands[m - 1];
    var k := s.opers[n - 1].kind;
    var t := MergeTop(s).value;
    assert t == Stacks(opers, s.operands[..m - 2] + [NewBin(k, r, l)]);
    assert t.operands[..m - 2] == s.operands[..m - 2];
    Regroup(WaitingReading(opers, s.operands[..m - 2]), Reading(l), SBin(k), Reading(r));
  }

  lemma {:induction false} MergeTopKeeps(s: Stacks)
    requires Holding(s) && s.opers != [] && s.opers[|s.opers| - 1] != Binary(KLeft)
    ensures MergeTop(s).Some?
    ensures var t := MergeTop(s).value;
      Holding(t) && Depth(t.opers) == Depth(s.opers) && StateReading(t, false) == StateReading(s, false)
  {
    if s.opers[|s.opers| - 1].Bang? { MergeBangKeeps(s); } else { MergeBinaryKeeps(s); }
  }

  lemma {:induction false} MergeLeftKeeps(s: Stacks)
    requires Holding(s) && Depth(s.opers) > 0
    ensures MergeLeft(s).Some?
    ensures var t := MergeLeft(s).value;
      Holding(t) && Depth(t.opers) == Depth(s.opers) - 1 && StateReading(t, false) == StateReading(s, false)
    decreases |s.opers|
  {
    if s.opers[|s.opers| - 1] != Binary(KLeft) {
      MergeTopKeeps(s);
      MergeLeftKeeps(MergeTop(s).value);
    }
  }

  lemma {:induction false} MergeAllKeeps(s: Stacks)
    requires Holding(s) && Depth(s.opers) == 0
    ensures var t := MergeAll(s);
      t.opers == [] && |t.operands| == 1 && Reading(t.operands[0]) == StateReading(s, false)
    decreases |s.opers|
  {
    if s.opers == [] {
      assert s.operands[..|s.operands| - 1] == [];
    } else {
      MergeTopKeeps(s);
      MergeAllKeeps(MergeTop(s).value);
    }
  }

  lemma {:induction false} PushAfterKeeps(s: Stacks, o: Oper)
    requires Holding(s) && (o == Binary(KAnd) || o == Binary(KOr))
    ensures var t := PushOper(s, o);
      InState(t, true) && Depth(t.opers) == Depth(s.opers) &&
      StateReading(t, true) == StateReading(s, false) + [OperSym(o)]
  {
    var t := PushOper(s, o);
    assert t.opers[..|t.opers| - 1] == s.opers;
  }

  lemma {:induction false} PushBinaryKeeps(s: Stacks, o: Oper)
    requires Holding(s) && (o == Binary(KAnd) || o == Binary(KOr))
    ensures Incoming(s, o).Some?
    ensures var t := Incoming(s, o).value;
      InState(t, true) && Depth(t.opers) == Depth(s.opers) &&
      StateReading(t, true) == StateReading(s, false) + [OperSym(o)]
  {
    if s.opers != [] && Rank(s.opers[|s.opers| - 1]) > Rank(o) {
      MergeTopKeeps(s);
      PushAfterKeeps(MergeTop(s).value, o);
    } else {
      PushAfterKeeps(s, o);
    }
  }

  lemma {:induction false} PushPrefixKeeps(s: Stacks, o: Oper)
    requires InState(s, true) && (o == Bang || o == Binary(KLeft))
    ensures var t := PushOper(s, o);
      InState(t, true) && Depth(t.opers) == Depth(s.opers) + (if o.Bang? then 0 else 1) &&
      StateReading(t, true) == StateReading(s, true) + (if o.Bang? then [SNot] else [])
  {
    assert (s.opers + [o])[..|s.opers|] == s.opers;
  }

  lemma {:induction false} PushTermsKeeps(s: Stacks, first: Term, more: seq<Term>)
    requires InState(s, true)
    ensures var t := PushOperand(s, TermsTree(first, more));
      InState(t, false) && StateReading(t, false) == StateReading(s, true) + TermsReading(first, more)
  {
    TermsTreeReading(first, more);
    assert (s.operands + [TermsTree(first, more)])[..|s.operands|] == s.operands;
  }

  lemma {:induction false} StepKeeps(s: Stacks, t: Token, wantOperand: bool)
    requires InState(s, wantOperand)
    requires if wantOperand then t.TNot? || t.TLeft? || t.TTerms? else t.TAnd? || t.TOr? || (t.TRight? && Depth(s.opers) > 0)
    ensures Step(s, t).Some?
    ensures var s' := Step(s, t).value;
      var want' := t.TNot? || t.TLeft? || t.TAnd? || t.TOr?;
      InState(s', want') &&
      StateReading(s', want') == StateReading(s, wantOperand) + TokenReading(t) &&
      Depth(s'.opers) == Depth(s.opers) + (if t.TLeft? then 1 else if t.TRight? then -1 else 0)
  {
    match t
    case TAnd => PushBinaryKeeps(s, Binary(KAnd));
    case TOr => PushBinaryKeeps(s, Binary(KOr));
    case TNot => PushPrefixKeeps(s, Bang);
    case TLeft => PushPrefixKeeps(s, Binary(KLeft));
    case TRight => MergeLeftKeeps(s);
    case TTerms(first, more) => PushTermsKeeps(s, first, more);
  }

  lemma {:induction false} RunKeeps(s: Stacks, toks: seq<Token>, wantOperand: bool)
    requires InState(s, wantOperand) && Grammatical(toks, Depth(s.opers), wantOperand)
    ensures Run(s, toks).Some?
    ensures var t := Run(s, toks).value;
      Holding(t) && Depth(t.opers) == 0 && StateReading(t, false) == StateReading(s, wantOperand) + InputReading(toks)
    decreases |toks|
  {
    if toks != [] {
      var t := toks[0];
      StepKeeps(s, t, wantOperand);
      var want := t.TNot? || t.TLeft? || t.TAnd? || t.TOr?;
      assert Grammatical(toks[1..], Depth(Step(s, t).value.opers), want);
      RunKeeps(Step(s, t).value, toks[1..], want);
      Associative(StateReading(s, wantOperand), TokenReading(t), InputReading(toks[1..]));
    }
  }

  /** Every grammatical condition is accepted, and its tree, read with the
      children of each binary node swapped, gives back the input in order with
      the brackets dropped. */
  lemma {:induction false} GrammaticalAccepted(toks: seq<Token>)
    requires IsCondition(toks)
    ensures Parse(toks).Some?
    ensures Reading(Parse(toks).value) == InputReading(toks)
  {
    RunKeeps(EMPTY, toks, true);
    MergeAllKeeps(Run(EMPTY, toks).value);
  }
}
