/**
 What the parser of lsbatch/daemons/mbd.dep.c makes of a well-formed condition,
 compared with the usual reading: "!" binds tighter than "&&", "&&" tighter than
 "||".

 The parser merges at most one pending operator when a lower-ranking one
 arrives, so it does not always agree with the usual reading.  `Agrees` proves
 exactly when it does.
 */
module DepGrammar {
  import opened Common
  import opened DepTerms
  import opened DepCond
  import opened DepParser

  // ----- Conditions by the usual grammar -----

  datatype Atom = Terms(first: Term, more: seq<Term>) | Paren(e: Expr)
  datatype Unary = Unary(bangs: nat, atom: Atom)
  datatype Conj = One(u: Unary) | And(u: Unary, rest: Conj)
  datatype Expr = Single(c: Conj) | Or(c: Conj, rest: Expr)

  function Bangs(k: nat): seq<Token> { if k == 0 then [] else [TNot] + Bangs(k - 1) }

  function PrintAtom(a: Atom): seq<Token> {
    match a
    case Terms(first, more) => [TTerms(first, more)]
    case Paren(e) => [TLeft] + Print(e) + [TRight]
  }

  function PrintUnary(u: Unary): seq<Token> { Bangs(u.bangs) + PrintAtom(u.atom) }

  function PrintConj(c: Conj): seq<Token> {
    match c
    case One(u) => PrintUnary(u)
    case And(u, rest) => PrintUnary(u) + [TAnd] + PrintConj(rest)
  }

  function Print(e: Expr): seq<Token> {
    match e
    case Single(c) => PrintConj(c)
    case Or(c, rest) => PrintConj(c) + [TOr] + Print(rest)
  }

  // ----- The usual reading -----

  function NotTimes(k: nat, c: Cond): Cond { if k == 0 then c else NewNot(NotTimes(k - 1, c)) }

  function UsualTerms(first: Term, more: seq<Term>): Cond
    decreases |more|
  {
    if more == [] then NewLeaf(first)
    else NewBin(KAnd, UsualTerms(first, more[..|more| - 1]), NewLeaf(more[|more| - 1]))
  }

  function UsualAtom(a: Atom): Cond {
    match a
    case Terms(first, more) => UsualTerms(first, more)
    case Paren(e) => Usual(e)
  }

  function UsualUnary(u: Unary): Cond { NotTimes(u.bangs, UsualAtom(u.atom)) }

  function UsualConj(c: Conj): Cond {
    match c
    case One(u) => UsualUnary(u)
    case And(u, rest) => NewBin(KAnd, UsualUnary(u), UsualConj(rest))
  }

  function Usual(e: Expr): Cond {
    match e
    case Single(c) => UsualConj(c)
    case Or(c, rest) => NewBin(KOr, UsualConj(c), Usual(rest))
  }

  // ----- The condition under which the parser agrees with it -----

  /* How many operators of a conjunction are still pending when it ends. */
  function Pending(c: Conj): nat {
    match c
    case One(u) => u.bangs
    case And(u, rest) => (if u.bangs <= 1 then 1 else u.bangs) + Pending(rest)
  }

  /* Before each "&&" and before each "||" at most one pending operator outranks it. */
  predicate SafeAtom(a: Atom) { a.Paren? ==> Safe(a.e) }

  predicate SafeConj(c: Conj) {
    match c
    case One(u) => SafeAtom(u.atom)
    case And(u, rest) => u.bangs <= 1 && SafeAtom(u.atom) && SafeConj(rest)
  }

  predicate Safe(e: Expr) {
    match e
    case Single(c) => SafeConj(c)
    case Or(c, rest) => Pending(c) <= 1 && SafeConj(c) && Safe(rest)
  }

  // ----- Printed conditions are grammatical -----

  lemma {:induction false} BangsGrammatical(k: nat, rest: seq<Token>, d: nat)
    requires Grammatical(rest, d, true)
    ensures Grammatical(Bangs(k) + rest, d, true)
    decreases k
  {
    if k == 0 {
      assert Bangs(k) + rest == rest;
    } else {
      BangsGrammatical(k - 1, rest, d);
      assert (Bangs(k) + rest)[1..] == Bangs(k - 1) + rest;
    }
  }

  lemma {:induction false} UnaryGrammatical(u: Unary, rest: seq<Token>, d: nat)
    requires Grammatical(rest, d, false)
    ensures Grammatical(PrintUnary(u) + rest, d, true)
    decreases u
  {
    var toks := PrintAtom(u.atom) + rest;
    match u.atom {
      case Terms(first, more) =>
        assert toks[1..] == rest;
      case Paren(e) =>
        assert ([TRight] + rest)[1..] == rest;
        ExprGrammatical(e, [TRight] + rest, d + 1);
        assert toks[1..] == Print(e) + ([TRight] + rest);
    }
    BangsGrammatical(u.bangs, toks, d);
    assert PrintUnary(u) + rest == Bangs(u.bangs) + toks;
  }

  lemma {:induction false} ConjGrammatical(c: Conj, rest: seq<Token>, d: nat)
    requires Grammatical(rest, d, false)
    ensures Grammatical(PrintConj(c) + rest, d, true)
    decreases c
  {
    match c
    case One(u) => UnaryGrammatical(u, rest, d);
    case And(u, r) =>
      ConjGrammatical(r, rest, d);
      var tail := [TAnd] + (PrintConj(r) + rest);
      assert tail[1..] == PrintConj(r) + rest;
      UnaryGrammatical(u, tail, d);
      assert PrintConj(c) + rest == PrintUnary(u) + tail;
  }

  lemma {:induction false} ExprGrammatical(e: Expr, rest: seq<Token>, d: nat)
    requires Grammatical(rest, d, false)
    ensures Grammatical(Print(e) + rest, d, true)
    decreases e
  {
    match e
    case Single(c) => ConjGrammatical(c, rest, d);
    case Or(c, r) =>
      ExprGrammatical(r, rest, d);
      var tail := [TOr] + (Print(r) + rest);
      assert tail[1..] == Print(r) + rest;
      ConjGrammatical(c, tail, d);
      assert Print(e) + rest == PrintConj(c) + tail;
  }

  lemma {:induction false} PrintAccepted(e: Expr)
    ensures IsCondition(Print(e)) && Parse(Print(e)).Some?
    ensures Level(Run(EMPTY, Print(e)))
  {
    ExprGrammatical(e, [], 0);
    assert Print(e) + [] == Print(e);
    GrammaticalAccepted(Print(e));
    RunKeeps(EMPTY, Print(e), true);
  }

  function ParsedTree(e: Expr): Cond { PrintAccepted(e); Parse(Print(e)).value }

  // ----- Stacks on top of other stacks -----

  /* An operand on top and no open bracket. */
  predicate Level(s: Option<Stacks>) { s.Some? && Holding(s.value) && Depth(s.value.opers) == 0 }

  function Join(base: Stacks, s: Stacks): Stacks { Stacks(base.opers + s.opers, base.operands + s.operands) }

  /* Incoming operators never reach below the top stacks. */
  predicate Framed(base: Stacks, s: Stacks) {
    base.opers == [] || Rank(base.opers[|base.opers| - 1]) <= 1 || (s.opers != [] && s.opers[0] != Binary(KLeft))
  }

  lemma {:induction false} FrameMergeTop(base: Stacks, s: Stacks)
    requires MergeTop(s).Some?
    ensures MergeTop(Join(base, s)) == Some(Join(base, MergeTop(s).value))
  {
    var n, m := |s.opers|, |s.operands|;
    var j := Join(base, s);
    assert j.opers[..|j.opers| - 1] == base.opers + s.opers[..n - 1];
    if s.opers[n - 1].Bang? {
      var c := NewNot(s.operands[m - 1]);
      assert j.operands[..|j.operands| - 1] + [c] == base.operands + (s.operands[..m - 1] + [c]);
    } else {
      var c := NewBin(s.opers[n - 1].kind, s.operands[m - 1], s.operands[m - 2]);
      assert j.operands[..|j.operands| - 2] + [c] == base.operands + (s.operands[..m - 2] + [c]);
    }
  }

  lemma {:induction false} FrameMergeLeft(base: Stacks, s: Stacks)
    requires MergeLeft(s).Some?
    ensures MergeLeft(Join(base, s)) == Some(Join(base, MergeLeft(s).value))
    ensures s.opers[0] != Binary(KLeft) ==>
      var t := MergeLeft(s).value; t.opers != [] && t.opers[0] == s.opers[0]
    decreases |s.opers|
  {
    var n := |s.opers|;
    var j := Join(base, s);
    if s.opers[n - 1] == Binary(KLeft) {
      assert j.opers[..|j.opers| - 1] == base.opers + s.opers[..n - 1];
    } else {
      FrameMergeTop(base, s);
      FrameMergeLeft(base, MergeTop(s).value);
    }
  }

  lemma {:induction false} FrameIncoming(base: Stacks, s: Stacks, o: Oper)
    requires Framed(base, s) && Incoming(s, o).Some? && Rank(o) > 0
    ensures Incoming(Join(base, s), o) == Some(Join(base, Incoming(s, o).value))
    ensures Framed(base, Incoming(s, o).value)
  {
    var u := s;
    if s.opers != [] && Rank(s.opers[|s.opers| - 1]) > Rank(o) {
      FrameMergeTop(base, s);
      u := MergeTop(s).value;
    }
    assert base.opers + u.opers + [o] == base.opers + (u.opers + [o]);
  }

  lemma {:induction false} FrameStep(base: Stacks, s: Stacks, t: Token)
    requires Framed(base, s) && Step(s, t).Some?
    ensures Step(Join(base, s), t) == Some(Join(base, Step(s, t).value))
    ensures Framed(base, Step(s, t).value)
  {
    match t
    case TRight => FrameMergeLeft(base, s);
    case TAnd => FrameIncoming(base, s, Binary(KAnd));
    case TOr => FrameIncoming(base, s, Binary(KOr));
    case TNot => FrameIncoming(base, s, Bang);
    case TLeft => assert base.opers + s.opers + [Binary(KLeft)] == base.opers + (s.opers + [Binary(KLeft)]);
    case TTerms(first, more) =>
      var c := TermsTree(first, more);
      assert base.operands + s.operands + [c] == base.operands + (s.operands + [c]);
  }

  lemma {:induction false} FrameRun(base: Stacks, s: Stacks, toks: seq<Token>)
    requires Framed(base, s) && Run(s, toks).Some?
    ensures Run(Join(base, s), toks) == Some(Join(base, Run(s, toks).value))
    decreases |toks|
  {
    if toks != [] {
      FrameStep(base, s, toks[0]);
      FrameRun(base, Step(s, toks[0]).value, toks[1..]);
    }
  }

  // ----- Collapsing a level -----

  function Collapse(s: Stacks): Cond
    requires Level(Some(s))
  {
    MergeAllKeeps(s);
    MergeAll(s).operands[0]
  }

  /* One pending operator below a level. */
  function Below(o: Oper, x: Cond): Stacks { Stacks([o], if o.Bang? then [] else [x]) }
  function Wrap(o: Oper, x: Cond, t: Cond): Cond { if o.Bang? then NewNot(t) else NewBin(o.kind, t, x) }

  lemma {:induction false} CollapseOne(o: Oper, x: Cond, t: Cond)
    requires o != Binary(KLeft)
    ensures var j := Join(Below(o, x), Stacks([], [t])); MergeAll(j) == Stacks([], [Wrap(o, x, t)])
  {
    var b := Below(o, x);
    var j := Join(b, Stacks([], [t]));
    assert j == Stacks([o], b.operands + [t]);
    assert j.opers[..0] == [] && j.operands[..0] == [];
    assert j.operands[|b.operands|] == t;
    assert [] + [Wrap(o, x, t)] == [Wrap(o, x, t)];
    assert MergeTop(j) == Some(Stacks([], [Wrap(o, x, t)]));
  }

  lemma {:induction false} MergeAllBelow(o: Oper, x: Cond, s: Stacks)
    requires Level(Some(s)) && o != Binary(KLeft)
    ensures MergeAll(Join(Below(o, x), s)) == Stacks([], [Wrap(o, x, Collapse(s))])
    decreases |s.opers|
  {
    if s.opers == [] {
      assert s == Stacks([], [s.operands[0]]);
      CollapseOne(o, x, s.operands[0]);
    } else {
      MergeTopKeeps(s);
      MergeAllBelow(o, x, MergeTop(s).value);
      FrameMergeTop(Below(o, x), s);
    }
  }

  lemma {:induction false} CollapseBelow(o: Oper, x: Cond, s: Stacks)
    requires Level(Some(s)) && o != Binary(KLeft)
    ensures var j := Join(Below(o, x), s); Level(Some(j)) && Collapse(j) == Wrap(o, x, Collapse(s))
  {
    var b := Below(o, x);
    var j := Join(b, s);
    MergeAllBelow(o, x, s);
    JoinIsLevel(o, x, s.opers, s.operands[..|s.operands| - 1]);
    assert j.operands[..|j.operands| - 1] == b.operands + s.operands[..|s.operands| - 1];
  }

  lemma {:induction false} JoinIsLevel(o: Oper, x: Cond, opers: seq<Oper>, operands: seq<Cond>)
    requires Waiting(opers, operands) && Depth(opers) == 0 && o != Binary(KLeft)
    ensures var b := Below(o, x); Waiting(b.opers + opers, b.operands + operands) && Depth(b.opers + opers) == 0
    decreases |opers|
  {
    var b := Below(o, x);
    var n, m := |opers|, |operands|;
    if n == 0 {
      assert b.opers + opers == [o] && b.operands + operands == b.operands;
    } else {
      assert (b.opers + opers)[..n] == b.opers + opers[..n - 1];
      if opers[n - 1].Bang? {
        JoinIsLevel(o, x, opers[..n - 1], operands);
      } else {
        assert (b.operands + operands)[..|b.operands| + m - 1] == b.operands + operands[..m - 1];
        JoinIsLevel(o, x, opers[..n - 1], operands[..m - 1]);
      }
    }
  }

  lemma {:induction false} WaitingTail(o: Oper, opers: seq<Oper>, operands: seq<Cond>)
    requires Waiting([o] + opers, operands) && Depth([o] + opers) == 0
    ensures o != Binary(KLeft) && Depth(opers) == 0
    ensures if o.Bang? then Waiting(opers, operands) else operands != [] && Waiting(opers, operands[1..])
    decreases |opers|
  {
    var n, m := |opers|, |operands|;
    var all := [o] + opers;
    if n == 0 {
      assert all[..0] == [];
    } else {
      assert all[..n] == [o] + opers[..n - 1];
      if opers[n - 1].Bang? {
        WaitingTail(o, opers[..n - 1], operands);
      } else {
        WaitingTail(o, opers[..n - 1], operands[..m - 1]);
        if !o.Bang? { assert operands[..m - 1][1..] == operands[1..][..m - 2]; }
      }
    }
  }

  // ----- Running the parser over the pieces of a condition -----

  function BangOpers(k: nat): seq<Oper> { if k == 0 then [] else BangOpers(k - 1) + [Bang] }

  lemma {:induction false} BangOpersFront(k: nat)
    requires k > 0
    ensures BangOpers(k) == [Bang] + BangOpers(k - 1)
  {
    if k > 1 { BangOpersFront(k - 1); }
  }

  lemma {:induction false} RunBangs(s: Stacks, k: nat)
    ensures Run(s, Bangs(k)) == Some(Stacks(s.opers + BangOpers(k), s.operands))
    decreases k
  {
    if k == 0 {
      assert s.opers + BangOpers(k) == s.opers;
    } else {
      RunBangs(PushOper(s, Bang), k - 1);
      BangOpersFront(k);
      assert s.opers + [Bang] + BangOpers(k - 1) == s.opers + BangOpers(k);
      assert Bangs(k)[1..] == Bangs(k - 1);
    }
  }

  lemma {:induction false} MergeLeftCollapses(s: Stacks, lvl: Stacks)
    requires Level(Some(lvl))
    ensures MergeLeft(Join(PushOper(s, Binary(KLeft)), lvl)) == Some(PushOperand(s, Collapse(lvl)))
    decreases |lvl.opers|
  {
    var base := PushOper(s, Binary(KLeft));
    var j := Join(base, lvl);
    if lvl.opers == [] {
      assert lvl.operands == [lvl.operands[0]];
      assert j.opers == base.opers;
      assert j.opers[..|j.opers| - 1] == s.opers;
    } else {
      MergeTopKeeps(lvl);
      FrameMergeTop(base, lvl);
      MergeLeftCollapses(s, MergeTop(lvl).value);
    }
  }

  function AtomTree(a: Atom): Cond {
    match a
    case Terms(first, more) => TermsTree(first, more)
    case Paren(e) => ParsedTree(e)
  }

  lemma {:induction false} RunAtom(s: Stacks, a: Atom)
    ensures Run(s, PrintAtom(a)) == Some(PushOperand(s, AtomTree(a)))
  {
    match a
    case Terms(first, more) =>
      assert PrintAtom(a)[1..] == [];
    case Paren(e) =>
      var base := PushOper(s, Binary(KLeft));
      PrintAccepted(e);
      var lvl := Run(EMPTY, Print(e)).value;
      FrameRun(base, EMPTY, Print(e));
      assert Join(base, EMPTY) == base;
      MergeLeftCollapses(s, lvl);
      RunAppend(base, Print(e), [TRight]);
      assert PrintAtom(a)[1..] == Print(e) + [TRight];
      RunOne(Join(base, lvl), TRight);
  }

  function UnaryLevel(u: Unary): Stacks { Stacks(BangOpers(u.bangs), [AtomTree(u.atom)]) }

  lemma {:induction false} RunUnary(s: Stacks, u: Unary)
    ensures Run(s, PrintUnary(u)) == Some(Join(s, UnaryLevel(u)))
  {
    RunBangs(s, u.bangs);
    RunAppend(s, Bangs(u.bangs), PrintAtom(u.atom));
    RunAtom(Stacks(s.opers + BangOpers(u.bangs), s.operands), u.atom);
  }

  /* The stacks after an operand with `k` negations and the "&&" behind it. */
  function AndLevel(k: nat, x: Cond): Stacks {
    if k == 0 then Stacks([Binary(KAnd)], [x]) else Stacks(BangOpers(k - 1) + [Binary(KAnd)], [NewNot(x)])
  }

  function AfterAnd(u: Unary): Stacks { AndLevel(u.bangs, AtomTree(u.atom)) }

  predicate AtMostAnd(base: Stacks) { base.opers == [] || Rank(base.opers[|base.opers| - 1]) <= 2 }

  lemma {:induction false} MergeLastBang(base: Stacks, k: nat, x: Cond)
    requires k > 0
    ensures MergeTop(Join(base, Stacks(BangOpers(k), [x]))) == Some(Join(base, Stacks(BangOpers(k - 1), [NewNot(x)])))
  {
    var lvl := Stacks(BangOpers(k), [x]);
    assert lvl.opers[..|lvl.opers| - 1] == BangOpers(k - 1);
    assert lvl.operands[..0] + [NewNot(x)] == [NewNot(x)];
    FrameMergeTop(base, lvl);
  }

  lemma {:induction false} IncomingAnd(base: Stacks, k: nat, x: Cond)
    requires AtMostAnd(base)
    ensures Incoming(Join(base, Stacks(BangOpers(k), [x])), Binary(KAnd)) == Some(Join(base, AndLevel(k, x)))
  {
    var j := Join(base, Stacks(BangOpers(k), [x]));
    if k > 0 {
      MergeLastBang(base, k, x);
      assert j.opers[|j.opers| - 1] == Bang;
      assert base.opers + BangOpers(k - 1) + [Binary(KAnd)] == base.opers + (BangOpers(k - 1) + [Binary(KAnd)]);
    } else {
      assert j.opers == base.opers;
    }
  }

  lemma {:induction false} RunUnaryAnd(base: Stacks, u: Unary)
    requires AtMostAnd(base)
    ensures Run(base, PrintUnary(u) + [TAnd]) == Some(Join(base, AfterAnd(u)))
  {
    RunUnary(base, u);
    RunAppend(base, PrintUnary(u), [TAnd]);
    RunOne(Join(base, UnaryLevel(u)), TAnd);
    IncomingAnd(base, u.bangs, AtomTree(u.atom));
  }

  function ConjLevel(c: Conj): Stacks {
    match c
    case One(u) => UnaryLevel(u)
    case And(u, rest) => Join(AfterAnd(u), ConjLevel(rest))
  }

  lemma {:induction false} JoinAssociative(a: Stacks, b: Stacks, c: Stacks)
    ensures Join(Join(a, b), c) == Join(a, Join(b, c))
  {
    assert a.opers + b.opers + c.opers == a.opers + (b.opers + c.opers);
    assert a.operands + b.operands + c.operands == a.operands + (b.operands + c.operands);
  }

  lemma {:induction false} RunConj(base: Stacks, c: Conj)
    requires AtMostAnd(base)
    ensures Run(base, PrintConj(c)) == Some(Join(base, ConjLevel(c)))
    decreases c
  {
    match c
    case One(u) => RunUnary(base, u);
    case And(u, rest) =>
      RunUnaryAnd(base, u);
      RunAppend(base, PrintUnary(u) + [TAnd], PrintConj(rest));
      RunConj(Join(base, AfterAnd(u)), rest);
      JoinAssociative(base, AfterAnd(u), ConjLevel(rest));
      assert PrintConj(c) == PrintUnary(u) + [TAnd] + PrintConj(rest);
  }

  lemma {:induction false} ConjIsLevel(c: Conj)
    ensures Level(Some(ConjLevel(c)))
    ensures Run(EMPTY, PrintConj(c)) == Some(ConjLevel(c))
  {
    RunConj(EMPTY, c);
    assert Join(EMPTY, ConjLevel(c)) == ConjLevel(c);
    PrintAccepted(Single(c));
  }

  lemma {:induction false} BangOpersLength(k: nat)
    ensures |BangOpers(k)| == k && forall i :: 0 <= i < k ==> BangOpers(k)[i] == Bang
  {
    if k > 0 { BangOpersLength(k - 1); }
  }

  lemma {:induction false} PendingIsPending(c: Conj)
    ensures |ConjLevel(c).opers| == Pending(c)
    ensures forall i :: 0 <= i < |ConjLevel(c).opers| ==> Rank(ConjLevel(c).opers[i]) >= 2
  {
    BangOpersLength(c.u.bangs);
    if c.And? {
      if c.u.bangs > 0 { BangOpersLength(c.u.bangs - 1); }
      PendingIsPending(c.rest);
    }
  }

  lemma {:induction false} CollapseBangs(k: nat, x: Cond)
    ensures Level(Some(Stacks(BangOpers(k), [x]))) && Collapse(Stacks(BangOpers(k), [x])) == NotTimes(k, x)
    decreases k
  {
    if k == 0 {
      assert [x][..0] == [];
    } else {
      CollapseBangs(k - 1, x);
      CollapseBelow(Bang, x, Stacks(BangOpers(k - 1), [x]));
      BangOpersFront(k);
      assert Join(Below(Bang, x), Stacks(BangOpers(k - 1), [x])) == Stacks(BangOpers(k), [x]);
    }
  }

  // ----- When the tree is the usual one -----

  lemma {:induction false} UsualTermsMirror(first: Term, more: seq<Term>)
    ensures Mirror(UsualTerms(first, more)) == TermsTree(first, more)
    decreases |more|
  {
    if more != [] { UsualTermsMirror(first, more[..|more| - 1]); }
  }

  lemma {:induction false} NotTimesMirror(k: nat, c: Cond, d: Cond)
    ensures Mirror(NotTimes(k, c)) == NotTimes(k, Mirror(c))
    ensures NotTimes(k, c) == NotTimes(k, d) <==> c == d
    decreases k
  {
    if k > 0 { NotTimesMirror(k - 1, c, d); }
  }

  lemma {:induction false} AtomAgrees(a: Atom)
    ensures AtomTree(a) == Mirror(UsualAtom(a)) <==> SafeAtom(a)
    decreases a, 0
  {
    match a
    case Terms(first, more) => UsualTermsMirror(first, more);
    case Paren(e) => Agrees(e);
  }

  lemma {:induction false} UnaryAgrees(u: Unary)
    ensures NotTimes(u.bangs, AtomTree(u.atom)) == Mirror(UsualUnary(u)) <==> SafeAtom(u.atom)
    decreases u, 0
  {
    AtomAgrees(u.atom);
    NotTimesMirror(u.bangs, UsualAtom(u.atom), UsualAtom(u.atom));
    NotTimesMirror(u.bangs, AtomTree(u.atom), Mirror(UsualAtom(u.atom)));
  }

  lemma {:induction false} ConjAgrees(c: Conj)
    ensures Level(Some(ConjLevel(c)))
    ensures Collapse(ConjLevel(c)) == Mirror(UsualConj(c)) <==> SafeConj(c)
    decreases c, 0
  {
    ConjIsLevel(c);
    var u := c.u;
    UnaryAgrees(u);
    match c
    case One(_) => CollapseBangs(u.bangs, AtomTree(u.atom));
    case And(_, rest) =>
      ConjAgrees(rest);
      var x := NotTimes(u.bangs, AtomTree(u.atom));
      if u.bangs <= 1 {
        CollapseBelow(Binary(KAnd), x, ConjLevel(rest));
        assert AfterAnd(u) == Below(Binary(KAnd), x) by { BangOpersLength(0); }
      } else {
        ConjStuck(u, rest);
      }
  }

  /* The lowest pending operator of a level ends up at the root. */
  lemma {:induction false} SplitBottom(s: Stacks) returns (x: Cond, t: Stacks)
    requires Level(Some(s)) && s.opers != []
    ensures s.opers[0] != Binary(KLeft)
    ensures s == Join(Below(s.opers[0], x), t) && Level(Some(t))
    ensures Collapse(s) == Wrap(s.opers[0], x, Collapse(t))
  {
    var o, init := s.opers[0], s.operands[..|s.operands| - 1];
    assert s.opers == [o] + s.opers[1..];
    WaitingTail(o, s.opers[1..], init);
    x := if o.Bang? then NewLeaf(WindowTerm(0)) else s.operands[0];
    t := Stacks(s.opers[1..], if o.Bang? then s.operands else s.operands[1..]);
    assert t.operands[..|t.operands| - 1] == if o.Bang? then init else init[1..];
    assert s == Join(Below(o, x), t);
    CollapseBelow(o, x, t);
  }

  /* Two or more "!" before an operand of "&&": one stays below the "&&". */
  lemma {:induction false} ConjStuck(u: Unary, rest: Conj)
    requires u.bangs >= 2
    ensures Level(Some(ConjLevel(And(u, rest)))) && Collapse(ConjLevel(And(u, rest))).Not?
  {
    ConjIsLevel(And(u, rest));
    BangOpersFront(u.bangs - 1);
    var x, t := SplitBottom(ConjLevel(And(u, rest)));
  }

  lemma {:induction false} IncomingOr(lvl: Stacks)
    requires Level(Some(lvl)) && |lvl.opers| <= 1
    requires forall i :: 0 <= i < |lvl.opers| ==> Rank(lvl.opers[i]) >= 2
    ensures Incoming(lvl, Binary(KOr)) == Some(Below(Binary(KOr), Collapse(lvl)))
  {
    var t := lvl;
    if lvl.opers != [] {
      MergeTopKeeps(lvl);
      t := MergeTop(lvl).value;
    }
    assert t.opers == [] && MergeTop(t).None?;
    assert |t.operands| == 1 by { assert t.operands[..|t.operands| - 1] == []; }
    assert MergeAll(lvl) == t;
    assert t == Stacks([], [Collapse(lvl)]);
    assert PushOper(t, Binary(KOr)) == Below(Binary(KOr), Collapse(lvl));
  }

  lemma {:induction false} RunConjOr(c: Conj)
    requires Pending(c) <= 1
    ensures Level(Some(ConjLevel(c)))
    ensures Run(EMPTY, PrintConj(c) + [TOr]) == Some(Below(Binary(KOr), Collapse(ConjLevel(c))))
  {
    ConjIsLevel(c);
    PendingIsPending(c);
    IncomingOr(ConjLevel(c));
    RunAppend(EMPTY, PrintConj(c), [TOr]);
    RunOne(ConjLevel(c), TOr);
  }

  /* Two or more pending operators before "||": the lowest one stays below it. */
  lemma {:induction false} OrStaysAbove(lvl: Stacks) returns (o: Oper, x: Cond, top: Stacks)
    requires Level(Some(lvl)) && |lvl.opers| >= 2
    ensures o != Binary(KLeft) && o == lvl.opers[0]
    ensures Incoming(lvl, Binary(KOr)) == Some(Join(Below(o, x), top))
    ensures InState(top, true) && Depth(top.opers) == 0 && Framed(Below(o, x), top)
  {
    PushBinaryKeeps(lvl, Binary(KOr));
    var t := Incoming(lvl, Binary(KOr)).value;
    assert t.opers[0] == lvl.opers[0] && |t.opers| >= 2;
    o := t.opers[0];
    x, top := SplitWaiting(t);
    NoBracket(top.opers, 0);
  }

  lemma {:induction false} SplitWaiting(t: Stacks) returns (x: Cond, top: Stacks)
    requires InState(t, true) && Depth(t.opers) == 0 && t.opers != []
    ensures t.opers[0] != Binary(KLeft)
    ensures t == Join(Below(t.opers[0], x), top) && top.opers == t.opers[1..]
    ensures InState(top, true) && Depth(top.opers) == 0
  {
    var o := t.opers[0];
    assert t.opers == [o] + t.opers[1..];
    WaitingTail(o, t.opers[1..], t.operands);
    x := if o.Bang? then NewLeaf(WindowTerm(0)) else t.operands[0];
    top := Stacks(t.opers[1..], if o.Bang? then t.operands else t.operands[1..]);
    assert t.operands == Below(o, x).operands + top.operands;
  }

  lemma {:induction false} OrStuck(c: Conj, rest: Expr)
    requires Pending(c) >= 2
    ensures ParsedTree(Or(c, rest)).Not? || (ParsedTree(Or(c, rest)).Bin? && ParsedTree(Or(c, rest)).kind == KAnd)
  {
    var o, x, t := OrStuckRun(c, rest);
    CollapseBelow(o, x, t);
    PrintAccepted(Or(c, rest));
  }

  lemma {:induction false} OrStuckRun(c: Conj, rest: Expr) returns (o: Oper, x: Cond, t: Stacks)
    requires Pending(c) >= 2
    ensures o != Binary(KLeft) && Rank(o) >= 2 && Level(Some(t))
    ensures Run(EMPTY, Print(Or(c, rest))) == Some(Join(Below(o, x), t))
  {
    ConjIsLevel(c);
    PendingIsPending(c);
    var top;
    o, x, top := OrStaysAbove(ConjLevel(c));
    PrintAccepted(rest);
    RunKeeps(top, Print(rest), true);
    t := Run(top, Print(rest)).value;
    FrameRun(Below(o, x), top, Print(rest));
    RunOrThen(c, rest);
  }

  lemma {:induction false} RunOrThen(c: Conj, rest: Expr)
    ensures Run(EMPTY, Print(Or(c, rest))) ==
      (var s := Incoming(ConjLevel(c), Binary(KOr)); if s.None? then None else Run(s.value, Print(rest)))
  {
    ConjIsLevel(c);
    var toks := Print(rest);
    RunAppend(EMPTY, PrintConj(c) + [TOr], toks);
    RunAppend(EMPTY, PrintConj(c), [TOr]);
    RunOne(ConjLevel(c), TOr);
  }

  lemma {:induction false} NoBracket(opers: seq<Oper>, i: nat)
    requires Depth(opers) == 0 && i < |opers|
    ensures opers[i] != Binary(KLeft)
    decreases |opers|
  {
    if i < |opers| - 1 { NoBracket(opers[..|opers| - 1], i); }
  }

  /** The parser builds the mirror image of the usual reading exactly when, at
      every bracket level, no "&&" or "||" arrives while two or more pending
      operators outrank it. */
  lemma {:induction false} Agrees(e: Expr)
    ensures ParsedTree(e) == Mirror(Usual(e)) <==> Safe(e)
    decreases e, 0
  {
    PrintAccepted(e);
    match e
    case Single(c) =>
      ConjIsLevel(c);
      ConjAgrees(c);
    case Or(c, rest) =>
      if Pending(c) >= 2 {
        OrStuck(c, rest);
      } else {
        RunConjOr(c);
        ConjAgrees(c);
        Agrees(rest);
        var base := Below(Binary(KOr), Collapse(ConjLevel(c)));
        PrintAccepted(rest);
        FrameRun(base, EMPTY, Print(rest));
        assert Join(base, EMPTY) == base;
        CollapseBelow(Binary(KOr), Collapse(ConjLevel(c)), Run(EMPTY, Print(rest)).value);
        RunAppend(EMPTY, PrintConj(c) + [TOr], Print(rest));
      }
  }

  /** Under the same condition the parsed tree has the value of the usual reading
      for every valuation of the leaves, and so does every evaluation of it. */
  lemma {:induction false} SafeMeansUsual(e: Expr, lv: (Term, int) -> int, env: Env)
    requires Safe(e)
    ensures Val(ParsedTree(e), lv) == Val(Usual(e), lv)
    ensures Eval(ParsedTree(e), env).value == Val(Usual(e), Verdicts(env))
  {
    Agrees(e);
    MirrorKeepsValue(Usual(e), lv);
    MirrorKeepsValue(Usual(e), Verdicts(env));
    FreshIsClean(Usual(e));
    UsualIsFresh(e);
    MirrorTwice(Usual(e));
    EvalIsMinMax(ParsedTree(e), env);
  }

  // ----- The same condition, on the stacks -----

  /* How many operators above the nearest open bracket outrank `o`. */
  function Outranking(opers: seq<Oper>, o: Oper): nat
    decreases |opers|
  {
    var n := |opers|;
    if n == 0 || opers[n - 1] == Binary(KLeft) then 0
    else Outranking(opers[..n - 1], o) + if Rank(opers[n - 1]) > Rank(o) then 1 else 0
  }

  function OperOf(t: Token): Option<Oper> {
    match t
    case TAnd => Some(Binary(KAnd))
    case TOr => Some(Binary(KOr))
    case TNot => Some(Bang)
    case _ => None
  }

  /* If the token is an operator, it meets at most one stacked one that outranks it. */
  predicate Uncrowded(s: Stacks, t: Token) { OperOf(t).Some? ==> Outranking(s.opers, OperOf(t).value) <= 1 }

  /* So it is for every token of the input, with the stacks that the tokens before leave. */
  ghost predicate NeverCrowded(s: Stacks, toks: seq<Token>) {
    forall n :: 0 <= n < |toks| && Run(s, toks[..n]).Some? ==> Uncrowded(Run(s, toks[..n]).value, toks[n])
  }

  predicate Calm(s: Stacks, toks: seq<Token>)
    decreases |toks|
  {
    toks == [] || (Uncrowded(s, toks[0]) && (Step(s, toks[0]).Some? ==> Calm(Step(s, toks[0]).value, toks[1..])))
  }

  lemma {:induction false} RunFirst(s: Stacks, toks: seq<Token>, n: nat)
    requires 0 < n <= |toks|
    ensures Run(s, toks[..n]) == if Step(s, toks[0]).None? then None else Run(Step(s, toks[0]).value, toks[1..][..n - 1])
  {
    assert toks[..n][1..] == toks[1..][..n - 1];
  }

  lemma {:induction false} CalmIsNeverCrowded(s: Stacks, toks: seq<Token>)
    ensures Calm(s, toks) <==> NeverCrowded(s, toks)
    decreases |toks|
  {
    if toks != [] {
      var t, rest := Step(s, toks[0]), toks[1..];
      assert toks[..0] == [];
      if t.Some? { CalmIsNeverCrowded(t.value, rest); }
      if Calm(s, toks) {
        forall n | 0 < n < |toks| && Run(s, toks[..n]).Some?
          ensures Uncrowded(Run(s, toks[..n]).value, toks[n])
        {
          RunFirst(s, toks, n);
          assert rest[n - 1] == toks[n];
        }
      }
      if NeverCrowded(s, toks) {
        assert Run(s, toks[..0]) == Some(s);
        if t.Some? {
          forall n | 0 <= n < |rest| && Run(t.value, rest[..n]).Some?
            ensures Uncrowded(Run(t.value, rest[..n]).value, rest[n])
          {
            RunFirst(s, toks, n + 1);
            assert rest[n] == toks[n + 1];
          }
        }
      }
    }
  }

  lemma {:induction false} CalmAppend(s: Stacks, a: seq<Token>, b: seq<Token>)
    ensures Calm(s, a + b) <==> Calm(s, a) && (Run(s, a).Some? ==> Calm(Run(s, a).value, b))
    decreases |a|
  {
    if a == [] {
      assert a + b == b;
    } else {
      assert (a + b)[0] == a[0] && (a + b)[1..] == a[1..] + b;
      if Step(s, a[0]).Some? { CalmAppend(Step(s, a[0]).value, a[1..], b); }
    }
  }

  lemma {:induction false} CalmOne(s: Stacks, t: Token)
    ensures Calm(s, [t]) <==> Uncrowded(s, t)
  {
    assert [t][1..] == [];
  }

  lemma {:induction false} CalmThen(s: Stacks, t: Token, rest: seq<Token>)
    ensures Calm(s, [t] + rest) <==> Uncrowded(s, t) && (Step(s, t).Some? ==> Calm(Step(s, t).value, rest))
  {
    assert ([t] + rest)[1..] == rest;
  }

  lemma {:induction false} NothingOutranksBang(opers: seq<Oper>)
    ensures Outranking(opers, Bang) == 0
    decreases |opers|
  {
    if opers != [] { NothingOutranksBang(opers[..|opers| - 1]); }
  }

  lemma {:induction false} OutrankingAnd(opers: seq<Oper>)
    requires Outranking(opers, Binary(KOr)) == 0
    ensures Outranking(opers, Binary(KAnd)) == 0
    decreases |opers|
  {
    if opers != [] && opers[|opers| - 1] != Binary(KLeft) { OutrankingAnd(opers[..|opers| - 1]); }
  }

  lemma {:induction false} OutrankingPush(opers: seq<Oper>, p: Oper, o: Oper)
    ensures Outranking(opers + [p], o) ==
      if p == Binary(KLeft) then 0 else Outranking(opers, o) + if Rank(p) > Rank(o) then 1 else 0
  {
    assert (opers + [p])[..|opers|] == opers;
  }

  /* Operators that all outrank `o`, on top of others. */
  lemma {:induction false} OutrankingTop(base: seq<Oper>, top: seq<Oper>, o: Oper)
    requires forall i :: 0 <= i < |top| ==> Rank(top[i]) > Rank(o)
    ensures Outranking(base + top, o) == Outranking(base, o) + |top|
    decreases |top|
  {
    if top == [] {
      assert base + top == base;
    } else {
      var init := top[..|top| - 1];
      OutrankingTop(base, init, o);
      OutrankingPush(base + init, top[|top| - 1], o);
      assert base + top == base + init + [top[|top| - 1]];
    }
  }

  lemma {:induction false} CalmBang(s: Stacks, rest: seq<Token>)
    requires Calm(PushOper(s, Bang), rest)
    ensures Calm(s, [TNot] + rest)
  {
    NothingOutranksBang(s.opers);
    CalmThen(s, TNot, rest);
    assert Step(s, TNot) == Some(PushOper(s, Bang));
  }

  lemma {:induction false} CalmBangs(s: Stacks, k: nat)
    ensures Calm(s, Bangs(k))
    decreases k
  {
    if k > 0 {
      CalmBangs(PushOper(s, Bang), k - 1);
      CalmBang(s, Bangs(k - 1));
    }
  }

  lemma {:induction false} CalmAtom(s: Stacks, a: Atom)
    ensures Calm(s, PrintAtom(a)) <==> SafeAtom(a)
    decreases a, 0
  {
    match a
    case Terms(first, more) => CalmOne(s, TTerms(first, more));
    case Paren(e) =>
      var base := PushOper(s, Binary(KLeft));
      OutrankingPush(s.opers, Binary(KLeft), Binary(KOr));
      CalmExpr(base, e);
      CalmAppend(base, Print(e), [TRight]);
      if Run(base, Print(e)).Some? { CalmOne(Run(base, Print(e)).value, TRight); }
      assert PrintAtom(a)[0] == TLeft && PrintAtom(a)[1..] == Print(e) + [TRight];
  }

  lemma {:induction false} CalmUnary(s: Stacks, u: Unary)
    ensures Calm(s, PrintUnary(u)) <==> SafeAtom(u.atom)
    decreases u, 0
  {
    CalmBangs(s, u.bangs);
    RunBangs(s, u.bangs);
    CalmAppend(s, Bangs(u.bangs), PrintAtom(u.atom));
    CalmAtom(Run(s, Bangs(u.bangs)).value, u.atom);
  }

  /* Before the "&&" behind an operand only its negations outrank it. */
  lemma {:induction false} CalmUnaryAnd(base: Stacks, u: Unary)
    requires Outranking(base.opers, Binary(KAnd)) == 0
    ensures Calm(base, PrintUnary(u) + [TAnd]) <==> u.bangs <= 1 && SafeAtom(u.atom)
    decreases u, 1
  {
    CalmUnary(base, u);
    CalmAppend(base, PrintUnary(u), [TAnd]);
    RunUnary(base, u);
    CalmOne(Join(base, UnaryLevel(u)), TAnd);
    BangOpersLength(u.bangs);
    OutrankingTop(base.opers, BangOpers(u.bangs), Binary(KAnd));
  }

  lemma {:induction false} CalmConj(base: Stacks, c: Conj)
    requires Outranking(base.opers, Binary(KAnd)) == 0
    ensures Calm(base, PrintConj(c)) <==> SafeConj(c)
    decreases c, 0
  {
    match c
    case One(u) => CalmUnary(base, u);
    case And(u, rest) =>
      CalmUnaryAnd(base, u);
      CalmAppend(base, PrintUnary(u) + [TAnd], PrintConj(rest));
      assert AtMostAnd(base);
      RunUnaryAnd(base, u);
      if u.bangs <= 1 {
        OutrankingPush(base.opers, Binary(KAnd), Binary(KAnd));
        assert Join(base, AfterAnd(u)).opers == base.opers + [Binary(KAnd)];
        CalmConj(Join(base, AfterAnd(u)), rest);
      }
  }

  /* Before the "||" behind a conjunction its pending operators outrank it. */
  lemma {:induction false} CalmConjOr(base: Stacks, c: Conj)
    requires Outranking(base.opers, Binary(KOr)) == 0
    ensures Calm(base, PrintConj(c) + [TOr]) <==> Pending(c) <= 1 && SafeConj(c)
    decreases c, 1
  {
    OutrankingAnd(base.opers);
    CalmConj(base, c);
    CalmAppend(base, PrintConj(c), [TOr]);
    assert AtMostAnd(base);
    RunConj(base, c);
    CalmOne(Join(base, ConjLevel(c)), TOr);
    PendingIsPending(c);
    OutrankingTop(base.opers, ConjLevel(c).opers, Binary(KOr));
  }

  lemma {:induction false} LowBase(base: Stacks)
    requires Outranking(base.opers, Binary(KOr)) == 0
    ensures base.opers == [] || Rank(base.opers[|base.opers| - 1]) <= 1
  {
  }

  lemma {:induction false} ConjCollapses(c: Conj) returns (x: Cond)
    requires Pending(c) <= 1
    ensures Incoming(ConjLevel(c), Binary(KOr)) == Some(Below(Binary(KOr), x))
  {
    ConjIsLevel(c);
    PendingIsPending(c);
    x := Collapse(ConjLevel(c));
    IncomingOr(ConjLevel(c));
  }

  lemma {:induction false} RunConjOrOn(base: Stacks, c: Conj) returns (x: Cond)
    requires Outranking(base.opers, Binary(KOr)) == 0 && Pending(c) <= 1
    ensures Run(base, PrintConj(c) + [TOr]) == Some(Join(base, Below(Binary(KOr), x)))
  {
    LowBase(base);
    RunConj(base, c);
    x := ConjCollapses(c);
    FrameIncoming(base, ConjLevel(c), Binary(KOr));
    RunAppend(base, PrintConj(c), [TOr]);
    RunOne(Join(base, ConjLevel(c)), TOr);
  }

  lemma {:induction false} CalmExpr(base: Stacks, e: Expr)
    requires Outranking(base.opers, Binary(KOr)) == 0
    ensures Calm(base, Print(e)) <==> Safe(e)
    decreases e, 0
  {
    OutrankingAnd(base.opers);
    match e
    case Single(c) => CalmConj(base, c);
    case Or(c, rest) =>
      CalmConjOr(base, c);
      CalmAppend(base, PrintConj(c) + [TOr], Print(rest));
      if Pending(c) <= 1 {
        var x := RunConjOrOn(base, c);
        OutrankingPush(base.opers, Binary(KOr), Binary(KOr));
        CalmExpr(Join(base, Below(Binary(KOr), x)), rest);
      }
  }

  /** The parser builds the mirror image of the usual reading exactly when no operator
      of the input meets, above the nearest open bracket, two or more stacked operators
      that outrank it. */
  lemma {:induction false} AgreesWhenUncrowded(e: Expr)
    ensures Safe(e) <==> NeverCrowded(EMPTY, Print(e))
    ensures ParsedTree(e) == Mirror(Usual(e)) <==> NeverCrowded(EMPTY, Print(e))
  {
    Agrees(e);
    CalmExpr(EMPTY, e);
    CalmIsNeverCrowded(EMPTY, Print(e));
  }

  // ----- Token lists and their readings -----

  /** Every grammatical token list is the print of a condition. */
  lemma {:induction false} GrammaticalIsPrinted(toks: seq<Token>) returns (e: Expr)
    requires IsCondition(toks)
    ensures Print(e) == toks
  {
    var rest;
    e, rest := DescendExpr(toks, 0);
    assert toks == Print(e);
  }

  lemma {:induction false} Regrouped(a: seq<Token>, t: Token, b: seq<Token>, rest: seq<Token>)
    ensures a + ([t] + (b + rest)) == a + [t] + b + rest
  {
  }

  predicate Heads(toks: seq<Token>, stop: set<Token>) { toks == [] || toks[0] in stop }

  lemma {:induction false} DescendUnary(toks: seq<Token>, d: nat) returns (u: Unary, rest: seq<Token>)
    requires Grammatical(toks, d, true)
    ensures toks == PrintUnary(u) + rest && |rest| < |toks| && Grammatical(rest, d, false)
    decreases |toks|, 0
  {
    match toks[0]
    case TNot =>
      var v;
      v, rest := DescendUnary(toks[1..], d);
      u := Unary(v.bangs + 1, v.atom);
      assert PrintUnary(u) == [TNot] + PrintUnary(v);
    case TTerms(first, more) =>
      u, rest := Unary(0, Terms(first, more)), toks[1..];
    case TLeft =>
      var e, r := DescendExpr(toks[1..], d + 1);
      u, rest := Unary(0, Paren(e)), r[1..];
      assert toks == [TLeft] + (Print(e) + ([TRight] + rest));
      assert PrintUnary(u) == [TLeft] + Print(e) + [TRight];
  }

  lemma {:induction false} DescendConj(toks: seq<Token>, d: nat) returns (c: Conj, rest: seq<Token>)
    requires Grammatical(toks, d, true)
    ensures toks == PrintConj(c) + rest && |rest| < |toks| && Grammatical(rest, d, false)
    ensures Heads(rest, {TOr, TRight})
    decreases |toks|, 1
  {
    var u, r := DescendUnary(toks, d);
    if r != [] && r[0] == TAnd {
      var c';
      c', rest := DescendConj(r[1..], d);
      c := And(u, c');
      assert r == [TAnd] + (PrintConj(c') + rest);
      Regrouped(PrintUnary(u), TAnd, PrintConj(c'), rest);
    } else {
      c, rest := One(u), r;
    }
  }

  lemma {:induction false} DescendExpr(toks: seq<Token>, d: nat) returns (e: Expr, rest: seq<Token>)
    requires Grammatical(toks, d, true)
    ensures toks == Print(e) + rest && |rest| < |toks| && Grammatical(rest, d, false)
    ensures Heads(rest, {TRight}) && (d == 0 ==> rest == [])
    decreases |toks|, 2
  {
    var c, r := DescendConj(toks, d);
    if r != [] && r[0] == TOr {
      var e';
      e', rest := DescendExpr(r[1..], d);
      e := Or(c, e');
      assert r == [TOr] + (Print(e') + rest);
      Regrouped(PrintConj(c), TOr, Print(e'), rest);
    } else {
      e, rest := Single(c), r;
    }
  }

  /** The usual reading of a token list is unique: printing is injective. */
  lemma {:induction false} PrintInjective(e: Expr, f: Expr)
    requires Print(e) == Print(f)
    ensures e == f
  {
    assert Print(e) + [] == Print(f) + [];
    ExprUnique(e, [], f, []);
  }

  lemma {:induction false} UnaryUnique(u: Unary, r: seq<Token>, v: Unary, q: seq<Token>)
    requires PrintUnary(u) + r == PrintUnary(v) + q
    ensures u == v && r == q
    decreases u, u.bangs
  {
    var t, w := PrintUnary(u) + r, PrintUnary(v) + q;
    AtomHead(u.atom);
    AtomHead(v.atom);
    assert (t[0] == TNot) == (u.bangs > 0) && (w[0] == TNot) == (v.bangs > 0);
    if u.bangs > 0 {
      var u', v' := u.(bangs := u.bangs - 1), v.(bangs := v.bangs - 1);
      assert PrintUnary(u) == [TNot] + PrintUnary(u') && PrintUnary(v) == [TNot] + PrintUnary(v');
      assert t[1..] == PrintUnary(u') + r && w[1..] == PrintUnary(v') + q;
      BangsUnique(u'.bangs, u.atom, r, v'.bangs, v.atom, q);
    } else {
      assert t == PrintAtom(u.atom) + r && w == PrintAtom(v.atom) + q;
      AtomUnique(u.atom, r, v.atom, q);
    }
  }

  lemma {:induction false} AtomHead(a: Atom)
    ensures PrintAtom(a) != [] && PrintAtom(a)[0] != TNot
  {
  }

  lemma {:induction false} BangsUnique(k: nat, a: Atom, r: seq<Token>, m: nat, b: Atom, q: seq<Token>)
    requires Bangs(k) + PrintAtom(a) + r == Bangs(m) + PrintAtom(b) + q
    ensures k == m && a == b && r == q
    decreases a, 1, k
  {
    var t, w := Bangs(k) + PrintAtom(a) + r, Bangs(m) + PrintAtom(b) + q;
    AtomHead(a);
    AtomHead(b);
    assert (t[0] == TNot) == (k > 0) && (w[0] == TNot) == (m > 0);
    if k > 0 {
      assert t[1..] == Bangs(k - 1) + PrintAtom(a) + r && w[1..] == Bangs(m - 1) + PrintAtom(b) + q;
      BangsUnique(k - 1, a, r, m - 1, b, q);
    } else {
      assert t == PrintAtom(a) + r && w == PrintAtom(b) + q;
      AtomUnique(a, r, b, q);
    }
  }

  lemma {:induction false} AtomUnique(a: Atom, r: seq<Token>, b: Atom, q: seq<Token>)
    requires PrintAtom(a) + r == PrintAtom(b) + q
    ensures a == b && r == q
    decreases a, 0
  {
    var t, w := PrintAtom(a) + r, PrintAtom(b) + q;
    assert t[0] == w[0];
    if a.Paren? {
      assert t[1..] == Print(a.e) + ([TRight] + r) && w[1..] == Print(b.e) + ([TRight] + q);
      ExprUnique(a.e, [TRight] + r, b.e, [TRight] + q);
      assert ([TRight] + r)[1..] == r && ([TRight] + q)[1..] == q;
    } else {
      assert t[1..] == r && w[1..] == q;
    }
  }

  lemma {:induction false} ConjUnique(c: Conj, r: seq<Token>, d: Conj, q: seq<Token>)
    requires PrintConj(c) + r == PrintConj(d) + q
    requires Heads(r, {TOr, TRight}) && Heads(q, {TOr, TRight})
    ensures c == d && r == q
    decreases c, 2
  {
    var r', q' := (if c.One? then r else [TAnd] + (PrintConj(c.rest) + r)), (if d.One? then q else [TAnd] + (PrintConj(d.rest) + q));
    assert PrintConj(c) + r == PrintUnary(c.u) + r' && PrintConj(d) + q == PrintUnary(d.u) + q';
    UnaryUnique(c.u, r', d.u, q');
    if c.And? {
      assert r'[1..] == PrintConj(c.rest) + r && q'[1..] == PrintConj(d.rest) + q;
      ConjUnique(c.rest, r, d.rest, q);
    }
  }

  lemma {:induction false} ExprUnique(e: Expr, r: seq<Token>, f: Expr, q: seq<Token>)
    requires Print(e) + r == Print(f) + q
    requires Heads(r, {TRight}) && Heads(q, {TRight})
    ensures e == f && r == q
    decreases e, 3
  {
    var r', q' := (if e.Single? then r else [TOr] + (Print(e.rest) + r)), (if f.Single? then q else [TOr] + (Print(f.rest) + q));
    assert Print(e) + r == PrintConj(e.c) + r' && Print(f) + q == PrintConj(f.c) + q';
    ConjUnique(e.c, r', f.c, q');
    if e.Or? {
      assert r'[1..] == Print(e.rest) + r && q'[1..] == Print(f.rest) + q;
      ExprUnique(e.rest, r, f.rest, q);
    }
  }

  // ----- Round trip -----

  /* A tree that only newNode and the operators of the grammar build. */
  predicate Fresh(c: Cond) {
    c.value == DP_FALSE &&
    match c
    case Leaf(_, _) => true
    case Not(_, a) => Fresh(a)
    case Bin(k, _, l, r) => k != KLeft && Fresh(l) && Fresh(r)
  }

  lemma {:induction false} FreshIsClean(c: Cond)
    ensures Fresh(c) ==> Clean(c)
  {
    match c
    case Leaf(_, _) =>
    case Not(_, a) => FreshIsClean(a);
    case Bin(_, _, l, r) => FreshIsClean(l); FreshIsClean(r);
  }

  lemma {:induction false} NotTimesFresh(k: nat, c: Cond)
    requires Fresh(c)
    ensures Fresh(NotTimes(k, c))
  {
    if k > 0 { NotTimesFresh(k - 1, c); }
  }

  lemma {:induction false} UsualTermsFresh(first: Term, more: seq<Term>)
    ensures Fresh(UsualTerms(first, more))
    decreases |more|
  {
    if more != [] { UsualTermsFresh(first, more[..|more| - 1]); }
  }

  lemma {:induction false} UsualConjFresh(c: Conj)
    ensures Fresh(UsualConj(c))
    decreases c
  {
    match c.u.atom {
      case Terms(first, more) => UsualTermsFresh(first, more);
      case Paren(e) => UsualIsFresh(e);
    }
    NotTimesFresh(c.u.bangs, UsualAtom(c.u.atom));
    if c.And? { UsualConjFresh(c.rest); }
  }

  lemma {:induction false} UsualIsFresh(e: Expr)
    ensures Fresh(Usual(e))
    decreases e
  {
    UsualConjFresh(e.c);
    if e.Or? { UsualIsFresh(e.rest); }
  }

  /* A tree printed with brackets around every operator. */
  function FullPrint(c: Cond): seq<Token>
    requires Fresh(c)
  {
    match c
    case Leaf(_, t) => [TTerms(t, [])]
    case Not(_, a) => [TLeft, TNot] + FullPrint(a) + [TRight]
    case Bin(k, _, l, r) => [TLeft] + FullPrint(l) + [if k == KAnd then TAnd else TOr] + FullPrint(r) + [TRight]
  }

  function Bracketed(c: Cond): Atom
    requires Fresh(c)
  {
    match c
    case Leaf(_, t) => Terms(t, [])
    case Not(_, a) => Paren(Single(One(Unary(1, Bracketed(a)))))
    case Bin(k, _, l, r) =>
      var x, y := Unary(0, Bracketed(l)), Unary(0, Bracketed(r));
      Paren(if k == KAnd then Single(And(x, One(y))) else Or(One(x), Single(One(y))))
  }

  lemma {:induction false} BracketedIsFullPrint(c: Cond)
    requires Fresh(c)
    ensures PrintAtom(Bracketed(c)) == FullPrint(c) && UsualAtom(Bracketed(c)) == c && SafeAtom(Bracketed(c))
  {
    match c
    case Leaf(_, t) =>
    case Not(_, a) =>
      BracketedIsFullPrint(a);
      BracketNot(Bracketed(a));
    case Bin(k, _, l, r) =>
      BracketedIsFullPrint(l);
      BracketedIsFullPrint(r);
      if k == KAnd { BracketAnd(Bracketed(l), Bracketed(r)); } else { BracketOr(Bracketed(l), Bracketed(r)); }
  }

  lemma {:induction false} BracketNot(a: Atom)
    ensures var b := Paren(Single(One(Unary(1, a))));
      PrintAtom(b) == [TLeft, TNot] + PrintAtom(a) + [TRight] &&
      UsualAtom(b) == NewNot(UsualAtom(a)) && SafeAtom(b) == SafeAtom(a)
  {
    var u := Unary(1, a);
    assert Bangs(1) == [TNot] + Bangs(0);
    assert NotTimes(1, UsualAtom(a)) == NewNot(NotTimes(0, UsualAtom(a)));
    SingleUnary(u);
    assert [TLeft] + ([TNot] + PrintAtom(a)) + [TRight] == [TLeft, TNot] + PrintAtom(a) + [TRight];
  }

  lemma {:induction false} BracketAnd(a: Atom, b: Atom)
    ensures var p := Paren(Single(And(Unary(0, a), One(Unary(0, b)))));
      PrintAtom(p) == [TLeft] + PrintAtom(a) + [TAnd] + PrintAtom(b) + [TRight] &&
      UsualAtom(p) == NewBin(KAnd, UsualAtom(a), UsualAtom(b)) && SafeAtom(p) == (SafeAtom(a) && SafeAtom(b))
  {
    PlainUnary(a);
    PlainUnary(b);
    var f := And(Unary(0, a), One(Unary(0, b)));
    SingleUnary(Unary(0, b));
    SingleConj(f);
    InBrackets(PrintAtom(a), TAnd, PrintAtom(b));
  }

  lemma {:induction false} BracketOr(a: Atom, b: Atom)
    ensures var p := Paren(Or(One(Unary(0, a)), Single(One(Unary(0, b)))));
      PrintAtom(p) == [TLeft] + PrintAtom(a) + [TOr] + PrintAtom(b) + [TRight] &&
      UsualAtom(p) == NewBin(KOr, UsualAtom(a), UsualAtom(b)) && SafeAtom(p) == (SafeAtom(a) && SafeAtom(b))
  {
    PlainUnary(a);
    PlainUnary(b);
    SingleUnary(Unary(0, a));
    SingleUnary(Unary(0, b));
    InBrackets(PrintAtom(a), TOr, PrintAtom(b));
  }

  lemma {:induction false} InBrackets(a: seq<Token>, t: Token, b: seq<Token>)
    ensures [TLeft] + (a + [t] + b) + [TRight] == [TLeft] + a + [t] + b + [TRight]
  {
  }

  lemma {:induction false} PlainUnary(a: Atom)
    ensures PrintUnary(Unary(0, a)) == PrintAtom(a) && UsualUnary(Unary(0, a)) == UsualAtom(a)
  {
  }

  lemma {:induction false} SingleConj(c: Conj)
    ensures Print(Single(c)) == PrintConj(c) && Usual(Single(c)) == UsualConj(c) && Safe(Single(c)) == SafeConj(c)
  {
  }

  lemma {:induction false} SingleUnary(u: Unary)
    ensures PrintConj(One(u)) == Print(Single(One(u))) == PrintUnary(u)
    ensures UsualConj(One(u)) == Usual(Single(One(u))) == UsualUnary(u)
    ensures SafeConj(One(u)) == Safe(Single(One(u))) == SafeAtom(u.atom)
    ensures Pending(One(u)) == u.bangs
  {
  }

  /** Printing any tree fully bracketed and parsing it returns its mirror image,
      which evaluates like the tree itself. */
  lemma {:induction false} RoundTrip(c: Cond, env: Env)
    requires Fresh(c)
    ensures Parse(FullPrint(c)) == Some(Mirror(c))
    ensures Eval(Mirror(c), env).value == Eval(c, env).value
  {
    BracketedIsFullPrint(c);
    var e := Single(One(Unary(0, Bracketed(c))));
    SingleUnary(Unary(0, Bracketed(c)));
    assert Print(e) == FullPrint(c);
    PrintAccepted(e);
    Agrees(e);
    FreshIsClean(c);
    MirrorTwice(c);
    EvalIsMinMax(c, env);
    EvalIsMinMax(Mirror(c), env);
    MirrorKeepsValue(c, Verdicts(env));
  }

  // ----- Where the usual reading is lost -----

  function W(n: nat): Unary { Unary(0, Terms(WindowTerm(n), [])) }
  function L(n: nat): Cond { NewLeaf(WindowTerm(n)) }

  function T(n: nat): Token { TTerms(WindowTerm(n), []) }

  lemma {:induction false} TermThen(s: Stacks, n: nat, op: Token, rest: seq<Token>)
    ensures var t := Step(PushOperand(s, L(n)), op);
      Run(s, [T(n), op] + rest) == if t.None? then None else Run(t.value, rest)
  {
    RunAppend(s, [T(n), op], rest);
    RunAppend(s, [T(n)], [op]);
    assert [T(n)] + [op] == [T(n), op];
    RunOne(s, T(n));
    RunOne(PushOperand(s, L(n)), op);
  }

  lemma {:induction false} WitnessMerges(s: Stacks)
    requires s == Stacks([Binary(KAnd), Binary(KOr)], [L(0), NewBin(KAnd, L(2), L(1)), L(3)])
    ensures MergeAll(s) == Stacks([], [NewBin(KAnd, NewBin(KOr, L(3), NewBin(KAnd, L(2), L(1))), L(0))])
  {
    var o, x := Binary(KAnd), NewBin(KAnd, L(2), L(1));
    var y := NewBin(KOr, L(3), x);
    assert s.opers[..1] == [o] && s.operands[..1] + [y] == [L(0), y];
    assert MergeTop(s) == Some(Stacks([o], [L(0), y]));
    assert [o][..0] == [] && [L(0), y][..0] + [NewBin(KAnd, y, L(0))] == [NewBin(KAnd, y, L(0))];
    assert MergeTop(Stacks([o], [L(0), y])) == Some(Stacks([], [NewBin(KAnd, y, L(0))]));
  }

  lemma {:induction false} WitnessStarts(toks: seq<Token>)
    requires toks == [T(0), TAnd, T(1), TAnd]
    ensures Run(EMPTY, toks) == Some(Stacks([Binary(KAnd), Binary(KAnd)], [L(0), L(1)]))
  {
    var o := Binary(KAnd);
    TermThen(EMPTY, 0, TAnd, toks[2..]);
    assert toks == [T(0), TAnd] + toks[2..];
    assert [] + [o] == [o] && [] + [L(0)] == [L(0)];
    TermThen(Stacks([o], [L(0)]), 1, TAnd, []);
    assert toks[2..] == [T(1), TAnd] + [];
    assert [o] + [o] == [o, o] && [L(0)] + [L(1)] == [L(0), L(1)];
  }

  lemma {:induction false} WitnessEnds(s: Stacks)
    requires s == Stacks([Binary(KAnd), Binary(KAnd)], [L(0), L(1)])
    ensures Run(s, [T(2), TOr, T(3)]) == Some(Stacks([Binary(KAnd), Binary(KOr)], [L(0), NewBin(KAnd, L(2), L(1)), L(3)]))
  {
    var o, x := Binary(KAnd), NewBin(KAnd, L(2), L(1));
    TermThen(s, 2, TOr, [T(3)]);
    assert [T(2), TOr, T(3)] == [T(2), TOr] + [T(3)];
    assert [o, o][..1] == [o] && [L(0), L(1), L(2)][..1] + [x] == [L(0), x];
    assert MergeTop(Stacks([o, o], [L(0), L(1), L(2)])) == Some(Stacks([o], [L(0), x]));
    assert [L(0), L(1)] + [L(2)] == [L(0), L(1), L(2)] && [o] + [Binary(KOr)] == [o, Binary(KOr)];
    assert [T(3)][1..] == [] && [L(0), x] + [L(3)] == [L(0), x, L(3)];
  }

  /** a && b && c || d is read as a && ((b && c) || d). */
  lemma {:induction false} ThreeFactorsThenOr()
    ensures var e := Or(And(W(0), And(W(1), One(W(2)))), Single(One(W(3))));
      Print(e) == [T(0), TAnd, T(1), TAnd, T(2), TOr, T(3)] &&
      ParsedTree(e) == Mirror(NewBin(KAnd, L(0), NewBin(KOr, NewBin(KAnd, L(1), L(2)), L(3))))
  {
    var e := Or(And(W(0), And(W(1), One(W(2)))), Single(One(W(3))));
    SingleUnary(W(2));
    SingleUnary(W(3));
    var toks := [T(0), TAnd, T(1), TAnd, T(2), TOr, T(3)];
    assert Print(e) == toks;
    RunAppend(EMPTY, [T(0), TAnd, T(1), TAnd], [T(2), TOr, T(3)]);
    assert toks == [T(0), TAnd, T(1), TAnd] + [T(2), TOr, T(3)];
    WitnessStarts([T(0), TAnd, T(1), TAnd]);
    WitnessEnds(Run(EMPTY, [T(0), TAnd, T(1), TAnd]).value);
    WitnessMerges(Run(EMPTY, toks).value);
  }

  /** There, with a false and d true, evaluation says false where the usual
      reading says true. */
  lemma {:induction false} PrecedenceWitness(env: Env)
    requires !env.windowOpen(0) && env.windowOpen(3)
    ensures var e := Or(And(W(0), And(W(1), One(W(2)))), Single(One(W(3))));
      Eval(ParsedTree(e), env).value == DP_FALSE && Val(Usual(e), Verdicts(env)) == DP_TRUE
  {
    var e := Or(And(W(0), And(W(1), One(W(2)))), Single(One(W(3))));
    var lv := Verdicts(env);
    ThreeFactorsThenOr();
    var x := NewBin(KOr, NewBin(KAnd, L(1), L(2)), L(3));
    var t := NewBin(KAnd, L(0), x);
    FreshIsClean(t);
    MirrorTwice(t);
    EvalIsMinMax(Mirror(t), env);
    MirrorKeepsValue(t, lv);
    assert Val(L(0), lv) == DP_FALSE && Val(L(3), lv) == DP_TRUE && Val(x, lv) >= DP_TRUE;
    SingleUnary(W(3));
    assert Usual(e) == NewBin(KOr, UsualConj(e.c), L(3));
    UsualConjFresh(e.c);
    FreshIsClean(UsualConj(e.c));
    EvalIsMinMax(UsualConj(e.c), env);
  }

  // ----- Agreement of values without agreement of trees -----

  /* The condition with `k` negations of `a`, or `b`. */
  function NegatedOr(k: nat, a: Term, b: Term): Expr {
    Or(One(Unary(k, Terms(a, []))), Single(One(Unary(0, Terms(b, [])))))
  }

  lemma {:induction false} NegatedIncoming(k: nat, x: Cond)
    requires k > 0
    ensures Incoming(Stacks(BangOpers(k), [x]), Binary(KOr)) == Some(Stacks(BangOpers(k - 1) + [Binary(KOr)], [NewNot(x)]))
  {
    var lvl := Stacks(BangOpers(k), [x]);
    assert BangOpers(k) == BangOpers(k - 1) + [Bang];
    assert lvl.opers[..|lvl.opers| - 1] == BangOpers(k - 1) && lvl.opers[|lvl.opers| - 1] == Bang;
    assert lvl.operands[..0] + [NewNot(x)] == [NewNot(x)];
    assert MergeTop(lvl) == Some(Stacks(BangOpers(k - 1), [NewNot(x)]));
  }

  lemma {:induction false} NegatedOrRun(k: nat, a: Term, b: Term)
    requires k > 0
    ensures Run(EMPTY, Print(NegatedOr(k, a, b))) ==
      Some(Stacks(BangOpers(k - 1) + [Binary(KOr)], [NewNot(NewLeaf(a)), NewLeaf(b)]))
  {
    var c, atom := One(Unary(k, Terms(a, []))), Terms(b, []);
    RunOrThen(c, Single(One(Unary(0, atom))));
    NegatedIncoming(k, NewLeaf(a));
    SingleUnary(Unary(0, atom));
    PlainUnary(atom);
    var u := Stacks(BangOpers(k - 1) + [Binary(KOr)], [NewNot(NewLeaf(a))]);
    RunAtom(u, atom);
    assert u.operands + [NewLeaf(b)] == [NewNot(NewLeaf(a)), NewLeaf(b)];
  }

  lemma {:induction false} NegatedOrUsual(k: nat, a: Term, b: Term)
    ensures Usual(NegatedOr(k, a, b)) == NewBin(KOr, NotTimes(k, NewLeaf(a)), NewLeaf(b))
  {
    SingleUnary(Unary(k, Terms(a, [])));
    SingleUnary(Unary(0, Terms(b, [])));
    PlainUnary(Terms(b, []));
    assert UsualAtom(Terms(a, [])) == NewLeaf(a) && UsualAtom(Terms(b, [])) == NewLeaf(b);
  }

  lemma {:induction false} NegatedOrTree(k: nat, a: Term, b: Term)
    requires k > 0
    ensures ParsedTree(NegatedOr(k, a, b)) == NotTimes(k - 1, NewBin(KOr, NewLeaf(b), NewNot(NewLeaf(a))))
  {
    PrintAccepted(NegatedOr(k, a, b));
    NegatedOrRun(k, a, b);
    var x := NewBin(KOr, NewLeaf(b), NewNot(NewLeaf(a)));
    var s := Stacks(BangOpers(k - 1) + [Binary(KOr)], [NewNot(NewLeaf(a)), NewLeaf(b)]);
    assert s.opers[..|s.opers| - 1] == BangOpers(k - 1) && s.operands[..0] + [x] == [x];
    assert MergeTop(s) == Some(Stacks(BangOpers(k - 1), [x]));
    CollapseBangs(k - 1, x);
  }

  lemma {:induction false} NotTimesValue(k: nat, c: Cond, lv: (Term, int) -> int)
    requires Val(c, lv) == DP_TRUE || Val(c, lv) == DP_FALSE
    ensures Val(NotTimes(k, c), lv) == if k % 2 == 0 then Val(c, lv) else DP_TRUE - Val(c, lv)
    decreases k
  {
    if k > 0 { NotTimesValue(k - 1, c, lv); }
  }

  lemma {:induction false} NotTimesShift(k: nat, c: Cond)
    ensures NotTimes(k, NewNot(c)) == NotTimes(k + 1, c)
    decreases k
  {
    if k > 0 { NotTimesShift(k - 1, c); }
  }

  /** Trees may differ where values agree: with two or more negations the tree is never
      the mirrored usual reading, but its value is the usual one exactly when the number
      of negations is odd or `b` is not TRUE. */
  lemma {:induction false} NegatedOrValue(k: nat, a: Term, b: Term, lv: (Term, int) -> int)
    requires k >= 2 && IsTri(lv(a, DP_FALSE)) && IsTri(lv(b, DP_FALSE))
    ensures var e := NegatedOr(k, a, b);
      ParsedTree(e) != Mirror(Usual(e)) &&
      (Val(ParsedTree(e), lv) == Val(Usual(e), lv) <==> k % 2 == 1 || lv(b, DP_FALSE) != DP_TRUE)
  {
    var e, la, lb := NegatedOr(k, a, b), NewLeaf(a), NewLeaf(b);
    Agrees(e);
    assert !Safe(e);
    NegatedOrTree(k, a, b);
    NotTimesValue(k - 1, NewBin(KOr, lb, NewNot(la)), lv);
    NotTimesShift(k - 1, la);
    NotTimesValue(k - 1, NewNot(la), lv);
    NegatedOrUsual(k, a, b);
  }
}
