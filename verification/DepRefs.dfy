/**
 Reference counts of shared index lists (lsbatch/daemons/mbd.dep.c,
 createjobIdxRef, destroyjobIdxRef, freeDepCond).

 A name with an index list gives every leaf it creates the same jobIdx, and the
 last of those leaves to be freed releases it.  freeDepCond does not descend
 below a bracket that became a node, so what it reaches depends on the brackets
 of the input.
 */
module DepRefs {
  import opened Common
  import opened DepTerms
  import opened DepCond
  import opened DepParser

  // ----- What freeDepCond reaches -----

  /* The leaves freed, in order. */
  function FreedLeaves(c: Cond): seq<Term> {
    match c
    case Leaf(_, t) => [t]
    case Not(_, a) => FreedLeaves(a)
    case Bin(k, _, l, r) => if k == KLeft then [] else FreedLeaves(l) + FreedLeaves(r)
  }

  function BracketWeight(x: Sym): nat { if x == SBin(KLeft) then 1 else 0 }

  function RefOf(t: Term): Option<nat> { if t.JobTerm? && t.idx.Some? then Some(t.idx.value.ref) else None }

  /* Leaves that point at the index list `r`. */
  function RefWeight(r: nat): Sym -> nat { (x: Sym) => if x.SLeaf? && RefOf(x.term) == Some(r) then 1 else 0 }

  lemma {:induction false} FreedOrNot(c: Cond)
    ensures Weight(c, LeafWeight) > 0
    ensures |FreedLeaves(c)| <= Weight(c, LeafWeight)
    ensures |FreedLeaves(c)| == Weight(c, LeafWeight) <==> Weight(c, BracketWeight) == 0
  {
    match c
    case Leaf(_, _) =>
    case Not(_, a) => FreedOrNot(a);
    case Bin(_, _, l, r) => FreedOrNot(l); FreedOrNot(r);
  }

  /** Freeing the tree of an accepted input reaches every leaf exactly when the
      input has as many close brackets as open ones. */
  lemma {:induction false} FreeReachesAllLeaves(toks: seq<Token>)
    requires Parse(toks).Some?
    ensures |FreedLeaves(Parse(toks).value)| == WeightInput(toks, LeafWeight)
      <==> WeightInput(toks, BracketWeight) == WeightClosed(toks, BracketWeight)
  {
    FreedOrNot(Parse(toks).value);
    ParseConserves(toks, LeafWeight);
    ParseConserves(toks, BracketWeight);
    NothingClosed(toks, LeafWeight);
  }

  // ----- Counting down -----

  /* The index lists of the freed leaves, in order. */
  function Refs(ts: seq<Term>): seq<nat> {
    if ts == [] then []
    else (if RefOf(ts[0]).Some? then [RefOf(ts[0]).value] else []) + Refs(ts[1..])
  }

  function Count(s: seq<nat>, r: nat): nat {
    if s == [] then 0 else (if s[0] == r then 1 else 0) + Count(s[1..], r)
  }

  lemma {:induction false} CountAppend(a: seq<nat>, b: seq<nat>, r: nat)
    ensures Count(a + b, r) == Count(a, r) + Count(b, r)
  {
    if a == [] {
      assert a + b == b;
    } else {
      assert (a + b)[1..] == a[1..] + b;
      CountAppend(a[1..], b, r);
    }
  }

  lemma {:induction false} RefsAppend(a: seq<Term>, b: seq<Term>)
    ensures Refs(a + b) == Refs(a) + Refs(b)
  {
    if a == [] {
      assert a + b == b && Refs(a) + Refs(b) == Refs(b);
    } else {
      assert (a + b)[0] == a[0] && (a + b)[1..] == a[1..] + b;
      RefsAppend(a[1..], b);
      var x := if RefOf(a[0]).Some? then [RefOf(a[0]).value] else [];
      assert x + (Refs(a[1..]) + Refs(b)) == x + Refs(a[1..]) + Refs(b);
    }
  }

  /* The counts and the index lists released so far. */
  datatype RefState = RefState(numRef: map<nat, int>, released: seq<nat>)

  function NumRef(s: RefState, r: nat): int { if r in s.numRef then s.numRef[r] else 0 }

  function Create(s: RefState, r: nat): RefState { s.(numRef := s.numRef[r := NumRef(s, r) + 1]) }

  function Destroy(s: RefState, r: nat): RefState {
    var n := NumRef(s, r) - 1;
    RefState(s.numRef[r := n], if n <= 0 then s.released + [r] else s.released)
  }

  function DestroyAll(s: RefState, rs: seq<nat>): RefState
    decreases |rs|
  {
    if rs == [] then s else DestroyAll(Destroy(s, rs[0]), rs[1..])
  }

  /* Dropping the references `rs`, none of which is dropped more often than it is
     counted: an index list is released exactly when its last reference goes. */
  lemma {:induction false} CountingDown(s: RefState, rs: seq<nat>, r: nat)
    requires forall x :: NumRef(s, x) >= Count(rs, x)
    ensures var t := DestroyAll(s, rs);
      NumRef(t, r) == NumRef(s, r) - Count(rs, r) &&
      Count(t.released, r) == Count(s.released, r) + (if NumRef(s, r) == Count(rs, r) > 0 then 1 else 0)
    decreases |rs|
  {
    if rs != [] {
      var t := Destroy(s, rs[0]);
      forall x ensures NumRef(t, x) >= Count(rs[1..], x) { assert NumRef(s, x) >= Count(rs, x); }
      CountingDown(t, rs[1..], r);
      CountAppend(s.released, [rs[0]], r);
    }
  }

  /* The weight of what lies below brackets that became nodes. */
  function Stranded(c: Cond, w: Sym -> nat): nat {
    match c
    case Leaf(_, _) => 0
    case Not(_, a) => Stranded(a, w)
    case Bin(k, _, l, r) => if k == KLeft then Weight(l, w) + Weight(r, w) else Stranded(l, w) + Stranded(r, w)
  }

  lemma {:induction false} FreedRefs(c: Cond, r: nat)
    ensures Count(Refs(FreedLeaves(c)), r) + Stranded(c, RefWeight(r)) == Weight(c, RefWeight(r))
  {
    match c
    case Leaf(_, t) =>
      assert FreedLeaves(c)[1..] == [];
      assert Refs([t]) == if RefOf(t).Some? then [RefOf(t).value] else [];
      if RefOf(t).Some? { assert Count([RefOf(t).value], r) == if RefOf(t).value == r then 1 else 0; }
    case Not(_, a) => FreedRefs(a, r);
    case Bin(_, _, l, rr) =>
      FreedRefs(l, r);
      FreedRefs(rr, r);
      RefsAppend(FreedLeaves(l), FreedLeaves(rr));
      CountAppend(Refs(FreedLeaves(l)), Refs(FreedLeaves(rr)), r);
  }

  lemma {:induction false} NothingStranded(c: Cond, w: Sym -> nat)
    requires Weight(c, BracketWeight) == 0
    ensures Stranded(c, w) == 0
  {
    match c
    case Leaf(_, _) =>
    case Not(_, a) => NothingStranded(a, w);
    case Bin(_, _, l, r) => NothingStranded(l, w); NothingStranded(r, w);
  }

  /** Freeing any tree whose index lists count the leaves that point at them: after
      any number of freed leaves an index list has been released, once, exactly if
      it has leaves and all of them are among those freed. */
  lemma {:induction false} ReleasedWithLastLeaf(s: RefState, c: Cond, k: nat, r: nat)
    requires s.released == [] && k <= |FreedLeaves(c)|
    requires forall x :: NumRef(s, x) == Weight(c, RefWeight(x))
    ensures var done := Refs(FreedLeaves(c)[..k]);
      Count(DestroyAll(s, done).released, r) == if Count(done, r) == Weight(c, RefWeight(r)) > 0 then 1 else 0
  {
    var ts := FreedLeaves(c);
    var done, left := Refs(ts[..k]), Refs(ts[k..]);
    assert ts == ts[..k] + ts[k..];
    RefsAppend(ts[..k], ts[k..]);
    forall x ensures NumRef(s, x) >= Count(done, x) {
      FreedRefs(c, x);
      CountAppend(done, left, x);
    }
    CountingDown(s, done, r);
  }

  /* The counts after parsing: one reference for each leaf created. */
  function CreateTerms(s: RefState, first: Term, more: seq<Term>): RefState
    decreases |more|
  {
    var t := if more == [] then s else CreateTerms(s, first, more[..|more| - 1]);
    var x := if more == [] then first else more[|more| - 1];
    if RefOf(x).Some? then Create(t, RefOf(x).value) else t
  }

  function CreateAll(s: RefState, toks: seq<Token>): RefState
    decreases |toks|
  {
    if toks == [] then s
    else CreateAll(if toks[0].TTerms? then CreateTerms(s, toks[0].first, toks[0].more) else s, toks[1..])
  }

  lemma {:induction false} CreateTermsCounts(s: RefState, first: Term, more: seq<Term>, r: nat)
    ensures var t := CreateTerms(s, first, more);
      t.released == s.released && NumRef(t, r) == NumRef(s, r) + WeightTerms(first, more, RefWeight(r))
    decreases |more|
  {
    if more != [] { CreateTermsCounts(s, first, more[..|more| - 1], r); }
  }

  lemma {:induction false} CreateAllCounts(s: RefState, toks: seq<Token>, r: nat)
    ensures var t := CreateAll(s, toks);
      t.released == s.released && NumRef(t, r) == NumRef(s, r) + WeightInput(toks, RefWeight(r))
    decreases |toks|
  {
    if toks != [] {
      if toks[0].TTerms? { CreateTermsCounts(s, toks[0].first, toks[0].more, r); }
      CreateAllCounts(if toks[0].TTerms? then CreateTerms(s, toks[0].first, toks[0].more) else s, toks[1..], r);
    }
  }

  /** From parsing to freeing, for every accepted input: each index list counts
      exactly the leaves that point at it, and freeing the tree releases it exactly
      once if it has leaves and none of them lies below a bracket left open, and
      otherwise never.  With brackets balanced in number that is every list used. */
  lemma {:induction false} FreeReleasesOnce(toks: seq<Token>, r: nat)
    requires Parse(toks).Some?
    ensures var c := Parse(toks).value;
      var s := CreateAll(RefState(map[], []), toks);
      var t := DestroyAll(s, Refs(FreedLeaves(c)));
      NumRef(s, r) == Weight(c, RefWeight(r)) && NumRef(t, r) == Stranded(c, RefWeight(r)) &&
      Count(t.released, r) == (if Weight(c, RefWeight(r)) > 0 && Stranded(c, RefWeight(r)) == 0 then 1 else 0)
    ensures WeightInput(toks, BracketWeight) == WeightClosed(toks, BracketWeight) ==>
      Stranded(Parse(toks).value, RefWeight(r)) == 0
  {
    var c := Parse(toks).value;
    var s := CreateAll(RefState(map[], []), toks);
    ParseConserves(toks, BracketWeight);
    if Weight(c, BracketWeight) == 0 { NothingStranded(c, RefWeight(r)); }
    CreateAllCounts(RefState(map[], []), toks, r);
    forall x ensures NumRef(s, x) == Weight(c, RefWeight(x)) >= Count(Refs(FreedLeaves(c)), x) {
      CreateAllCounts(RefState(map[], []), toks, x);
      ParseConserves(toks, RefWeight(x));
      NothingClosed(toks, RefWeight(x));
      FreedRefs(c, x);
    }
    FreedRefs(c, r);
    CountingDown(s, Refs(FreedLeaves(c)), r);
  }

  /** The input `a ( b` is accepted although its bracket stays open; freeing its tree
      reaches no leaf, so an index list that both leaves share is never released. */
  lemma {:induction false} OpenBracketLeaks(a: Term, b: Term, r: nat)
    requires RefOf(a) == RefOf(b) == Some(r)
    ensures var toks := [TTerms(a, []), TLeft, TTerms(b, [])];
      var c := NewBin(KLeft, NewLeaf(b), NewLeaf(a));
      Parse(toks) == Some(c) && FreedLeaves(c) == [] && Stranded(c, RefWeight(r)) == 2 &&
      NumRef(CreateAll(RefState(map[], []), toks), r) == 2
  {
    var toks := [TTerms(a, []), TLeft, TTerms(b, [])];
    var c := NewBin(KLeft, NewLeaf(b), NewLeaf(a));
    OpenBracketRun(a, b);
    FreeReleasesOnce(toks, r);
  }

  lemma {:induction false} OpenBracketRun(a: Term, b: Term)
    ensures Parse([TTerms(a, []), TLeft, TTerms(b, [])]) == Some(NewBin(KLeft, NewLeaf(b), NewLeaf(a)))
  {
    var toks := [TTerms(a, []), TLeft, TTerms(b, [])];
    var s := Stacks([Binary(KLeft)], [NewLeaf(a), NewLeaf(b)]);
    assert toks[1..] == [TLeft, TTerms(b, [])] && toks[1..][1..] == [TTerms(b, [])];
    assert EMPTY.operands + [NewLeaf(a)] == [NewLeaf(a)] && EMPTY.opers + [Binary(KLeft)] == [Binary(KLeft)];
    RunOne(Stacks([Binary(KLeft)], [NewLeaf(a)]), TTerms(b, []));
    assert [NewLeaf(a)] + [NewLeaf(b)] == [NewLeaf(a), NewLeaf(b)];
    assert Run(EMPTY, toks) == Some(s);
    LastMerge(s, KLeft, NewLeaf(a), NewLeaf(b));
  }
}
