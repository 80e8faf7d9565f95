/**
 The condition parser and evaluator of lsbatch/daemons/mbd.dep.c in the source's
 own form: a parser that pushes and pops two stacks in loops, and nodes on the
 heap whose value field evaluation rewrites.
 */
module DepNodes {
  import opened Common
  import opened DepTerms
  import opened DepCond
  import opened DepParser
  import opened DepRefs

  datatype NodeType = LeafNode | OperNode(oper: Oper)

  class DptNode {
    var kind: NodeType
    var term: Term
    var value: int
    var left: DptNode?
    var right: DptNode?
    ghost var tree: Cond
    ghost var repr: set<DptNode>

    /* The node is the root of the tree `tree`, made of the nodes `repr`. */
    ghost predicate Valid()
      reads this, repr
      ensures Valid() ==> this in repr
      decreases repr
    {
      this in repr && tree.value == value &&
      match tree
      case Leaf(_, t) => kind == LeafNode && term == t
      case Not(_, a) => kind == OperNode(Bang) && Child(left, a)
      case Bin(k, _, l, r) =>
        kind == OperNode(Binary(k)) && Child(left, l) && Child(right, r) && left.repr !! right.repr
    }

    ghost predicate Child(n: DptNode?, t: Cond)
      reads this, repr
      requires this in repr
      decreases repr, 0
    {
      n != null && n in repr && n.repr <= repr && this !in n.repr && n.Valid() && n.tree == t
    }

    /* The nodes of a parsed tree. */
    constructor Plant(c: Cond)
      ensures Valid() && fresh(repr) && tree == c
      decreases c
    {
      value, term, left, right := c.value, WindowTerm(0), null, null;
      if c.Leaf? {
        kind, term := LeafNode, c.term;
        repr := {this};
      } else if c.Not? {
        var l := new DptNode.Plant(c.arg);
        kind, left := OperNode(Bang), l;
        repr := {this} + l.repr;
      } else {
        var l := new DptNode.Plant(c.left);
        var r := new DptNode.Plant(c.right);
        kind, left, right := OperNode(Binary(c.kind)), l, r;
        repr := {this} + l.repr + r.repr;
      }
      tree := c;
    }

    /** evalDepCond: rewrites the stored values and returns the root's. */
    method EvalDepCond(env: Env) returns (v: int)
      requires Valid()
      modifies repr
      ensures Valid() && repr == old(repr)
      ensures tree == Eval(old(tree), env) && v == tree.value
      decreases repr, 1
    {
      match kind {
        case LeafNode => EvalLeaf(env);
        case OperNode(Bang) => EvalNot(env);
        case OperNode(Binary(KOr)) => EvalOr(env);
        case OperNode(Binary(KAnd)) => EvalAnd(env);
        case OperNode(Binary(KLeft)) =>
      }
      v := value;
    }

    method EvalLeaf(env: Env)
      requires Valid() && kind == LeafNode
      modifies this
      ensures Valid() && repr == old(repr)
      ensures tree == Eval(old(tree), env)
    {
      match term {
        case JobTerm(ev, target, idx) =>
          if target.NoJob? {
            value := DP_INVALID;
          } else {
            value := EvalJobTerm(ev, idx, Elements(target, idx, env), env, value);
          }
        case _ =>
          value := TermVerdict(term, env, value);
      }
      term := TermAfter(term, env);
      tree := Cond.Leaf(value, term);
    }

    method EvalNot(env: Env)
      requires Valid() && kind == OperNode(Bang)
      modifies repr
      ensures Valid() && repr == old(repr)
      ensures tree == Eval(old(tree), env)
      decreases repr, 0
    {
      value := left.EvalDepCond(env);
      if value == DP_REJECT {
      } else if value == DP_FALSE || value == DP_INVALID {
        value := DP_TRUE;
      } else if value == DP_TRUE {
        value := DP_FALSE;
      }
      tree := Not(value, left.tree);
    }

    method EvalOr(env: Env)
      requires Valid() && kind == OperNode(Binary(KOr))
      modifies repr
      ensures Valid() && repr == old(repr)
      ensures tree == Eval(old(tree), env)
      decreases repr, 0
    {
      var v := left.EvalDepCond(env);
      if v == DP_REJECT || v == DP_TRUE {
        value := v;
      } else if v == DP_FALSE {
        v := right.EvalDepCond(env);
        value := if v == DP_REJECT || v == DP_TRUE then v else DP_FALSE;
      } else {
        value := right.EvalDepCond(env);
      }
      tree := Bin(KOr, value, left.tree, right.tree);
    }

    method EvalAnd(env: Env)
      requires Valid() && kind == OperNode(Binary(KAnd))
      modifies repr
      ensures Valid() && repr == old(repr)
      ensures tree == Eval(old(tree), env)
      decreases repr, 0
    {
      var v := left.EvalDepCond(env);
      if v == DP_INVALID || v == DP_REJECT {
        value := v;
      } else if v == DP_FALSE {
        v := right.EvalDepCond(env);
        value := if v == DP_INVALID || v == DP_REJECT then v else DP_FALSE;
      } else {
        value := right.EvalDepCond(env);
      }
      tree := Bin(KAnd, value, left.tree, right.tree);
    }

    /** resetDepCond. */
    method ResetDepCond()
      requires Valid()
      modifies repr
      ensures Valid() && repr == old(repr)
      ensures tree == Reset(old(tree))
      decreases repr
    {
      value := DP_FALSE;
      if kind == OperNode(Binary(KAnd)) || kind == OperNode(Binary(KOr)) {
        left.ResetDepCond();
        right.ResetDepCond();
        tree := Bin(kind.oper.kind, DP_FALSE, left.tree, right.tree);
      } else if kind == OperNode(Bang) {
        left.ResetDepCond();
        tree := Not(DP_FALSE, left.tree);
      } else {
        assert tree.Bin? ==> tree.kind == KLeft;
        tree := if tree.Leaf? then Cond.Leaf(DP_FALSE, term) else Bin(KLeft, DP_FALSE, left.tree, right.tree);
      }
    }

    /* All nodes of the tree, and those that freeing reaches. */
    ghost function Nodes(): (r: set<DptNode>)
      requires Valid()
      reads this, repr
      ensures this in r && r <= repr
      decreases repr
    {
      match tree
      case Leaf(_, _) => {this}
      case Not(_, a) => assert Child(left, a); {this} + left.Nodes()
      case Bin(_, _, l, r) => assert Child(left, l) && Child(right, r); {this} + left.Nodes() + right.Nodes()
    }

    ghost function Reached(): (r: set<DptNode>)
      requires Valid()
      reads this, repr
      ensures this in r && r <= repr
      decreases repr
    {
      match tree
      case Leaf(_, _) => {this}
      case Not(_, a) => assert Child(left, a); {this} + left.Reached()
      case Bin(k, _, l, r) =>
        assert Child(left, l) && Child(right, r);
        if k == KLeft then {this} else {this} + left.Reached() + right.Reached()
    }

    /** Freeing reaches every node exactly when no bracket became a node. */
    lemma {:induction false} ReachesAllNodes()
      requires Valid()
      ensures Reached() <= Nodes()
      ensures Reached() == Nodes() <==> Weight(tree, BracketWeight) == 0
      decreases repr
    {
      if tree.Not? {
        left.ReachesAllNodes();
      } else if tree.Bin? {
        left.ReachesAllNodes();
        right.ReachesAllNodes();
        assert left in Nodes() && left != this;
        assert left.Reached() !! right.Nodes() && right.Reached() !! left.Nodes();
        if Reached() == Nodes() && tree.kind != KLeft {
          assert left.Nodes() == left.Reached() by {
            assert forall n :: n in left.Nodes() ==> n in Reached() && n != this && n !in right.Reached();
          }
          assert right.Nodes() == right.Reached() by {
            assert forall n :: n in right.Nodes() ==> n in Reached() && n != this && n !in left.Reached();
          }
        }
      } else {
        assert Weight(tree, BracketWeight) == 0;
      }
    }

    /** freeDepCond: every node is freed at most once, exactly the nodes it reaches
        are freed, and the leaves among them give their references back in order. */
    method FreeDepCond(table: RefTable, heap: NodeHeap)
      requires Valid() && Reached() <= heap.live
      modifies table, heap
      ensures heap.live == old(heap.live) - Reached()
      ensures table.refs == DestroyAll(old(table.refs), Refs(FreedLeaves(tree)))
      decreases repr
    {
      match kind {
        case LeafNode =>
          if RefOf(term).Some? {
            table.DestroyRef(RefOf(term).value);
          }
          FreedOne(old(table.refs), term);
        case OperNode(Bang) =>
          left.FreeDepCond(table, heap);
        case OperNode(Binary(KLeft)) =>
        case OperNode(Binary(_)) =>
          FreeOperands(table, heap);
      }
      heap.Free(this);
    }

    method FreeOperands(table: RefTable, heap: NodeHeap)
      requires Valid() && Reached() <= heap.live && tree.Bin? && tree.kind != KLeft
      modifies table, heap
      ensures heap.live == old(heap.live) - (Reached() - {this})
      ensures table.refs == DestroyAll(old(table.refs), Refs(FreedLeaves(tree)))
      decreases repr, 0
    {
      ghost var l, r := left.Reached(), right.Reached();
      assert Reached() == {this} + l + r && l !! r && this !in l + r;
      left.FreeDepCond(table, heap);
      assert right.Reached() == r;
      right.FreeDepCond(table, heap);
      assert heap.live == old(heap.live) - l - r;
      FreedBoth(old(table.refs), FreedLeaves(tree.left), FreedLeaves(tree.right));
    }
  }

  /* The nodes that were allocated and not freed. */
  class NodeHeap {
    var live: set<DptNode>

    method Free(n: DptNode)
      requires n in live
      modifies this
      ensures live == old(live) - {n}
    {
      live := live - {n};
    }
  }

  lemma {:induction false} FreedOne(s: RefState, t: Term)
    ensures DestroyAll(s, Refs([t])) == if RefOf(t).Some? then Destroy(s, RefOf(t).value) else s
  {
    assert [t][1..] == [];
    if RefOf(t).Some? {
      assert Refs([t]) == [RefOf(t).value];
      assert [RefOf(t).value][1..] == [];
    }
  }

  lemma {:induction false} FreedBoth(s: RefState, a: seq<Term>, b: seq<Term>)
    ensures DestroyAll(s, Refs(a + b)) == DestroyAll(DestroyAll(s, Refs(a)), Refs(b))
  {
    RefsAppend(a, b);
    DestroyAppend(s, Refs(a), Refs(b));
  }

  lemma {:induction false} DestroyAppend(s: RefState, a: seq<nat>, b: seq<nat>)
    ensures DestroyAll(s, a + b) == DestroyAll(DestroyAll(s, a), b)
    decreases |a|
  {
    if a == [] {
      assert a + b == b;
    } else {
      assert (a + b)[1..] == a[1..] + b;
      DestroyAppend(Destroy(s, a[0]), a[1..], b);
    }
  }

  /* The reference counts of the shared index lists. */
  class RefTable {
    var refs: RefState

    constructor ()
      ensures refs == RefState(map[], [])
    {
      refs := RefState(map[], []);
    }

    method CreateRef(r: nat)
      modifies this
      ensures refs == Create(old(refs), r)
    {
      refs := refs.(numRef := refs.numRef[r := NumRef(refs, r) + 1]);
    }

    method DestroyRef(r: nat)
      modifies this
      ensures refs == Destroy(old(refs), r)
    {
      var n := NumRef(refs, r) - 1;
      refs := refs.(numRef := refs.numRef[r := n]);
      if n <= 0 {
        refs := refs.(released := refs.released + [r]);
      }
    }
  }

  lemma {:induction false} JoinedOnStacks(below: Stacks, top: Cond, c: Cond)
    ensures DepParser.MergeTop(Stacks(below.opers + [Binary(KAnd)], below.operands + [top] + [c]))
         == Some(PushOperand(below, NewBin(KAnd, c, top)))
  {
    assert (below.opers + [Binary(KAnd)])[..|below.opers|] == below.opers;
    assert (below.operands + [top] + [c])[..|below.operands|] == below.operands;
  }

  lemma {:induction false} TermsTreeNext(first: Term, more: seq<Term>, i: nat)
    requires i < |more|
    ensures TermsTree(first, more[..i + 1]) == NewBin(KAnd, NewLeaf(more[i]), TermsTree(first, more[..i]))
  {
    assert more[..i + 1][..i] == more[..i];
  }

  lemma {:induction false} CreateTermsNext(s: RefState, first: Term, more: seq<Term>, i: nat)
    requires i < |more|
    ensures CreateTerms(s, first, more[..i + 1]) ==
      (var t := CreateTerms(s, first, more[..i]); if RefOf(more[i]).Some? then Create(t, RefOf(more[i]).value) else t)
  {
    assert more[..i + 1][..i] == more[..i];
  }

  /* parseDepCond with its two global stacks. */
  class DepCondParser {
    var opers: seq<Oper>
    var operands: seq<Cond>
    const table: RefTable

    ghost function View(): Stacks
      reads this
    {
      Stacks(opers, operands)
    }

    constructor (t: RefTable)
      ensures View() == EMPTY && table == t
    {
      opers, operands, table := [], [], t;
    }

    /** mergeNode(MERGE_TOP). */
    method MergeTop() returns (ok: bool)
      modifies this
      ensures ok == DepParser.MergeTop(old(View())).Some?
      ensures View() == if ok then DepParser.MergeTop(old(View())).value else old(View())
    {
      var n, m := |opers|, |operands|;
      if n == 0 {
        return false;
      }
      var op := opers[n - 1];
      if m == 0 {
        return false;
      }
      var operand1 := operands[m - 1];
      if op.Bang? {
        opers, operands := opers[..n - 1], operands[..m - 1] + [NewNot(operand1)];
        return true;
      }
      if m == 1 {
        return false;
      }
      var operand2 := operands[m - 2];
      opers, operands := opers[..n - 1], operands[..m - 2] + [NewBin(op.kind, operand1, operand2)];
      return true;
    }

    /** mergeNode(MERGE_LEFT): merges back to the nearest open bracket. */
    method MergeLeft() returns (ok: bool)
      modifies this
      ensures ok == DepParser.MergeLeft(old(View())).Some?
      ensures ok ==> View() == DepParser.MergeLeft(old(View())).value
    {
      while true
        invariant DepParser.MergeLeft(View()) == DepParser.MergeLeft(old(View()))
        decreases |opers|
      {
        if opers == [] {
          return false;
        }
        if opers[|opers| - 1] == Binary(KLeft) {
          opers := opers[..|opers| - 1];
          return true;
        }
        var merged := MergeTop();
        if !merged {
          return false;
        }
      }
    }

    /** mergeNode(MERGE_ALL). */
    method MergeAll()
      modifies this
      ensures View() == DepParser.MergeAll(old(View()))
    {
      var merged := true;
      while merged
        invariant DepParser.MergeAll(View()) == DepParser.MergeAll(old(View()))
        invariant !merged ==> DepParser.MergeTop(View()).None?
        decreases merged, |opers|
      {
        ghost var before := View();
        merged := MergeTop();
        assert DepParser.MergeAll(before) == if merged then DepParser.MergeAll(View()) else before;
      }
    }

    /* A further operand and its "&&", merged at once with the one on top. */
    method JoinOperand(ghost below: Stacks, ghost top: Cond, c: Cond)
      requires View() == PushOperand(below, top)
      modifies this
      ensures View() == PushOperand(below, NewBin(KAnd, c, top))
    {
      operands := operands + [c];
      opers := opers + [Binary(KAnd)];
      JoinedOnStacks(below, top, c);
      var merged := MergeTop();
    }

    /** newNode for each job a name matched, joined by "&&" on the stacks
        (createMoreNodes). */
    method CreateMoreNodes(first: Term, more: seq<Term>)
      modifies this, table
      ensures View() == PushOperand(old(View()), TermsTree(first, more))
      ensures table.refs == CreateTerms(old(table.refs), first, more)
    {
      if RefOf(first).Some? {
        table.CreateRef(RefOf(first).value);
      }
      operands := operands + [NewLeaf(first)];
      var i := 0;
      while i < |more|
        invariant 0 <= i <= |more|
        invariant View() == PushOperand(old(View()), TermsTree(first, more[..i]))
        invariant table.refs == CreateTerms(old(table.refs), first, more[..i])
      {
        TermsTreeNext(first, more, i);
        CreateTermsNext(old(table.refs), first, more, i);
        if RefOf(more[i]).Some? {
          table.CreateRef(RefOf(more[i]).value);
        }
        JoinOperand(old(View()), TermsTree(first, more[..i]), NewLeaf(more[i]));
        i := i + 1;
      }
      assert more[..|more|] == more;
    }

    /* An operator arrives: at most one pending operator is merged first. */
    method PushOperator(node: Oper) returns (ok: bool)
      modifies this
      ensures ok == Incoming(old(View()), node).Some?
      ensures ok ==> View() == Incoming(old(View()), node).value
    {
      ok := true;
      if opers != [] && Rank(opers[|opers| - 1]) > Rank(node) {
        ok := MergeTop();
        if !ok {
          return;
        }
      }
      opers := opers + [node];
    }

    /** parseDepCond: the token loop and the checks after it. */
    method ParseDepCond(toks: seq<Token>) returns (root: Option<Cond>)
      requires View() == EMPTY
      modifies this, table
      ensures root == Parse(toks)
      ensures root.Some? ==> View() == EMPTY && table.refs == CreateAll(old(table.refs), toks)
    {
      var i := 0;
      while i < |toks|
        invariant 0 <= i <= |toks|
        invariant Run(EMPTY, toks) == Run(View(), toks[i..])
        invariant CreateAll(old(table.refs), toks) == CreateAll(table.refs, toks[i..])
      {
        assert toks[i..][0] == toks[i] && toks[i..][1..] == toks[i + 1..];
        var ok := true;
        match toks[i] {
          case TAnd => ok := PushOperator(Binary(KAnd));
          case TOr => ok := PushOperator(Binary(KOr));
          case TNot => ok := PushOperator(Bang);
          case TLeft => opers := opers + [Binary(KLeft)];
          case TRight => ok := MergeLeft();
          case TTerms(first, more) => CreateMoreNodes(first, more);
          case TBad => ok := false;
        }
        if !ok {
          return None;
        }
        i := i + 1;
      }
      assert toks[|toks|..] == [];
      MergeAll();
      if operands == [] {
        return None;
      }
      var rootNode := operands[|operands| - 1];
      operands := operands[..|operands| - 1];
      if operands != [] || opers != [] {
        return None;
      }
      return Some(rootNode);
    }
  }
}
