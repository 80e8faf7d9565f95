/**
 The index over user groups (lsbatch/daemons/mbd.grp.c, traverseGroupTree and the
 first loop of setuDataCreate): for every user and group the sets of parents,
 children, ancestors and descendants.

 traverseGroupTree unfolds a group into a queue, linking each queue entry to its
 direct members and subgroups on the way forward, and then runs backwards over
 the queue merging descendants into parents.
 */
module GroupIndex {
  import opened Groups

  /* The size of the queue in the source. */
  const MAX_GROUPS := 150

  // ----- What the sets should hold -----

  function SubNames(gs: seq<GData>): seq<Name> { seq(|gs|, i requires 0 <= i < |gs| => gs[i].group) }

  function KidNames(g: GData): seq<Name> { g.members + SubNames(g.gPtr) }

  function Kids(g: GData): set<Name> { set x | x in KidNames(g) }

  ghost predicate Below(x: Name, g: GData) {
    x in Kids(g) || exists i :: 0 <= i < |g.gPtr| && Below(x, g.gPtr[i])
  }

  /* The groups a traversal from `g` unfolds. */
  ghost predicate Unfolds(h: GData, g: GData) {
    h == g || exists i :: 0 <= i < |g.gPtr| && Unfolds(h, g.gPtr[i])
  }

  /* The configured groups and the known users.  Names identify groups, no member
     has the name of a group, and everything referred to is configured. */
  datatype Config = Config(groups: set<GData>, users: set<Name>)

  function ConfigOf(usergroups: seq<GData>, users: set<Name>): Config { Config((set g | g in usergroups), users) }

  ghost predicate WellFormed(cfg: Config) {
    && (forall g, i :: g in cfg.groups && 0 <= i < |g.gPtr| ==> g.gPtr[i] in cfg.groups)
    && (forall g, h :: g in cfg.groups && h in cfg.groups && g.group == h.group ==> g == h)
    && (forall g, h :: g in cfg.groups && h in cfg.groups ==> h.group !in g.members)
  }

  ghost predicate AllUsersName(cfg: Config, y: Name) {
    exists e :: e in cfg.groups && e.group == y && IsAllUsers(e)
  }

  /* The entries that the groups `cov` account for. */
  ghost predicate ParentSpec(cov: set<GData>, x: Name, y: Name) {
    exists h :: h in cov && h.group == y && x in Kids(h)
  }

  ghost predicate AncestorSpec(cov: set<GData>, x: Name, y: Name) {
    exists h :: h in cov && h.group == y && Below(x, h)
  }

  ghost predicate ChildSpec(cfg: Config, cov: set<GData>, x: Name, y: Name) {
    ParentSpec(cov, x, y) || (AllUsersName(cfg, y) && x in cfg.users)
  }

  ghost predicate DescendantSpec(cfg: Config, cov: set<GData>, x: Name, y: Name) {
    (exists h :: h in cov && h.group == y && Reached(cfg, x, h)) || (AllUsersName(cfg, y) && x in cfg.users)
  }

  /* Listed below `g`, or a known user with an all-users group below `g`. */
  ghost predicate Reached(cfg: Config, x: Name, g: GData) {
    Below(x, g) || (AllUsersBelow(g) && x in cfg.users)
  }

  lemma {:induction false} UnfoldsConfigured(cfg: Config, h: GData, g: GData)
    requires WellFormed(cfg) && g in cfg.groups && Unfolds(h, g)
    ensures h in cfg.groups
    decreases g
  {
    if h != g {
      var i :| 0 <= i < |g.gPtr| && Unfolds(h, g.gPtr[i]);
      UnfoldsConfigured(cfg, h, g.gPtr[i]);
    }
  }

  lemma {:induction false} BelowUnfolded(x: Name, h: GData, g: GData)
    requires Unfolds(h, g) && Below(x, h)
    ensures Below(x, g)
    decreases g
  {
    if h != g {
      var i :| 0 <= i < |g.gPtr| && Unfolds(h, g.gPtr[i]);
      BelowUnfolded(x, h, g.gPtr[i]);
    }
  }

  /* A group name below `g` names a group that `g` unfolds to. */
  lemma {:induction false} NameBelowUnfolds(cfg: Config, h: GData, g: GData)
    requires WellFormed(cfg) && g in cfg.groups && h in cfg.groups && Below(h.group, g)
    ensures Unfolds(h, g)
    decreases g
  {
    if h.group in Kids(g) {
      var k :| 0 <= k < |KidNames(g)| && KidNames(g)[k] == h.group;
      var i := k - |g.members|;
      assert g.gPtr[i] == h;
      assert Unfolds(h, g.gPtr[i]);
    } else {
      var i :| 0 <= i < |g.gPtr| && Below(h.group, g.gPtr[i]);
      NameBelowUnfolds(cfg, h, g.gPtr[i]);
    }
  }

  /* Ancestry is transitive. */
  lemma {:induction false} AncestorStep(cfg: Config, cov: set<GData>, e: GData, x: Name, y: Name)
    requires WellFormed(cfg) && cov <= cfg.groups && e in cfg.groups
    requires AncestorSpec(cov, e.group, y) && x in Kids(e)
    ensures AncestorSpec(cov, x, y)
  {
    var h :| h in cov && h.group == y && Below(e.group, h);
    NameBelowUnfolds(cfg, e, h);
    BelowUnfolded(x, e, h);
  }

  lemma {:induction false} KidIsNotSelf(cfg: Config, g: GData)
    requires WellFormed(cfg) && g in cfg.groups
    ensures g.group !in Kids(g)
  {
    forall i | 0 <= i < |g.gPtr| ensures g.gPtr[i].group != g.group { SubSmaller(g, i); }
  }

  // ----- The index as a value -----

  function At(m: map<Name, set<Name>>, x: Name): set<Name> { if x in m then m[x] else {} }

  function Add(m: map<Name, set<Name>>, x: Name, s: set<Name>): map<Name, set<Name>> { m[x := At(m, x) + s] }

  datatype Index = Index(
    parents: map<Name, set<Name>>, children: map<Name, set<Name>>,
    ancestors: map<Name, set<Name>>, descendants: map<Name, set<Name>>)

  /* One member or subgroup `u` of the group named `cur`. */
  function LinkOne(ix: Index, u: Name, cur: Name): Index {
    Index(Add(ix.parents, u, {cur}),
          Add(ix.children, cur, {u}),
          Add(ix.ancestors, u, {cur} + At(ix.ancestors, cur)),
          Add(ix.descendants, cur, {u}))
  }

  function LinkAll(ix: Index, us: seq<Name>, cur: Name): Index
    decreases |us|
  {
    if us == [] then ix else LinkOne(LinkAll(ix, us[..|us| - 1], cur), us[|us| - 1], cur)
  }

  function MergeUp(ix: Index, cur: Name, parent: Name): Index {
    ix.(descendants := Add(ix.descendants, parent, At(ix.descendants, cur)))
  }

  /* No set holds more than the groups `cov` account for. */
  ghost predicate SoundParents(ix: Index, cov: set<GData>) {
    forall x, y :: y in At(ix.parents, x) ==> ParentSpec(cov, x, y)
  }
  ghost predicate SoundAncestors(ix: Index, cov: set<GData>) {
    forall x, y :: y in At(ix.ancestors, x) ==> AncestorSpec(cov, x, y)
  }
  ghost predicate SoundChildren(ix: Index, cfg: Config, cov: set<GData>) {
    forall x, y :: x in At(ix.children, y) ==> ChildSpec(cfg, cov, x, y)
  }
  ghost predicate SoundDescendants(ix: Index, cfg: Config, cov: set<GData>) {
    forall x, y :: x in At(ix.descendants, y) ==> DescendantSpec(cfg, cov, x, y)
  }
  ghost predicate Sound(ix: Index, cfg: Config, cov: set<GData>) {
    SoundParents(ix, cov) && SoundAncestors(ix, cov) && SoundChildren(ix, cfg, cov) && SoundDescendants(ix, cfg, cov)
  }

  /* Every set holds what the groups `cov` account for. */
  ghost predicate CompleteUp(ix: Index, cov: set<GData>) {
    && (forall x, y :: ParentSpec(cov, x, y) ==> y in At(ix.parents, x))
    && (forall x, y :: AncestorSpec(cov, x, y) ==> y in At(ix.ancestors, x))
  }
  ghost predicate CompleteDown(ix: Index, cfg: Config, cov: set<GData>) {
    && (forall x, y :: ChildSpec(cfg, cov, x, y) ==> x in At(ix.children, y))
    && (forall x, y :: DescendantSpec(cfg, cov, x, y) ==> x in At(ix.descendants, y))
  }

  /* Each set holds exactly what the groups `cov` account for. */
  ghost predicate Exact(ix: Index, cfg: Config, cov: set<GData>) {
    Sound(ix, cfg, cov) && CompleteUp(ix, cov) && CompleteDown(ix, cfg, cov)
  }

  ghost predicate Within(m: map<Name, set<Name>>, n: map<Name, set<Name>>) { forall x :: At(m, x) <= At(n, x) }

  ghost predicate Grown(ix: Index, ix': Index) {
    && Within(ix.parents, ix'.parents) && Within(ix.children, ix'.children)
    && Within(ix.ancestors, ix'.ancestors) && Within(ix.descendants, ix'.descendants)
  }

  ghost predicate Linked(ix: Index, x: Name, y: Name) {
    && y in At(ix.parents, x) && y in At(ix.ancestors, x)
    && x in At(ix.children, y) && x in At(ix.descendants, y)
  }

  lemma {:induction false} LinkOneSoundUp(ix: Index, u: Name, e: GData, cfg: Config, cov: set<GData>)
    requires WellFormed(cfg) && cov <= cfg.groups && e in cov && u in Kids(e)
    requires SoundParents(ix, cov) && SoundAncestors(ix, cov)
    ensures var ix' := LinkOne(ix, u, e.group); SoundParents(ix', cov) && SoundAncestors(ix', cov)
  {
    var ix' := LinkOne(ix, u, e.group);
    assert ParentSpec(cov, u, e.group) && AncestorSpec(cov, u, e.group);
    forall x, y | y in At(ix'.ancestors, x) ensures AncestorSpec(cov, x, y) {
      if y !in At(ix.ancestors, x) && y != e.group { AncestorStep(cfg, cov, e, u, y); }
    }
  }

  lemma {:induction false} LinkOneSoundDown(ix: Index, u: Name, e: GData, cfg: Config, cov: set<GData>)
    requires e in cov && u in Kids(e)
    requires SoundChildren(ix, cfg, cov) && SoundDescendants(ix, cfg, cov)
    ensures var ix' := LinkOne(ix, u, e.group); SoundChildren(ix', cfg, cov) && SoundDescendants(ix', cfg, cov)
  {
    assert ParentSpec(cov, u, e.group) && Reached(cfg, u, e);
  }

  lemma {:induction false} LinkAllSound(ix: Index, us: seq<Name>, e: GData, cfg: Config, cov: set<GData>)
    requires WellFormed(cfg) && cov <= cfg.groups && e in cov && (forall u :: u in us ==> u in Kids(e))
    requires Sound(ix, cfg, cov)
    ensures Sound(LinkAll(ix, us, e.group), cfg, cov)
    decreases |us|
  {
    if us != [] {
      var init := us[..|us| - 1];
      LinkAllSound(ix, init, e, cfg, cov);
      LinkOneSoundUp(LinkAll(ix, init, e.group), us[|us| - 1], e, cfg, cov);
      LinkOneSoundDown(LinkAll(ix, init, e.group), us[|us| - 1], e, cfg, cov);
    }
  }

  lemma {:induction false} LinkOneGrown(ix: Index, u: Name, cur: Name)
    requires u != cur
    ensures var ix' := LinkOne(ix, u, cur);
      Grown(ix, ix') && Linked(ix', u, cur) &&
      At(ix'.ancestors, cur) == At(ix.ancestors, cur) <= At(ix'.ancestors, u)
  {
  }

  lemma {:induction false} LinkAllGrown(ix: Index, us: seq<Name>, cur: Name)
    requires cur !in us
    ensures var ix' := LinkAll(ix, us, cur);
      Grown(ix, ix') && At(ix'.ancestors, cur) == At(ix.ancestors, cur) &&
      (forall u :: u in us ==> Linked(ix', u, cur) && At(ix.ancestors, cur) <= At(ix'.ancestors, u))
    decreases |us|
  {
    if us != [] {
      var init, last := us[..|us| - 1], us[|us| - 1];
      LinkAllGrown(ix, init, cur);
      var mid := LinkAll(ix, init, cur);
      LinkOneGrown(mid, last, cur);
      var ix' := LinkAll(ix, us, cur);
      assert us == init + [last];
      forall u | u in us
        ensures Linked(ix', u, cur) && At(ix.ancestors, cur) <= At(ix'.ancestors, u)
      {
        if u != last { assert u in init && Linked(mid, u, cur); }
      }
    }
  }

  /* Unfolding one queue entry. */
  ghost predicate KidsLinked(ix: Index, e: GData, above: set<Name>) {
    forall x :: x in Kids(e) ==> Linked(ix, x, e.group) && above <= At(ix.ancestors, x)
  }

  lemma {:induction false} UnfoldKeeps(ix: Index, e: GData, cfg: Config, cov: set<GData>)
    requires WellFormed(cfg) && cov <= cfg.groups && e in cov && Sound(ix, cfg, cov)
    ensures var ix' := LinkAll(ix, KidNames(e), e.group);
      Sound(ix', cfg, cov) && Grown(ix, ix') && KidsLinked(ix', e, At(ix.ancestors, e.group))
  {
    KidIsNotSelf(cfg, e);
    LinkAllSound(ix, KidNames(e), e, cfg, cov);
    LinkAllGrown(ix, KidNames(e), e.group);
  }

  function Size(g: GData): nat
    ensures Size(g) >= 1
    decreases g, 0
  {
    1 + SizeAll(g.gPtr)
  }

  function SizeAll(gs: seq<GData>): nat
    ensures SizeAll(gs) >= |gs|
    decreases gs
  {
    if gs == [] then 0 else SizeAll(gs[..|gs| - 1]) + Size(gs[|gs| - 1])
  }

  lemma {:induction false} SizeInAll(gs: seq<GData>, i: nat)
    requires i < |gs|
    ensures Size(gs[i]) <= SizeAll(gs)
    decreases |gs|
  {
    if i < |gs| - 1 { SizeInAll(gs[..|gs| - 1], i); }
  }

  lemma {:induction false} SubSmaller(e: GData, i: nat)
    requires i < |e.gPtr|
    ensures Size(e.gPtr[i]) < Size(e)
  {
    SizeInAll(e.gPtr, i);
  }

  // ----- The queue of a traversal -----

  datatype Entry = Entry(gData: GData, parent: Name)

  /* The queue with, for each entry, the index of its parent entry, the index of
     its first subgroup's entry once unfolded, and the names on its path. */
  datatype Queue = Queue(entries: seq<Entry>, par: seq<nat>, first: seq<nat>, path: seq<set<Name>>)

  ghost predicate IsChild(q: Queue, i: nat)
    requires |q.entries| == |q.par| == |q.path| && i < |q.entries|
  {
    q.par[i] < i &&
    var p := q.entries[q.par[i]].gData;
    q.entries[i].parent == p.group && q.entries[i].gData in p.gPtr && q.path[i] == q.path[q.par[i]] + {p.group}
  }

  ghost predicate HasChild(q: Queue, i: nat, t: nat)
    requires |q.entries| == |q.par| && i < |q.entries| && i < |q.first| && t < |q.entries[i].gData.gPtr|
  {
    var j := q.first[i] + t;
    i < j < |q.entries| && q.par[j] == i && q.entries[j].gData == q.entries[i].gData.gPtr[t]
  }

  ghost predicate Shape(q: Queue, grp: GData) {
    && |q.entries| == |q.par| == |q.path| >= 1 && |q.first| <= |q.entries|
    && q.entries[0].gData == grp && q.path[0] == {}
    && (forall i :: 0 < i < |q.entries| ==> IsChild(q, i))
    && (forall i, t :: 0 <= i < |q.first| && 0 <= t < |q.entries[i].gData.gPtr| ==> HasChild(q, i, t))
  }

  /* The queue after unfolding its next entry. */
  function EntriesOf(gs: seq<GData>, name: Name): seq<Entry> {
    seq(|gs|, t requires 0 <= t < |gs| => Entry(gs[t], name))
  }

  function Unfolding(e: GData): seq<Entry> { EntriesOf(e.gPtr, e.group) }

  function Next(q: Queue): Queue
    requires |q.entries| == |q.par| == |q.path| && |q.first| < |q.entries|
  {
    var k := |q.first|;
    var e := q.entries[k].gData;
    Queue(q.entries + Unfolding(e),
          q.par + seq(|e.gPtr|, _ => k),
          q.first + [|q.entries|],
          q.path + seq(|e.gPtr|, _ => q.path[k] + {e.group}))
  }

  lemma {:induction false} NextShape(q: Queue, grp: GData)
    requires Shape(q, grp) && |q.first| < |q.entries|
    ensures Shape(Next(q), grp)
  {
    var n := Next(q);
    var k := |q.first|;
    forall i | 0 < i < |n.entries| ensures IsChild(n, i) {
      if i < |q.entries| { assert IsChild(q, i); }
    }
    forall i, t | 0 <= i < |n.first| && 0 <= t < |n.entries[i].gData.gPtr| ensures HasChild(n, i, t) {
      if i < k { assert HasChild(q, i, t); }
    }
  }

  ghost predicate InCov(q: Queue, cov: set<GData>) {
    forall i :: 0 <= i < |q.entries| ==> q.entries[i].gData in cov
  }

  /* The entries unfolded so far are linked, and every entry has its path above it. */
  ghost predicate LinkedSoFar(ix: Index, q: Queue)
    requires |q.entries| == |q.path| && |q.first| <= |q.entries|
  {
    forall i :: 0 <= i < |q.first| ==> KidsLinked(ix, q.entries[i].gData, q.path[i])
  }

  ghost predicate PathsAbove(ix: Index, q: Queue)
    requires |q.entries| == |q.path|
  {
    forall i :: 0 <= i < |q.entries| ==> q.path[i] <= At(ix.ancestors, q.entries[i].gData.group)
  }

  lemma {:induction false} NextLinked(ix: Index, ix': Index, q: Queue, grp: GData)
    requires Shape(q, grp) && |q.first| < |q.entries| && LinkedSoFar(ix, q) && Grown(ix, ix')
    requires KidsLinked(ix', q.entries[|q.first|].gData, q.path[|q.first|])
    ensures LinkedSoFar(ix', Next(q))
  {
    var n, k := Next(q), |q.first|;
    forall i | 0 <= i < |n.first| ensures KidsLinked(ix', n.entries[i].gData, n.path[i]) {
      if i < k {
        GrownLinked(ix, ix', q.entries[i].gData, q.path[i]);
      }
    }
  }

  lemma {:induction false} NextPaths(ix: Index, ix': Index, q: Queue, grp: GData)
    requires Shape(q, grp) && |q.first| < |q.entries| && PathsAbove(ix, q) && Grown(ix, ix')
    requires KidsLinked(ix', q.entries[|q.first|].gData, q.path[|q.first|])
    ensures PathsAbove(ix', Next(q))
  {
    var n, k := Next(q), |q.first|;
    var e := q.entries[k].gData;
    forall i | 0 <= i < |n.entries| ensures n.path[i] <= At(ix'.ancestors, n.entries[i].gData.group) {
      if i < |q.entries| {
        assert n.path[i] == q.path[i] && q.path[i] <= At(ix.ancestors, q.entries[i].gData.group);
      } else {
        var t := i - |q.entries|;
        assert KidNames(e)[|e.members| + t] == e.gPtr[t].group;
        assert Linked(ix', e.gPtr[t].group, e.group);
      }
    }
  }

  /* One step of the forward loop. */
  lemma {:induction false} ForwardStep(ix: Index, q: Queue, grp: GData, cfg: Config, cov: set<GData>)
    requires WellFormed(cfg) && cov <= cfg.groups && Sound(ix, cfg, cov)
    requires Shape(q, grp) && |q.first| < |q.entries| && InCov(q, cov) && LinkedSoFar(ix, q) && PathsAbove(ix, q)
    ensures var e := q.entries[|q.first|].gData; var ix' := LinkAll(ix, KidNames(e), e.group);
      Sound(ix', cfg, cov) && Grown(ix, ix') &&
      Shape(Next(q), grp) && LinkedSoFar(ix', Next(q)) && PathsAbove(ix', Next(q))
  {
    var k := |q.first|;
    var e := q.entries[k].gData;
    UnfoldKeeps(ix, e, cfg, cov);
    var ix' := LinkAll(ix, KidNames(e), e.group);
    assert q.path[k] <= At(ix.ancestors, e.group);
    assert KidsLinked(ix', e, q.path[k]);
    NextShape(q, grp);
    NextLinked(ix, ix', q, grp);
    NextPaths(ix, ix', q, grp);
  }

  lemma {:induction false} GrownLinked(ix: Index, ix': Index, e: GData, above: set<Name>)
    requires Grown(ix, ix') && KidsLinked(ix, e, above)
    ensures KidsLinked(ix', e, above)
  {
  }

  // ----- The forward pass is complete upwards -----

  ghost predicate CoveredUp(ix: Index, e: GData) {
    forall h, x :: Unfolds(h, e) && Below(x, h) ==> h.group in At(ix.ancestors, x)
  }

  ghost predicate Inherits(ix: Index, e: GData, above: set<Name>) {
    forall x :: Below(x, e) ==> above <= At(ix.ancestors, x)
  }

  ghost predicate AllLinked(ix: Index, e: GData) {
    forall h :: Unfolds(h, e) ==> KidsLinked(ix, h, {})
  }

  ghost predicate Settled(ix: Index, q: Queue, grp: GData) {
    Shape(q, grp) && |q.first| == |q.entries| && LinkedSoFar(ix, q)
  }

  lemma {:induction false} CoverFrom(ix: Index, q: Queue, grp: GData, i: nat)
    requires Settled(ix, q, grp) && i < |q.entries|
    ensures var e := q.entries[i].gData;
      CoveredUp(ix, e) && Inherits(ix, e, q.path[i]) && AllLinked(ix, e)
    decreases |q.entries| - i
  {
    var e := q.entries[i].gData;
    assert KidsLinked(ix, e, q.path[i]);
    forall t | 0 <= t < |e.gPtr|
      ensures CoveredUp(ix, e.gPtr[t]) && Inherits(ix, e.gPtr[t], q.path[i] + {e.group}) && AllLinked(ix, e.gPtr[t])
    {
      assert HasChild(q, i, t);
      assert IsChild(q, q.first[i] + t);
      CoverFrom(ix, q, grp, q.first[i] + t);
    }
    forall x | Below(x, e) ensures q.path[i] <= At(ix.ancestors, x) && e.group in At(ix.ancestors, x) {
      if x !in Kids(e) {
        var t :| 0 <= t < |e.gPtr| && Below(x, e.gPtr[t]);
        assert Inherits(ix, e.gPtr[t], q.path[i] + {e.group});
      }
    }
    forall h, x | Unfolds(h, e) && Below(x, h) ensures h.group in At(ix.ancestors, x) {
      if h != e {
        var t :| 0 <= t < |e.gPtr| && Unfolds(h, e.gPtr[t]);
        assert CoveredUp(ix, e.gPtr[t]);
      }
    }
    forall h | Unfolds(h, e) ensures KidsLinked(ix, h, {}) {
      if h != e {
        var t :| 0 <= t < |e.gPtr| && Unfolds(h, e.gPtr[t]);
        assert AllLinked(ix, e.gPtr[t]);
      }
    }
  }

  // ----- The backward pass is complete downwards -----

  /* Everything reached from `e` is among the descendants of `y`. */
  ghost predicate DescendsInto(ix: Index, cfg: Config, e: GData, y: Name) {
    forall x :: Reached(cfg, x, e) ==> x in At(ix.descendants, y)
  }

  ghost predicate AllUsersIn(ix: Index, cfg: Config) {
    forall e :: e in cfg.groups && IsAllUsers(e) ==> cfg.users <= At(ix.descendants, e.group)
  }

  /* The entries after `top` are merged into their parents. */
  ghost predicate Merged(ix: Index, cfg: Config, q: Queue, top: nat)
    requires |q.entries| == |q.par|
  {
    forall j :: top < j < |q.entries| && q.par[j] < j ==>
      DescendsInto(ix, cfg, q.entries[j].gData, q.entries[q.par[j]].gData.group)
  }

  lemma {:induction false} SelfDescends(ix: Index, cfg: Config, q: Queue, grp: GData, i: nat)
    requires Settled(ix, q, grp) && i < |q.entries|
    requires q.entries[i].gData in cfg.groups && AllUsersIn(ix, cfg) && Merged(ix, cfg, q, i)
    ensures DescendsInto(ix, cfg, q.entries[i].gData, q.entries[i].gData.group)
  {
    var e := q.entries[i].gData;
    assert KidsLinked(ix, e, q.path[i]);
    forall x | Reached(cfg, x, e) ensures x in At(ix.descendants, e.group) {
      if Below(x, e) && x in Kids(e) {
        assert Linked(ix, x, e.group);
      } else if !(IsAllUsers(e) && x in cfg.users) {
        var t :| 0 <= t < |e.gPtr| && Reached(cfg, x, e.gPtr[t]);
        assert HasChild(q, i, t);
        assert DescendsInto(ix, cfg, e.gPtr[t], e.group);
      }
    }
  }

  lemma {:induction false} ReachedUp(cfg: Config, x: Name, e: GData, p: GData)
    requires Reached(cfg, x, e) && e in p.gPtr
    ensures Reached(cfg, x, p)
  {
    var t :| 0 <= t < |p.gPtr| && p.gPtr[t] == e;
  }

  lemma {:induction false} MergeUpSound(ix: Index, cfg: Config, cov: set<GData>, e: GData, p: GData)
    requires WellFormed(cfg) && cov <= cfg.groups && e in cov && p in cov && e in p.gPtr && Sound(ix, cfg, cov)
    ensures Sound(MergeUp(ix, e.group, p.group), cfg, cov)
  {
    var ix' := MergeUp(ix, e.group, p.group);
    forall x, y | x in At(ix'.descendants, y) ensures DescendantSpec(cfg, cov, x, y) {
      if x !in At(ix.descendants, y) {
        assert DescendantSpec(cfg, cov, x, e.group);
        assert Reached(cfg, x, e);
        ReachedUp(cfg, x, e, p);
      }
    }
  }

  lemma {:induction false} MergeUpMerges(ix: Index, cfg: Config, q: Queue, grp: GData, top: nat)
    requires Settled(ix, q, grp) && 0 < top < |q.entries|
    requires q.entries[top].gData in cfg.groups && AllUsersIn(ix, cfg) && Merged(ix, cfg, q, top)
    ensures var ix' := MergeUp(ix, q.entries[top].gData.group, q.entries[top].parent);
      Grown(ix, ix') && Settled(ix', q, grp) && AllUsersIn(ix', cfg) && Merged(ix', cfg, q, top - 1)
  {
    var e := q.entries[top].gData;
    var ix' := MergeUp(ix, e.group, q.entries[top].parent);
    SelfDescends(ix, cfg, q, grp, top);
    assert IsChild(q, top);
    forall i | 0 <= i < |q.first| ensures KidsLinked(ix', q.entries[i].gData, q.path[i]) {
      GrownLinked(ix, ix', q.entries[i].gData, q.path[i]);
    }
  }

  lemma {:induction false} EntryOf(q: Queue, grp: GData, i: nat, h: GData) returns (j: nat)
    requires Shape(q, grp) && |q.first| == |q.entries| && i < |q.entries| && Unfolds(h, q.entries[i].gData)
    ensures j < |q.entries| && q.entries[j].gData == h
    decreases |q.entries| - i
  {
    var e := q.entries[i].gData;
    if h == e {
      j := i;
    } else {
      var t :| 0 <= t < |e.gPtr| && Unfolds(h, e.gPtr[t]);
      assert HasChild(q, i, t);
      j := EntryOf(q, grp, q.first[i] + t, h);
    }
  }

  // ----- Putting it together -----

  ghost function Unfolded(cfg: Config, grp: GData): set<GData> { set h | h in cfg.groups && Unfolds(h, grp) }

  lemma {:induction false} SoundMore(ix: Index, cfg: Config, cov: set<GData>, more: set<GData>)
    requires Sound(ix, cfg, cov) && cov <= more
    ensures Sound(ix, cfg, more)
  {
  }

  lemma {:induction false} CompleteUpMore(ix0: Index, ix: Index, cfg: Config, cov: set<GData>, q: Queue, grp: GData)
    requires WellFormed(cfg) && grp in cfg.groups && CompleteUp(ix0, cov) && Grown(ix0, ix) && Settled(ix, q, grp)
    ensures CompleteUp(ix, cov + Unfolded(cfg, grp))
  {
    CoverFrom(ix, q, grp, 0);
    var more := cov + Unfolded(cfg, grp);
    forall x, y | ParentSpec(more, x, y) ensures y in At(ix.parents, x) {
      var h :| h in more && h.group == y && x in Kids(h);
      if h in cov {
        assert ParentSpec(cov, x, y);
      } else {
        assert KidsLinked(ix, h, {}) && Linked(ix, x, y);
      }
    }
    forall x, y | AncestorSpec(more, x, y) ensures y in At(ix.ancestors, x) {
      var h :| h in more && h.group == y && Below(x, h);
      if h in cov { assert AncestorSpec(cov, x, y); }
    }
  }

  lemma {:induction false} CompleteDownMore(ix0: Index, ix: Index, cfg: Config, cov: set<GData>, q: Queue, grp: GData)
    requires WellFormed(cfg) && grp in cfg.groups && CompleteDown(ix0, cfg, cov) && Grown(ix0, ix) && Settled(ix, q, grp)
    requires InCov(q, cfg.groups) && AllUsersIn(ix, cfg) && Merged(ix, cfg, q, 0)
    ensures CompleteDown(ix, cfg, cov + Unfolded(cfg, grp))
  {
    CoverFrom(ix, q, grp, 0);
    var more := cov + Unfolded(cfg, grp);
    forall x, y | ChildSpec(cfg, more, x, y) ensures x in At(ix.children, y) {
      if !ChildSpec(cfg, cov, x, y) {
        var h :| h in more && h.group == y && x in Kids(h);
        assert h !in cov;
        assert KidsLinked(ix, h, {}) && Linked(ix, x, y);
      }
    }
    forall x, y | DescendantSpec(cfg, more, x, y) ensures x in At(ix.descendants, y) {
      if !DescendantSpec(cfg, cov, x, y) {
        var h :| h in more && h.group == y && Reached(cfg, x, h);
        assert h !in cov;
        var j := EntryOf(q, grp, 0, h);
        MergedAfter(ix, cfg, q, j);
        SelfDescends(ix, cfg, q, grp, j);
      }
    }
  }

  lemma {:induction false} MergedAfter(ix: Index, cfg: Config, q: Queue, j: nat)
    requires |q.entries| == |q.par| && Merged(ix, cfg, q, 0)
    ensures Merged(ix, cfg, q, j)
  {
  }

  /* Queue entries not yet unfolded, and what is still to come. */
  function PendingSize(entries: seq<Entry>): nat
    decreases |entries|
  {
    if entries == [] then 0 else Size(entries[0].gData) + PendingSize(entries[1..])
  }

  lemma {:induction false} PendingAppend(a: seq<Entry>, b: seq<Entry>)
    ensures PendingSize(a + b) == PendingSize(a) + PendingSize(b)
    decreases |a|
  {
    if a == [] {
      assert a + b == b;
    } else {
      assert (a + b)[1..] == a[1..] + b;
      PendingAppend(a[1..], b);
    }
  }

  lemma {:induction false} PendingUnfolding(gs: seq<GData>, name: Name)
    ensures PendingSize(EntriesOf(gs, name)) == SizeAll(gs)
    decreases |gs|
  {
    if gs != [] {
      var init := gs[..|gs| - 1];
      var last := Entry(gs[|gs| - 1], name);
      PendingUnfolding(init, name);
      var ini := EntriesOf(init, name);
      assert EntriesOf(gs, name) == ini + [last];
      PendingAppend(ini, [last]);
      assert [last][1..] == [];
    }
  }

  lemma {:induction false} NothingPending(entries: seq<Entry>)
    ensures PendingSize(entries[|entries|..]) == 0
  {
  }

  lemma {:induction false} PendingAtLeast(entries: seq<Entry>)
    ensures PendingSize(entries) >= |entries|
    decreases |entries|
  {
    if entries != [] { PendingAtLeast(entries[1..]); }
  }

  class UserIndex {
    var parents: map<Name, set<Name>>
    var children: map<Name, set<Name>>
    var ancestors: map<Name, set<Name>>
    var descendants: map<Name, set<Name>>

    ghost function View(): Index
      reads this
    {
      Index(parents, children, ancestors, descendants)
    }

    /** uDataGroupCreate: before any traversal only the all-users groups have
        children and descendants, namely every known user. */
    constructor (usergroups: seq<GData>, users: set<Name>)
      ensures Exact(View(), ConfigOf(usergroups, users), {})
    {
      parents, children, ancestors, descendants := map[], map[], map[], map[];
      new;
      var i := 0;
      while i < |usergroups|
        invariant 0 <= i <= |usergroups|
        invariant parents == map[] && ancestors == map[] && children == descendants
        invariant forall y :: At(children, y) == if EmptyNamed(usergroups, i, y) then users else {}
      {
        ghost var before := children;
        if IsAllUsers(usergroups[i]) {
          children := children[usergroups[i].group := users];
          descendants := descendants[usergroups[i].group := users];
        }
        EmptyNamedNext(usergroups, i);
        forall y ensures At(children, y) == if EmptyNamed(usergroups, i + 1, y) then users else {} {
          assert At(before, y) == if EmptyNamed(usergroups, i, y) then users else {};
        }
        i := i + 1;
      }
      InitialIndex(View(), usergroups, users);
    }

    /* One member or subgroup of the group being unfolded. */
    method Link(u: Name, cur: Name)
      requires u != cur
      modifies this
      ensures View() == LinkOne(old(View()), u, cur)
    {
      parents := parents[u := At(parents, u) + {cur}];
      var above := At(ancestors, u) + {cur};
      above := above + At(ancestors, cur);
      ancestors := ancestors[u := above];
      children := children[cur := At(children, cur) + {u}];
      descendants := descendants[cur := At(descendants, cur) + {u}];
      assert above == old(At(ancestors, u)) + ({cur} + old(At(ancestors, cur)));
    }

    method LinkMembers(us: seq<Name>, cur: Name)
      requires cur !in us
      modifies this
      ensures View() == LinkAll(old(View()), us, cur)
    {
      var k := 0;
      while k < |us|
        invariant 0 <= k <= |us|
        invariant View() == LinkAll(old(View()), us[..k], cur)
      {
        assert us[..k + 1][..k] == us[..k];
        Link(us[k], cur);
        k := k + 1;
      }
      assert us[..|us|] == us;
    }

    method LinkSubs(gs: seq<GData>, cur: Name, uStack: seq<Entry>) returns (uStack': seq<Entry>)
      requires cur !in SubNames(gs) && |uStack| + |gs| <= MAX_GROUPS
      modifies this
      ensures View() == LinkAll(old(View()), SubNames(gs), cur)
      ensures uStack' == uStack + EntriesOf(gs, cur)
    {
      uStack' := uStack;
      var i := 0;
      while i < |gs|
        invariant 0 <= i <= |gs|
        invariant View() == LinkAll(old(View()), SubNames(gs)[..i], cur)
        invariant uStack' == uStack + EntriesOf(gs, cur)[..i]
      {
        var sub := gs[i];
        SubAt(old(View()), gs, cur, i, uStack);
        uStack' := uStack' + [Entry(sub, cur)];
        Link(sub.group, cur);
        i := i + 1;
      }
      assert SubNames(gs)[..|gs|] == SubNames(gs) && EntriesOf(gs, cur)[..|gs|] == EntriesOf(gs, cur);
    }

    /* One queue entry: its members and subgroups are linked to it, and its
       subgroups join the queue. */
    method Unfold(e: GData, uStack: seq<Entry>) returns (uStack': seq<Entry>)
      requires e.group !in Kids(e) && |uStack| + |e.gPtr| <= MAX_GROUPS
      modifies this
      ensures View() == LinkAll(old(View()), KidNames(e), e.group)
      ensures uStack' == uStack + Unfolding(e)
    {
      assert forall n :: n in SubNames(e.gPtr) ==> n in KidNames(e);
      LinkMembers(e.members, e.group);
      uStack' := LinkSubs(e.gPtr, e.group, uStack);
      LinkAllAppend(old(View()), e.members, SubNames(e.gPtr), e.group);
    }

    /* The forward pass over the growing queue. */
    method Forward(grp: GData, ghost cfg: Config, ghost more: set<GData>) returns (uStack: seq<Entry>, ghost q: Queue)
      requires WellFormed(cfg) && grp in cfg.groups && Unfolded(cfg, grp) <= more <= cfg.groups && Size(grp) <= MAX_GROUPS
      requires Sound(View(), cfg, more)
      modifies this
      ensures |uStack| == Size(grp)
      ensures q.entries == uStack && Settled(View(), q, grp) && InCov(q, more)
      ensures Sound(View(), cfg, more) && Grown(old(View()), View())
    {
      q := Queue([Entry(grp, "")], [0], [], [{}]);
      uStack := [Entry(grp, "")];
      var uStackCur := 0;
      assert uStack[0..] == uStack && uStack[1..] == [] && PendingSize(uStack) == Size(grp);
      while uStackCur < |uStack|
        invariant q.entries == uStack && |q.first| == uStackCur <= |uStack|
        invariant Shape(q, grp) && InCov(q, Unfolded(cfg, grp))
        invariant LinkedSoFar(View(), q) && PathsAbove(View(), q)
        invariant Sound(View(), cfg, more) && Grown(old(View()), View())
        invariant uStackCur + PendingSize(uStack[uStackCur..]) == Size(grp)
        decreases PendingSize(uStack[uStackCur..])
      {
        var e := uStack[uStackCur].gData;
        ForwardStep(View(), q, grp, cfg, more);
        KidIsNotSelf(cfg, e);
        NextInCov(q, grp, cfg);
        QueueFits(uStack, uStackCur);
        uStack := Unfold(e, uStack);
        q := Next(q);
        uStackCur := uStackCur + 1;
      }
      NothingPending(uStack);
    }

    /* The backward pass: descendants move up to the parents. */
    method Backward(uStack: seq<Entry>, ghost q: Queue, ghost grp: GData, ghost cfg: Config, ghost more: set<GData>)
      requires WellFormed(cfg) && more <= cfg.groups
      requires q.entries == uStack && Settled(View(), q, grp) && InCov(q, more)
      requires Sound(View(), cfg, more) && AllUsersIn(View(), cfg)
      modifies this
      ensures Settled(View(), q, grp) && Merged(View(), cfg, q, 0)
      ensures Sound(View(), cfg, more) && AllUsersIn(View(), cfg) && Grown(old(View()), View())
    {
      var uStackTop := |uStack| - 1;
      while uStackTop > 0
        invariant 0 <= uStackTop < |uStack|
        invariant Settled(View(), q, grp) && AllUsersIn(View(), cfg) && Merged(View(), cfg, q, uStackTop)
        invariant Sound(View(), cfg, more) && Grown(old(View()), View())
      {
        assert IsChild(q, uStackTop);
        MergeUpSound(View(), cfg, more, uStack[uStackTop].gData, uStack[q.par[uStackTop]].gData);
        MergeUpMerges(View(), cfg, q, grp, uStackTop);
        var cur, parent := uStack[uStackTop].gData.group, uStack[uStackTop].parent;
        descendants := descendants[parent := At(descendants, parent) + At(descendants, cur)];
        uStackTop := uStackTop - 1;
      }
    }

    /** traverseGroupTree: the sets that were exact for the groups `cov` become
        exact for those groups and all that `grp` unfolds to; the queue never
        outgrows its buffer. */
    method TraverseGroupTree(grp: GData, ghost cfg: Config, ghost cov: set<GData>)
      requires WellFormed(cfg) && cov <= cfg.groups && grp in cfg.groups && Size(grp) <= MAX_GROUPS
      requires Exact(View(), cfg, cov)
      modifies this
      ensures Exact(View(), cfg, cov + Unfolded(cfg, grp))
    {
      ghost var more := cov + Unfolded(cfg, grp);
      SoundMore(View(), cfg, cov, more);
      var uStack;
      ghost var q;
      uStack, q := Forward(grp, cfg, more);
      AllUsersStay(old(View()), View(), cfg, cov);
      Backward(uStack, q, grp, cfg, more);
      CompleteUpMore(old(View()), View(), cfg, cov, q, grp);
      CompleteDownMore(old(View()), View(), cfg, cov, q, grp);
    }

    /** The first loop of setuDataCreate: every group in the table is traversed,
        except those whose name starts with "others". */
    method SetuDataCreate(table: seq<GData>, ghost cfg: Config)
      requires WellFormed(cfg) && Exact(View(), cfg, {})
      requires forall g :: g in table ==> g in cfg.groups && Size(g) <= MAX_GROUPS
      modifies this
      ensures Exact(View(), cfg, Covered(cfg, table))
    {
      var i := 0;
      assert Covered(cfg, table[..0]) == {};
      while i < |table|
        invariant 0 <= i <= |table|
        invariant Exact(View(), cfg, Covered(cfg, table[..i]))
      {
        if !StartsWithOthers(table[i].group) {
          TraverseGroupTree(table[i], cfg, Covered(cfg, table[..i]));
        }
        CoveredStep(cfg, table, i);
        i := i + 1;
      }
      assert table[..|table|] == table;
    }
  }

  /* One of the first `n` groups is an all-users group named `y`. */
  ghost predicate EmptyNamed(usergroups: seq<GData>, n: nat, y: Name) {
    exists k :: 0 <= k < n && k < |usergroups| && usergroups[k].group == y && IsAllUsers(usergroups[k])
  }

  lemma {:induction false} EmptyNamedNext(usergroups: seq<GData>, n: nat)
    requires n < |usergroups|
    ensures forall y :: EmptyNamed(usergroups, n + 1, y) <==>
      EmptyNamed(usergroups, n, y) || (usergroups[n].group == y && IsAllUsers(usergroups[n]))
  {
    forall y ensures EmptyNamed(usergroups, n + 1, y) <==>
      EmptyNamed(usergroups, n, y) || (usergroups[n].group == y && IsAllUsers(usergroups[n])) {}
  }

  lemma {:induction false} InitialIndex(ix: Index, usergroups: seq<GData>, users: set<Name>)
    requires ix.parents == map[] && ix.ancestors == map[] && ix.children == ix.descendants
    requires forall y :: At(ix.children, y) == if EmptyNamed(usergroups, |usergroups|, y) then users else {}
    ensures Exact(ix, ConfigOf(usergroups, users), {})
  {
    var cfg := ConfigOf(usergroups, users);
    forall y ensures AllUsersName(cfg, y) <==> EmptyNamed(usergroups, |usergroups|, y) {
      if AllUsersName(cfg, y) {
        var e :| e in cfg.groups && e.group == y && IsAllUsers(e);
        var k :| 0 <= k < |usergroups| && usergroups[k] == e;
      }
      if EmptyNamed(usergroups, |usergroups|, y) {
        var k :| 0 <= k < |usergroups| && usergroups[k].group == y && IsAllUsers(usergroups[k]);
        assert usergroups[k] in cfg.groups;
      }
    }
  }

  predicate StartsWithOthers(name: Name) { "others" <= name }

  /* The groups some traversal unfolds. */
  ghost function Covered(cfg: Config, table: seq<GData>): set<GData> {
    set h | h in cfg.groups && exists k :: 0 <= k < |table| && !StartsWithOthers(table[k].group) && Unfolds(h, table[k])
  }

  lemma {:induction false} CoveredStep(cfg: Config, table: seq<GData>, i: nat)
    requires i < |table|
    ensures Covered(cfg, table[..i + 1]) == Covered(cfg, table[..i]) +
      (if StartsWithOthers(table[i].group) then {} else Unfolded(cfg, table[i]))
  {
    var a, b := table[..i], table[..i + 1];
    assert forall k :: 0 <= k < i ==> a[k] == b[k] == table[k];
    assert b[i] == table[i];
  }

  // ----- What the index means -----

  /** A group whose name starts with "others" is not traversed for its own sake. */
  lemma {:induction false} OthersSkipped(cfg: Config, table: seq<GData>, g: GData, rest: Name)
    requires g.group == "others" + rest && forall h :: h in table && Unfolds(g, h) ==> h == g
    ensures g !in Covered(cfg, table)
  {
    assert "others" <= g.group;
  }

  lemma {:induction false} CoveredAll(cfg: Config, table: seq<GData>)
    requires forall g :: g in cfg.groups ==> g in table && !StartsWithOthers(g.group)
    ensures Covered(cfg, table) == cfg.groups
  {
    forall g | g in cfg.groups ensures g in Covered(cfg, table) {
      var k :| 0 <= k < |table| && table[k] == g;
      assert Unfolds(g, table[k]);
    }
  }

  /** With every group traversed, the four sets are the direct edges and their
      transitive closure, and descendants invert ancestors wherever no all-users
      group is below. */
  lemma {:induction false} IndexIsClosure(ix: Index, cfg: Config, g: GData, x: Name)
    requires WellFormed(cfg) && Exact(ix, cfg, cfg.groups) && g in cfg.groups
    ensures g.group in At(ix.parents, x) <==> x in Kids(g)
    ensures g.group in At(ix.ancestors, x) <==> Below(x, g)
    ensures x in At(ix.children, g.group) <==> x in Kids(g) || (IsAllUsers(g) && x in cfg.users)
    ensures x in At(ix.descendants, g.group) <==> Below(x, g) || (AllUsersBelow(g) && x in cfg.users)
    ensures !AllUsersBelow(g) ==> (x in At(ix.descendants, g.group) <==> g.group in At(ix.ancestors, x))
  {
    var y, cov := g.group, cfg.groups;
    assert ParentSpec(cov, x, y) <==> x in Kids(g);
    assert AncestorSpec(cov, x, y) <==> Below(x, g);
    assert AllUsersName(cfg, y) <==> IsAllUsers(g);
    assert DescendantSpec(cfg, cov, x, y) <==> Reached(cfg, x, g);
  }

  /** The index agrees with the recursive walk: a known user is among the
      descendants of a group exactly when gMember says it is a member. */
  lemma {:induction false} IndexIsMembership(ix: Index, cfg: Config, g: GData, x: Name)
    requires WellFormed(cfg) && Exact(ix, cfg, cfg.groups) && g in cfg.groups
    requires x in cfg.users && forall h :: h in cfg.groups ==> h.group != x
    ensures x in At(ix.descendants, g.group) <==> GMember(x, g)
  {
    IndexIsClosure(ix, cfg, g, x);
    MemberIsListed(x, g);
    BelowIsListed(cfg, x, g);
  }

  lemma {:induction false} BelowIsListed(cfg: Config, x: Name, g: GData)
    requires WellFormed(cfg) && g in cfg.groups && forall h :: h in cfg.groups ==> h.group != x
    ensures Below(x, g) <==> x in Listed(g)
    decreases g
  {
    ListedAllAt(g.gPtr, x);
    forall i | 0 <= i < |g.gPtr| ensures Below(x, g.gPtr[i]) <==> x in Listed(g.gPtr[i]) {
      BelowIsListed(cfg, x, g.gPtr[i]);
    }
    assert x in Kids(g) <==> x in g.members;
  }

  lemma {:induction false} SubAt(ix: Index, gs: seq<GData>, cur: Name, i: nat, uStack: seq<Entry>)
    requires i < |gs|
    ensures var names := SubNames(gs);
      names[i] == gs[i].group && names[i] in names &&
      LinkAll(ix, names[..i + 1], cur) == LinkOne(LinkAll(ix, names[..i], cur), gs[i].group, cur)
    ensures uStack + EntriesOf(gs, cur)[..i + 1] == uStack + EntriesOf(gs, cur)[..i] + [Entry(gs[i], cur)]
  {
    var names := SubNames(gs);
    assert names[..i + 1][..i] == names[..i];
  }

  lemma {:induction false} LinkAllAppend(ix: Index, a: seq<Name>, b: seq<Name>, cur: Name)
    ensures LinkAll(ix, a + b, cur) == LinkAll(LinkAll(ix, a, cur), b, cur)
    decreases |b|
  {
    if b == [] {
      assert a + b == a;
    } else {
      assert (a + b)[..|a + b| - 1] == a + b[..|b| - 1];
      LinkAllAppend(ix, a, b[..|b| - 1], cur);
    }
  }

  lemma {:induction false} QueueFits(uStack: seq<Entry>, cur: nat)
    requires cur < |uStack|
    ensures var e := uStack[cur].gData; var after := uStack + Unfolding(e);
      cur + 1 + PendingSize(after[cur + 1..]) == cur + PendingSize(uStack[cur..]) &&
      |after| <= cur + PendingSize(uStack[cur..])
  {
    var e := uStack[cur].gData;
    var after := uStack + Unfolding(e);
    assert uStack[cur..][1..] == uStack[cur + 1..];
    assert after[cur + 1..] == uStack[cur + 1..] + Unfolding(e);
    PendingAppend(uStack[cur + 1..], Unfolding(e));
    PendingUnfolding(e.gPtr, e.group);
    PendingAtLeast(after[cur + 1..]);
  }

  lemma {:induction false} UnfoldsSub(h: GData, e: GData, grp: GData)
    requires Unfolds(e, grp) && h in e.gPtr
    ensures Unfolds(h, grp)
    decreases grp
  {
    if e == grp {
      var t :| 0 <= t < |e.gPtr| && e.gPtr[t] == h;
      assert Unfolds(h, grp.gPtr[t]);
    } else {
      var t :| 0 <= t < |grp.gPtr| && Unfolds(e, grp.gPtr[t]);
      UnfoldsSub(h, e, grp.gPtr[t]);
    }
  }

  lemma {:induction false} NextInCov(q: Queue, grp: GData, cfg: Config)
    requires WellFormed(cfg) && grp in cfg.groups && Shape(q, grp) && |q.first| < |q.entries|
    requires InCov(q, Unfolded(cfg, grp))
    ensures InCov(Next(q), Unfolded(cfg, grp))
  {
    var n, e := Next(q), q.entries[|q.first|].gData;
    forall i | 0 <= i < |n.entries| ensures n.entries[i].gData in Unfolded(cfg, grp) {
      if i >= |q.entries| {
        var h := e.gPtr[i - |q.entries|];
        UnfoldsSub(h, e, grp);
        UnfoldsConfigured(cfg, h, grp);
      }
    }
  }

  lemma {:induction false} AllUsersStay(ix0: Index, ix: Index, cfg: Config, cov: set<GData>)
    requires CompleteDown(ix0, cfg, cov) && Grown(ix0, ix)
    ensures AllUsersIn(ix, cfg)
  {
    forall e, x | e in cfg.groups && IsAllUsers(e) && x in cfg.users ensures x in At(ix.descendants, e.group) {
      assert AllUsersName(cfg, e.group);
      assert DescendantSpec(cfg, cov, x, e.group);
    }
  }
}
