/**
 User and host groups (lsbatch/daemons/mbd.grp.c).

 A group lists direct members and subgroups.  Groups refer to each other by
 pointer without cycles, so a group together with everything below it is a
 finite value.  The plain walks (gMember, countEntries, sumMembers, fillMembers)
 are in this module; the index that traverseGroupTree builds is in GroupIndex.
 */
module Groups {
  import opened Common

  type Name = string

  datatype GData = GData(group: Name, members: seq<Name>, gPtr: seq<GData>)

  /* A group with no members and no subgroups stands for all users. */
  predicate IsAllUsers(g: GData) { g.members == [] && g.gPtr == [] }

  predicate GDirectMember(word: Name, g: GData) { IsAllUsers(g) || word in g.members }

  predicate GMember(word: Name, g: GData) {
    GDirectMember(word, g) || exists i :: 0 <= i < |g.gPtr| && GMember(word, g.gPtr[i])
  }

  predicate AllUsersBelow(g: GData) {
    IsAllUsers(g) || exists i :: 0 <= i < |g.gPtr| && AllUsersBelow(g.gPtr[i])
  }

  ghost predicate Within(h: GData, g: GData) { h == g || exists i :: 0 <= i < |g.gPtr| && Within(h, g.gPtr[i]) }

  /** All users are below exactly if some group there has neither members nor subgroups. */
  lemma {:induction false} AllUsersIff(g: GData)
    ensures AllUsersBelow(g) <==> exists h :: Within(h, g) && |h.members| == 0 && |h.gPtr| == 0
    decreases g
  {
    forall i | 0 <= i < |g.gPtr|
      ensures AllUsersBelow(g.gPtr[i]) <==> exists h :: Within(h, g.gPtr[i]) && |h.members| == 0 && |h.gPtr| == 0
    {
      AllUsersIff(g.gPtr[i]);
    }
    if AllUsersBelow(g) {
      if IsAllUsers(g) {
        assert Within(g, g);
      } else {
        var i :| 0 <= i < |g.gPtr| && AllUsersBelow(g.gPtr[i]);
        var h :| Within(h, g.gPtr[i]) && |h.members| == 0 && |h.gPtr| == 0;
        assert Within(h, g);
      }
    }
    if h :| Within(h, g) && |h.members| == 0 && |h.gPtr| == 0 {
      if h != g {
        var i :| 0 <= i < |g.gPtr| && Within(h, g.gPtr[i]);
        assert AllUsersBelow(g.gPtr[i]);
      }
    }
  }

  /* Every name listed below a group, in the order the walks meet it. */
  function Listed(g: GData): seq<Name>
    decreases g, 0
  {
    g.members + ListedAll(g.gPtr)
  }

  function ListedAll(gs: seq<GData>): seq<Name>
    decreases gs
  {
    if gs == [] then [] else ListedAll(gs[..|gs| - 1]) + Listed(gs[|gs| - 1])
  }

  lemma {:induction false} ListedAllAt(gs: seq<GData>, w: Name)
    ensures w in ListedAll(gs) <==> exists i :: 0 <= i < |gs| && w in Listed(gs[i])
    decreases |gs|
  {
    if gs != [] {
      var init := gs[..|gs| - 1];
      ListedAllAt(init, w);
      assert forall i :: 0 <= i < |init| ==> init[i] == gs[i];
    }
  }

  /** Membership is listing, except that an all-users group below lets everyone in. */
  lemma {:induction false} MemberIsListed(word: Name, g: GData)
    ensures GMember(word, g) <==> word in Listed(g) || AllUsersBelow(g)
    decreases g
  {
    ListedAllAt(g.gPtr, word);
    forall i | 0 <= i < |g.gPtr|
      ensures GMember(word, g.gPtr[i]) <==> word in Listed(g.gPtr[i]) || AllUsersBelow(g.gPtr[i])
    {
      MemberIsListed(word, g.gPtr[i]);
    }
  }

  /** Everyone is a member exactly when an all-users group is reachable. */
  lemma {:induction false} EveryoneIsMember(g: GData)
    ensures AllUsersBelow(g) <==> forall word :: GMember(word, g)
  {
    if AllUsersBelow(g) {
      forall word ensures GMember(word, g) { MemberIsListed(word, g); }
    } else {
      var w := Unlisted(Listed(g));
      MemberIsListed(w, g);
    }
  }

  lemma {:induction false} Unlisted(names: seq<Name>) returns (w: Name)
    ensures w !in names
  {
    var n: nat := 0;
    var i := 0;
    while i < |names|
      invariant 0 <= i <= |names|
      invariant forall j :: 0 <= j < i ==> |names[j]| < n
    {
      if |names[i]| >= n { n := |names[i]| + 1; }
      i := i + 1;
    }
    w := seq(n, _ => 'a');
  }

  lemma {:induction false} NonEmptyListed(g: GData)
    requires !AllUsersBelow(g)
    ensures Listed(g) != []
    decreases g
  {
    if g.members == [] {
      var k := |g.gPtr| - 1;
      NonEmptyListed(g.gPtr[k]);
    }
  }

  lemma {:induction false} ListedAllParts(gs: seq<GData>, i: nat) returns (rest: seq<Name>)
    requires i < |gs|
    ensures ListedAll(gs) == ListedAll(gs[..i]) + Listed(gs[i]) + rest
    decreases |gs|
  {
    var init := gs[..|gs| - 1];
    if i < |gs| - 1 {
      var r := ListedAllParts(init, i);
      assert init[..i] == gs[..i];
      rest := r + Listed(gs[|gs| - 1]);
      Associative(ListedAll(gs[..i]) + Listed(gs[i]), r, Listed(gs[|gs| - 1]));
    } else {
      rest := [];
      assert init == gs[..i] && ListedAll(gs) + [] == ListedAll(gs);
    }
  }

  /** The walk lists a group's own members first, and then subgroup by subgroup, in order,
      what that lists: `before` is what the subgroups before `i` list. */
  lemma {:induction false} ListedParts(g: GData, i: nat) returns (before: seq<Name>, rest: seq<Name>)
    requires i < |g.gPtr|
    ensures Listed(g) == g.members + (before + Listed(g.gPtr[i]) + rest)
    ensures forall w :: w in before <==> exists k :: 0 <= k < i && w in Listed(g.gPtr[k])
  {
    before := ListedAll(g.gPtr[..i]);
    rest := ListedAllParts(g.gPtr, i);
    forall w ensures w in before <==> exists k :: 0 <= k < i && w in Listed(g.gPtr[k]) {
      ListedAllAt(g.gPtr[..i], w);
    }
  }

  /* The walks that keep their running total in a static variable. */
  class GroupWalk {
    var num: int
    var mcnt: nat

    /** countEntries. */
    method CountEntries(gp: GData, first: bool) returns (r: int)
      modifies this`num
      ensures r == num == (if first then 0 else old(num)) + |Listed(gp)|
      decreases gp
    {
      if first { num := 0; }
      num := num + |gp.members|;
      ghost var start := num;
      var i := 0;
      while i < |gp.gPtr|
        invariant 0 <= i <= |gp.gPtr|
        invariant num == start + |ListedAll(gp.gPtr[..i])|
      {
        var _ := CountEntries(gp.gPtr[i], false);
        assert gp.gPtr[..i + 1][..i] == gp.gPtr[..i];
        i := i + 1;
      }
      assert gp.gPtr[..|gp.gPtr|] == gp.gPtr;
      return num;
    }

    /** sumMembers, recursive: 0 exactly when an all-users group is reachable,
        and otherwise the running total with every listed name added. */
    method SumMembers(gp: GData, recursive: bool, first: bool) returns (r: int)
      requires first || num >= 0
      modifies this`num
      ensures num >= (if first then 0 else old(num))
      ensures recursive ==> (r == 0 <==> AllUsersBelow(gp))
      ensures recursive && r != 0 ==> r == num == (if first then 0 else old(num)) + |Listed(gp)|
      ensures !recursive ==> r == num == (if first then 0 else old(num)) + |gp.members| + |gp.gPtr|
      decreases gp
    {
      if first { num := 0; }
      if |gp.gPtr| == 0 && |gp.members| == 0 && recursive {
        return 0;
      }
      num := num + |gp.members|;
      if !recursive {
        num := num + |gp.gPtr|;
      } else {
        ghost var start := num;
        var i := 0;
        while i < |gp.gPtr|
          invariant 0 <= i <= |gp.gPtr|
          invariant num == start + |ListedAll(gp.gPtr[..i])|
          invariant forall k :: 0 <= k < i ==> !AllUsersBelow(gp.gPtr[k])
        {
          var sub := SumMembers(gp.gPtr[i], recursive, false);
          if sub == 0 {
            return 0;
          }
          assert gp.gPtr[..i + 1][..i] == gp.gPtr[..i];
          i := i + 1;
        }
        assert gp.gPtr[..|gp.gPtr|] == gp.gPtr;
        assert !AllUsersBelow(gp);
        NonEmptyListed(gp);
      }
      return num;
    }

    /** fillMembers: the next free slots receive the listed names in order. */
    method FillMembers(gp: GData, memberTab: array<Name>, first: bool)
      requires (if first then 0 else mcnt) + |Listed(gp)| <= memberTab.Length
      modifies this`mcnt, memberTab
      ensures mcnt == (if first then 0 else old(mcnt)) + |Listed(gp)|
      ensures memberTab[..mcnt] == old(memberTab[..if first then 0 else mcnt]) + Listed(gp)
      decreases gp
    {
      if first { mcnt := 0; }
      ghost var before := memberTab[..mcnt];
      FillDirect(gp.members, memberTab);
      var i := 0;
      while i < |gp.gPtr|
        invariant 0 <= i <= |gp.gPtr|
        invariant mcnt == |before| + |gp.members| + |ListedAll(gp.gPtr[..i])| <= memberTab.Length
        invariant memberTab[..mcnt] == before + (gp.members + ListedAll(gp.gPtr[..i]))
      {
        PrefixListed(gp.gPtr, i + 1);
        assert gp.gPtr[..i + 1][..i] == gp.gPtr[..i];
        FillMembers(gp.gPtr[i], memberTab, false);
        Nested(before, gp.members, ListedAll(gp.gPtr[..i]), Listed(gp.gPtr[i]));
        i := i + 1;
      }
      assert gp.gPtr[..|gp.gPtr|] == gp.gPtr;
    }

    method FillDirect(members: seq<Name>, memberTab: array<Name>)
      requires mcnt + |members| <= memberTab.Length
      modifies this`mcnt, memberTab
      ensures mcnt == old(mcnt) + |members|
      ensures memberTab[..mcnt] == old(memberTab[..mcnt]) + members
    {
      ghost var before := memberTab[..mcnt];
      var k := 0;
      while k < |members|
        invariant 0 <= k <= |members|
        invariant mcnt == |before| + k <= memberTab.Length
        invariant memberTab[..mcnt] == before + members[..k]
      {
        memberTab[mcnt] := members[k];
        mcnt := mcnt + 1;
        k := k + 1;
        assert members[..k] == members[..k - 1] + [members[k - 1]];
      }
      assert members[..|members|] == members;
    }

    /** expandGrp: the listed names, or the group's own name when there are none. */
    method ExpandGrp(gp: GData, gName: Name) returns (memberTab: array<Name>)
      modifies this
      ensures fresh(memberTab)
      ensures memberTab[..] == if Listed(gp) == [] then [gName] else Listed(gp)
    {
      var n := CountEntries(gp, true);
      if n == 0 {
        memberTab := new Name[1](_ => gName);
        return;
      }
      memberTab := new Name[n](_ => "");
      FillMembers(gp, memberTab, true);
    }
  }

  lemma {:induction false} Nested(a: seq<Name>, b: seq<Name>, c: seq<Name>, d: seq<Name>)
    ensures a + (b + c) + d == a + (b + (c + d))
  {
  }

  lemma {:induction false} PrefixListed(gs: seq<GData>, i: nat)
    requires i <= |gs|
    ensures |ListedAll(gs[..i])| <= |ListedAll(gs)|
    decreases |gs| - i
  {
    if i < |gs| {
      assert gs[..i + 1][..i] == gs[..i];
      PrefixListed(gs, i + 1);
    } else {
      assert gs[..i] == gs;
    }
  }

  /** For every group: the recursive sum is 0 exactly when everyone is a member;
      otherwise the names listed are exactly the members, and there are as many of
      them, counted with repetition, as the walks count. */
  lemma {:induction false} MembersWhenListed(g: GData, word: Name)
    requires !AllUsersBelow(g)
    ensures GMember(word, g) <==> word in Listed(g)
    ensures Listed(g) != [] && exists w :: !GMember(w, g)
  {
    MemberIsListed(word, g);
    NonEmptyListed(g);
    EveryoneIsMember(g);
  }
}
