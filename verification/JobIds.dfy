/**
 Job arguments such as 7 or 7[1-9:2] expanded to packed job ids
 (lsbatch/cmd/cmd.jobid.c, getSpecJobIds, getJobIdList and the range checks of
 parseJobArrayIndex; lsbatch/lsbatch.h, LSB_JOBID).

 The arguments are taken as split into a job id and a list of index ranges; the
 reading of digits and brackets is left out.
 */
module JobIds {
  import opened Common

  const INT_MAX := 0x7fffffff
  const INFINIT_INT := 0x7fffffff
  const MAX_ARRAY_IDX := 0xffff
  const MAX_ARRAY_JOBID := 0xffffffff
  const WORD := 0x1_0000_0000

  datatype Range = Range(start: int, end: int, step: int)

  /* One argument: a job id, with the index ranges when it has brackets. */
  datatype Arg = Arg(jobId: int, ranges: Option<seq<Range>>)

  // ----- Packed ids -----

  function Pack(jobId: int, idx: int): int { idx * WORD + jobId }

  function ArrayIdx(id: int): int { if id == -1 then 0 else id / WORD % (MAX_ARRAY_IDX + 1) }

  function ArrayJobId(id: int): int { if id == -1 then -1 else id % WORD }

  /** A packed id gives back its job and its index, so different pairs have different ids. */
  lemma {:induction false} PackRoundTrip(jobId: int, idx: int)
    requires 0 <= jobId <= INT_MAX && 0 <= idx <= MAX_ARRAY_IDX
    ensures ArrayJobId(Pack(jobId, idx)) == jobId && ArrayIdx(Pack(jobId, idx)) == idx
    ensures 0 <= Pack(jobId, idx) < 0x1_0000_0000_0000
  {
    assert Pack(jobId, idx) % WORD == jobId;
    assert Pack(jobId, idx) / WORD == idx;
  }

  lemma {:induction false} PackInjective(j1: int, i1: int, j2: int, i2: int)
    requires 0 <= j1 <= INT_MAX && 0 <= i1 <= MAX_ARRAY_IDX
    requires 0 <= j2 <= INT_MAX && 0 <= i2 <= MAX_ARRAY_IDX
    ensures Pack(j1, i1) == Pack(j2, i2) <==> j1 == j2 && i1 == i2
  {
    PackRoundTrip(j1, i1);
    PackRoundTrip(j2, i2);
  }

  // ----- Checking an argument -----

  function Closed(r: Range): Range { if r.end == INFINIT_INT then r.(end := MAX_ARRAY_IDX) else r }

  predicate ValidRange(r: Range) {
    1 <= r.start <= r.end <= MAX_ARRAY_IDX && 1 <= r.step <= MAX_ARRAY_IDX
  }

  predicate ValidList(rs: seq<Range>) { forall i :: 0 <= i < |rs| ==> ValidRange(rs[i]) }

  /** The checks of parseJobArrayIndex: open ends are closed, then every bound must be in range. */
  method CheckRanges(rs: seq<Range>) returns (r: Option<seq<Range>>)
    ensures r.Some? <==> forall i :: 0 <= i < |rs| ==> ValidRange(Closed(rs[i]))
    ensures r.Some? ==> |r.value| == |rs| && forall i :: 0 <= i < |rs| ==> r.value[i] == Closed(rs[i])
  {
    var out := rs;
    var k := 0;
    while k < |rs|
      invariant 0 <= k <= |rs| == |out|
      invariant forall i :: 0 <= i < k ==> out[i] == Closed(rs[i]) && ValidRange(out[i])
      invariant forall i :: k <= i < |rs| ==> out[i] == rs[i]
    {
      if out[k].end == INFINIT_INT {
        out := out[k := out[k].(end := MAX_ARRAY_IDX)];
      }
      var idx := out[k];
      assert idx == Closed(rs[k]);
      if idx.start > idx.end {
        return None;
      }
      if idx.start <= 0 || idx.start > MAX_ARRAY_IDX {
        return None;
      }
      if idx.end <= 0 || idx.end > MAX_ARRAY_IDX {
        return None;
      }
      if idx.step <= 0 || idx.step > MAX_ARRAY_IDX {
        return None;
      }
      k := k + 1;
    }
    return Some(out);
  }

  function ClosedList(rs: seq<Range>): seq<Range> { seq(|rs|, i requires 0 <= i < |rs| => Closed(rs[i])) }

  /* What getJobIdIndexList lets through. */
  function Checked(a: Arg): Option<Arg> {
    match a.ranges
    case None => if a.jobId < 0 then None else Some(a)
    case Some(rs) =>
      if 0 < a.jobId <= MAX_ARRAY_JOBID && rs != [] && ValidList(ClosedList(rs))
      then Some(Arg(a.jobId, Some(ClosedList(rs)))) else None
  }

  predicate OnStep(d: int, step: int)
    requires step > 0
  {
    d % step == 0
  }

  // What an argument means, said of the argument as it is given.

  /* A range that is not among the indices 1 to MAX_ARRAY_IDX, or backwards, or without a step. */
  predicate OutOfBounds(r: Range) {
    || r.start < 1 || r.start > MAX_ARRAY_IDX
    || (r.end != INFINIT_INT && (r.end < r.start || r.end > MAX_ARRAY_IDX))
    || r.step < 1 || r.step > MAX_ARRAY_IDX
  }

  predicate Refused(a: Arg) {
    if a.ranges.None? then a.jobId < 0
    else
      || a.jobId < 1 || a.jobId > MAX_ARRAY_JOBID || a.ranges.value == []
      || exists i :: 0 <= i < |a.ranges.value| && OutOfBounds(a.ranges.value[i])
  }

  /* The index `j` is in the range, whose end may be open. */
  predicate Covers(r: Range, j: int) {
    r.step > 0 && r.start <= j <= MAX_ARRAY_IDX && (r.end == INFINIT_INT || j <= r.end) && OnStep(j - r.start, r.step)
  }

  ghost predicate CoversId(jobId: int, r: Range, x: int) { exists j :: Covers(r, j) && x == Pack(jobId, j) }

  /* `x` is an id the argument asks for. */
  ghost predicate Asks(a: Arg, x: int) {
    !Refused(a) &&
    if a.ranges.None? then x == a.jobId
    else exists i :: 0 <= i < |a.ranges.value| && CoversId(a.jobId, a.ranges.value[i], x)
  }

  lemma {:induction false} CheckedIff(a: Arg)
    ensures Checked(a).None? <==> Refused(a)
    ensures Checked(a).Some? ==> Checked(a).value.jobId == a.jobId && Checked(a).value.ranges.Some? == a.ranges.Some?
    ensures Checked(a).Some? && a.ranges.Some? ==> SameIndices(a.ranges.value, Checked(a).value.ranges.value)
  {
    if a.ranges.Some? {
      var rs := a.ranges.value;
      forall i | 0 <= i < |rs| ensures ValidRange(ClosedList(rs)[i]) <==> !OutOfBounds(rs[i]) {}
      if !Refused(a) {
        forall i, j | 0 <= i < |rs|
          ensures ClosedList(rs)[i].start <= j <= ClosedList(rs)[i].end && OnStep(j - ClosedList(rs)[i].start, ClosedList(rs)[i].step)
            <==> Covers(rs[i], j)
        {
          assert !OutOfBounds(rs[i]);
        }
      }
    }
  }

  /* Range by range the same indices, with no open end left. */
  ghost predicate SameIndices(rs: seq<Range>, ts: seq<Range>) {
    |ts| == |rs| && ValidList(ts) &&
    forall i, j :: 0 <= i < |rs| ==>
      (ts[i].start <= j <= ts[i].end && OnStep(j - ts[i].start, ts[i].step) <==> Covers(rs[i], j))
  }

  /** getJobIdIndexList: refuses exactly the arguments out of bounds, and passes on all the
      ranges of any other. */
  method GetJobIdIndexList(a: Arg) returns (r: Option<Arg>)
    ensures r == Checked(a)
    ensures r.None? <==> Refused(a)
    ensures r.Some? ==> r.value.jobId == a.jobId && r.value.ranges.Some? == a.ranges.Some?
    ensures r.Some? && a.ranges.Some? ==> SameIndices(a.ranges.value, r.value.ranges.value)
  {
    CheckedIff(a);
    if a.ranges.None? {
      return if a.jobId < 0 then None else Some(a);
    }
    if a.jobId <= 0 || a.jobId > MAX_ARRAY_JOBID {
      return None;
    }
    var rs := CheckRanges(a.ranges.value);
    assert ValidList(ClosedList(a.ranges.value)) <==>
      forall i :: 0 <= i < |a.ranges.value| ==> ValidRange(Closed(a.ranges.value[i])) by {
      assert forall i :: 0 <= i < |a.ranges.value| ==> ClosedList(a.ranges.value)[i] == Closed(a.ranges.value[i]);
    }
    if rs.None? || rs.value == [] {
      return None;
    }
    assert rs.value == ClosedList(a.ranges.value);
    return Some(Arg(a.jobId, rs));
  }

  // ----- Collecting ids, each once -----

  function Add(ids: seq<int>, x: int): seq<int> { if x in ids then ids else ids + [x] }

  function AddAll(ids: seq<int>, xs: seq<int>): seq<int>
    decreases |xs|
  {
    if xs == [] then ids else AddAll(Add(ids, xs[0]), xs[1..])
  }

  /* The ids of one range, in the order of its indices. */
  function RangeIds(jobId: int, j: int, end: int, step: int): seq<int>
    requires step > 0
    decreases end - j + step
  {
    if j > end then [] else [Pack(jobId, j)] + RangeIds(jobId, j + step, end, step)
  }

  function ListIds(jobId: int, rs: seq<Range>): seq<int>
    requires ValidList(rs)
    decreases |rs|
  {
    if rs == [] then [] else RangeIds(jobId, rs[0].start, rs[0].end, rs[0].step) + ListIds(jobId, rs[1..])
  }

  /* What one argument asks for. */
  function Wanted(a: Arg): seq<int> {
    match Checked(a)
    case None => []
    case Some(b) => if b.ranges.None? then [b.jobId] else ListIds(b.jobId, b.ranges.value)
  }

  function AllWanted(args: seq<Arg>): seq<int>
    decreases |args|
  {
    if args == [] then [] else Wanted(args[0]) + AllWanted(args[1..])
  }

  predicate IsCurrent(a: Arg) { a.ranges.None? && a.jobId == 0 }

  /* Failure ends the program; a plain 0 asks for all current jobs instead. */
  datatype Outcome = Exit | Current | Ids(ids: seq<int>)

  function Outcomes(args: seq<Arg>, ids: seq<int>): Outcome
    decreases |args|
  {
    if args == [] then Ids(ids)
    else if Checked(args[0]).None? then Exit
    else if IsCurrent(args[0]) then Current
    else Outcomes(args[1..], AddAll(ids, Wanted(args[0])))
  }

  lemma {:induction false} AddAllConcat(ids: seq<int>, xs: seq<int>, ys: seq<int>)
    ensures AddAll(ids, xs + ys) == AddAll(AddAll(ids, xs), ys)
    decreases |xs|
  {
    if xs == [] {
      assert xs + ys == ys;
    } else {
      assert (xs + ys)[1..] == xs[1..] + ys;
      AddAllConcat(Add(ids, xs[0]), xs[1..], ys);
    }
  }

  lemma {:induction false} AddAllOne(ids: seq<int>, x: int)
    ensures AddAll(ids, [x]) == Add(ids, x)
  {
    assert AddAll(Add(ids, x), [x][1..]) == Add(ids, x);
  }

  // 32-bit arithmetic of the loop counters.
  function Wrap32(x: int): int { (x + INT_MAX + 1) % WORD - INT_MAX - 1 }

  lemma {:induction false} NoWrap(x: int)
    requires -INT_MAX - 1 <= x <= INT_MAX
    ensures Wrap32(x) == x
  {
  }

  /* The duplicate search and the append. */
  method AddId(ids: seq<int>, x: int) returns (r: seq<int>)
    ensures r == Add(ids, x)
  {
    var i := 0;
    while i < |ids|
      invariant 0 <= i <= |ids|
      invariant forall n :: 0 <= n < i ==> ids[n] != x
    {
      if x == ids[i] {
        break;
      }
      i := i + 1;
    }
    r := if i == |ids| then ids + [x] else ids;
  }

  /** The step loop: 32-bit, and it ends because the range was checked. */
  method AddRange(ids: seq<int>, jobId: int, idx: Range) returns (r: seq<int>)
    requires ValidRange(idx)
    ensures r == AddAll(ids, RangeIds(jobId, idx.start, idx.end, idx.step))
  {
    r := ids;
    var j := idx.start;
    while j <= idx.end
      invariant 1 <= j <= idx.end + idx.step
      invariant AddAll(r, RangeIds(jobId, j, idx.end, idx.step))
             == AddAll(ids, RangeIds(jobId, idx.start, idx.end, idx.step))
      decreases idx.end + idx.step - j
    {
      ghost var rest := RangeIds(jobId, j, idx.end, idx.step);
      assert rest[0] == Pack(jobId, j) && rest[1..] == RangeIds(jobId, j + idx.step, idx.end, idx.step);
      r := AddId(r, Pack(jobId, j));
      NoWrap(j + idx.step);
      j := Wrap32(j + idx.step);
    }
  }

  method AddList(ids: seq<int>, jobId: int, rs: seq<Range>) returns (r: seq<int>)
    requires ValidList(rs)
    ensures r == AddAll(ids, ListIds(jobId, rs))
  {
    r := ids;
    var left := rs;
    while left != []
      invariant ValidList(left)
      invariant AddAll(r, ListIds(jobId, left)) == AddAll(ids, ListIds(jobId, rs))
      decreases |left|
    {
      AddAllConcat(r, RangeIds(jobId, left[0].start, left[0].end, left[0].step), ListIds(jobId, left[1..]));
      r := AddRange(r, jobId, left[0]);
      left := left[1..];
    }
  }

  /** getSpecJobIds. */
  method GetSpecJobIds(args: seq<Arg>) returns (r: Outcome)
    ensures r == Outcomes(args, [])
  {
    var jobIds: seq<int> := [];
    var left := args;
    while left != []
      invariant Outcomes(args, []) == Outcomes(left, jobIds)
      decreases |left|
    {
      var a := GetJobIdIndexList(left[0]);
      if a.None? {
        return Exit;
      }
      if a.value.ranges.None? {
        if a.value.jobId == 0 {
          return Current;
        }
        AddAllOne(jobIds, a.value.jobId);
        jobIds := AddId(jobIds, a.value.jobId);
      } else {
        jobIds := AddList(jobIds, a.value.jobId, a.value.ranges.value);
      }
      left := left[1..];
    }
    return Ids(jobIds);
  }

  // ----- What the expansion returns -----

  /* `x` is the packed id of some index of the range. */
  ghost predicate InRange(jobId: int, r: Range, x: int)
    requires r.step > 0
  {
    exists j :: r.start <= j <= r.end && OnStep(j - r.start, r.step) && x == Pack(jobId, j)
  }

  lemma {:induction false} StepBack(d: int, step: int)
    requires step > 0
    ensures (d - step) % step == d % step
  {
    var q, m := d / step, d % step;
    assert d - step == step * (q - 1) + m;
    UniqueRemainder(d - step, step, q - 1, m);
  }

  lemma {:induction false} UniqueRemainder(d: int, step: int, q: int, m: int)
    requires 0 <= m < step && d == step * q + m
    ensures d % step == m
  {
    var k := d / step - q;
    assert m - d % step == step * k by {
      assert d == step * (d / step) + d % step;
      assert step * (d / step) - step * q == step * k;
    }
    Multiple(step, k);
  }

  lemma {:induction false} Multiple(step: int, k: int)
    requires step > 0
    ensures k >= 1 ==> step * k >= step
    ensures k <= -1 ==> step * k <= -step
  {
  }

  lemma {:induction false} NextOnStep(d: int, step: int)
    requires step > 0
    ensures OnStep(d - step, step) == OnStep(d, step) && OnStep(0, step)
    ensures OnStep(d, step) && d > 0 ==> d >= step
  {
    StepBack(d, step);
    if OnStep(d, step) && d > 0 { SmallStep(d, step); }
  }

  lemma {:induction false} RangeStep(jobId: int, r: Range, x: int)
    requires r.step > 0 && r.start <= r.end
    ensures InRange(jobId, r, x) <==> x == Pack(jobId, r.start) || InRange(jobId, r.(start := r.start + r.step), x)
  {
    var next := r.(start := r.start + r.step);
    NextOnStep(r.start - r.start, r.step);
    if InRange(jobId, next, x) {
      var j :| next.start <= j <= r.end && OnStep(j - next.start, r.step) && x == Pack(jobId, j);
      NextOnStep(j - r.start, r.step);
      assert InRange(jobId, r, x);
    }
    if InRange(jobId, r, x) && x != Pack(jobId, r.start) {
      var j :| r.start <= j <= r.end && OnStep(j - r.start, r.step) && x == Pack(jobId, j);
      NextOnStep(j - r.start, r.step);
      assert InRange(jobId, next, x);
    }
  }

  lemma {:induction false} RangeExact(jobId: int, r: Range, x: int)
    requires r.step > 0
    ensures x in RangeIds(jobId, r.start, r.end, r.step) <==> InRange(jobId, r, x)
    decreases r.end - r.start + r.step
  {
    if r.start <= r.end {
      RangeExact(jobId, r.(start := r.start + r.step), x);
      RangeStep(jobId, r, x);
    }
  }

  lemma {:induction false} SmallStep(d: int, step: int)
    requires step > 0 && d > 0 && d % step == 0
    ensures d >= step
  {
    if d < step {
      UniqueRemainder(d, step, 0, d);
    }
  }

  lemma {:induction false} ListExact(jobId: int, rs: seq<Range>, x: int)
    requires ValidList(rs)
    ensures x in ListIds(jobId, rs) <==> exists i :: 0 <= i < |rs| && InRange(jobId, rs[i], x)
    decreases |rs|
  {
    if rs != [] {
      RangeExact(jobId, rs[0], x);
      ListExact(jobId, rs[1..], x);
      if i :| 0 <= i < |rs[1..]| && InRange(jobId, rs[1..][i], x) {
        assert InRange(jobId, rs[i + 1], x);
      }
      if i :| 0 <= i < |rs| && InRange(jobId, rs[i], x) {
        if i > 0 { assert rs[i] == rs[1..][i - 1]; }
      }
    }
  }

  lemma {:induction false} InRangeIsCovered(jobId: int, r: Range, given: Range, x: int)
    requires r.step > 0 && forall j :: r.start <= j <= r.end && OnStep(j - r.start, r.step) <==> Covers(given, j)
    ensures InRange(jobId, r, x) <==> CoversId(jobId, given, x)
  {
    if InRange(jobId, r, x) {
      var j :| r.start <= j <= r.end && OnStep(j - r.start, r.step) && x == Pack(jobId, j);
      assert Covers(given, j);
    }
    if CoversId(jobId, given, x) {
      var j :| Covers(given, j) && x == Pack(jobId, j);
      assert OnStep(j - r.start, r.step);
    }
  }

  lemma {:induction false} WantedExact(a: Arg, x: int)
    ensures x in Wanted(a) <==> Asks(a, x)
  {
    CheckedIff(a);
    if !Refused(a) && a.ranges.Some? {
      var rs, ts := a.ranges.value, Checked(a).value.ranges.value;
      ListExact(a.jobId, ts, x);
      forall i | 0 <= i < |rs| ensures InRange(a.jobId, ts[i], x) <==> CoversId(a.jobId, rs[i], x) {
        InRangeIsCovered(a.jobId, ts[i], rs[i], x);
      }
    }
  }

  lemma {:induction false} AllWantedExact(args: seq<Arg>, x: int)
    ensures x in AllWanted(args) <==> exists k :: 0 <= k < |args| && Asks(args[k], x)
    decreases |args|
  {
    if args != [] {
      WantedExact(args[0], x);
      AllWantedExact(args[1..], x);
      if k :| 0 <= k < |args[1..]| && Asks(args[1..][k], x) {
        assert Asks(args[k + 1], x);
      }
      if k :| 0 <= k < |args| && Asks(args[k], x) {
        if k > 0 { assert args[k] == args[1..][k - 1]; }
      }
    }
  }

  // First-seen order.

  function FirstIndex(xs: seq<int>, x: int): (n: nat)
    ensures n <= |xs| && (x in xs ==> n < |xs|)
    decreases |xs|
  {
    if xs == [] || xs[0] == x then 0 else 1 + FirstIndex(xs[1..], x)
  }

  lemma {:induction false} FirstIndexAppend(xs: seq<int>, y: int, x: int)
    ensures x in xs ==> FirstIndex(xs + [y], x) == FirstIndex(xs, x) < |xs|
    ensures x !in xs ==> FirstIndex(xs + [y], x) >= |xs|
    decreases |xs|
  {
    if xs != [] {
      assert (xs + [y])[1..] == xs[1..] + [y];
      FirstIndexAppend(xs[1..], y, x);
    }
  }

  /* `ids` holds each element of `xs` once, by where it first occurs. */
  ghost predicate FirstSeen(ids: seq<int>, xs: seq<int>) {
    (forall x :: x in ids <==> x in xs) &&
    (forall i, j :: 0 <= i < j < |ids| ==> FirstIndex(xs, ids[i]) < FirstIndex(xs, ids[j]))
  }

  lemma {:induction false} AddFirstSeen(ids: seq<int>, xs: seq<int>, y: int)
    requires FirstSeen(ids, xs)
    ensures FirstSeen(Add(ids, y), xs + [y])
  {
    var r := Add(ids, y);
    forall i, j | 0 <= i < j < |r|
      ensures FirstIndex(xs + [y], r[i]) < FirstIndex(xs + [y], r[j])
    {
      assert r[i] == ids[i] && ids[i] in ids;
      FirstIndexAppend(xs, y, r[i]);
      FirstIndexAppend(xs, y, r[j]);
      if j < |ids| { assert r[j] == ids[j] && ids[j] in ids; }
    }
  }

  lemma {:induction false} AddAllFirstSeen(ids: seq<int>, xs: seq<int>, ys: seq<int>)
    requires FirstSeen(ids, xs)
    ensures FirstSeen(AddAll(ids, ys), xs + ys)
    decreases |ys|
  {
    if ys == [] {
      assert xs + ys == xs;
    } else {
      Regroup(xs, ys);
      AddFirstSeen(ids, xs, ys[0]);
      AddAllFirstSeen(Add(ids, ys[0]), xs + [ys[0]], ys[1..]);
    }
  }

  lemma {:induction false} Regroup(xs: seq<int>, ys: seq<int>)
    requires ys != []
    ensures xs + [ys[0]] + ys[1..] == xs + ys
  {
  }

  predicate PlainZero(a: Arg) { a == Arg(0, None) }

  /* The arguments before `k` were all expanded. */
  predicate Expanded(args: seq<Arg>, k: nat)
    requires k <= |args|
  {
    forall i :: 0 <= i < k ==> !Refused(args[i]) && !PlainZero(args[i])
  }

  predicate StoppedBy(args: seq<Arg>, k: nat, o: Outcome)
    requires k < |args|
  {
    Expanded(args, k) && (if o.Exit? then Refused(args[k]) else PlainZero(args[k]))
  }

  lemma {:induction false} ExpandedTail(args: seq<Arg>, k: nat)
    requires k < |args| && !Refused(args[0]) && !PlainZero(args[0]) && Expanded(args[1..], k)
    ensures Expanded(args, k + 1)
  {
    forall i | 0 < i <= k
      ensures !Refused(args[i]) && !PlainZero(args[i])
    {
      assert args[i] == args[1..][i - 1];
    }
  }

  lemma {:induction false} OutcomeCases(args: seq<Arg>, ids: seq<int>)
    ensures var o := Outcomes(args, ids);
      if o.Ids? then Expanded(args, |args|) && o.ids == AddAll(ids, AllWanted(args))
      else exists k :: 0 <= k < |args| && StoppedBy(args, k, o)
    decreases |args|
  {
    var o := Outcomes(args, ids);
    if args != [] {
      CheckedIff(args[0]);
      if Checked(args[0]).None? || IsCurrent(args[0]) {
        assert StoppedBy(args, 0, o);
      } else {
        var rest := args[1..];
        OutcomeCases(rest, AddAll(ids, Wanted(args[0])));
        AddAllConcat(ids, Wanted(args[0]), AllWanted(rest));
        if o.Ids? {
          ExpandedTail(args, |rest|);
        } else {
          var k :| 0 <= k < |rest| && StoppedBy(rest, k, o);
          ExpandedTail(args, k);
          assert args[k + 1] == rest[k];
          assert StoppedBy(args, k + 1, o);
        }
      }
    }
  }

  /**
   The expansion of a list of arguments: the first bad or plain 0 argument decides, and otherwise
   the ids are those of all requested indices, each once, in the order first asked for.
   */
  lemma {:induction false} Expansion(args: seq<Arg>)
    ensures var o := Outcomes(args, []);
      if o.Ids? then
        Expanded(args, |args|) && FirstSeen(o.ids, AllWanted(args)) &&
        forall x :: x in o.ids <==> exists k :: 0 <= k < |args| && Asks(args[k], x)
      else exists k :: 0 <= k < |args| && StoppedBy(args, k, o)
  {
    var o := Outcomes(args, []);
    OutcomeCases(args, []);
    if o.Ids? {
      AddAllFirstSeen([], [], AllWanted(args));
      assert [] + AllWanted(args) == AllWanted(args);
      forall x
        ensures x in o.ids <==> exists k :: 0 <= k < |args| && Asks(args[k], x)
      {
        AllWantedExact(args, x);
      }
    }
  }

  // ----- The order, said of the arguments -----

  lemma {:induction false} FirstIndexSplit(xs: seq<int>, ys: seq<int>, x: int)
    ensures x in xs ==> FirstIndex(xs + ys, x) < |xs|
    ensures x !in xs ==> FirstIndex(xs + ys, x) >= |xs|
    decreases |xs|
  {
    if xs != [] {
      assert (xs + ys)[1..] == xs[1..] + ys;
      FirstIndexSplit(xs[1..], ys, x);
    }
  }

  lemma {:induction false} AllWantedSplit(args: seq<Arg>, k: nat)
    requires k <= |args|
    ensures AllWanted(args) == AllWanted(args[..k]) + AllWanted(args[k..])
    decreases k
  {
    if k == 0 {
      assert args[..0] == [] && args[0..] == args;
    } else {
      AllWantedSplit(args[1..], k - 1);
      assert args[..k][1..] == args[1..][..k - 1] && args[1..][k - 1..] == args[k..];
      Associative(Wanted(args[0]), AllWanted(args[..k][1..]), AllWanted(args[k..]));
    }
  }

  lemma {:induction false} EarlierFirst(ids: seq<int>, xs: seq<int>, ys: seq<int>, m: nat, n: nat)
    requires FirstSeen(ids, xs + ys) && m < |ids| && n < |ids| && ids[m] in xs && ids[n] !in xs
    ensures m < n
  {
    FirstIndexSplit(xs, ys, ids[m]);
    FirstIndexSplit(xs, ys, ids[n]);
  }

  /** What the first arguments ask for comes before what only later ones do. */
  lemma {:induction false} EarlierArgumentFirst(args: seq<Arg>, ids: seq<int>, k: nat, m: nat, n: nat)
    requires Outcomes(args, []) == Ids(ids) && k <= |args| && m < |ids| && n < |ids|
    requires exists i :: 0 <= i < k && Asks(args[i], ids[m])
    requires forall i :: 0 <= i < k ==> !Asks(args[i], ids[n])
    ensures m < n
  {
    Expansion(args);
    AllWantedSplit(args, k);
    AskedEarly(args, k, ids[m]);
    AskedEarly(args, k, ids[n]);
    EarlierFirst(ids, AllWanted(args[..k]), AllWanted(args[k..]), m, n);
  }

  lemma {:induction false} AskedEarly(args: seq<Arg>, k: nat, x: int)
    requires k <= |args|
    ensures x in AllWanted(args[..k]) <==> exists i :: 0 <= i < k && Asks(args[i], x)
  {
    AllWantedExact(args[..k], x);
    assert forall i :: 0 <= i < k ==> args[..k][i] == args[i];
    if i :| 0 <= i < k && Asks(args[i], x) { assert Asks(args[..k][i], x); }
  }

  lemma {:induction false} ListSplit(jobId: int, rs: seq<Range>, i: nat)
    requires ValidList(rs) && i <= |rs|
    ensures ListIds(jobId, rs) == ListIds(jobId, rs[..i]) + ListIds(jobId, rs[i..])
    decreases i
  {
    if i == 0 {
      assert rs[..0] == [] && rs[0..] == rs;
    } else {
      ListSplit(jobId, rs[1..], i - 1);
      assert rs[..i][1..] == rs[1..][..i - 1] && rs[1..][i - 1..] == rs[i..];
      Associative(RangeIds(jobId, rs[0].start, rs[0].end, rs[0].step), ListIds(jobId, rs[..i][1..]), ListIds(jobId, rs[i..]));
    }
  }

  /** And within an argument what its first ranges cover comes before what only later ones do. */
  lemma {:induction false} EarlierRangeFirst(jobId: int, rs: seq<Range>, ids: seq<int>, i: nat, m: nat, n: nat)
    requires ValidList(rs) && FirstSeen(ids, ListIds(jobId, rs)) && i <= |rs| && m < |ids| && n < |ids|
    requires exists k :: 0 <= k < i && InRange(jobId, rs[k], ids[m])
    requires forall k :: 0 <= k < i ==> !InRange(jobId, rs[k], ids[n])
    ensures m < n
  {
    ListSplit(jobId, rs, i);
    CoveredEarly(jobId, rs, i, ids[m]);
    CoveredEarly(jobId, rs, i, ids[n]);
    EarlierFirst(ids, ListIds(jobId, rs[..i]), ListIds(jobId, rs[i..]), m, n);
  }

  lemma {:induction false} CoveredEarly(jobId: int, rs: seq<Range>, i: nat, x: int)
    requires ValidList(rs) && i <= |rs|
    ensures x in ListIds(jobId, rs[..i]) <==> exists k :: 0 <= k < i && InRange(jobId, rs[k], x)
  {
    ListExact(jobId, rs[..i], x);
    assert forall k :: 0 <= k < i ==> rs[..i][k] == rs[k];
    if k :| 0 <= k < i && InRange(jobId, rs[k], x) { assert InRange(jobId, rs[..i][k], x); }
  }

  /** Within a range the indices ascend by its step. */
  lemma {:induction false} RangeAscends(jobId: int, j: int, end: int, step: int, n: nat)
    requires step > 0 && n < |RangeIds(jobId, j, end, step)|
    ensures RangeIds(jobId, j, end, step)[n] == Pack(jobId, j + n * step)
    decreases n
  {
    if n > 0 {
      RangeAscends(jobId, j + step, end, step, n - 1);
      assert j + step + (n - 1) * step == j + n * step;
    }
  }

  /** First-seen order leaves no room for duplicates. */
  lemma {:induction false} NoDuplicates(ids: seq<int>, xs: seq<int>, i: nat, j: nat)
    requires FirstSeen(ids, xs) && i < |ids| && j < |ids| && i != j
    ensures ids[i] != ids[j]
  {
    var lo, hi := if i < j then i else j, if i < j then j else i;
    assert FirstIndex(xs, ids[lo]) < FirstIndex(xs, ids[hi]);
  }

  /** getJobIdList: the ids one argument asks for, in the order of its ranges; an argument
      that is refused or a plain 0 gives none. */
  method GetJobIdList(a: Arg) returns (r: Option<seq<int>>)
    ensures r.None? <==> Refused(a) || PlainZero(a)
    ensures r.Some? ==> FirstSeen(r.value, Wanted(a)) && forall x :: x in r.value <==> Asks(a, x)
  {
    var b := GetJobIdIndexList(a);
    if b.None? || b.value.jobId <= 0 {
      return None;
    }
    var ids := [];
    if b.value.ranges.None? {
      AddAllOne([], a.jobId);
      ids := [b.value.jobId];
      assert ids == AddAll([], Wanted(a));
    } else {
      ids := AddList([], b.value.jobId, b.value.ranges.value);
    }
    AddAllFirstSeen([], [], Wanted(a));
    assert [] + Wanted(a) == Wanted(a);
    forall x ensures x in ids <==> Asks(a, x) { WantedExact(a, x); }
    return Some(ids);
  }
}
