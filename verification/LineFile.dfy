/**
 Files as fgets sees them: characters, read in pieces that end at a newline or
 when the buffer of MAXLINELEN characters is full.
 */
module LineFile {
  import opened Common

  const MAXLINELEN := 512

  /* How much one fgets takes, with `room` characters left in the buffer. */
  function LineLen(s: string, room: nat): (n: nat)
    ensures n <= |s| && n <= room
    ensures s != [] && room > 0 ==> n > 0
    decreases |s|
  {
    if s == [] || room == 0 then 0
    else if s[0] == '\n' then 1
    else 1 + LineLen(s[1..], room - 1)
  }

  function FirstLine(s: string): nat { LineLen(s, MAXLINELEN - 1) }

  /* The successive results of fgets. */
  function Lines(s: string): seq<string>
    decreases |s|
  {
    if s == [] then [] else [s[..FirstLine(s)]] + Lines(s[FirstLine(s)..])
  }

  function Concat(ls: seq<string>): string
    decreases |ls|
  {
    if ls == [] then [] else ls[0] + Concat(ls[1..])
  }

  /* A terminated line that fits the buffer. */
  predicate FullLine(l: string) {
    0 < |l| < MAXLINELEN && l[|l| - 1] == '\n' && forall i :: 0 <= i < |l| - 1 ==> l[i] != '\n'
  }

  lemma {:induction false} SplitLast<T>(s: seq<T>)
    requires s != []
    ensures s == s[..|s| - 1] + [s[|s| - 1]]
  {
  }

  lemma {:induction false} LineLenFull(l: string, rest: string, room: nat)
    requires 0 < |l| <= room && l[|l| - 1] == '\n' && forall i :: 0 <= i < |l| - 1 ==> l[i] != '\n'
    ensures LineLen(l + rest, room) == |l|
    decreases |l|
  {
    if |l| > 1 {
      assert (l + rest)[1..] == l[1..] + rest;
      LineLenFull(l[1..], rest, room - 1);
    }
  }

  lemma {:induction false} LinesFull(l: string, rest: string)
    requires FullLine(l)
    ensures Lines(l + rest) == [l] + Lines(rest)
  {
    LineLenFull(l, rest, MAXLINELEN - 1);
    assert (l + rest)[..|l|] == l && (l + rest)[|l|..] == rest;
  }

  lemma {:induction false} ConcatHead(l: string, ls: seq<string>)
    ensures Concat([l] + ls) == l + Concat(ls)
  {
    assert ([l] + ls)[1..] == ls;
  }

  lemma {:induction false} Cut(s: string, n: nat)
    requires n <= |s|
    ensures s[..n] + s[n..] == s
  {
  }

  lemma {:induction false} ConcatLines(s: string)
    ensures Concat(Lines(s)) == s
    decreases |s|
  {
    if s != [] {
      var n := FirstLine(s);
      ConcatLines(s[n..]);
      ConcatHead(s[..n], Lines(s[n..]));
      Cut(s, n);
    }
  }

  /* A line has a newline only at its end, and is full, terminated or the last. */
  lemma {:induction false} LineShape(s: string, room: nat)
    ensures var n := LineLen(s, room);
      (forall i :: 0 <= i < n - 1 ==> s[i] != '\n') &&
      (n < room && n < |s| ==> n > 0 && s[n - 1] == '\n')
    decreases |s|
  {
    if s != [] && room > 0 && s[0] != '\n' { LineShape(s[1..], room - 1); }
  }

  // ----- Appending -----

  /* Whether the next character written starts a new line for fgets. */
  predicate AtBoundary(s: string)
    decreases |s|
  {
    s == [] ||
    (if FirstLine(s) < |s| then AtBoundary(s[FirstLine(s)..])
     else s[|s| - 1] == '\n' || |s| == MAXLINELEN - 1)
  }

  lemma {:induction false} LineLenAppend(s: string, t: string, room: nat)
    requires s != [] && (LineLen(s, room) < |s| || s[|s| - 1] == '\n' || |s| == room)
    ensures LineLen(s + t, room) == LineLen(s, room)
    decreases |s|
  {
    if room > 0 && s[0] != '\n' {
      assert (s + t)[1..] == s[1..] + t;
      if |s| == 1 {
        assert s[1..] + t == t;
      } else {
        LineLenAppend(s[1..], t, room - 1);
      }
    }
  }

  lemma {:induction false} LinesAppend(s: string, t: string)
    requires AtBoundary(s)
    ensures Lines(s + t) == Lines(s) + Lines(t)
    decreases |s|
  {
    if s == [] {
      assert s + t == t;
    } else {
      var n := FirstLine(s);
      LineLenAppend(s, t, MAXLINELEN - 1);
      assert (s + t)[..n] == s[..n] && (s + t)[n..] == s[n..] + t;
      LinesAppend(s[n..], t);
      Associative([s[..n]], Lines(s[n..]), Lines(t));
    }
  }

  lemma {:induction false} AppendedBoundary(s: string, l: string)
    requires AtBoundary(s) && FullLine(l)
    ensures AtBoundary(s + l)
    decreases |s|
  {
    if s == [] {
      assert s + l == l + [];
      LineLenFull(l, [], MAXLINELEN - 1);
    } else {
      var n := FirstLine(s);
      LineLenAppend(s, l, MAXLINELEN - 1);
      assert (s + l)[n..] == s[n..] + l;
      AppendedBoundary(s[n..], l);
    }
  }

  /* Cutting off an unfinished last line. */
  lemma {:induction false} SplitUnfinished(s: string) returns (done: string, last: string)
    requires !AtBoundary(s)
    ensures s == done + last && AtBoundary(done) && Lines(s) == Lines(done) + [last]
    ensures 0 < |last| < MAXLINELEN - 1 && forall i :: 0 <= i < |last| ==> last[i] != '\n'
    decreases |s|
  {
    var n := FirstLine(s);
    LineShape(s, MAXLINELEN - 1);
    if n < |s| {
      var d;
      d, last := SplitUnfinished(s[n..]);
      done := s[..n] + d;
      assert s == s[..n] + s[n..];
      Associative(s[..n], d, last);
      FirstPiece(s, n, d);
      Associative([s[..n]], Lines(d), [last]);
    } else {
      done, last := [], s;
      assert s[..n] == s && s[n..] == [];
    }
  }

  /* The first line of `s` stays the first line of any longer start of `s`. */
  lemma {:induction false} FirstPiece(s: string, n: nat, done: string)
    requires n == FirstLine(s) < |s| && AtBoundary(done)
    requires s[..n] + done <= s
    ensures AtBoundary(s[..n] + done) && Lines(s[..n] + done) == [s[..n]] + Lines(done)
  {
    LineShape(s, MAXLINELEN - 1);
    var f, d := s[..n], s[..n] + done;
    assert f != [];
    FirstLineOf(f, done);
    assert d[n..] == done && d[..n] == f;
    if done == [] { assert d == f; }
  }

  lemma {:induction false} FirstLineOf(f: string, rest: string)
    requires 0 < |f| < MAXLINELEN && (f[|f| - 1] == '\n' || |f| == MAXLINELEN - 1)
    requires forall i :: 0 <= i < |f| - 1 ==> f[i] != '\n'
    ensures FirstLine(f + rest) == |f|
  {
    if f[|f| - 1] == '\n' {
      LineLenFull(f, rest, MAXLINELEN - 1);
    } else {
      LineLenRoom(f, rest, MAXLINELEN - 1);
    }
  }

  lemma {:induction false} LineLenRoom(f: string, rest: string, room: nat)
    requires |f| == room && forall i :: 0 <= i < |f| ==> f[i] != '\n'
    ensures LineLen(f + rest, room) == room
    decreases room
  {
    if room > 0 {
      assert (f + rest)[1..] == f[1..] + rest;
      LineLenRoom(f[1..], rest, room - 1);
    }
  }

  // ----- Single lines -----

  /* A line, and a line that is complete or fills the buffer. */
  predicate Chunk(l: string) { 0 < |l| < MAXLINELEN && forall i :: 0 <= i < |l| - 1 ==> l[i] != '\n' }

  predicate Piece(l: string) { Chunk(l) && (l[|l| - 1] == '\n' || |l| == MAXLINELEN - 1) }

  lemma {:induction false} PieceRead(l: string, rest: string)
    requires Piece(l)
    ensures Lines(l + rest) == [l] + Lines(rest)
  {
    FirstLineOf(l, rest);
    assert (l + rest)[..|l|] == l && (l + rest)[|l|..] == rest;
  }

  lemma {:induction false} ChunkRead(l: string)
    requires Chunk(l)
    ensures Lines(l) == [l]
  {
    var n := FirstLine(l);
    LineShape(l, MAXLINELEN - 1);
    assert n == |l|;
    assert l[..n] == l && l[n..] == [];
  }
}
