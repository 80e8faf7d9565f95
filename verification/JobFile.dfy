/**
 Rewriting the user command of a job file (chkpnt/erestart.c, getUserCmdFromJF,
 buildNewJobFile, isUserCmdLineMark).

 The command is the first line after the mark "# LSBATCH: User input" that is
 neither blank nor a comment.
 */
module JobFile {
  import opened Common
  import opened LineFile

  // ----- Lines -----

  function StripSpaces(s: string): (t: string)
    ensures |t| <= |s| && (t != [] ==> t[0] != ' ')
    decreases |s|
  {
    if s != [] && s[0] == ' ' then StripSpaces(s[1..]) else s
  }

  lemma {:induction false} StripSuffix(s: string)
    ensures StripSpaces(s) == s[|s| - |StripSpaces(s)|..]
    decreases |s|
  {
    if s != [] && s[0] == ' ' { StripSuffix(s[1..]); }
  }

  function Chomp(s: string): string { if s != [] && s[|s| - 1] == '\n' then s[..|s| - 1] else s }

  function WordEnd(s: string): (k: nat)
    ensures k <= |s| && (forall i :: 0 <= i < k ==> s[i] != ' ') && (k < |s| ==> s[k] == ' ')
    decreases |s|
  {
    if s == [] || s[0] == ' ' then 0
    else
      var k := WordEnd(s[1..]);
      assert forall i :: 0 < i < |s| ==> s[i] == s[1..][i - 1];
      k + 1
  }

  function FirstWord(s: string): string {
    var t := StripSpaces(s);
    t[..WordEnd(t)]
  }

  function AfterWord(s: string): (r: string)
    ensures StripSpaces(s) != [] ==> |r| < |s|
  {
    var t := StripSpaces(s);
    if WordEnd(t) < |t| then t[WordEnd(t) + 1..] else []
  }

  /* The words of a line, separated by spaces. */
  function Words(s: string): seq<string>
    decreases |s|
  {
    if StripSpaces(s) == [] then [] else [FirstWord(s)] + Words(AfterWord(s))
  }

  const MARK := ["LSBATCH:", "User", "input"]

  predicate IsMark(line: string) { line != [] && line[0] == '#' && Words(Chomp(line)[1..]) == MARK }

  datatype LineKind = Comment(mark: bool) | Blank | Command

  function KindOf(line: string): LineKind {
    var p := StripSpaces(line);
    if p == [] || p[0] == '\n' then Blank
    else if p[0] == '#' then Comment(IsMark(p))
    else Command
  }

  /* Comparing word by word. */
  predicate Matches(text: string, ws: seq<string>)
    decreases |ws|
  {
    if ws == [] then StripSpaces(text) == []
    else StripSpaces(text) != [] && FirstWord(text) == ws[0] && Matches(AfterWord(text), ws[1..])
  }

  lemma {:induction false} MatchesIsWords(text: string, ws: seq<string>)
    ensures Matches(text, ws) == (Words(text) == ws)
    decreases |ws|
  {
    if ws != [] && StripSpaces(text) != [] {
      var rest := AfterWord(text);
      MatchesIsWords(rest, ws[1..]);
      Headed(FirstWord(text), Words(rest), ws);
    }
  }

  lemma {:induction false} Headed(w: string, rest: seq<string>, ws: seq<string>)
    requires ws != []
    ensures [w] + rest == ws <==> w == ws[0] && rest == ws[1..]
  {
    if [w] + rest == ws {
      assert ([w] + rest)[1..] == rest;
    }
    if w == ws[0] && rest == ws[1..] {
      assert ws == [ws[0]] + ws[1..];
    }
  }

  /** The word loop of isUserCmdLineMark: the words in turn, then nothing but spaces. */
  method MatchWords(text: string, ws: seq<string>) returns (r: bool)
    requires ws != [] && forall i :: 0 <= i < |ws| ==> ws[i] != []
    ensures r == (Words(text) == ws)
  {
    MatchesIsWords(text, ws);
    var rest, left := text, ws;
    var more := true;
    while left != [] && more
      invariant forall i :: 0 <= i < |left| ==> left[i] != []
      invariant more || StripSpaces(rest) == []
      invariant Matches(text, ws) == Matches(rest, left)
      decreases |left|
    {
      var word := StripSpaces(rest);
      if FirstWord(rest) != left[0] {
        return false;
      }
      more := WordEnd(word) < |word|;
      rest := AfterWord(rest);
      left := left[1..];
    }
    if left != [] {
      return false;
    }
    return !more || StripSpaces(rest) == [];
  }

  /** isUserCmdLineMark. */
  method IsUserCmdLineMark(line: string) returns (r: bool)
    requires line != []
    ensures r == IsMark(line)
  {
    if line[0] != '#' {
      return false;
    }
    r := MatchWords(Chomp(line)[1..], MARK);
  }

  // ----- Reading and rewriting the command -----

  function GetLines(ls: seq<string>, flag: bool): Option<string>
    decreases |ls|
  {
    if ls == [] then None
    else match KindOf(ls[0])
      case Comment(mark) => GetLines(ls[1..], mark)
      case Blank => GetLines(ls[1..], flag)
      case Command =>
        if flag then Some(Chomp(StripSpaces(ls[0]))) else GetLines(ls[1..], false)
  }

  /* The command a job file names, if any. */
  function Get(file: string): Option<string> { GetLines(Lines(file), false) }

  function Rewritten(line: string, flag: bool, cmd: Option<string>): string {
    if KindOf(line).Command? && flag && cmd.Some? then cmd.value + "\n" else line
  }

  /* The flag after a line of this kind. */
  function FlagOn(kind: LineKind, flag: bool): bool {
    match kind
    case Comment(mark) => mark
    case Blank => flag
    case Command => false
  }

  function FlagAfter(line: string, flag: bool): bool { FlagOn(KindOf(line), flag) }

  /* Every marked command replaced, all other lines kept. */
  function PutLines(ls: seq<string>, flag: bool, cmd: Option<string>): (r: seq<string>)
    ensures |r| == |ls|
    decreases |ls|
  {
    if ls == [] then []
    else [Rewritten(ls[0], flag, cmd)] + PutLines(ls[1..], FlagAfter(ls[0], flag), cmd)
  }

  function Put(file: string, cmd: Option<string>): string {
    Concat(PutLines(Lines(file), false, cmd))
  }

  /** getUserCmdFromJF. */
  method GetUserCmdFromJF(file: string) returns (cmd: Option<string>)
    ensures cmd == Get(file)
  {
    var rest, iCmdFlag := file, false;
    while rest != []
      invariant Get(file) == GetLines(Lines(rest), iCmdFlag)
      decreases |rest|
    {
      var n := FirstLine(rest);
      var line := rest[..n];
      assert Lines(rest)[0] == line && Lines(rest)[1..] == Lines(rest[n..]);
      rest := rest[n..];
      var p := StripSpaces(line);
      if p != [] && p[0] == '#' {
        iCmdFlag := IsUserCmdLineMark(p);
      } else if p != [] && p[0] != '\n' {
        if iCmdFlag {
          return Some(Chomp(p));
        }
        iCmdFlag := false;
      }
    }
    return None;
  }

  /** buildNewJobFile: the text of the new job file. */
  method BuildNewJobFile(file: string, cmd: Option<string>) returns (out: string)
    ensures out == Put(file, cmd)
  {
    out := [];
    var rest, iCmdFlag := file, false;
    while rest != []
      invariant Put(file, cmd) == out + Concat(PutLines(Lines(rest), iCmdFlag, cmd))
      decreases |rest|
    {
      var n := FirstLine(rest);
      var line := rest[..n];
      PutStep(rest, iCmdFlag, cmd);
      ghost var later := Concat(PutLines(Lines(rest[n..]), FlagAfter(line, iCmdFlag), cmd));
      Associative(out, Rewritten(line, iCmdFlag, cmd), later);
      rest := rest[n..];
      var p := StripSpaces(line);
      var text := line;
      if p != [] && p[0] == '#' {
        iCmdFlag := IsUserCmdLineMark(p);
      } else if p != [] && p[0] != '\n' {
        if iCmdFlag && cmd.Some? {
          text := cmd.value + "\n";
        }
        iCmdFlag := false;
      }
      out := out + text;
    }
  }

  lemma {:induction false} PutStep(rest: string, flag: bool, cmd: Option<string>)
    requires rest != []
    ensures var n := FirstLine(rest); var line := rest[..n];
      Concat(PutLines(Lines(rest), flag, cmd))
      == Rewritten(line, flag, cmd) + Concat(PutLines(Lines(rest[n..]), FlagAfter(line, flag), cmd))
  {
    var n := FirstLine(rest);
    assert Lines(rest)[0] == rest[..n] && Lines(rest)[1..] == Lines(rest[n..]);
    var r := PutLines(Lines(rest), flag, cmd);
    assert r[1..] == PutLines(Lines(rest[n..]), FlagAfter(rest[..n], flag), cmd);
  }

  // ----- Which lines are commands -----

  function Kinds(ls: seq<string>): (ks: seq<LineKind>)
    ensures |ks| == |ls| && forall i :: 0 <= i < |ls| ==> ks[i] == KindOf(ls[i])
  {
    seq(|ls|, i requires 0 <= i < |ls| => KindOf(ls[i]))
  }

  predicate BlankBetween(ks: seq<LineKind>, i: nat, k: nat) {
    i <= k <= |ks| && forall m :: i <= m < k ==> ks[m] == Blank
  }

  /* The nearest line before `k` that is not blank is a mark. */
  ghost predicate AfterMark(ks: seq<LineKind>, k: nat) {
    exists j :: 0 <= j < k && k <= |ks| && ks[j] == Comment(true) && BlankBetween(ks, j + 1, k)
  }

  ghost predicate Marked(ks: seq<LineKind>, k: nat) { k < |ks| && ks[k] == Command && AfterMark(ks, k) }

  /* The flag of the loops before line `k`. */
  function FlagAt(ks: seq<LineKind>, flag: bool, k: nat): bool
    requires k <= |ks|
  {
    if k == 0 then flag else FlagOn(ks[k - 1], FlagAt(ks, flag, k - 1))
  }

  lemma {:induction false} FlagIsMark(ks: seq<LineKind>, k: nat)
    requires k <= |ks|
    ensures FlagAt(ks, false, k) <==> AfterMark(ks, k)
    decreases k
  {
    if k > 0 {
      FlagIsMark(ks, k - 1);
      if ks[k - 1] == Comment(true) { assert BlankBetween(ks, k, k); }
      if ks[k - 1] == Blank && AfterMark(ks, k - 1) {
        var j :| 0 <= j < k - 1 && ks[j] == Comment(true) && BlankBetween(ks, j + 1, k - 1);
        assert BlankBetween(ks, j + 1, k);
      }
      if j :| 0 <= j < k && ks[j] == Comment(true) && BlankBetween(ks, j + 1, k) {
        if j < k - 1 { assert ks[k - 1] == Blank && BlankBetween(ks, j + 1, k - 1); }
      }
    }
  }

  lemma {:induction false} FlagFront(ks: seq<LineKind>, flag: bool, k: nat)
    requires 0 < k <= |ks|
    ensures FlagAt(ks, flag, k) == FlagAt(ks[1..], FlagOn(ks[0], flag), k - 1)
    decreases k
  {
    if k > 1 {
      FlagFront(ks, flag, k - 1);
      assert ks[k - 1] == ks[1..][k - 2];
    }
  }

  lemma {:induction false} PutAt(ls: seq<string>, ks: seq<LineKind>, flag: bool, cmd: Option<string>, k: nat)
    requires k < |ls| && ks == Kinds(ls)
    ensures PutLines(ls, flag, cmd)[k] == if ks[k] == Command && FlagAt(ks, flag, k) && cmd.Some? then cmd.value + "\n" else ls[k]
    decreases k
  {
    if k > 0 {
      assert ks[1..] == Kinds(ls[1..]);
      PutAt(ls[1..], ks[1..], FlagOn(ks[0], flag), cmd, k - 1);
      FlagFront(ks, flag, k);
    }
  }

  /** Rewriting replaces exactly the commands that a mark precedes with nothing but blank lines
      between, and keeps every other line. */
  lemma {:induction false} PutReplacesMarked(file: string, cmd: Option<string>, k: nat)
    requires k < |Lines(file)|
    ensures var ls := Lines(file);
      PutLines(ls, false, cmd)[k] == if Marked(Kinds(ls), k) && cmd.Some? then cmd.value + "\n" else ls[k]
  {
    var ks := Kinds(Lines(file));
    PutAt(Lines(file), ks, false, cmd, k);
    FlagIsMark(ks, k);
  }

  /* The first line that is a command with the flag set. */
  function FirstFlagged(ks: seq<LineKind>, flag: bool): (k: nat)
    ensures k <= |ks|
    decreases |ks|
  {
    if ks == [] || (ks[0] == Command && flag) then 0 else 1 + FirstFlagged(ks[1..], FlagOn(ks[0], flag))
  }

  lemma {:induction false} GetIsFirst(ls: seq<string>, ks: seq<LineKind>, flag: bool)
    requires ks == Kinds(ls)
    ensures var k := FirstFlagged(ks, flag);
      GetLines(ls, flag) == if k == |ls| then None else Some(Chomp(StripSpaces(ls[k])))
    decreases |ls|
  {
    if ls != [] && !(ks[0] == Command && flag) {
      assert ks[1..] == Kinds(ls[1..]);
      GetIsFirst(ls[1..], ks[1..], FlagOn(ks[0], flag));
    }
  }

  lemma {:induction false} FirstIsFirst(ks: seq<LineKind>, flag: bool)
    ensures var k := FirstFlagged(ks, flag);
      (k < |ks| ==> ks[k] == Command && FlagAt(ks, flag, k)) &&
      forall m :: 0 <= m < k ==> !(ks[m] == Command && FlagAt(ks, flag, m))
    decreases |ks|
  {
    if ks != [] && !(ks[0] == Command && flag) {
      var rest, after := ks[1..], FlagOn(ks[0], flag);
      FirstIsFirst(rest, after);
      var k := FirstFlagged(ks, flag);
      forall m | 0 < m <= k && m < |ks| ensures ks[m] == rest[m - 1] && FlagAt(ks, flag, m) == FlagAt(rest, after, m - 1) {
        FlagFront(ks, flag, m);
      }
    }
  }

  /** Reading gives the first such command, without the spaces before it and its newline, and
      nothing exactly if there is none. */
  lemma {:induction false} GetFindsMarked(file: string) returns (k: nat)
    ensures var ls := Lines(file);
      k <= |ls| && (forall m :: 0 <= m < k ==> !Marked(Kinds(ls), m)) &&
      if k == |ls| then Get(file) == None else Marked(Kinds(ls), k) && Get(file) == Some(Chomp(StripSpaces(ls[k])))
  {
    var ls := Lines(file);
    var ks := Kinds(ls);
    k := FirstFlagged(ks, false);
    GetIsFirst(ls, ks, false);
    FirstIsFirst(ks, false);
    forall m | 0 <= m < |ks| ensures Marked(ks, m) <==> ks[m] == Command && FlagAt(ks, false, m) { FlagIsMark(ks, m); }
  }

  /** What a line is does not depend on the spaces before it; a line that starts with a hash
      sign is a comment, one that starts with its newline is blank, any other a command. */
  lemma {:induction false} KindsOfLines(line: string)
    ensures KindOf(" " + line) == KindOf(line)
    ensures line == [] ==> KindOf(line) == Blank
    ensures line != [] && line[0] == '\n' ==> KindOf(line) == Blank
    ensures line != [] && line[0] == '#' ==> KindOf(line) == Comment(Words(Chomp(line)[1..]) == ["LSBATCH:", "User", "input"])
    ensures line != [] && line[0] != ' ' && line[0] != '\n' && line[0] != '#' ==> KindOf(line) == Command
  {
    assert (" " + line)[1..] == line;
  }

  // ----- The laws of reading and rewriting -----

  /* What fgets may deliver: only the last line can be unfinished. */
  predicate Shaped(ls: seq<string>)
    decreases |ls|
  {
    ls == [] || (if |ls| == 1 then Chunk(ls[0]) else Piece(ls[0]) && Shaped(ls[1..]))
  }

  lemma {:induction false} LinesShaped(s: string)
    ensures Shaped(Lines(s))
    decreases |s|
  {
    if s != [] {
      var n := FirstLine(s);
      LineShape(s, MAXLINELEN - 1);
      LinesShaped(s[n..]);
      assert Chunk(s[..n]);
      assert Lines(s)[1..] == Lines(s[n..]);
    }
  }

  lemma {:induction false} ShapedRead(ls: seq<string>)
    requires Shaped(ls)
    ensures Lines(Concat(ls)) == ls
    decreases |ls|
  {
    if |ls| == 1 {
      assert Concat(ls[1..]) == [] && Concat(ls) == ls[0];
      ChunkRead(ls[0]);
    } else if |ls| > 1 {
      ShapedRead(ls[1..]);
      PieceRead(ls[0], Concat(ls[1..]));
    }
  }

  /* Commands that fit on a line of their own and are read back as they are. */
  predicate Storable(c: string) {
    0 < |c| < MAXLINELEN && c[0] != ' ' && c[0] != '#' && forall i :: 0 <= i < |c| ==> c[i] != '\n'
  }

  lemma {:induction false} CommandStorable(l: string, p: string)
    requires Chunk(l) && 0 < |p| <= |l| && p == l[|l| - |p|..]
    requires p[0] != ' ' && p[0] != '#' && p[0] != '\n'
    ensures Storable(Chomp(p))
  {
    forall i | 0 <= i < |p| - 1
      ensures p[i] != '\n'
    {
      assert p[i] == l[|l| - |p| + i];
    }
  }

  lemma {:induction false} GotStorable(ls: seq<string>, flag: bool)
    requires Shaped(ls) && GetLines(ls, flag).Some?
    ensures Storable(GetLines(ls, flag).value)
    decreases |ls|
  {
    var l := ls[0];
    if KindOf(l).Command? && flag {
      StripSuffix(l);
      CommandStorable(l, StripSpaces(l));
    } else if |ls| > 1 {
      GotStorable(ls[1..], FlagAfter(l, flag));
    }
  }

  /* A stored command is the first line read back. */
  lemma {:induction false} StoredRead(c: string, rest: string)
    requires Storable(c)
    ensures var ls := Lines(c + "\n" + rest);
      ls != [] && KindOf(ls[0]).Command? && Chomp(StripSpaces(ls[0])) == c
  {
    if |c| == MAXLINELEN - 1 {
      Associative(c, "\n", rest);
      PieceRead(c, "\n" + rest);
    } else {
      PieceRead(c + "\n", rest);
    }
  }

  lemma {:induction false} PutGetFrom(ls: seq<string>, flag: bool, c: string, d: string)
    requires Shaped(ls) && GetLines(ls, flag).Some? && Storable(c) && (d == c || d == c + "\n")
    ensures GetLines(Lines(Concat(PutLines(ls, flag, Some(d)))), flag) == Some(c)
    decreases |ls|
  {
    var l, after := ls[0], FlagAfter(ls[0], flag);
    var r := PutLines(ls, flag, Some(d));
    assert r[1..] == PutLines(ls[1..], after, Some(d));
    if KindOf(l).Command? && flag {
      StoredRead(c, if d == c then Concat(r[1..]) else "\n" + Concat(r[1..]));
      if d != c { Associative(c + "\n", "\n", Concat(r[1..])); }
    } else {
      PutGetFrom(ls[1..], after, c, d);
      PieceRead(l, Concat(r[1..]));
      var back := Lines(Concat(r));
      assert back[1..] == Lines(Concat(r[1..]));
    }
  }

  /** Put then get: a job file with a command gives back exactly the storable ones. */
  lemma {:induction false} PutGet(file: string, c: string)
    requires Get(file).Some?
    ensures Get(Put(file, Some(c))) == Some(c) <==> Storable(c)
  {
    LinesShaped(file);
    if Storable(c) {
      PutGetFrom(Lines(file), false, c, c);
    }
    LinesShaped(Put(file, Some(c)));
    if Get(Put(file, Some(c))) == Some(c) {
      GotStorable(Lines(Put(file, Some(c))), false);
    }
  }

  /* Without a command to replace, nothing changes. */
  lemma {:induction false} NothingToPut(ls: seq<string>, flag: bool, cmd: Option<string>)
    requires GetLines(ls, flag).None? || cmd.None?
    ensures PutLines(ls, flag, cmd) == ls
    decreases |ls|
  {
    if ls != [] {
      NothingToPut(ls[1..], FlagAfter(ls[0], flag), cmd);
      assert ls == [ls[0]] + ls[1..];
    }
  }

  /** No command in the file, or none given: the new file is the old one. */
  lemma {:induction false} PutNothing(file: string, cmd: Option<string>)
    requires Get(file).None? || cmd.None?
    ensures Put(file, cmd) == file
  {
    NothingToPut(Lines(file), false, cmd);
    ConcatLines(file);
  }

  /* A command that is read as one terminated line. */
  predicate OneLine(c: string) { FullLine(c + "\n") && KindOf(c + "\n").Command? }

  lemma {:induction false} PutShaped(ls: seq<string>, flag: bool, c: string)
    requires Shaped(ls) && FullLine(c + "\n")
    ensures Shaped(PutLines(ls, flag, Some(c)))
    decreases |ls|
  {
    if ls != [] {
      var r := PutLines(ls, flag, Some(c));
      assert Piece(c + "\n");
      assert r[1..] == PutLines(ls[1..], FlagAfter(ls[0], flag), Some(c));
      if |ls| > 1 { PutShaped(ls[1..], FlagAfter(ls[0], flag), c); }
    }
  }

  lemma {:induction false} PutPutFrom(ls: seq<string>, flag: bool, c: string, d: Option<string>)
    requires OneLine(c) && d.Some?
    ensures PutLines(PutLines(ls, flag, Some(c)), flag, d) == PutLines(ls, flag, d)
    decreases |ls|
  {
    if ls != [] {
      var r, after := PutLines(ls, flag, Some(c)), FlagAfter(ls[0], flag);
      PutPutFrom(ls[1..], after, c, d);
      assert r[1..] == PutLines(ls[1..], after, Some(c));
      assert FlagAfter(r[0], flag) == after && Rewritten(r[0], flag, d) == Rewritten(ls[0], flag, d);
    }
  }

  /* Put twice: only the last command counts. */
  lemma {:induction false} PutPut(file: string, c: string, d: string)
    requires OneLine(c)
    ensures Put(Put(file, Some(c)), Some(d)) == Put(file, Some(d))
  {
    LinesShaped(file);
    PutShaped(Lines(file), false, c);
    ShapedRead(PutLines(Lines(file), false, Some(c)));
    PutPutFrom(Lines(file), false, c, Some(d));
  }

  // Conversely, any other command is noticed by the next rewriting.

  lemma {:induction false} TerminatedBoundary(s: string)
    requires s != [] && s[|s| - 1] == '\n'
    ensures AtBoundary(s)
    decreases |s|
  {
    if FirstLine(s) < |s| { TerminatedBoundary(s[FirstLine(s)..]); }
  }

  lemma {:induction false} SlotRead(c: string, rest: string)
    ensures Lines(c + "\n" + rest) == Lines(c + "\n") + Lines(rest)
    ensures |Lines(c + "\n")| >= 1
  {
    TerminatedBoundary(c + "\n");
    LinesAppend(c + "\n", rest);
  }

  lemma {:induction false} KeptRead(ls: seq<string>, rest: seq<string>)
    requires Shaped(ls) && ls != [] && (|ls| == 1 ==> rest == [])
    ensures Lines(ls[0] + Concat(rest)) == [ls[0]] + Lines(Concat(rest))
  {
    if |ls| == 1 {
      assert ls[0] + [] == ls[0];
      ChunkRead(ls[0]);
    } else {
      PieceRead(ls[0], Concat(rest));
    }
  }

  /* `m` for every marked command. */
  function PerCommand(ls: seq<string>, flag: bool, m: nat): nat
    decreases |ls|
  {
    if ls == [] then 0
    else (if KindOf(ls[0]).Command? && flag then m else 0) + PerCommand(ls[1..], FlagAfter(ls[0], flag), m)
  }

  lemma {:induction false} PerCommandSome(ls: seq<string>, flag: bool, m: nat)
    requires GetLines(ls, flag).Some?
    ensures PerCommand(ls, flag, m) >= m
    decreases |ls|
  {
    if !(KindOf(ls[0]).Command? && flag) { PerCommandSome(ls[1..], FlagAfter(ls[0], flag), m); }
  }

  /* Rewriting gains, for every marked command, the lines beyond the first that the new
     command takes. */
  lemma {:induction false} LineCount(ls: seq<string>, flag: bool, c: string)
    requires Shaped(ls)
    ensures |Lines(c + "\n")| >= 1
    ensures |Lines(Concat(PutLines(ls, flag, Some(c))))| == |ls| + PerCommand(ls, flag, |Lines(c + "\n")| - 1)
    decreases |ls|
  {
    SlotRead(c, []);
    if ls != [] {
      var r, after := PutLines(ls, flag, Some(c)), FlagAfter(ls[0], flag);
      assert r[1..] == PutLines(ls[1..], after, Some(c));
      LineCount(ls[1..], after, c);
      if KindOf(ls[0]).Command? && flag {
        SlotRead(c, Concat(r[1..]));
      } else {
        KeptRead(ls, r[1..]);
      }
    }
  }

  lemma {:induction false} SingleIsFull(c: string)
    requires |Lines(c + "\n")| == 1
    ensures FullLine(c + "\n")
  {
    var s := c + "\n";
    LineShape(s, MAXLINELEN - 1);
    assert Lines(s)[1..] == Lines(s[FirstLine(s)..]);
  }

  lemma {:induction false} KeepsCommand(ls: seq<string>, flag: bool, c: string, d: string)
    requires GetLines(ls, flag).Some? && !KindOf(c + "\n").Command? && c != d
    ensures PutLines(PutLines(ls, flag, Some(c)), flag, Some(d)) != PutLines(ls, flag, Some(d))
    decreases |ls|
  {
    var r, after := PutLines(ls, flag, Some(c)), FlagAfter(ls[0], flag);
    var again, direct := PutLines(r, flag, Some(d)), PutLines(ls, flag, Some(d));
    if KindOf(ls[0]).Command? && flag {
      assert again[0] == c + "\n" && direct[0] == d + "\n";
      assert again[0][..|c|] == c && direct[0][..|d|] == d;
    } else {
      KeepsCommand(ls[1..], after, c, d);
      assert r[1..] == PutLines(ls[1..], after, Some(c));
      assert again[1..] == PutLines(r[1..], after, Some(d));
      assert direct[1..] == PutLines(ls[1..], after, Some(d));
    }
  }

  /* One more command, `d`, tells the two files apart. */
  lemma {:induction false} Noticed(file: string, c: string, d: string)
    requires Get(file).Some? && !OneLine(c) && OneLine(d)
    ensures Put(Put(file, Some(c)), Some(d)) != Put(file, Some(d))
  {
    var ls, once := Lines(file), Put(file, Some(c));
    LinesShaped(file);
    LinesShaped(once);
    LineCount(ls, false, c);
    PutShaped(Lines(once), false, d);
    ShapedRead(PutLines(Lines(once), false, Some(d)));
    PutShaped(ls, false, d);
    ShapedRead(PutLines(ls, false, Some(d)));
    PerCommandSome(ls, false, |Lines(c + "\n")| - 1);
    if |Lines(c + "\n")| == 1 {
      SingleIsFull(c);
      PutShaped(ls, false, c);
      ShapedRead(PutLines(ls, false, Some(c)));
      KeepsCommand(ls, false, c, d);
    }
  }

  lemma {:induction false} ShortOneLine()
    ensures OneLine("x")
  {
    var s := "x" + "\n";
    assert |s| == 2 && s[0] == 'x';
    assert StripSpaces(s) == s;
  }

  /* Any later command replaces `c` without a trace. */
  ghost predicate Forgotten(file: string, c: string) {
    forall d :: Put(Put(file, Some(c)), Some(d)) == Put(file, Some(d))
  }

  /** A second rewriting undoes the first exactly when the first command is one line. */
  lemma {:induction false} PutPutIff(file: string, c: string)
    requires Get(file).Some?
    ensures Forgotten(file, c) <==> OneLine(c)
  {
    if OneLine(c) {
      forall d
        ensures Put(Put(file, Some(c)), Some(d)) == Put(file, Some(d))
      {
        PutPut(file, c, d);
      }
    } else {
      ShortOneLine();
      Noticed(file, c, "x");
    }
  }

  // ----- A command with its newline -----

  /** A restart command comes with the newline of the line it was read from. It is read
      back without it, and the new file has a blank line more for every marked command. */
  lemma {:induction false} RestartCommand(file: string, c: string)
    requires Get(file).Some? && Storable(c) && |c| < MAXLINELEN - 1
    ensures Get(Put(file, Some(c + "\n"))) == Some(c) && Lines(c + "\n" + "\n") == [c + "\n", "\n"]
    ensures |Lines(Put(file, Some(c + "\n")))| == |Lines(file)| + PerCommand(Lines(file), false, 1)
    ensures PerCommand(Lines(file), false, 1) >= 1
  {
    LinesShaped(file);
    PutGetFrom(Lines(file), false, c, c + "\n");
    PieceRead(c + "\n", "\n");
    ChunkRead("\n");
    assert Lines(c + "\n" + "\n") == [c + "\n"] + ["\n"];
    LineCount(Lines(file), false, c + "\n");
    PerCommandSome(Lines(file), false, 1);
  }

  // ----- The longest command -----

  lemma {:induction false} StorableOneLine(c: string)
    requires Storable(c)
    ensures OneLine(c) <==> |c| < MAXLINELEN - 1
    ensures |c| == MAXLINELEN - 1 ==> |Lines(c + "\n")| == 2
  {
    if |c| == MAXLINELEN - 1 {
      PieceRead(c, "\n");
      ChunkRead("\n");
    } else {
      assert StripSpaces(c + "\n") == c + "\n";
    }
  }

  lemma {:induction false} KeepsLineCount(file: string, d: string)
    requires OneLine(d)
    ensures |Lines(Put(file, Some(d)))| == |Lines(file)|
  {
    LinesShaped(file);
    PutShaped(Lines(file), false, d);
    ShapedRead(PutLines(Lines(file), false, Some(d)));
  }

  /** A command that fills the buffer is read back, but any later rewriting leaves more
      lines than it would have without it. */
  lemma {:induction false} LongestCommand(file: string, c: string, d: string)
    requires Get(file).Some? && Storable(c) && |c| == MAXLINELEN - 1 && OneLine(d)
    ensures Get(Put(file, Some(c))) == Some(c)
    ensures |Lines(Put(Put(file, Some(c)), Some(d)))| > |Lines(Put(file, Some(d)))|
  {
    PutGet(file, c);
    StorableOneLine(c);
    LinesShaped(file);
    LineCount(Lines(file), false, c);
    PerCommandSome(Lines(file), false, 1);
    KeepsLineCount(file, d);
    KeepsLineCount(Put(file, Some(c)), d);
  }

  /* Words, each after a space; and a job file with a mark and a command. */
  function Spaced(ws: seq<string>): (r: string)
    ensures r != [] ==> r[0] == ' '
    decreases |ws|
  {
    if ws == [] then [] else " " + (ws[0] + Spaced(ws[1..]))
  }

  function CommandFile(c: string): string { "#" + Spaced(MARK) + "\n" + (c + "\n") }

  lemma {:induction false} SameWords(s: string, t: string)
    requires StripSpaces(s) == StripSpaces(t)
    ensures Words(s) == Words(t)
  {
    assert FirstWord(s) == FirstWord(t) && AfterWord(s) == AfterWord(t);
  }

  lemma {:induction false} WordEndIs(s: string, k: nat)
    requires k <= |s| && (forall i :: 0 <= i < k ==> s[i] != ' ') && (k < |s| ==> s[k] == ' ')
    ensures WordEnd(s) == k
  {
  }

  lemma {:induction false} FirstWordIs(w: string, rest: string)
    requires w != [] && (forall i :: 0 <= i < |w| ==> w[i] != ' ') && (rest != [] ==> rest[0] == ' ')
    ensures StripSpaces(w + rest) == w + rest && FirstWord(w + rest) == w
    ensures AfterWord(w + rest) == if rest == [] then [] else rest[1..]
  {
    var t := w + rest;
    assert forall i :: 0 <= i < |w| ==> t[i] == w[i];
    WordEndIs(t, |w|);
    assert t[..|w|] == w;
    if rest != [] { assert t[|w| + 1..] == rest[1..]; }
  }

  lemma {:induction false} WordsCons(w: string, rest: string)
    requires w != [] && (forall i :: 0 <= i < |w| ==> w[i] != ' ') && (rest != [] ==> rest[0] == ' ')
    ensures Words(" " + (w + rest)) == [w] + Words(rest)
  {
    var t := w + rest;
    assert (" " + t)[1..] == t;
    SameWords(" " + t, t);
    FirstWordIs(w, rest);
    if rest != [] { SameWords(rest, rest[1..]); }
  }

  predicate IsWord(w: string) { w != [] && forall i :: 0 <= i < |w| ==> w[i] != ' ' && w[i] != '\n' }

  lemma {:induction false} WordsSpaced(ws: seq<string>)
    requires forall i :: 0 <= i < |ws| ==> IsWord(ws[i])
    ensures Words(Spaced(ws)) == ws
    decreases |ws|
  {
    if ws != [] {
      var rest := ws[1..];
      WordsSpaced(rest);
      WordsCons(ws[0], Spaced(rest));
      assert [ws[0]] + rest == ws;
    }
  }

  lemma {:induction false} SpacedPlain(ws: seq<string>, m: nat)
    requires forall i :: 0 <= i < |ws| ==> IsWord(ws[i]) && |ws[i]| < m
    ensures forall i :: 0 <= i < |Spaced(ws)| ==> Spaced(ws)[i] != '\n'
    ensures |Spaced(ws)| <= m * |ws|
    decreases |ws|
  {
    if ws != [] {
      SpacedPlain(ws[1..], m);
      assert m * |ws| == m * |ws[1..]| + m;
    }
  }

  lemma {:induction false} HashLine(text: string)
    requires Words(text) == MARK
    ensures IsMark("#" + text + "\n")
  {
    var line := "#" + text + "\n";
    assert Chomp(line) == "#" + text;
    assert ("#" + text)[1..] == text;
  }

  lemma {:induction false} PlainLine(text: string)
    requires |text| < 100 && forall i :: 0 <= i < |text| ==> text[i] != '\n'
    ensures Piece("#" + text + "\n") && StripSpaces("#" + text + "\n") == "#" + text + "\n"
  {
    var line := "#" + text + "\n";
    assert forall i :: 0 < i <= |text| ==> line[i] == text[i - 1];
  }

  lemma {:induction false} MarkLine()
    ensures Piece("#" + Spaced(MARK) + "\n") && KindOf("#" + Spaced(MARK) + "\n") == Comment(true)
  {
    WordsSpaced(MARK);
    HashLine(Spaced(MARK));
    SpacedPlain(MARK, 9);
    PlainLine(Spaced(MARK));
  }

  lemma {:induction false} CommandFileGet(c: string)
    requires Storable(c)
    ensures Get(CommandFile(c)) == Some(c)
  {
    var line := "#" + Spaced(MARK) + "\n";
    MarkLine();
    PieceRead(line, c + "\n");
    StoredRead(c, []);
    assert c + "\n" + [] == c + "\n";
    GetAfterMark(line, Lines(c + "\n"));
  }

  lemma {:induction false} GetAfterMark(line: string, ls: seq<string>)
    requires KindOf(line) == Comment(true) && ls != [] && KindOf(ls[0]).Command?
    ensures GetLines([line] + ls, false) == Some(Chomp(StripSpaces(ls[0])))
  {
    assert ([line] + ls)[1..] == ls;
  }

  lemma {:induction false} LongestWitness()
    ensures var file, c := CommandFile("x"), seq(MAXLINELEN - 1, _ => 'x');
      Storable(c) && Get(Put(file, Some(c))) == Some(c) &&
      |Lines(Put(Put(file, Some(c)), Some("x")))| > |Lines(Put(file, Some("x")))|
  {
    var c := seq(MAXLINELEN - 1, _ => 'x');
    assert Storable("x") && Storable(c);
    CommandFileGet("x");
    ShortOneLine();
    LongestCommand(CommandFile("x"), c, "x");
  }
}
