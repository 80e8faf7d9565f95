/**
 The checkpoint variables (chkpnt/echkpnt.env.c): a table of name and value
 pairs in memory that is mirrored to a file, by appending a line for a new name
 and by rewriting the whole file for a new value.
 */
module CheckpointVars {
  import opened Common
  import opened LineFile

  datatype Var = Var(name: string, value: string)

  type Table = seq<Var>

  // ----- The table -----

  predicate Has(t: Table, name: string) { exists i :: 0 <= i < |t| && t[i].name == name }

  /* The first entry with the name, or |t|. */
  function Find(t: Table, name: string): (k: nat)
    ensures k <= |t| && (forall i :: 0 <= i < k ==> t[i].name != name) && (k < |t| ==> t[k].name == name)
    ensures k < |t| <==> Has(t, name)
    decreases |t|
  {
    if t == [] then 0
    else if t[0].name == name then 0
    else
      var k := Find(t[1..], name);
      assert forall i :: 0 < i < |t| ==> t[i] == t[1..][i - 1];
      k + 1
  }

  function Insert(t: Table, v: Var): Table {
    var k := Find(t, v.name);
    if k == |t| then t + [v] else t[k := v]
  }

  // ----- The file -----

  predicate IsAlpha(c: char) { 'a' <= c <= 'z' || 'A' <= c <= 'Z' }

  function IndexOf(s: string, c: char): (k: nat)
    ensures k <= |s| && (forall i :: 0 <= i < k ==> s[i] != c) && (k < |s| ==> s[k] == c)
    decreases |s|
  {
    if s == [] || s[0] == c then 0
    else
      var k := IndexOf(s[1..], c);
      assert forall i :: 0 < i < |s| ==> s[i] == s[1..][i - 1];
      k + 1
  }

  function Render(v: Var): string { v.name + "=\"" + v.value + "\"\n" }

  function RenderAll(t: Table): string
    decreases |t|
  {
    if t == [] then [] else Render(t[0]) + RenderAll(t[1..])
  }

  /* One line of the file, read the way fillTable_ reads it. */
  function ParseLine(line: string): Option<Var> {
    var eq := IndexOf(line, '=');
    if line == [] || !IsAlpha(line[0]) || eq == |line| then None
    else if eq + 1 == |line| || line[eq + 1] != '\"' then None
    else
      var rest := line[eq + 2..];
      var close := IndexOf(rest, '\"');
      if close == |rest| then None else Some(Var(line[..eq], rest[..close]))
  }

  function ParseLines(t: Table, ls: seq<string>): Option<Table>
    decreases |ls|
  {
    if ls == [] then Some(t)
    else
      var v := ParseLine(ls[0]);
      if v.None? then None else ParseLines(Insert(t, v.value), ls[1..])
  }

  function ParseFile(s: string): Option<Table> { ParseLines([], Lines(s)) }

  /* What survives being written and read back. */
  predicate WellFormed(v: Var) {
    && v.name != [] && IsAlpha(v.name[0])
    && (forall i :: 0 <= i < |v.name| ==> v.name[i] != '=' && v.name[i] != '\n')
    && (forall i :: 0 <= i < |v.value| ==> v.value[i] != '\"' && v.value[i] != '\n')
    && |Render(v)| < MAXLINELEN
  }

  // ----- Lines that read back -----

  lemma {:induction false} IndexOfIs(s: string, c: char, k: nat)
    requires k < |s| && s[k] == c && forall i :: 0 <= i < k ==> s[i] != c
    ensures IndexOf(s, c) == k
  {
  }

  /* A line that starts like a rendered variable, whatever follows the quote. */
  lemma {:induction false} ParseRenderedStart(v: Var, tail: string)
    requires v.name != [] && IsAlpha(v.name[0])
    requires forall i :: 0 <= i < |v.name| ==> v.name[i] != '='
    requires forall i :: 0 <= i < |v.value| ==> v.value[i] != '\"'
    ensures ParseLine(v.name + "=\"" + v.value + "\"" + tail) == Some(v)
  {
    var line := v.name + "=\"" + v.value + "\"" + tail;
    var n := |v.name|;
    assert line[n] == '=' && line[n + 1] == '\"' && line[..n] == v.name;
    IndexOfIs(line, '=', n);
    var rest := line[n + 2..];
    assert rest == v.value + "\"" + tail;
    assert rest[|v.value|] == '\"' && rest[..|v.value|] == v.value;
    IndexOfIs(rest, '\"', |v.value|);
  }

  lemma {:induction false} RenderedLine(v: Var)
    requires WellFormed(v)
    ensures FullLine(Render(v)) && ParseLine(Render(v)) == Some(v)
  {
    ParseRenderedStart(v, "\n");
    assert Render(v) == v.name + "=\"" + v.value + "\"" + "\n";
  }

  lemma {:induction false} ParseLinesAppend(t: Table, a: seq<string>, b: seq<string>)
    ensures ParseLines(t, a + b) == (var u := ParseLines(t, a); if u.None? then None else ParseLines(u.value, b))
    decreases |a|
  {
    if a == [] {
      assert a + b == b;
    } else {
      assert (a + b)[0] == a[0] && (a + b)[1..] == a[1..] + b;
      if ParseLine(a[0]).Some? { ParseLinesAppend(Insert(t, ParseLine(a[0]).value), a[1..], b); }
    }
  }

  // ----- Rewriting the whole file -----

  predicate Unique(t: Table) { forall i, j :: 0 <= i < j < |t| ==> t[i].name != t[j].name }

  predicate AllWellFormed(t: Table) { forall i :: 0 <= i < |t| ==> WellFormed(t[i]) }

  lemma {:induction false} FindFresh(t: Table, name: string)
    ensures Find(t, name) == |t| <==> forall i :: 0 <= i < |t| ==> t[i].name != name
  {
  }

  lemma {:induction false} AddNext(done: Table, t: Table)
    requires t != [] && Unique(done + t)
    ensures Insert(done, t[0]) == done + [t[0]] && done + [t[0]] + t[1..] == done + t
  {
    forall i | 0 <= i < |done| ensures done[i].name != t[0].name {
      assert (done + t)[i] == done[i] && (done + t)[|done|] == t[0];
    }
    FindFresh(done, t[0].name);
  }

  /* Reading a rendered table behind another table adds it. */
  lemma {:induction false} ParseRendered(done: Table, t: Table)
    requires AllWellFormed(t) && Unique(done + t)
    ensures ParseLines(done, Lines(RenderAll(t))) == Some(done + t)
    decreases |t|
  {
    if t == [] {
      assert done + t == done;
    } else {
      RenderedLine(t[0]);
      LinesFull(Render(t[0]), RenderAll(t[1..]));
      assert Lines(RenderAll(t))[0] == Render(t[0]) && Lines(RenderAll(t))[1..] == Lines(RenderAll(t[1..]));
      AddNext(done, t);
      ParseRendered(done + [t[0]], t[1..]);
    }
  }

  lemma {:induction false} RenderedBoundary(t: Table)
    requires AllWellFormed(t)
    ensures AtBoundary(RenderAll(t))
    decreases |t|
  {
    if t != [] {
      RenderedLine(t[0]);
      LineLenFull(Render(t[0]), RenderAll(t[1..]), MAXLINELEN - 1);
      var s, n := RenderAll(t), |Render(t[0])|;
      assert s[n..] == RenderAll(t[1..]);
      RenderedBoundary(t[1..]);
      if n == |s| { assert s == Render(t[0]); }
    }
  }

  // ----- The mirrored state -----

  datatype State = State(table: Table, file: string)

  /* The file reads back as the table, and the next line written is a line. */
  predicate Mirrored(s: State) {
    ParseFile(s.file) == Some(s.table) && AtBoundary(s.file) && Unique(s.table) && AllWellFormed(s.table)
  }

  function Written(s: State, v: Var): State {
    var k := Find(s.table, v.name);
    if k == |s.table| then State(s.table + [v], s.file + Render(v))
    else if s.table[k].value == v.value then s
    else State(s.table[k := v], RenderAll(s.table[k := v]))
  }

  lemma {:induction false} ParseLinesOne(t: Table, l: string)
    ensures ParseLines(t, [l]) == (var v := ParseLine(l); if v.None? then None else Some(Insert(t, v.value)))
  {
    assert [l][1..] == [];
  }

  /* A whole line added at a line boundary is read as one more variable. */
  lemma {:induction false} ParseAppended(f: string, t: Table, l: string)
    requires AtBoundary(f) && ParseFile(f) == Some(t) && FullLine(l)
    ensures ParseFile(f + l) == (var v := ParseLine(l); if v.None? then None else Some(Insert(t, v.value)))
  {
    LinesAppend(f, l);
    assert Lines(l) == [l] by {
      LinesFull(l, []);
      assert l + [] == l && Lines([]) == [] && [l] + [] == [l];
    }
    ParseLinesAppend([], Lines(f), [l]);
    ParseLinesOne(t, l);
  }

  lemma {:induction false} ExtendTable(t: Table, v: Var)
    requires Unique(t) && AllWellFormed(t) && WellFormed(v) && !Has(t, v.name)
    ensures Unique(t + [v]) && AllWellFormed(t + [v]) && Insert(t, v) == t + [v]
  {
  }

  lemma {:induction false} AppendMirrors(s: State, v: Var)
    requires Mirrored(s) && WellFormed(v) && !Has(s.table, v.name)
    ensures Mirrored(State(s.table + [v], s.file + Render(v)))
  {
    RenderedLine(v);
    ParseAppended(s.file, s.table, Render(v));
    AppendedBoundary(s.file, Render(v));
    ExtendTable(s.table, v);
  }

  lemma {:induction false} RewriteMirrors(t: Table)
    requires Unique(t) && AllWellFormed(t)
    ensures Mirrored(State(t, RenderAll(t)))
  {
    assert [] + t == t;
    ParseRendered([], t);
    RenderedBoundary(t);
  }

  lemma {:induction false} WriteMirrors(s: State, v: Var)
    requires Mirrored(s) && WellFormed(v)
    ensures Mirrored(Written(s, v))
  {
    var k := Find(s.table, v.name);
    if k == |s.table| {
      AppendMirrors(s, v);
    } else if s.table[k].value != v.value {
      RewriteMirrors(s.table[k := v]);
    }
  }

  function WrittenAll(s: State, vs: seq<Var>): State
    decreases |vs|
  {
    if vs == [] then s else Written(WrittenAll(s, vs[..|vs| - 1]), vs[|vs| - 1])
  }

  /** After any sequence of writes of well-formed variables from a mirrored state,
      reading the file gives exactly the table, whether each write appended,
      rewrote or did nothing. */
  lemma {:induction false} WritesMirror(s: State, vs: seq<Var>)
    requires Mirrored(s) && forall i :: 0 <= i < |vs| ==> WellFormed(vs[i])
    ensures ParseFile(WrittenAll(s, vs).file) == Some(WrittenAll(s, vs).table)
    ensures Mirrored(WrittenAll(s, vs))
    decreases |vs|
  {
    if vs != [] {
      WritesMirror(s, vs[..|vs| - 1]);
      WriteMirrors(WrittenAll(s, vs[..|vs| - 1]), vs[|vs| - 1]);
    }
  }

  // ----- Reading what was written -----

  /* The value that getEchkpntVar finds under a name. */
  function Lookup(t: Table, name: string): (r: Option<string>)
    ensures r.Some? <==> Has(t, name)
    ensures r.Some? ==> Var(name, r.value) in t
  {
    var k := Find(t, name);
    if k == |t| then None else Some(t[k].value)
  }

  /* The value of the last of the variables with this name. */
  function LastValue(vs: seq<Var>, name: string): Option<string>
    decreases |vs|
  {
    if vs == [] then None
    else if vs[|vs| - 1].name == name then Some(vs[|vs| - 1].value)
    else LastValue(vs[..|vs| - 1], name)
  }

  lemma {:induction false} FindIs(t: Table, name: string, k: nat)
    requires k <= |t| && (forall i :: 0 <= i < k ==> t[i].name != name) && (k < |t| ==> t[k].name == name)
    ensures Find(t, name) == k
  {
  }

  lemma {:induction false} InsertLooksUp(t: Table, v: Var, name: string)
    ensures Lookup(Insert(t, v), name) == if name == v.name then Some(v.value) else Lookup(t, name)
  {
    var k, n := Find(t, v.name), Find(t, name);
    var u := Insert(t, v);
    if name == v.name {
      FindIs(u, name, k);
    } else {
      FindIs(u, name, if n == |t| then |u| else n);
    }
  }

  lemma {:induction false} WrittenInserts(s: State, v: Var)
    ensures Written(s, v).table == Insert(s.table, v)
  {
    var k := Find(s.table, v.name);
    if k < |s.table| && s.table[k].value == v.value { assert s.table[k := v] == s.table; }
  }

  /** After any sequence of writes every name has the value of its last write, and a name
      that was not written the value it had before. */
  lemma {:induction false} ReadYourWrites(s: State, vs: seq<Var>, name: string)
    ensures Lookup(WrittenAll(s, vs).table, name) ==
      (var w := LastValue(vs, name); if w.Some? then w else Lookup(s.table, name))
    decreases |vs|
  {
    if vs != [] {
      var before, v := WrittenAll(s, vs[..|vs| - 1]), vs[|vs| - 1];
      ReadYourWrites(s, vs[..|vs| - 1], name);
      WrittenInserts(before, v);
      InsertLooksUp(before.table, v, name);
    }
  }

  /** And so does the file, to whoever reads it next. */
  lemma {:induction false} ReadBackYourWrites(s: State, vs: seq<Var>, name: string)
    requires Mirrored(s) && forall i :: 0 <= i < |vs| ==> WellFormed(vs[i])
    ensures var t := ParseFile(WrittenAll(s, vs).file);
      t.Some? && Lookup(t.value, name) == (var w := LastValue(vs, name); if w.Some? then w else Lookup(s.table, name))
  {
    WritesMirror(s, vs);
    ReadYourWrites(s, vs, name);
  }

  predicate AllVars(ls: seq<string>) { forall i :: 0 <= i < |ls| ==> ParseLine(ls[i]).Some? }

  /* The variables of lines that all are one. */
  function Vars(ls: seq<string>): seq<Var>
    requires AllVars(ls)
    decreases |ls|
  {
    if ls == [] then [] else [ParseLine(ls[0]).value] + Vars(ls[1..])
  }

  lemma {:induction false} LastValueFront(v: Var, vs: seq<Var>, name: string)
    ensures LastValue([v] + vs, name) ==
      (var w := LastValue(vs, name); if w.Some? then w else if v.name == name then Some(v.value) else None)
    decreases |vs|
  {
    var all := [v] + vs;
    if vs == [] {
      assert all[..0] == [];
    } else {
      LastValueFront(v, vs[..|vs| - 1], name);
      assert all[..|all| - 1] == [v] + vs[..|vs| - 1];
    }
  }

  /** A file is read exactly if each of its lines is a variable, and then every name has the
      value of its last line, or else the value it had. */
  lemma {:induction false} FileMeaning(t: Table, ls: seq<string>, name: string)
    ensures ParseLines(t, ls).Some? <==> AllVars(ls)
    ensures AllVars(ls) ==>
      Lookup(ParseLines(t, ls).value, name) == (var w := LastValue(Vars(ls), name); if w.Some? then w else Lookup(t, name))
    decreases |ls|
  {
    if ls != [] && ParseLine(ls[0]).Some? {
      var v := ParseLine(ls[0]).value;
      FileMeaning(Insert(t, v), ls[1..], name);
      InsertLooksUp(t, v, name);
      if AllVars(ls[1..]) {
        assert AllVars(ls) by { assert forall i :: 0 < i < |ls| ==> ls[i] == ls[1..][i - 1]; }
        LastValueFront(v, Vars(ls[1..]), name);
      }
    }
  }

  // ----- States to start from -----

  lemma {:induction false} EmptyMirrored()
    ensures Mirrored(State([], []))
  {
  }

  lemma {:induction false} InsertKeeps(t: Table, v: Var)
    requires Unique(t) && AllWellFormed(t) && WellFormed(v)
    ensures Unique(Insert(t, v)) && AllWellFormed(Insert(t, v))
  {
  }

  /* What is read from a terminated line that fits is well formed. */
  lemma {:induction false} ParsedWellFormed(l: string)
    requires FullLine(l) && ParseLine(l).Some?
    ensures WellFormed(ParseLine(l).value)
  {
    var v := ParseLine(l).value;
    var eq := IndexOf(l, '=');
    var rest := l[eq + 2..];
    var close := IndexOf(rest, '\"');
    assert v == Var(l[..eq], rest[..close]);
    PartsWellFormed(l, eq, rest, close);
  }

  lemma {:induction false} PartsWellFormed(l: string, eq: nat, rest: string, close: nat)
    requires FullLine(l) && 0 < eq && eq + 2 + close < |l| - 1 && rest == l[eq + 2..] && IsAlpha(l[0])
    requires (forall i :: 0 <= i < eq ==> l[i] != '=') && forall i :: 0 <= i < close ==> rest[i] != '\"'
    ensures WellFormed(Var(l[..eq], rest[..close]))
  {
    var value := rest[..close];
    assert |Render(Var(l[..eq], value))| == eq + close + 4;
    forall i | 0 <= i < close
      ensures value[i] != '\"' && value[i] != '\n'
    {
      assert value[i] == rest[i] == l[eq + 2 + i];
    }
  }

  lemma {:induction false} LoadedTable(t: Table, ls: seq<string>)
    requires Unique(t) && AllWellFormed(t) && (forall i :: 0 <= i < |ls| ==> FullLine(ls[i])) && ParseLines(t, ls).Some?
    ensures Unique(ParseLines(t, ls).value) && AllWellFormed(ParseLines(t, ls).value)
    decreases |ls|
  {
    if ls != [] {
      ParsedWellFormed(ls[0]);
      InsertKeeps(t, ParseLine(ls[0]).value);
      LoadedTable(Insert(t, ParseLine(ls[0]).value), ls[1..]);
    }
  }

  lemma {:induction false} FullLinesBoundary(s: string)
    requires forall i :: 0 <= i < |Lines(s)| ==> FullLine(Lines(s)[i])
    ensures AtBoundary(s)
    decreases |s|
  {
    if s != [] {
      var n := FirstLine(s);
      assert Lines(s)[0] == s[..n] && Lines(s)[1..] == Lines(s[n..]);
      assert FullLine(s[..n]);
      FullLinesBoundary(s[n..]);
    }
  }

  /** A state just loaded from a file whose lines are terminated and fit the buffer
      is mirrored, whatever else the lines hold. */
  lemma {:induction false} LoadedMirrored(file: string)
    requires (forall i :: 0 <= i < |Lines(file)| ==> FullLine(Lines(file)[i])) && ParseFile(file).Some?
    ensures Mirrored(State(ParseFile(file).value, file))
  {
    LoadedTable([], Lines(file));
    FullLinesBoundary(file);
  }

  // ----- Exactly which appends are read back -----

  lemma {:induction false} ParsePrefix(p: string, x: string)
    requires ParseLine(p).Some?
    ensures ParseLine(p + x) == ParseLine(p)
  {
    var eq := IndexOf(p, '=');
    IndexOfIs(p + x, '=', eq);
    var rest := p[eq + 2..];
    var close := IndexOf(rest, '\"');
    assert (p + x)[eq + 2..] == rest + x && (p + x)[..eq] == p[..eq];
    IndexOfIs(rest + x, '\"', close);
    assert (rest + x)[..close] == rest[..close];
  }

  lemma {:induction false} LineLenAfter(last: string, l: string, room: nat)
    requires |last| < room && (forall i :: 0 <= i < |last| ==> last[i] != '\n')
    ensures LineLen(last + l, room) == |last| + LineLen(l, room - |last|)
    decreases |last|
  {
    if last == [] {
      assert last + l == l;
    } else {
      assert (last + l)[1..] == last[1..] + l;
      LineLenAfter(last[1..], l, room - 1);
    }
  }

  /* The end of a rendered variable never reads as that variable. */
  lemma {:induction false} TailIsOther(v: Var, m: nat)
    requires WellFormed(v) && 0 < m < |Render(v)|
    ensures var w := ParseLine(Render(v)[m..]); w.Some? ==> w.value.name != v.name
  {
    var l, n, k := Render(v), |v.name|, |v.value|;
    assert forall i :: n + 2 <= i < n + 2 + k ==> l[i] == v.value[i - n - 2];
    assert |l| == n + k + 4 && l[n + k + 2] == '\"' && l[n + k + 3] == '\n';
  }

  lemma {:induction false} OneFullLine(l: string)
    requires FullLine(l)
    ensures Lines(l) == [l]
  {
    LinesFull(l, []);
    assert l + [] == l && Lines([]) == [] && [l] + [] == [l];
  }

  lemma {:induction false} InsertOther(t: Table, v: Var, w: Var)
    requires w.name != v.name
    ensures Insert(t, w) != t + [v]
  {
    var u := Insert(t, w);
    if |u| == |t| + 1 {
      assert u[|t|] == w && (t + [v])[|t|] == v;
    }
  }

  /* What follows the glued line cannot restore the variable. */
  lemma {:induction false} AfterGlue(t: Table, v: Var, m: nat)
    requires WellFormed(v) && 0 < m <= |Render(v)|
    ensures ParseLines(t, Lines(Render(v)[m..])) != Some(t + [v])
  {
    var r := Render(v)[m..];
    if r != [] {
      RenderedLine(v);
      OneFullLine(r);
      ParseLinesOne(t, r);
      TailIsOther(v, m);
      if ParseLine(r).Some? { InsertOther(t, v, ParseLine(r).value); }
    } else {
      assert Lines(r) == [];
      assert |t| != |t + [v]|;
    }
  }

  /* The rendered variable glued to an unfinished last line. */
  lemma {:induction false} GluedLines(last: string, l: string) returns (m: nat)
    requires 0 < |last| < MAXLINELEN - 1 && (forall i :: 0 <= i < |last| ==> last[i] != '\n') && l != []
    ensures 0 < m <= |l| && Lines(last + l) == [last + l[..m]] + Lines(l[m..])
  {
    var g := last + l;
    LineLenAfter(last, l, MAXLINELEN - 1);
    m := LineLen(l, MAXLINELEN - 1 - |last|);
    var n := FirstLine(g);
    assert g[..n] == last + l[..m] && g[n..] == l[m..];
  }

  lemma {:induction false} ParseThreeParts(a: seq<string>, c: string, r: seq<string>, t0: Table, w: Var)
    requires ParseLines([], a) == Some(t0) && ParseLine(c) == Some(w)
    ensures ParseLines([], a + ([c] + r)) == ParseLines(Insert(t0, w), r)
  {
    ParseLinesAppend([], a, [c] + r);
    assert ([c] + r)[1..] == r;
  }

  lemma {:induction false} GluedIsLost(f: string, t: Table, v: Var)
    requires ParseFile(f) == Some(t) && WellFormed(v) && !AtBoundary(f)
    ensures ParseFile(f + Render(v)) != Some(t + [v])
  {
    var l := Render(v);
    var done, last := SplitUnfinished(f);
    ParseLinesAppend([], Lines(done), [last]);
    var t0 := ParseLines([], Lines(done)).value;
    ParseLinesOne(t0, last);
    var w := ParseLine(last).value;
    var m := GluedLines(last, l);
    ParsePrefix(last, l[..m]);
    Associative(done, last, l);
    LinesAppend(done, last + l);
    ParseThreeParts(Lines(done), last + l[..m], Lines(l[m..]), t0, w);
    AfterGlue(t, v, m);
  }

  /** A new variable is read back after the append exactly when the file ends at a
      line boundary: a loaded file whose last line lacks its newline swallows it. */
  lemma {:induction false} AppendIff(f: string, t: Table, v: Var)
    requires ParseFile(f) == Some(t) && WellFormed(v) && !Has(t, v.name)
    ensures ParseFile(f + Render(v)) == Some(t + [v]) <==> AtBoundary(f)
  {
    if AtBoundary(f) {
      RenderedLine(v);
      ParseAppended(f, t, Render(v));
    } else {
      GluedIsLost(f, t, v);
    }
  }

  /* A line without its newline. */
  function Unfinished(v: Var): string { v.name + "=\"" + v.value + "\"" }

  lemma {:induction false} UnfinishedLine(v: Var)
    requires WellFormed(v)
    ensures Chunk(Unfinished(v)) && ParseLine(Unfinished(v)) == Some(v) && !AtBoundary(Unfinished(v))
  {
    var s := Unfinished(v);
    assert Render(v) == s + "\n";
    RenderedLine(v);
    OpenLine(s);
    ParseRenderedStart(v, []);
    assert s + [] == s;
  }

  lemma {:induction false} OpenLine(s: string)
    requires s != [] && FullLine(s + "\n")
    ensures Chunk(s) && !AtBoundary(s)
  {
    assert forall i :: 0 <= i < |s| ==> s[i] == (s + "\n")[i];
    LineShape(s, MAXLINELEN - 1);
  }

  /** A variable appended to an unfinished line is swallowed by it: what is read back
      is the file as it was. */
  lemma {:induction false} AppendedVanishes(v: Var, w: Var)
    requires WellFormed(v) && WellFormed(w) && |Unfinished(v) + Render(w)| < MAXLINELEN
    ensures ParseFile(Unfinished(v)) == Some([v]) && ParseFile(Unfinished(v) + Render(w)) == Some([v])
  {
    var s, l := Unfinished(v), Render(w);
    UnfinishedLine(v);
    RenderedLine(w);
    ChunkRead(s);
    ParseLinesOne([], s);
    assert Insert([], v) == [v];
    ParsePrefix(s, l);
    assert FullLine(s + l);
    OneFullLine(s + l);
    ParseLinesOne([], s + l);
  }

  lemma {:induction false} AppendWitness()
    ensures var v, w := Var("a", "b"), Var("c", "d");
      WellFormed(w) && ParseFile(Unfinished(v)) == Some([v]) && !AtBoundary(Unfinished(v)) &&
      ParseFile(Unfinished(v) + Render(w)) == Some([v])
  {
    var v, w := Var("a", "b"), Var("c", "d");
    assert v.name[0] == 'a' && w.name[0] == 'c' && |Render(v)| == |Render(w)| == 6;
    assert WellFormed(v) && WellFormed(w);
    UnfinishedLine(v);
    AppendedVanishes(v, w);
  }

  // ----- Exactly which variables are read back -----

  /* Reading back one variable means that the last line read is that variable. */
  lemma {:induction false} LastLineIs(t: Table, ls: seq<string>, v: Var)
    requires ls != [] && ParseLines(t, ls) == Some([v])
    ensures ParseLine(ls[|ls| - 1]) == Some(v)
  {
    var init, last := ls[..|ls| - 1], ls[|ls| - 1];
    SplitLast(ls);
    ParseLinesAppend(t, init, [last]);
    var u := ParseLines(t, init).value;
    ParseLinesOne(u, last);
    InsertedIsThere(u, ParseLine(last).value, v);
  }

  lemma {:induction false} InsertedIsThere(u: Table, w: Var, v: Var)
    requires Insert(u, w) == [v]
    ensures w == v
  {
    var k := Find(u, w.name);
    assert k < |Insert(u, w)| && Insert(u, w)[k] == w;
  }

  lemma {:induction false} LastLineEnds(s: string)
    requires s != []
    ensures Lines(s) != []
    ensures var last := Lines(s)[|Lines(s)| - 1]; 0 < |last| <= |s| && last == s[|s| - |last|..]
    decreases |s|
  {
    var n := FirstLine(s);
    var more := Lines(s[n..]);
    assert Lines(s) == [s[..n]] + more;
    if n < |s| {
      LastLineEnds(s[n..]);
      SuffixOfSuffix(s, n, |s| - |more[|more| - 1]|);
    } else {
      assert more == [] && s[..n] == s[0..];
    }
  }

  lemma {:induction false} SuffixOfSuffix(s: string, n: nat, m: nat)
    requires n <= m <= |s|
    ensures s[n..][m - n..] == s[m..]
  {
  }

  /* A line that reads as `v` is at least as long as `v` rendered without newline. */
  lemma {:induction false} ParsedLength(line: string, v: Var)
    requires ParseLine(line) == Some(v)
    ensures |line| >= |v.name| + |v.value| + 3 && line[|v.name| + |v.value| + 2] == '\"'
  {
    var eq := IndexOf(line, '=');
    var rest := line[eq + 2..];
    assert rest[IndexOf(rest, '\"')] == '\"';
  }

  lemma {:induction false} SingleLine(v: Var)
    requires ParseFile(Render(v)) == Some([v])
    ensures FirstLine(Render(v)) == |Render(v)| && ParseLine(Render(v)) == Some(v)
  {
    var s := Render(v);
    LastLineEnds(s);
    var ls := Lines(s);
    var last := ls[|ls| - 1];
    LastLineIs([], ls, v);
    ParsedLength(last, v);
    assert last[|last| - 1] == s[|s| - 1] == '\n';
    assert |last| == |s| && last == s;
    var n := FirstLine(s);
    assert ls[0] == s[..n] && ls[1..] == Lines(s[n..]);
    if n < |s| { LastLineEnds(s[n..]); }
  }

  /* A rendered variable that reads back from a single line is well formed. */
  lemma {:induction false} ReadBackIsWellFormed(v: Var)
    requires FirstLine(Render(v)) == |Render(v)| && ParseLine(Render(v)) == Some(v)
    ensures WellFormed(v)
  {
    var s, n, k := Render(v), |v.name|, |v.value|;
    LineShape(s, MAXLINELEN - 1);
    assert forall i :: 0 <= i < n ==> s[i] == v.name[i];
    assert forall i :: 0 <= i < k ==> s[n + 2 + i] == v.value[i];
    assert IndexOf(s, '=') == n;
    var rest := s[n + 2..];
    assert IndexOf(rest, '\"') == k;
    assert forall i :: 0 <= i < k ==> rest[i] == v.value[i];
  }

  /** A variable written to an empty file is read back exactly when its name starts
      with a letter and has no = or newline, its value has no quote or newline, and
      its line fits the buffer. */
  lemma {:induction false} RoundTripIff(v: Var)
    ensures ParseFile(Render(v)) == Some([v]) <==> WellFormed(v)
  {
    if WellFormed(v) {
      RenderedLine(v);
      OneFullLine(Render(v));
      ParseLinesOne([], Render(v));
      assert Insert([], v) == [] + [v] == [v];
    }
    if ParseFile(Render(v)) == Some([v]) {
      SingleLine(v);
      ReadBackIsWellFormed(v);
    }
  }

  // ----- The code that keeps table and file -----

  class EchkpntEnv {
    var table: Table
    var file: string

    ghost function View(): State
      reads this
    {
      State(table, file)
    }

    constructor (f: string)
      ensures View() == State([], f)
    {
      table, file := [], f;
    }

    method FindVar(name: string) returns (k: nat)
      ensures k == Find(table, name)
    {
      k := 0;
      while k < |table| && table[k].name != name
        invariant 0 <= k <= |table|
        invariant forall i :: 0 <= i < k ==> table[i].name != name
      {
        k := k + 1;
      }
    }

    /** getEchkpntVar: the value of the variable, if the table has it. */
    method GetEchkpntVar(name: string) returns (value: Option<string>)
      ensures value == Lookup(table, name)
      ensures value.Some? <==> Has(table, name)
      ensures value.Some? ==> Var(name, value.value) in table
    {
      var k := FindVar(name);
      value := if k == |table| then None else Some(table[k].value);
    }

    /** insertVarToTable_: 0 for a new name, 1 for a new value, 2 for no change. */
    method InsertVarToTable(v: Var) returns (code: int)
      modifies this`table
      ensures table == Insert(old(table), v)
      ensures code == 0 <==> !Has(old(table), v.name)
      ensures code == 2 ==> table == old(table)
      ensures code == (var k := Find(old(table), v.name); if k == |old(table)| then 0 else if old(table)[k] == v then 2 else 1)
    {
      var k := FindVar(v.name);
      if k == |table| {
        table := table + [v];
        return 0;
      }
      if table[k].value == v.value {
        return 2;
      }
      table := table[k := v];
      return 1;
    }

    /** updateVarToFile_: the whole table, one line each. */
    method UpdateVarToFile()
      modifies this`file
      ensures file == RenderAll(table)
    {
      var tmp := "";
      var i := 0;
      while i < |table|
        invariant 0 <= i <= |table|
        invariant tmp + RenderAll(table[i..]) == RenderAll(table)
      {
        assert table[i..][0] == table[i] && table[i..][1..] == table[i + 1..];
        Associative(tmp, Render(table[i]), RenderAll(table[i + 1..]));
        tmp := tmp + Render(table[i]);
        i := i + 1;
      }
      assert table[|table|..] == [];
      file := tmp;
    }

    /** writeEchkpntVar: the table gets the variable, and the file stays its mirror
        for well-formed variables. */
    method WriteEchkpntVar(v: Var)
      modifies this
      ensures View() == Written(old(View()), v)
      ensures forall name :: Lookup(table, name) == if name == v.name then Some(v.value) else Lookup(old(table), name)
      ensures old(Mirrored(View())) && WellFormed(v) ==> Mirrored(View())
    {
      WrittenInserts(View(), v);
      forall name ensures Lookup(Insert(table, v), name) == if name == v.name then Some(v.value) else Lookup(table, name) {
        InsertLooksUp(table, v, name);
      }
      if Mirrored(View()) && WellFormed(v) { WriteMirrors(View(), v); }
      var code := InsertVarToTable(v);
      if code == 0 {
        file := file + Render(v);
      } else if code == 1 {
        UpdateVarToFile();
      }
    }

    /** fillTable_: reads the whole file into the table, or drops the table. */
    method FillTable() returns (ok: bool)
      modifies this`table
      ensures var r := ParseLines(old(table), Lines(file)); ok == r.Some? && table == if ok then r.value else []
    {
      var rest := file;
      assert rest == file;
      while rest != []
        invariant ParseLines(old(table), Lines(file)) == ParseLines(table, Lines(rest))
        decreases |rest|
      {
        var n := FirstLine(rest);
        var line := rest[..n];
        assert Lines(rest)[0] == line && Lines(rest)[1..] == Lines(rest[n..]);
        var v := ParseLine(line);
        if v.None? {
          table := [];
          return false;
        }
        var code := InsertVarToTable(v.value);
        rest := rest[n..];
      }
      return true;
    }
  }
}
