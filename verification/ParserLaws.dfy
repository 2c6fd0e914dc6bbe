/**
 * What the parser accepts, line by line: where comments and blanks are cut off, which lines are statements, and what
 * may be wrong with each.
 */
module ParserLaws {
  import opened Bytes
  import opened Options
  import opened Lexer
  import opened Printer
  import opened Parser

  // ---- one line ----

  /** Blank at the ends of a line: tab, newline, vertical tab, form feed, return, space. */
  predicate BlankByte(c: Byte) {
    9 <= c <= 13 || c == 32
  }

  predicate Blanks(s: seq<Byte>) {
    forall k :: 0 <= k < |s| ==> BlankByte(s[k])
  }

  /** Cut at the first hash sign; without the blanks at either end. */
  predicate IsStripped(raw: seq<Byte>, s: seq<Byte>, front: seq<Byte>, back: seq<Byte>, comment: seq<Byte>) {
    && raw == front + s + back + comment && Blanks(front) && Blanks(back)
    && HASH !in front && HASH !in s && HASH !in back && (comment == [] || comment[0] == HASH)
    && (s != [] ==> !BlankByte(s[0]) && !BlankByte(s[|s| - 1]))
  }

  lemma {:induction false} HashCuts(raw: seq<Byte>) returns (comment: seq<Byte>)
    ensures raw == BeforeHash(raw) + comment && (comment == [] || comment[0] == HASH)
    decreases raw
  {
    if raw == [] || raw[0] == HASH {
      comment := raw;
    } else {
      comment := HashCuts(raw[1..]);
      assert raw == [raw[0]] + raw[1..];
    }
  }

  lemma {:induction false} StartCuts(s: seq<Byte>) returns (front: seq<Byte>)
    ensures s == front + TrimStart(s) && Blanks(front) && (TrimStart(s) != [] ==> !BlankByte(TrimStart(s)[0]))
    decreases s
  {
    if s != [] && TrimSpace(s[0]) {
      front := StartCuts(s[1..]);
      front := [s[0]] + front;
      assert s == [s[0]] + s[1..];
    } else {
      front := [];
    }
  }

  lemma {:induction false} EndCuts(s: seq<Byte>) returns (back: seq<Byte>)
    ensures s == TrimEnd(s) + back && Blanks(back)
    ensures TrimEnd(s) != [] ==> !BlankByte(TrimEnd(s)[|TrimEnd(s)| - 1]) && TrimEnd(s)[0] == s[0]
    decreases s
  {
    if s != [] && TrimSpace(s[|s| - 1]) {
      var n := |s| - 1;
      back := EndCuts(s[..n]);
      back := back + [s[n]];
      assert s == s[..n] + [s[n]];
    } else {
      back := [];
    }
  }

  /** What is lexed of a line is the line less its comment and the blanks at its ends. */
  lemma StrippedIs(raw: seq<Byte>) returns (front: seq<Byte>, back: seq<Byte>, comment: seq<Byte>)
    ensures IsStripped(raw, Stripped(raw), front, back, comment)
  {
    hide TrimStart, TrimEnd, BeforeHash, BlankByte;
    comment := HashCuts(raw);
    var line := BeforeHash(raw);
    front := StartCuts(line);
    var rest := TrimStart(line);
    back := EndCuts(rest);
    var s := Stripped(raw);
    assert line == front + s + back;
    assert HASH !in line;
    forall c | c in front || c in s || c in back ensures c in line {}
    if s != [] {
      assert s[0] == rest[0];
    }
  }

  /** And there is only one such part. */
  lemma StrippedIsUnique(raw: seq<Byte>, s: seq<Byte>, front: seq<Byte>, back: seq<Byte>, comment: seq<Byte>)
    requires IsStripped(raw, s, front, back, comment)
    ensures Stripped(raw) == s
  {
    hide TrimEnd, TrimStart;
    var t := front + s + back;
    BeforeHashIs(raw, |t|);
    assert raw[..|t|] == t;
    StartOf(front, s + back);
    assert front + (s + back) == t;
    if s == [] {
      assert s + back == back;
      AllBlank(back);
    } else {
      EndOf(s, back);
    }
  }

  lemma {:induction false} StartOf(front: seq<Byte>, s: seq<Byte>)
    requires Blanks(front)
    ensures TrimStart(front + s) == TrimStart(s)
    ensures s == [] || !BlankByte(s[0]) ==> TrimStart(front + s) == s
    decreases front
  {
    if front != [] {
      assert (front + s)[1..] == front[1..] + s;
      StartOf(front[1..], s);
    } else {
      assert front + s == s;
    }
  }

  lemma {:induction false} EndOf(s: seq<Byte>, back: seq<Byte>)
    requires Blanks(back) && s != [] && !BlankByte(s[|s| - 1])
    ensures TrimEnd(s + back) == s
    decreases back
  {
    if back != [] {
      assert (s + back)[..|s + back| - 1] == s + back[..|back| - 1];
      EndOf(s, back[..|back| - 1]);
    } else {
      assert s + back == s;
    }
  }

  lemma AllBlank(back: seq<Byte>)
    requires Blanks(back)
    ensures TrimEnd(TrimStart(back)) == []
  {
    StartOf(back, []);
    assert back + [] == back;
  }

  // ---- one statement ----

  /** The first argument, if there is one: a token behind the directive without an equals sign. */
  lemma {:induction false} ArgsAre(ts: seq<Text>)
    ensures Args(ts) != [] <==> exists k :: 1 <= k < |ts| && EQUALS !in ts[k]
    ensures Args(ts) != [] ==>
      exists k :: 1 <= k < |ts| && Args(ts)[0] == ts[k] && EQUALS !in ts[k]
                  && forall j :: 1 <= j < k ==> EQUALS in ts[j]
    decreases ts
  {
    if |ts| > 1 {
      var front := ts[..|ts| - 1];
      ArgsAre(front);
      assert forall k :: 0 <= k < |front| ==> front[k] == ts[k];
      if Args(front) != [] {
        var k :| 1 <= k < |front| && Args(front)[0] == front[k] && EQUALS !in front[k]
                 && forall j :: 1 <= j < k ==> EQUALS in front[j];
        assert Args(ts)[0] == ts[k];
      }
    }
  }

  predicate HasArg(ts: seq<Text>) {
    exists k :: 1 <= k < |ts| && EQUALS !in ts[k]
  }

  /** The framework it declares was declared by a statement before. */
  predicate Redeclares(before: seq<Stmt>, s: Stmt) {
    s.kind == Framework && exists k :: 0 <= k < |before| && SameFramework(before[k], s)
  }

  /** What is wrong with a statement, told apart. */
  lemma CheckIs(before: seq<Stmt>, s: Stmt)
    ensures Check(before, s) == [UnknownDirective] <==> s.kind == Unknown
    ensures Check(before, s) == [MissingArgument]
       <==> s.kind in {Kernel, Invariant, Capability, Framework, Witness, Form} && !HasArg(s.tokens)
    ensures Check(before, s) == [DuplicateFramework] <==> HasArg(s.tokens) && Redeclares(before, s)
    ensures |Check(before, s)| <= 1
  {
    ArgsAre(s.tokens);
  }

  // ---- whole buffers ----

  predicate AreLines(ls: seq<seq<Byte>>) {
    ls != [] && forall k :: 0 <= k < |ls| ==> NEWLINE !in ls[k]
  }

  /** Lines with newlines between them. */
  function JoinLines(ls: seq<seq<Byte>>): seq<Byte>
    requires ls != []
    decreases ls
  {
    if |ls| == 1 then ls[0] else ls[0] + [NEWLINE] + JoinLines(ls[1..])
  }

  lemma {:induction false} EveryBufferHasLines(b: seq<Byte>) returns (ls: seq<seq<Byte>>)
    ensures AreLines(ls) && JoinLines(ls) == b
    decreases |b|
  {
    var n := FirstNewline(b);
    if n == |b| {
      assert b[..n] == b;
      ls := [b];
    } else {
      var rest := EveryBufferHasLines(b[n + 1..]);
      ls := [b[..n]] + rest;
      assert ls[1..] == rest;
      assert b == b[..n] + [NEWLINE] + b[n + 1..];
    }
  }

  /** The statement a line is, if it is one. */
  function StatementOf(line: seq<Byte>): seq<Stmt> {
    if NUL in line then []
    else
      match LexLine(line)
      case End => [Stmt(Structural, [])]
      case Words(ts) => [StmtOf(ts)]
      case _ => []
  }

  function Statements(ls: seq<seq<Byte>>): seq<Stmt> {
    if ls == [] then [] else StatementOf(ls[0]) + Statements(ls[1..])
  }

  /** Nothing is wrong with a line behind these statements: no NUL, no lexical error, no complaint. */
  predicate LineInOrder(before: seq<Stmt>, line: seq<Byte>) {
    && NUL !in line && !LexLine(line).Wrong?
    && (StatementOf(line) != [] ==> Check(before, StatementOf(line)[0]) == [])
  }

  predicate InOrder(before: seq<Stmt>, ls: seq<seq<Byte>>)
    decreases ls
  {
    ls == [] || (LineInOrder(before, ls[0]) && InOrder(before + StatementOf(ls[0]), ls[1..]))
  }

  lemma TakesLine(p: Parsed, line: seq<Byte>)
    ensures var q := TakeLine(p, line);
      && q.stmts == p.stmts + StatementOf(line) && |p.problems| <= |q.problems|
      && (|q.problems| == |p.problems| <==> LineInOrder(p.stmts, line))
  {
    hide LexLine, Check;
    assert p.stmts + [] == p.stmts;
  }

  /** Parsing goes line by line: every line's statement in order, and no problem exactly if no line has one. */
  lemma {:induction false} ParsesLines(ls: seq<seq<Byte>>, p: Parsed)
    requires AreLines(ls)
    ensures var q := ParseRest(JoinLines(ls), p);
      && q.stmts == p.stmts + Statements(ls) && |p.problems| <= |q.problems|
      && (|q.problems| == |p.problems| <==> InOrder(p.stmts, ls))
    decreases ls
  {
    hide TakeLine, LineInOrder, StatementOf;
    var line := ls[0];
    var q := TakeLine(p, line);
    TakesLine(p, line);
    if |ls| == 1 {
      assert ls[1..] == [] && Statements([]) == [];
      assert StatementOf(line) + [] == StatementOf(line);
      LastLine(line, p);
    } else {
      var rest := JoinLines(ls[1..]);
      NewlineAt(line, rest);
      var b := JoinLines(ls);
      assert b == line + [NEWLINE] + rest && b[..|line|] == line && b[|line| + 1..] == rest;
      ParsesLines(ls[1..], q);
      assert (p.stmts + StatementOf(line)) + Statements(ls[1..]) == p.stmts + Statements(ls);
    }
  }

  lemma LastLine(line: seq<Byte>, p: Parsed)
    requires NEWLINE !in line
    ensures ParseRest(line, p) == TakeLine(p, line)
  {
    hide TakeLine;
    var n := FirstNewline(line);
    assert n == |line|;
    assert line[..n] == line;
  }

  /** A buffer is accepted exactly when all its lines are in order, and is then the unit of their statements. */
  lemma {:induction false} AcceptedIff(ls: seq<seq<Byte>>)
    requires AreLines(ls)
    ensures Accepted(JoinLines(ls)) <==> InOrder([], ls)
    ensures Parse(JoinLines(ls)).stmts == Statements(ls)
  {
    hide ParseRest, InOrder;
    ParsesLines(ls, Parsed([], []));
    assert [] + Statements(ls) == Statements(ls);
  }
}
