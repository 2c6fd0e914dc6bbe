/**
 * The parser: lines to statements, with every complaint recorded; and the round trip through canonical
 * text, which is the identity exactly on the units whose lines are short enough and whose last tokens
 * survive trimming.
 */
module Parser {
  import opened Bytes
  import opened Options
  import opened Lexer
  import opened Printer

  datatype Kind =
    | Kernel | Term | Rule | Provides | Bootloader | Invariant | Capability | Framework | Witness
    | Form | Expect | Structural | Unknown

  datatype Stmt = Stmt(kind: Kind, tokens: seq<Text>)

  datatype Problem = Lexed(code: Code) | NulByte | UnknownDirective | MissingArgument | DuplicateFramework

  datatype Parsed = Parsed(stmts: seq<Stmt>, problems: seq<Problem>)

  const FORMS: seq<string> := [
    "field", "module", "cell", "channel", "guard", "counter", "flow", "commit", "nest", "trace", "measure",
    "policy", "bridge", "compile", "interpret", "proof", "council", "deliberate", "evolve", "universal",
    "orbit", "variational", "spectrum", "store", "persist", "frame", "reduce", "complex", "topology",
    "authority", "transport"
  ]

  predicate IsForm(d: Text) {
    exists k :: 0 <= k < |FORMS| && d == Ascii(FORMS[k])
  }

  function KindOf(d: Text): Kind {
    if d == Ascii("kernel") then Kernel
    else if d == Ascii("term") then Term
    else if d == Ascii("rule") then Rule
    else if d == Ascii("provides") then Provides
    else if d == Ascii("bootloader") then Bootloader
    else if d == Ascii("invariant") || d == Ascii("law") then Invariant
    else if d == Ascii("capability") then Capability
    else if d == Ascii("framework") then Framework
    else if d == Ascii("witness") then Witness
    else if d == Ascii("expect") then Expect
    else if IsForm(d) then Form
    else Unknown
  }

  const EQUALS: Byte := 61

  /** The arguments: tokens after the directive without an equals sign. */
  function Args(ts: seq<Text>): seq<Text> {
    if |ts| <= 1 then []
    else Args(ts[..|ts| - 1]) + if EQUALS in ts[|ts| - 1] then [] else [ts[|ts| - 1]]
  }

  predicate NeedsArg(k: Kind) {
    k in {Kernel, Invariant, Capability, Framework, Witness, Form}
  }

  predicate SameFramework(a: Stmt, b: Stmt) {
    && a.kind == Framework && b.kind == Framework && Args(a.tokens) != [] && Args(b.tokens) != []
    && Args(a.tokens)[0] == Args(b.tokens)[0]
  }

  /** What is wrong with a statement that follows the given ones. */
  function Check(before: seq<Stmt>, s: Stmt): seq<Problem> {
    if s.kind == Structural then []
    else if s.kind == Unknown then [UnknownDirective]
    else if NeedsArg(s.kind) && Args(s.tokens) == [] then [MissingArgument]
    else if exists k :: 0 <= k < |before| && SameFramework(before[k], s) then [DuplicateFramework]
    else []
  }

  function StmtOf(ts: seq<Text>): Stmt {
    Stmt(if ts == [] then Unknown else KindOf(ts[0]), ts)
  }

  function Pushed(p: Parsed, s: Stmt): Parsed {
    Parsed(p.stmts + [s], p.problems + Check(p.stmts, s))
  }

  function TakeLine(p: Parsed, line: seq<Byte>): Parsed {
    if NUL in line then p.(problems := p.problems + [NulByte])
    else
      match LexLine(line)
      case Blank => p
      case End => Pushed(p, Stmt(Structural, []))
      case Words(ts) => Pushed(p, StmtOf(ts))
      case Wrong(code) => p.(problems := p.problems + [Lexed(code)])
  }

  function FirstNewline(b: seq<Byte>): (n: nat)
    ensures n <= |b| && NEWLINE !in b[..n] && (n < |b| ==> b[n] == NEWLINE)
  {
    if b == [] || b[0] == NEWLINE then 0
    else
      var n := 1 + FirstNewline(b[1..]);
      assert b[..n] == [b[0]] + b[1..][..n - 1];
      n
  }

  /** Parses the rest of a buffer on top of what was parsed before. */
  function ParseRest(b: seq<Byte>, p: Parsed): Parsed
    decreases |b|
  {
    var n := FirstNewline(b);
    var q := TakeLine(p, b[..n]);
    if n == |b| then q else ParseRest(b[n + 1..], q)
  }

  function Parse(b: seq<Byte>): Parsed {
    ParseRest(b, Parsed([], []))
  }

  predicate Accepted(b: seq<Byte>) {
    Parse(b).problems == []
  }

  // ---- canonical text ----

  function StmtLine(s: Stmt): seq<Byte> {
    if s.kind == Structural then Ascii("end") else Joined(s.tokens)
  }

  function Print(u: seq<Stmt>): seq<Byte> {
    if u == [] then [] else StmtLine(u[0]) + [NEWLINE] + Print(u[1..])
  }

  // ---- what is accepted ----

  predicate LowerCase(w: string) {
    forall k :: 0 <= k < |w| ==> 'a' <= w[k] <= 'z'
  }

  lemma LowerCaseIsWord(w: string)
    requires LowerCase(w) && w != "" && w != "end"
    ensures Word(Ascii(w))
  {
    if |w| == 3 {
      assert w == [w[0], w[1], w[2]];
      assert Ascii(w)[0] == w[0] as int && Ascii(w)[1] == w[1] as int && Ascii(w)[2] == w[2] as int;
      assert Ascii("end") == [101, 110, 100];
    }
  }

  lemma FormsAreLowerCase(k: nat)
    requires k < |FORMS|
    ensures LowerCase(FORMS[k]) && FORMS[k] != "" && FORMS[k] != "end"
  {}

  lemma KnownIsWord(d: Text)
    requires KindOf(d) != Unknown
    ensures Word(d) && KindOf(d) != Structural
  {
    hide Word;
    if IsForm(d) {
      var k :| 0 <= k < |FORMS| && d == Ascii(FORMS[k]);
      FormsAreLowerCase(k);
      LowerCaseIsWord(FORMS[k]);
    } else {
      OtherDirectives(d);
    }
  }

  lemma OtherDirectives(d: Text)
    requires KindOf(d) != Unknown && !IsForm(d)
    ensures Word(d)
  {
    hide Word, IsForm, LowerCase;
    FirstDirectives();
    LastDirectives();
  }

  lemma FirstDirectives()
    ensures Word(Ascii("kernel")) && Word(Ascii("term")) && Word(Ascii("rule"))
    ensures Word(Ascii("provides")) && Word(Ascii("bootloader")) && Word(Ascii("invariant"))
  {
    hide Word;
    LowerCaseIsWord("kernel");
    LowerCaseIsWord("term");
    LowerCaseIsWord("rule");
    LowerCaseIsWord("provides");
    LowerCaseIsWord("bootloader");
    LowerCaseIsWord("invariant");
  }

  lemma LastDirectives()
    ensures Word(Ascii("law")) && Word(Ascii("capability")) && Word(Ascii("framework"))
    ensures Word(Ascii("witness")) && Word(Ascii("expect"))
  {
    hide Word;
    LowerCaseIsWord("law");
    LowerCaseIsWord("capability");
    LowerCaseIsWord("framework");
    LowerCaseIsWord("witness");
    LowerCaseIsWord("expect");
  }

  /** A statement some line can produce. */
  predicate Proper(s: Stmt) {
    if s.kind == Structural then s.tokens == []
    else
      && s.tokens != [] && s.kind == KindOf(s.tokens[0]) && s.kind != Unknown && |s.tokens| <= MAX_TOKENS
      && Absent(NUL, s.tokens) && Absent(NEWLINE, s.tokens) && Absent(HASH, s.tokens)
  }

  /** Every statement is proper and in order after those before it. */
  predicate Acceptable(u: seq<Stmt>) {
    forall k :: 0 <= k < |u| ==> Proper(u[k]) && Check(u[..k], u[k]) == []
  }

  lemma StrippedWithin(raw: seq<Byte>)
    ensures Within(Stripped(raw), raw) && HASH !in Stripped(raw)
  {
    TrimStartWithin(BeforeHash(raw));
    TrimEndWithin(TrimStart(BeforeHash(raw)));
    var s := Stripped(raw);
    forall k | 0 <= k < |s| ensures s[k] in raw && s[k] != HASH {
      assert s[k] in TrimStart(BeforeHash(raw));
      assert s[k] in BeforeHash(raw);
    }
  }

  lemma {:induction false} TrimStartWithin(s: seq<Byte>)
    ensures Within(TrimStart(s), s)
    decreases s
  {
    if s != [] && TrimSpace(s[0]) {
      TrimStartWithin(s[1..]);
    }
  }

  lemma {:induction false} TrimEndWithin(s: seq<Byte>)
    ensures Within(TrimEnd(s), s)
    decreases s
  {
    if s != [] && TrimSpace(s[|s| - 1]) {
      TrimEndWithin(s[..|s| - 1]);
    }
  }

  lemma {:induction false} LexBounds(s: seq<Byte>, st: Scanner)
    ensures Lex(s, st).Tokens? ==> |Lex(s, st).tokens| <= MAX_TOKENS
    decreases |s|
  {
    if s != [] && Turn(s, st).1 > 0 {
      LexBounds(s[Turn(s, st).1..], Turn(s, st).0);
    }
  }

  lemma LineTokens(line: seq<Byte>)
    requires LexLine(line).Words?
    ensures AllWithin(LexLine(line).tokens, line) && Absent(HASH, LexLine(line).tokens)
    ensures |LexLine(line).tokens| <= MAX_TOKENS
  {
    hide Lex, Stripped;
    var s := Stripped(line);
    StrippedWithin(line);
    TokensComeFromLine(s, Idle(), s);
    LexBounds(s, Idle());
    var ts := LexLine(line).tokens;
    forall k | 0 <= k < |ts| ensures Within(ts[k], line) && HASH !in ts[k] {
      assert Within(ts[k], s);
    }
  }

  /** Taking a line only adds statements and problems; an unproblematic line adds an acceptable statement or none. */
  lemma TakeLineGrows(p: Parsed, line: seq<Byte>)
    requires NEWLINE !in line
    ensures var q := TakeLine(p, line);
      && p.stmts <= q.stmts && p.problems <= q.problems
      && (q.problems == [] && Acceptable(p.stmts) ==> Acceptable(q.stmts))
  {
    hide LexLine, Check;
    var q := TakeLine(p, line);
    if q.problems == [] && Acceptable(p.stmts) && q.stmts != p.stmts {
      var s := q.stmts[|p.stmts|];
      if LexLine(line).Words? {
        UnknownIsWrong(p.stmts, s);
        WordsProper(line, s);
      }
      StmtAppended(p.stmts, s);
    }
  }

  lemma UnknownIsWrong(before: seq<Stmt>, s: Stmt)
    requires Check(before, s) == []
    ensures s.kind != Unknown
  {}

  lemma WordsProper(line: seq<Byte>, s: Stmt)
    requires LexLine(line).Words? && s == StmtOf(LexLine(line).tokens) && NUL !in line && NEWLINE !in line
    requires s.kind != Unknown
    ensures Proper(s)
  {
    hide LexLine, KindOf;
    LineTokens(line);
    KnownIsWord(s.tokens[0]);
  }

  lemma StmtAppended(u: seq<Stmt>, s: Stmt)
    requires Acceptable(u) && Proper(s) && Check(u, s) == []
    ensures Acceptable(u + [s])
  {
    hide Check, Proper;
    var v := u + [s];
    forall k | 0 <= k < |v| ensures Proper(v[k]) && Check(v[..k], v[k]) == [] {
      if k < |u| {
        assert v[..k] == u[..k];
      } else {
        assert v[..k] == u;
      }
    }
  }

  lemma {:induction false} ParseRestGrows(b: seq<Byte>, p: Parsed)
    ensures var q := ParseRest(b, p);
      && p.stmts <= q.stmts && p.problems <= q.problems
      && (q.problems == [] && Acceptable(p.stmts) ==> Acceptable(q.stmts))
    decreases |b|
  {
    hide TakeLine, Acceptable;
    var n := FirstNewline(b);
    TakeLineGrows(p, b[..n]);
    if n < |b| {
      ParseRestGrows(b[n + 1..], TakeLine(p, b[..n]));
    }
  }

  /** Whatever an accepted buffer contains, its statements are proper and in order. */
  lemma AcceptedIsAcceptable(b: seq<Byte>)
    requires Accepted(b)
    ensures Acceptable(Parse(b).stmts)
  {
    hide ParseRest;
    ParseRestGrows(b, Parsed([], []));
  }

  // ---- the round trip ----

  /** The canonical line is short enough, and trimming leaves its last token alone. */
  predicate Survives(s: Stmt) {
    s.kind == Structural || (|Joined(s.tokens)| <= MAX_LINE && Sturdy(s.tokens))
  }

  predicate Printable(u: seq<Stmt>) {
    forall k :: 0 <= k < |u| ==> Survives(u[k])
  }

  lemma EndLine()
    ensures LexLine(Ascii("end")) == End && NUL !in Ascii("end") && NEWLINE !in Ascii("end")
  {
    var s := Ascii("end");
    assert s == [101, 110, 100];
    assert HASH !in s;
    TrimStartDone(s);
    TrimEndDone(s);
  }

  /** What the parser makes of one canonical line, for every proper statement. */
  lemma LineBack(p: Parsed, s: Stmt)
    requires Proper(s)
    ensures NEWLINE !in StmtLine(s)
    ensures TakeLine(p, StmtLine(s)) ==
      if s.kind == Structural then Pushed(p, s)
      else if |Joined(s.tokens)| > MAX_LINE then p.(problems := p.problems + [Lexed(LineTooLong)])
      else Pushed(p, StmtOf(Chopped(s.tokens)))
  {
    hide Check, Chopped, Joined;
    if s.kind == Structural {
      EndLine();
    } else {
      KnownIsWord(s.tokens[0]);
      JoinedAbsent(NUL, s.tokens);
      JoinedAbsent(NEWLINE, s.tokens);
      if |Joined(s.tokens)| <= MAX_LINE {
        PrintedLine(s.tokens);
      }
    }
  }

  lemma {:induction false} NewlineAt(line: seq<Byte>, rest: seq<Byte>)
    requires NEWLINE !in line
    ensures FirstNewline(line + [NEWLINE] + rest) == |line|
    decreases line
  {
    var b := line + [NEWLINE] + rest;
    if line != [] {
      assert b[0] == line[0] && b[1..] == line[1..] + [NEWLINE] + rest;
      NewlineAt(line[1..], rest);
    }
  }

  /** Parsing a printed unit takes its first statement's line, then the rest. */
  lemma FirstStmt(p: Parsed, s: Stmt, rest: seq<Byte>)
    requires NEWLINE !in StmtLine(s)
    ensures ParseRest(StmtLine(s) + [NEWLINE] + rest, p) == ParseRest(rest, TakeLine(p, StmtLine(s)))
  {
    hide TakeLine, StmtLine;
    var line := StmtLine(s);
    var b := line + [NEWLINE] + rest;
    NewlineAt(line, rest);
    assert b[..|line|] == line && b[|line| + 1..] == rest;
  }

  lemma NothingLeft(p: Parsed)
    ensures ParseRest([], p) == p
  {
    assert Stripped([]) == [];
    assert LexLine([]) == Blank;
    assert FirstNewline([]) == 0;
  }

  lemma SurvivorBack(p: Parsed, s: Stmt)
    requires Proper(s) && Survives(s) && Check(p.stmts, s) == []
    ensures TakeLine(p, StmtLine(s)) == Parsed(p.stmts + [s], p.problems)
  {
    hide TakeLine, Check, Joined, Chopped, Sturdy;
    LineBack(p, s);
    if s.kind != Structural {
      ChoppedShorter(s.tokens);
      assert StmtOf(s.tokens) == s;
    }
    assert p.problems + [] == p.problems;
  }

  lemma {:induction false} PrintedParses(before: seq<Stmt>, u: seq<Stmt>)
    requires Acceptable(before + u) && Printable(u)
    ensures ParseRest(Print(u), Parsed(before, [])) == Parsed(before + u, [])
    decreases u
  {
    hide ParseRest, TakeLine, Check, Proper, Survives, StmtLine;
    if u == [] {
      NothingLeft(Parsed(before, []));
      assert before + u == before;
    } else {
      var s := u[0];
      assert (before + u)[|before|] == s && (before + u)[..|before|] == before;
      SurvivorBack(Parsed(before, []), s);
      LineBack(Parsed(before, []), s);
      FirstStmt(Parsed(before, []), s, Print(u[1..]));
      assert before + u == (before + [s]) + u[1..];
      PrintedParses(before + [s], u[1..]);
    }
  }

  /**
   * Print then parse is the identity: for every accepted source whose canonical lines fit and whose last tokens
   * survive trimming, parsing its canonical text gives the same unit and no complaint.
   */
  lemma PrintThenParse(b: seq<Byte>)
    requires Accepted(b) && Printable(Parse(b).stmts)
    ensures Parse(Print(Parse(b).stmts)) == Parsed(Parse(b).stmts, [])
  {
    hide ParseRest, Acceptable;
    AcceptedIsAcceptable(b);
    assert [] + Parse(b).stmts == Parse(b).stmts;
    PrintedParses([], Parse(b).stmts);
  }

  lemma {:induction false} UnprintableDiffers(before: seq<Stmt>, u: seq<Stmt>)
    requires Acceptable(before + u) && !Printable(u)
    ensures ParseRest(Print(u), Parsed(before, [])) != Parsed(before + u, [])
    decreases u
  {
    hide ParseRest, TakeLine, Check, Proper, StmtLine, Joined, Sturdy, Chopped, KindOf;
    var s := u[0];
    var p := Parsed(before, []);
    assert (before + u)[|before|] == s && (before + u)[..|before|] == before;
    LineBack(p, s);
    FirstStmt(p, s, Print(u[1..]));
    ParseRestGrows(Print(u[1..]), TakeLine(p, StmtLine(s)));
    if Survives(s) {
      SurvivorBack(p, s);
      assert before + u == (before + [s]) + u[1..];
      UnprintableDiffers(before + [s], u[1..]);
    } else {
      ChoppedShorter(s.tokens);
    }
  }

  /** And it is the identity only then. */
  lemma RoundTripIff(b: seq<Byte>)
    requires Accepted(b)
    ensures Parse(Print(Parse(b).stmts)) == Parsed(Parse(b).stmts, []) <==> Printable(Parse(b).stmts)
  {
    hide ParseRest, Acceptable, Printable;
    AcceptedIsAcceptable(b);
    var u := Parse(b).stmts;
    assert [] + u == u;
    if Printable(u) {
      PrintedParses([], u);
    } else {
      UnprintableDiffers([], u);
    }
  }

  /** The line  kernel "a<VT>"  : its last token ends in a vertical tab that canonical text leaves unquoted. */
  function VerticalTabLine(): seq<Byte> {
    Ascii("kernel") + [SPACE] + [DOUBLE_QUOTE, 97, VT, DOUBLE_QUOTE]
  }

  lemma VerticalTabLexes()
    ensures LexLine(VerticalTabLine()) == Words([Ascii("kernel"), [97, VT]])
  {
    hide Lex, Ascii, Stripped, Turn, TrimStart, TrimEnd, BeforeHash;
    VerticalTabTokens();
    VerticalTabStripped();
  }

  lemma VerticalTabTokens()
    ensures Lex(VerticalTabLine(), Idle()) == Tokens([Ascii("kernel"), [97, VT]])
    ensures VerticalTabLine() != [] && VerticalTabLine() != Ascii("end") && |VerticalTabLine()| <= MAX_LINE
  {
    hide Lex, Ascii, Turn, Shown, Escaped, Finish;
    var d, t, b := Ascii("kernel"), [97, VT], VerticalTabLine();
    LowerCaseIsWord("kernel");
    WordIsPlain(d);
    var inner := [97, VT, DOUBLE_QUOTE];
    assert b == d + ([SPACE] + ([DOUBLE_QUOTE] + inner));
    ShownLexes(d, [SPACE] + ([DOUBLE_QUOTE] + inner), []);
    SpaceLexes([DOUBLE_QUOTE] + inner, d, []);
    assert [] + [d] == [d];
    OpenQuote(inner, Scanner(Unquoted, false, [], [d]));
    EscapedTab();
    assert inner == Escaped(t) + ([DOUBLE_QUOTE] + []);
    EscapedLexes(t, [], Scanner(Double, true, [], [d]));
    LexEnds(t, [d]);
    assert [] + t == t && [d] + [t] == [d, t];
    assert |b| == 11 && |Ascii("end")| == 3;
  }

  lemma VerticalTabStripped()
    ensures Stripped(VerticalTabLine()) == VerticalTabLine()
  {
    hide TrimStart, TrimEnd, BeforeHash, Ascii;
    var b := VerticalTabLine();
    LowerCaseIsWord("kernel");
    NoHash(Ascii("kernel"));
    assert b[0] == Ascii("kernel")[0] && b[|b| - 1] == DOUBLE_QUOTE;
    TrimStartDone(b);
    TrimEndDone(b);
  }

  lemma NoHash(d: Text)
    requires Word(d)
    ensures HASH !in d + [SPACE] + [DOUBLE_QUOTE, 97, VT, DOUBLE_QUOTE]
    ensures var line := d + [SPACE] + [DOUBLE_QUOTE, 97, VT, DOUBLE_QUOTE]; BeforeHash(line) == line
  {}

  lemma EscapedTab()
    ensures Escaped([97, VT]) == [97, VT]
  {
    assert Escaped([97, VT][1..]) == [VT] by {
      assert [97, VT][1..] == [VT] && [VT][1..] == [];
      assert Escaped([VT]) == EscapedByte(VT) + Escaped([]);
    }
  }

  lemma LexEnds(t: Text, tokens: seq<Text>)
    requires |tokens| < MAX_TOKENS
    ensures Lex([], Scanner(Unquoted, true, t, tokens)) == Tokens(tokens + [t])
  {}

  /** An accepted source that the round trip does not give back. */
  lemma VerticalTabIsLost()
    ensures var b := VerticalTabLine();
      Accepted(b) && Parse(Print(Parse(b).stmts)) != Parsed(Parse(b).stmts, [])
  {
    hide Print, ParseRest, TakeLine, VerticalTabLine, Survives;
    var b := VerticalTabLine();
    var s := StmtOf([Ascii("kernel"), [97, VT]]);
    VerticalTabTaken(s);
    OneLine(b, Parsed([s], []));
    assert Parse(b).stmts[0] == s;
    VerticalTabChopped(s);
    RoundTripIff(b);
  }

  lemma VerticalTabTaken(s: Stmt)
    requires s == StmtOf([Ascii("kernel"), [97, VT]])
    ensures TakeLine(Parsed([], []), VerticalTabLine()) == Parsed([s], [])
    ensures forall j :: 0 <= j < |VerticalTabLine()| ==> VerticalTabLine()[j] != NEWLINE
  {
    hide LexLine, Args;
    VerticalTabLexes();
    VerticalTabBytes(VerticalTabLine());
    VerticalTabArgs();
  }

  lemma OneLine(b: seq<Byte>, p: Parsed)
    requires (forall j :: 0 <= j < |b| ==> b[j] != NEWLINE) && TakeLine(Parsed([], []), b) == p
    ensures Parse(b) == p
  {
    hide TakeLine;
    FirstNewlineIs(b, |b|);
    assert b[0..] == b && b[0..|b|] == b;
    LineStep(b, 0, |b|, Parsed([], []));
  }

  lemma VerticalTabChopped(s: Stmt)
    requires s == StmtOf([Ascii("kernel"), [97, VT]])
    ensures !Survives(s)
  {
    hide Joined, Args;
    NeverStructural(s.tokens);
    var t := s.tokens[|s.tokens| - 1];
    assert t == [97, VT] && !Special(t[0]) && !Special(t[1]);
  }

  lemma VerticalTabBytes(b: seq<Byte>)
    requires b == VerticalTabLine()
    ensures NUL !in b && forall j :: 0 <= j < |b| ==> b[j] != NEWLINE
  {
    LowerCaseIsWord("kernel");
  }

  lemma VerticalTabArgs()
    ensures Args([Ascii("kernel"), [97, VT]]) == [[97, VT]]
  {
    var ts := [Ascii("kernel"), [97, VT]];
    assert ts[..1] == [Ascii("kernel")] && Args(ts[..1]) == [];
    assert EQUALS !in ts[1];
  }

  // ---- the program ----

  /** Whether a statement has an argument, and the first one. */
  method FirstArg(ts: seq<Text>) returns (arg: Option<Text>)
    ensures arg == if Args(ts) == [] then None else Some(Args(ts)[0])
  {
    var i := 1;
    while i < |ts|
      invariant 1 <= i && (i <= |ts| || |ts| == 0)
      invariant |ts| > 0 ==> Args(ts[..i]) == []
    {
      assert ts[..i + 1][..i] == ts[..i];
      if EQUALS !in ts[i] {
        FirstArgIs(ts, i + 1);
        return Some(ts[i]);
      }
      i := i + 1;
    }
    if |ts| > 0 {
      assert ts[..i] == ts;
    }
    arg := None;
  }

  lemma {:induction false} FirstArgIs(ts: seq<Text>, i: nat)
    requires 1 <= i <= |ts| && Args(ts[..i]) != []
    ensures Args(ts) != [] && Args(ts)[0] == Args(ts[..i])[0]
    decreases |ts| - i
  {
    if i == |ts| {
      assert ts[..i] == ts;
    } else {
      assert ts[..i + 1][..i] == ts[..i];
      FirstArgIs(ts, i + 1);
    }
  }

  /** The checks on a new statement, in the order the parser makes them. */
  method CheckStmt(before: seq<Stmt>, s: Stmt) returns (ps: seq<Problem>)
    requires s.kind != Structural
    ensures ps == Check(before, s)
  {
    hide Args;
    if s.kind == Unknown {
      return [UnknownDirective];
    }
    var key := FirstArg(s.tokens);
    if NeedsArg(s.kind) && key.None? {
      return [MissingArgument];
    }
    if s.kind == Framework {
      var i := 0;
      while i < |before|
        invariant 0 <= i <= |before|
        invariant forall k :: 0 <= k < i ==> !SameFramework(before[k], s)
      {
        if before[i].kind == Framework {
          var prior := FirstArg(before[i].tokens);
          if prior.Some? && prior == key {
            return [DuplicateFramework];
          }
        }
        i := i + 1;
      }
    }
    ps := [];
  }

  /** The parser: a position over the buffer, a growing list of statements and of complaints. */
  method ParseBuffer(b: seq<Byte>) returns (p: Parsed)
    ensures p == Parse(b)
  {
    hide TakeLine, ParseRest;
    var stmts: seq<Stmt>, problems: seq<Problem> := [], [];
    var pos := 0;
    assert b[0..] == b;
    while true
      invariant 0 <= pos <= |b|
      invariant ParseRest(b[pos..], Parsed(stmts, problems)) == Parse(b)
      decreases |b| - pos
    {
      var start := pos;
      pos := LineEnd(b, start);
      LineStep(b, start, pos, Parsed(stmts, problems));
      stmts, problems := AddLine(stmts, problems, b[start..pos]);
      if pos >= |b| {
        return Parsed(stmts, problems);
      }
      pos := pos + 1;
    }
  }

  method LineEnd(b: seq<Byte>, start: nat) returns (pos: nat)
    requires start <= |b|
    ensures start <= pos <= |b| && FirstNewline(b[start..]) == pos - start
  {
    pos := start;
    while pos < |b| && b[pos] != NEWLINE
      invariant start <= pos <= |b| && forall k :: start <= k < pos ==> b[k] != NEWLINE
    {
      pos := pos + 1;
    }
    FirstNewlineIs(b[start..], pos - start);
  }

  lemma {:induction false} FirstNewlineIs(s: seq<Byte>, k: nat)
    requires k <= |s| && (forall j :: 0 <= j < k ==> s[j] != NEWLINE) && (k < |s| ==> s[k] == NEWLINE)
    ensures FirstNewline(s) == k
    decreases k
  {
    if k > 0 {
      FirstNewlineIs(s[1..], k - 1);
    }
  }

  lemma LineStep(b: seq<Byte>, start: nat, pos: nat, p: Parsed)
    requires start <= pos <= |b| && FirstNewline(b[start..]) == pos - start
    ensures var q := TakeLine(p, b[start..pos]);
      ParseRest(b[start..], p) == if pos == |b| then q else ParseRest(b[pos + 1..], q)
  {
    hide TakeLine;
    assert b[start..][..pos - start] == b[start..pos];
    if pos < |b| {
      assert b[start..][pos - start + 1..] == b[pos + 1..];
    }
  }

  method AddLine(stmts: seq<Stmt>, problems: seq<Problem>, line: seq<Byte>)
    returns (stmts': seq<Stmt>, problems': seq<Problem>)
    ensures Parsed(stmts', problems') == TakeLine(Parsed(stmts, problems), line)
  {
    hide LexLine, Check, KindOf;
    if NUL in line {
      return stmts, problems + [NulByte];
    }
    var lexed := LexRawLine(line);
    match lexed {
      case Blank => return stmts, problems;
      case Wrong(code) => return stmts, problems + [Lexed(code)];
      case End =>
        assert problems + Check(stmts, Stmt(Structural, [])) == problems by { StructuralIsFine(stmts); }
        return stmts + [Stmt(Structural, [])], problems;
      case Words(ts) =>
        var s := StmtOf(ts);
        NeverStructural(ts);
        var found := CheckStmt(stmts, s);
        return stmts + [s], problems + found;
    }
  }

  lemma StructuralIsFine(before: seq<Stmt>)
    ensures Check(before, Stmt(Structural, [])) == []
  {}

  lemma NeverStructural(ts: seq<Text>)
    ensures StmtOf(ts).kind != Structural
  {}

  /** The canonical writer: one line per statement. */
  method WriteUnit(u: seq<Stmt>) returns (s: seq<Byte>)
    ensures s == Print(u)
  {
    hide StmtLine;
    s := [];
    var i := 0;
    while i < |u|
      invariant 0 <= i <= |u| && s == Print(u[..i])
    {
      var line := WriteStmt(u[i]);
      PrintSnoc(u[..i], u[i]);
      assert u[..i + 1] == u[..i] + [u[i]];
      s := s + line + [NEWLINE];
      i := i + 1;
    }
    assert u[..i] == u;
  }

  method WriteStmt(s: Stmt) returns (line: seq<Byte>)
    ensures line == StmtLine(s)
  {
    if s.kind == Structural {
      return Ascii("end");
    }
    line := WriteTokens(s.tokens);
  }

  lemma {:induction false} PrintSnoc(u: seq<Stmt>, s: Stmt)
    ensures Print(u + [s]) == Print(u) + StmtLine(s) + [NEWLINE]
    decreases u
  {
    hide StmtLine;
    if u == [] {
      assert u + [s] == [s];
    } else {
      PrintSnoc(u[1..], s);
      assert (u + [s])[1..] == u[1..] + [s];
    }
  }

  /** Structural equality of two units, statement by statement and token by token. */
  method UnitEqual(a: seq<Stmt>, b: seq<Stmt>) returns (equal: bool)
    ensures equal <==> a == b
  {
    if |a| != |b| {
      return false;
    }
    var i := 0;
    while i < |a|
      invariant 0 <= i <= |a| && a[..i] == b[..i]
    {
      if a[i].kind != b[i].kind || |a[i].tokens| != |b[i].tokens| {
        return false;
      }
      var j := 0;
      while j < |a[i].tokens|
        invariant 0 <= j <= |a[i].tokens| && a[i].tokens[..j] == b[i].tokens[..j]
      {
        if a[i].tokens[j] != b[i].tokens[j] {
          return false;
        }
        j := j + 1;
      }
      assert a[i].tokens[..j] == a[i].tokens && b[i].tokens[..j] == b[i].tokens;
      i := i + 1;
    }
    assert a[..i] == a && b[..i] == b;
    equal := true;
  }
}
