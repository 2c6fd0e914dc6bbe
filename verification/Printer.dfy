/**
 * Canonical text of a statement: tokens separated by single spaces, double-quoted where needed. What
 * the lexer makes of that text is stated exactly, for every statement.
 */
module Printer {
  import opened Bytes
  import opened Lexer

  /** Bytes that mean something to the lexer outside quotes. */
  predicate Special(c: Byte) {
    Separator(c) || c == SINGLE_QUOTE || c == DOUBLE_QUOTE || c == BACKSLASH
  }

  predicate NeedsQuote(t: Text) {
    t == [] || exists k :: 0 <= k < |t| && Special(t[k])
  }

  function Escaped(t: Text): seq<Byte> {
    if t == [] then []
    else EscapedByte(t[0]) + Escaped(t[1..])
  }

  function EscapedByte(c: Byte): seq<Byte> {
    if c == DOUBLE_QUOTE || c == BACKSLASH then [BACKSLASH, c] else [c]
  }

  function Shown(t: Text): (s: seq<Byte>)
    ensures s != []
  {
    if NeedsQuote(t) then [DOUBLE_QUOTE] + Escaped(t) + [DOUBLE_QUOTE] else t
  }

  function Spaced(ts: seq<Text>): seq<Byte> {
    if ts == [] then [] else [SPACE] + Shown(ts[0]) + Spaced(ts[1..])
  }

  function Joined(ts: seq<Text>): seq<Byte> {
    if ts == [] then [] else Shown(ts[0]) + Spaced(ts[1..])
  }

  // ---- lexing what was printed ----

  predicate Plain(t: Text) {
    forall k :: 0 <= k < |t| ==> !Special(t[k])
  }

  lemma {:induction false} PlainLexes(t: Text, rest: seq<Byte>, st: Scanner)
    requires Plain(t) && t != [] && st.quote == Unquoted
    ensures Lex(t + rest, st) == Lex(rest, Push(st, t))
    decreases t
  {
    var s := t + rest;
    assert s[0] == t[0] && s[1..] == t[1..] + rest;
    var next := Push(st, [t[0]]);
    assert Turn(s, st) == (next, 1);
    if |t| == 1 {
      assert t == [t[0]] && t[1..] + rest == rest;
    } else {
      PlainLexes(t[1..], rest, next);
      assert st.text + t == (st.text + [t[0]]) + t[1..];
    }
  }

  lemma {:induction false} EscapedLexes(t: Text, rest: seq<Byte>, st: Scanner)
    requires st.quote == Double && st.inToken
    ensures Lex(Escaped(t) + ([DOUBLE_QUOTE] + rest), st) == Lex(rest, Push(st, t).(quote := Unquoted))
    decreases t
  {
    hide Turn, Push;
    if t == [] {
      CloseQuote(rest, st);
      assert Escaped(t) + ([DOUBLE_QUOTE] + rest) == [DOUBLE_QUOTE] + rest;
      PushParts(st, [], []);
    } else {
      var after := Escaped(t[1..]) + ([DOUBLE_QUOTE] + rest);
      EscapedTurn(t[0], after, st);
      assert Escaped(t) + ([DOUBLE_QUOTE] + rest) == EscapedByte(t[0]) + after;
      PushParts(st, [t[0]], t[1..]);
      EscapedLexes(t[1..], rest, Push(st, [t[0]]));
      assert [t[0]] + t[1..] == t;
    }
  }

  lemma EscapedTurn(c: Byte, after: seq<Byte>, st: Scanner)
    requires st.quote == Double && st.inToken
    ensures Lex(EscapedByte(c) + after, st) == Lex(after, Push(st, [c]))
  {
    var s := EscapedByte(c) + after;
    assert s[|EscapedByte(c)|..] == after;
    assert Turn(s, st) == (Push(st, [c]), |EscapedByte(c)|);
  }

  lemma CloseQuote(rest: seq<Byte>, st: Scanner)
    requires st.quote == Double
    ensures Lex([DOUBLE_QUOTE] + rest, st) == Lex(rest, st.(quote := Unquoted))
  {
    var s := [DOUBLE_QUOTE] + rest;
    assert s[1..] == rest;
    assert Turn(s, st) == (st.(quote := Unquoted), 1);
  }

  lemma PushParts(st: Scanner, a: Text, b: Text)
    ensures Push(Push(st, a), b) == Push(st, a + b)
    ensures Push(st, a).quote == st.quote && Push(st, a).inToken
    ensures st.inToken ==> Push(st, []) == st
  {
    assert st.text + [] == st.text;
    assert (st.text + a) + b == st.text + (a + b);
  }

  /** A printed token, between tokens, is read back as that token. */
  lemma {:induction false} ShownLexes(t: Text, rest: seq<Byte>, tokens: seq<Text>)
    ensures Lex(Shown(t) + rest, Scanner(Unquoted, false, [], tokens)) == Lex(rest, Scanner(Unquoted, true, t, tokens))
  {
    hide Lex, Escaped;
    var st := Scanner(Unquoted, false, [], tokens);
    if NeedsQuote(t) {
      var s := Shown(t) + rest;
      var inner := Escaped(t) + ([DOUBLE_QUOTE] + rest);
      assert s == [DOUBLE_QUOTE] + inner;
      var open := Scanner(Double, true, [], tokens);
      OpenQuote(inner, st);
      EscapedLexes(t, rest, open);
      assert [] + t == t;
    } else {
      PlainLexes(t, rest, st);
      assert [] + t == t;
    }
  }

  lemma OpenQuote(inner: seq<Byte>, st: Scanner)
    requires st.quote == Unquoted
    ensures Lex([DOUBLE_QUOTE] + inner, st) == Lex(inner, st.(quote := Double, inToken := true))
  {
    var s := [DOUBLE_QUOTE] + inner;
    assert s[1..] == inner;
    assert Turn(s, st) == (st.(quote := Double, inToken := true), 1);
  }

  lemma SpaceLexes(rest: seq<Byte>, text: Text, tokens: seq<Text>)
    ensures Lex([SPACE] + rest, Scanner(Unquoted, true, text, tokens))
         == Lex(rest, Scanner(Unquoted, false, [], tokens + [text]))
  {
    var s := [SPACE] + rest;
    assert s[1..] == rest;
  }

  lemma {:induction false} SpacedLexes(ts: seq<Text>, text: Text, tokens: seq<Text>)
    ensures Lex(Spaced(ts), Scanner(Unquoted, true, text, tokens))
         == Finish(Scanner(Unquoted, false, [], tokens + [text] + ts))
    decreases ts
  {
    hide Turn;
    if ts == [] {
      assert tokens + [text] + ts == tokens + [text];
    } else {
      var rest := Spaced(ts[1..]);
      assert Spaced(ts) == [SPACE] + (Shown(ts[0]) + rest);
      SpaceLexes(Shown(ts[0]) + rest, text, tokens);
      ShownLexes(ts[0], rest, tokens + [text]);
      SpacedLexes(ts[1..], ts[0], tokens + [text]);
      assert tokens + [text] + [ts[0]] + ts[1..] == tokens + [text] + ts;
    }
  }

  /** Lexing printed tokens gives them back. */
  lemma JoinedLexes(ts: seq<Text>)
    requires ts != [] && |ts| <= MAX_TOKENS
    ensures Lex(Joined(ts), Idle()) == Tokens(ts)
  {
    hide Lex, Shown;
    ShownLexes(ts[0], Spaced(ts[1..]), []);
    SpacedLexes(ts[1..], ts[0], []);
    assert [] + [ts[0]] + ts[1..] == ts;
  }

  // ---- trimming what was printed ----

  /**
   * Without its trailing vertical tabs and form feeds: trimming removes those, though quoting does not protect
   * them.
   */
  function ChoppedText(t: Text): Text {
    if t != [] && (t[|t| - 1] == VT || t[|t| - 1] == FF) then ChoppedText(t[..|t| - 1]) else t
  }

  /** What trimming the printed line leaves of the tokens. */
  function Chopped(ts: seq<Text>): seq<Text> {
    if ts == [] || NeedsQuote(ts[|ts| - 1]) then ts
    else
      var front, t := ts[..|ts| - 1], ChoppedText(ts[|ts| - 1]);
      if t == [] then Chopped(front) else front + [t]
  }

  /** The last token is printed in quotes, or ends in a byte that trimming leaves alone. */
  predicate Sturdy(ts: seq<Text>) {
    ts == [] || NeedsQuote(ts[|ts| - 1]) || !(ts[|ts| - 1][|ts[|ts| - 1]| - 1] in {VT, FF})
  }

  lemma {:induction false} ChoppedShorter(ts: seq<Text>)
    ensures |Chopped(ts)| <= |ts|
    ensures Chopped(ts) == ts <==> Sturdy(ts)
    decreases ts
  {
    if ts != [] && !NeedsQuote(ts[|ts| - 1]) {
      var last := ts[|ts| - 1];
      ChoppedTextShorter(last);
      ChoppedShorter(ts[..|ts| - 1]);
      if ChoppedText(last) != [] {
        assert ts == ts[..|ts| - 1] + [last];
        assert (ts[..|ts| - 1] + [ChoppedText(last)])[|ts| - 1] == ChoppedText(last);
      }
    }
  }

  lemma {:induction false} ChoppedTextShorter(t: Text)
    ensures ChoppedText(t) <= t
    ensures t != [] ==> (ChoppedText(t) == t <==> t[|t| - 1] != VT && t[|t| - 1] != FF)
    ensures ChoppedText(t) != [] ==> ChoppedText(t)[|ChoppedText(t)| - 1] !in {VT, FF}
    decreases t
  {
    if t != [] {
      ChoppedTextShorter(t[..|t| - 1]);
    }
  }

  lemma {:induction false} SpacedSnoc(ts: seq<Text>, t: Text)
    ensures Spaced(ts + [t]) == Spaced(ts) + [SPACE] + Shown(t)
    decreases ts
  {
    hide Shown;
    if ts == [] {
      assert ts + [t] == [t] && Spaced([]) == [];
      assert Spaced([t]) == [SPACE] + Shown(t) + [];
    } else {
      SpacedSnoc(ts[1..], t);
      assert (ts + [t])[1..] == ts[1..] + [t];
    }
  }

  lemma JoinedSnoc(ts: seq<Text>, t: Text)
    requires ts != []
    ensures Joined(ts + [t]) == Joined(ts) + [SPACE] + Shown(t)
  {
    hide Shown, Spaced;
    SpacedSnoc(ts[1..], t);
    assert (ts + [t])[1..] == ts[1..] + [t];
  }

  lemma {:induction false} TrimEndOfChopped(s: seq<Byte>, t: Text)
    ensures TrimEnd(s + t) == TrimEnd(s + ChoppedText(t))
    decreases t
  {
    if t != [] && (t[|t| - 1] == VT || t[|t| - 1] == FF) {
      assert (s + t)[..|s + t| - 1] == s + t[..|t| - 1];
      TrimEndOfChopped(s, t[..|t| - 1]);
    }
  }

  lemma TrimEndKeeps(s: seq<Byte>)
    requires s != [] && !TrimSpace(s[|s| - 1])
    ensures TrimEnd(s) == s
  {}

  lemma PlainPrefix(t: Text, u: Text)
    requires !NeedsQuote(t) && u <= t
    ensures t != [] && (u != [] ==> !NeedsQuote(u) && Shown(u) == u)
  {}

  lemma LastOfPlain(t: Text)
    requires !NeedsQuote(t) && t[|t| - 1] !in {VT, FF}
    ensures !TrimSpace(t[|t| - 1])
  {}

  lemma LastOfQuoted(t: Text)
    requires NeedsQuote(t)
    ensures Shown(t)[|Shown(t)| - 1] == DOUBLE_QUOTE
  {}

  /** Trimming the printed line leaves the print of the chopped tokens, when the first token cannot be chopped away. */
  lemma {:induction false} TrimJoined(ts: seq<Text>)
    requires ts != [] && !NeedsQuote(ts[0]) && ChoppedText(ts[0]) == ts[0]
    ensures TrimEnd(Joined(ts)) == Joined(Chopped(ts)) && Chopped(ts) != [] && Chopped(ts)[0] == ts[0]
    decreases ts
  {
    hide TrimEnd, NeedsQuote, Shown, Joined;
    var front, last := ts[..|ts| - 1], ts[|ts| - 1];
    if |ts| == 1 {
      ChoppedTextShorter(ts[0]);
      PlainPrefix(ts[0], ts[0]);
      OneJoined(ts[0]);
      LastOfPlain(ts[0]);
      TrimEndKeeps(ts[0]);
      assert ts == [ts[0]] && front + [ts[0]] == ts;
    } else {
      assert ts == front + [last];
      JoinedSnoc(front, last);
      var s := Joined(front) + [SPACE];
      if NeedsQuote(last) {
        LastOfQuoted(last);
        TrimEndKeeps(s + Shown(last));
      } else {
        PlainPrefix(last, last);
        TrimEndOfChopped(s, last);
        var t := ChoppedText(last);
        ChoppedTextShorter(last);
        if t == [] {
          assert s + t == s && s[..|s| - 1] == Joined(front);
          TrimEndStep(s);
          TrimJoined(front);
        } else {
          PlainPrefix(last, t);
          LastOfPlain(t);
          TrimEndKeeps(s + t);
          JoinedSnoc(front, t);
        }
      }
    }
  }

  lemma OneJoined(t: Text)
    ensures Joined([t]) == Shown(t)
  {
    assert Joined([t]) == Shown(t) + [];
  }

  // ---- whole lines ----

  predicate Absent(c: Byte, ts: seq<Text>) {
    forall k :: 0 <= k < |ts| ==> c !in ts[k]
  }

  lemma {:induction false} EscapedAbsent(c: Byte, t: Text)
    requires c !in t && c != BACKSLASH
    ensures c !in Escaped(t)
    decreases t
  {
    if t != [] {
      EscapedAbsent(c, t[1..]);
    }
  }

  lemma {:induction false} SpacedAbsent(c: Byte, ts: seq<Text>)
    requires Absent(c, ts) && c !in {SPACE, DOUBLE_QUOTE, BACKSLASH}
    ensures c !in Spaced(ts)
    decreases ts
  {
    if ts != [] {
      EscapedAbsent(c, ts[0]);
      SpacedAbsent(c, ts[1..]);
    }
  }

  lemma JoinedAbsent(c: Byte, ts: seq<Text>)
    requires Absent(c, ts) && c !in {SPACE, DOUBLE_QUOTE, BACKSLASH}
    ensures c !in Joined(ts)
  {
    if ts != [] {
      EscapedAbsent(c, ts[0]);
      SpacedAbsent(c, ts[1..]);
    }
  }

  /** A directive word: nothing in it needs quoting or can be trimmed, and it is not the structural word. */
  predicate Word(t: Text) {
    && t != [] && t != Ascii("end")
    && forall k :: 0 <= k < |t| ==> 97 <= t[k] <= 122
  }

  lemma WordIsPlain(t: Text)
    requires Word(t)
    ensures !NeedsQuote(t) && ChoppedText(t) == t && !TrimSpace(t[0]) && Shown(t) == t
  {}

  /** A printed statement, whatever its tokens after the directive, is read back as its chopped tokens. */
  lemma {:induction false} PrintedLine(ts: seq<Text>)
    requires ts != [] && Word(ts[0]) && Absent(HASH, ts) && |ts| <= MAX_TOKENS && |Joined(ts)| <= MAX_LINE
    ensures LexLine(Joined(ts)) == Words(Chopped(ts))
  {
    hide Lex, TrimEnd, NeedsQuote, Shown, Spaced, ChoppedText, Chopped;
    WordIsPlain(ts[0]);
    JoinedAbsent(HASH, ts);
    var s := Joined(ts);
    assert s[0] == ts[0][0];
    TrimStartDone(s);
    TrimJoined(ts);
    var us := Chopped(ts);
    ChoppedShorter(ts);
    JoinedLexes(us);
    NotEnd(us);
  }

  lemma NotEnd(ts: seq<Text>)
    requires ts != [] && Word(ts[0])
    ensures Joined(ts) != Ascii("end") && Joined(ts) != []
  {
    WordIsPlain(ts[0]);
    if |ts| == 1 {
      OneJoined(ts[0]);
    } else {
      assert Joined(ts)[|ts[0]|] == SPACE;
      assert Ascii("end") == [101, 110, 100];
    }
  }

  // ---- the program ----

  method WriteToken(t: Text) returns (s: seq<Byte>)
    ensures s == Shown(t)
  {
    var quoted := t == [];
    var i := 0;
    while i < |t| && !quoted
      invariant 0 <= i <= |t|
      invariant quoted ==> NeedsQuote(t)
      invariant !quoted ==> t != [] && forall k :: 0 <= k < i ==> !Special(t[k])
    {
      if Special(t[i]) {
        quoted := true;
      }
      i := i + 1;
    }
    if !quoted {
      return t;
    }
    s := [DOUBLE_QUOTE];
    i := 0;
    while i < |t|
      invariant 0 <= i <= |t|
      invariant s + Escaped(t[i..]) == [DOUBLE_QUOTE] + Escaped(t)
    {
      ghost var before := s;
      if t[i] == DOUBLE_QUOTE || t[i] == BACKSLASH {
        s := s + [BACKSLASH];
      }
      s := s + [t[i]];
      assert t[i..][1..] == t[i + 1..];
      assert s + Escaped(t[i + 1..]) == before + Escaped(t[i..]);
      i := i + 1;
    }
    assert t[i..] == [] && s + [] == s;
    s := s + [DOUBLE_QUOTE];
  }

  method WriteTokens(ts: seq<Text>) returns (s: seq<Byte>)
    ensures s == Joined(ts)
  {
    hide Shown;
    s := [];
    var i := 0;
    while i < |ts|
      invariant 0 <= i <= |ts| && s == Joined(ts[..i])
    {
      assert ts[..i + 1] == ts[..i] + [ts[i]];
      if i > 0 {
        s := s + [SPACE];
        JoinedSnoc(ts[..i], ts[i]);
      } else {
        OneJoined(ts[0]);
        assert ts[..1] == [ts[0]] && [] + Shown(ts[0]) == Shown(ts[0]);
      }
      var shown := WriteToken(ts[i]);
      s := s + shown;
      i := i + 1;
    }
    assert ts[..i] == ts;
  }
}
