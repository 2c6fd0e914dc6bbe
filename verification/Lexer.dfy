/**
 * The line lexer: comment strip, trim, then shell-like tokens with single quotes, double quotes and
 * escapes. Columns and the text of diagnostics are not modelled.
 */
module Lexer {
  import opened Bytes

  const NUL: Byte := 0
  const TAB: Byte := 9
  const NEWLINE: Byte := 10
  const VT: Byte := 11
  const FF: Byte := 12
  const CR: Byte := 13
  const SPACE: Byte := 32
  const DOUBLE_QUOTE: Byte := 34
  const HASH: Byte := 35
  const SINGLE_QUOTE: Byte := 39
  const BACKSLASH: Byte := 92

  const MAX_LINE: nat := 0x10_0000
  const MAX_TOKENS: nat := 4096

  type Text = seq<Byte>

  /** Between tokens: the shell's set. */
  predicate Separator(c: Byte) {
    c == SPACE || c == TAB || c == CR || c == NEWLINE
  }

  /** At the ends of a line: a larger set. */
  predicate TrimSpace(c: Byte) {
    Separator(c) || c == VT || c == FF
  }

  datatype Quote = Unquoted | Single | Double

  datatype Scanner = Scanner(quote: Quote, inToken: bool, text: Text, tokens: seq<Text>)

  datatype Code = LineTooLong | TrailingEscape | UnclosedQuote | TooManyTokens

  datatype Tokens = Tokens(tokens: seq<Text>) | Lexical(code: Code)

  function Push(st: Scanner, t: Text): Scanner {
    st.(inToken := true, text := st.text + t)
  }

  function Emit(st: Scanner): Scanner {
    st.(inToken := false, text := [], tokens := st.tokens + [st.text])
  }

  /**
   * One turn of the lexer: the scanner after it and how many bytes it took; none when an escape lacks its
   * character.
   */
  function Turn(s: seq<Byte>, st: Scanner): (r: (Scanner, nat))
    requires s != []
    ensures r.1 <= 2 && r.1 <= |s|
  {
    var c := s[0];
    match st.quote
    case Unquoted =>
      if Separator(c) then (if st.inToken then Emit(st) else st, 1)
      else if c == BACKSLASH then if |s| < 2 then (st, 0) else (Push(st, [s[1]]), 2)
      else if c == SINGLE_QUOTE then (st.(quote := Single, inToken := true), 1)
      else if c == DOUBLE_QUOTE then (st.(quote := Double, inToken := true), 1)
      else (Push(st, [c]), 1)
    case Single =>
      if c == SINGLE_QUOTE then (st.(quote := Unquoted), 1) else (Push(st, [c]), 1)
    case Double =>
      if c == DOUBLE_QUOTE then (st.(quote := Unquoted), 1)
      else if c == BACKSLASH then
        if |s| < 2 then (st, 0)
        else if s[1] == DOUBLE_QUOTE || s[1] == BACKSLASH then (Push(st, [s[1]]), 2)
        else (Push(st, [BACKSLASH, s[1]]), 2)
      else (Push(st, [c]), 1)
  }

  function Finish(st: Scanner): Tokens {
    if st.quote != Unquoted then Lexical(UnclosedQuote)
    else
      var all := if st.inToken then Emit(st) else st;
      if |all.tokens| > MAX_TOKENS then Lexical(TooManyTokens) else Tokens(all.tokens)
  }

  function Lex(s: seq<Byte>, st: Scanner): Tokens
    decreases |s|
  {
    if s == [] then Finish(st)
    else
      var (next, taken) := Turn(s, st);
      if taken == 0 then Lexical(TrailingEscape) else Lex(s[taken..], next)
  }

  function Idle(): Scanner {
    Scanner(Unquoted, false, [], [])
  }

  // ---- strip and trim ----

  function BeforeHash(raw: seq<Byte>): (s: seq<Byte>)
    ensures HASH !in s && s <= raw
    ensures HASH !in raw ==> s == raw
  {
    if raw == [] || raw[0] == HASH then [] else [raw[0]] + BeforeHash(raw[1..])
  }

  function TrimStart(s: seq<Byte>): seq<Byte> {
    if s != [] && TrimSpace(s[0]) then TrimStart(s[1..]) else s
  }

  function TrimEnd(s: seq<Byte>): seq<Byte> {
    if s != [] && TrimSpace(s[|s| - 1]) then TrimEnd(s[..|s| - 1]) else s
  }

  function Stripped(raw: seq<Byte>): seq<Byte> {
    TrimEnd(TrimStart(BeforeHash(raw)))
  }

  datatype Line = Blank | End | Words(tokens: seq<Text>) | Wrong(code: Code)

  function LexLine(raw: seq<Byte>): Line {
    if |raw| > MAX_LINE then Wrong(LineTooLong)
    else
      var s := Stripped(raw);
      if s == [] then Blank
      else if s == Ascii("end") then End
      else
        var r := Lex(s, Idle());
        if r.Lexical? then Wrong(r.code) else Words(r.tokens)
  }

  // ---- the program ----

  lemma {:induction false} TrimStartFrom(raw: seq<Byte>, start: nat, end: nat)
    requires start <= end <= |raw| && forall k :: 0 <= k < start ==> TrimSpace(raw[k])
    ensures TrimStart(raw[..end]) == TrimStart(raw[start..end])
    decreases start
  {
    if start > 0 {
      TrimStartFrom(raw, start - 1, end);
      assert raw[start - 1..end][1..] == raw[start..end];
    }
  }

  /** The lexer, moving a position through the raw line. */
  method LexRawLine(raw: seq<Byte>) returns (line: Line)
    ensures line == LexLine(raw)
  {
    hide Lex, Stripped;
    if |raw| > MAX_LINE {
      return Wrong(LineTooLong);
    }
    var start, end := TrimmedRange(raw);
    if start == end {
      return Blank;
    }
    if end - start == 3 && raw[start..end] == Ascii("end") {
      return End;
    }
    line := LexRange(raw, start, end);
  }

  method TrimmedRange(raw: seq<Byte>) returns (start: nat, end: nat)
    ensures start <= end <= |raw| && raw[start..end] == Stripped(raw)
  {
    hide TrimEnd, TrimStart;
    var hash := FindHash(raw);
    start := SkipStart(raw, hash);
    end := SkipEnd(raw, start, hash);
  }

  method SkipStart(raw: seq<Byte>, end: nat) returns (start: nat)
    requires end <= |raw|
    ensures start <= end && raw[start..end] == TrimStart(raw[..end])
  {
    hide TrimStart, TrimSpace;
    start := 0;
    while start < end && TrimSpace(raw[start])
      invariant 0 <= start <= end
      invariant forall k :: 0 <= k < start ==> TrimSpace(raw[k])
    {
      start := start + 1;
    }
    TrimStartFrom(raw, start, end);
    TrimStartDone(raw[start..end]);
  }

  method SkipEnd(raw: seq<Byte>, start: nat, hash: nat) returns (end: nat)
    requires start <= hash <= |raw|
    ensures start <= end <= hash && raw[start..end] == TrimEnd(raw[start..hash])
  {
    hide TrimEnd, TrimSpace;
    end := hash;
    while end > start && TrimSpace(raw[end - 1])
      invariant start <= end <= hash
      invariant TrimEnd(raw[start..end]) == TrimEnd(raw[start..hash])
    {
      TrimEndRange(raw, start, end);
      end := end - 1;
    }
    TrimEndDone(raw[start..end]);
  }

  lemma TrimEndRange(raw: seq<Byte>, start: nat, end: nat)
    requires start < end <= |raw| && TrimSpace(raw[end - 1])
    ensures TrimEnd(raw[start..end]) == TrimEnd(raw[start..end - 1])
  {
    hide TrimEnd, TrimSpace;
    TrimEndStep(raw[start..end]);
    assert raw[start..end][..end - start - 1] == raw[start..end - 1];
  }

  lemma TrimStartDone(s: seq<Byte>)
    ensures s == [] || !TrimSpace(s[0]) ==> TrimStart(s) == s
  {}

  lemma TrimEndDone(s: seq<Byte>)
    ensures s == [] || !TrimSpace(s[|s| - 1]) ==> TrimEnd(s) == s
  {}

  lemma TrimEndStep(s: seq<Byte>)
    requires s != [] && TrimSpace(s[|s| - 1])
    ensures TrimEnd(s) == TrimEnd(s[..|s| - 1])
  {}

  method FindHash(raw: seq<Byte>) returns (end: nat)
    ensures end <= |raw| && raw[..end] == BeforeHash(raw)
  {
    end := 0;
    while end < |raw| && raw[end] != HASH
      invariant 0 <= end <= |raw| && HASH !in raw[..end]
    {
      end := end + 1;
    }
    BeforeHashIs(raw, end);
  }

  lemma {:induction false} BeforeHashIs(raw: seq<Byte>, end: nat)
    requires end <= |raw| && HASH !in raw[..end] && (end == |raw| || raw[end] == HASH)
    ensures BeforeHash(raw) == raw[..end]
    decreases raw
  {
    if end > 0 {
      assert raw[..end] == [raw[0]] + raw[1..][..end - 1];
      BeforeHashIs(raw[1..], end - 1);
    }
  }

  /** The quote and escape state machine with its token buffer. */
  method LexRange(raw: seq<Byte>, start: nat, end: nat) returns (line: Line)
    requires start <= end <= |raw|
    ensures var r := Lex(raw[start..end], Idle());
      line == if r.Lexical? then Wrong(r.code) else Words(r.tokens)
  {
    var quote, inToken := Unquoted, false;
    var text: Text := [];
    var tokens: seq<Text> := [];
    var pos := start;
    while pos < end
      invariant start <= pos <= end
      invariant Lex(raw[pos..end], Scanner(quote, inToken, text, tokens)) == Lex(raw[start..end], Idle())
    {
      ghost var here, st := raw[pos..end], Scanner(quote, inToken, text, tokens);
      var c := raw[pos];
      var taken := 1;
      if quote == Unquoted {
        if Separator(c) {
          if inToken {
            tokens := tokens + [text];
            text := [];
          }
          inToken := false;
        } else {
          inToken := true;
          if c == BACKSLASH {
            if pos + 1 >= end {
              return Wrong(TrailingEscape);
            }
            text := text + [raw[pos + 1]];
            taken := 2;
          } else if c == SINGLE_QUOTE {
            quote := Single;
          } else if c == DOUBLE_QUOTE {
            quote := Double;
          } else {
            text := text + [c];
          }
        }
      } else if quote == Single {
        if c == SINGLE_QUOTE {
          quote := Unquoted;
        } else {
          inToken := true;
          text := text + [c];
        }
      } else if c == DOUBLE_QUOTE {
        quote := Unquoted;
      } else {
        if c == BACKSLASH {
          if pos + 1 >= end {
            return Wrong(TrailingEscape);
          }
          if raw[pos + 1] == DOUBLE_QUOTE || raw[pos + 1] == BACKSLASH {
            text := text + [raw[pos + 1]];
          } else {
            text := text + [BACKSLASH, raw[pos + 1]];
          }
          taken := 2;
        } else {
          text := text + [c];
        }
        inToken := true;
      }
      assert Turn(here, st) == (Scanner(quote, inToken, text, tokens), taken);
      assert here[taken..] == raw[pos + taken..end];
      pos := pos + taken;
    }
    assert raw[pos..end] == [];
    if quote != Unquoted {
      return Wrong(UnclosedQuote);
    }
    if inToken {
      tokens := tokens + [text];
    }
    if |tokens| > MAX_TOKENS {
      return Wrong(TooManyTokens);
    }
    line := Words(tokens);
  }

  // ---- what tokens are made of ----

  predicate Within(t: Text, s: seq<Byte>) {
    forall k :: 0 <= k < |t| ==> t[k] in s
  }

  predicate AllWithin(ts: seq<Text>, s: seq<Byte>) {
    forall k :: 0 <= k < |ts| ==> Within(ts[k], s)
  }

  /** Token bytes all come from the line. */
  lemma {:induction false} TokensComeFromLine(s: seq<Byte>, st: Scanner, all: seq<Byte>)
    requires Within(s, all) && Within(st.text, all) && AllWithin(st.tokens, all)
    ensures Lex(s, st).Tokens? ==> AllWithin(Lex(s, st).tokens, all)
    decreases |s|
  {
    if s != [] {
      var (next, taken) := Turn(s, st);
      if taken > 0 {
        assert s[0] in all && (|s| > 1 ==> s[1] in all);
        TokensComeFromLine(s[taken..], next, all);
      }
    }
  }
}
