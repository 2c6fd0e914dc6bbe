/**
 * What a line says, without the lexer: a line is separators and pieces, a piece is a bare byte, an escaped byte, or
 * quoted text, and pieces with nothing between them are one token. The lexer is shown to read exactly this; every line
 * either is of this form, or stops inside a quote or behind a backslash that escapes nothing.
 */
module Quoting {
  import opened Bytes
  import opened Options
  import opened Lexer

  /** Inside double quotes: a byte that is neither quote nor backslash, or a backslash and any byte. */
  datatype Part = Raw(c: Byte) | Pair(c: Byte)

  datatype Piece = Bare(c: Byte) | Escape(c: Byte) | InSingle(text: Text) | InDouble(parts: seq<Part>)

  datatype Item = Space(c: Byte) | Says(p: Piece)

  predicate PartOk(x: Part) {
    x.Raw? ==> x.c != DOUBLE_QUOTE && x.c != BACKSLASH
  }

  predicate ItemOk(x: Item) {
    match x
    case Space(c) => c in {SPACE, TAB, CR, NEWLINE}
    case Says(Bare(c)) => c !in {SPACE, TAB, CR, NEWLINE, BACKSLASH, SINGLE_QUOTE, DOUBLE_QUOTE}
    case Says(Escape(_)) => true
    case Says(InSingle(t)) => SINGLE_QUOTE !in t
    case Says(InDouble(parts)) => forall k :: 0 <= k < |parts| ==> PartOk(parts[k])
  }

  predicate LineOk(line: seq<Item>) {
    forall k :: 0 <= k < |line| ==> ItemOk(line[k])
  }

  // ---- how it is written ----

  function PartBytes(x: Part): seq<Byte> {
    match x
    case Raw(c) => [c]
    case Pair(c) => [BACKSLASH, c]
  }

  function PartsBytes(parts: seq<Part>): seq<Byte> {
    if parts == [] then [] else PartBytes(parts[0]) + PartsBytes(parts[1..])
  }

  function ItemBytes(x: Item): (s: seq<Byte>)
    ensures s != []
  {
    match x
    case Space(c) => [c]
    case Says(Bare(c)) => [c]
    case Says(Escape(c)) => [BACKSLASH, c]
    case Says(InSingle(t)) => [SINGLE_QUOTE] + t + [SINGLE_QUOTE]
    case Says(InDouble(parts)) => [DOUBLE_QUOTE] + PartsBytes(parts) + [DOUBLE_QUOTE]
  }

  function LineBytes(line: seq<Item>): seq<Byte> {
    if line == [] then [] else ItemBytes(line[0]) + LineBytes(line[1..])
  }

  // ---- what it says ----

  /** A pair stands for its byte if that is a quote or a backslash, and for both bytes otherwise. */
  function PartText(x: Part): Text {
    match x
    case Raw(c) => [c]
    case Pair(c) => if c == DOUBLE_QUOTE || c == BACKSLASH then [c] else [BACKSLASH, c]
  }

  function PartsText(parts: seq<Part>): Text {
    if parts == [] then [] else PartText(parts[0]) + PartsText(parts[1..])
  }

  function PieceText(p: Piece): Text {
    match p
    case Bare(c) => [c]
    case Escape(c) => [c]
    case InSingle(t) => t
    case InDouble(parts) => PartsText(parts)
  }

  /** The tokens before the last separator, and the token that is being said behind it, if any. */
  datatype Said = Said(tokens: seq<Text>, current: Text, open: bool)

  function Hear(x: Said, item: Item): Said {
    match item
    case Space(_) => if x.open then Said(x.tokens + [x.current], [], false) else x
    case Says(p) => Said(x.tokens, x.current + PieceText(p), true)
  }

  function HearAll(x: Said, line: seq<Item>): Said
    decreases line
  {
    if line == [] then x else HearAll(Hear(x, line[0]), line[1..])
  }

  function Silence(): Said {
    Said([], [], false)
  }

  function TokensOf(x: Said): seq<Text> {
    if x.open then x.tokens + [x.current] else x.tokens
  }

  /** The tokens of a line. */
  function LineTokens(line: seq<Item>): seq<Text> {
    TokensOf(HearAll(Silence(), line))
  }

  // ---- the lexer reads it ----

  function Hearing(x: Said): Scanner {
    Scanner(Unquoted, x.open, x.current, x.tokens)
  }

  lemma {:induction false} SingleReads(t: Text, rest: seq<Byte>, text: Text, tokens: seq<Text>)
    requires SINGLE_QUOTE !in t
    ensures Lex(t + [SINGLE_QUOTE] + rest, Scanner(Single, true, text, tokens))
         == Lex(rest, Scanner(Unquoted, true, text + t, tokens))
    decreases t
  {
    var s := t + [SINGLE_QUOTE] + rest;
    if t == [] {
      assert s[0] == SINGLE_QUOTE && s[1..] == rest && text + t == text;
    } else {
      assert s[0] == t[0] && s[1..] == t[1..] + [SINGLE_QUOTE] + rest;
      SingleReads(t[1..], rest, text + [t[0]], tokens);
      assert (text + [t[0]]) + t[1..] == text + t;
    }
  }

  lemma PartReads(x: Part, rest: seq<Byte>, text: Text, tokens: seq<Text>)
    requires PartOk(x)
    ensures Lex(PartBytes(x) + rest, Scanner(Double, true, text, tokens))
         == Lex(rest, Scanner(Double, true, text + PartText(x), tokens))
  {
    var s := PartBytes(x) + rest;
    assert s[|PartBytes(x)|..] == rest;
  }

  lemma {:induction false} PartsRead(parts: seq<Part>, rest: seq<Byte>, text: Text, tokens: seq<Text>)
    requires forall k :: 0 <= k < |parts| ==> PartOk(parts[k])
    ensures Lex(PartsBytes(parts) + [DOUBLE_QUOTE] + rest, Scanner(Double, true, text, tokens))
         == Lex(rest, Scanner(Unquoted, true, text + PartsText(parts), tokens))
    decreases parts
  {
    hide PartText;
    var s := PartsBytes(parts) + [DOUBLE_QUOTE] + rest;
    if parts == [] {
      assert s[0] == DOUBLE_QUOTE && s[1..] == rest && text + [] == text;
    } else {
      hide Lex;
      var x := parts[0];
      var more := PartsBytes(parts[1..]) + [DOUBLE_QUOTE] + rest;
      assert s == PartBytes(x) + more;
      PartReads(x, more, text, tokens);
      PartsRead(parts[1..], rest, text + PartText(x), tokens);
      assert (text + PartText(x)) + PartsText(parts[1..]) == text + PartsText(parts);
    }
  }

  lemma SingleItemReads(t: Text, rest: seq<Byte>, x: Said)
    requires ItemOk(Says(InSingle(t)))
    ensures Lex(ItemBytes(Says(InSingle(t))) + rest, Hearing(x)) == Lex(rest, Hearing(Hear(x, Says(InSingle(t)))))
  {
    var s := ItemBytes(Says(InSingle(t))) + rest;
    assert s[0] == SINGLE_QUOTE && s[1..] == t + [SINGLE_QUOTE] + rest;
    SingleReads(t, rest, x.current, x.tokens);
  }

  lemma DoubleItemReads(parts: seq<Part>, rest: seq<Byte>, x: Said)
    requires ItemOk(Says(InDouble(parts)))
    ensures Lex(ItemBytes(Says(InDouble(parts))) + rest, Hearing(x))
         == Lex(rest, Hearing(Hear(x, Says(InDouble(parts)))))
  {
    var s := ItemBytes(Says(InDouble(parts))) + rest;
    assert s[0] == DOUBLE_QUOTE && s[1..] == PartsBytes(parts) + [DOUBLE_QUOTE] + rest;
    PartsRead(parts, rest, x.current, x.tokens);
  }

  lemma ItemReads(item: Item, rest: seq<Byte>, x: Said)
    requires ItemOk(item) && (x.open || x.current == [])
    ensures Lex(ItemBytes(item) + rest, Hearing(x)) == Lex(rest, Hearing(Hear(x, item)))
  {
    var s := ItemBytes(item) + rest;
    match item
    case Space(c) => assert s[0] == c && s[1..] == rest;
    case Says(Bare(c)) => assert s[0] == c && s[1..] == rest;
    case Says(Escape(c)) => assert s[0] == BACKSLASH && s[1] == c && s[2..] == rest;
    case Says(InSingle(t)) => SingleItemReads(t, rest, x);
    case Says(InDouble(parts)) => DoubleItemReads(parts, rest, x);
  }

  lemma {:induction false} ItemsRead(line: seq<Item>, rest: seq<Byte>, x: Said)
    requires LineOk(line) && (x.open || x.current == [])
    ensures Lex(LineBytes(line) + rest, Hearing(x)) == Lex(rest, Hearing(HearAll(x, line)))
    decreases line
  {
    hide Lex, ItemBytes, ItemOk;
    if line == [] {
      assert LineBytes(line) + rest == rest;
    } else {
      var more := LineBytes(line[1..]) + rest;
      assert LineBytes(line) + rest == ItemBytes(line[0]) + more;
      ItemReads(line[0], more, x);
      ItemsRead(line[1..], rest, Hear(x, line[0]));
    }
  }

  /** A line of this form is read as its tokens, if they are not too many. */
  lemma {:induction false} LineReads(line: seq<Item>)
    requires LineOk(line)
    ensures Lex(LineBytes(line), Idle())
         == if |LineTokens(line)| > MAX_TOKENS then Lexical(TooManyTokens) else Tokens(LineTokens(line))
  {
    hide LineBytes, ItemOk, HearAll;
    ItemsRead(line, [], Silence());
    assert LineBytes(line) + [] == LineBytes(line);
  }

  // ---- and every line is of this form, up to where it stops ----

  datatype Stop = Whole | InSingleQuote(t: Text) | InDoubleQuote(parts: seq<Part>) | Dangling
                | DanglingInQuote(inside: seq<Part>)

  predicate StopOk(x: Stop) {
    match x
    case InSingleQuote(t) => SINGLE_QUOTE !in t
    case InDoubleQuote(parts) => forall k :: 0 <= k < |parts| ==> PartOk(parts[k])
    case DanglingInQuote(parts) => forall k :: 0 <= k < |parts| ==> PartOk(parts[k])
    case _ => true
  }

  function StopBytes(x: Stop): seq<Byte> {
    match x
    case Whole => []
    case InSingleQuote(t) => [SINGLE_QUOTE] + t
    case InDoubleQuote(parts) => [DOUBLE_QUOTE] + PartsBytes(parts)
    case Dangling => [BACKSLASH]
    case DanglingInQuote(parts) => [DOUBLE_QUOTE] + PartsBytes(parts) + [BACKSLASH]
  }

  /** What reading a line comes to. */
  function Reading(line: seq<Item>, stop: Stop): Tokens {
    match stop
    case Whole => if |LineTokens(line)| > MAX_TOKENS then Lexical(TooManyTokens) else Tokens(LineTokens(line))
    case InSingleQuote(_) => Lexical(UnclosedQuote)
    case InDoubleQuote(_) => Lexical(UnclosedQuote)
    case Dangling => Lexical(TrailingEscape)
    case DanglingInQuote(_) => Lexical(TrailingEscape)
  }

  lemma {:induction false} SingleStops(t: Text, text: Text, tokens: seq<Text>)
    requires SINGLE_QUOTE !in t
    ensures Lex(t, Scanner(Single, true, text, tokens)) == Lexical(UnclosedQuote)
    decreases t
  {
    if t != [] {
      SingleStops(t[1..], text + [t[0]], tokens);
    }
  }

  lemma {:induction false} DoubleStops(parts: seq<Part>, tail: seq<Byte>, text: Text, tokens: seq<Text>)
    requires (forall k :: 0 <= k < |parts| ==> PartOk(parts[k])) && tail in {[], [BACKSLASH]}
    ensures Lex(PartsBytes(parts) + tail, Scanner(Double, true, text, tokens))
         == Lexical(if tail == [] then UnclosedQuote else TrailingEscape)
    decreases parts
  {
    if parts == [] {
      assert PartsBytes(parts) + tail == tail;
    } else {
      var more := PartsBytes(parts[1..]) + tail;
      assert PartsBytes(parts) + tail == PartBytes(parts[0]) + more;
      PartReads(parts[0], more, text, tokens);
      DoubleStops(parts[1..], tail, text + PartText(parts[0]), tokens);
    }
  }

  lemma StopReads(stop: Stop, x: Said)
    requires StopOk(stop) && stop != Whole
    ensures Lex(StopBytes(stop), Hearing(x)) == Reading([], stop)
  {
    var s := StopBytes(stop);
    match stop
    case InSingleQuote(t) =>
      assert s[1..] == t;
      SingleStops(t, x.current, x.tokens);
    case InDoubleQuote(parts) =>
      assert s[1..] == PartsBytes(parts) + [];
      DoubleStops(parts, [], x.current, x.tokens);
    case DanglingInQuote(parts) =>
      assert s[1..] == PartsBytes(parts) + [BACKSLASH];
      DoubleStops(parts, [BACKSLASH], x.current, x.tokens);
    case Dangling =>
  }

  /** The text up to the closing single quote, if there is one. */
  lemma {:induction false} FindsSingle(s: seq<Byte>) returns (t: Text, rest: seq<Byte>, closed: bool)
    ensures SINGLE_QUOTE !in t && s == (if closed then t + [SINGLE_QUOTE] + rest else t)
    decreases s
  {
    if s == [] {
      t, rest, closed := [], [], false;
    } else if s[0] == SINGLE_QUOTE {
      t, rest, closed := [], s[1..], true;
      assert s == [SINGLE_QUOTE] + s[1..];
    } else {
      t, rest, closed := FindsSingle(s[1..]);
      t := [s[0]] + t;
      assert s == [s[0]] + s[1..];
    }
  }

  /** The parts up to the closing double quote, to the end, or to a backslash that stands last. */
  lemma {:induction false} FindsDouble(s: seq<Byte>) returns (parts: seq<Part>, rest: seq<Byte>, end: seq<Byte>)
    ensures forall k :: 0 <= k < |parts| ==> PartOk(parts[k])
    ensures end in {[], [BACKSLASH], [DOUBLE_QUOTE]} && (end != [DOUBLE_QUOTE] ==> rest == [])
    ensures s == PartsBytes(parts) + end + rest
    decreases |s|
  {
    if s == [] || s == [BACKSLASH] {
      parts, rest, end := [], [], s;
    } else if s[0] == DOUBLE_QUOTE {
      parts, rest, end := [], s[1..], [DOUBLE_QUOTE];
      assert s == [DOUBLE_QUOTE] + s[1..];
    } else {
      var x := if s[0] == BACKSLASH then Pair(s[1]) else Raw(s[0]);
      assert s == PartBytes(x) + s[|PartBytes(x)|..];
      var more: seq<Part>;
      more, rest, end := FindsDouble(s[|PartBytes(x)|..]);
      parts := [x] + more;
      assert PartsBytes(parts) == PartBytes(x) + PartsBytes(more);
    }
  }

  /** The first item of a line, or where it stops. */
  lemma FirstItem(s: seq<Byte>) returns (item: Option<Item>, stop: Stop, rest: seq<Byte>)
    requires s != []
    ensures item.Some? ==> ItemOk(item.value) && s == ItemBytes(item.value) + rest
    ensures item.None? ==> StopOk(stop) && stop != Whole && s == StopBytes(stop)
  {
    stop, rest := Whole, s[1..];
    var c := s[0];
    assert s == [c] + rest;
    if c == SINGLE_QUOTE {
      var t, after, closed := FindsSingle(rest);
      if closed {
        item, rest := Some(Says(InSingle(t))), after;
      } else {
        item, stop := None, InSingleQuote(t);
      }
    } else if c == DOUBLE_QUOTE {
      var parts, after, end := FindsDouble(rest);
      if end == [DOUBLE_QUOTE] {
        item, rest := Some(Says(InDouble(parts))), after;
      } else {
        item, stop := None, if end == [] then InDoubleQuote(parts) else DanglingInQuote(parts);
      }
    } else if c == BACKSLASH {
      if |s| == 1 {
        item, stop := None, Dangling;
      } else {
        item, rest := Some(Says(Escape(s[1]))), s[2..];
      }
    } else if c in {SPACE, TAB, CR, NEWLINE} {
      item := Some(Space(c));
    } else {
      item := Some(Says(Bare(c)));
    }
  }

  /** Every line is items up to where it stops, and the lexer answers what that reading comes to. */
  lemma {:induction false} EveryLineReads(s: seq<Byte>, x: Said) returns (line: seq<Item>, stop: Stop)
    requires x.open || x.current == []
    ensures LineOk(line) && StopOk(stop) && s == LineBytes(line) + StopBytes(stop)
    ensures stop != Whole ==> Lex(s, Hearing(x)) == Reading(line, stop)
    decreases |s|
  {
    hide Lex, ItemOk, ItemBytes, StopOk, PartsBytes;
    if s == [] {
      line, stop := [], Whole;
      WholeIsOk();
    } else {
      var item, here, rest := FirstItem(s);
      if item.None? {
        line, stop := [], here;
        StopReads(stop, x);
      } else {
        var more, end := EveryLineReads(rest, Hear(x, item.value));
        line, stop := [item.value] + more, end;
        ItemReads(item.value, rest, x);
      }
    }
  }

  lemma WholeIsOk()
    ensures StopOk(Whole) && StopBytes(Whole) == []
  {}

  lemma LexIsReading(s: seq<Byte>) returns (line: seq<Item>, stop: Stop)
    ensures LineOk(line) && StopOk(stop) && s == LineBytes(line) + StopBytes(stop)
    ensures Lex(s, Idle()) == Reading(line, stop)
  {
    hide Lex, LineOk, StopOk, LineBytes, LineTokens;
    line, stop := EveryLineReads(s, Silence());
    if stop == Whole {
      WholeIsOk();
      assert s == LineBytes(line);
      LineReads(line);
    }
  }

  // ---- each form of quoting, behind any text and before any rest ----

  /** In single quotes everything but a single quote stands for itself. */
  lemma {:induction false} SingleQuoted(t: Text, rest: seq<Byte>, x: Said)
    requires SINGLE_QUOTE !in t && (x.open || x.current == [])
    ensures Lex([SINGLE_QUOTE] + t + [SINGLE_QUOTE] + rest, Hearing(x))
         == Lex(rest, Hearing(Said(x.tokens, x.current + t, true)))
  {
    hide Lex;
    ItemReads(Says(InSingle(t)), rest, x);
  }

  /** No double quote in it, and no backslash that stands last or before another. */
  predicate Tame(t: Text) {
    && DOUBLE_QUOTE !in t
    && forall k :: 0 <= k < |t| && t[k] == BACKSLASH ==> k + 1 < |t| && t[k + 1] != BACKSLASH
  }

  lemma {:induction false} TameParts(t: Text) returns (parts: seq<Part>)
    requires Tame(t)
    ensures forall k :: 0 <= k < |parts| ==> PartOk(parts[k])
    ensures PartsBytes(parts) == t && PartsText(parts) == t
    decreases |t|
  {
    if t == [] {
      parts := [];
    } else {
      var x := if t[0] == BACKSLASH then Pair(t[1]) else Raw(t[0]);
      var n := |PartBytes(x)|;
      assert t == PartBytes(x) + t[n..] && PartText(x) == PartBytes(x);
      forall k | 0 <= k < |t[n..]| && t[n..][k] == BACKSLASH ensures k + 1 < |t[n..]| && t[n..][k + 1] != BACKSLASH {
        assert t[n + k] == BACKSLASH;
      }
      var more := TameParts(t[n..]);
      parts := [x] + more;
    }
  }

  /** In double quotes such a text stands for itself, backslashes and all. */
  lemma {:induction false} DoubleQuoted(t: Text, rest: seq<Byte>, x: Said)
    requires Tame(t) && (x.open || x.current == [])
    ensures Lex([DOUBLE_QUOTE] + t + [DOUBLE_QUOTE] + rest, Hearing(x))
         == Lex(rest, Hearing(Said(x.tokens, x.current + t, true)))
  {
    hide Lex, Tame;
    var parts := TameParts(t);
    ItemReads(Says(InDouble(parts)), rest, x);
  }

  function EachEscaped(t: Text): seq<Byte> {
    if t == [] then [] else [BACKSLASH, t[0]] + EachEscaped(t[1..])
  }

  lemma EscapeReads(c: Byte, rest: seq<Byte>, x: Said)
    requires x.open || x.current == []
    ensures Lex([BACKSLASH, c] + rest, Hearing(x)) == Lex(rest, Hearing(Said(x.tokens, x.current + [c], true)))
  {
    hide Lex;
    ItemReads(Says(Escape(c)), rest, x);
  }

  /** Outside quotes a text with a backslash before every byte stands for the text, whatever bytes it has. */
  lemma {:induction false} EscapedReads(t: Text, rest: seq<Byte>, x: Said)
    requires t != [] && (x.open || x.current == [])
    ensures Lex(EachEscaped(t) + rest, Hearing(x)) == Lex(rest, Hearing(Said(x.tokens, x.current + t, true)))
    decreases t
  {
    hide Lex, Hearing, ItemBytes, Hear;
    var more := EachEscaped(t[1..]) + rest;
    assert EachEscaped(t) + rest == [BACKSLASH, t[0]] + more;
    EscapeReads(t[0], more, x);
    var y := Said(x.tokens, x.current + [t[0]], true);
    assert y.current + t[1..] == x.current + t;
    if |t| == 1 {
      assert more == rest && y.current == x.current + t;
    } else {
      EscapedReads(t[1..], rest, y);
    }
  }

  predicate Unbroken(line: seq<Item>) {
    forall k :: 0 <= k < |line| ==> line[k].Says?
  }

  function Concatenated(line: seq<Item>): Text
    requires Unbroken(line)
  {
    if line == [] then [] else PieceText(line[0].p) + Concatenated(line[1..])
  }

  /** Pieces with nothing between them are one token, all their texts in order. */
  lemma {:induction false} PiecesJoin(line: seq<Item>, x: Said)
    requires Unbroken(line)
    ensures HearAll(x, line) == Said(x.tokens, x.current + Concatenated(line), x.open || line != [])
    decreases line
  {
    hide PieceText;
    if line == [] {
      assert x.current + [] == x.current;
    } else {
      PiecesJoin(line[1..], Hear(x, line[0]));
      assert (x.current + PieceText(line[0].p)) + Concatenated(line[1..]) == x.current + Concatenated(line);
    }
  }
}
