/**
 The watch predicate language (src/client/predicate.rs) as a grammar over the
 unread rest of the input. Text is modelled by its UTF-8 bytes. An error carries
 how many bytes were left where it was noticed, from which the parser's column
 follows: input length - left + 1.
 */
module PredicateGrammar {
  import opened Utf8

  type bytes = seq<byte>

  const SPACE: byte := 0x20
  const TAB: byte := 0x09
  const QUOTE: byte := 0x22
  const SLASH: byte := 0x2F
  const BACKSLASH: byte := 0x5C
  const EQUALS: byte := 0x3D
  const BANG: byte := 0x21
  const TILDE: byte := 0x7E
  const AND: bytes := [0x41, 0x4E, 0x44]
  const AND_SEPARATOR: bytes := [SPACE, 0x41, 0x4E, 0x44, SPACE]

  datatype Op = Eq | Ne | RegexMatch | RegexNotMatch

  /** A compiled regex is represented by its pattern. */
  datatype Literal = Plain(text: bytes) | Regex(pattern: bytes)

  datatype Clause = Clause(attribute: bytes, op: Op, literal: Literal)

  datatype ErrorKind =
    | ExpectedAttribute | BadAttributeStart(first: byte) | AttributeNotUtf8
    | ExpectedOperator
    | ExpectedSlash | UnterminatedRegex | RegexNotUtf8 | InvalidRegex
    | UnterminatedQuote | QuoteNotUtf8
    | ExpectedLiteral | LiteralNotUtf8
    | ExpectedAnd

  datatype Parsed<+T> = Ok(value: T, rest: bytes) | Err(kind: ErrorKind, left: nat)

  /** Which patterns the regex library accepts. */
  type Compiles = bytes -> bool

  predicate IsNotUtf8Error(k: ErrorKind) {
    k == AttributeNotUtf8 || k == RegexNotUtf8 || k == QuoteNotUtf8 || k == LiteralNotUtf8
  }

  // ----- Characters -----

  predicate IsWs(b: byte) {
    b == SPACE || b == TAB
  }

  predicate IsAlpha(b: byte) {
    0x41 <= b <= 0x5A || 0x61 <= b <= 0x7A
  }

  predicate IsAttrStart(b: byte) {
    IsAlpha(b) || b == 0x5F
  }

  predicate IsAttrByte(b: byte) {
    IsAlpha(b) || 0x30 <= b <= 0x39 || b == 0x5F || b == 0x2E || b == 0x2D
  }

  /** `t` is where a token may end: the end of the input or white space. */
  predicate IsBreak(t: bytes) {
    t == [] || IsWs(t[0])
  }

  predicate StartsWith(s: bytes, p: bytes) {
    |p| <= |s| && s[..|p|] == p
  }

  // ----- Tokens -----

  function SkipWs(s: bytes): bytes {
    if s != [] && IsWs(s[0]) then SkipWs(s[1..]) else s
  }

  function AttrLength(s: bytes): (n: nat)
    ensures n <= |s|
  {
    if s != [] && IsAttrByte(s[0]) then 1 + AttrLength(s[1..]) else 0
  }

  function ParseAttr(s: bytes): Parsed<bytes> {
    if s == [] then Err(ExpectedAttribute, 0)
    else if !IsAttrStart(s[0]) then Err(BadAttributeStart(s[0]), |s|)
    else
      var n := AttrLength(s);
      if Valid(s[..n]) then Ok(s[..n], s[n..]) else Err(AttributeNotUtf8, |s|)
  }

  function ParseOp(s: bytes): Parsed<Op> {
    if StartsWith(s, [EQUALS, TILDE]) then Ok(RegexMatch, s[2..])
    else if StartsWith(s, [BANG, TILDE]) then Ok(RegexNotMatch, s[2..])
    else if StartsWith(s, [BANG, EQUALS]) then Ok(Ne, s[2..])
    else if StartsWith(s, [EQUALS]) then Ok(Eq, s[1..])
    else Err(ExpectedOperator, |s|)
  }

  datatype Body = Closed(text: bytes, rest: bytes) | Open

  /** Unescapes up to the closing delimiter `q`; a backslash escapes `q` and nothing else. */
  function ReadBody(s: bytes, q: byte, out: bytes): Body {
    if s == [] then Open
    else if s[0] == BACKSLASH && |s| > 1 && s[1] == q then ReadBody(s[2..], q, out + [q])
    else if s[0] == q then Closed(out, s[1..])
    else ReadBody(s[1..], q, out + [s[0]])
  }

  function ParseDelimited(s: bytes, q: byte, unterminated: ErrorKind, notUtf8: ErrorKind): Parsed<bytes>
    requires s != []
  {
    match ReadBody(s[1..], q, [])
    case Open => Err(unterminated, |s|)
    case Closed(text, rest) => if Valid(text) then Ok(text, rest) else Err(notUtf8, |s|)
  }

  function ParseQuoted(s: bytes): Parsed<bytes>
    requires s != []
  {
    ParseDelimited(s, QUOTE, UnterminatedQuote, QuoteNotUtf8)
  }

  function ParseRegex(s: bytes): Parsed<bytes> {
    if s == [] || s[0] != SLASH then Err(ExpectedSlash, |s|)
    else ParseDelimited(s, SLASH, UnterminatedRegex, RegexNotUtf8)
  }

  function BareLength(s: bytes): (n: nat)
    ensures n <= |s|
  {
    if s != [] && !IsWs(s[0]) then 1 + BareLength(s[1..]) else 0
  }

  function ParseBare(s: bytes): Parsed<bytes> {
    var n := BareLength(s);
    if n == 0 then Err(ExpectedLiteral, |s|)
    else if Valid(s[..n]) then Ok(s[..n], s[n..])
    else Err(LiteralNotUtf8, |s|)
  }

  predicate IsRegexOp(op: Op) {
    op == RegexMatch || op == RegexNotMatch
  }

  function ParseLiteral(compiles: Compiles, s: bytes, op: Op): Parsed<Literal> {
    if IsRegexOp(op) then
      match ParseRegex(s)
      case Err(k, left) => Err(k, left)
      case Ok(p, rest) => if compiles(p) then Ok(Regex(p), rest) else Err(InvalidRegex, |s|)
    else
      match if s != [] && s[0] == QUOTE then ParseQuoted(s) else ParseBare(s)
      case Err(k, left) => Err(k, left)
      case Ok(v, rest) => Ok(Plain(v), rest)
  }

  // ----- Clauses -----

  function ParseClause(compiles: Compiles, s: bytes): Parsed<Clause> {
    match ParseAttr(s)
    case Err(k, left) => Err(k, left)
    case Ok(attribute, s1) =>
      match ParseOp(SkipWs(s1))
      case Err(k, left) => Err(k, left)
      case Ok(op, s2) =>
        match ParseLiteral(compiles, SkipWs(s2), op)
        case Err(k, left) => Err(k, left)
        case Ok(literal, s3) => Ok(Clause(attribute, op, literal), s3)
  }

  predicate AtAnd(s: bytes) {
    StartsWith(s, AND) && IsBreak(s[3..])
  }

  /** One clause and, after `AND`, the others. */
  function ParseClauses(compiles: Compiles, s: bytes): Parsed<seq<Clause>>
    decreases |s|
  {
    match ParseClause(compiles, s)
    case Err(k, left) => Err(k, left)
    case Ok(c, rest) =>
      ClauseConsumes(compiles, s);
      SkipWsShrinks(rest);
      var t := SkipWs(rest);
      if t == [] then Ok([c], [])
      else if !AtAnd(t) then Err(ExpectedAnd, |t|)
      else
        SkipWsShrinks(t[3..]);
        match ParseClauses(compiles, SkipWs(t[3..]))
        case Err(k, left) => Err(k, left)
        case Ok(cs, end) => Ok([c] + cs, end)
  }

  function ParsePredicate(compiles: Compiles, s: bytes): Parsed<seq<Clause>> {
    var t := SkipWs(s);
    if t == [] then Ok([], []) else ParseClauses(compiles, t)
  }

  // ----- Every step moves forward, and errors point inside the input -----

  lemma SkipWsShrinks(s: bytes)
    ensures |SkipWs(s)| <= |s|
  {
  }

  lemma {:induction false} ReadBodyShrinks(s: bytes, q: byte, out: bytes)
    ensures ReadBody(s, q, out).Closed? ==> |ReadBody(s, q, out).rest| < |s|
    decreases |s|
  {
    if s != [] {
      if s[0] == BACKSLASH && |s| > 1 && s[1] == q {
        ReadBodyShrinks(s[2..], q, out + [q]);
      } else if s[0] != q {
        ReadBodyShrinks(s[1..], q, out + [s[0]]);
      }
    }
  }

  lemma LiteralShrinks(compiles: Compiles, s: bytes, op: Op)
    ensures match ParseLiteral(compiles, s, op)
            case Ok(_, rest) => |rest| <= |s|
            case Err(_, left) => left <= |s|
  {
    if s != [] {
      ReadBodyShrinks(s[1..], QUOTE, []);
      ReadBodyShrinks(s[1..], SLASH, []);
    }
  }

  lemma AttrConsumes(s: bytes)
    ensures match ParseAttr(s)
            case Ok(_, rest) => |rest| < |s|
            case Err(_, left) => left <= |s|
  {
    hide Valid;
  }

  lemma OpConsumes(s: bytes)
    ensures match ParseOp(s)
            case Ok(_, rest) => |rest| < |s|
            case Err(_, left) => left <= |s|
  {
  }

  lemma ClauseConsumes(compiles: Compiles, s: bytes)
    ensures match ParseClause(compiles, s)
            case Ok(_, rest) => |rest| < |s|
            case Err(_, left) => left <= |s|
  {
    hide ParseAttr, ParseOp, ParseLiteral, SkipWs;
    AttrConsumes(s);
    match ParseAttr(s)
    case Err(_, _) =>
    case Ok(attribute, s1) =>
      SkipWsShrinks(s1);
      OpConsumes(SkipWs(s1));
      match ParseOp(SkipWs(s1))
      case Err(_, _) =>
      case Ok(op, s2) =>
        SkipWsShrinks(s2);
        LiteralShrinks(compiles, SkipWs(s2), op);
  }

  /** A predicate that parses is read to its end; one that does not reports a place inside it. */
  lemma {:induction false} ErrorsPointInside(compiles: Compiles, s: bytes)
    ensures match ParseClauses(compiles, s)
            case Ok(cs, rest) => rest == [] && cs != []
            case Err(_, left) => left <= |s|
    decreases |s|
  {
    ClauseConsumes(compiles, s);
    match ParseClause(compiles, s)
    case Err(_, _) =>
    case Ok(c, rest) =>
      SkipWsShrinks(rest);
      var t := SkipWs(rest);
      if t != [] && AtAnd(t) {
        SkipWsShrinks(t[3..]);
        ErrorsPointInside(compiles, SkipWs(t[3..]));
      }
  }
}
