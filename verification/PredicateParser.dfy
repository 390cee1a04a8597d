/**
 The hand-written parser itself (src/client/predicate.rs:45-84, 144-331): a cursor
 over the input bytes, advanced in place by one method per token. Every method
 is proved to read exactly what the grammar says and to report the column the
 grammar's remaining length stands for.
 */
module PredicateParser {
  import opened PredicateGrammar
  import opened Utf8
  import opened Wrappers
  import Laws = PredicateLaws

  datatype PredicateParseError = PredicateParseError(kind: ErrorKind, column: nat)

  class Scanner {
    const input: bytes
    var cur: nat

    constructor (input: bytes)
      ensures this.input == input && cur == 0
    {
      this.input := input;
      cur := 0;
    }

    ghost predicate Valid()
      reads this
    {
      cur <= |input|
    }

    /** The unread part of the input. */
    ghost function Rest(): bytes
      reads this
      requires Valid()
    {
      input[cur..]
    }

    /** The outcome `r` and the new cursor are what the grammar answered. */
    ghost predicate Agrees<T(!new)>(r: Result<T, PredicateParseError>, p: Parsed<T>)
      reads this
    {
      match p
      case Ok(v, rest) => Valid() && r == Success(v) && Rest() == rest
      case Err(k, left) => left <= |input| && r == Failure(PredicateParseError(k, |input| - left + 1))
    }

    method SkipWhitespace()
      requires Valid()
      modifies this`cur
      ensures Valid() && Rest() == SkipWs(old(Rest()))
    {
      while cur < |input| && IsWs(input[cur])
        invariant Valid() && SkipWs(Rest()) == SkipWs(old(Rest()))
      {
        assert Rest()[1..] == input[cur + 1..];
        cur := cur + 1;
      }
    }

    method ParseAttribute() returns (r: Result<bytes, PredicateParseError>)
      requires Valid()
      modifies this`cur
      ensures Agrees(r, ParseAttr(old(Rest())))
    {
      hide AttrLength, Utf8.Valid, IsAttrByte, IsAttrStart;
      var start := cur;
      if cur >= |input| {
        return Failure(PredicateParseError(ExpectedAttribute, cur + 1));
      }
      if !IsAttrStart(input[cur]) {
        return Failure(PredicateParseError(BadAttributeStart(input[cur]), cur + 1));
      }
      while cur < |input| && IsAttrByte(input[cur])
        invariant start <= cur <= |input|
        invariant AttrLength(input[start..]) == cur - start + AttrLength(input[cur..])
      {
        AttrStep(input, cur);
        cur := cur + 1;
      }
      AttrStep(input, cur);
      assert old(Rest())[..cur - start] == input[start..cur];
      assert old(Rest())[cur - start..] == Rest();
      if Utf8.Valid(input[start..cur]) {
        r := Success(input[start..cur]);
      } else {
        r := Failure(PredicateParseError(AttributeNotUtf8, start + 1));
      }
    }

    lemma AttrStep(s: bytes, i: nat)
      requires i <= |s|
      ensures AttrLength(s[i..]) == if i < |s| && IsAttrByte(s[i]) then 1 + AttrLength(s[i + 1..]) else 0
    {
      if i < |s| {
        assert s[i..][1..] == s[i + 1..];
      }
    }

    method ParseOperator() returns (r: Result<Op, PredicateParseError>)
      requires Valid()
      modifies this`cur
      ensures Agrees(r, ParseOp(old(Rest())))
    {
      if cur >= |input| {
        return Failure(PredicateParseError(ExpectedOperator, cur + 1));
      }
      var rest := input[cur..];
      if StartsWith(rest, [EQUALS, TILDE]) {
        cur := cur + 2;
        return Success(RegexMatch);
      }
      if StartsWith(rest, [BANG, TILDE]) {
        cur := cur + 2;
        return Success(RegexNotMatch);
      }
      if StartsWith(rest, [BANG, EQUALS]) {
        cur := cur + 2;
        return Success(Ne);
      }
      if StartsWith(rest, [EQUALS]) {
        cur := cur + 1;
        return Success(Eq);
      }
      r := Failure(PredicateParseError(ExpectedOperator, cur + 1));
    }

    /** The loop shared by `parse_regex_literal` and `parse_quoted`, which differ in the delimiter only. */
    method ReadDelimited(q: byte, unterminated: ErrorKind, notUtf8: ErrorKind)
      returns (r: Result<bytes, PredicateParseError>)
      requires Valid() && cur < |input|
      modifies this`cur
      ensures Agrees(r, ParseDelimited(old(Rest()), q, unterminated, notUtf8))
    {
      hide ReadBody, Utf8.Valid;
      var start := cur;
      ghost var body := input[start + 1..];
      assert old(Rest())[1..] == body;
      cur := cur + 1;
      var out: bytes := [];
      while cur < |input|
        invariant Valid()
        invariant ReadBody(input[cur..], q, out) == ReadBody(body, q, [])
      {
        BodyStep(input, cur, q, out);
        if input[cur] == BACKSLASH && cur + 1 < |input| && input[cur + 1] == q {
          out := out + [q];
          cur := cur + 2;
        } else if input[cur] == q {
          cur := cur + 1;
          return if Utf8.Valid(out) then Success(out) else Failure(PredicateParseError(notUtf8, start + 1));
        } else {
          out := out + [input[cur]];
          cur := cur + 1;
        }
      }
      BodyEnd(input, cur, q, out);
      r := Failure(PredicateParseError(unterminated, start + 1));
    }

    lemma BodyStep(s: bytes, i: nat, q: byte, out: bytes)
      requires i < |s|
      ensures ReadBody(s[i..], q, out)
           == if s[i] == BACKSLASH && i + 1 < |s| && s[i + 1] == q then ReadBody(s[i + 2..], q, out + [q])
              else if s[i] == q then Closed(out, s[i + 1..])
              else ReadBody(s[i + 1..], q, out + [s[i]])
    {
      assert s[i..][1..] == s[i + 1..];
      if i + 1 < |s| {
        assert s[i..][2..] == s[i + 2..];
      }
    }

    lemma BodyEnd(s: bytes, i: nat, q: byte, out: bytes)
      requires i == |s|
      ensures ReadBody(s[i..], q, out) == Open
    {
    }

    method ParseRegexLiteral() returns (r: Result<bytes, PredicateParseError>)
      requires Valid()
      modifies this`cur
      ensures Agrees(r, ParseRegex(old(Rest())))
    {
      if cur >= |input| || input[cur] != SLASH {
        return Failure(PredicateParseError(ExpectedSlash, cur + 1));
      }
      r := ReadDelimited(SLASH, UnterminatedRegex, RegexNotUtf8);
    }

    method ParseBareLiteral() returns (r: Result<bytes, PredicateParseError>)
      requires Valid()
      modifies this`cur
      ensures Agrees(r, ParseBare(old(Rest())))
    {
      hide BareLength, Utf8.Valid, IsWs;
      var start := cur;
      while cur < |input| && !IsWs(input[cur])
        invariant start <= cur <= |input|
        invariant BareLength(input[start..]) == cur - start + BareLength(input[cur..])
      {
        BareStep(input, cur);
        cur := cur + 1;
      }
      BareStep(input, cur);
      if cur == start {
        return Failure(PredicateParseError(ExpectedLiteral, cur + 1));
      }
      assert old(Rest())[..cur - start] == input[start..cur];
      assert old(Rest())[cur - start..] == Rest();
      if Utf8.Valid(input[start..cur]) {
        r := Success(input[start..cur]);
      } else {
        r := Failure(PredicateParseError(LiteralNotUtf8, start + 1));
      }
    }

    lemma BareStep(s: bytes, i: nat)
      requires i <= |s|
      ensures BareLength(s[i..]) == if i < |s| && !IsWs(s[i]) then 1 + BareLength(s[i + 1..]) else 0
    {
      if i < |s| {
        assert s[i..][1..] == s[i + 1..];
      }
    }

    method ParseClauseLiteral(compiles: Compiles, op: Op) returns (r: Result<Literal, PredicateParseError>)
      requires Valid()
      modifies this`cur
      ensures Agrees(r, ParseLiteral(compiles, old(Rest()), op))
    {
      var start := cur;
      if IsRegexOp(op) {
        var pattern := ParseRegexLiteral();
        match pattern
        case Failure(e) => r := Failure(e);
        case Success(p) =>
          r := if compiles(p) then Success(Regex(p)) else Failure(PredicateParseError(InvalidRegex, start + 1));
      } else {
        var text;
        if cur < |input| && input[cur] == QUOTE {
          text := ReadDelimited(QUOTE, UnterminatedQuote, QuoteNotUtf8);
        } else {
          text := ParseBareLiteral();
        }
        match text
        case Failure(e) => r := Failure(e);
        case Success(v) => r := Success(Plain(v));
      }
    }

    /** `consume_keyword` for the one keyword of the language. */
    method ConsumeAnd() returns (found: bool)
      requires Valid()
      modifies this`cur
      ensures Valid() && found == AtAnd(old(Rest()))
      ensures Rest() == if found then old(Rest())[3..] else old(Rest())
    {
      if StartsWith(input[cur..], AND) {
        var end := cur + |AND|;
        assert Rest()[3..] == input[end..];
        if end >= |input| || IsWs(input[end]) {
          cur := end;
          return true;
        }
      }
      found := false;
    }

    method ParseOneClause(compiles: Compiles) returns (r: Result<Clause, PredicateParseError>)
      requires Valid()
      modifies this`cur
      ensures Agrees(r, ParseClause(compiles, old(Rest())))
    {
      hide ParseAttr, ParseOp, ParseLiteral, SkipWs;
      var attribute := ParseAttribute();
      if attribute.Failure? {
        return Failure(attribute.error);
      }
      SkipWhitespace();
      var op := ParseOperator();
      if op.Failure? {
        return Failure(op.error);
      }
      SkipWhitespace();
      var literal := ParseClauseLiteral(compiles, op.value);
      if literal.Failure? {
        return Failure(literal.error);
      }
      r := Success(Clause(attribute.value, op.value, literal.value));
    }
  }

  /** What is left to parse, seen from the loop of `Predicate::parse`, with the clauses read so far in front. */
  ghost function Prepend(cs: seq<Clause>, p: Parsed<seq<Clause>>): Parsed<seq<Clause>> {
    match p
    case Ok(more, rest) => Ok(cs + more, rest)
    case Err(k, left) => Err(k, left)
  }

  lemma PrependOne(compiles: Compiles, cs: seq<Clause>, s: bytes)
    requires ParseClause(compiles, s).Ok?
    ensures var c, t := ParseClause(compiles, s).value, SkipWs(ParseClause(compiles, s).rest);
            Prepend(cs, ParseClauses(compiles, s))
            == if t == [] then Ok(cs + [c], [])
               else if !AtAnd(t) then Err(ExpectedAnd, |t|)
               else Prepend(cs + [c], ParseClauses(compiles, SkipWs(t[3..])))
  {
    hide ParseClause, SkipWs;
    ClauseConsumes(compiles, s);
    SkipWsShrinks(ParseClause(compiles, s).rest);
    var c, t := ParseClause(compiles, s).value, SkipWs(ParseClause(compiles, s).rest);
    if t != [] && AtAnd(t) {
      SkipWsShrinks(t[3..]);
      match ParseClauses(compiles, SkipWs(t[3..]))
      case Ok(more, _) => assert cs + ([c] + more) == cs + [c] + more;
      case Err(_, _) =>
    }
  }

  /**
   `Predicate::parse`: the clauses the grammar reads from the input, or its
   error at the column where it was noticed, which always points into the input
   or just past its end. On well-formed text the error is never about UTF-8.
   */
  method Parse(compiles: Compiles, input: bytes) returns (r: Result<seq<Clause>, PredicateParseError>)
    ensures match ParsePredicate(compiles, input)
            case Ok(cs, _) => r == Success(cs)
            case Err(k, left) => left <= |input| && r == Failure(PredicateParseError(k, |input| - left + 1))
    ensures r.Failure? ==> 1 <= r.error.column <= |input| + 1
    ensures r.Failure? && Utf8.Valid(input) ==> !IsNotUtf8Error(r.error.kind)
  {
    hide ParseClause, ParseClauses, SkipWs, Utf8.Valid, IsNotUtf8Error, IsBreak, IsWs;
    if Utf8.Valid(input) {
      Laws.Utf8ErrorsAreUnreachable(compiles, input);
    }
    var scanner := new Scanner(input);
    assert scanner.Rest() == input;
    scanner.SkipWhitespace();
    if scanner.cur >= |input| {
      return Success([]);
    }
    ghost var goal := ParseClauses(compiles, scanner.Rest());
    assert goal == ParsePredicate(compiles, input);
    var clauses: seq<Clause> := [];
    PrependNothing(goal);
    while true
      invariant fresh(scanner) && scanner.Valid() && scanner.input == input
      invariant Prepend(clauses, ParseClauses(compiles, scanner.Rest())) == goal
      decreases |input| - scanner.cur
    {
      ghost var s := scanner.Rest();
      ClauseConsumes(compiles, s);
      FirstErrorIsFinal(compiles, s);
      var clause := scanner.ParseOneClause(compiles);
      if clause.Failure? {
        return Failure(clause.error);
      }
      PrependOne(compiles, clauses, s);
      ghost var afterClause := scanner.Rest();
      SkipWsShrinks(afterClause);
      clauses := clauses + [clause.value];
      scanner.SkipWhitespace();
      if scanner.cur >= |input| {
        return Success(clauses);
      }
      ghost var t := scanner.Rest();
      var found := scanner.ConsumeAnd();
      if !found {
        return Failure(PredicateParseError(ExpectedAnd, scanner.cur + 1));
      }
      SkipWsShrinks(t[3..]);
      scanner.SkipWhitespace();
    }
  }

  lemma PrependNothing(p: Parsed<seq<Clause>>)
    ensures Prepend([], p) == p
  {
    match p
    case Ok(cs, _) => assert [] + cs == cs;
    case Err(_, _) =>
  }

  lemma FirstErrorIsFinal(compiles: Compiles, s: bytes)
    ensures match ParseClause(compiles, s)
            case Err(k, left) => ParseClauses(compiles, s) == Err(k, left)
            case Ok(_, _) => true
  {
    hide ParseClause;
  }

  // ----- Redaction -----

  function OpText(op: Op): bytes {
    Laws.PrintOp(op)
  }

  const VALUE_PLACEHOLDER: bytes := [0x20, 0x3C, 0x76, 0x61, 0x6C, 0x75, 0x65, 0x3E]

  lemma PlaceholderText()
    ensures VALUE_PLACEHOLDER == Laws.Ascii(" <value>")
  {
  }

  /** What the log line may depend on: attribute names and operators. */
  function Shape(cs: seq<Clause>): seq<(bytes, Op)> {
    seq(|cs|, i requires 0 <= i < |cs| => (cs[i].attribute, cs[i].op))
  }

  function RedactedShape(shape: seq<(bytes, Op)>): bytes {
    if shape == [] then []
    else
      var last := shape[|shape| - 1];
      RedactedShape(shape[..|shape| - 1]) + (if |shape| > 1 then AND_SEPARATOR else [])
      + last.0 + [SPACE] + OpText(last.1) + VALUE_PLACEHOLDER
  }

  /** `redacted`: a function of the shape alone, so no literal can reach a log file through it. */
  method Redacted(clauses: seq<Clause>) returns (out: bytes)
    ensures out == RedactedShape(Shape(clauses))
  {
    out := [];
    for i := 0 to |clauses|
      invariant out == RedactedShape(Shape(clauses)[..i])
    {
      assert Shape(clauses)[..i + 1][..i] == Shape(clauses)[..i];
      if i > 0 {
        out := out + AND_SEPARATOR;
      }
      out := out + clauses[i].attribute + [SPACE] + OpText(clauses[i].op) + VALUE_PLACEHOLDER;
    }
    assert Shape(clauses)[..|clauses|] == Shape(clauses);
  }
}
