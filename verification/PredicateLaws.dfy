/** What the predicate grammar guarantees: round trips, exact expressiveness, UTF-8 safety, composition. */
module PredicateLaws {
  import opened PredicateGrammar
  import opened Utf8
  import opened Wrappers

  // ----- Printing -----

  function Escape(v: bytes, q: byte): bytes {
    if v == [] then []
    else (if v[0] == q then [BACKSLASH, q] else [v[0]]) + Escape(v[1..], q)
  }

  predicate EndsInBackslash(v: bytes) {
    v != [] && v[|v| - 1] == BACKSLASH
  }

  function PrintOp(op: Op): bytes {
    match op
    case Eq => [EQUALS]
    case Ne => [BANG, EQUALS]
    case RegexMatch => [EQUALS, TILDE]
    case RegexNotMatch => [BANG, TILDE]
  }

  /** The delimited form; a plain value ending in a backslash has only the bare form. */
  function PrintLiteral(l: Literal): bytes {
    match l
    case Regex(p) => [SLASH] + Escape(p, SLASH) + [SLASH]
    case Plain(v) => if EndsInBackslash(v) then v else [QUOTE] + Escape(v, QUOTE) + [QUOTE]
  }

  function PrintClause(c: Clause): bytes {
    c.attribute + [SPACE] + PrintOp(c.op) + [SPACE] + PrintLiteral(c.literal)
  }

  function Print(cs: seq<Clause>): bytes {
    if cs == [] then []
    else if |cs| == 1 then PrintClause(cs[0])
    else PrintClause(cs[0]) + AND_SEPARATOR + Print(cs[1..])
  }

  /** ASCII text as bytes. */
  function Ascii(t: string): bytes
    requires forall i :: 0 <= i < |t| ==> t[i] < 128 as char
  {
    seq(|t|, i requires 0 <= i < |t| => t[i] as int)
  }

  /** How the language is spelled: its signs, its one keyword, and the characters of names and blanks. */
  lemma Spelling(b: byte)
    ensures [QUOTE] == Ascii("\"") && [SLASH] == Ascii("/") && [BACKSLASH] == Ascii("\\") && [SPACE] == Ascii(" ")
    ensures PrintOp(Eq) == Ascii("=") && PrintOp(Ne) == Ascii("!=")
    ensures PrintOp(RegexMatch) == Ascii("=~") && PrintOp(RegexNotMatch) == Ascii("!~")
    ensures AND == Ascii("AND") && AND_SEPARATOR == Ascii(" AND ")
    ensures IsWs(b) <==> b as char in " \t"
    ensures var c := b as char; IsAttrStart(b) <==> 'A' <= c <= 'Z' || 'a' <= c <= 'z' || c == '_'
    ensures var c := b as char; IsAttrByte(b) <==> IsAttrStart(b) || '0' <= c <= '9' || c in ".-"
  {
  }

  // ----- The predicates that have a written form -----

  predicate IsAttribute(a: bytes) {
    a != [] && IsAttrStart(a[0]) && forall b :: b in a ==> IsAttrByte(b)
  }

  /** A value that can be written without quotes. */
  predicate IsBare(v: bytes) {
    v != [] && v[0] != QUOTE && forall b :: b in v ==> !IsWs(b)
  }

  predicate IsLiteral(compiles: Compiles, op: Op, l: Literal) {
    match l
    case Regex(p) => IsRegexOp(op) && Valid(p) && compiles(p) && !EndsInBackslash(p)
    case Plain(v) => !IsRegexOp(op) && Valid(v) && (!EndsInBackslash(v) || IsBare(v))
  }

  predicate Expressible(compiles: Compiles, c: Clause) {
    IsAttribute(c.attribute) && IsLiteral(compiles, c.op, c.literal)
  }

  // ----- Tokens do not look past a break -----

  lemma {:induction false} AttrLengthOf(a: bytes, t: bytes)
    requires forall b :: b in a ==> IsAttrByte(b)
    requires t != [] ==> !IsAttrByte(t[0])
    ensures AttrLength(a + t) == |a|
  {
    if a != [] {
      assert (a + t)[1..] == a[1..] + t;
      AttrLengthOf(a[1..], t);
    } else {
      assert a + t == t;
    }
  }

  lemma {:induction false} AttrLengthSplits(s: bytes)
    ensures forall b :: b in s[..AttrLength(s)] ==> IsAttrByte(b)
    ensures AttrLength(s) < |s| ==> !IsAttrByte(s[AttrLength(s)])
  {
    if s != [] && IsAttrByte(s[0]) {
      AttrLengthSplits(s[1..]);
      assert s[..AttrLength(s)] == [s[0]] + s[1..][..AttrLength(s[1..])];
    }
  }

  lemma {:induction false} BareLengthOf(v: bytes, t: bytes)
    requires forall b :: b in v ==> !IsWs(b)
    requires IsBreak(t)
    ensures BareLength(v + t) == |v|
  {
    if v != [] {
      assert (v + t)[1..] == v[1..] + t;
      BareLengthOf(v[1..], t);
    } else {
      assert v + t == t;
    }
  }

  lemma {:induction false} BareLengthSplits(s: bytes)
    ensures forall b :: b in s[..BareLength(s)] ==> !IsWs(b)
    ensures IsBreak(s[BareLength(s)..])
  {
    if s != [] && !IsWs(s[0]) {
      BareLengthSplits(s[1..]);
      assert s[..BareLength(s)] == [s[0]] + s[1..][..BareLength(s[1..])];
    }
  }

  lemma {:induction false} SkipWsExtends(s: bytes, t: bytes)
    ensures SkipWs(s) != [] ==> SkipWs(s + t) == SkipWs(s) + t
    ensures SkipWs(s) == [] ==> SkipWs(s + t) == SkipWs(t)
  {
    if s == [] {
      assert s + t == t;
    } else if IsWs(s[0]) {
      assert (s + t)[1..] == s[1..] + t;
      SkipWsExtends(s[1..], t);
    }
  }

  lemma AttrExtends(s: bytes, t: bytes)
    requires ParseAttr(s).Ok? && IsBreak(t)
    ensures ParseAttr(s + t) == Ok(ParseAttr(s).value, ParseAttr(s).rest + t)
  {
    var n := AttrLength(s);
    AttrLengthSplits(s);
    assert s + t == s[..n] + (s[n..] + t);
    AttrLengthOf(s[..n], s[n..] + t);
  }

  lemma OpExtends(s: bytes, t: bytes)
    requires ParseOp(s).Ok? && IsBreak(t)
    ensures ParseOp(s + t) == Ok(ParseOp(s).value, ParseOp(s).rest + t)
  {
    if |s| >= 2 {
      assert (s + t)[..2] == s[..2];
    }
    assert (s + t)[..1] == s[..1];
    assert |s| == 1 && t != [] ==> (s + t)[..2][1] == t[0];
  }

  lemma {:induction false} BodyExtends(s: bytes, q: byte, out: bytes, t: bytes)
    requires q != BACKSLASH && ReadBody(s, q, out).Closed?
    ensures ReadBody(s + t, q, out) == Closed(ReadBody(s, q, out).text, ReadBody(s, q, out).rest + t)
    decreases |s|
  {
    if s[0] == BACKSLASH && |s| > 1 && s[1] == q {
      assert (s + t)[2..] == s[2..] + t;
      BodyExtends(s[2..], q, out + [q], t);
    } else if s[0] == q {
      assert (s + t)[1..] == s[1..] + t;
    } else {
      assert (s + t)[1..] == s[1..] + t;
      assert |s| > 1;
      BodyExtends(s[1..], q, out + [s[0]], t);
    }
  }

  lemma LiteralExtends(compiles: Compiles, s: bytes, op: Op, t: bytes)
    requires ParseLiteral(compiles, s, op).Ok? && IsBreak(t)
    ensures ParseLiteral(compiles, s + t, op)
         == Ok(ParseLiteral(compiles, s, op).value, ParseLiteral(compiles, s, op).rest + t)
  {
    assert s != [];
    assert (s + t)[1..] == s[1..] + t;
    if IsRegexOp(op) {
      BodyExtends(s[1..], SLASH, [], t);
    } else if s[0] == QUOTE {
      BodyExtends(s[1..], QUOTE, [], t);
    } else {
      hide ParseBare;
      BareExtends(s, t);
    }
  }

  lemma BareExtends(s: bytes, t: bytes)
    requires ParseBare(s).Ok? && IsBreak(t)
    ensures ParseBare(s + t) == Ok(ParseBare(s).value, ParseBare(s).rest + t)
  {
    hide BareLength, Valid;
    var n := BareLength(s);
    BareLengthSplits(s);
    assert s + t == s[..n] + (s[n..] + t);
    BareLengthOf(s[..n], s[n..] + t);
    assert (s + t)[..n] == s[..n] && (s + t)[n..] == s[n..] + t;
  }

  lemma ClauseExtends(compiles: Compiles, s: bytes, t: bytes)
    requires ParseClause(compiles, s).Ok? && IsBreak(t)
    ensures ParseClause(compiles, s + t) == Ok(ParseClause(compiles, s).value, ParseClause(compiles, s).rest + t)
  {
    hide ParseAttr, ParseOp, ParseLiteral, SkipWs;
    AttrExtends(s, t);
    var s1 := ParseAttr(s).rest;
    SkipWsExtends(s1, t);
    ParsesNothing(compiles);
    var s2 := ParseOp(SkipWs(s1)).rest;
    OpExtends(SkipWs(s1), t);
    SkipWsExtends(s2, t);
    LiteralExtends(compiles, SkipWs(s2), ParseOp(SkipWs(s1)).value, t);
  }

  lemma ParsesNothing(compiles: Compiles)
    ensures ParseOp([]).Err?
    ensures forall op :: ParseLiteral(compiles, [], op).Err?
  {
  }

  // ----- Composition -----

  lemma AndExtends(t: bytes, u: bytes)
    requires AtAnd(t) && t != AND
    ensures AtAnd(t + u) && (t + u)[3..] == t[3..] + u
  {
    assert (t + u)[..3] == t[..3];
  }

  lemma {:induction false} ClausesCompose(compiles: Compiles, s1: bytes, s2: bytes)
    requires ParseClauses(compiles, s1).Ok?
    requires SkipWs(s2) != [] && ParseClauses(compiles, SkipWs(s2)).Ok?
    ensures ParseClauses(compiles, s1 + AND_SEPARATOR + s2)
         == Ok(ParseClauses(compiles, s1).value + ParseClauses(compiles, SkipWs(s2)).value, [])
    decreases |s1|
  {
    hide ParseClause, SkipWs;
    var tail := AND_SEPARATOR + s2;
    assert s1 + AND_SEPARATOR + s2 == s1 + tail;
    ErrorsPointInside(compiles, SkipWs(s2));
    ClauseExtends(compiles, s1, tail);
    ClauseConsumes(compiles, s1);
    ClauseConsumes(compiles, s1 + tail);
    var c, rest := ParseClause(compiles, s1).value, ParseClause(compiles, s1).rest;
    SkipWsShrinks(rest);
    SkipWsExtends(rest, tail);
    SkipWsShrinks(rest + tail);
    var t := SkipWs(rest);
    if t == [] {
      SeparatorIsRead(s2);
    } else {
      NoClauseInNothing(compiles);
      SkipWsShrinks(t[3..]);
      AndExtends(t, tail);
      SkipWsExtends(t[3..], tail);
      SkipWsShrinks(t[3..] + tail);
      ClausesCompose(compiles, SkipWs(t[3..]), s2);
      assert SkipWs(t[3..]) + AND_SEPARATOR + s2 == SkipWs(t[3..]) + tail;
      var cs1, cs2 := ParseClauses(compiles, SkipWs(t[3..])).value, ParseClauses(compiles, SkipWs(s2)).value;
      assert [c] + (cs1 + cs2) == [c] + cs1 + cs2;
    }
  }

  lemma SeparatorIsRead(s2: bytes)
    ensures SkipWs(AND_SEPARATOR + s2) == AND + [SPACE] + s2
    ensures AtAnd(AND + [SPACE] + s2)
    ensures SkipWs((AND + [SPACE] + s2)[3..]) == SkipWs(s2)
  {
    assert (AND_SEPARATOR + s2)[1..] == AND + [SPACE] + s2;
    var u := AND + [SPACE] + s2;
    assert u[3..] == [SPACE] + s2;
    assert ([SPACE] + s2)[1..] == s2;
  }

  lemma NoClauseInNothing(compiles: Compiles)
    ensures ParseClauses(compiles, []).Err?
    ensures SkipWs(AND[3..]) == []
  {
  }

  /**
   Joining with " AND " is conjunction: when both texts parse to non-empty
   predicates, the joined text parses to the appended clause lists.
   */
  lemma PredicatesCompose(compiles: Compiles, s1: bytes, s2: bytes)
    requires ParsePredicate(compiles, s1).Ok? && ParsePredicate(compiles, s1).value != []
    requires ParsePredicate(compiles, s2).Ok? && ParsePredicate(compiles, s2).value != []
    ensures ParsePredicate(compiles, s1 + AND_SEPARATOR + s2)
         == Ok(ParsePredicate(compiles, s1).value + ParsePredicate(compiles, s2).value, [])
  {
    hide ParseClauses, SkipWs;
    SkipWsExtends(s1, AND_SEPARATOR + s2);
    assert s1 + AND_SEPARATOR + s2 == s1 + (AND_SEPARATOR + s2);
    assert SkipWs(s1) + AND_SEPARATOR + s2 == SkipWs(s1) + (AND_SEPARATOR + s2);
    ClausesCompose(compiles, SkipWs(s1), s2);
  }

  // ----- Round trip -----

  lemma {:induction false} EscapeRoundTrip(v: bytes, q: byte, t: bytes, out: bytes)
    requires q != BACKSLASH && !EndsInBackslash(v)
    ensures ReadBody(Escape(v, q) + [q] + t, q, out) == Closed(out + v, t)
  {
    var s := Escape(v, q) + [q] + t;
    if v == [] {
      assert s == [q] + t;
      assert out + v == out;
    } else if v[0] == q {
      assert s[2..] == Escape(v[1..], q) + [q] + t;
      EscapeRoundTrip(v[1..], q, t, out + [q]);
      assert out + [q] + v[1..] == out + v;
    } else {
      assert s[1..] == Escape(v[1..], q) + [q] + t;
      if v[0] == BACKSLASH {
        assert |v| > 1;
        assert s[1] == Escape(v[1..], q)[0];
      }
      EscapeRoundTrip(v[1..], q, t, out + [v[0]]);
      assert out + [v[0]] + v[1..] == out + v;
    }
  }

  lemma DelimitedRoundTrip(v: bytes, q: byte, e1: ErrorKind, e2: ErrorKind)
    requires q != BACKSLASH && !EndsInBackslash(v) && Valid(v)
    ensures ParseDelimited([q] + Escape(v, q) + [q], q, e1, e2) == Ok(v, [])
  {
    var s := [q] + Escape(v, q) + [q];
    assert s[1..] == Escape(v, q) + [q] + [];
    EscapeRoundTrip(v, q, [], []);
    assert [] + v == v;
  }

  lemma LiteralRoundTrip(compiles: Compiles, op: Op, l: Literal)
    requires IsLiteral(compiles, op, l)
    ensures ParseLiteral(compiles, PrintLiteral(l), op) == Ok(l, [])
    ensures PrintLiteral(l) != [] && !IsWs(PrintLiteral(l)[0])
  {
    match l
    case Regex(p) => DelimitedRoundTrip(p, SLASH, UnterminatedRegex, RegexNotUtf8);
    case Plain(v) =>
      if EndsInBackslash(v) {
        BareLengthOf(v, []);
        assert v + [] == v;
        assert v[0] in v;
      } else {
        DelimitedRoundTrip(v, QUOTE, UnterminatedQuote, QuoteNotUtf8);
      }
  }

  lemma OpRoundTrip(op: Op, t: bytes)
    requires t != [] && IsWs(t[0])
    ensures ParseOp(PrintOp(op) + t) == Ok(op, t)
    ensures PrintOp(op) != [] && !IsWs(PrintOp(op)[0])
  {
    var s := PrintOp(op) + t;
    assert |PrintOp(op)| == 2 ==> s[..2] == PrintOp(op);
    assert |PrintOp(op)| == 1 ==> s[..1] == PrintOp(op) && s[..2][1] == t[0];
  }

  lemma AttributeRoundTrip(a: bytes, t: bytes)
    requires IsAttribute(a) && t != [] && !IsAttrByte(t[0])
    ensures ParseAttr(a + t) == Ok(a, t)
    ensures !IsWs(a[0])
  {
    AttrLengthOf(a, t);
    assert forall i :: 0 <= i < |a| ==> a[i] in a;
    AsciiIsValid(a);
  }

  lemma SkipOneSpace(t: bytes)
    requires t == [] || !IsWs(t[0])
    ensures SkipWs([SPACE] + t) == t && SkipWs(t) == t
  {
    assert ([SPACE] + t)[1..] == t;
  }

  lemma ClauseRoundTrip(compiles: Compiles, c: Clause)
    requires Expressible(compiles, c)
    ensures ParseClause(compiles, PrintClause(c)) == Ok(c, [])
    ensures SkipWs(PrintClause(c)) == PrintClause(c)
  {
    hide ParseAttr, ParseOp, ParseLiteral, PrintLiteral, PrintOp, SkipWs;
    var lit := PrintLiteral(c.literal);
    var afterAttr := PrintOp(c.op) + ([SPACE] + lit);
    LiteralRoundTrip(compiles, c.op, c.literal);
    OpRoundTrip(c.op, [SPACE] + lit);
    AttributeRoundTrip(c.attribute, [SPACE] + afterAttr);
    SkipOneSpace(lit);
    SkipOneSpace(afterAttr);
    assert PrintClause(c) == c.attribute + ([SPACE] + afterAttr);
    SkipOneSpace(PrintClause(c));
  }

  /** Parsing what was printed gives the clauses back, whenever every clause has a written form. */
  lemma {:induction false} RoundTrip(compiles: Compiles, cs: seq<Clause>)
    requires forall c :: c in cs ==> Expressible(compiles, c)
    ensures ParsePredicate(compiles, Print(cs)) == Ok(cs, [])
  {
    if cs != [] {
      hide ParseClause, PrintClause, SkipWs;
      ClauseRoundTrip(compiles, cs[0]);
      ClauseConsumes(compiles, PrintClause(cs[0]));
      NoClauseInNothing(compiles);
      SkipOneSpace([]);
      assert ParsePredicate(compiles, PrintClause(cs[0])) == Ok([cs[0]], []);
      if |cs| == 1 {
        assert cs == [cs[0]];
      } else {
        RoundTrip(compiles, cs[1..]);
        PredicatesCompose(compiles, PrintClause(cs[0]), Print(cs[1..]));
        assert cs == [cs[0]] + cs[1..];
      }
    }
  }

  // ----- The image of the parser -----

  /** No unescaped text ends in a backslash: that backslash would have escaped the delimiter. */
  lemma {:induction false} BodyNeverEndsInBackslash(s: bytes, q: byte, out: bytes)
    requires q != BACKSLASH
    requires EndsInBackslash(out) ==> s == [] || s[0] != q
    requires ReadBody(s, q, out).Closed?
    ensures !EndsInBackslash(ReadBody(s, q, out).text)
    decreases |s|
  {
    if s[0] == BACKSLASH && |s| > 1 && s[1] == q {
      BodyNeverEndsInBackslash(s[2..], q, out + [q]);
    } else if s[0] != q {
      BodyNeverEndsInBackslash(s[1..], q, out + [s[0]]);
    }
  }

  lemma LiteralsAreExpressible(compiles: Compiles, s: bytes, op: Op)
    requires ParseLiteral(compiles, s, op).Ok?
    ensures IsLiteral(compiles, op, ParseLiteral(compiles, s, op).value)
  {
    if IsRegexOp(op) {
      BodyNeverEndsInBackslash(s[1..], SLASH, []);
    } else if s != [] && s[0] == QUOTE {
      BodyNeverEndsInBackslash(s[1..], QUOTE, []);
    } else {
      BareLengthSplits(s);
    }
  }

  lemma ClausesAreExpressible(compiles: Compiles, s: bytes)
    requires ParseClause(compiles, s).Ok?
    ensures Expressible(compiles, ParseClause(compiles, s).value)
  {
    hide ParseOp, ParseLiteral, SkipWs;
    AttrLengthSplits(s);
    assert AttrLength(s) > 0;
    var s1 := ParseAttr(s).rest;
    var op, s2 := ParseOp(SkipWs(s1)).value, ParseOp(SkipWs(s1)).rest;
    LiteralsAreExpressible(compiles, SkipWs(s2), op);
  }

  lemma {:induction false} ParsedAreExpressible(compiles: Compiles, s: bytes)
    requires ParseClauses(compiles, s).Ok?
    ensures forall c :: c in ParseClauses(compiles, s).value ==> Expressible(compiles, c)
    decreases |s|
  {
    hide ParseClause, SkipWs, Expressible;
    ClausesAreExpressible(compiles, s);
    ClauseConsumes(compiles, s);
    var rest := ParseClause(compiles, s).rest;
    SkipWsShrinks(rest);
    var t := SkipWs(rest);
    if t != [] {
      SkipWsShrinks(t[3..]);
      ParsedAreExpressible(compiles, SkipWs(t[3..]));
    }
  }

  /**
   The language exactly: a clause list is the parse of some input if and only if
   every clause has a grammatical attribute, a literal of the operator's kind,
   and text that does not end in a backslash unless it can be written bare.
   */
  lemma LanguageIsExactlyTheExpressible(compiles: Compiles, cs: seq<Clause>)
    ensures (exists s :: ParsePredicate(compiles, s).Ok? && ParsePredicate(compiles, s).value == cs)
            <==> (forall c :: c in cs ==> Expressible(compiles, c))
  {
    if forall c :: c in cs ==> Expressible(compiles, c) {
      RoundTrip(compiles, cs);
    }
    forall s | ParsePredicate(compiles, s).Ok? && ParsePredicate(compiles, s).value == cs
      ensures forall c :: c in cs ==> Expressible(compiles, c)
    {
      if SkipWs(s) != [] { ParsedAreExpressible(compiles, SkipWs(s)); }
    }
  }

  /** A quoted literal can carry a text if and only if the text does not end in a backslash. */
  lemma QuotedValues(v: bytes)
    requires Valid(v)
    ensures (exists s :: s != [] && s[0] == QUOTE && ParseQuoted(s).Ok? && ParseQuoted(s).value == v)
            <==> !EndsInBackslash(v)
  {
    if !EndsInBackslash(v) {
      DelimitedRoundTrip(v, QUOTE, UnterminatedQuote, QuoteNotUtf8);
      var s := [QUOTE] + Escape(v, QUOTE) + [QUOTE];
      assert s[0] == QUOTE && ParseQuoted(s).value == v;
    }
    forall s | s != [] && s[0] == QUOTE && ParseQuoted(s).Ok? && ParseQuoted(s).value == v
      ensures !EndsInBackslash(v)
    {
      BodyNeverEndsInBackslash(s[1..], QUOTE, []);
    }
  }

  // ----- UTF-8 safety -----

  lemma ValidTail(s: bytes)
    requires Valid(s) && s != [] && IsAscii(s[0])
    ensures Valid(s[1..])
  {
    SplitAtAscii([], s[0], s[1..]);
    assert s == [] + [s[0]] + s[1..];
  }

  lemma {:induction false} SkipWsKeepsValid(s: bytes)
    requires Valid(s)
    ensures Valid(SkipWs(s))
  {
    if s != [] && IsWs(s[0]) {
      ValidTail(s);
      SkipWsKeepsValid(s[1..]);
    }
  }

  lemma {:induction false} AsciiPrefixLeavesValid(s: bytes, n: nat)
    requires Valid(s) && n <= |s| && forall i :: 0 <= i < n ==> IsAscii(s[i])
    ensures Valid(s[n..])
  {
    if n > 0 {
      ValidTail(s);
      AsciiPrefixLeavesValid(s[1..], n - 1);
      assert s[n..] == s[1..][n - 1..];
    }
  }

  /** Unescaping drops ASCII backslashes only, so what is read stays joined to a valid rest. */
  lemma {:induction false} BodyKeepsValid(s: bytes, q: byte, out: bytes)
    requires IsAscii(q) && Valid(out + s)
    ensures var r := ReadBody(s, q, out); r.Closed? ==> Valid(r.text) && Valid(r.rest)
    decreases |s|
  {
    if s == [] {
    } else if s[0] == BACKSLASH && |s| > 1 && s[1] == q {
      SplitAtAscii(out, BACKSLASH, s[1..]);
      assert out + s == out + [BACKSLASH] + s[1..];
      ConcatValid(out, s[1..]);
      assert out + s[1..] == out + [q] + s[2..];
      BodyKeepsValid(s[2..], q, out + [q]);
    } else if s[0] == q {
      SplitAtAscii(out, q, s[1..]);
      assert out + s == out + [q] + s[1..];
    } else {
      assert out + s == out + [s[0]] + s[1..];
      BodyKeepsValid(s[1..], q, out + [s[0]]);
    }
  }

  lemma DelimitedKeepsValid(s: bytes, q: byte, e1: ErrorKind, e2: ErrorKind)
    requires Valid(s) && s != [] && s[0] == q && IsAscii(q) && !IsNotUtf8Error(e1)
    ensures match ParseDelimited(s, q, e1, e2)
            case Ok(_, rest) => Valid(rest)
            case Err(k, _) => !IsNotUtf8Error(k)
  {
    ValidTail(s);
    assert [] + s[1..] == s[1..];
    BodyKeepsValid(s[1..], q, []);
  }

  lemma AttrKeepsValid(s: bytes)
    requires Valid(s)
    ensures match ParseAttr(s)
            case Ok(_, rest) => Valid(rest)
            case Err(k, _) => !IsNotUtf8Error(k)
  {
    hide Valid;
    var n := AttrLength(s);
    AttrLengthSplits(s);
    assert forall i :: 0 <= i < n ==> s[i] in s[..n];
    AsciiPrefixLeavesValid(s, n);
    AsciiIsValid(s[..n]);
  }

  lemma OpKeepsValid(s: bytes)
    requires Valid(s)
    ensures match ParseOp(s)
            case Ok(_, rest) => Valid(rest)
            case Err(k, _) => !IsNotUtf8Error(k)
  {
    hide Valid;
    match ParseOp(s)
    case Err(_, _) =>
    case Ok(_, rest) =>
      var n := |s| - |rest|;
      assert n == 2 ==> s[0] == s[..2][0] && s[1] == s[..2][1];
      assert n == 1 ==> s[0] == s[..1][0];
      AsciiPrefixLeavesValid(s, n);
  }

  /** Before an ASCII byte, or at the end, a well-formed text may be cut in two. */
  lemma CutAtAscii(s: bytes, n: nat)
    requires Valid(s) && n <= |s| && (n < |s| ==> s[n] < 0x80)
    ensures Valid(s[..n]) && Valid(s[n..])
  {
    hide CharLength, Valid;
    NothingIsValid();
    if n < |s| {
      SplitAtAscii(s[..n], s[n], s[n + 1..]);
      assert s == s[..n] + [s[n]] + s[n + 1..];
      SplitAtAscii([], s[n], s[n + 1..]);
      assert s[n..] == [] + [s[n]] + s[n + 1..];
    } else {
      assert s[..n] == s && s[n..] == [];
    }
  }

  lemma BareKeepsValid(s: bytes)
    requires Valid(s)
    ensures match ParseBare(s)
            case Ok(_, rest) => Valid(rest)
            case Err(k, _) => !IsNotUtf8Error(k)
  {
    hide Valid, BareLength;
    BareLengthSplits(s);
    CutAtAscii(s, BareLength(s));
  }

  lemma NothingIsValid()
    ensures Valid([])
  {
  }

  lemma LiteralKeepsValid(compiles: Compiles, s: bytes, op: Op)
    requires Valid(s)
    ensures match ParseLiteral(compiles, s, op)
            case Ok(_, rest) => Valid(rest)
            case Err(k, _) => !IsNotUtf8Error(k)
  {
    hide ParseDelimited, ParseBare, Valid;
    if IsRegexOp(op) {
      if s != [] && s[0] == SLASH { DelimitedKeepsValid(s, SLASH, UnterminatedRegex, RegexNotUtf8); }
    } else if s != [] && s[0] == QUOTE {
      DelimitedKeepsValid(s, QUOTE, UnterminatedQuote, QuoteNotUtf8);
    } else {
      BareKeepsValid(s);
    }
  }

  lemma ClauseKeepsValid(compiles: Compiles, s: bytes)
    requires Valid(s)
    ensures match ParseClause(compiles, s)
            case Ok(_, rest) => Valid(rest)
            case Err(k, _) => !IsNotUtf8Error(k)
  {
    hide ParseAttr, ParseOp, ParseLiteral, SkipWs;
    AttrKeepsValid(s);
    match ParseAttr(s)
    case Err(_, _) =>
    case Ok(_, s1) =>
      SkipWsKeepsValid(s1);
      OpKeepsValid(SkipWs(s1));
      match ParseOp(SkipWs(s1))
      case Err(_, _) =>
      case Ok(op, s2) =>
        SkipWsKeepsValid(s2);
        LiteralKeepsValid(compiles, SkipWs(s2), op);
  }

  lemma {:induction false} ClausesKeepValid(compiles: Compiles, s: bytes)
    requires Valid(s)
    ensures ParseClauses(compiles, s).Err? ==> !IsNotUtf8Error(ParseClauses(compiles, s).kind)
    decreases |s|
  {
    hide ParseClause, SkipWs;
    ClauseKeepsValid(compiles, s);
    ClauseConsumes(compiles, s);
    match ParseClause(compiles, s)
    case Err(_, _) =>
    case Ok(_, rest) =>
      SkipWsShrinks(rest);
      SkipWsKeepsValid(rest);
      var t := SkipWs(rest);
      if t != [] && AtAnd(t) {
        assert forall i :: 0 <= i < 3 ==> t[i] == t[..3][i];
        AsciiPrefixLeavesValid(t, 3);
        SkipWsShrinks(t[3..]);
        SkipWsKeepsValid(t[3..]);
        ClausesKeepValid(compiles, SkipWs(t[3..]));
      }
  }

  /** On well-formed UTF-8 none of the four "not valid UTF-8" errors can be reported. */
  lemma Utf8ErrorsAreUnreachable(compiles: Compiles, s: bytes)
    requires Valid(s)
    ensures ParsePredicate(compiles, s).Err? ==> !IsNotUtf8Error(ParsePredicate(compiles, s).kind)
  {
    SkipWsKeepsValid(s);
    if SkipWs(s) != [] { ClausesKeepValid(compiles, SkipWs(s)); }
  }

  // ----- Evaluation -----

  datatype Attribute = Attribute(key: bytes, current: Option<bytes>)

  type IsMatch = (bytes, bytes) -> bool

  /** The value of the first attribute named `key`. */
  function Lookup(attrs: seq<Attribute>, key: bytes): Option<bytes> {
    if attrs == [] then None
    else if attrs[0].key == key then attrs[0].current
    else Lookup(attrs[1..], key)
  }

  predicate ClauseMatches(isMatch: IsMatch, c: Clause, attrs: seq<Attribute>) {
    match (c.literal, c.op, Lookup(attrs, c.attribute))
    case (Plain(rhs), Eq, Some(v)) => v == rhs
    case (Plain(_), Eq, None) => false
    case (Plain(rhs), Ne, Some(v)) => v != rhs
    case (Plain(_), Ne, None) => true
    case (Regex(p), RegexMatch, Some(v)) => isMatch(p, v)
    case (Regex(_), RegexMatch, None) => false
    case (Regex(p), RegexNotMatch, Some(v)) => !isMatch(p, v)
    case (Regex(_), RegexNotMatch, None) => true
    case (_, Eq, _) => false
    case (_, RegexMatch, _) => false
    case (_, Ne, _) => true
    case (_, RegexNotMatch, _) => true
  }

  predicate Matches(isMatch: IsMatch, cs: seq<Clause>, attrs: seq<Attribute>) {
    forall c :: c in cs ==> ClauseMatches(isMatch, c, attrs)
  }

  // ----- What a predicate means, by positions -----

  /** The first attribute named `key` stands at `i`. */
  ghost predicate FirstAt(attrs: seq<Attribute>, key: bytes, i: int) {
    0 <= i < |attrs| && attrs[i].key == key && forall j :: 0 <= j < i ==> attrs[j].key != key
  }

  /** It has the current value `v`. */
  ghost predicate HasValue(attrs: seq<Attribute>, key: bytes, v: bytes) {
    exists i :: FirstAt(attrs, key, i) && attrs[i].current == Some(v)
  }

  /** Some current value of the attribute is the text; or is accepted by the regex. */
  ghost predicate Equal(c: Clause, attrs: seq<Attribute>) {
    c.literal.Plain? && HasValue(attrs, c.attribute, c.literal.text)
  }

  ghost predicate Accepted(isMatch: IsMatch, c: Clause, attrs: seq<Attribute>) {
    c.literal.Regex? && exists v :: HasValue(attrs, c.attribute, v) && isMatch(c.literal.pattern, v)
  }

  /** Missing attributes and values are equal to nothing and accepted by nothing. */
  ghost predicate Holds(isMatch: IsMatch, c: Clause, attrs: seq<Attribute>) {
    match c.op
    case Eq => Equal(c, attrs)
    case Ne => !Equal(c, attrs)
    case RegexMatch => Accepted(isMatch, c, attrs)
    case RegexNotMatch => !Accepted(isMatch, c, attrs)
  }

  /** The operator and the kind of literal belong together. */
  predicate Paired(c: Clause) {
    c.literal.Plain? <==> c.op == Eq || c.op == Ne
  }

  lemma {:induction false} LookupIsFirst(attrs: seq<Attribute>, key: bytes)
    ensures forall i :: FirstAt(attrs, key, i) ==> Lookup(attrs, key) == attrs[i].current
    ensures Lookup(attrs, key).Some? ==> HasValue(attrs, key, Lookup(attrs, key).value)
    decreases |attrs|
  {
    if attrs != [] {
      var rest := attrs[1..];
      LookupIsFirst(rest, key);
      forall i | FirstAt(attrs, key, i) ensures Lookup(attrs, key) == attrs[i].current {
        if i > 0 {
          assert attrs[0].key != key;
          forall j | 0 <= j < i - 1 ensures rest[j].key != key {
            assert attrs[j + 1].key != key;
          }
          assert FirstAt(rest, key, i - 1);
        }
      }
      if Lookup(attrs, key).Some? {
        if attrs[0].key == key {
          assert FirstAt(attrs, key, 0);
        } else {
          var i :| FirstAt(rest, key, i) && rest[i].current == Some(Lookup(attrs, key).value);
          assert FirstAt(attrs, key, i + 1);
        }
      }
    }
  }

  lemma OneFirst(attrs: seq<Attribute>, key: bytes, v: bytes)
    ensures HasValue(attrs, key, v) <==> Lookup(attrs, key) == Some(v)
  {
    LookupIsFirst(attrs, key);
  }

  lemma ClauseMeaning(isMatch: IsMatch, c: Clause, attrs: seq<Attribute>)
    requires Paired(c)
    ensures ClauseMatches(isMatch, c, attrs) <==> Holds(isMatch, c, attrs)
  {
    hide HasValue, Lookup;
    forall v ensures HasValue(attrs, c.attribute, v) <==> Lookup(attrs, c.attribute) == Some(v) {
      OneFirst(attrs, c.attribute, v);
    }
  }

  /** Every clause read from a text pairs its operator with the right kind of literal. */
  lemma ParsedArePaired(compiles: Compiles, s: bytes)
    ensures ParsePredicate(compiles, s).Ok? ==>
              forall c :: c in ParsePredicate(compiles, s).value ==> Paired(c)
  {
    hide ParsePredicate, Expressible;
    if ParsePredicate(compiles, s).Ok? {
      assert exists t :: ParsePredicate(compiles, t).Ok?
                         && ParsePredicate(compiles, t).value == ParsePredicate(compiles, s).value;
      LanguageIsExactlyTheExpressible(compiles, ParsePredicate(compiles, s).value);
      forall c | c in ParsePredicate(compiles, s).value ensures Paired(c) {
        ExpressibleIsPaired(compiles, c);
      }
    }
  }

  lemma ExpressibleIsPaired(compiles: Compiles, c: Clause)
    requires Expressible(compiles, c)
    ensures Paired(c)
  {
  }

  /** A predicate that parses matches exactly when each of its clauses holds; an empty one always does. */
  lemma MatchMeaning(compiles: Compiles, isMatch: IsMatch, s: bytes, attrs: seq<Attribute>)
    requires ParsePredicate(compiles, s).Ok?
    ensures var cs := ParsePredicate(compiles, s).value;
            && (Matches(isMatch, cs, attrs) <==> forall k :: 0 <= k < |cs| ==> Holds(isMatch, cs[k], attrs))
            && (cs == [] ==> Matches(isMatch, cs, attrs))
  {
    hide ParsePredicate, ClauseMatches, Holds;
    var cs := ParsePredicate(compiles, s).value;
    ParsedArePaired(compiles, s);
    forall c | c in cs ensures ClauseMatches(isMatch, c, attrs) <==> Holds(isMatch, c, attrs) {
      ClauseMeaning(isMatch, c, attrs);
    }
  }

  /** The joined text means the conjunction of the two predicates. */
  lemma ComposedMeaning(
    compiles: Compiles, isMatch: IsMatch, s1: bytes, s2: bytes, attrs: seq<Attribute>)
    requires ParsePredicate(compiles, s1).Ok? && ParsePredicate(compiles, s1).value != []
    requires ParsePredicate(compiles, s2).Ok? && ParsePredicate(compiles, s2).value != []
    ensures var joined := ParsePredicate(compiles, s1 + AND_SEPARATOR + s2);
            joined.Ok?
            && (Matches(isMatch, joined.value, attrs)
                <==> Matches(isMatch, ParsePredicate(compiles, s1).value, attrs)
                     && Matches(isMatch, ParsePredicate(compiles, s2).value, attrs))
  {
    PredicatesCompose(compiles, s1, s2);
  }
}
