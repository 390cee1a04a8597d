/**
 The byte-size printer (src/bytes.rs:5-7, 38-46) and the config parser that reads
 such texts back (src/config/mod.rs:475-477, 538-568), on 64-bit integers.
 */
module ByteSize {
  import opened Wrappers

  const KIB := 1024
  const MIB := 1024 * KIB
  const GIB := 1024 * MIB

  const U64_MAX := 0xFFFF_FFFF_FFFF_FFFF

  /** What a text that cannot be read falls back to. */
  const DEFAULT_CEILING := 4 * MIB

  // ----- Decimal numerals -----

  predicate IsDigit(c: char) {
    '0' <= c <= '9'
  }

  predicate AllDigits(s: string) {
    forall i :: 0 <= i < |s| ==> IsDigit(s[i])
  }

  function DigitsValue(s: string): nat
    requires AllDigits(s)
  {
    if s == "" then 0 else 10 * DigitsValue(s[..|s| - 1]) + (s[|s| - 1] as int - '0' as int)
  }

  function Decimal(n: nat): (s: string)
    ensures s != "" && AllDigits(s)
  {
    if n < 10 then [('0' as int + n) as char] else Decimal(n / 10) + [('0' as int + n % 10) as char]
  }

  lemma {:induction false} DecimalValue(n: nat)
    ensures DigitsValue(Decimal(n)) == n
  {
    if n >= 10 {
      DecimalValue(n / 10);
      assert Decimal(n)[..|Decimal(n)| - 1] == Decimal(n / 10);
    } else {
      assert Decimal(n)[..0] == "";
    }
  }

  /** `str::parse::<i64>`: an optional sign, then digits, within range. */
  function ParseI64(s: string): Option<int> {
    var signed := s != "" && (s[0] == '-' || s[0] == '+');
    var digits := if signed then s[1..] else s;
    if digits == "" || !AllDigits(digits) then None
    else
      var v: int := if signed && s[0] == '-' then 0 - DigitsValue(digits) else DigitsValue(digits);
      if -0x8000_0000_0000_0000 <= v < 0x8000_0000_0000_0000 then Some(v) else None
  }

  /** An optional sign. */
  predicate IsSign(sign: string) {
    sign == "" || sign == "+" || sign == "-"
  }

  /** Zeros, then the usual numeral of `n`. */
  predicate IsNumeralOf(digits: string, zeros: nat, n: nat) {
    digits == seq(zeros, _ => '0') + Decimal(n)
  }

  lemma {:induction false} ZerosAddNothing(zeros: nat, s: string)
    requires AllDigits(s)
    ensures AllDigits(seq(zeros, _ => '0') + s) && DigitsValue(seq(zeros, _ => '0') + s) == DigitsValue(s)
    decreases |s|, zeros
  {
    var z := seq(zeros, _ => '0');
    if s != "" {
      var init := s[..|s| - 1];
      ZerosAddNothing(zeros, init);
      assert (z + s)[..|z + s| - 1] == z + init;
    } else if zeros > 0 {
      ZerosAddNothing(zeros - 1, s);
      assert (z + s)[..|z + s| - 1] == seq(zeros - 1, _ => '0') + s;
    }
  }

  /** Every string of digits is a numeral with zeros in front. */
  lemma {:induction false} DigitsAreNumeral(s: string) returns (zeros: nat)
    requires s != "" && AllDigits(s)
    ensures IsNumeralOf(s, zeros, DigitsValue(s))
    decreases |s|
  {
    var last := s[|s| - 1];
    var d := last as int - '0' as int;
    if |s| == 1 {
      zeros := 0;
      assert s[..0] == "" && s == [last];
    } else {
      var init := s[..|s| - 1];
      var before := DigitsAreNumeral(init);
      var v := DigitsValue(init);
      zeros := if v == 0 then before + 1 else before;
      assert s == init + [last];
      if v == 0 {
        assert seq(before + 1, _ => '0') == seq(before, _ => '0') + "0";
      }
    }
  }

  predicate Reads(s: string, sign: string, zeros: nat, n: nat, v: int) {
    IsSign(sign) && sign <= s && IsNumeralOf(s[|sign|..], zeros, n) && v == if sign == "-" then 0 - n else n
  }

  lemma ReadsParses(s: string, sign: string, zeros: nat, n: nat, v: int)
    requires Reads(s, sign, zeros, n, v) && -0x8000_0000_0000_0000 <= v < 0x8000_0000_0000_0000
    ensures ParseI64(s) == Some(v)
  {
    hide Decimal, DigitsValue;
    var digits := s[|sign|..];
    ZerosAddNothing(zeros, Decimal(n));
    DecimalValue(n);
    assert AllDigits(digits) && digits != "" && IsDigit(digits[0]);
    if sign == "" {
      assert digits == s;
    } else {
      assert s[0] == sign[0] && s[1..] == digits;
    }
  }

  /**
   `str::parse::<i64>` reads exactly an optional sign, any number of zeros and a
   usual numeral, in range.
   */
  lemma NumeralLanguage(s: string, v: int)
    ensures ParseI64(s) == Some(v)
       <==> -0x8000_0000_0000_0000 <= v < 0x8000_0000_0000_0000 && exists sign, zeros, n :: Reads(s, sign, zeros, n, v)
  {
    if ParseI64(s) == Some(v) {
      var sign := if s[0] == '-' || s[0] == '+' then s[..1] else "";
      var zeros := DigitsAreNumeral(s[|sign|..]);
      assert Reads(s, sign, zeros, DigitsValue(s[|sign|..]), v);
    }
    if -0x8000_0000_0000_0000 <= v < 0x8000_0000_0000_0000 {
      forall sign, zeros, n | Reads(s, sign, zeros, n, v) ensures ParseI64(s) == Some(v) {
        ReadsParses(s, sign, zeros, n, v);
      }
    }
  }

  // ----- Trimming -----

  /** The Unicode White_Space characters. */
  predicate IsSpace(c: char) {
    || '\t' <= c <= '\r' || c == ' ' || c == '\U{85}' || c == '\U{A0}' || c == '\U{1680}'
    || '\U{2000}' <= c <= '\U{200A}' || c == '\U{2028}' || c == '\U{2029}' || c == '\U{202F}' || c == '\U{205F}'
    || c == '\U{3000}'
  }

  predicate AllSpace(s: string) {
    forall i :: 0 <= i < |s| ==> IsSpace(s[i])
  }

  /** All 25 of them. */
  const WHITE_SPACE := "\t\n\U{0B}\U{0C}\r \U{85}\U{A0}\U{1680}\U{2000}\U{2001}\U{2002}\U{2003}\U{2004}\U{2005}\U{2006}"
                       + "\U{2007}\U{2008}\U{2009}\U{200A}\U{2028}\U{2029}\U{202F}\U{205F}\U{3000}"

  lemma SpacesAreListed(c: char)
    ensures IsSpace(c) <==> c in WHITE_SPACE
  {
  }

  function TrimStart(s: string): string {
    if s != "" && IsSpace(s[0]) then TrimStart(s[1..]) else s
  }

  function TrimEnd(s: string): string {
    if s != "" && IsSpace(s[|s| - 1]) then TrimEnd(s[..|s| - 1]) else s
  }

  function Trim(s: string): string {
    TrimEnd(TrimStart(s))
  }

  /** Not empty, with no white space at either end. */
  predicate Solid(s: string) {
    s != "" && !IsSpace(s[0]) && !IsSpace(s[|s| - 1])
  }

  lemma {:induction false} TrimStartOf(w: string, x: string)
    requires AllSpace(w) && (x != "" ==> !IsSpace(x[0]))
    ensures TrimStart(w + x) == x
  {
    if w == "" {
      assert w + x == x;
    } else {
      assert (w + x)[1..] == w[1..] + x;
      TrimStartOf(w[1..], x);
    }
  }

  lemma {:induction false} TrimEndOf(x: string, w: string)
    requires AllSpace(w) && (x != "" ==> !IsSpace(x[|x| - 1]))
    ensures TrimEnd(x + w) == x
  {
    if w == "" {
      assert x + w == x;
    } else {
      assert (x + w)[..|x + w| - 1] == x + w[..|w| - 1];
      TrimEndOf(x, w[..|w| - 1]);
    }
  }

  /** Trimming takes off exactly the white space around something solid. */
  lemma TrimOf(v: string, x: string, w: string)
    requires AllSpace(v) && Solid(x) && AllSpace(w)
    ensures Trim(v + x + w) == x
  {
    assert v + x + w == v + (x + w);
    TrimStartOf(v, x + w);
    TrimEndOf(x, w);
  }

  lemma {:induction false} TrimStartSplits(s: string) returns (w: string)
    ensures AllSpace(w) && s == w + TrimStart(s)
    ensures TrimStart(s) != "" ==> !IsSpace(TrimStart(s)[0])
  {
    if s != "" && IsSpace(s[0]) {
      var rest := TrimStartSplits(s[1..]);
      w := [s[0]] + rest;
    } else {
      w := "";
    }
  }

  lemma {:induction false} TrimEndSplits(s: string) returns (w: string)
    ensures AllSpace(w) && s == TrimEnd(s) + w
    ensures TrimEnd(s) != "" ==> !IsSpace(TrimEnd(s)[|TrimEnd(s)| - 1]) && TrimEnd(s)[0] == s[0]
  {
    if s != "" && IsSpace(s[|s| - 1]) {
      var rest := TrimEndSplits(s[..|s| - 1]);
      w := rest + [s[|s| - 1]];
    } else {
      w := "";
    }
  }

  lemma TrimSplits(s: string) returns (v: string, w: string)
    ensures AllSpace(v) && AllSpace(w) && s == v + Trim(s) + w
  {
    v := TrimStartSplits(s);
    w := TrimEndSplits(TrimStart(s));
  }

  // ----- Printer and parser -----

  function FormatBytesInt(n: nat): string {
    if n >= MIB then Decimal(n / MIB) + " MiB"
    else if n >= KIB then Decimal(n / KIB) + " KiB"
    else Decimal(n) + " B"
  }

  /** `usize::saturating_mul`. */
  function SaturatingMul(a: nat, b: nat): (r: nat)
    ensures r < 0x1_0000_0000_0000_0000 && r <= a * b
    ensures r == a * b || r + 1 == 0x1_0000_0000_0000_0000
  {
    if a * b <= U64_MAX then a * b else U64_MAX
  }

  predicate HasSuffix(s: string, x: string) {
    |x| <= |s| && s[|s| - |x|..] == x
  }

  /** `strip_suffix`, then the number before it. */
  function NumberBefore(s: string, suffix: string): Option<int> {
    if HasSuffix(s, suffix) then ParseI64(Trim(s[..|s| - |suffix|])) else None
  }

  /** The count and unit a text states, if it states any: the suffixes are tried longest first. */
  function Stated(raw: string): Option<(int, nat)> {
    var s := Trim(raw);
    if ParseI64(s).Some? then Some((ParseI64(s).value, 1))
    else if NumberBefore(s, "GiB").Some? then Some((NumberBefore(s, "GiB").value, GIB))
    else if NumberBefore(s, "MiB").Some? then Some((NumberBefore(s, "MiB").value, MIB))
    else if NumberBefore(s, "KiB").Some? then Some((NumberBefore(s, "KiB").value, KIB))
    else if NumberBefore(s, "B").Some? then Some((NumberBefore(s, "B").value, 1))
    else None
  }

  /** `parse_byte_size_or_zero`: `None` is unbounded. */
  function ParseByteSizeOrZero(raw: string): Option<nat> {
    match Stated(raw)
    case Some((n, unit)) => if n <= 0 then None else Some(SaturatingMul(n, unit))
    case None => Some(DEFAULT_CEILING)
  }

  // ----- What the parser accepts -----

  /** The factors, written out. */
  function Unit(suffix: string): Option<nat> {
    if suffix == "" || suffix == "B" then Some(1)
    else if suffix == "KiB" then Some(0x400)
    else if suffix == "MiB" then Some(0x10_0000)
    else if suffix == "GiB" then Some(0x4000_0000)
    else None
  }

  predicate IsForm(raw: string, a: string, numeral: string, b: string, suffix: string, c: string, n: int, unit: nat) {
    && raw == a + numeral + b + suffix + c
    && AllSpace(a) && AllSpace(b) && AllSpace(c)
    && ParseI64(numeral) == Some(n) && Unit(suffix) == Some(unit)
  }

  /** White space, an i64 numeral, white space, a unit, white space. */
  ghost predicate HasForm(raw: string, n: int, unit: nat) {
    exists a, numeral, b, suffix, c :: IsForm(raw, a, numeral, b, suffix, c, n, unit)
  }

  lemma Regroup<T>(a: seq<T>, b: seq<T>, c: seq<T>, d: seq<T>, e: seq<T>)
    ensures a + b + c + d + e == a + (b + c + d) + e
    ensures a + b + c + [] + e == a + b + (c + e)
  {
  }

  lemma NumeralIsSolid(s: string)
    requires ParseI64(s).Some?
    ensures Solid(s) && IsDigit(s[|s| - 1])
  {
    var digits := if s[0] == '-' || s[0] == '+' then s[1..] else s;
    assert IsDigit(digits[|digits| - 1]) && digits[|digits| - 1] == s[|s| - 1];
  }

  lemma StatedHasForm(raw: string)
    requires Stated(raw).Some?
    ensures HasForm(raw, Stated(raw).value.0, Stated(raw).value.1)
  {
    hide ParseI64, Trim, AllSpace, NumberBefore;
    var s := Trim(raw);
    if ParseI64(s).Some? {
      var v, w := TrimSplits(raw);
      PlainForm(raw, v, s, w);
    } else {
      SuffixedForm(raw, if NumberBefore(s, "GiB").Some? then "GiB" else if NumberBefore(s, "MiB").Some? then "MiB"
                        else if NumberBefore(s, "KiB").Some? then "KiB" else "B");
    }
  }

  lemma PlainForm(raw: string, v: string, s: string, w: string)
    requires raw == v + s + w && AllSpace(v) && AllSpace(w) && ParseI64(s).Some?
    ensures HasForm(raw, ParseI64(s).value, 1)
  {
    hide ParseI64;
    assert v + s + "" + "" + w == v + s + w;
    assert IsForm(raw, v, s, "", "", w, ParseI64(s).value, 1);
  }

  lemma SuffixedForm(raw: string, suffix: string)
    requires Unit(suffix).Some? && NumberBefore(Trim(raw), suffix).Some?
    ensures HasForm(raw, NumberBefore(Trim(raw), suffix).value, Unit(suffix).value)
  {
    hide ParseI64, Trim, AllSpace, Unit;
    var s := Trim(raw);
    var before := s[..|s| - |suffix|];
    var v, w := TrimSplits(raw);
    var v', w' := TrimSplits(before);
    SpaceJoins(v, v');
    assert s == before + suffix;
    Regroup5(v, v', Trim(before), w', suffix, w);
    assert IsForm(raw, v + v', Trim(before), w', suffix, w, NumberBefore(s, suffix).value, Unit(suffix).value);
  }

  lemma Regroup5<T>(v: seq<T>, v': seq<T>, x: seq<T>, w': seq<T>, y: seq<T>, w: seq<T>)
    ensures v + (v' + x + w' + y) + w == (v + v') + x + w' + y + w
  {
  }

  lemma SuffixChars(x: string, y: string)
    requires |y| == 3
    ensures HasSuffix(x, y) ==> |x| >= 3 && x[|x| - 3] == y[0] && x[|x| - 2] == y[1] && x[|x| - 1] == y[2]
  {
    if HasSuffix(x, y) {
      var tail := x[|x| - 3..];
      assert tail[0] == x[|x| - 3] && tail[1] == x[|x| - 2] && tail[2] == x[|x| - 1];
    }
  }

  /** What stands before a unit never reads as part of a longer unit. */
  lemma OnlyItsOwnSuffix(x: string, front: string, suffix: string)
    requires x == front + suffix && (suffix == "B" || suffix == "KiB" || suffix == "MiB" || suffix == "GiB")
    requires front != "" && (IsDigit(front[|front| - 1]) || IsSpace(front[|front| - 1]))
    ensures NumberBefore(x, suffix) == ParseI64(Trim(front))
    ensures suffix != "GiB" ==> NumberBefore(x, "GiB") == None
    ensures suffix != "MiB" ==> NumberBefore(x, "MiB") == None
    ensures suffix != "KiB" ==> NumberBefore(x, "KiB") == None
    ensures x[|x| - 1] == 'B'
  {
    hide Trim, ParseI64;
    assert x[..|x| - |suffix|] == front && x[|x| - |suffix|..] == suffix;
    if suffix == "B" {
      assert x[|x| - 2] == front[|front| - 1] && x[|x| - 2] != 'i';
    } else {
      assert x[|x| - 3] == suffix[0];
    }
    SuffixChars(x, "GiB");
    SuffixChars(x, "MiB");
    SuffixChars(x, "KiB");
  }

  lemma NoNumeralEndsInB(x: string)
    requires x != "" && x[|x| - 1] == 'B'
    ensures ParseI64(x) == None
  {
    var digits := if x[0] == '-' || x[0] == '+' then x[1..] else x;
    assert digits != "" ==> digits[|digits| - 1] == 'B';
    assert digits != "" ==> !IsDigit(digits[|digits| - 1]);
  }

  lemma PlainIsStated(a: string, numeral: string, c: string)
    requires AllSpace(a) && AllSpace(c) && ParseI64(numeral).Some?
    ensures Stated(a + numeral + c) == Some((ParseI64(numeral).value, 1))
  {
    hide Trim, AllSpace, Solid, ParseI64, NumberBefore;
    NumeralIsSolid(numeral);
    TrimOf(a, numeral, c);
  }

  lemma SuffixedIsStated(a: string, numeral: string, b: string, suffix: string, c: string)
    requires AllSpace(a) && AllSpace(b) && AllSpace(c) && ParseI64(numeral).Some?
    requires suffix != "" && Unit(suffix).Some?
    ensures Stated(a + (numeral + b + suffix) + c) == Some((ParseI64(numeral).value, Unit(suffix).value))
  {
    hide Trim, ParseI64, NumberBefore, IsSpace, IsDigit;
    var front, x := numeral + b, numeral + b + suffix;
    NumeralIsSolid(numeral);
    assert front[|front| - 1] == if b == "" then numeral[|numeral| - 1] else b[|b| - 1];
    OnlyItsOwnSuffix(x, front, suffix);
    BIsSolid(x, numeral);
    TrimOf(a, x, c);
    assert front == "" + numeral + b;
    TrimOf("", numeral, b);
    NoNumeralEndsInB(x);
  }

  lemma BIsSolid(x: string, numeral: string)
    requires Solid(numeral) && numeral <= x && x[|x| - 1] == 'B'
    ensures Solid(x)
  {
    assert x[0] == numeral[0];
  }

  lemma FormIsStated(raw: string, n: int, unit: nat)
    requires HasForm(raw, n, unit)
    ensures Stated(raw) == Some((n, unit))
  {
    hide Stated, ParseI64, AllSpace;
    var a, numeral, b, suffix, c :| IsForm(raw, a, numeral, b, suffix, c, n, unit);
    Regroup(a, numeral, b, suffix, c);
    if suffix == "" {
      SpaceJoins(b, c);
      PlainIsStated(a, numeral, b + c);
    } else {
      SuffixedIsStated(a, numeral, b, suffix, c);
    }
  }

  lemma SpaceJoins(b: string, c: string)
    requires AllSpace(b) && AllSpace(c)
    ensures AllSpace(b + c)
  {
  }

  /**
   The texts that are read are exactly the numerals with an optional unit, with
   white space anywhere around them. Such a text means its product, capped at the
   largest `usize`, or unbounded when not positive; any other means the default.
   */
  lemma ParserLanguage(raw: string)
    ensures forall n, unit :: HasForm(raw, n, unit) ==>
              ParseByteSizeOrZero(raw)
              == if n <= 0 then None else Some(SaturatingMul(n, unit))
    ensures (forall n, unit :: !HasForm(raw, n, unit)) ==> ParseByteSizeOrZero(raw) == Some(0x40_0000)
  {
    hide HasForm, Stated;
    forall n, unit | HasForm(raw, n, unit)
      ensures ParseByteSizeOrZero(raw) == if n <= 0 then None else Some(SaturatingMul(n, unit)) {
      FormIsStated(raw, n, unit);
    }
    if Stated(raw).Some? {
      StatedHasForm(raw);
    }
  }

  // ----- Round trip -----

  /** The unit the printer chooses. */
  function ChosenUnit(n: nat): nat {
    if n >= MIB then MIB else if n >= KIB then KIB else 1
  }

  lemma DecimalParses(n: nat)
    requires n < 0x8000_0000_0000_0000
    ensures ParseI64(Decimal(n)) == Some(n)
  {
    DecimalValue(n);
    assert IsDigit(Decimal(n)[0]);
  }

  lemma PrintedForm(n: nat)
    requires n <= U64_MAX
    ensures HasForm(FormatBytesInt(n), n / ChosenUnit(n), ChosenUnit(n))
  {
    hide Decimal, ParseI64;
    var count, unit := n / ChosenUnit(n), ChosenUnit(n);
    DecimalParses(count);
    var suffix := if n >= MIB then "MiB" else if n >= KIB then "KiB" else "B";
    assert " MiB" == " " + "MiB" && " KiB" == " " + "KiB" && " B" == " " + "B";
    assert AllSpace(" ") && AllSpace("");
    assert FormatBytesInt(n) == "" + Decimal(count) + " " + suffix + "";
    assert IsForm(FormatBytesInt(n), "", Decimal(count), " ", suffix, "", count, unit);
  }

  lemma PrintedText(n: nat)
    ensures exists suffix :: suffix != "" && Unit(suffix) == Some(ChosenUnit(n))
              && FormatBytesInt(n) == Decimal(n / ChosenUnit(n)) + " " + suffix
  {
    hide Decimal;
    var suffix := if n >= MIB then "MiB" else if n >= KIB then "KiB" else "B";
    assert " MiB" == " " + "MiB" && " KiB" == " " + "KiB" && " B" == " " + "B";
    assert Unit(suffix) == Some(ChosenUnit(n)) && FormatBytesInt(n) == Decimal(n / ChosenUnit(n)) + " " + suffix;
  }

  /** A size is a count of its unit and a remainder, and less than half is in the remainder. */
  lemma UnitSplits(n: nat)
    requires n <= U64_MAX
    ensures var count, unit := n / ChosenUnit(n), ChosenUnit(n);
            && SaturatingMul(count, unit) == n - n % unit
            && (n == 0 ==> count == 0)
            && (n > 0 ==> count > 0 && n - n % unit <= n < 2 * (n - n % unit))
  {
    var count, unit := n / ChosenUnit(n), ChosenUnit(n);
    assert n == count * unit + n % unit;
    assert n > 0 ==> count * unit >= unit;
  }

  /** Reading a printed size back loses what the unit cannot say, and never half of it or more. */
  lemma {:induction false} RoundTrip(n: nat)
    requires n <= U64_MAX
    ensures exists suffix :: suffix != "" && Unit(suffix) == Some(ChosenUnit(n))
              && FormatBytesInt(n) == Decimal(n / ChosenUnit(n)) + " " + suffix
    ensures n == 0 ==> ParseByteSizeOrZero(FormatBytesInt(n)) == None
    ensures n > 0 ==>
              var back := n - n % ChosenUnit(n);
              && ParseByteSizeOrZero(FormatBytesInt(n)) == Some(back)
              && back <= n < 2 * back
              && (back == n <==> n % ChosenUnit(n) == 0)
  {
    hide FormatBytesInt, HasForm, ParseByteSizeOrZero, SaturatingMul, ChosenUnit;
    PrintedForm(n);
    PrintedText(n);
    UnitSplits(n);
    ParserLanguage(FormatBytesInt(n));
  }
}
