/** Maturation declarations ("loan_performance@24mo"): the printer and the parser of
    `MaturationRule`, sentinel_os/outcome_v1.py. */
module Declaration {
  import opened Wrappers
  import opened Texts

  // A horizon is a whole number of seconds.
  datatype Rule = Rule(kind: string, horizon: nat)

  datatype Unit = Years | Months | Days | Hours | Minutes | Seconds

  // Largest first, as the printer tries them.
  const UNITS := [Years, Months, Days, Hours, Minutes, Seconds]

  // Months and years are fixed lengths of 30 and 365 days.
  function Size(u: Unit): (seconds: nat)
    ensures seconds > 0
  {
    match u
    case Years => 365 * 86400
    case Months => 30 * 86400
    case Days => 86400
    case Hours => 3600
    case Minutes => 60
    case Seconds => 1
  }

  // count units, in seconds
  function Lasting(count: nat, u: Unit): nat {
    count * Size(u)
  }

  function Suffix(u: Unit): string {
    match u
    case Years => "y"
    case Months => "mo"
    case Days => "d"
    case Hours => "h"
    case Minutes => "m"
    case Seconds => "s"
  }

  lemma SuffixesDiffer(u: Unit, v: Unit)
    requires Suffix(u) == Suffix(v)
    ensures u == v
  {
    assert Suffix(u)[0] == Suffix(v)[0];
  }

  function UnitOf(suffix: string): (u: Option<Unit>)
    ensures u.Some? ==> Suffix(u.value) == suffix
    ensures u.None? ==> forall v :: Suffix(v) != suffix
  {
    if suffix == "y" then Some(Years)
    else if suffix == "mo" then Some(Months)
    else if suffix == "d" then Some(Days)
    else if suffix == "h" then Some(Hours)
    else if suffix == "m" then Some(Minutes)
    else if suffix == "s" then Some(Seconds)
    else None
  }

  /* -------- characters -------- */

  predicate IsLetter(c: char) {
    'a' <= c <= 'z' || 'A' <= c <= 'Z'
  }

  predicate IsDigit(c: char) {
    '0' <= c <= '9'
  }

  predicate LegalKind(kind: string) {
    && kind != [] && IsLetter(kind[0])
    && forall c | c in kind :: IsLetter(c) || IsDigit(c) || c == '_'
  }

  predicate AllDigits(s: string) {
    forall c | c in s :: IsDigit(c)
  }

  function Strip(s: string): (t: string)
    ensures t != [] ==> !IsSpace(t[0]) && !IsSpace(t[|t| - 1])
    ensures s != [] && !IsSpace(s[0]) && !IsSpace(s[|s| - 1]) ==> t == s
    ensures |t| <= |s|
    ensures t == s || |t| < |s|
    decreases |s|
  {
    if s == [] then []
    else if IsSpace(s[0]) then Strip(s[1..])
    else if IsSpace(s[|s| - 1]) then Strip(s[..|s| - 1])
    else s
  }

  /* -------- decimal numerals -------- */

  function Digit(n: nat): char
    requires n < 10
  {
    '0' + n as char
  }

  function Decimal(n: nat): (s: string)
    ensures s != [] && AllDigits(s)
    ensures n > 0 ==> s[0] != '0'
  {
    if n < 10 then [Digit(n)] else Decimal(n / 10) + [Digit(n % 10)]
  }

  function Numeral(s: string): nat
    requires AllDigits(s)
  {
    if s == [] then 0
    else
      var last := s[|s| - 1];
      assert last in s;
      Numeral(s[..|s| - 1]) * 10 + (last as int - '0' as int)
  }

  lemma {:induction false} DecimalReadsBack(n: nat)
    ensures Numeral(Decimal(n)) == n
  {
    var s := Decimal(n);
    if n >= 10 {
      DecimalReadsBack(n / 10);
      assert s[..|s| - 1] == Decimal(n / 10);
    } else {
      assert s[..|s| - 1] == [];
    }
  }

  // A numeral without a leading zero is the one the printer writes.
  lemma {:induction false} CanonicalNumeral(s: string)
    requires s != [] && AllDigits(s) && Numeral(s) > 0
    ensures Decimal(Numeral(s)) == s <==> s[0] != '0'
  {
    if s[0] != '0' {
      NumeralPrintsBack(s);
    }
  }

  lemma {:induction false} NumeralPrintsBack(s: string)
    requires s != [] && AllDigits(s) && s[0] != '0'
    ensures Numeral(s) > 0 && Decimal(Numeral(s)) == s
  {
    var front, last := s[..|s| - 1], s[|s| - 1] as int - '0' as int;
    assert s == front + [s[|s| - 1]];
    assert IsDigit(s[|s| - 1]);
    if front == [] {
      assert Numeral(front) == 0;
      assert s == [Digit(last)];
    } else {
      NumeralPrintsBack(front);
      assert Numeral(s) / 10 == Numeral(front) && Numeral(s) % 10 == last;
      assert Digit(last) == s[|s| - 1];
    }
  }

  /* -------- printing -------- */

  predicate Exact(horizon: nat, u: Unit) {
    horizon >= Size(u) && horizon % Size(u) == 0
  }

  // The first unit from the i-th on that measures the horizon exactly; seconds when none does.
  function UnitFrom(horizon: nat, i: nat): (u: Unit)
    requires i <= |UNITS|
    ensures Exact(horizon, u) || u == Seconds
    decreases |UNITS| - i
  {
    if i == |UNITS| then Seconds
    else if Exact(horizon, UNITS[i]) then UNITS[i]
    else UnitFrom(horizon, i + 1)
  }

  function Text(kind: string, digits: string, u: Unit): string {
    kind + "@" + digits + Suffix(u)
  }

  function Declare(r: Rule): string {
    var u := UnitFrom(r.horizon, 0);
    Text(r.kind, Decimal(r.horizon / Size(u)), u)
  }

  // The largest unit that measures the horizon exactly.
  ghost predicate LargestExact(horizon: nat, u: Unit) {
    Exact(horizon, u) && forall v | Exact(horizon, v) :: Size(v) <= Size(u)
  }

  lemma PrintedUnitIsLargest(horizon: nat)
    requires horizon > 0
    ensures LargestExact(horizon, UnitFrom(horizon, 0))
    ensures forall u | LargestExact(horizon, u) :: u == UnitFrom(horizon, 0)
  {
    assert UnitFrom(horizon, 5) == Seconds;
    assert UnitFrom(horizon, 4) == if Exact(horizon, Minutes) then Minutes else UnitFrom(horizon, 5);
    assert UnitFrom(horizon, 3) == if Exact(horizon, Hours) then Hours else UnitFrom(horizon, 4);
    assert UnitFrom(horizon, 2) == if Exact(horizon, Days) then Days else UnitFrom(horizon, 3);
    assert UnitFrom(horizon, 1) == if Exact(horizon, Months) then Months else UnitFrom(horizon, 2);
    assert UnitFrom(horizon, 0) == if Exact(horizon, Years) then Years else UnitFrom(horizon, 1);
  }

  /* -------- parsing -------- */

  datatype ParseError = Unparseable | NotPositive

  // The length of the leading run of characters of one class.
  function Run(s: string, inside: char -> bool): (n: nat)
    ensures n <= |s|
    ensures forall c | c in s[..n] :: inside(c)
    ensures n < |s| ==> !inside(s[n])
  {
    if s == [] || !inside(s[0]) then 0
    else
      var m := Run(s[1..], inside);
      assert s[..1 + m] == [s[0]] + s[1..][..m];
      1 + m
  }

  lemma {:induction false} RunOf(x: string, y: string, inside: char -> bool)
    requires forall c | c in x :: inside(c)
    requires y != [] && !inside(y[0])
    ensures Run(x + y, inside) == |x|
  {
    if x == [] {
      assert x + y == y;
    } else {
      assert (x + y)[0] == x[0] && (x + y)[1..] == x[1..] + y;
      RunOf(x[1..], y, inside);
    }
  }

  // A run and what follows it are read off their concatenation in one way.
  lemma CutsOnce(x: string, y: string, v: string, w: string, inside: char -> bool)
    requires forall c | c in x + v :: inside(c)
    requires y != [] && !inside(y[0]) && w != [] && !inside(w[0])
    requires x + y == v + w
    ensures x == v && y == w
  {
    RunOf(x, y, inside);
    RunOf(v, w, inside);
    assert x == (x + y)[..|x|] && v == (v + w)[..|v|];
    assert y == (x + y)[|x|..] && w == (v + w)[|v|..];
  }

  predicate NotAt(c: char) {
    c != '@'
  }

  lemma KindHasNoAt(kind: string)
    requires LegalKind(kind)
    ensures forall c | c in kind :: NotAt(c)
  {
  }

  // The text before the first '@', the digits after it, and what follows the digits.
  datatype Pieces = Pieces(kind: string, digits: string, suffix: string)

  function Cut(t: string): (p: Option<Pieces>)
    ensures p.Some? ==> t == p.value.kind + "@" + p.value.digits + p.value.suffix
    ensures p.Some? ==> AllDigits(p.value.digits)
  {
    var at := Run(t, NotAt);
    if at == |t| then None
    else
      var rest := t[at + 1..];
      var n := Run(rest, IsDigit);
      Some(Pieces(t[..at], rest[..n], rest[n..]))
  }

  function Parse(text: string): Result<Rule, ParseError> {
    var p := Cut(Strip(text));
    if p.None? || !LegalKind(p.value.kind) || p.value.digits == "" then Err(Unparseable)
    else
      var u := UnitOf(p.value.suffix);
      if u.None? then Err(Unparseable)
      else
        var count := Numeral(p.value.digits);
        if count == 0 then Err(NotPositive) else Ok(Rule(p.value.kind, Lasting(count, u.value)))
  }

  lemma CutText(kind: string, digits: string, u: Unit)
    requires LegalKind(kind) && AllDigits(digits)
    ensures Cut(Text(kind, digits, u)) == Some(Pieces(kind, digits, Suffix(u)))
  {
    var rest := digits + Suffix(u);
    var t := kind + (['@'] + rest);
    assert Text(kind, digits, u) == t;
    KindHasNoAt(kind);
    RunOf(kind, ['@'] + rest, NotAt);
    assert t[..|kind|] == kind && t[|kind| + 1..] == rest;
    RunOf(digits, Suffix(u), IsDigit);
    assert rest[..|digits|] == digits && rest[|digits|..] == Suffix(u);
  }

  // The declaration grammar: <kind>@<count><unit>.
  ghost predicate Spells(t: string, kind: string, digits: string, u: Unit) {
    && LegalKind(kind) && digits != [] && AllDigits(digits)
    && t == Text(kind, digits, u)
  }

  lemma SpellingHasNoMargin(kind: string, digits: string, u: Unit)
    requires LegalKind(kind) && digits != [] && AllDigits(digits)
    ensures Strip(Text(kind, digits, u)) == Text(kind, digits, u)
  {
    var t := Text(kind, digits, u);
    assert t[0] == kind[0];
    assert t[|t| - 1] == Suffix(u)[|Suffix(u)| - 1];
  }

  lemma ParseSpelled(text: string, kind: string, digits: string, u: Unit)
    requires Spells(Strip(text), kind, digits, u)
    ensures Parse(text) == if Numeral(digits) == 0 then Err(NotPositive)
                           else Ok(Rule(kind, Lasting(Numeral(digits), u)))
  {
    hide Size, Lasting, Numeral, Strip, LegalKind, Cut, Text;
    CutText(kind, digits, u);
    SuffixesDiffer(u, UnitOf(Suffix(u)).value);
  }

  /** The parser accepts exactly the grammar with a positive count, and reads it one way. */
  lemma ParseIsTheGrammar(text: string, r: Rule)
    ensures Parse(text) == Ok(r) <==>
              exists digits, u ::
                && Spells(Strip(text), r.kind, digits, u)
                && Numeral(digits) > 0 && r.horizon == Lasting(Numeral(digits), u)
  {
    hide Size, Lasting, Numeral, Strip, LegalKind, Cut;
    if digits, u :| Spells(Strip(text), r.kind, digits, u)
                    && Numeral(digits) > 0 && r.horizon == Lasting(Numeral(digits), u)
    {
      ParseSpelled(text, r.kind, digits, u);
    }
    if Parse(text) == Ok(r) {
      var p := Cut(Strip(text)).value;
      var u := UnitOf(p.suffix).value;
      assert Spells(Strip(text), r.kind, p.digits, u);
    }
  }

  lemma MultipleOfSize(count: nat, size: nat)
    requires count > 0 && size > 0
    ensures count * size > 0 && count * size % size == 0 && count * size / size == count
  {
    assert count * size == size * count + 0;
    QuotientIs(count * size, size, count);
  }

  lemma QuotientIs(n: nat, size: nat, count: nat)
    requires size > 0 && n == size * count
    ensures n / size == count && n % size == 0
  {
    var q, r := n / size, n % size;
    assert n == size * q + r;
    assert size * (count - q) == r;
    NoSmallMultiple(size, count - q);
  }

  lemma NoSmallMultiple(size: nat, k: int)
    ensures k >= 1 ==> size * k >= size
    ensures k <= -1 ==> size * k <= -(size as int)
  {
  }

  lemma Multiple(count: nat, u: Unit)
    requires count > 0
    ensures Lasting(count, u) > 0
    ensures Exact(Lasting(count, u), u) && Lasting(count, u) / Size(u) == count
  {
    hide Size;
    MultipleOfSize(count, Size(u));
  }

  lemma ParsedIsLegal(text: string)
    requires Parse(text).Ok?
    ensures LegalKind(Parse(text).value.kind) && Parse(text).value.horizon > 0
  {
    hide Size, Lasting, Numeral, Cut, Strip, LegalKind;
    var p := Cut(Strip(text)).value;
    Multiple(Numeral(p.digits), UnitOf(p.suffix).value);
  }

  /* -------- the two together -------- */

  /** Declaring a legal rule and parsing it back loses nothing. */
  lemma DeclareParses(r: Rule)
    requires LegalKind(r.kind) && r.horizon > 0
    ensures Parse(Declare(r)) == Ok(r)
  {
    hide Size, Lasting, Numeral, Parse;
    var u := UnitFrom(r.horizon, 0);
    var count := r.horizon / Size(u);
    PrintedUnitIsLargest(r.horizon);
    DecimalReadsBack(count);
    SpellingHasNoMargin(r.kind, Decimal(count), u);
    ParseSpelled(Declare(r), r.kind, Decimal(count), u);
    Measures(r.horizon, u);
  }

  lemma Measures(horizon: nat, u: Unit)
    requires horizon > 0 && Exact(horizon, u)
    ensures horizon / Size(u) > 0 && Lasting(horizon / Size(u), u) == horizon
  {
    hide Size;
    assert horizon == horizon / Size(u) * Size(u) + horizon % Size(u);
  }

  // parse, then declare.
  function Redeclare(text: string): string
    requires Parse(text).Ok?
  {
    Declare(Parse(text).value)
  }

  /** Re-declaring keeps the rule, so doing it twice changes nothing more. */
  lemma RedeclareIsIdempotent(text: string)
    requires Parse(text).Ok?
    ensures Parse(Redeclare(text)) == Parse(text)
    ensures Redeclare(Redeclare(text)) == Redeclare(text)
  {
    ParsedIsLegal(text);
    DeclareParses(Parse(text).value);
  }

  /** Two texts denote one rule exactly when they re-declare to one string. */
  lemma SameRuleSameDeclaration(a: string, b: string)
    requires Parse(a).Ok? && Parse(b).Ok?
    ensures Parse(a) == Parse(b) <==> Redeclare(a) == Redeclare(b)
  {
    RedeclareIsIdempotent(a);
    RedeclareIsIdempotent(b);
  }

  /** A text comes back unchanged exactly when it has no margin, its count has no leading zero
      and its unit is the largest that measures the horizon exactly. */
  lemma TextSurvivesExactly(text: string, kind: string, digits: string, u: Unit)
    requires Spells(Strip(text), kind, digits, u) && Numeral(digits) > 0
    ensures Parse(text).Ok?
    ensures Redeclare(text) == text <==>
              text == Strip(text) && digits[0] != '0' && LargestExact(Lasting(Numeral(digits), u), u)
  {
    hide Size, Lasting, Numeral, Parse, LargestExact, UnitFrom, Strip, LegalKind;
    ParseSpelled(text, kind, digits, u);
    Multiple(Numeral(digits), u);
    var horizon := Lasting(Numeral(digits), u);
    var v := UnitFrom(horizon, 0);
    var count := horizon / Size(v);
    PrintedUnitIsLargest(horizon);
    SpellingHasNoMargin(kind, Decimal(count), v);
    if Redeclare(text) == text {
      OneSpelling(kind, digits, u, kind, Decimal(count), v);
      CanonicalNumeral(digits);
    }
    if digits[0] != '0' && u == v {
      CanonicalNumeral(digits);
    }
  }

  lemma OneSpelling(k1: string, d1: string, u1: Unit, k2: string, d2: string, u2: Unit)
    requires Spells(Text(k1, d1, u1), k1, d1, u1) && Spells(Text(k2, d2, u2), k2, d2, u2)
    requires Text(k1, d1, u1) == Text(k2, d2, u2)
    ensures k1 == k2 && d1 == d2 && u1 == u2
  {
    var r1, r2 := d1 + Suffix(u1), d2 + Suffix(u2);
    KindHasNoAt(k1);
    KindHasNoAt(k2);
    assert Text(k1, d1, u1) == k1 + (['@'] + r1) && Text(k2, d2, u2) == k2 + (['@'] + r2);
    CutsOnce(k1, ['@'] + r1, k2, ['@'] + r2, NotAt);
    assert r1 == (['@'] + r1)[1..] && r2 == (['@'] + r2)[1..];
    CutsOnce(d1, Suffix(u1), d2, Suffix(u2), IsDigit);
    SuffixesDiffer(u1, u2);
  }

  /** The text is canonicalised, not kept: thirty days come back as one month. */
  lemma ThirtyDaysBecomeOneMonth()
    ensures Parse("k@30d") == Ok(Rule("k", 2592000))
    ensures Redeclare("k@30d") == "k@1mo"
  {
    hide Size, Lasting, Numeral, Parse, UnitFrom, LargestExact;
    assert "k@30d" == Text("k", "30", Days);
    assert LegalKind("k") && AllDigits("30");
    SpellingHasNoMargin("k", "30", Days);
    ParseSpelled("k@30d", "k", "30", Days);
    assert Numeral("30") == 30 && Decimal(1) == "1" by {
      ThirtyAndOne();
    }
    assert Lasting(30, Days) == 2592000 && Size(Months) == 2592000 && LargestExact(2592000, Months) by {
      MonthMeasures();
    }
    PrintedUnitIsLargest(2592000);
  }

  lemma ThirtyAndOne()
    ensures Numeral("30") == 30 && Decimal(1) == "1"
  {
    assert "30"[..1] == "3" && "3"[..0] == "";
    assert Numeral("3") == 3;
  }

  lemma MonthMeasures()
    ensures Lasting(30, Days) == 2592000 && Size(Months) == 2592000 && LargestExact(2592000, Months)
  {
  }
}
