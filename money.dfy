/**
 * The normaliser: turning raw workbook cells into numbers or "unknown", and
 * ticker text into the join key used everywhere else.
 */
module Money {
  import opened Wrappers

  /** A raw cell of the holdings workbook: blank (Python None or a pandas NaN), text, or a number. */
  datatype Cell = Blank | Text(text: string) | Number(number: real)

  /** Characters that Python's `str.strip()` removes (the characters `str.isspace()` accepts). */
  predicate IsSpace(c: char) {
    c == ' ' || c == '\t' || c == '\n' || c == '\r' || c == '\U{000B}' || c == '\U{000C}'
    || ('\U{001C}' <= c <= '\U{001F}') || c == '\U{0085}' || c == '\U{00A0}' || c == '\U{1680}'
    || ('\U{2000}' <= c <= '\U{200A}') || c == '\U{2028}' || c == '\U{2029}' || c == '\U{202F}'
    || c == '\U{205F}' || c == '\U{3000}'
  }

  predicate AllSpace(s: string) {
    forall i :: 0 <= i < |s| ==> IsSpace(s[i])
  }

  /** The two marks `parse_money` deletes before converting: the dollar sign and the thousands separator. */
  predicate IsCurrencyMark(c: char) {
    c == '$' || c == ','
  }

  /** `value.replace("$", "").replace(",", "")` */
  function RemoveMarks(s: string): (r: string)
    ensures |r| <= |s|
    ensures forall i :: 0 <= i < |r| ==> !IsCurrencyMark(r[i])
  {
    if s == [] then [] else (if IsCurrencyMark(s[0]) then [] else [s[0]]) + RemoveMarks(s[1..])
  }

  lemma {:induction false} RemoveMarksAppend(a: string, b: string)
    ensures RemoveMarks(a + b) == RemoveMarks(a) + RemoveMarks(b)
  {
    if a == [] {
      assert a + b == b;
    } else {
      assert (a + b)[1..] == a[1..] + b;
      RemoveMarksAppend(a[1..], b);
    }
  }

  /** The number of whitespace characters `s` starts with. */
  function LeadingSpace(s: string): (n: nat)
    ensures n <= |s| && AllSpace(s[..n])
    ensures n < |s| ==> !IsSpace(s[n])
  {
    if s != [] && IsSpace(s[0]) then
      var n := 1 + LeadingSpace(s[1..]);
      assert s[..n] == [s[0]] + s[1..][..n - 1];
      n
    else 0
  }

  /** The length of `s` once its trailing whitespace is dropped. */
  function TrailingStart(s: string): (m: nat)
    ensures m <= |s| && AllSpace(s[m..])
    ensures m > 0 ==> !IsSpace(s[m - 1])
  {
    if s != [] && IsSpace(s[|s| - 1]) then
      var m := TrailingStart(s[..|s| - 1]);
      assert s[m..] == s[..|s| - 1][m..] + [s[|s| - 1]];
      m
    else |s|
  }

  /**
   * `str.strip()`: the result is the part of `s` between a whitespace prefix and a
   * whitespace suffix, and neither of its ends is whitespace.
   */
  function Trim(s: string): (r: string)
    ensures var i := LeadingSpace(s);
      i + |r| <= |s| && r == s[i..i + |r|] && AllSpace(s[..i]) && AllSpace(s[i + |r|..])
    ensures r != [] ==> !IsSpace(r[0]) && !IsSpace(r[|r| - 1])
    ensures r == [] <==> AllSpace(s)
  {
    var i := LeadingSpace(s);
    var t := s[i..];
    var m := TrailingStart(t);
    var r := t[..m];
    assert s[i + m..] == t[m..];
    assert r != [] ==> r[0] == s[i];
    assert r == [] ==> AllSpace(s) by {
      if r == [] {
        assert s == s[..i] + t;
        AllSpaceAppend(s[..i], t);
      }
    }
    r
  }

  lemma AllSpaceAppend(a: string, b: string)
    requires AllSpace(a) && AllSpace(b)
    ensures AllSpace(a + b)
  {
  }

  /** A string with whitespace ends is trimmed to its core, whatever whitespace pads it. */
  lemma TrimUnique(w1: string, r: string, w2: string)
    requires AllSpace(w1) && AllSpace(w2)
    requires r != [] ==> !IsSpace(r[0]) && !IsSpace(r[|r| - 1])
    ensures Trim(w1 + r + w2) == r
  {
    var s := w1 + r + w2;
    if r == [] {
      assert s == w1 + w2;
      AllSpaceAppend(w1, w2);
    } else {
      assert s == w1 + (r + w2);
      LeadingSpaceBefore(w1, r + w2);
      assert s[|w1|..] == r + w2;
      TrailingStartAfter(r, w2);
    }
  }

  lemma {:induction false} LeadingSpaceBefore(w: string, x: string)
    requires AllSpace(w) && x != [] && !IsSpace(x[0])
    ensures LeadingSpace(w + x) == |w|
  {
    if w == [] {
      assert w + x == x;
    } else {
      assert (w + x)[1..] == w[1..] + x;
      LeadingSpaceBefore(w[1..], x);
    }
  }

  lemma {:induction false} TrailingStartAfter(x: string, w: string)
    requires AllSpace(w) && x != [] && !IsSpace(x[|x| - 1])
    ensures TrailingStart(x + w) == |x|
  {
    if w == [] {
      assert x + w == x;
    } else {
      assert (x + w)[..|x + w| - 1] == x + w[..|w| - 1];
      TrailingStartAfter(x, w[..|w| - 1]);
    }
  }

  /** Padding a string with whitespace on either side does not change what it trims to. */
  lemma TrimPadding(w1: string, s: string, w2: string)
    requires AllSpace(w1) && AllSpace(w2)
    ensures Trim(w1 + s + w2) == Trim(s)
  {
    var r := Trim(s);
    var a, b := TrimParts(s);
    AllSpaceAppend(w1, a);
    AllSpaceAppend(b, w2);
    Regroup(w1, a, r, b, w2);
    TrimUnique(w1 + a, r, b + w2);
  }

  /** A string is its trim between the whitespace `strip()` removes. */
  lemma TrimParts(s: string) returns (a: string, b: string)
    ensures s == a + Trim(s) + b && AllSpace(a) && AllSpace(b)
  {
    var i := LeadingSpace(s);
    var r := Trim(s);
    a, b := s[..i], s[i + |r|..];
    assert s == s[..i] + s[i..i + |r|] + s[i + |r|..];
  }

  lemma Regroup(x: string, y: string, z: string, u: string, v: string)
    ensures x + (y + z + u) + v == (x + y) + z + (u + v)
  {
  }

  // ---------------------------------------------------------------------------
  // Decimal numerals: the part of Python's float() grammar that the workbook uses

  predicate IsDigit(c: char) {
    '0' <= c <= '9'
  }

  predicate AllDigits(s: string) {
    forall i :: 0 <= i < |s| ==> IsDigit(s[i])
  }

  /** The value of a run of decimal digits, most significant first. */
  function DigitsValue(ds: string): nat
    requires AllDigits(ds)
  {
    if ds == [] then 0 else DigitsValue(ds[..|ds| - 1]) * 10 + (ds[|ds| - 1] as int - '0' as int)
  }

  function Pow10(n: nat): (p: nat)
    ensures p >= 1
  {
    if n == 0 then 1 else 10 * Pow10(n - 1)
  }

  /** The position of the first `c` in `s`, or `|s|` when there is none. */
  function IndexOf(s: string, c: char): (k: nat)
    ensures k <= |s| && c !in s[..k]
    ensures k < |s| ==> s[k] == c
  {
    if s == [] then 0
    else if s[0] == c then 0
    else
      var k := 1 + IndexOf(s[1..], c);
      assert s[..k] == [s[0]] + s[1..][..k - 1];
      k
  }

  datatype Sign = Unsigned | Plus | Minus

  /**
   * The lexical form of a decimal numeral: an optional sign, the digits before the
   * point, whether there is a point, and the digits after it.
   */
  datatype Decimal = Decimal(sign: Sign, whole: string, point: bool, fraction: string) {

    /** At least one digit overall, and a fraction only after a point (so "." alone is not a numeral). */
    predicate Valid() {
      AllDigits(whole) && AllDigits(fraction) && |whole| + |fraction| > 0 && (!point ==> fraction == [])
    }

    function Value(): real
      requires Valid()
    {
      var magnitude := DigitsValue(whole) as real + DigitsValue(fraction) as real / Pow10(|fraction|) as real;
      if sign == Minus then -magnitude else magnitude
    }

    /** The text of the numeral. */
    function Render(): string {
      SignText(sign) + Body()
    }

    /** The text after the sign. */
    function Body(): string {
      whole + (if point then "." else "") + fraction
    }
  }

  function SignText(sign: Sign): string {
    match sign
    case Unsigned => ""
    case Plus => "+"
    case Minus => "-"
  }

  /** Reads `s` as a decimal numeral, or gives None when it is not one; what it reads is exactly the numeral's text. */
  function Lex(s: string): (r: Option<Decimal>)
    ensures r.Some? ==> r.value.Valid() && r.value.Render() == s
  {
    if s != [] && s[0] == '+' then
      assert s == "+" + s[1..];
      LexBody(Plus, s[1..])
    else if s != [] && s[0] == '-' then
      assert s == "-" + s[1..];
      LexBody(Minus, s[1..])
    else LexBody(Unsigned, s)
  }

  /** Reads the part of a numeral after its sign. */
  function LexBody(sign: Sign, rest: string): (r: Option<Decimal>)
    ensures r.Some? ==> r.value.Valid() && r.value.sign == sign && r.value.Body() == rest
  {
    var k := IndexOf(rest, '.');
    var point := k < |rest|;
    var d := Decimal(sign, rest[..k], point, if point then rest[k + 1..] else []);
    if d.Valid() then
      assert d.Body() == rest by {
        if point { assert rest == rest[..k] + "." + rest[k + 1..]; } else { assert rest == rest[..k]; }
      }
      Some(d)
    else None
  }

  /** Every numeral is read back as itself. */
  lemma LexRender(d: Decimal)
    requires d.Valid()
    ensures Lex(d.Render()) == Some(d)
  {
    LexBodyRender(d);
    var body := d.Body();
    assert body != [] && (IsDigit(body[0]) || body[0] == '.') by {
      if d.whole != [] {
        assert body[0] == d.whole[0];
      }
    }
    if d.sign == Unsigned {
      assert d.Render() == body;
    } else {
      assert d.Render()[1..] == body;
    }
  }

  lemma LexBodyRender(d: Decimal)
    requires d.Valid()
    ensures LexBody(d.sign, d.Body()) == Some(d)
  {
    assert forall j :: 0 <= j < |d.whole| ==> d.whole[j] != '.';
    var tail := if d.point then "." + d.fraction else d.fraction;
    assert d.Body() == d.whole + tail;
    assert !d.point ==> tail == [];
    IndexOfPrefix(d.whole, tail);
    assert d.Body()[..|d.whole|] == d.whole;
    assert d.point ==> d.Body()[|d.whole| + 1..] == d.fraction;
  }

  lemma {:induction false} IndexOfPrefix(a: string, b: string)
    requires '.' !in a
    requires b == [] || b[0] == '.'
    ensures IndexOf(a + b, '.') == |a|
  {
    if a == [] {
      assert a + b == b;
    } else {
      assert (a + b)[1..] == a[1..] + b;
      IndexOfPrefix(a[1..], b);
    }
  }

  /** Text that starts with anything but a sign, a digit or the point is not a numeral. */
  lemma LexRejectsStart(s: string)
    requires s != [] && !IsDigit(s[0]) && s[0] !in ".+-"
    ensures Lex(s) == None
  {
    var k := IndexOf(s, '.');
    assert k > 0;
    assert s[..k][0] == s[0];
  }

  /** `float(clean)` restricted to decimal numerals; None stands for the ValueError. */
  function ParseDecimal(s: string): (r: Option<real>)
    ensures r.Some? <==> Lex(s).Some?
    ensures r.Some? ==> r.value == Lex(s).value.Value()
  {
    match Lex(s)
    case Some(d) => Some(d.Value())
    case None => None
  }

  // ---------------------------------------------------------------------------
  // Cell coercions

  /**
   * `parse_money`: text loses every `$` and `,`, is stripped, and is read as a number;
   * blank text, text that is not a numeral and a blank cell are unknown; a number is kept.
   */
  function ParseMoney(c: Cell): (r: Option<real>)
    ensures c.Blank? ==> r == None
    ensures c.Number? ==> r == Some(c.number)
    ensures c.Text? ==> r == ParseDecimal(Trim(RemoveMarks(c.text)))
    ensures c.Text? && AllSpace(RemoveMarks(c.text)) ==> r == None
  {
    match c
    case Text(t) =>
      var clean := Trim(RemoveMarks(t));
      if clean == [] then None else ParseDecimal(clean)
    case Blank => None
    case Number(x) => Some(x)
  }

  /** A `$` or `,` anywhere in the text does not change the parsed amount. */
  lemma ParseMoneyIgnoresMark(a: string, m: char, b: string)
    requires IsCurrencyMark(m)
    ensures ParseMoney(Text(a + [m] + b)) == ParseMoney(Text(a + b))
  {
    assert RemoveMarks(a + [m] + b) == RemoveMarks(a + b) by {
      RemoveMarksAppend(a + [m], b);
      RemoveMarksAppend(a, [m]);
      RemoveMarksAppend(a, b);
      assert RemoveMarks([m]) == [];
    }
    SameCleanText(a + [m] + b, a + b);
  }

  /** `parse_money` sees text only through what is left once the marks are removed. */
  lemma SameCleanText(x: string, y: string)
    requires RemoveMarks(x) == RemoveMarks(y)
    ensures ParseMoney(Text(x)) == ParseMoney(Text(y))
  {
  }

  lemma {:induction false} RemoveMarksUnmarked(s: string)
    requires forall i :: 0 <= i < |s| ==> !IsCurrencyMark(s[i])
    ensures RemoveMarks(s) == s
  {
    if s != [] {
      RemoveMarksUnmarked(s[1..]);
    }
  }

  /** Whitespace around the text does not change the parsed amount. */
  lemma ParseMoneyIgnoresPadding(w1: string, s: string, w2: string)
    requires AllSpace(w1) && AllSpace(w2)
    ensures ParseMoney(Text(w1 + s + w2)) == ParseMoney(Text(s))
  {
    var c := RemoveMarks(s);
    assert RemoveMarks(w1 + s + w2) == w1 + c + w2 by {
      RemoveMarksAppend(w1 + s, w2);
      RemoveMarksAppend(w1, s);
      RemoveMarksUnmarked(w1);
      RemoveMarksUnmarked(w2);
    }
    TrimPadding(w1, c, w2);
  }

  /** The text of any decimal numeral parses to that numeral's value. */
  lemma ParseMoneyNumeral(d: Decimal)
    requires d.Valid()
    ensures ParseMoney(Text(d.Render())) == Some(d.Value())
  {
    var s := d.Render();
    LexRender(d);
    RenderedChars(d);
    RemoveMarksUnmarked(s);
    TrimBare(s);
  }

  /** Text that is not empty and neither starts nor ends with whitespace is its own trim. */
  lemma TrimBare(s: string)
    requires s != [] && !IsSpace(s[0]) && !IsSpace(s[|s| - 1])
    ensures Trim(s) == s
  {
    TrimUnique([], s, []);
    assert [] + s + [] == s;
  }

  /** A numeral's text holds digits, one point and a sign only, and ends in a digit or the point. */
  lemma RenderedChars(d: Decimal)
    requires d.Valid()
    ensures d.Render() != []
    ensures forall i :: 0 <= i < |d.Render()| ==> !IsCurrencyMark(d.Render()[i]) && !IsSpace(d.Render()[i])
  {
    var s := d.Render();
    var t := SignText(d.sign);
    var p: string := if d.point then "." else "";
    assert s == t + d.whole + p + d.fraction;
    forall i | 0 <= i < |s| ensures !IsCurrencyMark(s[i]) && !IsSpace(s[i]) {
      if i < |t| {
        assert s[i] == t[i];
      } else if i < |t| + |d.whole| {
        assert s[i] == d.whole[i - |t|];
      } else if i < |t| + |d.whole| + |p| {
        assert s[i] == p[i - |t| - |d.whole|];
      } else {
        assert s[i] == d.fraction[i - |t| - |d.whole| - |p|];
      }
    }
  }

  /** A formatted amount loses its dollar sign and thousands separator: "$1,234.56" is 1234.56. */
  lemma ParseMoneyAmount(dollars: string)
    requires dollars == "$1,234.56"
    ensures ParseMoney(Text(dollars)) == Some(1234.56)
  {
    var d := Decimal(Unsigned, "1234", true, "56");
    AmountNumeral(d);
    ParseMoneyNumeral(d);
    var a, b := "1,234.56", "234.56";
    AmountText(dollars, a, b, d.Render());
    ParseMoneyIgnoresMark([], '$', a);
    ParseMoneyIgnoresMark("1", ',', b);
  }

  /** Text made only of marks and whitespace, and a word, are unknown rather than zero. */
  lemma ParseMoneyUnknownText(bare: string, word: string)
    requires bare == " $ " && word == "n/a"
    ensures ParseMoney(Text(bare)) == None
    ensures ParseMoney(Text(word)) == None
  {
    BareText(bare);
    WordText(word);
    RemoveMarksUnmarked(word);
    TrimBare(word);
    LexRejectsStart(word);
  }

  // AmountText, DollarSplit, CommaSplit and DigitJoin only split the worked amount of
  // ParseMoneyAmount into its pieces, one small step each, so that its proof stays small.
  lemma AmountText(s: string, a: string, b: string, c: string)
    requires s == "$1,234.56" && a == "1,234.56" && b == "234.56" && c == "1234.56"
    ensures s == [] + ['$'] + a && a == "1" + [','] + b && "1" + b == c && [] + a == a
  {
    DollarSplit(s, a);
    CommaSplit(a, b);
    DigitJoin(b, c);
  }

  lemma DollarSplit(s: string, a: string)
    requires s == "$1,234.56" && a == "1,234.56"
    ensures s == [] + ['$'] + a && [] + a == a
  {
    assert s[1..] == a;
  }

  lemma CommaSplit(a: string, b: string)
    requires a == "1,234.56" && b == "234.56"
    ensures a == "1" + [','] + b
  {
    assert a[2..] == b;
  }

  lemma DigitJoin(b: string, c: string)
    requires b == "234.56" && c == "1234.56"
    ensures "1" + b == c
  {
    assert c[1..] == b;
  }

  lemma AmountNumeral(d: Decimal)
    requires d == Decimal(Unsigned, "1234", true, "56")
    ensures d.Valid() && d.Render() == "1234.56" && d.Value() == 1234.56
  {
    assert DigitsValue("1") == 1 by { assert "1"[..0] == ""; }
    assert DigitsValue("12") == 12 by { assert "12"[..1] == "1"; }
    assert DigitsValue("123") == 123 by { assert "123"[..2] == "12"; }
    assert DigitsValue(d.whole) == 1234 by { assert "1234"[..3] == "123"; }
    assert DigitsValue("5") == 5 by { assert "5"[..0] == ""; }
    assert DigitsValue(d.fraction) == 56 by { assert "56"[..1] == "5"; }
    assert Pow10(2) == 100;
  }

  lemma BareText(s: string)
    requires s == " $ "
    ensures AllSpace(RemoveMarks(s))
  {
    assert RemoveMarks(s) == [' '] + RemoveMarks(s[1..]);
    assert s[1..] == "$ ";
    assert RemoveMarks(s[1..]) == RemoveMarks(s[2..]);
    assert s[2..] == " ";
  }

  lemma WordText(s: string)
    requires s == "n/a"
    ensures s != [] && !IsSpace(s[0]) && !IsSpace(s[|s| - 1]) && !IsDigit(s[0])
    ensures forall i :: 0 <= i < |s| ==> !IsCurrencyMark(s[i]) && s[i] != '.' && s[i] != '+' && s[i] != '-'
  {
  }

  /**
   * `pd.to_numeric(..., errors="coerce")`: numbers are kept, text is read as a numeral
   * as it stands (no `$`/`,` removal, no stripping), anything else is unknown.
   */
  function ToNumeric(c: Cell): (r: Option<real>)
    ensures c.Blank? ==> r == None
    ensures c.Number? ==> r == Some(c.number)
    ensures c.Text? ==> (r.Some? <==> Lex(c.text).Some?)
    ensures c.Text? && r.Some? ==> r.value == Lex(c.text).value.Value()
  {
    match c
    case Text(t) => ParseDecimal(t)
    case Blank => None
    case Number(x) => Some(x)
  }

  /** Currency text in a column coerced by `to_numeric` is unknown, where `parse_money` reads it. */
  lemma CurrencyTextIsNotNumeric(s: string)
    requires s == "$90"
    ensures ToNumeric(Text(s)) == None
    ensures ParseMoney(Text(s)) == Some(90.0)
  {
    NinetyText(s);
    LexRejectsStart(s);
    var d := Decimal(Unsigned, "90", false, "");
    NinetyNumeral(d);
    ParseMoneyNumeral(d);
    ParseMoneyIgnoresMark([], '$', d.Render());
  }

  lemma NinetyText(s: string)
    requires s == "$90"
    ensures s[0] == '$' && forall i :: 0 <= i < |s| ==> s[i] != '.'
    ensures s == [] + ['$'] + "90" && [] + "90" == "90"
  {
  }

  lemma NinetyNumeral(d: Decimal)
    requires d == Decimal(Unsigned, "90", false, "")
    ensures d.Valid() && d.Render() == "90" && d.Value() == 90.0
  {
    assert DigitsValue(d.whole) == 90 by {
      assert "90"[..1] == "9" && "9"[..0] == "";
    }
  }

  // ---------------------------------------------------------------------------
  // Ticker symbols

  function UpperChar(c: char): char {
    if 'a' <= c <= 'z' then (c as int - 'a' as int + 'A' as int) as char else c
  }

  /** `str.upper()` on ASCII letters; every other character is kept. */
  function Upper(s: string): (r: string)
    ensures |r| == |s|
    ensures forall i :: 0 <= i < |s| ==> r[i] == UpperChar(s[i])
  {
    if s == [] then [] else [UpperChar(s[0])] + Upper(s[1..])
  }

  /** `symbol.strip().upper()`: the join key between holdings and quotes. */
  function Normalize(symbol: string): (r: string)
    ensures |r| == |Trim(symbol)|
    ensures r == [] <==> AllSpace(symbol)
  {
    Upper(Trim(symbol))
  }

  /**
   * A normalised symbol is the trimmed text upper-cased: as long as the trimmed text,
   * without lower-case ASCII letters, without surrounding whitespace, and empty exactly
   * when the text was all whitespace.
   */
  lemma NormalizeForm(symbol: string)
    ensures var r := Normalize(symbol);
      && |r| == |Trim(symbol)|
      && (forall i :: 0 <= i < |r| ==> !('a' <= r[i] <= 'z'))
      && (r != [] ==> !IsSpace(r[0]) && !IsSpace(r[|r| - 1]))
      && (r == [] <==> AllSpace(symbol))
  {
  }

  /** Normalising a normalised symbol changes nothing (so the quote loop's own clean-up is a no-op on it). */
  lemma NormalizeIdempotent(symbol: string)
    ensures Normalize(Normalize(symbol)) == Normalize(symbol)
  {
    var r := Normalize(symbol);
    NormalizeForm(symbol);
    if r != [] {
      TrimBare(r);
    }
    assert Trim(r) == r;
    assert forall i :: 0 <= i < |r| ==> UpperChar(r[i]) == r[i];
    assert Upper(r) == r;
  }
}
