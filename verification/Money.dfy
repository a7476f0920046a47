/** Printing amounts, and reading them as typed. */
module Money {
  import opened Amounts
  import opened Text

  // ------------------------------------------------------------------ numbers as text

  function Pow10(d: nat): (p: nat)
    ensures p > 0
  {
    if d == 0 then 1 else 10 * Pow10(d - 1)
  }

  function DigitChar(k: int): char
    requires 0 <= k < 10
  {
    "0123456789"[k]
  }

  predicate IsDigit(c: char) {
    '0' <= c <= '9'
  }

  function DigitValue(c: char): int
    requires IsDigit(c)
  {
    c as int - '0' as int
  }

  predicate AllDigits(s: string) {
    forall i :: 0 <= i < |s| ==> IsDigit(s[i])
  }

  /** A whole number in decimal digits, without leading zeros. */
  function Digits(n: nat): string {
    if n < 10 then [DigitChar(n)] else Digits(n / 10) + [DigitChar(n % 10)]
  }

  /** The number a run of digits stands for. */
  function Value(s: string): int
    requires AllDigits(s)
  {
    if s == "" then 0 else 10 * Value(s[..|s| - 1]) + DigitValue(s[|s| - 1])
  }

  /** The digits of `n` filled up with zeros on the left. */
  function Padded(n: nat, width: nat): string {
    if |Digits(n)| >= width then Digits(n) else Zeros(width - |Digits(n)|) + Digits(n)
  }

  function Zeros(k: nat): string {
    if k == 0 then "" else Zeros(k - 1) + "0"
  }

  /** Digits with a comma before every third one from the right. */
  function Grouped(n: nat): string {
    if n < 1000 then Digits(n) else Grouped(n / 1000) + "," + Padded(n % 1000, 3)
  }

  // ------------------------------------------------------------------ decimal numbers

  /** A decimal number: the coefficient over ten to the number of decimals. */
  datatype Decimal = Decimal(coefficient: int, decimals: nat)

  function Real(x: Decimal): real {
    x.coefficient as real / Pow10(x.decimals) as real
  }

  datatype Printed = Printed(text: string) | TooLong

  /** The number in units of its last decimal place. */
  function InUnits(x: real, d: nat): real {
    x * Pow10(d) as real
  }

  /** Rounding half up to `d` decimals; refused when that takes more than 28 digits. */
  function Quantize(x: real, d: nat): (r: Result)
    ensures r.Number? ==> r.value.decimals == d
  {
    var k := NearestAway(InUnits(x, d));
    if k < Pow10(28) && -k < Pow10(28) then Number(Decimal(k, d)) else Invalid
  }

  /** What reading a number comes to: nothing entered, not a number, or the number. */
  datatype Result = Missing | Invalid | Number(value: Decimal)

  // ------------------------------------------------------------------ printing

  function Whole(k: nat, unit: nat): nat
    requires unit > 0
  {
    k / unit
  }

  function Rest(k: nat, unit: nat): nat
    requires unit > 0
  {
    k % unit
  }

  function Body(k: nat, d: nat): string {
    Grouped(Whole(k, Pow10(d))) + if d > 0 then "." + Padded(Rest(k, Pow10(d)), d) else ""
  }

  const MINUS := '\U{2212}'

  function FormatAmount(x: real, d: nat, withSign: bool): Printed {
    match Quantize(x, d)
    case Number(v) =>
      var k := if v.coefficient < 0 then -v.coefficient else v.coefficient;
      var body := Body(k, d);
      if v.coefficient < 0 then Printed((if withSign then "-" else [MINUS]) + body)
      else if withSign && Whole(k, Pow10(d)) != 0 then Printed("+" + body)
      else Printed(body)
    case _ => TooLong
  }

  // ------------------------------------------------------------------ reading

  /** Persian and Arabic digits as Latin ones. */
  function Latin(c: char): char {
    if '\U{6f0}' <= c <= '\U{6f9}' then DigitChar(c as int - 0x6f0)
    else if '\U{660}' <= c <= '\U{669}' then DigitChar(c as int - 0x660)
    else c
  }

  function Persian(c: char): char {
    if IsDigit(c) then (0x6f0 + DigitValue(c)) as char else c
  }

  function Mapped(s: string, f: char -> char): string {
    seq(|s|, i requires 0 <= i < |s| => f(s[i]))
  }

  function NormalizeDigits(s: string): string {
    Mapped(s, Latin)
  }

  function PersianDigits(s: string): string {
    Mapped(s, Persian)
  }

  /** The Persian decimal sign becomes a dot and the Persian comma a comma; spaces and joiners go. */
  function Clean(s: string): string {
    if s == "" then ""
    else
      var c := s[|s| - 1];
      Clean(s[..|s| - 1]) +
      if c == '\U{66b}' then "." else if c == '\U{60c}' then "," else if c == ' ' || c == '\U{200c}' then "" else [c]
  }

  function StripSigns(s: string): string {
    if s != "" && (s[0] == '+' || s[0] == '-') then StripSigns(s[1..]) else s
  }

  /** The rule for dots: several separate thousands; a single one does too when three digits follow it and
      a whole part that does not start with zero precedes it; otherwise it is the decimal point. */
  function ResolveDots(s: string): string {
    var n := Count(s, '.');
    if n > 1 then Without(s, '.')
    else if n == 1 then
      var i := Find(s, '.');
      if i < |s| && |s| - i - 1 == 3 && i > 0 && s[0] != '0' then s[..i] + s[i + 1..] else s
    else s
  }

  /** A run of digits with at most one dot, as a number. */
  function Exactly(s: string): Result {
    var digits := Without(s, '.');
    if s == "" || digits == "" || !AllDigits(digits) || Count(s, '.') > 1 then Invalid
    else Number(Decimal(Value(digits), if Find(s, '.') < |s| then |s| - Find(s, '.') - 1 else 0))
  }

  function Negated(r: Result): Result {
    match r
    case Number(v) => Number(Decimal(-v.coefficient, v.decimals))
    case _ => r
  }

  function ParseAmount(text: string): Result {
    var t := Clean(Strip(NormalizeDigits(text)));
    if t == "" then Missing
    else
      var r := Exactly(ResolveDots(Without(StripSigns(t), ',')));
      if t[0] == '-' then Negated(r) else r
  }

  // ------------------------------------------------------------------ digits

  lemma {:induction false} DigitsSound(n: nat)
    ensures Digits(n) != "" && AllDigits(Digits(n)) && Value(Digits(n)) == n
    ensures n > 0 ==> Digits(n)[0] != '0'
    ensures n == 0 ==> Digits(n) == "0"
  {
    DigitOk(n % 10);
    if n < 10 {
      assert Digits(n)[..0] == "";
    } else {
      hide DigitChar, DigitValue;
      DigitsSound(n / 10);
      assert Digits(n)[..|Digits(n)| - 1] == Digits(n / 10);
      assert n == 10 * (n / 10) + n % 10;
    }
  }

  lemma DigitOk(k: nat)
    requires k < 10
    ensures IsDigit(DigitChar(k)) && DigitValue(DigitChar(k)) == k && (DigitChar(k) == '0' <==> k == 0)
  {
  }

  lemma {:induction false} ValueJoin(a: string, b: string)
    requires AllDigits(a) && AllDigits(b)
    ensures AllDigits(a + b) && Value(a + b) == Value(a) * Pow10(|b|) + Value(b)
  {
    if b == "" {
      assert a + b == a;
    } else {
      var init := b[..|b| - 1];
      ValueJoin(a, init);
      assert (a + b)[..|a + b| - 1] == a + init;
      Shift(Value(a), Pow10(|init|), Value(init));
    }
  }

  lemma Shift(x: int, p: int, y: int)
    ensures 10 * (x * p + y) == x * (10 * p) + 10 * y
  {
  }

  lemma {:induction false} ZerosSound(k: nat)
    ensures |Zeros(k)| == k && AllDigits(Zeros(k)) && Value(Zeros(k)) == 0
  {
    if k == 0 {
    } else {
      ZerosSound(k - 1);
      assert Zeros(k)[..k - 1] == Zeros(k - 1);
    }
  }

  /** A number below 10^w has at most w digits. */
  lemma {:induction false} DigitsFit(n: nat, w: nat)
    requires n < Pow10(w) && w > 0
    ensures |Digits(n)| <= w
  {
    if n >= 10 {
      assert w > 1;
      DigitsFit(n / 10, w - 1);
    }
  }

  lemma PaddedSound(n: nat, w: nat)
    requires n < Pow10(w) && w > 0
    ensures |Padded(n, w)| == w && AllDigits(Padded(n, w)) && Value(Padded(n, w)) == n
  {
    hide Digits, Zeros, Pow10, Value;
    DigitsSound(n);
    DigitsFit(n, w);
    if |Digits(n)| < w {
      ZerosSound(w - |Digits(n)|);
      ValueJoin(Zeros(w - |Digits(n)|), Digits(n));
    }
  }

  // ------------------------------------------------------------------ grouping

  /** Without its commas, a grouped number is its plain digits: nothing but separators was added. */
  lemma {:induction false} GroupedSound(n: nat)
    ensures AllDigits(Without(Grouped(n), ',')) && Value(Without(Grouped(n), ',')) == n
    ensures Grouped(n) != "" && IsDigit(Grouped(n)[0]) && (Grouped(n)[0] == '0' <==> n == 0)
    ensures Without(Grouped(n), ',') != "" && (Without(Grouped(n), ',')[0] == '0' <==> n == 0)
    ensures forall i :: 0 <= i < |Grouped(n)| ==> IsDigit(Grouped(n)[i]) || Grouped(n)[i] == ','
  {
    hide Digits, Padded, Value;
    if n < 1000 {
      DigitsSound(n);
      WithoutAbsent(Grouped(n), ',');
    } else {
      var hi, lo := n / 1000, n % 1000;
      GroupedSound(hi);
      assert Pow10(3) == 1000;
      PaddedSound(lo, 3);
      var a, b := Without(Grouped(hi), ','), Padded(lo, 3);
      WithoutJoin(Grouped(hi) + ",", b, ',');
      WithoutJoin(Grouped(hi), ",", ',');
      WithoutAbsent(b, ',');
      assert Without(",", ',') == "";
      assert Without(Grouped(n), ',') == a + b;
      ValueJoin(a, b);
    }
  }

  /** The commas stand before every third digit from the right, and nowhere else. */
  lemma {:induction false} CommaPlaces(n: nat)
    ensures forall i :: 0 <= i < |Grouped(n)| ==> (Grouped(n)[|Grouped(n)| - 1 - i] == ',' <==> i % 4 == 3)
  {
    hide Digits, Padded, Value;
    if n < 1000 {
      DigitsSound(n);
      assert Pow10(3) == 1000;
      DigitsFit(n, 3);
    } else {
      var hi, b := Grouped(n / 1000), Padded(n % 1000, 3);
      CommaPlaces(n / 1000);
      assert Pow10(3) == 1000;
      PaddedSound(n % 1000, 3);
      forall i | 0 <= i < |Grouped(n)|
        ensures Grouped(n)[|Grouped(n)| - 1 - i] == ',' <==> i % 4 == 3
      {
        assert Grouped(n) == hi + "," + b;
        if i >= 4 {
          var j := i - 4;
          assert Grouped(n)[|Grouped(n)| - 1 - i] == hi[|hi| - 1 - j];
          assert hi[|hi| - 1 - j] == ',' <==> j % 4 == 3;
        } else if i < 3 {
          assert Grouped(n)[|Grouped(n)| - 1 - i] == b[2 - i] && IsDigit(b[2 - i]);
        }
      }
    }
  }

  /** What is printed: a hyphen before a negative number if the sign is asked for and a typographic minus if not, a plus
      if it is asked for and the whole part is not zero; then the whole part in groups of three; and for `d`
      decimals a dot and `d` digits. */
  lemma PrintedText(x: real, d: nat, withSign: bool)
    requires Quantize(x, d).Number?
    ensures var k := Quantize(x, d).value.coefficient;
      var size, text := Size(k), FormatAmount(x, d, withSign);
      var sign := if k < 0 && withSign then "-" else if k < 0 then [MINUS] else if withSign && size >= Pow10(d) then "+" else "";
      && text == Printed(sign + Body(size, d))
      && (d == 0 ==> Body(size, d) == Grouped(size))
      && (d > 0 ==> exists tail :: |tail| == d && AllDigits(tail) && Value(tail) == size % Pow10(d)
                                   && Body(size, d) == Grouped(size / Pow10(d)) + "." + tail)
  {
    hide Quantize, Grouped, Padded, Value, Pow10;
    var size := Size(Quantize(x, d).value.coefficient);
    QuantizeDecimals(x, d);
    Split(size, Pow10(d));
    if d == 0 {
      PowZero();
    } else {
      var tail := Padded(Rest(size, Pow10(d)), d);
      PaddedSound(Rest(size, Pow10(d)), d);
      assert Grouped(size / Pow10(d)) + ("." + tail) == Grouped(size / Pow10(d)) + "." + tail;
    }
  }

  // ------------------------------------------------------------------ reading what was printed

  /** Characters that printing can produce. */
  predicate Plain(s: string) {
    forall i :: 0 <= i < |s| ==> IsDigit(s[i]) || s[i] in {',', '.', '+', '-', MINUS}
  }

  lemma {:induction false} PlainClean(s: string)
    requires Plain(s)
    ensures Clean(s) == s
  {
    if s == "" {
    } else {
      PlainClean(s[..|s| - 1]);
    }
  }

  lemma PlainStrip(s: string)
    requires Plain(s)
    ensures Strip(s) == s && NormalizeDigits(s) == s
    ensures NormalizeDigits(PersianDigits(s)) == s
  {
    forall i | 0 <= i < |s|
      ensures Latin(s[i]) == s[i] && Latin(Persian(s[i])) == s[i]
    {
      assert IsDigit(s[i]) ==> DigitChar(DigitValue(s[i])) == s[i];
    }
  }

  lemma FindDot(a: string, b: string)
    requires AllDigits(a)
    ensures Find(a, '.') == |a|
    ensures Find(a + "." + b, '.') == |a|
  {
    var t := a + "." + b;
    assert t[|a|] == '.';
    assert forall i :: 0 <= i < |a| ==> t[i] == a[i];
    var i := Find(t, '.');
    assert i < |t| ==> t[i] == '.';
  }

  lemma NoDots(a: string)
    requires AllDigits(a)
    ensures Count(a, '.') == 0 && Without(a, '.') == a && '.' !in a && ',' !in a
  {
    CountAbsent(a, '.');
    WithoutAbsent(a, '.');
  }

  lemma OneDot(a: string, b: string)
    requires AllDigits(a) && AllDigits(b)
    ensures Count(a + "." + b, '.') == 1 && Without(a + "." + b, '.') == a + b
  {
    hide Count, Without;
    NoDots(a);
    NoDots(b);
    Dot();
    CountJoin(a + ".", b, '.');
    CountJoin(a, ".", '.');
    WithoutJoin(a + ".", b, '.');
    WithoutJoin(a, ".", '.');
    assert a + "" == a;
  }

  lemma Dot()
    ensures Count(".", '.') == 1 && Without(".", '.') == ""
  {
  }

  /** A whole part and decimals are read as typed, but for three decimals after a whole part that does not
      start with zero. */
  lemma {:induction false} ReadDecimal(a: string, b: string)
    requires AllDigits(a) && AllDigits(b) && a != ""
    ensures Exactly(ResolveDots(a)) == Number(Decimal(Value(a), 0))
    ensures AllDigits(a + b) && Exactly(ResolveDots(a + "." + b)) ==
      Number(Decimal(Value(a + b), if |b| == 3 && a[0] != '0' then 0 else |b|))
  {
    hide Value, Find, Count, Without;
    NoDots(a);
    NoDots(b);
    OneDot(a, b);
    FindDot(a, b);
    NoDots(a + b);
    FindDot(a + b, "");
    var t := a + "." + b;
    assert t[..|a|] == a && t[|a| + 1..] == b;
    assert t[0] == a[0];
  }

  lemma {:induction false} CleanKeeps(s: string, c: char)
    requires c in s && c != ' ' && c != '\U{200c}'
    ensures Clean(s) != ""
  {
    if s[|s| - 1] != c {
      assert c in s[..|s| - 1];
      CleanKeeps(s[..|s| - 1], c);
    }
  }

  lemma {:induction false} LeftKeeps(s: string, c: char)
    requires c in s && !IsSpace(c)
    ensures c in StripLeft(s)
  {
    if IsSpace(s[0]) {
      LeftKeeps(s[1..], c);
    }
  }

  lemma {:induction false} RightKeeps(s: string, c: char)
    requires c in s && !IsSpace(c)
    ensures c in StripRight(s)
  {
    if IsSpace(s[|s| - 1]) {
      RightKeeps(s[..|s| - 1], c);
    }
  }

  /** White space counts as nothing typed, and so does nothing else but spaces and joiners. */
  lemma NothingTyped(text: string)
    ensures (forall c :: c in text ==> IsSpace(c)) ==> ParseAmount(text) == Missing
    ensures ParseAmount(text) == Missing ==> forall c :: c in text ==> IsSpace(c) || c == '\U{200c}'
  {
    hide ResolveDots, Without, StripSigns, Strip, Clean, Value;
    var n := NormalizeDigits(text);
    StripEmpty(n);
    if forall c :: c in text ==> IsSpace(c) {
      forall i | 0 <= i < |n|
        ensures IsSpace(n[i])
      {
        assert text[i] in text && n[i] == Latin(text[i]);
        DigitsShow(text[i]);
      }
      PlainClean("");
    }
    if ParseAmount(text) == Missing {
      forall i | 0 <= i < |text|
        ensures IsSpace(text[i]) || text[i] == '\U{200c}'
      {
        assert n[i] in n && n[i] == Latin(text[i]);
        DigitsShow(text[i]);
        if !IsSpace(n[i]) && n[i] != '\U{200c}' {
          LeftKeeps(n, n[i]);
          RightKeeps(StripLeft(n), n[i]);
          assert n[i] in Strip(n) by { StripIs(n); }
          CleanKeeps(Strip(n), n[i]);
        }
      }
    }
  }

  lemma StripIs(s: string)
    ensures Strip(s) == StripRight(StripLeft(s))
  {
  }

  lemma DigitsShow(c: char)
    ensures IsSpace(Latin(c)) <==> IsSpace(c)
    ensures Latin(c) == '\U{200c}' ==> c == '\U{200c}'
    ensures IsSpace(' ')
  {
  }

  predicate AllSigns(s: string) {
    forall i :: 0 <= i < |s| ==> s[i] == '+' || s[i] == '-'
  }

  /** Signs may be repeated before a number; the first of them counts. */
  lemma {:induction false} RepeatedSigns(signs: string, body: string)
    requires signs != "" && AllSigns(signs) && Plain(body) && body != "" && IsDigit(body[0])
    ensures ParseAmount(signs + body) == if signs[0] == '-' then Negated(ParseAmount(body)) else ParseAmount(body)
  {
    hide Clean, Strip, Without, Exactly, ResolveDots, NormalizeDigits;
    SignsGone(signs, body);
    PlainClean(signs + body);
    PlainStrip(signs + body);
    PlainClean(body);
    PlainStrip(body);
    SignsOff(body, body);
  }

  lemma {:induction false} SignsGone(signs: string, body: string)
    requires AllSigns(signs) && body != "" && IsDigit(body[0])
    ensures StripSigns(signs + body) == body
  {
    if signs == "" {
      assert signs + body == body;
    } else {
      assert (signs + body)[1..] == signs[1..] + body;
      SignsGone(signs[1..], body);
    }
  }

  /** Without a whole part a dot is always the decimal point. */
  lemma LeadingDot(b: string)
    requires AllDigits(b) && b != ""
    ensures Exactly(ResolveDots("." + b)) == Number(Decimal(Value(b), |b|))
  {
    hide Value, Find, Count, Without;
    NoDots(b);
    OneDot("", b);
    FindDot("", b);
    assert "" + "." + b == "." + b && "" + b == b;
  }

  /** Another way of typing the same character: Persian and Arabic digits, the Persian decimal sign and comma. */
  predicate Alike(x: char, c: char) {
    || x == c
    || (IsDigit(c) && (x as int == 0x6f0 + DigitValue(c) || x as int == 0x660 + DigitValue(c)))
    || (c == '.' && x == '\U{66b}')
    || (c == ',' && x == '\U{60c}')
  }

  /** What each character becomes on its own, once the ends are stripped. */
  lemma AlikeSign(x: char, c: char)
    requires Alike(x, c) && Plain([c])
    ensures Clean([Latin(x)]) == [c] && !IsSpace(Latin(x))
  {
    assert [Latin(x)][..0] == "";
    assert IsDigit(c) ==> DigitChar(DigitValue(c)) == c;
    assert [c][0] == c;
  }

  lemma {:induction false} CleanJoin(a: string, b: string)
    ensures Clean(a + b) == Clean(a) + Clean(b)
  {
    if b == "" {
      assert a + b == a;
    } else {
      CleanJoin(a, b[..|b| - 1]);
      assert (a + b)[..|a + b| - 1] == a + b[..|b| - 1];
    }
  }

  lemma {:induction false} CleanAlike(t: string, s: string)
    requires |t| == |s| && Plain(s) && forall i :: 0 <= i < |s| ==> Alike(t[i], s[i])
    ensures Clean(NormalizeDigits(t)) == s
    ensures forall i :: 0 <= i < |t| ==> !IsSpace(NormalizeDigits(t)[i])
  {
    hide Clean, Alike, Latin, IsSpace;
    if s == "" {
      assert NormalizeDigits(t) == "";
      assert Clean("") == "" by { PlainClean(""); }
    } else {
      var n := |s| - 1;
      CleanAlike(t[..n], s[..n]);
      AlikeSign(t[n], s[n]);
      assert NormalizeDigits(t) == NormalizeDigits(t[..n]) + [Latin(t[n])];
      CleanJoin(NormalizeDigits(t[..n]), [Latin(t[n])]);
      assert s == s[..n] + [s[n]];
    }
  }

  lemma StripNothing(s: string)
    requires s != "" ==> !IsSpace(s[0]) && !IsSpace(s[|s| - 1])
    ensures Strip(s) == s
  {
  }

  /** However its characters are typed, and with a space or a joiner before, inside or after it, a number is read
      alike. */
  lemma TypedAlike(t: string, s: string, a: string, b: string)
    requires |t| == |s| && Plain(s) && forall i :: 0 <= i < |s| ==> Alike(t[i], s[i])
    requires t == a + b
    ensures ParseAmount(t) == ParseAmount(s) == ParseAmount(a + " " + b) == ParseAmount(a + "\U{200c}" + b)
  {
    hide Clean, Alike, Latin, IsSpace, Strip, Exactly, ResolveDots, Without, StripSigns;
    CleanAlike(t, s);
    PlainClean(s);
    PlainStrip(s);
    var n, x, y := NormalizeDigits(t), NormalizeDigits(a), NormalizeDigits(b);
    StripNothing(n);
    assert n == x + y;
    Blanks();
    CleanSpaced(x, y, " ");
    CleanSpaced(x, y, "\U{200c}");
    assert NormalizeDigits(a + " " + b) == x + " " + y;
    assert NormalizeDigits(a + "\U{200c}" + b) == x + "\U{200c}" + y;
    SpacedStrip(x, y);
    JoinedStrip(x, y);
  }

  lemma CleanSpaced(x: string, y: string, blank: string)
    requires Clean(blank) == ""
    ensures Clean(x + blank + y) == Clean(x + y)
  {
    hide Clean;
    CleanJoin(x, y);
    CleanJoin(x + blank, y);
    CleanJoin(x, blank);
    assert Clean(x) + "" == Clean(x);
  }

  lemma Blanks()
    ensures Clean(" ") == "" == Clean("\U{200c}") && Latin(' ') == ' ' && Latin('\U{200c}') == '\U{200c}'
    ensures !IsSpace('\U{200c}') && IsSpace(' ')
  {
    assert " "[..0] == "" && "\U{200c}"[..0] == "";
  }

  /** Stripping takes a space away at either end and leaves one inside. */
  lemma SpacedStrip(x: string, y: string)
    requires forall i :: 0 <= i < |x + y| ==> !IsSpace((x + y)[i])
    ensures Strip(x + " " + y) == if x == "" || y == "" then x + y else x + " " + y
  {
    Blanks();
    hide IsSpace;
    var s := x + " " + y;
    if x == "" {
      assert s == " " + y && s[0] == ' ' && s[1..] == y && x + y == y;
      StripNothing(y);
      assert StripLeft(s) == StripLeft(y);
    } else {
      assert s[0] == (x + y)[0];
      if y == "" {
        assert s[|s| - 1] == ' ' && s[..|s| - 1] == x && x + y == x;
        StripNothing(x);
        assert StripLeft(s) == s && StripLeft(x) == x;
        assert StripRight(s) == StripRight(x);
      } else {
        assert s[|s| - 1] == (x + y)[|x + y| - 1];
        StripNothing(s);
      }
    }
  }

  lemma JoinedStrip(x: string, y: string)
    requires forall i :: 0 <= i < |x + y| ==> !IsSpace((x + y)[i])
    ensures Strip(x + "\U{200c}" + y) == x + "\U{200c}" + y
  {
    Blanks();
    hide IsSpace;
    var u := x + "\U{200c}" + y;
    assert x != "" ==> u[0] == (x + y)[0];
    assert y != "" ==> u[|u| - 1] == (x + y)[|x + y| - 1];
    StripNothing(u);
  }

  lemma ReadBody(k: nat, d: nat)
    ensures Plain(Body(k, d)) && Body(k, d) != "" && IsDigit(Body(k, d)[0])
    ensures Exactly(ResolveDots(Without(Body(k, d), ','))) ==
      Number(Decimal(k, if d == 3 && k >= 1000 then 0 else d))
  {
    hide Value, Without, Grouped, Padded, Exactly, ResolveDots, Pow10;
    var w, r := Whole(k, Pow10(d)), Rest(k, Pow10(d));
    Split(k, Pow10(d));
    GroupedSound(w);
    var a := Without(Grouped(w), ',');
    if d == 0 {
      assert Pow10(0) == 1 by { PowZero(); }
      ReadDecimal(a, "");
      assert Body(k, d) == Grouped(w);
    } else {
      PaddedSound(r, d);
      var b := Padded(r, d);
      NoDots(b);
      WithoutJoin(Grouped(w) + ".", b, ',');
      WithoutJoin(Grouped(w), ".", ',');
      WithoutAbsent(b, ',');
      WithoutAbsent(".", ',');
      assert Body(k, d) == Grouped(w) + "." + b by {
        assert Grouped(w) + ("." + b) == Grouped(w) + "." + b;
      }
      ReadDecimal(a, b);
      ValueJoin(a, b);
      PowThree();
    }
  }

  // ------------------------------------------------------------------ dots between the thousands

  /** Digits with a dot before every third one from the right. */
  function Dotted(n: nat): string {
    if n < 1000 then Digits(n) else Dotted(n / 1000) + "." + Padded(n % 1000, 3)
  }

  /** The same digits and dots, and one dot for each full group. */
  lemma {:induction false} DottedSound(n: nat)
    ensures Without(Dotted(n), '.') != "" && AllDigits(Without(Dotted(n), '.')) && Value(Without(Dotted(n), '.')) == n
    ensures Plain(Dotted(n)) && Dotted(n) != "" && IsDigit(Dotted(n)[0]) && (n > 0 ==> Dotted(n)[0] != '0') && ',' !in Dotted(n)
    ensures Count(Dotted(n), '.') == Groups(n)
  {
    hide Value, Without, Count;
    if n < 1000 {
      DigitsSound(n);
      NoDots(Digits(n));
    } else {
      var rest, tail := Dotted(n / 1000), Padded(n % 1000, 3);
      DottedSound(n / 1000);
      PowThree();
      PaddedSound(n % 1000, 3);
      NoDots(tail);
      assert Dotted(n) == (rest + ".") + tail;
      WithoutJoin(rest + ".", tail, '.');
      WithoutJoin(rest, ".", '.');
      CountJoin(rest + ".", tail, '.');
      CountJoin(rest, ".", '.');
      Dot();
      NoDots(tail);
      assert Without(Dotted(n), '.') == Without(rest, '.') + tail;
      ValueJoin(Without(rest, '.'), tail);
      assert n == n / 1000 * 1000 + n % 1000;
    }
  }

  /** Where there are several dots they are all separators, wherever they stand. */
  lemma SeveralDots(s: string)
    requires Count(s, '.') > 1 && Without(s, '.') != "" && AllDigits(Without(s, '.'))
    ensures Exactly(ResolveDots(s)) == Number(Decimal(Value(Without(s, '.')), 0))
  {
    hide Value, Without, Count, Exactly;
    ReadDecimal(Without(s, '.'), "");
    NoDots(Without(s, '.'));
  }

  /** A number written with dots between its thousands is read as that number, however many dots there are. */
  lemma DottedIsRead(n: nat)
    ensures ParseAmount(Dotted(n)) == Number(Decimal(n, 0))
  {
    hide Value, Without, Count, Clean, Strip, NormalizeDigits, Exactly, ResolveDots, Digits, Padded;
    var s := Dotted(n);
    DottedSound(n);
    PlainClean(s);
    PlainStrip(s);
    SignsOff(s, s);
    WithoutAbsent(s, ',');
    ReadDecimal(Without(s, '.'), "");
    NoDots(Without(s, '.'));
    DotsGone(n);
  }

  lemma DotsGone(n: nat)
    ensures Exactly(ResolveDots(Dotted(n))) == Exactly(ResolveDots(Without(Dotted(n), '.')))
  {
    hide Value, Without, Count, Exactly, Digits, Padded, Dotted;
    DottedSound(n);
    var s := Dotted(n);
    var digits := Without(s, '.');
    NoDots(digits);
    assert ResolveDots(digits) == digits;
    if Groups(n) == 0 {
      CountAbsent(s, '.');
      WithoutAbsent(s, '.');
    } else if Groups(n) == 1 {
      OneGroup(n);
    } else {
      assert ResolveDots(s) == digits;
    }
  }

  lemma OneGroup(n: nat)
    requires Groups(n) == 1
    ensures ResolveDots(Dotted(n)) == Without(Dotted(n), '.')
  {
    hide Value, Without, Count, Find, Exactly, Digits, Padded;
    var a, b := Digits(n / 1000), Padded(n % 1000, 3);
    assert n / 1000 < 1000;
    assert Dotted(n / 1000) == a;
    DigitsSound(n / 1000);
    PowThree();
    PaddedSound(n % 1000, 3);
    OneDot(a, b);
    FindDot(a, b);
    var t := a + "." + b;
    assert Dotted(n) == t;
    assert t[..|a|] == a && t[|a| + 1..] == b && t[0] == a[0];
  }

  /** How many full groups of three follow the first digits. */
  function Groups(n: nat): nat {
    if n < 1000 then 0 else 1 + Groups(n / 1000)
  }

  lemma PowZero()
    ensures Pow10(0) == 1
  {
  }

  lemma PowThree()
    ensures Pow10(3) == 1000
  {
  }

  lemma Split(k: nat, p: nat)
    requires p > 0
    ensures k == Whole(k, p) * p + Rest(k, p) && Rest(k, p) < p
    ensures Whole(k, p) == 0 <==> k < p
  {
    var q := k / p;
    assert k == q * p + k % p;
    if q >= 1 {
      assert q * p == p + (q - 1) * p;
    }
  }

  /** Reading a number printed with its sign gives back the rounded number, in Latin and in Persian digits,
      exactly when it was not printed with three decimals after a whole part: then the dot is taken for
      a separator and the number comes back a thousand times too large. */
  lemma ParserUndoesPrinter(x: real, d: nat)
    requires Quantize(x, d).Number?
    ensures var v := Quantize(x, d).value;
      var text := FormatAmount(x, d, true).text;
      && ParseAmount(text) == Number(if d == 3 && Size(v.coefficient) >= 1000 then Decimal(v.coefficient, 0) else v)
      && ParseAmount(PersianDigits(text)) == ParseAmount(text)
  {
    hide Quantize, Body, Clean, Strip, Without, Exactly, ResolveDots, NormalizeDigits, PersianDigits, Pow10;
    var v := Quantize(x, d).value;
    QuantizeDecimals(x, d);
    var k: nat := Size(v.coefficient);
    var body, text := Body(k, d), FormatAmount(x, d, true).text;
    ReadBody(k, d);
    PlainClean(text);
    PlainStrip(text);
    assert text == body || text[1..] == body;
    SignsOff(text, body);
  }

  function Size(k: int): nat {
    if k < 0 then -k else k
  }

  /** Quantising moves a number by at most half a unit of the last place, and from the middle away from
      zero. */
  lemma QuantizeNearest(x: real, d: nat)
    requires Quantize(x, d).Number?
    ensures var v := Quantize(x, d).value;
      var error := v.coefficient as real - InUnits(x, d);
      && v.decimals == d && -0.5 <= error <= 0.5 && (error == -0.5 ==> x < 0.0) && (error == 0.5 ==> x >= 0.0)
      && InUnits(Real(v), d) == v.coefficient as real
  {
    hide Pow10, NearestAway;
    SameSign(x, Pow10(d) as real);
    NearestAwayClose(InUnits(x, d));
    Quotient(NearestAway(InUnits(x, d)) as real, Pow10(d) as real);
  }

  /** A quantised number has at most 28 digits, and one is refused only if it would have more. */
  lemma QuantizeFits(x: real, d: nat)
    ensures match Quantize(x, d)
      case Number(v) => |Digits(Size(v.coefficient))| <= 28
      case Invalid => Abs(InUnits(x, d)) >= Pow10(28) as real - 0.5
      case Missing => false
  {
    hide NearestAway, InUnits, Pow10, Digits;
    NearestAwayClose(InUnits(x, d));
    var k := NearestAway(InUnits(x, d));
    if Size(k) < Pow10(28) {
      DigitsFit(Size(k), 28);
    }
  }

  lemma Quotient(k: real, p: real)
    requires p > 0.0
    ensures k / p * p == k
  {
  }

  lemma NearestAwayClose(y: real)
    ensures var e := NearestAway(y) as real - y;
      -0.5 <= e <= 0.5 && (e == -0.5 ==> y < 0.0) && (e == 0.5 ==> y >= 0.0)
  {
  }

  lemma SameSign(x: real, p: real)
    requires p > 0.0
    ensures x * p >= 0.0 <==> x >= 0.0
  {
    assert x > 0.0 ==> x * p > 0.0;
    assert x < 0.0 ==> x * p < 0.0;
  }

  lemma QuantizeDecimals(x: real, d: nat)
    requires Quantize(x, d).Number?
    ensures Quantize(x, d).value.decimals == d
  {
  }

  lemma SignsOff(text: string, body: string)
    requires body != "" && IsDigit(body[0])
    requires text == body || text == "+" + body || text == "-" + body
    ensures StripSigns(text) == body
  {
    if text != body {
      assert text[1..] == body;
    }
  }

  lemma WithoutKeepsFirst(s: string, c: char)
    requires s != "" && s[0] != c
    ensures Without(s, c) != "" && Without(s, c)[0] == s[0]
  {
    assert s == [s[0]] + s[1..];
    WithoutJoin([s[0]], s[1..], c);
    WithoutAbsent([s[0]], c);
  }

  lemma ForeignSign(s: string)
    requires s != "" && s[0] == MINUS
    ensures Exactly(ResolveDots(s)) == Invalid
  {
    hide Count, Without, Value, Find;
    WithoutKeepsFirst(s, '.');
    var t := ResolveDots(s);
    assert t != "" && t[0] == MINUS;
    WithoutKeepsFirst(t, '.');
  }

  lemma MinusInvalid(body: string)
    requires Plain(body)
    ensures ParseAmount([MINUS] + body) == Invalid
  {
    hide Clean, Strip, Without, Exactly, ResolveDots, NormalizeDigits;
    var text := [MINUS] + body;
    PlainClean(text);
    PlainStrip(text);
    WithoutKeepsFirst(text, ',');
    ForeignSign(Without(text, ','));
  }

  /** Printed for display, a negative number starts with a typographic minus, which is not read back. */
  lemma DisplayedIsRead(x: real, d: nat)
    requires Quantize(x, d).Number?
    ensures var v := Quantize(x, d).value;
      var read := ParseAmount(FormatAmount(x, d, false).text);
      if v.coefficient < 0 then read == Invalid
      else read == ParseAmount(FormatAmount(x, d, true).text)
  {
    hide Quantize, Body, Clean, Strip, Without, Exactly, ResolveDots, NormalizeDigits, PersianDigits, Pow10;
    var v := Quantize(x, d).value;
    QuantizeDecimals(x, d);
    var k: nat := Size(v.coefficient);
    var body := Body(k, d);
    ReadBody(k, d);
    if v.coefficient >= 0 {
      ParserUndoesPrinter(x, d);
      PlainClean(body);
      PlainStrip(body);
      SignsOff(body, body);
    } else {
      MinusInvalid(body);
    }
  }
}
