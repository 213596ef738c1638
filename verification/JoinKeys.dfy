/** Join keys: the key of a decimal is the text of its number in lowest terms,
    worked out in 64 bits. */
module JoinKeys {
  import opened Texts

  newtype int64 = x: int | -0x8000_0000_0000_0000 <= x < 0x8000_0000_0000_0000

  datatype Option<T> = None | Some(value: T)

  const MAX_DIGITS := 18

  // --- the number a text denotes ---

  predicate Digits(s: string) {
    forall i :: 0 <= i < |s| ==> '0' <= s[i] <= '9'
  }

  /** The number its digits spell. */
  function Natural(s: string): nat
    requires Digits(s)
  {
    if s == "" then 0 else 10 * Natural(s[..|s|-1]) + (s[|s|-1] as int - '0' as int)
  }

  function Pow10(n: nat): nat {
    if n == 0 then 1 else 10 * Pow10(n - 1)
  }

  /** num over den. */
  datatype Ratio = Ratio(num: int, den: nat)

  predicate SameNumber(a: Ratio, b: Ratio) {
    a.num * b.den == b.num * a.den
  }

  predicate Signed(text: string) {
    text != "" && (text[0] == '-' || text[0] == '+')
  }

  function Unsigned(text: string): string {
    if Signed(text) then text[1..] else text
  }

  function Whole(text: string): string {
    Unsigned(text)[..Find(Unsigned(text), '.')]
  }

  function Fraction(text: string): string {
    var i := Find(Unsigned(text), '.');
    if i < |Unsigned(text)| then Unsigned(text)[i+1..] else ""
  }

  /** An optional sign, digits, an optional point and digits; 1 to 18 digits. */
  predicate Plain(text: string) {
    0 < |Whole(text) + Fraction(text)| <= MAX_DIGITS && Digits(Whole(text) + Fraction(text))
  }

  function Scaled(negative: bool, digits: string, scale: nat): Ratio
    requires Digits(digits)
  {
    var n: int := Natural(digits);
    Ratio(if negative then -n else n, Pow10(scale))
  }

  function Number(text: string): Ratio
    requires Plain(text)
  {
    Scaled(text[0] == '-', Whole(text) + Fraction(text), |Fraction(text)|)
  }

  // --- lowest terms ---

  predicate Bezout(p: int, q: int, x: int, y: int) {
    p * x + q * y == 1
  }

  /** No number but 1 divides both. */
  ghost predicate Coprime(p: int, q: int) {
    exists x, y :: Bezout(p, q, x, y)
  }

  lemma MulGrows(g: nat, d: int)
    ensures d >= 1 ==> g * d >= g
    ensures d <= -1 ==> g * d + g <= 0
  {
  }

  function Gcd(a: nat, b: nat): nat
    decreases b
  {
    if b == 0 then a else Gcd(b, a % b)
  }

  lemma DivMod(a: nat, b: nat)
    requires b > 0
    ensures a == b * (a / b) + a % b
  {
  }

  lemma {:induction false} GcdDivides(a: nat, b: nat) returns (p: nat, q: nat)
    ensures a == Gcd(a, b) * p && b == Gcd(a, b) * q
    decreases b
  {
    if b == 0 {
      p, q := 1, 0;
    } else {
      var g := Gcd(b, a % b);
      var p', q' := GcdDivides(b, a % b);
      DivMod(a, b);
      p, q := p' * (a / b) + q', p';
      assert g * p == (g * p') * (a / b) + g * q';
    }
  }

  lemma {:induction false} GcdCombines(a: nat, b: nat) returns (x: int, y: int)
    ensures a * x + b * y == Gcd(a, b)
    decreases b
  {
    if b == 0 {
      x, y := 1, 0;
    } else {
      var x', y' := GcdCombines(b, a % b);
      DivMod(a, b);
      x, y := y', x' - (a / b) * y';
      assert (b * (a / b) + a % b) * y' == b * (a / b) * y' + (a % b) * y';
      assert b * y == b * x' - b * ((a / b) * y');
    }
  }

  lemma SmallMultiple(g: nat, d: int, r: nat)
    requires r < g && g * d == r
    ensures d == 0
  {
    MulGrows(g, d);
  }

  lemma Quotient(g: nat, p: nat)
    requires g > 0
    ensures (g * p) / g == p
  {
    var n := g * p;
    DivMod(n, g);
    SmallMultiple(g, p - n / g, n % g);
  }

  /** Dividing by the greatest common divisor gives lowest terms. */
  lemma Reduced(a: nat, b: nat)
    requires b > 0
    ensures Gcd(a, b) > 0
    ensures var g := Gcd(a, b); g * (a / g) == a && g * (b / g) == b && b / g > 0 && Coprime(a / g, b / g)
  {
    var g := Gcd(a, b);
    var p, q := GcdDivides(a, b);
    var x, y := GcdCombines(a, b);
    assert g > 0 && q > 0;
    Quotient(g, p);
    Quotient(g, q);
    assert g * (p * x + q * y) == g;
    Cancel(g, p * x + q * y, 1);
    assert Bezout(p, q, x, y);
  }

  lemma Cancel(g: int, a: int, b: int)
    requires g != 0 && g * a == g * b
    ensures a == b
  {
    assert g * (a - b) == 0;
  }

  lemma DividesLeft(p: int, q: nat, p': int, q': nat) returns (k: int)
    requires Coprime(p, q) && p * q' == p' * q
    ensures q' == q * k
  {
    var x, y :| Bezout(p, q, x, y);
    k := p' * x + q' * y;
    assert q' * (p * x + q * y) == q';
    assert q' * (p * x) == (p * q') * x;
    assert q' * (q * y) == q * (q' * y);
    assert (p' * q) * x == q * (p' * x);
  }

  lemma MutualDivisors(q: nat, q': nat, k: int, k': int)
    requires q > 0 && q' > 0 && q' == q * k && q == q' * k'
    ensures q == q'
  {
    assert k > 0 && k' > 0;
    assert q * k >= q && q' * k' >= q';
  }

  /** Lowest terms are unique. */
  lemma LowestUnique(p: int, q: nat, p': int, q': nat)
    requires Coprime(p, q) && Coprime(p', q') && q > 0 && q' > 0 && p * q' == p' * q
    ensures p == p' && q == q'
  {
    var k := DividesLeft(p, q, p', q');
    var k' := DividesLeft(p', q', p, q);
    MutualDivisors(q, q', k, k');
    Cancel(q, p, p');
  }

  // --- keys ---

  function FormatInt(n: int): string {
    if n < 0 then "-" + Itoa(-n) else Itoa(n)
  }

  /** A fraction's text; a whole number's has no denominator. */
  function RatString(num: int, den: nat): string {
    "n:" + (FormatInt(num) + Over(den))
  }

  function Over(den: nat): string {
    if den == 1 then "" else "/" + Itoa(den)
  }

  ghost predicate Lowest(num: int, den: nat, number: Ratio) {
    den > 0 && Coprime(num, den) && SameNumber(Ratio(num, den), number)
  }

  /** key is the text of number, in lowest terms. */
  ghost predicate Keys(key: string, number: Ratio) {
    exists num, den :: Lowest(num, den, number) && key == RatString(num, den)
  }

  lemma {:induction false} ItoaRound(n: nat)
    ensures Digits(Itoa(n)) && Natural(Itoa(n)) == n
  {
    if n >= 10 {
      ItoaRound(n / 10);
      assert Itoa(n)[..|Itoa(n)|-1] == Itoa(n / 10);
    } else {
      assert Itoa(n)[..0] == "";
    }
  }

  lemma FormatIntInjective(n: int, m: int)
    requires FormatInt(n) == FormatInt(m)
    ensures n == m
  {
    ItoaRound(if n < 0 then -n else n);
    ItoaRound(if m < 0 then -m else m);
    if n < 0 {
      assert FormatInt(n)[0] == '-';
      assert FormatInt(n)[1..] == Itoa(-n);
    }
    if m < 0 {
      assert FormatInt(m)[0] == '-';
      assert FormatInt(m)[1..] == Itoa(-m);
    }
  }

  lemma NoSlash(n: int)
    ensures '/' !in FormatInt(n)
  {
    ItoaRound(if n < 0 then -n else n);
  }

  lemma OverInjective(d: nat, e: nat)
    requires Over(d) == Over(e)
    ensures d == e
  {
    ItoaRound(d);
    ItoaRound(e);
    if d != 1 {
      assert Over(d)[1..] == Itoa(d);
      assert Over(e)[1..] == Itoa(e);
    }
  }

  /** The numerator's length, read off the text. */
  lemma SlashAt(n: int, d: nat)
    ensures Find(FormatInt(n) + Over(d), '/') == |FormatInt(n)|
  {
    var s := FormatInt(n) + Over(d);
    NoSlash(n);
    if d == 1 {
      assert s == FormatInt(n);
    } else {
      assert s[..|FormatInt(n)|] == FormatInt(n);
      FindUnique(s, '/', |FormatInt(n)|);
    }
  }

  lemma SameParts(a: string, a': string, b: string, b': string)
    requires a + a' == b + b' && |a| == |b|
    ensures a == b && a' == b'
  {
    assert (a + a')[..|a|] == a && (b + b')[..|a|] == b;
    assert (a + a')[|a|..] == a' && (b + b')[|a|..] == b';
  }

  lemma RatStringInjective(n: int, d: nat, m: int, e: nat)
    requires RatString(n, d) == RatString(m, e)
    ensures n == m && d == e
  {
    SameParts("n:", FormatInt(n) + Over(d), "n:", FormatInt(m) + Over(e));
    SlashAt(n, d);
    SlashAt(m, e);
    SameParts(FormatInt(n), Over(d), FormatInt(m), Over(e));
    FormatIntInjective(n, m);
    OverInjective(d, e);
  }

  /** Two keys are the same exactly when their numbers are. */
  lemma SameKey(key: string, a: Ratio, key': string, b: Ratio)
    requires Keys(key, a) && Keys(key', b) && a.den > 0 && b.den > 0
    ensures key == key' <==> SameNumber(a, b)
  {
    var n, d :| Lowest(n, d, a) && key == RatString(n, d);
    var m, e :| Lowest(m, e, b) && key' == RatString(m, e);
    if key == key' {
      RatStringInjective(n, d, m, e);
      CrossCancel(a, Ratio(n, d), b);
    }
    if SameNumber(a, b) {
      CrossCancel(Ratio(n, d), a, b);
      CrossCancel(Ratio(n, d), b, Ratio(m, e));
      LowestUnique(n, d, m, e);
    }
  }

  /** Being the same number is transitive. */
  lemma CrossCancel(a: Ratio, b: Ratio, c: Ratio)
    requires b.den > 0 && SameNumber(a, b) && SameNumber(b, c)
    ensures SameNumber(a, c)
  {
    assert b.den * (a.num * c.den) == (a.num * b.den) * c.den;
    assert (b.num * a.den) * c.den == (b.num * c.den) * a.den;
    assert (c.num * b.den) * a.den == b.den * (c.num * a.den);
    Cancel(b.den, a.num * c.den, c.num * a.den);
  }

  /** An integer's key, of whatever width: the numeral alone. */
  function IntKey(n: int): string {
    "n:" + FormatInt(n)
  }

  lemma IntKeyed(n: int)
    ensures Keys(IntKey(n), Ratio(n, 1))
  {
    assert Bezout(n, 1, 0, 1);
    assert Lowest(n, 1, Ratio(n, 1));
    assert IntKey(n) == RatString(n, 1);
  }

  // --- working it out in 64 bits ---

  method GcdOf(x: int64, y: int64) returns (g: int64)
    requires x >= 0 && y >= 0
    ensures x > 0 || y > 0 ==> g as int == Gcd(x as int, y as int)
    ensures x == 0 && y == 0 ==> g == 1
  {
    var a, b := x, y;
    while b != 0
      invariant a >= 0 && b >= 0 && Gcd(a as int, b as int) == Gcd(x as int, y as int)
      invariant a > 0 || b > 0 <==> x > 0 || y > 0
      decreases b
    {
      a, b := b, a % b;
    }
    if a == 0 {
      return 1;
    }
    return a;
  }

  lemma {:induction false} NaturalBound(s: string)
    requires Digits(s)
    ensures Natural(s) < Pow10(|s|)
  {
    if s != "" {
      NaturalBound(s[..|s|-1]);
    }
  }

  lemma {:induction false} Pow10Mono(n: nat, m: nat)
    requires n <= m
    ensures 0 < Pow10(n) <= Pow10(m)
  {
    if n < m {
      Pow10Mono(n, m - 1);
    } else if n > 0 {
      Pow10Mono(n - 1, n - 1);
    }
  }

  lemma Pow18()
    ensures Pow10(18) == 1_000_000_000_000_000_000
  {
    assert Pow10(6) == 1_000_000;
    assert Pow10(12) == 1_000_000_000_000;
  }

  method SignAndParts(text: string) returns (negative: bool, whole: string, frac: string)
    ensures whole == Whole(text) && frac == Fraction(text) && (negative <==> text != "" && text[0] == '-')
  {
    var s := text;
    negative := false;
    if |s| > 0 && (s[0] == '-' || s[0] == '+') {
      s, negative := s[1..], s[0] == '-';
    }
    var i := Find(s, '.');
    whole, frac := s[..i], if i < |s| then s[i+1..] else "";
  }

  /** The key of the number text denotes, when it is a plain decimal. */
  method DecimalKey(text: string) returns (r: Option<string>)
    ensures r.Some? <==> Plain(text)
    ensures r.Some? ==> r.value == PlainKey(text) && Keys(r.value, Number(text))
  {
    var negative, whole, frac := SignAndParts(text);
    r := DigitsKey(negative, whole + frac, |frac|);
    if r.Some? {
      PlainNotEmpty(text);
      PlainKeyed(text);
    }
  }

  /** The text of a plain decimal's number. */
  function PlainKey(text: string): string
    requires Plain(text)
  {
    LowKey(text[0] == '-', Natural(Whole(text) + Fraction(text)), Pow10(|Fraction(text)|))
  }

  lemma PlainKeyed(text: string)
    requires Plain(text)
    ensures Keys(PlainKey(text), Number(text)) && Number(text).den > 0
  {
    DigitsKeyed(text[0] == '-', Whole(text) + Fraction(text), |Fraction(text)|);
  }

  lemma DigitsKeyed(negative: bool, digits: string, scale: nat)
    requires Digits(digits)
    ensures Keys(LowKey(negative, Natural(digits), Pow10(scale)), Scaled(negative, digits, scale))
    ensures Scaled(negative, digits, scale).den > 0
  {
    Pow10Mono(scale, scale);
    LowKeyed(negative, Natural(digits), Pow10(scale), Scaled(negative, digits, scale));
  }

  lemma PlainNotEmpty(text: string)
    requires Plain(text)
    ensures text != ""
  {
  }

  method DigitsKey(negative: bool, digits: string, scale: nat) returns (r: Option<string>)
    requires scale <= |digits|
    ensures r.Some? <==> 0 < |digits| <= MAX_DIGITS && Digits(digits)
    ensures r.Some? ==> r.value == LowKey(negative, Natural(digits), Pow10(scale))
  {
    if digits == "" || |digits| > MAX_DIGITS {
      return None;
    }
    var num := Accumulate(digits);
    if num.None? {
      return None;
    }
    Bounded(digits, scale);
    var den := PowerOf(scale);
    var key := Lowered(negative, num.value, den);
    return Some(key);
  }

  lemma Bounded(digits: string, scale: nat)
    requires Digits(digits) && |digits| <= MAX_DIGITS && scale <= |digits|
    ensures Natural(digits) < Pow10(18) && 0 < Pow10(scale) <= Pow10(18) == 1_000_000_000_000_000_000
  {
    NaturalBound(digits);
    Pow10Mono(|digits|, 18);
    Pow10Mono(scale, 18);
    Pow18();
  }

  method Accumulate(digits: string) returns (r: Option<int64>)
    requires |digits| <= MAX_DIGITS
    ensures r.Some? <==> Digits(digits)
    ensures r.Some? ==> r.value as int == Natural(digits)
  {
    var num: int64 := 0;
    for i := 0 to |digits|
      invariant Digits(digits[..i]) && num as int == Natural(digits[..i])
    {
      var c := digits[i];
      if c < '0' || c > '9' {
        return None;
      }
      assert digits[..i + 1][..i] == digits[..i];
      Bounded(digits[..i + 1], 0);
      num := num * 10 + (c as int - '0' as int) as int64;
    }
    assert digits[..|digits|] == digits;
    return Some(num);
  }

  method PowerOf(n: nat) returns (den: int64)
    requires n <= MAX_DIGITS
    ensures den as int == Pow10(n)
  {
    den := 1;
    for i := 0 to n
      invariant den as int == Pow10(i)
    {
      Pow10Mono(i + 1, 18);
      Pow18();
      den := den * 10;
    }
  }

  /** n over d divided by their greatest common divisor, signed. */
  function LowKey(negative: bool, n: nat, d: nat): string {
    var g := if Gcd(n, d) == 0 then 1 else Gcd(n, d);
    var m: int := Divided(n, g);
    RatString(if negative then -m else m, Divided(d, g))
  }

  function Divided(n: nat, g: nat): nat
    requires g > 0
  {
    n / g
  }

  method Lowered(negative: bool, n: int64, d: int64) returns (key: string)
    requires n >= 0 && d > 0
    ensures key == LowKey(negative, n as int, d as int)
  {
    var g := GcdOf(n, d);
    Reduced(n as int, d as int);
    var num, den := n / g, d / g;
    if negative && num != 0 {
      num := -num;
    }
    key := FractionKey(num, den);
  }

  method FractionKey(num: int64, den: int64) returns (key: string)
    requires den > 0
    ensures key == RatString(num as int, den as int)
  {
    if den == 1 {
      return "n:" + FormatInt(num as int);
    }
    return "n:" + FormatInt(num as int) + "/" + FormatInt(den as int);
  }

  /** That is the number's key. */
  lemma LowKeyed(negative: bool, n: nat, d: nat, number: Ratio)
    requires d > 0 && var m: int := n; number == Ratio(if negative then -m else m, d)
    ensures Keys(LowKey(negative, n, d), number)
  {
    var g := Gcd(n, d);
    Reduced(n, d);
    Rescaled(n / g, d / g, g);
  }

  lemma Rescaled(p: int, q: nat, g: int)
    requires q > 0 && g > 0 && Coprime(p, q)
    ensures g * q > 0 && Lowest(p, q, Ratio(g * p, g * q)) && Lowest(-p, q, Ratio(-(g * p), g * q))
  {
    var x, y :| Bezout(p, q, x, y);
    assert p * x == (-p) * (-x);
    assert Bezout(-p, q, -x, y);
    assert p * (g * q) == (g * p) * q;
    assert (-p) * (g * q) == -(p * (g * q)) && (-(g * p)) * q == -((g * p) * q);
  }

  /** The key of a plain decimal is that of any other, or of an integer, exactly
      when they are the same number. */
  lemma DecimalKeysAgree(text: string, other: string, n: int)
    requires Plain(text) && Plain(other)
    ensures PlainKey(text) == PlainKey(other) <==> SameNumber(Number(text), Number(other))
    ensures PlainKey(text) == IntKey(n) <==> SameNumber(Number(text), Ratio(n, 1))
  {
    PlainKeyed(text);
    PlainKeyed(other);
    IntKeyed(n);
    SameKey(PlainKey(text), Number(text), PlainKey(other), Number(other));
    SameKey(PlainKey(text), Number(text), IntKey(n), Ratio(n, 1));
  }
}
