/** The entry code a registration asks the store to keep
    (components/registration-form.tsx:75-77 and 102-104):
    `RAFFLE-<last six digits of the clock>-<random number, zero-padded>`.
    Decimal rendering, `slice(-6)` and `padStart` are written out, with a
    parser that reads a code back, so the round trip shows what a code
    determines: the clock modulo 10^6 and the random number. */
module EntryCodes {
  import opened RaffleTypes

  predicate IsDigit(c: char) {
    '0' <= c <= '9'
  }

  predicate AllDigits(s: string) {
    forall i :: 0 <= i < |s| ==> IsDigit(s[i])
  }

  function DigitChar(d: nat): (c: char)
    requires d < 10
    ensures IsDigit(c)
  {
    ('0' as int + d) as char
  }

  function DigitValue(c: char): nat {
    if IsDigit(c) then (c as int - '0' as int) else 0
  }

  function Pow10(k: nat): (p: nat)
    ensures p >= 1
  {
    if k == 0 then 1 else 10 * Pow10(k - 1)
  }

  /** `n.toString()` for a non-negative integer below 10^21 (from there JavaScript
      switches to exponent form): its decimal digits, most significant first. */
  function Decimal(n: nat): (s: string)
    ensures |s| >= 1 && AllDigits(s)
  {
    if n < 10 then [DigitChar(n)] else Decimal(n / 10) + [DigitChar(n % 10)]
  }

  /** The number a string of decimal digits denotes. */
  function ParseDecimal(s: string): nat {
    if s == [] then 0 else 10 * ParseDecimal(s[..|s| - 1]) + DigitValue(s[|s| - 1])
  }

  /** The last `k` characters of `s`, or all of `s` when it is shorter: what
      `s.slice(-k)` gives for `k >= 1` (the code uses `k = 6`). For `k = 0`
      this is the empty string, where `slice(-0)` would give all of `s`. */
  function Suffix(s: string, k: nat): (r: string)
    ensures |r| == if |s| <= k then |s| else k
    ensures r == s[|s| - |r|..]
  {
    if |s| <= k then s else s[|s| - k..]
  }

  function Repeat(c: char, n: nat): (r: string)
    ensures |r| == n && forall i :: 0 <= i < n ==> r[i] == c
  {
    if n == 0 then [] else [c] + Repeat(c, n - 1)
  }

  /** `s.padStart(width, fill)`. */
  function PadStart(s: string, width: nat, fill: char): (r: string)
    ensures |r| == if |s| >= width then |s| else width
    ensures r[|r| - |s|..] == s
    ensures forall i :: 0 <= i < |r| - |s| ==> r[i] == fill
  {
    if |s| >= width then s else Repeat(fill, width - |s|) + s
  }

  const CodePrefix: string := "RAFFLE-"

  /** The code built from the clock reading `timestamp` and the random number
      `random`, padded to `width` digits (3 on the first attempt, 4 on the retry). */
  function EntryCode(timestamp: nat, random: nat, width: nat): string {
    CodePrefix + Suffix(Decimal(timestamp), 6) + "-" + PadStart(Decimal(random), width, '0')
  }

  /** The position of the first `c` in `s`, if any. */
  function IndexOf(s: string, c: char): (r: Option<nat>)
    ensures r.Some? ==> r.value < |s| && s[r.value] == c && forall j :: 0 <= j < r.value ==> s[j] != c
    ensures r.None? ==> forall j :: 0 <= j < |s| ==> s[j] != c
  {
    if s == [] then None
    else if s[0] == c then Some(0)
    else match IndexOf(s[1..], c)
      case None => None
      case Some(i) => Some(i + 1)
  }

  /** Reads a code back: the number after the prefix and the number after the
      next dash, or `None` when the text does not have that shape. */
  function ParseEntryCode(code: string): Option<(nat, nat)> {
    if |code| < |CodePrefix| || code[..|CodePrefix|] != CodePrefix then None
    else ParseNumbers(code[|CodePrefix|..])
  }

  /** Reads the part after the prefix: two non-empty digit runs around the first dash. */
  function ParseNumbers(rest: string): Option<(nat, nat)> {
    match IndexOf(rest, '-')
    case None => None
    case Some(i) =>
      var clock, random := rest[..i], rest[i + 1..];
      if clock != [] && random != [] && AllDigits(clock) && AllDigits(random)
      then Some((ParseDecimal(clock), ParseDecimal(random)))
      else None
  }

  /** Reading a number's decimal rendering gives the number back. */
  lemma {:induction false} DecimalRoundTrip(n: nat)
    ensures ParseDecimal(Decimal(n)) == n
  {
    if n >= 10 {
      DecimalRoundTrip(n / 10);
      var s := Decimal(n);
      assert s[..|s| - 1] == Decimal(n / 10);
    }
  }

  /** A rendering of at most `k` digits stands for a number below 10^k, and
      a number below 10^k takes at most `k` digits. */
  lemma {:induction false} DecimalLength(n: nat, k: nat)
    requires k >= 1
    ensures |Decimal(n)| <= k <==> n < Pow10(k)
  {
    if n < 10 {
      Pow10AtLeastTen(k);
    } else if k == 1 {
      assert Pow10(1) == 10;
    } else {
      DecimalLength(n / 10, k - 1);
    }
  }

  lemma {:induction false} Pow10AtLeastTen(k: nat)
    requires k >= 1
    ensures Pow10(k) >= 10
  {
    if k > 1 { Pow10AtLeastTen(k - 1); }
  }

  lemma {:induction false} ParseAppendDigit(s: string, c: char)
    ensures ParseDecimal(s + [c]) == 10 * ParseDecimal(s) + DigitValue(c)
  {
    assert (s + [c])[..|s + [c]| - 1] == s;
  }

  /** Leading zeros do not change the number a string of digits denotes. */
  lemma {:induction false} ParseLeadingZeros(z: nat, s: string)
    ensures ParseDecimal(Repeat('0', z) + s) == ParseDecimal(s)
  {
    if s == [] {
      assert Repeat('0', z) + s == Repeat('0', z);
      ParseZeros(z);
    } else {
      var init, last := s[..|s| - 1], s[|s| - 1];
      assert s == init + [last];
      assert Repeat('0', z) + s == (Repeat('0', z) + init) + [last];
      ParseAppendDigit(Repeat('0', z) + init, last);
      ParseAppendDigit(init, last);
      ParseLeadingZeros(z, init);
    }
  }

  lemma {:induction false} ParseZeros(z: nat)
    ensures ParseDecimal(Repeat('0', z)) == 0
  {
    if z > 0 {
      var r := Repeat('0', z);
      assert r == Repeat('0', z - 1) + ['0'];
      ParseAppendDigit(Repeat('0', z - 1), '0');
      ParseZeros(z - 1);
    }
  }

  lemma ModByDigits(n: nat, m: nat)
    requires m > 0
    ensures 10 * ((n / 10) % m) + n % 10 == n % (10 * m)
  {
    var q, d := n / 10, n % 10;
    var a, b := q / m, q % m;
    assert n == 10 * q + d;
    assert q == m * a + b;
    assert n == (10 * m) * a + (10 * b + d);
    assert 0 <= 10 * b + d < 10 * m;
    ModUnique(n, 10 * m, a, 10 * b + d);
  }

  lemma ModUnique(n: int, m: int, a: int, r: int)
    requires m > 0 && n == m * a + r && 0 <= r < m
    ensures n % m == r
  {
    var q, s := n / m, n % m;
    var d := a - q;
    MulDistributes(m, a, q);
    assert m * d == s - r;
    if d >= 1 {
      MulAtLeast(m, d);
    } else if d <= -1 {
      MulAtLeast(m, -d);
      MulNegate(m, d);
    }
  }

  lemma MulDistributes(m: int, a: int, b: int)
    ensures m * (a - b) == m * a - m * b
  {
  }

  lemma MulNegate(m: int, d: int)
    ensures m * (-d) == -(m * d)
  {
  }

  lemma {:induction false} MulAtLeast(m: int, d: int)
    requires m > 0 && d >= 1
    ensures m * d >= m
  {
    if d > 1 {
      MulAtLeast(m, d - 1);
      assert m * d == m * (d - 1) + m;
    }
  }

  lemma Pow10Values()
    ensures Pow10(3) == 1000 && Pow10(4) == 10000 && Pow10(5) == 100000 && Pow10(6) == 1000000
  {
    assert Pow10(1) == 10;
    assert Pow10(2) == 100;
  }

  lemma SuffixSnoc(t: string, c: char, k: nat)
    requires 1 <= k <= |t|
    ensures Suffix(t + [c], k) == Suffix(t, k - 1) + [c]
  {
  }

  /** The last `k` digits of a rendering stand for the number modulo 10^k. */
  lemma {:induction false} SuffixValue(n: nat, k: nat)
    ensures ParseDecimal(Suffix(Decimal(n), k)) == n % Pow10(k)
  {
    var s := Decimal(n);
    if |s| <= k || k == 0 {
      SuffixWhole(n, k);
    } else {
      var p := Pow10(k - 1);
      var u := ParseDecimal(Suffix(Decimal(n / 10), k - 1));
      SuffixStep(n, k);
      SuffixValue(n / 10, k - 1);
      assert u == (n / 10) % p;
      ModByDigits(n, p);
      assert Pow10(k) == 10 * p;
      assert ParseDecimal(Suffix(s, k)) == 10 * u + n % 10;
    }
  }

  /** The base cases: no digit stands for 0, and all of a short number's digits for the number. */
  lemma SuffixWhole(n: nat, k: nat)
    requires |Decimal(n)| <= k || k == 0
    ensures ParseDecimal(Suffix(Decimal(n), k)) == n % Pow10(k)
  {
    if |Decimal(n)| <= k {
      DecimalRoundTrip(n);
      DecimalLength(n, k);
      ModUnique(n, Pow10(k), 0, n);
    } else {
      assert Suffix(Decimal(n), 0) == [];
      ModUnique(n, 1, n, 0);
    }
  }

  /** Dropping the last digit: the last `k` digits of `n` are the last `k - 1`
      digits of `n / 10` followed by `n % 10`. */
  lemma SuffixStep(n: nat, k: nat)
    requires 1 <= k < |Decimal(n)|
    ensures ParseDecimal(Suffix(Decimal(n), k)) == 10 * ParseDecimal(Suffix(Decimal(n / 10), k - 1)) + n % 10
  {
    var t := Decimal(n / 10);
    var c := DigitChar(n % 10);
    assert Decimal(n) == t + [c];
    SuffixSnoc(t, c, k);
    ParseAppendDigit(Suffix(t, k - 1), c);
  }

  /** A number below 10^width, padded, takes exactly `width` digits. */
  lemma PaddedWidth(random: nat, width: nat)
    requires 1 <= width && random < Pow10(width)
    ensures |PadStart(Decimal(random), width, '0')| == width
  {
    DecimalLength(random, width);
  }

  /** The padded random part reads back as the random number. */
  lemma PaddedValue(random: nat, width: nat)
    ensures var p := PadStart(Decimal(random), width, '0');
      AllDigits(p) && ParseDecimal(p) == random
  {
    var s := Decimal(random);
    DecimalRoundTrip(random);
    if |s| < width {
      ParseLeadingZeros(width - |s|, s);
    }
  }

  /** The first dash after a run of digits is the one right after it. */
  lemma DashAfterDigits(a: string, b: string)
    requires AllDigits(a)
    ensures IndexOf(a + "-" + b, '-') == Some(|a|)
  {
    var s := a + "-" + b;
    assert s[|a|] == '-';
    assert forall j :: 0 <= j < |a| ==> s[j] == a[j];
  }

  lemma SuffixDigits(s: string, k: nat)
    requires AllDigits(s)
    ensures AllDigits(Suffix(s, k))
  {
    var r := Suffix(s, k);
    forall i | 0 <= i < |r| ensures IsDigit(r[i]) {
      assert r[i] == s[|s| - |r| + i];
    }
  }

  /** Any prefixed pair of digit runs reads back as their two numbers. */
  lemma ParseFormatted(clock: string, tail: string)
    requires clock != [] && tail != [] && AllDigits(clock) && AllDigits(tail)
    ensures ParseEntryCode(CodePrefix + clock + "-" + tail) == Some((ParseDecimal(clock), ParseDecimal(tail)))
  {
    var rest := clock + "-" + tail;
    var code := CodePrefix + clock + "-" + tail;
    assert code == CodePrefix + rest;
    assert code[..|CodePrefix|] == CodePrefix && code[|CodePrefix|..] == rest;
    NumbersFormatted(clock, tail);
  }

  /** Two digit runs around a dash read back as their two numbers. */
  lemma NumbersFormatted(clock: string, tail: string)
    requires clock != [] && tail != [] && AllDigits(clock) && AllDigits(tail)
    ensures ParseNumbers(clock + "-" + tail) == Some((ParseDecimal(clock), ParseDecimal(tail)))
  {
    var rest := clock + "-" + tail;
    DashAfterDigits(clock, tail);
    assert rest[..|clock|] == clock && rest[|clock| + 1..] == tail;
  }

  /** Round trip: a code reads back as the clock modulo 10^6 and the random number. */
  lemma EntryCodeRoundTrip(timestamp: nat, random: nat, width: nat)
    ensures ParseEntryCode(EntryCode(timestamp, random, width)) == Some((timestamp % 1000000, random))
  {
    var clock := Suffix(Decimal(timestamp), 6);
    var tail := PadStart(Decimal(random), width, '0');
    SuffixDigits(Decimal(timestamp), 6);
    PaddedValue(random, width);
    ParseFormatted(clock, tail);
    SuffixValue(timestamp, 6);
    Pow10Values();
  }

  /** Two attempts produce the same code only when their clocks agree modulo
      10^6 and they drew the same random number. */
  lemma EntryCodeCollision(t1: nat, r1: nat, w1: nat, t2: nat, r2: nat, w2: nat)
    requires EntryCode(t1, r1, w1) == EntryCode(t2, r2, w2)
    ensures t1 % 1000000 == t2 % 1000000 && r1 == r2
  {
    EntryCodeRoundTrip(t1, r1, w1);
    EntryCodeRoundTrip(t2, r2, w2);
  }

  /** A prefix of `a` is a prefix of `a + b`. */
  lemma PrefixOf(a: string, b: string, n: nat)
    requires n <= |a|
    ensures (a + b)[..n] == a[..n]
  {
    assert forall i :: 0 <= i < n ==> (a + b)[i] == a[i];
  }

  /** The clock part has at most six digits, and exactly six once the clock reads 100000 or more. */
  lemma ClockWidth(timestamp: nat)
    ensures |Suffix(Decimal(timestamp), 6)| <= 6
    ensures timestamp >= 100000 ==> |Suffix(Decimal(timestamp), 6)| == 6
  {
    if timestamp >= 100000 {
      DecimalLength(timestamp, 5);
      Pow10Values();
    }
  }

  /** A code is the prefix, the clock part, a dash and `width` digits long. */
  lemma EntryCodeLength(timestamp: nat, random: nat, width: nat)
    requires 1 <= width && random < Pow10(width)
    ensures |EntryCode(timestamp, random, width)| == 8 + |Suffix(Decimal(timestamp), 6)| + width
  {
    PaddedWidth(random, width);
  }

  /** Every code starts with the prefix. */
  lemma EntryCodePrefix(timestamp: nat, random: nat, width: nat)
    ensures EntryCode(timestamp, random, width)[..7] == CodePrefix
  {
    var clock := Suffix(Decimal(timestamp), 6);
    var tail := PadStart(Decimal(random), width, '0');
    PrefixOf(CodePrefix + clock + "-", tail, 7);
    PrefixOf(CodePrefix + clock, "-", 7);
    PrefixOf(CodePrefix, clock, 7);
  }

  /** The shape of a code: the prefix, at most six clock digits, a dash, and
      exactly `width` digits when the random number is below 10^width. */
  lemma EntryCodeShape(timestamp: nat, random: nat, width: nat)
    requires 1 <= width && random < Pow10(width)
    ensures var code := EntryCode(timestamp, random, width);
      && code[..7] == "RAFFLE-"
      && |code| == 8 + |Suffix(Decimal(timestamp), 6)| + width
      && |Suffix(Decimal(timestamp), 6)| <= 6
      && (timestamp >= 100000 ==> |code| == 14 + width)
  {
    ClockWidth(timestamp);
    EntryCodeLength(timestamp, random, width);
    EntryCodePrefix(timestamp, random, width);
  }
}
