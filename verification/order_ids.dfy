/**
 * Order identifiers of the form `order-<milliseconds>-<hex>`: the decimal
 * wall-clock time in milliseconds and four random bytes in lower-case hex.
 */
module OrderIds {

  /** One random byte. */
  type Byte = b: int | 0 <= b < 256

  /** The four bytes `crypto.randomBytes(4)` draws for each order. */
  type RandomBytes = r: seq<Byte> | |r| == 4 witness [0, 0, 0, 0]

  /** The decimal digit character for `d`. */
  function DigitChar(d: int): (c: char)
    requires 0 <= d < 10
    ensures '0' <= c <= '9'
  {
    (('0' as int) + d) as char
  }

  /** The lower-case hexadecimal digit character for `d`. */
  function HexChar(d: int): (c: char)
    requires 0 <= d < 16
    ensures '0' <= c <= '9' || 'a' <= c <= 'f'
  {
    if d < 10 then (('0' as int) + d) as char else (('a' as int) + d - 10) as char
  }

  /** `String(n)` for a non-negative integer: its decimal digits, without leading zeros. */
  function Decimal(n: nat): (s: string)
    ensures |s| >= 1 && (n < 10 <==> |s| == 1)
    ensures forall i :: 0 <= i < |s| ==> '0' <= s[i] <= '9'
  {
    if n < 10 then [DigitChar(n)] else Decimal(n / 10) + [DigitChar(n % 10)]
  }

  /** `Buffer.toString('hex')`: two lower-case hex digits per byte, high nibble first. */
  function Hex(bytes: seq<Byte>): (s: string)
    ensures |s| == 2 * |bytes|
    ensures forall i :: 0 <= i < |s| ==> '0' <= s[i] <= '9' || 'a' <= s[i] <= 'f'
  {
    if bytes == [] then [] else [HexChar(bytes[0] / 16), HexChar(bytes[0] % 16)] + Hex(bytes[1..])
  }

  /** The numeral has no leading zero, apart from the numeral `0` itself. */
  lemma {:induction false} DecimalNoLeadingZero(n: nat)
    ensures n == 0 || Decimal(n)[0] != '0'
  {
    if n >= 10 {
      DecimalNoLeadingZero(n / 10);
    }
  }

  /** The number a string of decimal digits denotes. */
  function DigitsValue(s: string): int
  {
    if s == [] then 0 else 10 * DigitsValue(s[..|s| - 1]) + (s[|s| - 1] as int - '0' as int)
  }

  /** The decimal numeral of `n` denotes `n`. */
  lemma {:induction false} DecimalDenotes(n: nat)
    ensures DigitsValue(Decimal(n)) == n
  {
    var s := Decimal(n);
    if n >= 10 {
      assert s[..|s| - 1] == Decimal(n / 10);
      DecimalDenotes(n / 10);
    }
  }

  /** The number a lower-case hex digit denotes. */
  function HexDigitValue(c: char): int
  {
    if c <= '9' then c as int - '0' as int else c as int - 'a' as int + 10
  }

  /** The bytes a string of hex digit pairs denotes, high nibble first. */
  function HexBytes(s: string): seq<int>
  {
    if |s| < 2 then [] else [16 * HexDigitValue(s[0]) + HexDigitValue(s[1])] + HexBytes(s[2..])
  }

  /** The hex rendering of some bytes denotes those bytes. */
  lemma {:induction false} HexDenotes(bytes: seq<Byte>)
    ensures HexBytes(Hex(bytes)) == bytes
  {
    if bytes != [] {
      var s := Hex(bytes);
      assert s[2..] == Hex(bytes[1..]);
      HexDenotes(bytes[1..]);
      assert bytes == [bytes[0]] + bytes[1..];
    }
  }

  /**
   * The order id built from `Date.now()` and the random bytes: `order-`, the
   * decimal digits that denote the time, `-`, and lower-case hex digit pairs
   * that denote the bytes.
   */
  function OrderId(nowMillis: nat, random: seq<Byte>): (id: string)
    ensures |id| == 7 + |Decimal(nowMillis)| + 2 * |random| && id[..6] == "order-"
    ensures id[6 + |Decimal(nowMillis)|] == '-'
    ensures forall i :: 6 <= i < 6 + |Decimal(nowMillis)| ==> '0' <= id[i] <= '9'
    ensures forall i :: 7 + |Decimal(nowMillis)| <= i < |id| ==> '0' <= id[i] <= '9' || 'a' <= id[i] <= 'f'
    ensures DigitsValue(id[6..6 + |Decimal(nowMillis)|]) == nowMillis
    ensures HexBytes(id[7 + |Decimal(nowMillis)|..]) == random
  {
    var d, h := Decimal(nowMillis), Hex(random);
    DecimalDenotes(nowMillis);
    HexDenotes(random);
    var id := "order-" + d + "-" + h;
    assert id[6..6 + |d|] == d && id[7 + |d|..] == h;
    id
  }

  /** Distinct times print differently. */
  lemma {:induction false} DecimalInjective(a: nat, b: nat)
    requires Decimal(a) == Decimal(b)
    ensures a == b
  {
    var s := Decimal(a);
    if a >= 10 && b >= 10 {
      assert DigitChar(a % 10) == s[|s| - 1] == DigitChar(b % 10);
      assert Decimal(a / 10) == s[..|s| - 1] == Decimal(b / 10);
      DecimalInjective(a / 10, b / 10);
    }
  }

  /** Distinct byte strings print differently. */
  lemma {:induction false} HexInjective(x: seq<Byte>, y: seq<Byte>)
    requires Hex(x) == Hex(y)
    ensures x == y
  {
    if x != [] {
      var s := Hex(x);
      assert HexChar(x[0] / 16) == s[0] == HexChar(y[0] / 16);
      assert HexChar(x[0] % 16) == s[1] == HexChar(y[0] % 16);
      assert Hex(x[1..]) == s[2..] == Hex(y[1..]);
      HexInjective(x[1..], y[1..]);
    }
  }

  /**
   * Two orders get the same id only when they were stamped in the same
   * millisecond and drew the same random bytes.
   */
  lemma OrderIdInjective(t1: nat, r1: seq<Byte>, t2: nat, r2: seq<Byte>)
    requires |r1| == |r2|
    requires OrderId(t1, r1) == OrderId(t2, r2)
    ensures t1 == t2 && r1 == r2
  {
    var s := OrderId(t1, r1);
    var n := |Decimal(t1)|;
    assert n == |Decimal(t2)|;
    assert t1 == DigitsValue(s[6..6 + n]) == t2;
    assert r1 == HexBytes(s[7 + n..]) == r2;
  }
}
