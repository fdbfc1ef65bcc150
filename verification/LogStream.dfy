/** Number printing and the fixed-size log buffer
    (twnl/Log/LogStream.cc, twnl/Log/LogStream.h). */
module LogStream {
  import opened Basics

  // ---------- Positional notation: the reference the digit loops are proved against ----------

  const DIGITS_HEX := "0123456789ABCDEF"

  // The table read by the decimal loop, and the offset of the pointer into its middle.
  const DIGITS := "9876543210123456789"
  const ZERO := 9

  const MAX_NUMERIC_SIZE := 32

  lemma DivShrinks(n: nat, base: nat)
    requires base >= 2
    ensures n / base * base + n % base == n
    ensures n > 0 ==> n / base < n
  {
    var q := n / base;
    assert q * base == q + q * (base - 1);
    if q >= 1 {
      assert q * (base - 1) == q * (base - 2) + q;
      assert q * (base - 2) >= 0;
    }
  }

  /** n in the given base, most significant digit first. */
  function Positional(n: nat, base: nat): (s: string)
    requires 2 <= base <= 16
    ensures |s| >= 1
  {
    if n < base then [DIGITS_HEX[n]]
    else
      DivShrinks(n, base);
      Positional(n / base, base) + [DIGITS_HEX[n % base]]
  }

  function DigitValue(c: char): Option<nat> {
    if '0' <= c <= '9' then Some((c - '0') as nat)
    else if 'A' <= c <= 'F' then Some((c - 'A') as nat + 10)
    else None
  }

  /** Reads a non-empty digit string; None for anything else. */
  function ParseNat(s: string, base: nat): (r: Option<int>)
    requires 2 <= base <= 16
    ensures r.Some? ==> r.value >= 0
  {
    if s == "" then None
    else
      match DigitValue(s[|s| - 1])
      case None => None
      case Some(d) =>
        if d >= base then None
        else if |s| == 1 then Some(d)
        else
          match ParseNat(s[..|s| - 1], base)
          case None => None
          case Some(v) => Some(v * base + d)
  }

  function ParseInt(s: string, base: nat): Option<int>
    requires 2 <= base <= 16
  {
    if s != "" && s[0] == '-' then
      match ParseNat(s[1..], base)
      case None => None
      case Some(v) => Some(-v)
    else
      ParseNat(s, base)
  }

  /** What a signed or unsigned 64-bit value looks like in the log. */
  function Printed(value: int): string {
    if value < 0 then "-" + Positional(-value, 10) else Positional(value, 10)
  }

  lemma TableIsSymmetric(d: nat)
    requires d <= 9
    ensures DIGITS[ZERO + d] == DIGITS_HEX[d] == DIGITS[ZERO - d]
  {
    assert d == 0 || d == 1 || d == 2 || d == 3 || d == 4 || d == 5 || d == 6 || d == 7 || d == 8 || d == 9;
  }

  lemma DigitRoundTrip(d: nat)
    requires d < 16
    ensures DigitValue(DIGITS_HEX[d]) == Some(d)
  {
    assert d < 10 || d == 10 || d == 11 || d == 12 || d == 13 || d == 14 || d == 15;
    if d < 10 { TableIsSymmetric(d); }
  }

  // ---------- Arithmetic and reading one more digit ----------

  lemma ParseLast(s: string, c: char, base: nat)
    requires 2 <= base <= 16 && s != ""
    requires ParseNat(s, base).Some? && DigitValue(c).Some? && DigitValue(c).value < base
    ensures ParseNat(s + [c], base) == Some(ParseNat(s, base).value * base + DigitValue(c).value)
  {
    var t := s + [c];
    assert t[..|t| - 1] == s;
  }

  lemma {:induction false} PositionalRoundTrip(n: nat, base: nat)
    requires 2 <= base <= 16
    ensures ParseNat(Positional(n, base), base) == Some(n)
  {
    if n < base {
      DigitRoundTrip(n);
      var s := Positional(n, base);
      assert s == [DIGITS_HEX[n]];
    } else {
      var q, r := n / base, n % base;
      assert Positional(n, base) == Positional(q, base) + [DIGITS_HEX[r]];
      assert q < n && q * base + r == n by { DivShrinks(n, base); }
      PositionalRoundTrip(q, base);
      DigitRoundTrip(r);
      ParseLast(Positional(q, base), DIGITS_HEX[r], base);
    }
  }

  /** The printed form starts with '0' only for zero itself. */
  lemma {:induction false} NoLeadingZero(n: nat, base: nat)
    requires 2 <= base <= 16
    ensures Positional(n, base)[0] == '0' <==> n == 0
    ensures Positional(n, base)[0] != '-'
    ensures n == 0 ==> |Positional(n, base)| == 1
  {
    if n < base {
      DigitRoundTrip(n);
    } else {
      NoLeadingZero(n / base, base);
    }
  }

  /** No other digit string without a leading zero reads as n, so the round trip and the
      absence of leading zeros together pin the printed text. */
  lemma {:induction false} PositionalUnique(s: string, n: nat, base: nat)
    requires 2 <= base <= 16
    requires ParseNat(s, base) == Some(n)
    requires |s| == 1 || s[0] != '0'
    ensures s == Positional(n, base)
  {
    var m := |s| - 1;
    var d := DigitValue(s[m]).value;
    assert s[m] == DIGITS_HEX[d];
    if m > 0 {
      var v := ParseNat(s[..m], base).value;
      PositionalUnique(s[..m], v, base);
      NoLeadingZero(v, base);
      assert s[..m][0] == s[0];
      assert n / base == v && n % base == d && n >= base by {
        DivModUnique(n, base, v, d);
        MulAtLeast(v, base);
      }
      assert s == s[..m] + [s[m]];
    }
  }

  lemma PrintParseOne(value: int)
    ensures ParseInt(Printed(value), 10) == Some(value)
  {
    var n: nat := if value < 0 then -value else value;
    PositionalRoundTrip(n, 10);
    NoLeadingZero(n, 10);
    var digits := Positional(n, 10);
    if value < 0 {
      assert Printed(value) == "-" + digits;
      assert ("-" + digits)[1..] == digits;
    } else {
      assert Printed(value) == digits;
    }
  }

  /** Printing followed by parsing is the identity on every integer, the most negative one included. */
  lemma PrintParse(value: int)
    ensures ParseInt(Printed(value), 10) == Some(value)
    ensures forall w: int :: Printed(w) == Printed(value) ==> w == value
  {
    PrintParseOne(value);
    forall w: int | Printed(w) == Printed(value)
      ensures w == value
    {
      PrintParseOne(w);
    }
  }

  function Pow(base: nat, k: nat): nat {
    if k == 0 then 1 else base * Pow(base, k - 1)
  }

  lemma {:induction false} PowAdd(base: nat, a: nat, b: nat)
    ensures Pow(base, a + b) == Pow(base, a) * Pow(base, b)
  {
    if a > 0 {
      PowAdd(base, a - 1, b);
      var x, y := Pow(base, a - 1), Pow(base, b);
      assert base * (x * y) == (base * x) * y;
    }
  }

  lemma DivBelow(n: nat, b: nat, p: nat)
    requires b > 0
    ensures n / b < p <==> n < b * p
  {
    var q, r := n / b, n % b;
    assert n == q * b + r;
    if q < p {
      MulAtLeast(p - q, b);
      assert b * p == (p - q) * b + q * b;
    } else {
      assert (q - p) * b >= 0;
      assert q * b == (q - p) * b + b * p;
    }
  }

  lemma {:induction false} PowPositive(base: nat, k: nat)
    requires base >= 1
    ensures Pow(base, k) >= 1
  {
    if k > 0 {
      PowPositive(base, k - 1);
      MulAtLeast(base, Pow(base, k - 1));
    }
  }

  /** k digits are enough exactly for the values below base^k. */
  lemma {:induction false} PositionalLength(n: nat, base: nat, k: nat)
    requires 2 <= base <= 16 && k >= 1
    ensures |Positional(n, base)| <= k <==> n < Pow(base, k)
    decreases k
  {
    var p, q := Pow(base, k - 1), n / base;
    assert n < Pow(base, k) <==> q < p by { DivBelow(n, base, p); }
    if n < base {
      assert |Positional(n, base)| == 1;
      PowPositive(base, k - 1);
      assert q == 0 by { DivModUnique(n, base, 0, n); }
    } else {
      assert |Positional(n, base)| == |Positional(q, base)| + 1;
      assert q >= 1 by { DivBelow(n, base, 1); }
      if k == 1 {
        assert p == 1;
      } else {
        PositionalLength(q, base, k - 1);
      }
    }
  }

  // ---------- convert and convertHex ----------

  /** C++ integer division and remainder truncate toward zero; Dafny's are Euclidean. */
  function TruncDiv(a: int, b: int): int
    requires b > 0
  {
    if a >= 0 then a / b else -((-a) / b)
  }

  function TruncMod(a: int, b: int): int
    requires b > 0
  {
    a - TruncDiv(a, b) * b
  }

  /** Every value of every integer type handed to the templates. */
  predicate Word64(v: int) {
    -0x8000_0000_0000_0000 <= v <= 0xFFFF_FFFF_FFFF_FFFF
  }

  function Abs(v: int): nat {
    if v < 0 then -v else v
  }

  lemma TruncatedDigit(i: int)
    ensures -9 <= TruncMod(i, 10) <= 9
    ensures DIGITS[ZERO + TruncMod(i, 10)] == DIGITS_HEX[Abs(i) % 10]
    ensures Abs(TruncDiv(i, 10)) == Abs(i) / 10
  {
    var d := Abs(i) % 10;
    assert TruncMod(i, 10) == if i < 0 then -d else d;
    TableIsSymmetric(d);
  }

  lemma PrintedLength(value: int)
    requires Word64(value)
    ensures 1 <= |Printed(value)| <= 20
  {
    assert Pow(10, 9) == 1_000_000_000 && Pow(10, 10) == 10_000_000_000;
    PowAdd(10, 10, 9);
    PowAdd(10, 10, 10);
    PositionalLength(Abs(value), 10, 20);
    PositionalLength(Abs(value), 10, 19);
  }

  lemma HexLength(value: nat)
    requires Word64(value)
    ensures |Positional(value, 16)| <= 16
  {
    assert Pow(16, 8) == 0x1_0000_0000;
    PowAdd(16, 8, 8);
    PositionalLength(value, 16, 16);
  }

  function Reversed(s: string): (r: string)
    ensures |r| == |s|
    ensures forall k :: 0 <= k < |s| ==> r[k] == s[|s| - 1 - k]
  {
    seq(|s|, k requires 0 <= k < |s| => s[|s| - 1 - k])
  }

  /** std::reverse over a range of the buffer. */
  method ReverseRange(buf: array<char>, lo: nat, hi: nat)
    requires lo <= hi <= buf.Length
    modifies buf
    ensures buf[lo..hi] == Reversed(old(buf[lo..hi]))
    ensures forall k :: 0 <= k < lo || hi <= k < buf.Length ==> buf[k] == old(buf[k])
  {
    ghost var was := buf[lo..hi];
    var n, k := hi - lo, 0;
    while k < n / 2
      invariant 0 <= k <= n / 2
      invariant forall m :: lo <= m < lo + k || hi - k <= m < hi ==> buf[m] == was[hi - 1 - m]
      invariant forall m :: lo + k <= m < hi - k ==> buf[m] == was[m - lo]
      invariant forall m :: 0 <= m < lo || hi <= m < buf.Length ==> buf[m] == old(buf[m])
    {
      buf[lo + k], buf[hi - 1 - k] := buf[hi - 1 - k], buf[lo + k];
      k := k + 1;
    }
    forall m | lo <= m < hi
      ensures buf[m] == was[hi - 1 - m]
    {
      assert lo + k <= m < hi - k ==> m - lo == hi - 1 - m;
    }
    ghost var now, mirror := buf[lo..hi], Reversed(was);
    forall j | 0 <= j < n
      ensures now[j] == mirror[j]
    {
      assert now[j] == buf[lo + j];
    }
    assert now == mirror;
  }

  lemma ReversedLast(s: string, c: char)
    ensures Reversed(s + [c]) == [c] + Reversed(s)
  {
  }

  /** One more digit leaves the buffer: total = what is left to print ++ the digits so far, reversed. */
  lemma DigitMoves(total: string, now: nat, base: nat, s: string, t: string)
    requires 2 <= base <= 16
    requires total == Positional(now, base) + Reversed(s)
    requires t == s + [DIGITS_HEX[now % base]]
    ensures now / base != 0 ==> total == Positional(now / base, base) + Reversed(t)
    ensures now / base == 0 ==> total == Reversed(t)
  {
    ReversedLast(s, DIGITS_HEX[now % base]);
    if now < base {
      DivModUnique(now, base, 0, now);
    } else {
      DivBelow(now, base, 1);
      var high, d := Positional(now / base, base), [DIGITS_HEX[now % base]];
      assert (high + d) + Reversed(s) == high + (d + Reversed(s));
    }
  }

  /** The digit loop of the decimal template, least significant digit first. */
  method EmitDecimal(buf: array<char>, at: nat, value: int) returns (p: nat)
    requires Word64(value) && at + |Positional(Abs(value), 10)| <= buf.Length
    modifies buf
    ensures p == at + |Positional(Abs(value), 10)|
    ensures Reversed(buf[at..p]) == Positional(Abs(value), 10)
    ensures forall k :: 0 <= k < at || p <= k < buf.Length ==> buf[k] == old(buf[k])
  {
    ghost var total := Positional(Abs(value), 10);
    var i := value;
    p := at;
    assert total == Positional(Abs(i), 10) + Reversed(buf[at..p]);
    while true
      invariant at <= p && p - at < |total|
      invariant total == Positional(Abs(i), 10) + Reversed(buf[at..p])
      invariant forall k :: 0 <= k < at || p <= k < buf.Length ==> buf[k] == old(buf[k])
      decreases Abs(i)
    {
      ghost var before, now := buf[at..p], Abs(i);
      var lsd := TruncMod(i, 10);
      TruncatedDigit(i);
      i := TruncDiv(i, 10);
      buf[p] := DIGITS[ZERO + lsd];
      p := p + 1;
      assert buf[at..p] == before + [DIGITS_HEX[now % 10]];
      DigitMoves(total, now, 10, before, buf[at..p]);
      if i == 0 {
        break;
      }
    }
  }

  /** The sign goes after the digits, since the text is still backwards. */
  method EmitSigned(buf: array<char>, at: nat, value: int) returns (p: nat)
    requires Word64(value) && at + |Printed(value)| <= buf.Length
    modifies buf
    ensures p == at + |Printed(value)|
    ensures Reversed(buf[at..p]) == Printed(value)
    ensures forall k :: 0 <= k < at || p <= k < buf.Length ==> buf[k] == old(buf[k])
  {
    p := EmitDecimal(buf, at, value);
    if value < 0 {
      ghost var digits := buf[at..p];
      buf[p] := '-';
      p := p + 1;
      assert buf[at..p] == digits + ['-'];
      ReversedLast(digits, '-');
    }
  }

  /** Digits, sign, terminator, reverse in place. The same text serves the signed and the unsigned
      instances: for an unsigned one the sign branch is never taken. */
  method Convert(buf: array<char>, at: nat, value: int) returns (len: nat)
    requires Word64(value) && at + 21 <= buf.Length
    modifies buf
    ensures 1 <= len <= 20
    ensures buf[at..at + len] == Printed(value)
    ensures buf[at + len] == '\0'
    ensures forall k :: 0 <= k < at || at + len < k < buf.Length ==> buf[k] == old(buf[k])
  {
    PrintedLength(value);
    var p := EmitSigned(buf, at, value);
    ghost var text := buf[at..p];
    buf[p] := '\0';
    assert buf[at..p] == text;
    ReverseRange(buf, at, p);
    len := p - at;
  }

  method EmitHex(buf: array<char>, at: nat, value: nat) returns (p: nat)
    requires at + |Positional(value, 16)| <= buf.Length
    modifies buf
    ensures p == at + |Positional(value, 16)|
    ensures Reversed(buf[at..p]) == Positional(value, 16)
    ensures forall k :: 0 <= k < at || p <= k < buf.Length ==> buf[k] == old(buf[k])
  {
    ghost var total := Positional(value, 16);
    var i := value;
    p := at;
    assert total == Positional(i, 16) + Reversed(buf[at..p]);
    while true
      invariant at <= p && p - at < |total|
      invariant total == Positional(i, 16) + Reversed(buf[at..p])
      invariant forall k :: 0 <= k < at || p <= k < buf.Length ==> buf[k] == old(buf[k])
      decreases i
    {
      ghost var before, now := buf[at..p], i;
      var lsd := i % 16;
      i := i / 16;
      buf[p] := DIGITS_HEX[lsd];
      p := p + 1;
      assert buf[at..p] == before + [DIGITS_HEX[now % 16]];
      DigitMoves(total, now, 16, before, buf[at..p]);
      if i == 0 {
        break;
      }
    }
  }

  method ConvertHex(buf: array<char>, at: nat, value: nat) returns (len: nat)
    requires Word64(value) && at + 17 <= buf.Length
    modifies buf
    ensures 1 <= len <= 16
    ensures buf[at..at + len] == Positional(value, 16)
    ensures buf[at + len] == '\0'
    ensures forall k :: 0 <= k < at || at + len < k < buf.Length ==> buf[k] == old(buf[k])
  {
    HexLength(value);
    var p := EmitHex(buf, at, value);
    ghost var text := buf[at..p];
    buf[p] := '\0';
    assert buf[at..p] == text;
    ReverseRange(buf, at, p);
    len := p - at;
  }

  // ---------- FixedBuffer and the stream inserters ----------

  /** One insertion. A double arrives as the text snprintf produced for it, 1 to 31 characters. */
  datatype Item = Text(text: string) | NullText | Int(value: int) | Pointer(address: nat) | Double(text: string)

  predicate WellFormed(item: Item) {
    match item
    case Text(_) => true
    case NullText => true
    case Int(v) => Word64(v)
    case Pointer(a) => Word64(a)
    case Double(t) => 0 < |t| < MAX_NUMERIC_SIZE
  }

  function Rendered(item: Item): string {
    match item
    case Text(t) => t
    case NullText => "(null)"
    case Int(v) => Printed(v)
    case Pointer(a) => "0x" + Positional(a, 16)
    case Double(t) => t
  }

  /** Text is taken only when it leaves a byte free; a number only when 32 bytes are free. */
  predicate Accepts(item: Item, used: nat, size: nat) {
    match item
    case Text(t) => size - used > |t|
    case NullText => size - used > 6
    case _ => size - used >= MAX_NUMERIC_SIZE
  }

  /** The text of a fresh buffer of the given size after a series of insertions. */
  function LogOf(items: seq<Item>, size: nat): string {
    if items == [] then ""
    else
      var before := LogOf(items[..|items| - 1], size);
      var last := items[|items| - 1];
      if Accepts(last, |before|, size) then before + Rendered(last) else before
  }

  function AllRendered(items: seq<Item>): string {
    if items == [] then "" else AllRendered(items[..|items| - 1]) + Rendered(items[|items| - 1])
  }

  /** In the source's numbers. */
  lemma AcceptanceInBytes(t: string, v: int, address: nat, used: nat, size: nat)
    ensures Accepts(Text(t), used, size) <==> used + |t| < size
    ensures Accepts(NullText, used, size) <==> used + 6 < size
    ensures Accepts(Int(v), used, size) <==> used + 32 <= size
    ensures Accepts(Pointer(address), used, size) <==> used + 32 <= size
    ensures Accepts(Double(t), used, size) <==> used + 32 <= size
  {
  }

  /** How some numbers look. */
  lemma PrintedForms()
    ensures Printed(0) == "0" && Printed(-120) == "-120"
    ensures Rendered(Pointer(0xBEEF)) == "0xBEEF" && Rendered(NullText) == "(null)"
  {
    assert Positional(1, 10) == "1" && Positional(12, 10) == "12";
    assert Positional(0xB, 16) == "B" && Positional(0xBE, 16) == "BE" && Positional(0xBEE, 16) == "BEE";
  }

  lemma RenderedFits(item: Item, used: nat, size: nat)
    requires WellFormed(item) && Accepts(item, used, size)
    ensures used + |Rendered(item)| < size
  {
    match item
    case Int(v) => PrintedLength(v);
    case Pointer(a) => HexLength(a);
    case _ =>
  }

  lemma RefusedIsNotEmpty(item: Item, used: nat, size: nat)
    requires WellFormed(item) && used < size && !Accepts(item, used, size)
    ensures Rendered(item) != ""
  {
    match item
    case Int(v) => assert |Printed(v)| >= 1;
    case _ =>
  }

  /** The cursor never reaches the end of the storage, so the terminator written through it by
      debugString always lands inside. */
  lemma {:induction false} LogStaysInside(items: seq<Item>, size: nat)
    requires size > 0
    requires forall k :: 0 <= k < |items| ==> WellFormed(items[k])
    ensures |LogOf(items, size)| < size
  {
    if items != [] {
      var rest := items[..|items| - 1];
      LogStaysInside(rest, size);
      var last := items[|items| - 1];
      if Accepts(last, |LogOf(rest, size)|, size) {
        RenderedFits(last, |LogOf(rest, size)|, size);
      }
    }
  }

  predicate EveryOneAccepted(items: seq<Item>, size: nat) {
    forall k :: 0 <= k < |items| ==> Accepts(items[k], |LogOf(items[..k], size)|, size)
  }

  lemma AcceptedPrefix(items: seq<Item>, size: nat)
    requires items != []
    ensures var n := |items| - 1;
      EveryOneAccepted(items, size) <==>
      EveryOneAccepted(items[..n], size) && Accepts(items[n], |LogOf(items[..n], size)|, size)
  {
    var n := |items| - 1;
    var rest := items[..n];
    forall k | 0 <= k < n
      ensures rest[..k] == items[..k] && rest[k] == items[k]
    {
    }
    if EveryOneAccepted(rest, size) && Accepts(items[n], |LogOf(rest, size)|, size) {
      forall k | 0 <= k < |items|
        ensures Accepts(items[k], |LogOf(items[..k], size)|, size)
      {
        if k < n { assert Accepts(rest[k], |LogOf(rest[..k], size)|, size); }
      }
    }
    if EveryOneAccepted(items, size) {
      forall k | 0 <= k < n
        ensures Accepts(rest[k], |LogOf(rest[..k], size)|, size)
      {
        assert Accepts(items[k], |LogOf(items[..k], size)|, size);
      }
    }
  }

  /** Each insertion is all or nothing: the log is the whole text exactly when every insertion is
      accepted. A refused insertion leaves the log shorter than the whole text. */
  lemma {:induction false} LogIsWholeText(items: seq<Item>, size: nat)
    requires size > 0
    requires forall k :: 0 <= k < |items| ==> WellFormed(items[k])
    ensures |LogOf(items, size)| <= |AllRendered(items)|
    ensures |LogOf(items, size)| == |AllRendered(items)| ==> LogOf(items, size) == AllRendered(items)
    ensures LogOf(items, size) == AllRendered(items) <==> EveryOneAccepted(items, size)
  {
    if items != [] {
      LogIsWholeText(items[..|items| - 1], size);
      AcceptedPrefix(items, size);
      LogStaysInside(items[..|items| - 1], size);
      if !Accepts(items[|items| - 1], |LogOf(items[..|items| - 1], size)|, size) {
        RefusedIsNotEmpty(items[|items| - 1], |LogOf(items[..|items| - 1], size)|, size);
      }
    }
  }

  class FixedBuffer {
    const data: array<char>
    var cur: nat

    ghost predicate Valid()
      reads this
    {
      cur < data.Length
    }

    ghost function Contents(): string
      reads this, data
      requires Valid()
    {
      data[..cur]
    }

    constructor (size: nat)
      requires size > 0
      ensures Valid() && fresh(data) && data.Length == size && Contents() == ""
    {
      data := new char[size];
      cur := 0;
    }

    function Avail(): nat
      reads this
      requires Valid()
    {
      data.Length - cur
    }

    method Append(text: string)
      requires Valid()
      modifies this, data
      ensures Valid()
      ensures Contents() == if data.Length - old(cur) > |text| then old(Contents()) + text else old(Contents())
    {
      if Avail() > |text| {
        forall k | 0 <= k < |text| {
          data[cur + k] := text[k];
        }
        cur := cur + |text|;
        assert data[..old(cur)] == old(Contents());
        assert data[old(cur)..cur] == text;
      }
    }

    method FormatInteger(v: int)
      requires Valid() && Word64(v)
      modifies this, data
      ensures Valid()
      ensures Contents() == if data.Length - old(cur) >= MAX_NUMERIC_SIZE then old(Contents()) + Printed(v)
                            else old(Contents())
    {
      if Avail() >= MAX_NUMERIC_SIZE {
        var len := Convert(data, cur, v);
        cur := cur + len;
        assert data[..old(cur)] == old(Contents());
      }
    }

    method FormatPointer(address: nat)
      requires Valid() && Word64(address)
      modifies this, data
      ensures Valid()
      ensures Contents() == if data.Length - old(cur) >= MAX_NUMERIC_SIZE
                            then old(Contents()) + ("0x" + Positional(address, 16))
                            else old(Contents())
    {
      if Avail() >= MAX_NUMERIC_SIZE {
        data[cur] := '0';
        data[cur + 1] := 'x';
        var len := ConvertHex(data, cur + 2, address);
        cur := cur + (len + 2);
        assert data[..old(cur)] == old(Contents());
        assert data[old(cur)..cur] == "0x" + Positional(address, 16);
      }
    }

    method FormatDouble(text: string)
      requires Valid() && |text| < MAX_NUMERIC_SIZE
      modifies this, data
      ensures Valid()
      ensures Contents() == if data.Length - old(cur) >= MAX_NUMERIC_SIZE then old(Contents()) + text
                            else old(Contents())
      ensures data.Length - old(cur) >= MAX_NUMERIC_SIZE ==> data[cur] == '\0'
      ensures forall k | old(cur) + MAX_NUMERIC_SIZE <= k < data.Length :: data[k] == old(data[k])
    {
      if Avail() >= MAX_NUMERIC_SIZE {
        forall k | 0 <= k <= |text| {
          data[cur + k] := if k < |text| then text[k] else '\0';
        }
        cur := cur + |text|;
        assert data[..old(cur)] == old(Contents());
        assert data[old(cur)..cur] == text;
      }
    }
  }

  /** Any series of insertions leaves exactly the accepted ones in the buffer. */
  method InsertAll(items: seq<Item>, size: nat) returns (text: string)
    requires size > 0
    requires forall k :: 0 <= k < |items| ==> WellFormed(items[k])
    ensures text == LogOf(items, size) && |text| < size
  {
    var b := new FixedBuffer(size);
    for i := 0 to |items|
      invariant b.Valid() && fresh(b) && fresh(b.data) && b.data.Length == size
      invariant b.Contents() == LogOf(items[..i], size)
    {
      assert items[..i + 1][..i] == items[..i];
      match items[i]
      case Text(t) => b.Append(t);
      case NullText => b.Append("(null)");
      case Int(v) => b.FormatInteger(v);
      case Pointer(a) => b.FormatPointer(a);
      case Double(t) => b.FormatDouble(t);
    }
    assert items[..|items|] == items;
    text := b.data[..b.cur];
  }
}
