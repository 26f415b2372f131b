/** Document ids: 4 time bytes, 5 bytes fixed per process, 3 counter bytes, in hexadecimal.
    Keyset paging and recency sorts compare them as strings. */
module Ids {
  import opened Ordering

  type Byte = x: int | 0 <= x < 256

  // ----- big-endian numbers and their order -----

  function Span(k: nat): (p: nat)
    ensures p > 0
  {
    if k == 0 then 1 else 256 * Span(k - 1)
  }

  /** The low `k` bytes of `n`, most significant first. */
  function BigEndian(n: nat, k: nat): (bs: seq<Byte>)
    ensures |bs| == k
  {
    if k == 0 then [] else BigEndian(n / 256, k - 1) + [n % 256]
  }

  predicate LexLe(a: seq<Byte>, b: seq<Byte>) {
    a == [] || (b != [] && (a[0] < b[0] || (a[0] == b[0] && LexLe(a[1..], b[1..]))))
  }

  lemma {:induction false} LexLeSame(a: seq<Byte>)
    ensures LexLe(a, a)
  {
    if a != [] { LexLeSame(a[1..]); }
  }

  /** Lists of equal length compare by their first halves, then by the rest. */
  lemma {:induction false} LexLeAppend(a: seq<Byte>, b: seq<Byte>, x: seq<Byte>, y: seq<Byte>)
    requires |a| == |b|
    ensures LexLe(a + x, b + y) <==> if a == b then LexLe(x, y) else LexLe(a, b)
  {
    if a == [] {
      assert a + x == x && b + y == y;
    } else {
      LexLeAppend(a[1..], b[1..], x, y);
      assert (a + x)[1..] == a[1..] + x && (b + y)[1..] == b[1..] + y;
      assert a == [a[0]] + a[1..] && b == [b[0]] + b[1..];
    }
  }

  lemma {:induction false} Multiples(d: nat, x: int, y: int)
    ensures x < y ==> d * x + d <= d * y
    decreases y - x
  {
    if x < y {
      Multiples(d, x, y - 1);
      assert d * y == d * (y - 1) + d;
    }
  }

  lemma DivModUnique(n: nat, d: nat, q: nat, r: nat)
    requires d > 0 && n == d * q + r && r < d
    ensures n / d == q && n % d == r
  {
    Multiples(d, n / d, q);
    Multiples(d, q, n / d);
  }

  lemma ModSpan(n: nat, k: nat)
    requires k > 0
    ensures n % Span(k) == 256 * ((n / 256) % Span(k - 1)) + n % 256
  {
    var p := Span(k - 1);
    var q := n / 256;
    assert n == 256 * q + n % 256 && q == p * (q / p) + q % p;
    assert 256 * (p * (q / p)) == Span(k) * (q / p);
    DivModUnique(n, Span(k), q / p, 256 * (q % p) + n % 256);
  }

  /** Comparing the bytes compares the numbers, modulo the span. */
  lemma {:induction false} BigEndianOrder(n: nat, m: nat, k: nat)
    ensures LexLe(BigEndian(n, k), BigEndian(m, k)) <==> n % Span(k) <= m % Span(k)
    ensures BigEndian(n, k) == BigEndian(m, k) <==> n % Span(k) == m % Span(k)
  {
    if k > 0 {
      BigEndianOrder(n / 256, m / 256, k - 1);
      ModSpan(n, k);
      ModSpan(m, k);
      var a, b := BigEndian(n / 256, k - 1), BigEndian(m / 256, k - 1);
      LexLeAppend(a, b, [n % 256], [m % 256]);
      if BigEndian(n, k) == BigEndian(m, k) {
        assert a == BigEndian(n, k)[..k - 1] && b == BigEndian(m, k)[..k - 1];
        assert BigEndian(n, k)[k - 1] == n % 256 && BigEndian(m, k)[k - 1] == m % 256;
      }
    }
  }

  // ----- hexadecimal -----

  function HexDigit(d: int): char
    requires 0 <= d < 16
  {
    "0123456789abcdef"[d]
  }

  function Hex(bs: seq<Byte>): (s: string)
    ensures |s| == 2 * |bs|
  {
    if bs == [] then [] else [HexDigit(bs[0] / 16), HexDigit(bs[0] % 16)] + Hex(bs[1..])
  }

  lemma DigitOrder(d: int, e: int)
    requires 0 <= d < 16 && 0 <= e < 16
    ensures HexDigit(d) < HexDigit(e) <==> d < e
    ensures HexDigit(d) == HexDigit(e) <==> d == e
  {
    assert forall i :: 0 <= i < 10 ==> "0123456789abcdef"[i] == '0' + i as char;
    assert forall i :: 10 <= i < 16 ==> "0123456789abcdef"[i] == 'a' + (i - 10) as char;
  }

  /** Hexadecimal text sorts, and collides, exactly as the bytes do. */
  lemma {:induction false} HexOrder(a: seq<Byte>, b: seq<Byte>)
    ensures StrLe(Hex(a), Hex(b)) <==> LexLe(a, b)
    ensures Hex(a) == Hex(b) <==> a == b
  {
    hide HexDigit;
    if a != [] && b != [] {
      var s, t := Hex(a), Hex(b);
      HexOrder(a[1..], b[1..]);
      DigitOrder(a[0] / 16, b[0] / 16);
      DigitOrder(a[0] % 16, b[0] % 16);
      assert s[1..][1..] == Hex(a[1..]) && t[1..][1..] == Hex(b[1..]);
      assert a == [a[0]] + a[1..] && b == [b[0]] + b[1..];
      assert StrLe(s[1..], t[1..]) <==> s[1] < t[1] || (s[1] == t[1] && StrLe(s[1..][1..], t[1..][1..]));
      if s == t { assert s[0] == t[0] && s[1] == t[1]; }
    }
  }

  // ----- ids -----

  function IdBytes(now: nat, rand: seq<Byte>, n: nat): seq<Byte> {
    BigEndian(now, 4) + (rand + BigEndian(n, 3))
  }

  function Id(now: nat, rand: seq<Byte>, n: nat): string {
    Hex(IdBytes(now, rand, n))
  }

  // ----- an id, read back -----

  function DigitValue(c: char): int {
    if '0' <= c <= '9' then c as int - '0' as int else if 'a' <= c <= 'f' then c as int - 'a' as int + 10 else -1
  }

  /** The number that hexadecimal text stands for. */
  function HexNumber(s: string): int {
    if s == [] then 0 else 16 * HexNumber(s[..|s| - 1]) + DigitValue(s[|s| - 1])
  }

  lemma {:induction false} HexAppend(a: seq<Byte>, b: seq<Byte>)
    ensures Hex(a + b) == Hex(a) + Hex(b)
  {
    hide HexDigit;
    if a == [] {
      assert a + b == b;
    } else {
      HexAppend(a[1..], b);
      assert (a + b)[1..] == a[1..] + b;
    }
  }

  lemma OneByte(s: string, b: Byte)
    ensures HexNumber(s + Hex([b])) == 256 * HexNumber(s) + b
  {
    var x, y := HexDigit(b / 16), HexDigit(b % 16);
    assert Hex([b]) == [x, y] + Hex([b][1..]) == [x, y];
    var t := s + [x, y];
    assert t[..|t| - 1] == s + [x] && (s + [x])[..|s|] == s;
    DigitOf(b / 16);
    DigitOf(b % 16);
  }

  lemma DigitOf(d: int)
    requires 0 <= d < 16
    ensures DigitValue(HexDigit(d)) == d
  {
  }

  lemma {:induction false} NumberOf(n: nat, k: nat)
    ensures HexNumber(Hex(BigEndian(n, k))) == n % Span(k)
  {
    if k > 0 {
      hide HexDigit;
      NumberOf(n / 256, k - 1);
      HexAppend(BigEndian(n / 256, k - 1), [n % 256]);
      OneByte(Hex(BigEndian(n / 256, k - 1)), n % 256);
      ModSpan(n, k);
    }
  }

  /** An id is 24 digits: 8 for the second, 10 for the bytes of the process and 6 for the counter. */
  lemma IdReadsBack(now: nat, rand: seq<Byte>, n: nat)
    requires |rand| == 5
    ensures var id := Id(now, rand, n);
      && |id| == 24 && HexNumber(id[..8]) == now % CLOCK && HexNumber(id[18..]) == n % COUNTER
      && forall i :: 0 <= i < 5 ==> HexNumber(id[8 + 2 * i..10 + 2 * i]) == rand[i]
  {
    hide BigEndian, HexNumber, Span;
    Spans();
    var a, b, c := BigEndian(now, 4), rand, BigEndian(n, 3);
    HexAppend(a, b + c);
    HexAppend(b, c);
    NumberOf(now, 4);
    NumberOf(n, 3);
    var id := Id(now, rand, n);
    assert id == Hex(a) + (Hex(b) + Hex(c));
    assert id[..8] == Hex(a) && id[18..] == Hex(c);
    forall i | 0 <= i < 5 ensures HexNumber(id[8 + 2 * i..10 + 2 * i]) == rand[i] {
      assert b == b[..i] + ([b[i]] + b[i + 1..]);
      HexAppend(b[..i], [b[i]] + b[i + 1..]);
      HexAppend([b[i]], b[i + 1..]);
      assert id[8 + 2 * i..10 + 2 * i] == Hex([b[i]]);
      NoText(b[i]);
    }
  }

  lemma NoText(b: Byte)
    ensures HexNumber(Hex([b])) == b
  {
    OneByte("", b);
    assert "" + Hex([b]) == Hex([b]);
  }

  const CLOCK: nat := 0x1_0000_0000
  const COUNTER: nat := 0x100_0000

  lemma Spans()
    ensures Span(4) == CLOCK && Span(3) == COUNTER
  {
    assert Span(1) == 256 && Span(2) == 0x1_0000;
  }

  /** Two ids, of any processes, coincide exactly when second, process bytes and counter do. */
  lemma CoincideExactly(now: nat, rand: seq<Byte>, n: nat, now': nat, rand': seq<Byte>, n': nat)
    requires |rand| == |rand'| == 5
    ensures Id(now, rand, n) == Id(now', rand', n')
      <==> now % CLOCK == now' % CLOCK && rand == rand' && n % COUNTER == n' % COUNTER
  {
    hide BigEndian, Span;
    Spans();
    HexOrder(IdBytes(now, rand, n), IdBytes(now', rand', n'));
    BigEndianOrder(now, now', 4);
    BigEndianOrder(n, n', 3);
    var x, y := IdBytes(now, rand, n), IdBytes(now', rand', n');
    assert x[..4] == BigEndian(now, 4) && x[4..9] == rand && x[9..] == BigEndian(n, 3);
    assert y[..4] == BigEndian(now', 4) && y[4..9] == rand' && y[9..] == BigEndian(n', 3);
  }

  /** Two ids of one process compare as their (second, counter) pairs do. */
  lemma OrderExactly(now: nat, n: nat, now': nat, n': nat, rand: seq<Byte>)
    requires |rand| == 5
    ensures StrLess(Id(now, rand, n), Id(now', rand, n'))
      <==> now % CLOCK < now' % CLOCK || (now % CLOCK == now' % CLOCK && n % COUNTER < n' % COUNTER)
  {
    hide BigEndian, Span;
    Spans();
    CoincideExactly(now, rand, n, now', rand, n');
    HexOrder(IdBytes(now, rand, n), IdBytes(now', rand, n'));
    BigEndianOrder(now, now', 4);
    BigEndianOrder(n, n', 3);
    var c, c' := BigEndian(n, 3), BigEndian(n', 3);
    LexLeAppend(BigEndian(now, 4), BigEndian(now', 4), rand + c, rand + c');
    LexLeAppend(rand, rand, c, c');
  }

  // ----- runs of one process -----

  /** The 64-bit counter of the process. */
  const WORD: nat := 0x1_0000_0000_0000_0000

  function Mints(rand: seq<Byte>, counter: nat, times: seq<nat>): (ids: seq<string>)
    ensures |ids| == |times|
    decreases |times|
  {
    if times == [] then []
    else [Id(times[0], rand, (counter + 1) % WORD)] + Mints(rand, (counter + 1) % WORD, times[1..])
  }

  lemma ModOfWord(a: nat, b: nat)
    ensures (a % WORD + b) % COUNTER == (a + b) % COUNTER
  {
    var k: nat := WORD / COUNTER;
    assert a == WORD * (a / WORD) + a % WORD;
    var d, r := COUNTER, (a % WORD + b) % COUNTER;
    var q: nat := (a % WORD + b) / COUNTER;
    assert a + b == d * (q + k * (a / WORD)) + r;
    DivModUnique(a + b, d, q + k * (a / WORD), r);
  }

  /** The i-th id of a run carries the i-th second and the i-th counter value, however often
      the 64-bit counter wrapped. */
  lemma {:induction false} MintAt(rand: seq<Byte>, counter: nat, times: seq<nat>, i: nat)
    requires |rand| == 5 && i < |times|
    ensures Mints(rand, counter, times)[i] == Id(times[i], rand, counter + 1 + i)
    decreases |times|
  {
    hide Id;
    if i == 0 {
      ModOfWord(counter + 1, 0);
      CoincideExactly(times[0], rand, (counter + 1) % WORD, times[0], rand, counter + 1);
    } else {
      var next := (counter + 1) % WORD;
      MintAt(rand, next, times[1..], i - 1);
      ModOfWord(counter + 1, i);
      CoincideExactly(times[i], rand, next + 1 + (i - 1), times[i], rand, counter + 1 + i);
    }
  }

  predicate ClockRuns(times: seq<nat>) {
    && (forall i :: 0 <= i < |times| ==> times[i] < CLOCK)
    && (forall i, j :: 0 <= i < j < |times| ==> times[i] <= times[j])
  }

  /** MAIN RESULT.  From a start value of at most 16 bits, and with a clock that does not go
      back, the first 2^24 - 2^16 ids of a process are strictly increasing. */
  lemma MintsIncrease(rand: seq<Byte>, counter: nat, times: seq<nat>, i: nat, j: nat)
    requires |rand| == 5 && counter <= 0xFFFF && ClockRuns(times)
    requires |times| <= 0x100_0000 - 0x1_0000 && i < j < |times|
    ensures StrLess(Mints(rand, counter, times)[i], Mints(rand, counter, times)[j])
  {
    hide Id, Mints;
    MintAt(rand, counter, times, i);
    MintAt(rand, counter, times, j);
    OrderExactly(times[i], counter + 1 + i, times[j], counter + 1 + j, rand);
    assert counter + 1 + j < COUNTER;
  }

  /** The bound is tight: the id after the counter's third byte rolls over sorts before its
      predecessor of the same second. */
  lemma RolloverGoesBack(rand: seq<Byte>, times: seq<nat>, now: nat, j: nat)
    requires |rand| == 5 && j == 0x100_0000 - 0x1_0000 && j < |times|
    requires times[j - 1] == times[j] == now
    ensures StrLess(Mints(rand, 0xFFFF, times)[j], Mints(rand, 0xFFFF, times)[j - 1])
  {
    hide Id, Mints;
    MintAt(rand, 0xFFFF, times, j - 1);
    MintAt(rand, 0xFFFF, times, j);
    OrderExactly(now, 0xFFFF + 1 + j, now, 0xFFFF + j, rand);
  }

  /** Two ids of one run coincide exactly when they fall in one second, modulo 2^32, and a
      multiple of 2^24 mints apart. */
  lemma MintsCoincide(rand: seq<Byte>, counter: nat, times: seq<nat>, i: nat, j: nat)
    requires |rand| == 5 && i < j < |times|
    ensures Mints(rand, counter, times)[i] == Mints(rand, counter, times)[j]
      <==> times[i] % CLOCK == times[j] % CLOCK && (j - i) % COUNTER == 0
  {
    hide Id, Mints;
    MintAt(rand, counter, times, i);
    MintAt(rand, counter, times, j);
    CoincideExactly(times[i], rand, counter + 1 + i, times[j], rand, counter + 1 + j);
  }

  /** The process-wide state of `NewID`. */
  class IdSource {
    const rand: seq<Byte>
    var counter: nat

    ghost predicate Valid()
      reads this
    {
      |rand| == 5 && counter < WORD
    }

    /** `seed` and `rand` come from the random source; the counter starts small. */
    constructor (rand: seq<Byte>, seed: nat)
      requires |rand| == 5
      ensures Valid() && this.rand == rand && counter <= 0xFFFF
    {
      this.rand := rand;
      counter := seed % 0x1_0000;
    }

    method NewID(now: nat) returns (id: string)
      requires Valid()
      modifies this
      ensures Valid() && counter == (old(counter) + 1) % WORD
      ensures |id| == 24 && [id] == Mints(rand, old(counter), [now])
    {
      var b := new Byte[12](_ => 0);
      b[0], b[1], b[2], b[3] := now / 0x100_0000 % 256, now / 0x1_0000 % 256, now / 256 % 256, now % 256;
      forall i | 0 <= i < 5 { b[4 + i] := rand[i]; }
      counter := (counter + 1) % WORD;
      var n := counter;
      b[9], b[10], b[11] := n / 0x1_0000 % 256, n / 256 % 256, n % 256;
      FourBytes(now);
      ThreeBytes(n);
      assert b[..] == IdBytes(now, rand, n);
      id := Hex(b[..]);
    }
  }

  lemma FourBytes(n: nat)
    ensures BigEndian(n, 4) == [n / 0x100_0000 % 256, n / 0x1_0000 % 256, n / 256 % 256, n % 256]
  {
    ThreeBytes(n / 256);
    assert n / 256 / 0x1_0000 == n / 0x100_0000 && n / 256 / 256 == n / 0x1_0000;
  }

  lemma ThreeBytes(n: nat)
    ensures BigEndian(n, 3) == [n / 0x1_0000 % 256, n / 256 % 256, n % 256]
  {
    assert n / 256 / 256 == n / 0x1_0000;
    assert BigEndian(n / 0x1_0000, 1) == [n / 0x1_0000 % 256];
    assert BigEndian(n / 256, 2) == [n / 0x1_0000 % 256, n / 256 % 256];
  }
}
