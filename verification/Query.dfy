/** The canonical query string that a signed request is checked against: percent-encoding,
    sorting and joining of the key/value pairs. */
module Query {
  import opened Base
  import opened Ordering

  /** A Go string holds bytes; one character stands for one byte. */
  type Bytes = s: string | forall i :: 0 <= i < |s| ==> s[i] as int < 256

  type Pair = (Bytes, Bytes)

  // ----- encoding -----

  /** The unreserved set of section 2.3 of RFC 3986. */
  predicate Unreserved(c: char) {
    'A' <= c <= 'Z' || 'a' <= c <= 'z' || '0' <= c <= '9' || c == '-' || c == '.' || c == '_' || c == '~'
  }

  predicate Ascii(c: char) {
    c as int < 128
  }

  function HexDigit(d: int): char
    requires 0 <= d < 16
  {
    "0123456789ABCDEF"[d]
  }

  function HexValue(c: char): (d: int) {
    if '0' <= c <= '9' then c as int - '0' as int
    else if 'A' <= c <= 'F' then c as int - 'A' as int + 10
    else 0
  }

  lemma HexDigitFacts(d: int)
    requires 0 <= d < 16
    ensures HexValue(HexDigit(d)) == d
    ensures '0' <= HexDigit(d) <= '9' || 'A' <= HexDigit(d) <= 'F'
  {
  }

  function Percent(b: int): (r: string)
    requires 0 <= b < 256
    ensures |r| == 3
  {
    ['%', HexDigit(b / 16), HexDigit(b % 16)]
  }

  /** UTF-8 of the code point whose number is the byte, as Go's `string(c)` produces it. */
  function Utf8(c: char): (bs: seq<int>)
    requires c as int < 256
    ensures forall i :: 0 <= i < |bs| ==> 0 <= bs[i] < 256
  {
    if Ascii(c) then [c as int] else [0xC0 + c as int / 64, 0x80 + c as int % 64]
  }

  /** `url.QueryEscape`, byte by byte; a space becomes a plus sign. */
  function QueryEscape(bs: seq<int>): string
    requires forall i :: 0 <= i < |bs| ==> 0 <= bs[i] < 256
  {
    if bs == [] then [] else EscapeByte(bs[0]) + QueryEscape(bs[1..])
  }

  function EscapeByte(b: int): string
    requires 0 <= b < 256
  {
    if Unreserved(b as char) then [b as char] else if b == 0x20 then "+" else Percent(b)
  }

  /** `strings.ReplaceAll(s, "+", "%20")`. */
  function PlusToSpace(s: string): string {
    if s == [] then [] else PlusStep(s[0]) + PlusToSpace(s[1..])
  }

  function PlusStep(c: char): string {
    if c == '+' then "%20" else [c]
  }

  /** What one byte contributes to the encoded string. */
  function Code(c: char): string
    requires c as int < 256
  {
    if Unreserved(c) then [c]
    else if Ascii(c) then Percent(c as int)
    else Percent(0xC0 + c as int / 64) + Percent(0x80 + c as int % 64)
  }

  function Encode(s: Bytes): string {
    if s == [] then [] else Code(s[0]) + Encode(s[1..])
  }

  lemma {:induction false} PlusToSpaceAppend(s: string, t: string)
    ensures PlusToSpace(s + t) == PlusToSpace(s) + PlusToSpace(t)
  {
    hide PlusStep;
    if s == [] {
      assert s + t == t;
    } else {
      PlusToSpaceAppend(s[1..], t);
      assert (s + t)[1..] == s[1..] + t && (s + t)[0] == s[0];
      var h, x, y := PlusStep(s[0]), PlusToSpace(s[1..]), PlusToSpace(t);
      assert h + (x + y) == (h + x) + y;
    }
  }

  lemma {:induction false} NoPlus(s: string)
    requires '+' !in s
    ensures PlusToSpace(s) == s
  {
    if s != [] {
      NoPlus(s[1..]);
      assert s == [s[0]] + s[1..];
    }
  }

  lemma EscapeOne(b: int)
    requires 0 <= b < 256
    ensures QueryEscape([b]) == EscapeByte(b)
  {
    hide EscapeByte;
    assert QueryEscape([b]) == EscapeByte(b) + QueryEscape([b][1..]);
  }

  lemma EscapeUtf8(c: char)
    requires c as int < 256
    ensures QueryEscape(Utf8(c)) == if Ascii(c) then EscapeByte(c as int) else Code(c)
  {
    hide Percent;
    if Ascii(c) {
      EscapeOne(c as int);
    } else {
      var a, b := 0xC0 + c as int / 64, 0x80 + c as int % 64;
      EscapeOne(b);
      assert [a, b][1..] == [b];
      assert QueryEscape([a, b]) == EscapeByte(a) + QueryEscape([b]);
      assert EscapeByte(a) == Percent(a) && EscapeByte(b) == Percent(b);
    }
  }

  /** One byte through rune conversion, query escaping and the plus replacement. */
  lemma StepIsCode(c: char)
    requires c as int < 256
    ensures PlusToSpace(if Unreserved(c) then [c] else QueryEscape(Utf8(c))) == Code(c)
  {
    hide Percent, QueryEscape, Utf8, PlusToSpace;
    CodeAlphabet(c);
    EscapeUtf8(c);
    if c == ' ' {
      SpaceIsEscaped();
    } else {
      NoPlus(Code(c));
    }
  }

  lemma SpaceIsEscaped()
    ensures PlusToSpace("+") == Percent(0x20)
  {
    assert PlusToSpace("+") == "%20" + PlusToSpace("+"[1..]);
  }

  lemma {:induction false} EncodeAppend(s: Bytes, c: char)
    requires c as int < 256
    ensures Encode(s + [c]) == Encode(s) + Code(c)
  {
    hide Code;
    if s == [] {
      assert s + [c] == [c];
      assert Encode([c]) == Code(c) + Encode([c][1..]);
    } else {
      EncodeAppend(s[1..], c);
      assert (s + [c])[1..] == s[1..] + [c];
    }
  }

  /** `awsEncode`, with its loop over the bytes and its final replacement. */
  method AwsEncode(s: Bytes) returns (r: string)
    ensures r == Encode(s)
  {
    hide Code;
    var b := "";
    for i := 0 to |s|
      invariant PlusToSpace(b) == Encode(s[..i])
    {
      var c := s[i];
      StepIsCode(c);
      EncodeAppend(s[..i], c);
      assert s[..i + 1] == s[..i] + [c];
      var piece := if Unreserved(c) then [c] else QueryEscape(Utf8(c));
      PlusToSpaceAppend(b, piece);
      b := b + piece;
    }
    assert s[..|s|] == s;
    r := PlusToSpace(b);
  }

  // ----- what the encoding keeps -----

  predicate InAlphabet(s: string) {
    forall i :: 0 <= i < |s| ==> Unreserved(s[i]) || s[i] == '%'
  }

  lemma CodeAlphabet(c: char)
    requires c as int < 256
    ensures InAlphabet(Code(c)) && '+' !in Code(c) && Code(c) != []
  {
    hide HexDigit;
    var n := c as int;
    HexDigitFacts(n / 16);
    HexDigitFacts(n % 16);
    var a, b := 0xC0 + n / 64, 0x80 + n % 64;
    HexDigitFacts(a / 16);
    HexDigitFacts(a % 16);
    HexDigitFacts(b / 16);
    HexDigitFacts(b % 16);
  }

  /** Only unreserved characters and percent signs come out: no `=` and no `&`. */
  lemma {:induction false} EncodeAlphabet(s: Bytes)
    ensures InAlphabet(Encode(s)) && '=' !in Encode(s) && '&' !in Encode(s)
  {
    hide Code;
    if s != [] {
      CodeAlphabet(s[0]);
      EncodeAlphabet(s[1..]);
    }
  }

  function PercentValue(t: string): (v: int)
    requires |t| >= 3
    ensures 0 <= v < 256
  {
    HexValue(t[1]) * 16 + HexValue(t[2])
  }

  lemma PercentValueOf(b: int, rest: string)
    requires 0 <= b < 256
    ensures PercentValue(Percent(b) + rest) == b
  {
    hide HexDigit, HexValue;
    HexDigitFacts(b / 16);
    HexDigitFacts(b % 16);
  }

  /** A reader for encoded text: the escape of a byte below 128 stands for itself, any other is
      the first of two that together carry one byte. */
  function Decode(t: string): Bytes
    decreases |t|
  {
    if t == [] then []
    else if t[0] != '%' then (if t[0] as int < 256 then [t[0]] else []) + Decode(t[1..])
    else if |t| < 3 then []
    else if PercentValue(t) < 128 then [PercentValue(t) as char] + Decode(t[3..])
    else if |t| < 6 then []
    else [(PercentValue(t) % 4 * 64 + PercentValue(t[3..]) % 64) as char] + Decode(t[6..])
  }

  lemma DecodePlain(c: char, rest: string)
    requires c as int < 256 && c != '%'
    ensures Decode([c] + rest) == [c] + Decode(rest)
  {
    hide PercentValue;
    assert ([c] + rest)[1..] == rest;
  }

  lemma DecodeOne(n: int, rest: string)
    requires 0 <= n < 128
    ensures Decode(Percent(n) + rest) == [n as char] + Decode(rest)
  {
    hide PercentValue, HexDigit;
    PercentValueOf(n, rest);
    assert (Percent(n) + rest)[3..] == rest;
  }

  lemma DecodeTwo(n: int, rest: string)
    requires 128 <= n < 256
    ensures Decode(Percent(0xC0 + n / 64) + Percent(0x80 + n % 64) + rest) == [n as char] + Decode(rest)
  {
    hide PercentValue, HexDigit;
    var a, b := 0xC0 + n / 64, 0x80 + n % 64;
    var t := Percent(a) + Percent(b) + rest;
    assert t == Percent(a) + (Percent(b) + rest);
    PercentValueOf(a, Percent(b) + rest);
    PercentValueOf(b, rest);
    assert t[3..] == Percent(b) + rest && t[6..] == rest;
    assert t[0] == '%' && a % 4 * 64 + b % 64 == n;
  }

  lemma DecodeCode(c: char, rest: string)
    requires c as int < 256
    ensures Decode(Code(c) + rest) == [c] + Decode(rest)
  {
    hide Percent, Decode;
    if Unreserved(c) {
      DecodePlain(c, rest);
    } else if Ascii(c) {
      DecodeOne(c as int, rest);
    } else {
      DecodeTwo(c as int, rest);
    }
  }

  /** MAIN RESULT.  The encoding of every byte string can be read back, so it is injective,
      beyond ASCII too. */
  lemma {:induction false} EncodeRoundTrip(s: Bytes)
    ensures Decode(Encode(s)) == s
  {
    hide Code, PercentValue;
    if s != [] {
      EncodeRoundTrip(s[1..]);
      DecodeCode(s[0], Encode(s[1..]));
      assert s == [s[0]] + s[1..];
    }
  }

  /** Percent-encoding as section 2.1 of RFC 3986 has it: one escape for every byte. */
  function PctEncode(s: Bytes): string {
    if s == [] then [] else (if Unreserved(s[0]) then [s[0]] else Percent(s[0] as int)) + PctEncode(s[1..])
  }

  /** A byte from 128 up is encoded twice over, so the result is the standard's exactly for
      ASCII strings. */
  lemma {:induction false} EncodeIsStandard(s: Bytes)
    ensures Encode(s) == PctEncode(s) <==> forall i :: 0 <= i < |s| ==> Ascii(s[i])
    ensures |Encode(s)| >= |PctEncode(s)|
    ensures (exists i :: 0 <= i < |s| && !Ascii(s[i])) ==> |Encode(s)| > |PctEncode(s)|
  {
    hide Percent;
    if s != [] {
      EncodeIsStandard(s[1..]);
      var t := s[1..];
      assert forall i :: 0 <= i < |t| ==> t[i] == s[i + 1];
      if i :| 0 <= i < |s| && !Ascii(s[i]) {
        if i > 0 { assert !Ascii(t[i - 1]); }
        assert |Code(s[0])| >= |if Unreserved(s[0]) then [s[0]] else Percent(s[0] as int)|;
        assert |Encode(s)| > |PctEncode(s)|;
      }
    }
  }

  /** One byte below 128: itself if unreserved, else a percent sign and two upper-case digits. */
  lemma OneCharacter(c: char)
    requires c as int < 128
    ensures Encode([c]) == if 'A' <= c <= 'Z' || 'a' <= c <= 'z' || '0' <= c <= '9' || c in {'-', '.', '_', '~'} then [c]
                           else ['%', "01234567"[c as int / 16], "0123456789ABCDEF"[c as int % 16]]
  {
    assert [c][1..] == [] && Encode([c]) == Code(c) + Encode([c][1..]) == Code(c);
  }

  /** One byte from 128 up: the escapes of the two bytes of its code point in UTF-8. */
  lemma OneHighByte(c: char)
    requires 128 <= c as int < 256
    ensures Encode([c]) == ['%', 'C', if c as int < 192 then '2' else '3'] + ['%', "89AB"[c as int % 64 / 16], "0123456789ABCDEF"[c as int % 16]]
  {
    hide Percent;
    assert [c][1..] == [] && Encode([c]) == Code(c) + Encode([c][1..]) == Code(c);
    TwoEscapes(c as int);
  }

  lemma TwoEscapes(n: int)
    requires 128 <= n < 256
    ensures Percent(0xC0 + n / 64) == ['%', 'C', if n < 192 then '2' else '3']
    ensures Percent(0x80 + n % 64) == ['%', "89AB"[n % 64 / 16], "0123456789ABCDEF"[n % 16]]
  {
    var a, b := 0xC0 + n / 64, 0x80 + n % 64;
    assert a == if n < 192 then 0xC2 else 0xC3;
    assert b / 16 == 8 + n % 64 / 16 && b % 16 == n % 16 by { assert n % 64 % 16 == n % 16; }
    assert forall d :: 0 <= d < 4 ==> "0123456789ABCDEF"[8 + d] == "89AB"[d];
  }

  /** And a longer text is encoded character by character. */
  lemma {:induction false} EncodeConcat(s: Bytes, t: Bytes)
    ensures Encode(s + t) == Encode(s) + Encode(t)
  {
    hide Code;
    if s == [] {
      assert s + t == t;
    } else {
      EncodeConcat(s[1..], t);
      assert (s + t)[1..] == s[1..] + t;
    }
  }

  // ----- pairs -----

  function EncodePair(p: Pair): (string, string) {
    (Encode(p.0), Encode(p.1))
  }

  function DecodePair(p: (string, string)): Pair {
    (Decode(p.0), Decode(p.1))
  }

  function MapSeq<A, B>(f: A -> B, xs: seq<A>): (ys: seq<B>)
    ensures |ys| == |xs| && forall i :: 0 <= i < |xs| ==> ys[i] == f(xs[i])
  {
    seq(|xs|, i requires 0 <= i < |xs| => f(xs[i]))
  }

  /** By key, then by value. */
  predicate PairLe(a: (string, string), b: (string, string)) {
    if a.0 != b.0 then StrLess(a.0, b.0) else StrLe(a.1, b.1)
  }

  lemma PairLeTotal()
    ensures TotalOrder(PairLe)
  {
    StrLeTotal();
  }

  function Render(p: (string, string)): string {
    p.0 + "=" + p.1
  }

  function CanonicalOf(pairs: seq<Pair>): string {
    Join(MapSeq(Render, Sort(PairLe, MapSeq(EncodePair, pairs))), "&")
  }

  lemma {:induction false} SplitAfter(a: string, t: string, sep: char)
    requires sep !in a
    ensures Split(a + [sep] + t, sep) == [a] + Split(t, sep)
  {
    var s := a + [sep] + t;
    if a == [] {
      assert s[1..] == t;
    } else {
      SplitAfter(a[1..], t, sep);
      assert s[1..] == a[1..] + [sep] + t;
      assert a == [a[0]] + a[1..];
    }
  }

  /** Joining parts free of the separator loses nothing. */
  lemma {:induction false} JoinSplit(parts: seq<string>, sep: char)
    requires parts != [] && forall i :: 0 <= i < |parts| ==> sep !in parts[i]
    ensures Split(Join(parts, [sep]), sep) == parts
  {
    if |parts| == 1 {
      SplitSingle(parts[0], sep);
    } else {
      JoinSplit(parts[1..], sep);
      SplitAfter(parts[0], Join(parts[1..], [sep]), sep);
      assert parts == [parts[0]] + parts[1..];
    }
  }

  /** An encoded pair's text: it names the pair, is not empty and holds no ampersand. */
  lemma RenderFacts(p: Pair, q: Pair)
    ensures Render(EncodePair(p)) == Render(EncodePair(q)) ==> p == q
    ensures '&' !in Render(EncodePair(p)) && Render(EncodePair(p)) != []
  {
    hide Encode, Decode;
    var e, f := EncodePair(p), EncodePair(q);
    EncodeAlphabet(p.0);
    EncodeAlphabet(p.1);
    EncodeAlphabet(q.0);
    EncodeAlphabet(q.1);
    SplitAfter(e.0, e.1, '=');
    SplitAfter(f.0, f.1, '=');
    SplitSingle(e.1, '=');
    SplitSingle(f.1, '=');
    if Render(e) == Render(f) {
      assert [e.0] + [e.1] == [f.0] + [f.1];
      assert ([e.0] + [e.1])[0] == ([f.0] + [f.1])[0] && ([e.0] + [e.1])[1] == ([f.0] + [f.1])[1];
      EncodeRoundTrip(p.0);
      EncodeRoundTrip(p.1);
      EncodeRoundTrip(q.0);
      EncodeRoundTrip(q.1);
    }
  }

  function Texts(xs: seq<Pair>): (ts: seq<string>)
    ensures |ts| == |xs| && forall i :: 0 <= i < |xs| ==> ts[i] == Render(EncodePair(xs[i]))
  {
    MapSeq(Render, MapSeq(EncodePair, xs))
  }

  /** The joined text of a list of pairs determines the list, the empty one included. */
  lemma TextsInjective(xs: seq<Pair>, ys: seq<Pair>)
    requires Join(Texts(xs), "&") == Join(Texts(ys), "&")
    ensures xs == ys
  {
    hide Render, EncodePair;
    forall i | 0 <= i < |xs| ensures '&' !in Texts(xs)[i] && Texts(xs)[i] != [] {
      RenderFacts(xs[i], xs[i]);
    }
    forall i | 0 <= i < |ys| ensures '&' !in Texts(ys)[i] && Texts(ys)[i] != [] {
      RenderFacts(ys[i], ys[i]);
    }
    if xs != [] && ys != [] {
      JoinSplit(Texts(xs), '&');
      JoinSplit(Texts(ys), '&');
      forall i | 0 <= i < |xs| ensures xs[i] == ys[i] {
        assert Texts(xs)[i] == Texts(ys)[i];
        RenderFacts(xs[i], ys[i]);
      }
    }
  }

  lemma RemoveOne<A>(xs: seq<A>, i: nat)
    requires i < |xs|
    ensures multiset(xs) == multiset(xs[..i] + xs[i + 1..]) + multiset{xs[i]}
    ensures multiset(xs[..i] + xs[i + 1..]) == multiset(xs) - multiset{xs[i]}
  {
    assert xs == xs[..i] + [xs[i]] + xs[i + 1..];
  }

  lemma MapRemoveOne<A, B>(f: A -> B, xs: seq<A>, i: nat)
    requires i < |xs|
    ensures multiset(MapSeq(f, xs)) == multiset(MapSeq(f, xs[..i] + xs[i + 1..])) + multiset{f(xs[i])}
    ensures multiset(xs[..i] + xs[i + 1..]) == multiset(xs) - multiset{xs[i]}
  {
    RemoveOne(xs, i);
    var fx := MapSeq(f, xs);
    RemoveOne(fx, i);
    assert fx[..i] + fx[i + 1..] == MapSeq(f, xs[..i] + xs[i + 1..]);
  }

  lemma {:induction false} MapMultiset<A(!new), B(!new)>(f: A -> B, xs: seq<A>, ys: seq<A>)
    requires multiset(xs) == multiset(ys)
    ensures multiset(MapSeq(f, xs)) == multiset(MapSeq(f, ys))
    decreases |xs|
  {
    assert |xs| == |multiset(xs)| == |multiset(ys)| == |ys|;
    if xs == [] {
      assert MapSeq(f, xs) == MapSeq(f, ys);
    } else {
      hide MapSeq;
      assert xs[0] in multiset(ys);
      var i :| 0 <= i < |ys| && ys[i] == xs[0];
      MapRemoveOne(f, xs, 0);
      MapRemoveOne(f, ys, i);
      var xr, yr := xs[..0] + xs[1..], ys[..i] + ys[i + 1..];
      MapMultiset(f, xr, yr);
    }
  }

  /** Sorting the encoded pairs is encoding some rearrangement of the pairs. */
  lemma SortedDecodes(p: seq<Pair>) returns (d: seq<Pair>)
    ensures multiset(d) == multiset(p)
    ensures CanonicalOf(p) == Join(Texts(d), "&")
    ensures forall i, j :: 0 <= i < j < |d| ==> PairLe(EncodePair(d[i]), EncodePair(d[j]))
  {
    hide PairLe, Encode, Decode;
    var e := MapSeq(EncodePair, p);
    PairLeTotal();
    SortSorts(PairLe, e);
    var sorted := Sort(PairLe, e);
    d := MapSeq(DecodePair, sorted);
    MapMultiset(DecodePair, sorted, e);
    forall x: Pair ensures DecodePair(EncodePair(x)) == x {
      EncodeRoundTrip(x.0);
      EncodeRoundTrip(x.1);
    }
    assert MapSeq(DecodePair, e) == p;
    forall i | 0 <= i < |sorted| ensures EncodePair(d[i]) == sorted[i] {
      assert sorted[i] in multiset(e);
      var j :| 0 <= j < |e| && e[j] == sorted[i];
      assert e[j] == EncodePair(p[j]);
    }
    assert MapSeq(EncodePair, d) == sorted;
  }

  /** The canonical text identifies the multiset of pairs: nothing more, nothing less. */
  lemma CanonicalExactly(p: seq<Pair>, q: seq<Pair>)
    ensures CanonicalOf(p) == CanonicalOf(q) <==> multiset(p) == multiset(q)
  {
    hide PairLe, EncodePair, Render;
    if multiset(p) == multiset(q) {
      MapMultiset(EncodePair, p, q);
      PairLeTotal();
      SortCanonical(PairLe, MapSeq(EncodePair, p), MapSeq(EncodePair, q));
    }
    if CanonicalOf(p) == CanonicalOf(q) {
      var d := SortedDecodes(p);
      var e := SortedDecodes(q);
      TextsInjective(d, e);
    }
  }

  /** The canonical text written out: the pairs in the order of their encoded keys, those of one key
      in the order of their encoded values, each as key, equals sign and value, with ampersands in
      between. */
  lemma CanonicalIsSorted(p: seq<Pair>) returns (d: seq<Pair>)
    ensures multiset(d) == multiset(p)
    ensures forall i, j :: 0 <= i < j < |d| ==>
      StrLess(Encode(d[i].0), Encode(d[j].0)) || (Encode(d[i].0) == Encode(d[j].0) && StrLe(Encode(d[i].1), Encode(d[j].1)))
    ensures CanonicalOf(p) == Join(seq(|d|, i requires 0 <= i < |d| => Encode(d[i].0) + "=" + Encode(d[i].1)), "&")
  {
    hide Encode, Decode;
    d := SortedDecodes(p);
    var texts := seq(|d|, i requires 0 <= i < |d| => Encode(d[i].0) + "=" + Encode(d[i].1));
    assert texts == Texts(d);
  }

  // ----- multimaps -----

  type Values = map<Bytes, seq<Bytes>>

  /** How often the multimap holds a pair. */
  ghost function Count(q: Values, p: Pair): nat {
    if p.0 in q then multiset(q[p.0])[p.1] else 0
  }

  /** The pairs under one key, in the order of its values. */
  ghost function Under(k: Bytes, vs: seq<Bytes>): seq<Pair> {
    seq(|vs|, i requires 0 <= i < |vs| => (k, vs[i]))
  }

  lemma {:induction false} UnderCount(k: Bytes, vs: seq<Bytes>, p: Pair)
    ensures multiset(Under(k, vs))[p] == if p.0 == k then multiset(vs)[p.1] else 0
  {
    if vs != [] {
      var n := |vs| - 1;
      UnderCount(k, vs[..n], p);
      assert Under(k, vs) == Under(k, vs[..n]) + [(k, vs[n])];
      assert vs == vs[..n] + [vs[n]];
    } else {
      assert Under(k, vs) == [];
    }
  }

  /** The pairs of a multimap, its keys taken in the order given. */
  ghost function Along(q: Values, keys: seq<Bytes>): seq<Pair> {
    if keys == [] then []
    else Along(q, keys[..|keys| - 1]) + (var k := keys[|keys| - 1]; if k in q then Under(k, q[k]) else [])
  }

  ghost predicate Enumerates(keys: seq<Bytes>, q: Values) {
    multiset(keys) == multiset(q.Keys)
  }

  lemma {:induction false} AlongCount(q: Values, keys: seq<Bytes>, p: Pair)
    ensures multiset(Along(q, keys))[p] == multiset(keys)[p.0] * Count(q, p)
  {
    if keys != [] {
      var n := |keys| - 1;
      AlongCount(q, keys[..n], p);
      AlongLast(q, keys, p);
      OneMore(multiset(keys[..n])[p.0], Count(q, p));
    }
  }

  lemma OneMore(n: nat, c: nat)
    ensures (n + 1) * c == n * c + c
  {
  }

  lemma AlongLast(q: Values, keys: seq<Bytes>, p: Pair)
    requires keys != []
    ensures var n := |keys| - 1; var here := if p.0 == keys[n] then 1 else 0;
      && multiset(keys)[p.0] == multiset(keys[..n])[p.0] + here
      && multiset(Along(q, keys))[p] == multiset(Along(q, keys[..n]))[p] + if p.0 == keys[n] then Count(q, p) else 0
  {
    var n := |keys| - 1;
    assert keys == keys[..n] + [keys[n]];
    if keys[n] in q { UnderCount(keys[n], q[keys[n]], p); }
  }

  /** Whatever the iteration order, the pairs collected are the multimap's. */
  lemma OrderCounts(q: Values, keys: seq<Bytes>, p: Pair)
    requires Enumerates(keys, q)
    ensures multiset(Along(q, keys))[p] == Count(q, p)
  {
    hide Along;
    AlongCount(q, keys, p);
    if p.0 in q {
      assert multiset(keys)[p.0] == 1;
      assert multiset(Along(q, keys))[p] == 1 * Count(q, p);
    } else {
      assert Count(q, p) == 0;
    }
  }

  /** MAIN RESULT.  For any two multimaps and any two iteration orders, the canonical queries are
      equal exactly when the multimaps hold the same pairs equally often. */
  lemma CanonicalQueryExactly(p: Values, ps: seq<Bytes>, q: Values, qs: seq<Bytes>)
    requires Enumerates(ps, p) && Enumerates(qs, q)
    ensures CanonicalOf(Along(p, ps)) == CanonicalOf(Along(q, qs)) <==> forall x: Pair :: Count(p, x) == Count(q, x)
  {
    hide CanonicalOf, Along, Count;
    var a, b := Along(p, ps), Along(q, qs);
    CanonicalExactly(a, b);
    forall x: Pair ensures multiset(a)[x] == Count(p, x) && multiset(b)[x] == Count(q, x) {
      OrderCounts(p, ps, x);
      OrderCounts(q, qs, x);
    }
    if forall x: Pair :: Count(p, x) == Count(q, x) {
      forall x: Pair ensures multiset(a)[x] == multiset(b)[x] {
        assert Count(p, x) == Count(q, x);
      }
      assert multiset(a) == multiset(b);
    }
  }

  /** Encoding and collecting the pairs of one key. */
  method EncodeUnder(k: Bytes, vs: seq<Bytes>) returns (pairs: seq<(string, string)>)
    ensures pairs == MapSeq(EncodePair, Under(k, vs))
  {
    hide Encode;
    pairs := [];
    for i := 0 to |vs|
      invariant |pairs| == i && forall j :: 0 <= j < i ==> pairs[j] == EncodePair((k, vs[j]))
    {
      var ek := AwsEncode(k);
      var ev := AwsEncode(vs[i]);
      pairs := pairs + [(ek, ev)];
    }
    assert pairs == MapSeq(EncodePair, Under(k, vs));
  }

  /** The first loop: the keys come in an arbitrary order, which the second result records. */
  method CollectPairs(q: Values) returns (pairs: seq<(string, string)>, keys: seq<Bytes>)
    ensures Enumerates(keys, q) && pairs == MapSeq(EncodePair, Along(q, keys))
  {
    hide EncodePair;
    var rest := q.Keys;
    pairs, keys := [], [];
    assert q.Keys - rest == {};
    while rest != {}
      invariant rest <= q.Keys && multiset(keys) == multiset(q.Keys - rest)
      invariant pairs == MapSeq(EncodePair, Along(q, keys))
      decreases |rest|
    {
      var k :| k in rest;
      assert q.Keys - (rest - {k}) == (q.Keys - rest) + {k};
      var more := EncodeUnder(k, q[k]);
      assert (keys + [k])[..|keys|] == keys;
      assert Along(q, keys + [k]) == Along(q, keys) + Under(k, q[k]);
      MapSeqAppend(EncodePair, Along(q, keys), Under(k, q[k]));
      pairs, rest, keys := pairs + more, rest - {k}, keys + [k];
    }
    assert q.Keys - rest == q.Keys;
  }

  lemma MapSeqAppend<A, B>(f: A -> B, xs: seq<A>, ys: seq<A>)
    ensures MapSeq(f, xs + ys) == MapSeq(f, xs) + MapSeq(f, ys)
  {
  }

  /** `canonicalQuery`: the result is the same for every iteration order of the keys. */
  method CanonicalQuery(q: Values) returns (r: string)
    ensures exists keys :: Enumerates(keys, q) && r == CanonicalOf(Along(q, keys))
    ensures forall keys :: Enumerates(keys, q) ==> r == CanonicalOf(Along(q, keys))
  {
    hide EncodePair, PairLe, Render, Along, Enumerates;
    var pairs, keys := CollectPairs(q);
    var sorted := Sort(PairLe, pairs);
    var parts: seq<string> := [];
    for i := 0 to |sorted|
      invariant |parts| == i && forall j :: 0 <= j < i ==> parts[j] == Render(sorted[j])
    {
      parts := parts + [Render(sorted[i])];
    }
    assert parts == MapSeq(Render, sorted);
    r := Join(parts, "&");
    assert r == CanonicalOf(Along(q, keys));
    forall other | Enumerates(other, q) ensures r == CanonicalOf(Along(q, other)) {
      CanonicalQueryExactly(q, keys, q, other);
    }
  }
}
