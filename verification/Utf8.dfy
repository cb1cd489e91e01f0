/** Text as Unicode scalar values and its bytes: section 3 of RFC 3629, and decoding that skips what is malformed. */
module Utf8 {
  import opened Pcm

  type Scalar = c: int | 0 <= c < 0xD800 || 0xE000 <= c < 0x11_0000

  type Text = seq<Scalar>

  function EncodeScalar(c: Scalar): (bytes: seq<Byte>)
    ensures 1 <= |bytes| <= 4
  {
    if c < 0x80 then [c]
    else if c < 0x800 then [0xC0 + c / 64, 0x80 + c % 64]
    else if c < 0x1_0000 then [0xE0 + c / 4096, 0x80 + c / 64 % 64, 0x80 + c % 64]
    else [0xF0 + c / 262_144, 0x80 + c / 4096 % 64, 0x80 + c / 64 % 64, 0x80 + c % 64]
  }

  function Encode(text: Text): (bytes: seq<Byte>) {
    if text == [] then [] else EncodeScalar(text[0]) + Encode(text[1..])
  }

  predicate IsSpace(c: Scalar) {
    || 0x09 <= c <= 0x0D || 0x1C <= c <= 0x20 || c == 0x85 || c == 0xA0 || c == 0x1680
    || 0x2000 <= c <= 0x200A || c == 0x2028 || c == 0x2029 || c == 0x202F || c == 0x205F || c == 0x3000
  }

  /** `str.strip` */
  function Strip(text: Text): Text {
    if text == [] then []
    else if IsSpace(text[0]) then Strip(text[1..])
    else if IsSpace(text[|text| - 1]) then Strip(text[..|text| - 1])
    else text
  }

  /** Stripping takes spaces off both ends, and nothing but spaces. */
  lemma {:induction false} StripTakesSpaces(text: Text) returns (before: Text, after: Text)
    ensures text == before + Strip(text) + after
    ensures (forall c <- before :: IsSpace(c)) && (forall c <- after :: IsSpace(c))
    ensures Strip(text) != [] ==> !IsSpace(Strip(text)[0]) && !IsSpace(Strip(text)[|Strip(text)| - 1])
    decreases |text|
  {
    hide IsSpace;
    before, after := [], [];
    if text == [] {
    } else if IsSpace(text[0]) {
      before, after := StripTakesSpaces(text[1..]);
      before := [text[0]] + before;
      assert text == [text[0]] + text[1..];
    } else if IsSpace(text[|text| - 1]) {
      before, after := StripTakesSpaces(text[..|text| - 1]);
      after := after + [text[|text| - 1]];
      assert text == text[..|text| - 1] + [text[|text| - 1]];
    }
  }

  /** How many continuation bytes a lead byte calls for; 0 for one that leads nothing. */
  function Continuations(lead: Byte): (n: nat)
    ensures n <= 3
  {
    if 0xC2 <= lead < 0xE0 then 1 else if 0xE0 <= lead < 0xF0 then 2 else if 0xF0 <= lead < 0xF5 then 3 else 0
  }

  /** Which bytes may stand `k` places behind the lead: no overlong form, no surrogate, nothing above 0x10FFFF. */
  predicate Continues(lead: Byte, k: nat, b: Byte) {
    && 0x80 <= b < 0xC0
    && (k == 1 && lead == 0xE0 ==> b >= 0xA0)
    && (k == 1 && lead == 0xED ==> b < 0xA0)
    && (k == 1 && lead == 0xF0 ==> b >= 0x90)
    && (k == 1 && lead == 0xF4 ==> b < 0x90)
  }

  /** How many of the bytes behind the lead, at most `n`, continue it. */
  function GoodTail(bytes: seq<Byte>, n: nat): (good: nat)
    requires bytes != []
    ensures good <= n && good < |bytes|
    ensures forall k :: 1 <= k <= good ==> Continues(bytes[0], k, bytes[k])
    ensures good < n && good + 1 < |bytes| ==> !Continues(bytes[0], good + 1, bytes[good + 1])
  {
    if n == 0 then 0
    else
      var before := GoodTail(bytes, n - 1);
      if before == n - 1 && n < |bytes| && Continues(bytes[0], n, bytes[n]) then n else before
  }

  function Value(bytes: seq<Byte>, n: nat): (c: Scalar)
    requires 1 <= n <= 3 && n < |bytes| && Continuations(bytes[0]) == n
    requires forall k :: 1 <= k <= n ==> Continues(bytes[0], k, bytes[k])
  {
    var lead: int, first: int := bytes[0], bytes[1];
    assert Continues(bytes[0], 1, bytes[1]);
    if n == 1 then (lead - 0xC0) * 64 + (first - 0x80)
    else
      var second: int := bytes[2];
      assert Continues(bytes[0], 2, bytes[2]);
      if n == 2 then (lead - 0xE0) * 4096 + (first - 0x80) * 64 + (second - 0x80)
      else
        var third: int := bytes[3];
        assert Continues(bytes[0], 3, bytes[3]);
        (lead - 0xF0) * 262_144 + (first - 0x80) * 4096 + (second - 0x80) * 64 + (third - 0x80)
  }

  datatype Scan = Scan(found: Text, used: nat)

  /** One step of a decoder with `errors="ignore"`: a malformed or unfinished sequence yields nothing. */
  function ScanOne(bytes: seq<Byte>): (scan: Scan)
    requires bytes != []
    ensures 1 <= scan.used <= |bytes| && |scan.found| <= 1
  {
    if bytes[0] < 0x80 then Scan([bytes[0]], 1)
    else
      var n := Continuations(bytes[0]);
      var good := GoodTail(bytes, n);
      if n > 0 && good == n then Scan([Value(bytes, n)], n + 1) else Scan([], 1 + good)
  }

  function DecodeIgnoring(bytes: seq<Byte>): Text {
    if bytes == [] then []
    else
      var scan := ScanOne(bytes);
      scan.found + DecodeIgnoring(bytes[scan.used..])
  }

  /** The encoding of a scalar: a lead byte and the continuations it calls for. */
  lemma EncodedShape(c: Scalar)
    requires c >= 0x80
    ensures var e := EncodeScalar(c);
            && e[0] >= 0x80 && Continuations(e[0]) == |e| - 1
            && forall k :: 1 <= k < |e| ==> Continues(e[0], k, e[k])
  {
    ContinuationsFit(c);
  }

  lemma ContinuationsFit(c: Scalar)
    ensures c < 0x800 ==> c / 64 < 32 && (c >= 0x80 ==> c / 64 >= 2)
    ensures 0x800 <= c < 0x1_0000 ==> c / 4096 < 16 && (c / 4096 == 0 ==> c / 64 % 64 >= 32) && (c / 4096 == 13 ==> c / 64 % 64 < 32)
    ensures 0x1_0000 <= c ==> c / 262_144 <= 4 && (c / 262_144 == 0 ==> c / 4096 % 64 >= 16) && (c / 262_144 == 4 ==> c / 4096 % 64 < 16)
  {
  }

  lemma Digits(c: nat)
    ensures c / 64 * 64 + c % 64 == c
    ensures c / 4096 * 4096 + c / 64 % 64 * 64 + c % 64 == c
    ensures c / 262_144 * 262_144 + c / 4096 % 64 * 4096 + c / 64 % 64 * 64 + c % 64 == c
  {
    assert c / 64 / 64 == c / 4096;
    assert c / 4096 / 64 == c / 262_144;
  }

  lemma ValueOfEncoded(c: Scalar, bytes: seq<Byte>)
    requires c >= 0x80
    requires var e := EncodeScalar(c); |e| <= |bytes| && bytes[..|e|] == e
    ensures var n := |EncodeScalar(c)| - 1;
            && Continuations(bytes[0]) == n && (forall k :: 1 <= k <= n ==> Continues(bytes[0], k, bytes[k]))
            && Value(bytes, n) == c
  {
    EncodedShape(c);
    var e := EncodeScalar(c);
    assert forall k :: 0 <= k < |e| ==> bytes[k] == e[k];
    Digits(c);
  }

  lemma ScanEncoded(c: Scalar, rest: seq<Byte>)
    ensures ScanOne(EncodeScalar(c) + rest) == Scan([c], |EncodeScalar(c)|)
  {
    var bytes, e := EncodeScalar(c) + rest, EncodeScalar(c);
    assert bytes[..|e|] == e;
    if c >= 0x80 {
      EncodedShape(c);
      ValueOfEncoded(c, bytes);
      WholeTail(bytes, |e| - 1, |e| - 1);
    }
  }

  lemma {:induction false} WholeTail(bytes: seq<Byte>, n: nat, good: nat)
    requires good <= n && good < |bytes| && forall k :: 1 <= k <= good ==> Continues(bytes[0], k, bytes[k])
    requires good == n || good + 1 == |bytes|
    ensures GoodTail(bytes, n) == good
  {
    if n > 0 {
      WholeTail(bytes, n - 1, if good == n then n - 1 else good);
    }
  }

  lemma ScanUnfinished(c: Scalar, n: nat)
    requires 0 < n < |EncodeScalar(c)|
    ensures ScanOne(EncodeScalar(c)[..n]) == Scan([], n)
  {
    var e := EncodeScalar(c);
    EncodedShape(c);
    WholeTail(e[..n], |e| - 1, n - 1);
  }

  /**
   * Cutting an encoded text anywhere and decoding what is left gives the longest prefix of whole characters
   * that fits. With `n` the whole length this is the round trip.
   */
  lemma {:induction false} DecodeCut(text: Text, n: nat) returns (k: nat)
    requires n <= |Encode(text)|
    ensures k <= |text| && DecodeIgnoring(Encode(text)[..n]) == text[..k]
    ensures |Encode(text[..k])| <= n && (k < |text| ==> |Encode(text[..k + 1])| > n)
  {
    hide EncodeScalar, ScanOne;
    if text == [] || n == 0 {
      k := 0;
      if text != [] {
        assert text[..1][0] == text[0];
      }
      return;
    }
    var e, rest := EncodeScalar(text[0]), Encode(text[1..]);
    if n < |e| {
      k := 0;
      assert Encode(text)[..n] == e[..n];
      ScanUnfinished(text[0], n);
      assert text[..1][1..] == [];
    } else {
      assert Encode(text)[..n] == e + rest[..n - |e|];
      ScanEncoded(text[0], rest[..n - |e|]);
      assert (e + rest[..n - |e|])[|e|..] == rest[..n - |e|];
      var j := DecodeCut(text[1..], n - |e|);
      k := j + 1;
      assert text[..k][1..] == text[1..][..j];
      assert k < |text| ==> text[..k + 1][1..] == text[1..][..j + 1];
      assert [text[0]] + text[1..][..j] == text[..k];
    }
  }

  lemma RoundTrip(text: Text)
    ensures DecodeIgnoring(Encode(text)) == text
  {
    var k := DecodeCut(text, |Encode(text)|);
    assert Encode(text)[..|Encode(text)|] == Encode(text);
    if k < |text| {
      EncodeSplits(text, k + 1);
    }
    assert text[..|text|] == text;
  }

  lemma {:induction false} EncodeSplits(text: Text, k: nat)
    requires k <= |text|
    ensures Encode(text) == Encode(text[..k]) + Encode(text[k..])
  {
    if k > 0 {
      EncodeSplits(text[1..], k - 1);
      assert text[..k][1..] == text[1..][..k - 1] && text[1..][k - 1..] == text[k..];
    } else {
      assert text[..0] == [] && text[0..] == text;
    }
  }
}
