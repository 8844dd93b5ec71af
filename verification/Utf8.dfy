/** UTF-8 as section 3 of RFC 3629 defines it, and the cleaning of text for an event. */
module Utf8 {

  type Byte = b: nat | b < 256

  /** A Unicode scalar value. */
  type Rune = n: nat | n <= 0x10FFFF && !(0xD800 <= n <= 0xDFFF)

  const REPLACEMENT: Rune := 0xFFFD

  function Encode(r: Rune): (s: seq<Byte>)
    ensures 1 <= |s| <= 4
  {
    if r < 0x80 then [r]
    else if r < 0x800 then [0xC0 + r / 64, 0x80 + r % 64]
    else if r < 0x10000 then [0xE0 + r / 4096, 0x80 + r / 64 % 64, 0x80 + r % 64]
    else [0xF0 + r / 262144, 0x80 + r / 4096 % 64, 0x80 + r / 64 % 64, 0x80 + r % 64]
  }

  function EncodeAll(rs: seq<Rune>): seq<Byte> {
    if rs == [] then [] else Encode(rs[0]) + EncodeAll(rs[1..])
  }

  /** A byte that is no continuation byte. */
  predicate RuneStart(b: Byte) {
    b < 0x80 || 0xC0 <= b
  }

  datatype Decoding = Invalid | Valid(rune: Rune, size: nat)

  predicate Tail(b: Byte) {
    0x80 <= b <= 0xBF
  }

  /** The second byte that may follow a first one: no overlong form, no surrogate, nothing
      above U+10FFFF. */
  predicate Second(first: Byte, b: Byte) {
    if first == 0xE0 then 0xA0 <= b <= 0xBF
    else if first == 0xED then 0x80 <= b <= 0x9F
    else if first == 0xF0 then 0x90 <= b <= 0xBF
    else if first == 0xF4 then 0x80 <= b <= 0x8F
    else Tail(b)
  }

  /** Six more bits. */
  function Shift(high: int, b: int): int {
    high * 64 + (b - 0x80)
  }

  function Two(a: Byte, b: Byte): int {
    Shift(a - 0xC0, b)
  }

  function Three(a: Byte, b: Byte, c: Byte): int {
    Shift(Shift(a - 0xE0, b), c)
  }

  function Four(a: Byte, b: Byte, c: Byte, d: Byte): int {
    Shift(Shift(Shift(a - 0xF0, b), c), d)
  }

  function DecodeFirst(s: seq<Byte>): Decoding
    requires s != []
  {
    if s[0] < 0x80 then Valid(s[0], 1)
    else if 0xC2 <= s[0] <= 0xDF && |s| >= 2 && Tail(s[1]) then Valid(Two(s[0], s[1]), 2)
    else if 0xE0 <= s[0] <= 0xEF && |s| >= 3 && Second(s[0], s[1]) && Tail(s[2]) then Valid(Three(s[0], s[1], s[2]), 3)
    else if 0xF0 <= s[0] <= 0xF4 && |s| >= 4 && Second(s[0], s[1]) && Tail(s[2]) && Tail(s[3]) then
      Valid(Four(s[0], s[1], s[2], s[3]), 4)
    else Invalid
  }

  /** strings.ToValidUTF8: every run of invalid bytes becomes one replacement. */
  function ToValid(s: seq<Byte>, inRun: bool := false): seq<Rune>
    decreases |s|
  {
    if s == [] then []
    else
      match DecodeFirst(s)
      case Valid(rune, size) => [rune] + ToValid(s[size..], false)
      case Invalid => (if inRun then [] else [REPLACEMENT]) + ToValid(s[1..], true)
  }

  // ---------------------------------------------------------------------------
  // Encoding and decoding are inverse.

  lemma Digits(r: Rune)
    ensures r == r / 64 * 64 + r % 64
    ensures r / 64 == r / 4096 * 64 + r / 64 % 64
    ensures r / 4096 == r / 262144 * 64 + r / 4096 % 64
  {
  }

  lemma DecodeEncoded(r: Rune, rest: seq<Byte>)
    ensures DecodeFirst(Encode(r) + rest) == Valid(r, |Encode(r)|)
  {
    Digits(r);
    var s := Encode(r) + rest;
    assert forall i :: 0 <= i < |Encode(r)| ==> s[i] == Encode(r)[i];
  }

  lemma Unshift(high: int, b: int)
    requires 0 <= high && 0x80 <= b <= 0xBF
    ensures Shift(high, b) / 64 == high && 0x80 + Shift(high, b) % 64 == b
  {
  }

  lemma EncodeTwo(a: Byte, b: Byte)
    requires 0xC2 <= a <= 0xDF && Tail(b)
    ensures Encode(Two(a, b)) == [a, b]
  {
    Unshift(a - 0xC0, b);
  }

  lemma EncodeThree(a: Byte, b: Byte, c: Byte)
    requires 0xE0 <= a <= 0xEF && Second(a, b) && Tail(c)
    ensures Encode(Three(a, b, c)) == [a, b, c]
  {
    var high := Shift(a - 0xE0, b);
    Unshift(a - 0xE0, b);
    Unshift(high, c);
    assert Three(a, b, c) / 4096 == high / 64;
  }

  lemma EncodeFour(a: Byte, b: Byte, c: Byte, d: Byte)
    requires 0xF0 <= a <= 0xF4 && Second(a, b) && Tail(c) && Tail(d)
    ensures Encode(Four(a, b, c, d)) == [a, b, c, d]
  {
    var top := Shift(a - 0xF0, b);
    var high := Shift(top, c);
    Unshift(a - 0xF0, b);
    Unshift(top, c);
    Unshift(high, d);
    assert Four(a, b, c, d) / 4096 == high / 64 && Four(a, b, c, d) / 262144 == top / 64;
  }

  /** What is decoded is what stands there: there is one encoding of each rune. */
  lemma EncodeDecoded(s: seq<Byte>)
    requires s != [] && DecodeFirst(s).Valid?
    ensures DecodeFirst(s).size <= |s| && Encode(DecodeFirst(s).rune) == s[..DecodeFirst(s).size]
  {
    var n := DecodeFirst(s).size;
    if n == 2 {
      EncodeTwo(s[0], s[1]);
    } else if n == 3 {
      EncodeThree(s[0], s[1], s[2]);
    } else if n == 4 {
      EncodeFour(s[0], s[1], s[2], s[3]);
    }
  }

  /** Valid text is left alone. */
  lemma {:induction false} ValidUnchanged(rs: seq<Rune>, inRun: bool)
    ensures ToValid(EncodeAll(rs), inRun) == rs
    decreases rs
  {
    if rs != [] {
      var e, rest := Encode(rs[0]), EncodeAll(rs[1..]);
      DecodeEncoded(rs[0], rest);
      assert (e + rest)[|e|..] == rest;
      ValidUnchanged(rs[1..], false);
    }
  }

  /** What is valid in front is kept, whatever follows. */
  lemma {:induction false} ValidInFront(rs: seq<Rune>, s: seq<Byte>)
    requires rs != []
    ensures ToValid(EncodeAll(rs) + s) == rs + ToValid(s)
    decreases rs
  {
    var e, rest := Encode(rs[0]), EncodeAll(rs[1..]);
    assert EncodeAll(rs) + s == e + (rest + s);
    DecodeEncoded(rs[0], rest + s);
    assert (e + (rest + s))[|e|..] == rest + s;
    if |rs| > 1 {
      ValidInFront(rs[1..], s);
    } else {
      assert rest + s == s;
    }
    assert rs == [rs[0]] + rs[1..];
  }

  /** No byte of the run begins a rune. */
  ghost predicate NoneBegins(run: seq<Byte>, rest: seq<Byte>) {
    forall i :: 0 <= i < |run| ==> DecodeFirst(run[i..] + rest).Invalid?
  }

  lemma {:induction false} RunReplaced(run: seq<Byte>, rest: seq<Byte>, inRun: bool)
    requires run != [] && NoneBegins(run, rest)
    ensures ToValid(run + rest, inRun) == (if inRun then [] else [REPLACEMENT]) + ToValid(rest, true)
    decreases run
  {
    assert run[0..] == run && (run + rest)[1..] == run[1..] + rest;
    if |run| > 1 {
      var tail := run[1..];
      forall i | 0 <= i < |tail| ensures DecodeFirst(tail[i..] + rest).Invalid? {
        assert tail[i..] == run[i + 1..];
      }
      RunReplaced(tail, rest, true);
    } else {
      assert run[1..] + rest == rest;
    }
  }

  /** A run of bytes that are not valid becomes one replacement, however long it is. */
  lemma OneReplacement(a: seq<Rune>, run: seq<Byte>, b: seq<Rune>)
    requires run != [] && NoneBegins(run, EncodeAll(b))
    ensures ToValid(EncodeAll(a) + (run + EncodeAll(b))) == a + [REPLACEMENT] + b
  {
    RunReplaced(run, EncodeAll(b), false);
    ValidUnchanged(b, true);
    if a == [] {
      assert EncodeAll(a) + (run + EncodeAll(b)) == run + EncodeAll(b);
    } else {
      ValidInFront(a, run + EncodeAll(b));
    }
  }

  // ---------------------------------------------------------------------------
  // Cutting on a rune boundary.

  /** The longest prefix whose encoding has at most size bytes. */
  function Fitting(rs: seq<Rune>, size: nat): seq<Rune> {
    if rs == [] || |Encode(rs[0])| > size then []
    else [rs[0]] + Fitting(rs[1..], size - |Encode(rs[0])|)
  }

  lemma StartsOnce(r: Rune)
    ensures RuneStart(Encode(r)[0]) && forall i :: 1 <= i < |Encode(r)| ==> !RuneStart(Encode(r)[i])
  {
  }

  /** Its end is the last byte position up to size at which a rune starts. */
  lemma {:induction false} FittingIs(rs: seq<Rune>, size: nat)
    ensures var all, n := EncodeAll(rs), |EncodeAll(Fitting(rs, size))|;
            && n <= size && n <= |all| && all[..n] == EncodeAll(Fitting(rs, size))
            && (n < |all| ==> RuneStart(all[n]))
            && (forall c :: n < c <= size && c < |all| ==> !RuneStart(all[c]))
            && (Fitting(rs, size) == rs <==> |all| <= size)
    decreases rs
  {
    var all, fit := EncodeAll(rs), Fitting(rs, size);
    if rs != [] {
      var e, rest := Encode(rs[0]), EncodeAll(rs[1..]);
      StartsOnce(rs[0]);
      assert all == e + rest;
      if |e| <= size {
        FittingIs(rs[1..], size - |e|);
        ConsFitting(rs, size);
        var m := |EncodeAll(Fitting(rs[1..], size - |e|))|;
        assert all[..|e| + m] == e + rest[..m];
        forall c | |e| + m < c <= size && c < |all| ensures !RuneStart(all[c]) {
          assert all[c] == rest[c - |e|];
        }
      }
    }
  }

  lemma ConsFitting(rs: seq<Rune>, size: nat)
    requires rs != [] && |Encode(rs[0])| <= size
    ensures var rest := Fitting(rs[1..], size - |Encode(rs[0])|);
            && EncodeAll(Fitting(rs, size)) == Encode(rs[0]) + EncodeAll(rest)
            && (Fitting(rs, size) == rs <==> rest == rs[1..])
  {
    var rest := Fitting(rs[1..], size - |Encode(rs[0])|);
    assert ([rs[0]] + rest)[1..] == rest;
    assert rs == [rs[0]] + rs[1..];
  }

  /** What fits is a prefix, and the next rune would not fit. */
  lemma {:induction false} FittingIsLongest(rs: seq<Rune>, size: nat)
    ensures var fit := Fitting(rs, size);
            && fit <= rs && (|fit| < |rs| ==> |EncodeAll(fit)| + |Encode(rs[|fit|])| > size)
    decreases rs
  {
    if rs != [] && |Encode(rs[0])| <= size {
      FittingIsLongest(rs[1..], size - |Encode(rs[0])|);
      ConsFitting(rs, size);
    }
  }
}
