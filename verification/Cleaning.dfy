/** Text of an email on its way into an event: valid, without the controls that JSON
    would write as six characters, and cut on a rune boundary. */
module Cleaning {
  import opened Utf8

  const TAB: Rune := 0x09
  const LF: Rune := 0x0A
  const CR: Rune := 0x0D
  const SPACE: Rune := 0x20

  predicate Stays(r: Rune, singleLine: bool) {
    r >= SPACE || r == TAB || (!singleLine && (r == LF || r == CR))
  }

  /** In a single line a control becomes a space, in a body it is dropped. */
  function Mapped(rs: seq<Rune>, singleLine: bool): seq<Rune> {
    if rs == [] then []
    else
      var rest := Mapped(rs[1..], singleLine);
      if Stays(rs[0], singleLine) then [rs[0]] + rest
      else if singleLine then [SPACE] + rest
      else rest
  }

  function Prepared(value: seq<Byte>, singleLine: bool): seq<Rune> {
    Mapped(ToValid(value), singleLine)
  }

  /** The longest prefix that fits. */
  function Cleaned(value: seq<Byte>, maxSize: nat, singleLine: bool): seq<Rune> {
    Fitting(Prepared(value, singleLine), maxSize)
  }

  function Text(value: seq<Byte>, maxSize: nat, singleLine: bool): seq<Byte> {
    EncodeAll(Cleaned(value, maxSize, singleLine))
  }

  predicate WasCut(value: seq<Byte>, maxSize: nat, singleLine: bool) {
    |EncodeAll(Prepared(value, singleLine))| > maxSize
  }

  method Clean(value: seq<Byte>, maxSize: nat, singleLine: bool) returns (r: seq<Byte>, cut: bool)
    ensures r == Text(value, maxSize, singleLine)
    ensures cut <==> WasCut(value, maxSize, singleLine)
    ensures |r| <= maxSize
  {
    var prepared := Prepared(value, singleLine);
    var bytes := EncodeAll(prepared);
    FittingIs(prepared, maxSize);
    if |bytes| <= maxSize {
      return bytes, false;
    }
    var end := maxSize;
    while end > 0 && !RuneStart(bytes[end])
      invariant |EncodeAll(Fitting(prepared, maxSize))| <= end <= maxSize
    {
      end := end - 1;
    }
    return bytes[..end], true;
  }

  // ---------------------------------------------------------------------------
  // What cleaning promises.

  predicate AllStay(rs: seq<Rune>, singleLine: bool) {
    forall i :: 0 <= i < |rs| ==> Stays(rs[i], singleLine)
  }

  lemma {:induction false} MappedStays(rs: seq<Rune>, singleLine: bool)
    ensures AllStay(Mapped(rs, singleLine), singleLine)
    ensures singleLine ==> |Mapped(rs, singleLine)| == |rs|
  {
    if rs != [] {
      MappedStays(rs[1..], singleLine);
    }
  }

  /** Rune by rune: a printable one and a tab stay, in a body a line break stays too; any
      other is a space in a single line, and nothing in a body. */
  lemma {:induction false} MappedIs(a: seq<Rune>, r: Rune, b: seq<Rune>, singleLine: bool)
    ensures Mapped(a + [r] + b, singleLine) ==
            Mapped(a, singleLine)
            + (if r >= 0x20 || r == 0x09 || (!singleLine && (r == 0x0A || r == 0x0D)) then [r]
               else if singleLine then [0x20] else [])
            + Mapped(b, singleLine)
  {
    if a == [] {
      assert ([] + [r] + b)[0] == r && ([] + [r] + b)[1..] == b;
    } else {
      var all := a + [r] + b;
      assert all[0] == a[0] && all[1..] == a[1..] + [r] + b;
      MappedIs(a[1..], r, b, singleLine);
    }
  }

  lemma {:induction false} StaysMapped(rs: seq<Rune>, singleLine: bool)
    requires AllStay(rs, singleLine)
    ensures Mapped(rs, singleLine) == rs
  {
    if rs != [] {
      StaysMapped(rs[1..], singleLine);
      assert rs == [rs[0]] + rs[1..];
    }
  }

  lemma CleanedStays(value: seq<Byte>, maxSize: nat, singleLine: bool)
    ensures AllStay(Cleaned(value, maxSize, singleLine), singleLine)
  {
    MappedStays(ToValid(value), singleLine);
    FittingIsLongest(Prepared(value, singleLine), maxSize);
  }

  /** The flag is exact: text is cut if and only if something of it is missing, and then
      the next rune would not have fitted. */
  lemma CutIsExact(value: seq<Byte>, maxSize: nat, singleLine: bool)
    ensures WasCut(value, maxSize, singleLine) <==> Cleaned(value, maxSize, singleLine) != Prepared(value, singleLine)
    ensures Cleaned(value, maxSize, singleLine) <= Prepared(value, singleLine)
    ensures var k := |Cleaned(value, maxSize, singleLine)|;
            WasCut(value, maxSize, singleLine) ==>
              && k < |Prepared(value, singleLine)|
              && |EncodeAll(Cleaned(value, maxSize, singleLine))| + |Encode(Prepared(value, singleLine)[k])| > maxSize
  {
    FittingIs(Prepared(value, singleLine), maxSize);
    FittingIsLongest(Prepared(value, singleLine), maxSize);
  }

  /** Cleaning what is clean changes nothing. */
  lemma CleanTwice(value: seq<Byte>, maxSize: nat, singleLine: bool)
    ensures var once := Text(value, maxSize, singleLine);
            && Text(once, maxSize, singleLine) == once && !WasCut(once, maxSize, singleLine)
  {
    var clean := Cleaned(value, maxSize, singleLine);
    ValidUnchanged(clean, false);
    CleanedStays(value, maxSize, singleLine);
    StaysMapped(clean, singleLine);
    FittingIs(Prepared(value, singleLine), maxSize);
    FittingIs(clean, maxSize);
  }

  /** A header value that is not empty becomes empty if and only if its first rune does
      not fit, which takes a limit below four bytes. */
  lemma EmptyIff(value: seq<Byte>, maxSize: nat)
    requires value != []
    ensures Prepared(value, true) != []
    ensures Cleaned(value, maxSize, true) == [] <==> |Encode(Prepared(value, true)[0])| > maxSize
    ensures maxSize >= 4 ==> Cleaned(value, maxSize, true) != []
  {
    MappedStays(ToValid(value), true);
  }

  // ---------------------------------------------------------------------------
  // The length of a JSON string.

  /** The bytes the encoder writes for a rune, with HTML escaping off. */
  function Escaped(r: Rune): nat {
    if r == 0x22 || r == 0x5C then 2
    else if r == 0x08 || r == 0x0C || r == TAB || r == LF || r == CR then 2
    else if r < SPACE then 6
    else if r == 0x2028 || r == 0x2029 then 6
    else |Encode(r)|
  }

  function EscapedAll(rs: seq<Rune>): nat {
    if rs == [] then 0 else Escaped(rs[0]) + EscapedAll(rs[1..])
  }

  /** The encoder decodes its input; a byte that is not valid is written as an escape. */
  function JsonLength(s: seq<Byte>): nat
    decreases |s|
  {
    if s == [] then 0
    else
      match DecodeFirst(s)
      case Valid(rune, size) => Escaped(rune) + JsonLength(s[size..])
      case Invalid => 6 + JsonLength(s[1..])
  }

  function StringLength(s: seq<Byte>): nat {
    2 + JsonLength(s)
  }

  lemma {:induction false} JsonOfValid(rs: seq<Rune>)
    ensures JsonLength(EncodeAll(rs)) == EscapedAll(rs)
  {
    if rs != [] {
      var e, rest := Encode(rs[0]), EncodeAll(rs[1..]);
      DecodeEncoded(rs[0], rest);
      assert (e + rest)[|e|..] == rest;
      JsonOfValid(rs[1..]);
    }
  }

  /** A rune at most doubles exactly when it is none of the controls that get six
      characters; the line separators take six for their three bytes. */
  lemma Doubles(r: Rune)
    ensures Escaped(r) <= 2 * |Encode(r)| <==> r >= SPACE || r == 0x08 || r == 0x0C || r == TAB || r == LF || r == CR
  {
  }

  lemma {:induction false} EscapedBound(rs: seq<Rune>, singleLine: bool)
    requires AllStay(rs, singleLine)
    ensures EscapedAll(rs) <= 2 * |EncodeAll(rs)|
  {
    if rs != [] {
      assert Stays(rs[0], singleLine);
      Doubles(rs[0]);
      EscapedBound(rs[1..], singleLine);
    }
  }

  /** Cleaned text of at most maxSize bytes takes at most two for each, and two quotes. */
  lemma TextLength(value: seq<Byte>, maxSize: nat, singleLine: bool)
    ensures StringLength(Text(value, maxSize, singleLine)) <= 2 + 2 * maxSize
  {
    CleanedStays(value, maxSize, singleLine);
    FittingIs(Prepared(value, singleLine), maxSize);
    EscapedBound(Cleaned(value, maxSize, singleLine), singleLine);
    JsonOfValid(Cleaned(value, maxSize, singleLine));
  }

  /** A value filled with quotation marks. */
  function Fill(size: nat): seq<Byte> {
    seq(size, _ => 0x22)
  }

  /** The bound is reached. */
  lemma {:induction false} FillLength(size: nat)
    ensures StringLength(Fill(size)) == 2 + 2 * size && |Fill(size)| == size
  {
    if size > 0 {
      FillLength(size - 1);
      assert Fill(size)[1..] == Fill(size - 1);
    }
  }
}
