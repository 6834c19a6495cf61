/** Base64 of sections 4 and 5 of RFC 4648: 3 bytes as 4 symbols, the tail shortened. */
module Base64 {
  import opened Common

  type Digit = d: int | 0 <= d < 64

  /** The two alphabets differ in their last two symbols. */
  datatype Alphabet = Standard | UrlSafe {
    function Last(d: Digit): char
      requires d >= 62
    {
      if Standard? then (if d == 62 then '+' else '/') else (if d == 62 then '-' else '_')
    }

    function Symbol(d: Digit): char {
      if d < 26 then ('A' as int + d) as char
      else if d < 52 then ('a' as int + d - 26) as char
      else if d < 62 then ('0' as int + d - 52) as char
      else Last(d)
    }

    function Value(c: char): (d: Option<Digit>)
      ensures d.Some? ==> Symbol(d.value) == c
    {
      if 'A' <= c <= 'Z' then Some(c as int - 'A' as int)
      else if 'a' <= c <= 'z' then Some(c as int - 'a' as int + 26)
      else if '0' <= c <= '9' then Some(c as int - '0' as int + 52)
      else if c == Last(62) then Some(62)
      else if c == Last(63) then Some(63)
      else None
    }
  }

  lemma ValueOfSymbol(a: Alphabet, d: Digit)
    ensures a.Value(a.Symbol(d)) == Some(d) && a.Symbol(d) != '='
  {
  }

  // ------------------------------------------------------------ digits

  function Digit0(b0: Octet): Digit {
    b0 / 4
  }

  function Digit1(b0: Octet, b1: Octet): Digit {
    b0 % 4 * 16 + b1 / 16
  }

  function Digit2(b1: Octet, b2: Octet): Digit {
    b1 % 16 * 4 + b2 / 64
  }

  function Digit3(b2: Octet): Digit {
    b2 % 64
  }

  function ToDigits(data: seq<Octet>): seq<Digit> {
    if data == [] then []
    else if |data| == 1 then [Digit0(data[0]), Digit1(data[0], 0)]
    else if |data| == 2 then [Digit0(data[0]), Digit1(data[0], data[1]), Digit2(data[1], 0)]
    else [Digit0(data[0]), Digit1(data[0], data[1]), Digit2(data[1], data[2]), Digit3(data[2])] + ToDigits(data[3..])
  }

  function Octet0(d0: Digit, d1: Digit): Octet
  {
    d0 * 4 + d1 / 16
  }

  function Octet1(d1: Digit, d2: Digit): Octet
  {
    d1 % 16 * 16 + d2 / 4
  }

  function Octet2(d2: Digit, d3: Digit): Octet
  {
    d2 % 4 * 64 + d3
  }

  /** A tail of one digit cannot be; a tail of two or three drops its unused low bits. */
  function FromDigits(ds: seq<Digit>): (r: Option<seq<Octet>>)
    ensures r.None? <==> |ds| % 4 == 1
    ensures r.Some? ==> |r.value| == 3 * |ds| / 4
  {
    if ds == [] then Some([])
    else if |ds| == 1 then None
    else if |ds| == 2 then Some([Octet0(ds[0], ds[1])])
    else if |ds| == 3 then Some([Octet0(ds[0], ds[1]), Octet1(ds[1], ds[2])])
    else
      var rest := FromDigits(ds[4..]);
      if rest.None? then None
      else Some([Octet0(ds[0], ds[1]), Octet1(ds[1], ds[2]), Octet2(ds[2], ds[3])] + rest.value)
  }

  lemma OctetsOfDigits(b0: Octet, b1: Octet, b2: Octet)
    ensures Octet0(Digit0(b0), Digit1(b0, b1)) == b0
    ensures Octet1(Digit1(b0, b1), Digit2(b1, b2)) == b1
    ensures Octet2(Digit2(b1, b2), Digit3(b2)) == b2
  {
  }

  lemma {:induction false} DigitsRoundTrip(data: seq<Octet>)
    ensures FromDigits(ToDigits(data)) == Some(data)
    ensures |ToDigits(data)| == (4 * |data| + 2) / 3
  {
    if data == [] {
    } else if |data| == 1 {
      OneRoundTrip(data[0], ToDigits(data));
      assert data == [data[0]];
    } else if |data| == 2 {
      TwoRoundTrip(data[0], data[1], ToDigits(data));
      assert data == [data[0], data[1]];
    } else {
      var ds, rest := ToDigits(data), data[3..];
      DigitsRoundTrip(rest);
      assert ds[4..] == ToDigits(rest);
      QuadRoundTrip(data[0], data[1], data[2], ds);
      assert data == [data[0], data[1], data[2]] + rest;
    }
  }

  lemma QuadRoundTrip(b0: Octet, b1: Octet, b2: Octet, ds: seq<Digit>)
    requires |ds| >= 4 && FromDigits(ds[4..]).Some?
    requires ds[0] == Digit0(b0) && ds[1] == Digit1(b0, b1) && ds[2] == Digit2(b1, b2) && ds[3] == Digit3(b2)
    ensures FromDigits(ds) == Some([b0, b1, b2] + FromDigits(ds[4..]).value)
  {
    OctetsOfDigits(b0, b1, b2);
  }

  lemma OneRoundTrip(b0: Octet, ds: seq<Digit>)
    requires |ds| == 2 && ds[0] == Digit0(b0) && ds[1] == Digit1(b0, 0)
    ensures FromDigits(ds) == Some([b0])
  {
    OctetsOfDigits(b0, 0, 0);
  }

  lemma TwoRoundTrip(b0: Octet, b1: Octet, ds: seq<Digit>)
    requires |ds| == 3 && ds[0] == Digit0(b0) && ds[1] == Digit1(b0, b1) && ds[2] == Digit2(b1, 0)
    ensures FromDigits(ds) == Some([b0, b1])
  {
    OctetsOfDigits(b0, b1, 0);
  }

  // ------------------------------------------------------------ text

  function Symbols(a: Alphabet, ds: seq<Digit>): (s: string)
    ensures |s| == |ds|
    ensures forall i | 0 <= i < |ds| :: s[i] == a.Symbol(ds[i])
  {
    seq(|ds|, i requires 0 <= i < |ds| => a.Symbol(ds[i]))
  }

  function Values(a: Alphabet, s: string): (r: Option<seq<Digit>>)
    ensures r.Some? ==> |r.value| == |s|
    ensures r.Some? <==> forall i | 0 <= i < |s| :: a.Value(s[i]).Some?
  {
    if s == [] then Some([])
    else
      var rest := Values(a, s[1..]);
      if a.Value(s[0]).None? || rest.None? then None else Some([a.Value(s[0]).value] + rest.value)
  }

  lemma {:induction false} ValuesOfSymbols(a: Alphabet, ds: seq<Digit>)
    ensures Values(a, Symbols(a, ds)) == Some(ds)
  {
    if ds != [] {
      ValueOfSymbol(a, ds[0]);
      ValuesOfSymbols(a, ds[1..]);
      assert Symbols(a, ds)[1..] == Symbols(a, ds[1..]);
      assert ds == [ds[0]] + ds[1..];
    }
  }

  /** Encoding without padding. */
  function EncodeBare(a: Alphabet, data: seq<Octet>): string {
    Symbols(a, ToDigits(data))
  }

  function DecodeBare(a: Alphabet, s: string): Option<seq<Octet>> {
    var ds := Values(a, s);
    if ds.None? then None else FromDigits(ds.value)
  }

  function Padding(length: nat): string {
    if length % 4 == 2 then "==" else if length % 4 == 3 then "=" else ""
  }

  function Encode(a: Alphabet, data: seq<Octet>): string {
    var bare := EncodeBare(a, data);
    bare + Padding(|bare|)
  }

  function Strip(s: string): string {
    if s != [] && s[|s| - 1] == '=' then Strip(s[..|s| - 1]) else s
  }

  /** Strict decoding: exactly the padding the digits call for, and no other symbol. */
  function Decode(a: Alphabet, s: string): Option<seq<Octet>> {
    var bare := Strip(s);
    if s != bare + Padding(|bare|) then None else DecodeBare(a, bare)
  }

  lemma BareRoundTrip(a: Alphabet, data: seq<Octet>)
    ensures DecodeBare(a, EncodeBare(a, data)) == Some(data)
    ensures |EncodeBare(a, data)| == (4 * |data| + 2) / 3
  {
    DigitsRoundTrip(data);
    ValuesOfSymbols(a, ToDigits(data));
  }

  lemma StripPadded(a: Alphabet, ds: seq<Digit>)
    ensures var bare := Symbols(a, ds); Strip(bare + Padding(|bare|)) == bare
  {
    var bare := Symbols(a, ds);
    var s := bare + Padding(|bare|);
    if ds != [] { ValueOfSymbol(a, ds[|ds| - 1]); }
    assert Strip(bare) == bare;
    if |bare| % 4 == 3 {
      assert s[..|s| - 1] == bare;
    } else if |bare| % 4 == 2 {
      assert s[..|s| - 1] == bare + "=";
      assert (bare + "=")[..|bare|] == bare;
    } else {
      assert s == bare;
    }
  }

  /** Decoding undoes encoding, for every byte string. */
  lemma RoundTrip(a: Alphabet, data: seq<Octet>)
    ensures Decode(a, Encode(a, data)) == Some(data)
  {
    BareRoundTrip(a, data);
    StripPadded(a, ToDigits(data));
  }
}
