/** Developer credentials: Crockford base32 identifiers, base64url secrets, and their parser. */
module DeveloperKeys {
  import opened Common
  import opened Bits
  import B = Base64

  const ALPHABET: string := "0123456789ABCDEFGHJKMNPQRSTVWXYZ"

  type Digit32 = d: int | 0 <= d < 32

  // ------------------------------------------------------------ numbers

  /** The bytes as one big-endian number. */
  function Num256(s: seq<Octet>): nat {
    if s == [] then 0 else Num256(s[..|s| - 1]) * 256 + s[|s| - 1]
  }

  function Num32(s: seq<Digit32>): nat {
    if s == [] then 0 else Num32(s[..|s| - 1]) * 32 + s[|s| - 1]
  }

  lemma SplitBase(a: nat, x: nat, b: nat, y: nat, base: nat)
    requires a * base + x == b * base + y && x < base && y < base
    ensures a == b && x == y
  {
    MulMono(a + 1, b, base);
    MulMono(b + 1, a, base);
    assert (a + 1) * base == a * base + base && (b + 1) * base == b * base + base;
  }

  lemma {:induction false} Num256Injective(s: seq<Octet>, t: seq<Octet>)
    requires |s| == |t| && Num256(s) == Num256(t)
    ensures s == t
  {
    if s != [] {
      SplitBase(Num256(s[..|s| - 1]), s[|s| - 1], Num256(t[..|t| - 1]), t[|t| - 1], 256);
      Num256Injective(s[..|s| - 1], t[..|t| - 1]);
      assert s == s[..|s| - 1] + [s[|s| - 1]] && t == t[..|t| - 1] + [t[|t| - 1]];
    }
  }

  lemma {:induction false} Num32Injective(s: seq<Digit32>, t: seq<Digit32>)
    requires |s| == |t| && Num32(s) == Num32(t)
    ensures s == t
  {
    if s != [] {
      SplitBase(Num32(s[..|s| - 1]), s[|s| - 1], Num32(t[..|t| - 1]), t[|t| - 1], 32);
      Num32Injective(s[..|s| - 1], t[..|t| - 1]);
      assert s == s[..|s| - 1] + [s[|s| - 1]] && t == t[..|t| - 1] + [t[|t| - 1]];
    }
  }

  // ------------------------------------------------------------ base32

  /** Zero bits appended so that the bit string divides into groups of five. */
  function PadBits(n: nat): nat {
    (5 - 8 * n % 5) % 5
  }

  /** The bytes' bit string, padded with zeros, in groups of five bits. */
  ghost predicate Groups(value: seq<Octet>, digits: seq<Digit32>) {
    && |digits| == (8 * |value| + 4) / 5
    && Num32(digits) == Num256(value) * Pow2(PadBits(|value|))
  }

  /** The grouping is unique, and distinct byte strings of one length have distinct groupings. */
  lemma GroupsDetermine(value: seq<Octet>, value': seq<Octet>, digits: seq<Digit32>, digits': seq<Digit32>)
    requires |value| == |value'| && Groups(value, digits) && Groups(value', digits')
    ensures value == value' <==> digits == digits'
  {
    if digits == digits' {
      Unscale(Num256(value), Num256(value'), PadBits(|value|));
      Num256Injective(value, value');
    } else if value == value' {
      Num32Injective(digits, digits');
    }
  }

  lemma Unscale(a: nat, b: nat, bits: nat)
    requires a * Pow2(bits) == b * Pow2(bits)
    ensures a == b
  {
    MulMono(a + 1, b, Pow2(bits));
    MulMono(b + 1, a, Pow2(bits));
    assert (a + 1) * Pow2(bits) == a * Pow2(bits) + Pow2(bits);
    assert (b + 1) * Pow2(bits) == b * Pow2(bits) + Pow2(bits);
  }

  lemma SmallPowers()
    ensures Pow2(0) == 1 && Pow2(1) == 2 && Pow2(2) == 4 && Pow2(3) == 8 && Pow2(4) == 16
    ensures Pow2(5) == 32 && Pow2(6) == 64 && Pow2(7) == 128 && Pow2(8) == 256
    ensures Pow2(9) == 512 && Pow2(10) == 1024 && Pow2(11) == 2048 && Pow2(12) == 4096
  {
    assert Pow2(4) == 16;
    assert Pow2(8) == 256;
  }

  function Text(digits: seq<Digit32>): (s: string)
    ensures |s| == |digits|
    ensures forall i | 0 <= i < |s| :: s[i] == ALPHABET[digits[i]]
  {
    seq(|digits|, i requires 0 <= i < |digits| => ALPHABET[digits[i]])
  }

  /** The digits out so far are the accumulator's high bits, `rest` its low `bits` bits. */
  ghost predicate Split(accum: nat, high: nat, bits: nat, rest: nat) {
    bits <= 12 && accum == Shifted(high, bits) + rest && rest < Pow2(bits)
  }

  /** high << bits, one doubling at a time. */
  ghost function Shifted(high: nat, bits: nat): nat {
    if bits == 0 then high else 2 * Shifted(high, bits - 1)
  }

  lemma {:induction false} ShiftedIs(high: nat, bits: nat)
    ensures Shifted(high, bits) == high * Pow2(bits)
  {
    if bits > 0 { ShiftedIs(high, bits - 1); }
  }

  /** Shifting in a byte adds it to the low bits. */
  lemma ShiftIn(accum: nat, high: nat, bits: nat, rest: nat, b: Octet)
    requires Split(accum, high, bits, rest) && bits < 5
    ensures Split(accum * 256 + b, high, bits + 8, rest * 256 + b)
  {
    SmallPowers();
    ShiftedIs(high, bits);
    ShiftedIs(high, bits + 8);
    if bits == 0 {} else if bits == 1 {} else if bits == 2 {} else if bits == 3 {} else {}
  }

  /** (accum >> (bits - 5)) & 31 is the top of the low bits, and continues the high ones. */
  lemma ShiftOut(accum: nat, high: nat, bits: nat, rest: nat)
    requires Split(accum, high, bits, rest) && bits >= 5
    ensures var unit := Pow2(bits - 5);
      && accum / unit % 32 == rest / unit
      && Split(accum, high * 32 + rest / unit, bits - 5, rest % unit)
  {
    SmallPowers();
    var unit := Pow2(bits - 5);
    assert Pow2(bits) == 32 * unit;
    ShiftedIs(high, bits);
    DivideBy(accum, high, rest, unit);
    ShiftedIs(high * 32 + rest / unit, bits - 5);
  }

  lemma DivideBy(accum: nat, high: nat, rest: nat, unit: nat)
    requires unit >= 1 && accum == high * (32 * unit) + rest && rest < 32 * unit
    ensures 0 <= rest / unit < 32
    ensures accum / unit % 32 == rest / unit && accum == (high * 32 + rest / unit) * unit + rest % unit
  {
    var q, r := rest / unit, rest % unit;
    Divided(rest, unit);
    MulMono(32, q, unit);
    Regroup(high, 32, unit, q);
    DivUnique(accum, unit, high * 32 + q, r);
    assert (high * 32 + q) % 32 == q;
  }

  lemma Divided(a: nat, d: nat)
    requires d >= 1
    ensures a / d >= 0 && 0 <= a % d < d && a == a / d * d + a % d
  {
  }

  lemma Regroup(high: nat, base: nat, unit: nat, q: nat)
    ensures (high * base + q) * unit == high * (base * unit) + q * unit
  {
    assert (high * base + q) * unit == high * base * unit + q * unit;
  }

  lemma DivUnique(a: nat, d: nat, q: nat, r: nat)
    requires d >= 1 && a == q * d + r && r < d
    ensures a / d == q
  {
    var k := a / d;
    Divided(a, d);
    MulMono(q + 1, k, d);
    MulMono(k + 1, q, d);
    assert (q + 1) * d == q * d + d && (k + 1) * d == k * d + d;
  }

  /** (accum << (5 - bits)) & 31 pads the low bits to one last digit. */
  lemma PadOut(accum: nat, high: nat, bits: nat, rest: nat)
    requires Split(accum, high, bits, rest) && 1 <= bits < 5
    ensures var pad := Pow2(5 - bits);
      high * 32 + accum * pad % 32 == accum * pad
  {
    SmallPowers();
    ShiftedIs(high, bits);
    PadBy(accum, high, Pow2(bits), Pow2(5 - bits), rest);
  }

  lemma PadBy(accum: nat, high: nat, unit: nat, pad: nat, rest: nat)
    requires unit * pad == 32 && accum == high * unit + rest && rest < unit
    ensures high * 32 + accum * pad % 32 == accum * pad
  {
    Regroup(high, unit, pad, rest);
    Regroup(1, rest, pad, 1);
    MulMono(rest + 1, unit, pad);
  }

  lemma Snoc(digits: seq<Digit32>, digit: Digit32)
    ensures Num32(digits + [digit]) == Num32(digits) * 32 + digit
  {
    assert (digits + [digit])[..|digits|] == digits;
  }

  /** The inner loop: while five bits are waiting, the topmost five go out. */
  method Emit(accum: nat, waiting: nat, out: seq<Digit32>, ghost low: nat)
    returns (bits: nat, digits: seq<Digit32>, ghost rest: nat)
    requires Split(accum, Num32(out), waiting, low)
    ensures bits < 5 && 5 * |digits| + bits == 5 * |out| + waiting
    ensures Split(accum, Num32(digits), bits, rest)
  {
    bits, digits, rest := waiting, out, low;
    while bits >= 5
      invariant 5 * |digits| + bits == 5 * |out| + waiting
      invariant Split(accum, Num32(digits), bits, rest)
    {
      ShiftOut(accum, Num32(digits), bits, rest);
      bits := bits - 5;
      rest := rest % Pow2(bits);
      var digit := accum / Pow2(bits) % 32;
      Snoc(digits, digit);
      digits := digits + [digit];
    }
  }

  lemma PadIs(n: nat, k: nat, bits: nat)
    requires bits < 5 && 5 * k + bits == 8 * n
    ensures PadBits(n) == (if bits == 0 then 0 else 5 - bits)
    ensures (8 * n + 4) / 5 == if bits == 0 then k else k + 1
  {
    assert 8 * n % 5 == bits;
  }

  /** The last step: the bits left over, padded with zeros, make one more digit. */
  method Flush(value: seq<Octet>, accum: nat, bits: nat, out: seq<Digit32>, ghost rest: nat)
    returns (digits: seq<Digit32>)
    requires accum == Num256(value) && bits < 5 && 5 * |out| + bits == 8 * |value|
    requires Split(accum, Num32(out), bits, rest)
    ensures Groups(value, digits)
  {
    PadIs(|value|, |out|, bits);
    digits := out;
    if bits > 0 {
      PadOut(accum, Num32(out), bits, rest);
      var digit := accum * Pow2(5 - bits) % 32;
      Snoc(out, digit);
      digits := out + [digit];
    }
  }

  lemma Num256Snoc(value: seq<Octet>, i: nat)
    requires i < |value|
    ensures Num256(value[..i + 1]) == Num256(value[..i]) * 256 + value[i]
  {
    assert value[..i + 1][..i] == value[..i];
  }

  /** The shift-accumulator encoder. */
  method Base32(value: seq<Octet>) returns (digits: seq<Digit32>, text: string)
    ensures Groups(value, digits) && text == Text(digits)
  {
    var bits: nat, accum: nat := 0, 0;
    digits := [];
    ghost var rest: nat := 0;
    for i := 0 to |value|
      invariant accum == Num256(value[..i])
      invariant bits < 5 && 5 * |digits| + bits == 8 * i
      invariant Split(accum, Num32(digits), bits, rest)
    {
      Num256Snoc(value, i);
      ShiftIn(accum, Num32(digits), bits, rest, value[i]);
      accum := accum * 256 + value[i];
      bits, digits, rest := Emit(accum, bits + 8, digits, rest * 256 + value[i]);
    }
    assert value[..|value|] == value;
    digits := Flush(value, accum, bits, digits, rest);
    text := Text(digits);
  }

  /** The alphabet in runs of neighbouring symbols: it leaves out I, L, O and U. */
  function Place(d: Digit32): (c: char)
    ensures c == ALPHABET[d]
  {
    if d < 10 then ('0' as int + d) as char
    else if d < 18 then ('A' as int + d - 10) as char
    else if d < 20 then ('J' as int + d - 18) as char
    else if d < 22 then ('M' as int + d - 20) as char
    else if d < 27 then ('P' as int + d - 22) as char
    else ('V' as int + d - 27) as char
  }

  lemma TextInjective(digits: seq<Digit32>, digits': seq<Digit32>)
    requires Text(digits) == Text(digits')
    ensures digits == digits'
  {
    forall i | 0 <= i < |digits| ensures digits[i] == digits'[i] {
      assert Place(digits[i]) == Text(digits)[i] == Text(digits')[i] == Place(digits'[i]);
    }
  }

  /** Byte strings of one length have one base32 text only if they are the same bytes. */
  lemma Base32Injective(value: seq<Octet>, value': seq<Octet>, digits: seq<Digit32>, digits': seq<Digit32>)
    requires |value| == |value'| && Groups(value, digits) && Groups(value', digits')
    ensures Text(digits) == Text(digits') <==> value == value'
  {
    if Text(digits) == Text(digits') { TextInjective(digits, digits'); }
    GroupsDetermine(value, value', digits, digits');
  }

  // ------------------------------------------------------------ credentials

  const KEY_ID_PREFIX: string := "dk_"
  const CREDENTIAL_PREFIX: string := "gl_dev_"
  const KEY_ID_BODY_CHARS := 8
  const SECRET_BYTES := 32
  const SECRET_CHARS := 43

  datatype Parsed = Parsed(keyId: string, secret: string)

  predicate KeyIdChar(c: char) {
    '0' <= c <= '9' || 'A' <= c <= 'Z'
  }

  predicate SecretChar(c: char) {
    '0' <= c <= '9' || 'A' <= c <= 'Z' || 'a' <= c <= 'z' || c == '_' || c == '-'
  }

  predicate IsKeyId(s: string) {
    && |s| == 3 + KEY_ID_BODY_CHARS && s[..3] == KEY_ID_PREFIX
    && forall i | 3 <= i < |s| :: KeyIdChar(s[i])
  }

  predicate IsSecret(s: string) {
    |s| == SECRET_CHARS && forall i | 0 <= i < |s| :: SecretChar(s[i])
  }

  function Credential(keyId: string, secret: string): string {
    CREDENTIAL_PREFIX + keyId + "_" + secret
  }

  /** What str.strip removes. */
  predicate IsSpace(c: char) {
    var n := c as int;
    || 9 <= n <= 13 || 28 <= n <= 32 || n == 0x85 || n == 0xa0 || n == 0x1680 || 0x2000 <= n <= 0x200a
    || n == 0x2028 || n == 0x2029 || n == 0x202f || n == 0x205f || n == 0x3000
  }

  function Strip(s: string): string {
    if s == [] then s
    else if IsSpace(s[0]) then Strip(s[1..])
    else if IsSpace(s[|s| - 1]) then Strip(s[..|s| - 1])
    else s
  }

  predicate Blank(s: string) {
    forall i | 0 <= i < |s| :: IsSpace(s[i])
  }

  lemma {:induction false} StripSurrounded(left: string, s: string, right: string)
    requires Blank(left) && Blank(right) && s != [] && !IsSpace(s[0]) && !IsSpace(s[|s| - 1])
    ensures Strip(left + s + right) == s
    decreases |left| + |right|
  {
    var all := left + s + right;
    if left != [] {
      assert all[1..] == left[1..] + s + right;
      StripSurrounded(left[1..], s, right);
    } else if right != [] {
      assert all[..|all| - 1] == left + s + right[..|right| - 1];
      StripSurrounded(left, s, right[..|right| - 1]);
    } else {
      assert all == s;
    }
  }

  /** The fixed-width format, then the decoded length. */
  function Parse(credential: string): Option<Parsed> {
    var cleaned := Strip(credential);
    if |cleaned| != 62 || cleaned[..7] != CREDENTIAL_PREFIX || cleaned[18] != '_'
       || !IsKeyId(cleaned[7..18]) || !IsSecret(cleaned[19..])
    then None
    else
      var decoded := B.DecodeBare(B.Alphabet.UrlSafe, cleaned[19..]);
      if decoded.None? || |decoded.value| != SECRET_BYTES then None
      else Some(Parsed(cleaned[7..18], cleaned[19..]))
  }

  /** 43 symbols always decode, and to 32 bytes. */
  lemma SecretDecodes(secret: string)
    requires IsSecret(secret)
    ensures var d := B.DecodeBare(B.Alphabet.UrlSafe, secret); d.Some? && |d.value| == SECRET_BYTES
  {
    forall i | 0 <= i < |secret| ensures B.Alphabet.UrlSafe.Value(secret[i]).Some? {
      assert SecretChar(secret[i]);
    }
  }

  /** Accepted are exactly the credentials of a well-formed identifier and secret, and they come apart into those. */
  lemma ParseExactly(credential: string, keyId: string, secret: string)
    ensures Parse(credential) == Some(Parsed(keyId, secret))
        <==> Strip(credential) == Credential(keyId, secret) && IsKeyId(keyId) && IsSecret(secret)
  {
    var cleaned := Strip(credential);
    if Parse(credential) == Some(Parsed(keyId, secret)) {
      assert cleaned == cleaned[..7] + cleaned[7..18] + [cleaned[18]] + cleaned[19..];
    }
    if cleaned == Credential(keyId, secret) && IsKeyId(keyId) && IsSecret(secret) {
      assert cleaned[..7] == CREDENTIAL_PREFIX && cleaned[7..18] == keyId && cleaned[19..] == secret;
      SecretDecodes(secret);
    }
  }

  /** White space around a credential does not matter. */
  lemma ParseSurrounded(left: string, keyId: string, secret: string, right: string)
    requires Blank(left) && Blank(right) && IsKeyId(keyId) && IsSecret(secret)
    ensures Parse(left + Credential(keyId, secret) + right) == Some(Parsed(keyId, secret))
  {
    var credential := Credential(keyId, secret);
    assert credential[0] == 'g' && credential[|credential| - 1] == secret[|secret| - 1];
    assert SecretChar(secret[|secret| - 1]);
    StripSurrounded(left, credential, right);
    ParseExactly(left + credential + right, keyId, secret);
  }

  lemma Issued(id: seq<Octet>, digits: seq<Digit32>, secret: seq<Octet>)
    requires |id| == 5 && |secret| == SECRET_BYTES && Groups(id, digits)
    ensures IsKeyId(KEY_ID_PREFIX + Text(digits)) && IsSecret(B.EncodeBare(B.Alphabet.UrlSafe, secret))
  {
    var keyId, text := KEY_ID_PREFIX + Text(digits), B.EncodeBare(B.Alphabet.UrlSafe, secret);
    B.BareRoundTrip(B.Alphabet.UrlSafe, secret);
    assert keyId[..3] == KEY_ID_PREFIX;
    forall i | 3 <= i < |keyId| ensures KeyIdChar(keyId[i]) {
      assert keyId[i] == Place(digits[i - 3]);
    }
  }

  /** generate_key_id, generate_secret and issue_credential, the random bytes given. */
  method IssueCredential(id: seq<Octet>, secret: seq<Octet>) returns (keyId: string, credential: string)
    requires |id| == 5 && |secret| == SECRET_BYTES
    ensures IssuedFrom(id, secret, keyId, credential)
  {
    var digits, body := Base32(id);
    keyId := KEY_ID_PREFIX + body;
    credential := Credential(keyId, B.EncodeBare(B.Alphabet.UrlSafe, secret));
  }

  ghost predicate IssuedFrom(id: seq<Octet>, secret: seq<Octet>, keyId: string, credential: string) {
    && (exists digits :: Groups(id, digits) && keyId == KEY_ID_PREFIX + Text(digits))
    && credential == Credential(keyId, B.EncodeBare(B.Alphabet.UrlSafe, secret))
  }

  /** An issued credential, pasted with any white space around it, parses back to its identifier and its secret. */
  lemma IssuedParses(id: seq<Octet>, secret: seq<Octet>, keyId: string, credential: string,
                     left: string, right: string)
    requires |id| == 5 && |secret| == SECRET_BYTES && IssuedFrom(id, secret, keyId, credential)
    requires Blank(left) && Blank(right)
    ensures var p := Parse(left + credential + right);
      p.Some? && p.value.keyId == keyId && B.DecodeBare(B.Alphabet.UrlSafe, p.value.secret) == Some(secret)
  {
    var digits :| Groups(id, digits) && keyId == KEY_ID_PREFIX + Text(digits);
    var text := B.EncodeBare(B.Alphabet.UrlSafe, secret);
    Issued(id, digits, secret);
    B.BareRoundTrip(B.Alphabet.UrlSafe, secret);
    ParseSurrounded(left, keyId, text, right);
  }

  /** Different random bytes never give the same credential. */
  lemma IssuedDistinct(id: seq<Octet>, secret: seq<Octet>, keyId: string,
                       id': seq<Octet>, secret': seq<Octet>, keyId': string, credential: string)
    requires |id| == 5 && |secret| == SECRET_BYTES && IssuedFrom(id, secret, keyId, credential)
    requires |id'| == 5 && |secret'| == SECRET_BYTES && IssuedFrom(id', secret', keyId', credential)
    ensures id == id' && secret == secret'
  {
    IssuedParses(id, secret, keyId, credential, "", "");
    IssuedParses(id', secret', keyId', credential, "", "");
    var digits :| Groups(id, digits) && keyId == KEY_ID_PREFIX + Text(digits);
    var digits' :| Groups(id', digits') && keyId' == KEY_ID_PREFIX + Text(digits');
    assert Text(digits) == keyId[3..] == keyId'[3..] == Text(digits');
    Base32Injective(id, id', digits, digits');
  }
}
