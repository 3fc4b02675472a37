/** Opaque verification and reset tokens (lib/utils/token.ts): 32 random bytes
    written as lower-case hexadecimal, paired with an expiry timestamp that the
    store keeps beside the token. Times are milliseconds since the epoch. */
module Token {
  import opened Common

  type Byte = b: int | 0 <= b < 256

  /** `crypto.randomBytes(32)` */
  const TOKEN_BYTES: nat := 32

  /** 24 hours in milliseconds. */
  const TOKEN_LIFETIME_MS: int := 24 * 60 * 60 * 1000

  /** A lower-case hexadecimal digit, as `toString('hex')` writes them. */
  predicate IsHexChar(c: char) { IsDigit(c) || 'a' <= c <= 'f' }

  function HexDigit(n: int): (c: char)
    requires 0 <= n < 16
    ensures IsHexChar(c)
  {
    if n < 10 then ('0' as int + n) as char else ('a' as int + n - 10) as char
  }

  function HexValue(c: char): (v: int)
    requires IsHexChar(c)
    ensures 0 <= v < 16 && HexDigit(v) == c
  {
    if IsDigit(c) then c as int - '0' as int else c as int - 'a' as int + 10
  }

  /** `Buffer.toString('hex')`: two lower-case hex digits per byte, high nibble first. */
  function HexEncode(bytes: seq<Byte>): (s: string)
    ensures |s| == 2 * |bytes|
    ensures forall i :: 0 <= i < |s| ==> IsHexChar(s[i])
  {
    if bytes == [] then ""
    else [HexDigit(bytes[0] / 16), HexDigit(bytes[0] % 16)] + HexEncode(bytes[1..])
  }

  /** The inverse of HexEncode; None for text that is not pairs of lower-case hex digits. */
  function HexDecode(s: string): (r: Option<seq<Byte>>)
    ensures r.Some? ==> 2 * |r.value| == |s|
  {
    if s == [] then Some([])
    else if |s| < 2 || !IsHexChar(s[0]) || !IsHexChar(s[1]) then None
    else match HexDecode(s[2..])
      case None => None
      case Some(rest) => Some([HexValue(s[0]) * 16 + HexValue(s[1])] + rest)
  }

  lemma {:induction false} HexRoundTrip(bytes: seq<Byte>)
    ensures HexDecode(HexEncode(bytes)) == Some(bytes)
  {
    if bytes != [] {
      var s := HexEncode(bytes);
      assert s[2..] == HexEncode(bytes[1..]);
      HexRoundTrip(bytes[1..]);
      assert HexValue(s[0]) == bytes[0] / 16;
      assert HexValue(s[1]) == bytes[0] % 16;
      assert [bytes[0]] + bytes[1..] == bytes;
    }
  }

  /** Distinct random byte strings give distinct tokens. */
  lemma HexEncodeInjective(a: seq<Byte>, b: seq<Byte>)
    requires HexEncode(a) == HexEncode(b)
    ensures a == b
  {
    HexRoundTrip(a);
    HexRoundTrip(b);
  }

  /** `generateVerificationToken()`, given the bytes `crypto.randomBytes(32)` produced. */
  function GenerateVerificationToken(random: seq<Byte>): (token: string)
    requires |random| == TOKEN_BYTES
    ensures |token| == 64
    ensures forall i :: 0 <= i < |token| ==> IsHexChar(token[i])
    ensures HexDecode(token) == Some(random)
  {
    HexRoundTrip(random);
    HexEncode(random)
  }

  /** `getTokenExpiry()`, issued at `now`. */
  function GetTokenExpiry(now: int): (expiry: int)
    ensures !IsTokenExpired(Some(expiry), now)
    ensures expiry - now == TOKEN_LIFETIME_MS
  {
    now + TOKEN_LIFETIME_MS
  }

  /** `isTokenExpired(expiryDate)` evaluated at time `now`. */
  predicate IsTokenExpired(expiry: Option<int>, now: int) {
    expiry.None? || now > expiry.value
  }

  datatype SecureToken = SecureToken(token: string, expiry: int)

  /** `generateSecureToken()` at time `now`. */
  function GenerateSecureToken(random: seq<Byte>, now: int): (t: SecureToken)
    requires |random| == TOKEN_BYTES
    ensures |t.token| == 64 && HexDecode(t.token) == Some(random)
    ensures t.expiry == now + TOKEN_LIFETIME_MS
  {
    SecureToken(GenerateVerificationToken(random), GetTokenExpiry(now))
  }

  /** A missing expiry counts as expired; otherwise expired exactly when the clock is past it. */
  lemma ExpiredIff(expiry: Option<int>, now: int)
    ensures IsTokenExpired(None, now)
    ensures expiry.Some? ==> (IsTokenExpired(expiry, now) <==> now > expiry.value)
    ensures expiry.Some? ==> !IsTokenExpired(expiry, expiry.value)
  {
  }

  /** Once expired, a token stays expired. */
  lemma ExpiryMonotone(expiry: Option<int>, t1: int, t2: int)
    requires t1 <= t2 && IsTokenExpired(expiry, t1)
    ensures IsTokenExpired(expiry, t2)
  {
  }

  /** A freshly issued token is valid for exactly 24 hours. */
  lemma FreshTokenLifetime(random: seq<Byte>, issued: int, t: int)
    requires |random| == TOKEN_BYTES
    ensures var st := GenerateSecureToken(random, issued);
      IsTokenExpired(Some(st.expiry), t) <==> t > issued + TOKEN_LIFETIME_MS
  {
  }
}
