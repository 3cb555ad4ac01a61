/** What a verification token's signature covers, stated over the HMAC and the bytes of the text;
    and the texts inside an issued token, written out. */
module TokenSignatures {
  import opened Sorting
  import opened Wrappers
  import opened Decimal
  import opened CanonicalJson
  import opened CanonicalParity
  import opened Base64
  import opened HashedText
  import opened Tokens

  /** The HMAC of the first two segments and the dot between them. */
  function PortionMac(lib: Library, signer: Signer, payload: string, expiry: string): Bytes
    requires IsAscii(payload + "." + expiry)
  {
    lib.hmac(signer.secret, AsciiBytes(payload + "." + expiry))
  }

  lemma EncodeInjective(a: Bytes, b: Bytes)
    ensures Base64.Encode(a) == Base64.Encode(b) <==> a == b
  {
    if Base64.Encode(a) == Base64.Encode(b) {
      DecodeEncode(a, _ => None);
      DecodeEncode(b, _ => None);
    }
  }

  lemma SegmentsAscii(a: string, b: string, c: string)
    ensures IsAscii(a + "." + b + "." + c) <==> IsAscii(a + "." + b) && IsAscii(c)
  {
    AsciiConcat(a + "." + b, "." + c);
    AsciiConcat(".", c);
    assert a + "." + b + "." + c == a + "." + b + ("." + c);
  }

  /** A token of three ASCII segments is refused exactly when its third segment is not the encoded
      HMAC of the other two, unless what those carry is refused; and what is accepted or found
      expired carries that HMAC. */
  lemma SignatureCoversBothSegments(lib: Library, signer: Signer, p: string, e: string, s: string, now: int)
    requires '.' !in p && '.' !in e && '.' !in s && IsAscii(p + "." + e + "." + s)
    ensures IsAscii(p + "." + e)
    ensures s != Base64.Encode(PortionMac(lib, signer, p, e)) ==> Verify(lib, signer, p + "." + e + "." + s, now) == TokenInvalid
    ensures s == Base64.Encode(PortionMac(lib, signer, p, e)) ==>
              Verify(lib, signer, p + "." + e + "." + s, now)
              == match (ReadExpiry(lib, e), ReadPayload(lib, p))
                 case (Some(expiry), Some(payload)) => if now > expiry * SECOND then TokenExpired else ClaimOf(payload)
                 case _ => TokenInvalid
  {
    SegmentsAscii(p, e, s);
    ThreeSegments(p + "." + e + "." + s, p, e, s);
  }

  lemma PassesWithItsMac(lib: Library, signer: Signer, token: string, now: int)
    requires var v := Verify(lib, signer, token, now); v.Verified? || v.TokenExpired?
    ensures |Split(token)| == 3 && IsAscii(Split(token)[0] + "." + Split(token)[1])
    ensures Base64.Decode(Split(token)[2], lib.looseBase64) == Some(PortionMac(lib, signer, Split(token)[0], Split(token)[1]))
  {
    UndocumentedErrorIffNotAscii(lib, signer, token, now);
    var p, e, s := Split(token)[0], Split(token)[1], Split(token)[2];
    assert Split(token) == [p, e, s];
    ThreeSegments(token, p, e, s);
    SignatureCoversBothSegments(lib, signer, p, e, s, now);
    DecodeEncode(PortionMac(lib, signer, p, e), lib.looseBase64);
  }

  /** The bytes that an issuing signer signs. */
  function IssuedMac(lib: Library, signer: Signer, claim: Claim, expiry: int): Bytes {
    SegmentsAreAscii(claim, expiry);
    PortionMac(lib, signer, PayloadSegment(claim), ExpirySegment(expiry))
  }

  /** An issued token is its two segments and the encoded HMAC of them. */
  lemma IssuedTokenText(lib: Library, signer: Signer, claim: Claim, expiry: int)
    ensures Token(lib, signer, claim, expiry)
            == PayloadSegment(claim) + "." + ExpirySegment(expiry) + "." + Base64.Encode(IssuedMac(lib, signer, claim, expiry))
  {
    SegmentsAreAscii(claim, expiry);
  }

  lemma MacSegment(mac: Bytes, p: string, e: string)
    requires IsAscii(p + "." + e)
    ensures '.' !in Base64.Encode(mac) && IsAscii(p + "." + e + "." + Base64.Encode(mac))
  {
    EncodeAlphabet(mac);
    SegmentsAscii(p, e, Base64.Encode(mac));
  }

  /** A signature moved to other segments, or checked by another signer: the segments of (c, y)
      with the signature that `issuer` issued for (d, x) are refused unless the two HMACs are equal,
      and then they verify as (c, y) would. So neither the payload nor the expiry of a token can
      be replaced, and a token of one signer is not one of another. */
  lemma MovedSignatureFails(lib: Library, signer: Signer, issuer: Signer, c: Claim, y: int, d: Claim, x: int, token: string, now: int)
    requires token == PayloadSegment(c) + "." + ExpirySegment(y) + "." + Split(Token(lib, issuer, d, x))[|Split(Token(lib, issuer, d, x))| - 1]
    ensures Verify(lib, signer, token, now)
            == if IssuedMac(lib, signer, c, y) == IssuedMac(lib, issuer, d, x) then VerdictAt(c, y, now) else TokenInvalid
  {
    IssuedTokenSplits(lib, issuer, d, x);
    IssuedTokenText(lib, issuer, d, x);
    var p, e, mac := PayloadSegment(c), ExpirySegment(y), IssuedMac(lib, issuer, d, x);
    SegmentsAreAscii(d, x);
    MacSegment(mac, PayloadSegment(d), ExpirySegment(x));
    ThreeSegments(Token(lib, issuer, d, x), PayloadSegment(d), ExpirySegment(x), Base64.Encode(mac));
    SegmentsAreAscii(c, y);
    MacSegment(mac, p, e);
    SignatureCoversBothSegments(lib, signer, p, e, Base64.Encode(mac), now);
    EncodeInjective(mac, IssuedMac(lib, signer, c, y));
    if IssuedMac(lib, signer, c, y) == mac {
      IssuedTokenText(lib, signer, c, y);
      TokenRoundTrip(lib, signer, c, y, now);
    }
  }

  // ---- The texts inside -----------------------------------------------------------------------

  lemma ClaimQuotes()
    ensures PyQuote(EMAIL) == "\"" + "email" + "\"" && PyQuote(USER_ID) == "\"" + "user_id" + "\""
  {
    assert Spells(EMAIL, "email") && Spells(USER_ID, "user_id");
    PyPlainQuote(EMAIL, "email");
    PyPlainQuote(USER_ID, "user_id");
  }

  lemma ClaimPieces(p: string, q: string, t: string, u: string)
    requires p == "\"" + "email" + "\"" && q == "\"" + "user_id" + "\""
    ensures "{" + (p + ":" + (t + "," + (q + ":" + u))) + "}" == "{\"email\":" + t + ",\"user_id\":" + u + "}"
  {
    assert "{" + p + ":" == "{\"email\":";
    assert "," + q + ":" == ",\"user_id\":";
    Regrouped(p, q, t, u, "{\"email\":", ",\"user_id\":");
  }

  lemma ClaimText(claim: Claim)
    ensures PyText(ClaimJson(claim)) == "{\"email\":" + PyQuote(claim.email) + ",\"user_id\":" + PyQuote(claim.userId) + "}"
  {
    var a, b := PyMember(EMAIL, PyStr(claim.email)), PyMember(USER_ID, PyStr(claim.userId));
    ClaimKeys();
    PyPairText([b, a], a, b);
    ClaimQuotes();
    ClaimPieces(PyQuote(EMAIL), PyQuote(USER_ID), PyQuote(claim.email), PyQuote(claim.userId));
  }

  /** The payload segment decodes to the literal object around the two quoted strings, and the
      expiry segment to the decimal digits of the whole second. */
  lemma SegmentTexts(claim: Claim, expiry: int, otherwise: string -> Option<Bytes>)
    ensures var text := "{\"email\":" + PyQuote(claim.email) + ",\"user_id\":" + PyQuote(claim.userId) + "}";
            IsAscii(text) && Base64.Decode(PayloadSegment(claim), otherwise) == Some(AsciiBytes(text))
    ensures IsAscii(IntText(WholeSeconds(expiry)))
    ensures Base64.Decode(ExpirySegment(expiry), otherwise) == Some(AsciiBytes(IntText(WholeSeconds(expiry))))
  {
    ClaimText(claim);
    PyTextIsAscii(ClaimJson(claim));
    IntTextIsAscii(WholeSeconds(expiry));
    DecodeEncode(AsciiBytes(PyText(ClaimJson(claim))), otherwise);
    DecodeEncode(AsciiBytes(IntText(WholeSeconds(expiry))), otherwise);
  }

  /** Days from the first of January of year 1 to that of a later year. */
  function DaysBefore(year: nat): int
    requires year > 0
  {
    365 * (year - 1) + (year - 1) / 4 - (year - 1) / 100 + (year - 1) / 400
  }

  /** The instants of years 1 to 9999 in microseconds around the epoch of 1970, and no others. */
  lemma RepresentableYears(instant: int)
    ensures Representable(instant)
            <==> (DaysBefore(1) - DaysBefore(1970)) * 86_400 * 1_000_000 <= instant
                 < (DaysBefore(10_000) - DaysBefore(1970)) * 86_400 * 1_000_000
    ensures SECOND == 1_000_000
  {
    assert DaysBefore(1) == 0 && DaysBefore(1970) == 719_162 && DaysBefore(10_000) == 3_652_059;
  }
}
