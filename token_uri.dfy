/**
  The metadata location of a token. A new Token's uri is a fixed IPFS base
  path followed by `/` and the decimal token id; the content address handed to
  the metadata job is that uri without its first seven characters (the
  `ipfs://` scheme).
 */
module TokenUris {

  const IpfsScheme: string := "ipfs://"

  /** The collection's metadata directory as a bare content address. */
  const MetadataCid: string := "QmeSjSinHpPnmXmspMjwiXyN6zS4E9zccariGR3jxcaWtq"

  /** The same directory as a uri: "ipfs://QmeSjSinHpPnmXmspMjwiXyN6zS4E9zccariGR3jxcaWtq". */
  const MetadataBase: string := IpfsScheme + MetadataCid

  predicate IsDigit(c: char) {
    '0' <= c <= '9'
  }

  predicate AllDigits(s: string) {
    forall i :: 0 <= i < |s| ==> IsDigit(s[i])
  }

  function DigitChar(d: nat): (c: char)
    requires d < 10
    ensures IsDigit(c) && c as int - '0' as int == d
  {
    ('0' as int + d) as char
  }

  /**
    `BigInt.toString()` for a non-negative value: decimal digits, no sign, and
    no leading zero except in "0" itself.
   */
  function DecimalString(n: nat): (s: string)
    ensures |s| >= 1 && AllDigits(s)
    ensures s[0] == '0' ==> n == 0 && s == "0"
    decreases n
  {
    if n < 10 then [DigitChar(n)] else DecimalString(n / 10) + [DigitChar(n % 10)]
  }

  /** Reads a string of decimal digits back as a number. */
  function ParseDecimal(s: string): nat
    requires AllDigits(s)
  {
    if s == [] then 0 else 10 * ParseDecimal(s[..|s| - 1]) + (s[|s| - 1] as int - '0' as int)
  }

  lemma {:induction false} DecimalRoundTrip(n: nat)
    ensures ParseDecimal(DecimalString(n)) == n
    decreases n
  {
    if n >= 10 {
      DecimalRoundTrip(n / 10);
      var s := DecimalString(n);
      assert s[..|s| - 1] == DecimalString(n / 10);
    }
  }

  /** Distinct token ids are written as distinct decimal strings. */
  lemma DecimalInjective(m: nat, n: nat)
    requires DecimalString(m) == DecimalString(n)
    ensures m == n
  {
    DecimalRoundTrip(m);
    DecimalRoundTrip(n);
  }

  /** The uri a new Token gets: the metadata directory, `/`, then the decimal token id. */
  function TokenUri(tokenId: nat): string {
    MetadataBase + "/" + DecimalString(tokenId)
  }

  /** `s.substring(start)` for a non-negative start: empty when start is past the end. */
  function Substring(s: string, start: nat): (r: string)
    ensures |r| == if start <= |s| then |s| - start else 0
    ensures forall i :: 0 <= i < |r| ==> r[i] == s[start + i]
  {
    if start <= |s| then s[start..] else ""
  }

  /** The content address taken from a uri: `uri.substring(7)`. */
  function IpfsHash(uri: string): (hash: string)
    ensures |uri| >= 7 ==> uri == uri[..7] + hash
    ensures |uri| < 7 ==> hash == ""
  {
    Substring(uri, 7)
  }

  /**
    A token's content address is the metadata directory followed by `/` and
    the decimal token id, and putting the `ipfs://` scheme back in front gives
    the uri again.
   */
  lemma TokenIpfsHash(tokenId: nat)
    ensures IpfsHash(TokenUri(tokenId)) == MetadataCid + "/" + DecimalString(tokenId)
    ensures IpfsScheme + IpfsHash(TokenUri(tokenId)) == TokenUri(tokenId)
  {
    var uri := TokenUri(tokenId);
    assert uri == IpfsScheme + (MetadataCid + "/" + DecimalString(tokenId));
    assert uri[7..] == MetadataCid + "/" + DecimalString(tokenId);
  }

  /** Distinct token ids get distinct uris and distinct content addresses. */
  lemma TokenIpfsHashInjective(m: nat, n: nat)
    requires IpfsHash(TokenUri(m)) == IpfsHash(TokenUri(n))
    ensures m == n
    ensures TokenUri(m) == TokenUri(n)
  {
    TokenIpfsHash(m);
    TokenIpfsHash(n);
    var prefix := MetadataCid + "/";
    var a := prefix + DecimalString(m);
    var b := prefix + DecimalString(n);
    assert DecimalString(m) == a[|prefix|..];
    assert DecimalString(n) == b[|prefix|..];
    DecimalInjective(m, n);
  }
}
