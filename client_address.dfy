/**
 * How a request is mapped to the key of the failed-login ledger
 * (core/models.py: get_client_ip and the IPv6 prefix masking).
 *
 * Textual address parsing and formatting are library behaviour and are
 * not modelled: an address is its packed byte form, four bytes for IPv4
 * and sixteen for IPv6.
 */
module ClientAddress {
  import opened Wrappers

  type Octets4 = s: seq<bv8> | |s| == 4 witness [0, 0, 0, 0]
  type Octets16 = s: seq<bv8> | |s| == 16 witness [0, 0, 0, 0, 0, 0, 0, 0, 0, 0, 0, 0, 0, 0, 0, 0]

  datatype Address = V4(quad: Octets4) | V6(octets: Octets16)

  /** The request metadata the client address is read from. */
  datatype Meta = Meta(forwardedFor: Option<string>, remoteAddr: Option<string>)

  /** `f` is the first field of `s` when `s` is split at commas. */
  ghost predicate IsFirstField(f: string, s: string) {
    f <= s && ',' !in f && (|f| == |s| || s[|f|] == ',')
  }

  /** `s.split(',')[0]`: the text before the first comma, or all of `s`. */
  function FirstField(s: string): (f: string)
    ensures IsFirstField(f, s)
  {
    if s == [] || s[0] == ',' then []
    else [s[0]] + FirstField(s[1..])
  }

  /**
   * get_client_ip: the first entry of X-Forwarded-For when that header is
   * present and non-empty, otherwise REMOTE_ADDR (which may be missing).
   */
  function ClientIp(meta: Meta): (ip: Option<string>)
    ensures meta.forwardedFor.Some? && meta.forwardedFor.value != [] ==>
              ip.Some? && IsFirstField(ip.value, meta.forwardedFor.value)
    ensures meta.forwardedFor.None? || meta.forwardedFor.value == [] ==> ip == meta.remoteAddr
  {
    match meta.forwardedFor
    case Some(header) =>
      if header != [] then Some(FirstField(header)) else meta.remoteAddr
    case None => meta.remoteAddr
  }

  /** The first field of a comma-separated text is unique. */
  lemma FirstFieldUnique(f: string, g: string, s: string)
    requires IsFirstField(f, s) && IsFirstField(g, s)
    ensures f == g
  {
  }

  const Zero8: seq<bv8> := [0, 0, 0, 0, 0, 0, 0, 0]

  /**
   * The ledger key of an address: IPv4 unchanged; IPv6 keeps its 64-bit
   * routing prefix (bytes 0-7) and zeroes the interface identifier
   * (bytes 8-15), as laid out in section 2.5.1 of RFC 4291.
   */
  function Normalize(a: Address): (k: Address)
    ensures a.V4? ==> k == a
    ensures a.V6? ==> k.V6? && k.octets[..8] == a.octets[..8]
    ensures a.V6? ==> forall i :: 8 <= i < 16 ==> k.octets[i] == 0
  {
    match a
    case V4(_) => a
    case V6(b) => V6(b[..8] + Zero8)
  }

  /** An address that is already a ledger key. */
  predicate IsKey(a: Address) {
    Normalize(a) == a
  }

  /** Normalizing twice gives the same key as normalizing once. */
  lemma NormalizeIdempotent(a: Address)
    ensures IsKey(Normalize(a))
  {
    if a.V6? {
      var k := Normalize(a);
      assert k.octets[..8] + Zero8 == k.octets;
    }
  }

  /** Two addresses share a ledger key exactly when they are the same IPv4
   * address or IPv6 addresses with the same first 64 bits. */
  predicate SameSubnet(a: Address, b: Address) {
    match (a, b)
    case (V4(x), V4(y)) => x == y
    case (V6(x), V6(y)) => x[..8] == y[..8]
    case _ => false
  }

  lemma SameKeyIffSameSubnet(a: Address, b: Address)
    ensures Normalize(a) == Normalize(b) <==> SameSubnet(a, b)
  {
    if a.V6? && b.V6? && Normalize(a) == Normalize(b) {
      assert a.octets[..8] == Normalize(a).octets[..8];
    }
  }
}
