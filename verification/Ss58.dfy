/**
 * SS58 addresses. Base58 text and the checksum hash are parameters: the first an inverse pair, the
 * second any function to at least two bytes.
 */
module Ss58 {
  import opened LittleEndian
  import opened Wrappers

  datatype Base58 = Base58(encode: Bytes -> string, decode: string -> Option<Bytes>)

  ghost predicate IsInversePair(text: Base58) {
    forall b :: text.decode(text.encode(b)) == Some(b)
  }

  const CHECKSUM_PREFIX: Bytes := [0x53, 0x53, 0x35, 0x38, 0x50, 0x52, 0x45]
  const CHECKSUM_LEN := 2

  type Hash = h: Bytes -> Bytes | forall b :: |h(b)| >= CHECKSUM_LEN witness b => [0, 0]

  function Checksum(hash: Hash, body: Bytes): (r: Bytes)
    ensures |r| == CHECKSUM_LEN
  {
    hash(CHECKSUM_PREFIX + body)[..CHECKSUM_LEN]
  }

  /** One byte below 64; above, the tag `01` and the low fourteen bits, the low six of them first. */
  function EncodePrefix(prefix: bv16): Bytes {
    if prefix < 64 then [LowByte(prefix) as int] else
    [Low(prefix) as int, High(prefix) as int]
  }

  function Low(prefix: bv16): bv8 {
    (LowByte(prefix & 0xFC) >> 2) | 0x40
  }

  function High(prefix: bv16): bv8 {
    LowByte(prefix >> 8) | (LowByte(prefix & 3) << 6)
  }

  function LowByte(x: bv16): bv8 {
    (x & 0xFF) as bv8
  }

  function Encode(account: Bytes, prefix: bv16, text: Base58, hash: Hash): string {
    var body := EncodePrefix(prefix) + account;
    text.encode(body + Checksum(hash, body))
  }

  /** The account in an address of any network, if its checksum is right. */
  function Decode(address: string, text: Base58, hash: Hash): Option<Bytes> {
    match text.decode(address)
    case None => None
    case Some(raw) =>
      var prefixLen := if |raw| == 32 + CHECKSUM_LEN + 1 then 1 else 2;
      if |raw| != prefixLen + 32 + CHECKSUM_LEN then None else
      var body, checksum := raw[..prefixLen + 32], raw[prefixLen + 32..];
      if Checksum(hash, body) != checksum then None else Some(body[prefixLen..])
  }

  /**
   * An address gives its account back, whatever the network prefix and whatever is known of the
   * hash, if and only if the account is 32 bytes long.
   */
  lemma RoundTripIff(account: Bytes, prefix: bv16, text: Base58, hash: Hash)
    requires IsInversePair(text)
    ensures Decode(Encode(account, prefix, text, hash), text, hash) == Some(account) <==> |account| == 32
  {
    var head := EncodePrefix(prefix);
    var body := head + account;
    var raw := body + Checksum(hash, body);
    assert text.decode(text.encode(raw)) == Some(raw);
    if |account| == 32 {
      assert raw[..|head| + 32] == body && raw[|head| + 32..] == Checksum(hash, body);
      assert body[|head|..] == account;
    }
  }

  /** An address is the prefix, the account, and two bytes of the hash of "SS58PRE" and both. */
  lemma AddressIs(account: Bytes, prefix: bv16, text: Base58, hash: Hash)
    requires IsInversePair(text)
    ensures var body := EncodePrefix(prefix) + account;
            text.decode(Encode(account, prefix, text, hash))
            == Some(body + hash([0x53, 0x53, 0x35, 0x38, 0x50, 0x52, 0x45] + body)[..2])
  {
  }

  /** An address that decodes to an account is that account after some prefix, with its checksum. */
  lemma DecodedIsChecked(address: string, text: Base58, hash: Hash) returns (head: Bytes)
    requires Decode(address, text, hash).Some?
    ensures var account := Decode(address, text, hash).value;
            |account| == 32 && 1 <= |head| <= 2
            && text.decode(address)
               == Some(head + account + hash([0x53, 0x53, 0x35, 0x38, 0x50, 0x52, 0x45] + (head + account))[..2])
  {
    var raw, account := text.decode(address).value, Decode(address, text, hash).value;
    head := raw[..|raw| - 34];
    assert head + account == raw[..|raw| - 2];
    assert raw == raw[..|raw| - 2] + raw[|raw| - 2..];
  }

  /**
   * The first byte tells the form: below 64 it is the prefix itself. With the tag `01` at its top it
   * carries the middle six of fourteen bits, and the byte after it the low two at its top and the high six.
   */
  lemma PrefixReadsBack(prefix: bv16) returns (first: bv8, second: bv8)
    requires prefix < 16384
    ensures if prefix < 64
            then EncodePrefix(prefix) == [first as int] && first as bv16 == prefix
            else && EncodePrefix(prefix) == [first as int, second as int] && first & 0xC0 == 0x40
                 && prefix == ((first & 0x3F) as bv16 << 2) | ((second & 0x3F) as bv16 << 8) | ((second >> 6) as bv16)
  {
    first, second := if prefix < 64 then LowByte(prefix) else Low(prefix), High(prefix);
    if prefix < 64 {
      OneByteReads(prefix);
    } else {
      TwoBytesRead(prefix);
    }
  }

  lemma OneByteReads(prefix: bv16)
    requires prefix < 64
    ensures LowByte(prefix) as bv16 == prefix
  {
  }

  lemma TwoBytesRead(prefix: bv16)
    requires prefix < 16384
    ensures var first, second := Low(prefix), High(prefix);
            && first & 0xC0 == 0x40
            && prefix == ((first & 0x3F) as bv16 << 2) | ((second & 0x3F) as bv16 << 8) | ((second >> 6) as bv16)
  {
  }

  /** What two bytes keep of a prefix: its low fourteen bits, the two above them folded in. */
  function Folded(prefix: bv16): bv16 {
    (prefix & 0x3FFF) | (prefix >> 14)
  }

  /**
   * Two networks share a prefix encoding if and only if they are the same, or both take two bytes
   * and fold to the same fourteen bits.
   */
  lemma PrefixesCollideIff(p: bv16, q: bv16)
    ensures EncodePrefix(p) == EncodePrefix(q) <==> p == q || (p >= 64 && q >= 64 && Folded(p) == Folded(q))
  {
    hide Low, High, Folded, LowByte, Unfolded;
    BytesOfFolded(p);
    BytesOfFolded(q);
    if p < 64 && q < 64 {
      OneByteIff(p, q);
      SameByte(LowByte(p), LowByte(q));
      assert EncodePrefix(p)[0] == LowByte(p) as int && EncodePrefix(q)[0] == LowByte(q) as int;
    } else if p >= 64 && q >= 64 {
      SameByte(Low(p), Low(q));
      SameByte(High(p), High(q));
      assert EncodePrefix(p)[0] == Low(p) as int && EncodePrefix(p)[1] == High(p) as int;
      assert EncodePrefix(q)[0] == Low(q) as int && EncodePrefix(q)[1] == High(q) as int;
    } else {
      assert |EncodePrefix(p)| != |EncodePrefix(q)|;
    }
  }

  /** The fourteen bits out of the two bytes. */
  function Unfolded(low: bv8, high: bv8): bv16 {
    (((low & 0x3F) as bv16) << 2) | (((high & 0x3F) as bv16) << 8) | ((high >> 6) as bv16)
  }

  lemma BytesOfFolded(p: bv16)
    ensures Low(Folded(p)) == Low(p) && High(Folded(p)) == High(p)
    ensures Unfolded(Low(p), High(p)) == Folded(p)
  {
    LowOfFolded(p);
    HighOfFolded(p);
    UnfoldsFolded(p);
  }

  lemma LowOfFolded(p: bv16)
    ensures Low(Folded(p)) == Low(p)
  {
  }

  lemma HighOfFolded(p: bv16)
    ensures High(Folded(p)) == High(p)
  {
  }

  lemma UnfoldsFolded(p: bv16)
    ensures Unfolded(Low(p), High(p)) == Folded(p)
  {
  }

  lemma SameByte(a: bv8, b: bv8)
    ensures a as int == b as int <==> a == b
  {
    assert (a as int) as bv8 == a && (b as int) as bv8 == b;
  }

  lemma OneByteIff(p: bv16, q: bv16)
    requires p < 64 && q < 64
    ensures LowByte(p) == LowByte(q) <==> p == q
  {
  }

  /** No two of the prefixes the format has room for share an encoding; one beyond them does. */
  lemma PrefixInjectiveBelow(p: bv16, q: bv16)
    ensures p < 16384 && q < 16384 && EncodePrefix(p) == EncodePrefix(q) ==> p == q
    ensures EncodePrefix(16640) == EncodePrefix(257)
  {
    PrefixesCollideIff(p, q);
    PrefixesCollideIff(16640, 257);
  }
}
