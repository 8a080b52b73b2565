/** Hexadecimal text of bytes, and its decoding. */
module Hex {
  import opened LittleEndian
  import opened Wrappers

  function Nibble(n: nat): char
    requires n < 16
  {
    if n < 10 then '0' + n as char else 'a' + (n - 10) as char
  }

  /** Either case is read. */
  function NibbleValue(c: char): (n: Option<nat>)
    ensures n.Some? ==> n.value < 16
  {
    if '0' <= c <= '9' then Some((c - '0') as nat)
    else if 'a' <= c <= 'f' then Some((c - 'a') as nat + 10)
    else if 'A' <= c <= 'F' then Some((c - 'A') as nat + 10)
    else None
  }

  function Encode(bytes: Bytes): string {
    if bytes == [] then "" else [Nibble(bytes[0] / 16), Nibble(bytes[0] % 16)] + Encode(bytes[1..])
  }

  function Decode(s: string): Option<Bytes> {
    if s == "" then Some([]) else
    if |s| == 1 then None else
    match (NibbleValue(s[0]), NibbleValue(s[1]), Decode(s[2..]))
    case (Some(high), Some(low), Some(rest)) => Some([(16 * high + low) as byte] + rest)
    case _ => None
  }

  /** Two digits to a byte, the high half first: written in lower case, read in either. */
  lemma HighFirst()
    ensures Encode([0x01, 0xAF]) == "01af"
    ensures Decode("af") == Decode("AF") == Some([0xAF]) && Decode("a") == None && Decode("ag") == None
  {
    assert "af"[2..] == "AF"[2..] == "ag"[2..] == "" && Decode("") == Some([]);
    assert [0xAF as byte] + [] == [0xAF];
    assert Encode([0xAF]) == "af" by {
      assert [0xAF as byte][1..] == [];
    }
    assert [0x01 as byte, 0xAF][1..] == [0xAF];
  }

  lemma NibbleRoundTrip(n: nat)
    requires n < 16
    ensures NibbleValue(Nibble(n)) == Some(n)
  {
  }

  lemma {:induction false} RoundTrip(bytes: Bytes)
    ensures Decode(Encode(bytes)) == Some(bytes) && |Encode(bytes)| == 2 * |bytes|
  {
    if bytes != [] {
      RoundTrip(bytes[1..]);
      NibbleRoundTrip(bytes[0] / 16);
      NibbleRoundTrip(bytes[0] % 16);
      var s := Encode(bytes);
      assert s == [s[0]] + [s[1]] + Encode(bytes[1..]) && s[2..] == Encode(bytes[1..]);
      assert s[0] == Nibble(bytes[0] / 16) && s[1] == Nibble(bytes[0] % 16);
      assert [bytes[0]] + bytes[1..] == bytes;
    }
  }
}
