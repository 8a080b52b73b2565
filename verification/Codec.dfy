/**
 * Decoded SCALE values as JSON, and the readers that get bytes, integers and accounts back out of
 * it. The rendering forgets which unnamed composites were bytes; the readers have to guess.
 */
module Codec {
  import opened Decimal
  import Hex
  import opened LittleEndian
  import opened Wrappers

  datatype Scale =
    | Named(fields: seq<(string, Scale)>)
    | Unnamed(values: seq<Scale>)
    /** What a variant holds is a composite again. */
    | Variant(name: string, held: Scale)
    | Bool(b: bool)
    | Text(s: string)
    | U128(n: nat)
    | I128(i: int)
    | Wide(bytes: Bytes)
    | Bits(bits: seq<bool>)

  datatype Json =
    | Null
    | Boolean(b: bool)
    /** A whole number, or none for any other. */
    | Number(whole: Option<int>)
    | String(s: string)
    | Array(items: seq<Json>)
    | Object(members: map<string, Json>)

  const MIN_HEX_BYTES := 16

  // ----- rendering ----------------------------------------------------------------------------------

  predicate IsByte(v: Scale) {
    v.U128? && v.n < 256
  }

  /** The bytes of a composite of small integers, when it is long enough to be shown as hex. */
  function Blob(values: seq<Scale>): Option<Bytes> {
    if |values| >= MIN_HEX_BYTES && forall i :: 0 <= i < |values| ==> IsByte(values[i])
    then Some(seq(|values|, i requires 0 <= i < |values| && IsByte(values[i]) => values[i].n as byte))
    else None
  }

  /** The hex string of such a composite. */
  method BytesToHex(values: seq<Scale>) returns (r: Option<string>)
    ensures r == match Blob(values)
                 case Some(bytes) => Some("0x" + Hex.Encode(bytes))
                 case None => None
    ensures r.Some? <==> |values| >= 16 && forall v <- values :: v.U128? && v.n < 256
  {
    if |values| < MIN_HEX_BYTES {
      return None;
    }
    var bytes: Bytes := [];
    for i := 0 to |values|
      invariant |bytes| == i
      invariant forall j :: 0 <= j < i ==> IsByte(values[j]) && bytes[j] == values[j].n
    {
      if !values[i].U128? || values[i].n >= 256 {
        return None;
      }
      bytes := bytes + [values[i].n as byte];
    }
    assert Blob(values).Some? && Blob(values).value == bytes;
    return Some("0x" + Hex.Encode(bytes));
  }

  function Signed(i: int): string {
    if i < 0 then "-" + ToDecimal(-i) else ToDecimal(i)
  }

  predicate IsLastNamed(fields: seq<(string, Scale)>, i: int) {
    0 <= i < |fields| && forall j :: i < j < |fields| ==> fields[j].0 != fields[i].0
  }

  function Names(fields: seq<(string, Scale)>): set<string> {
    set i | 0 <= i < |fields| :: fields[i].0
  }

  function LastNamed(fields: seq<(string, Scale)>, name: string): (i: nat)
    requires exists k :: 0 <= k < |fields| && fields[k].0 == name
    ensures IsLastNamed(fields, i) && fields[i].0 == name
    decreases |fields|
  {
    var last := |fields| - 1;
    if fields[last].0 == name then last else
    assert forall k :: 0 <= k < |fields| && fields[k].0 == name ==> k < last && fields[..last][k].0 == name;
    LastNamed(fields[..last], name)
  }

  function ToJson(v: Scale): Json
    decreases v
  {
    match v
    case Named(fields) =>
      // A repeated name keeps its last value.
      Object(map name | name in Names(fields) :: ToJson(fields[LastNamed(fields, name)].1))
    case Unnamed(values) =>
      (match Blob(values)
       case Some(bytes) => String("0x" + Hex.Encode(bytes))
       case None => Array(seq(|values|, i requires 0 <= i < |values| => ToJson(values[i]))))
    case Variant(name, held) =>
      if name == "None" then Null
      else if name == "Some" && held.Unnamed? && |held.values| == 1 then ToJson(held.values[0])
      else Object(map[name := ToJson(held)])
    case Bool(b) => Boolean(b)
    case Text(s) => String(s)
    case U128(n) => String(ToDecimal(n))
    case I128(i) => String(Signed(i))
    case Wide(bytes) => String("0x" + Hex.Encode(bytes))
    case Bits(bits) => Array(seq(|bits|, i requires 0 <= i < |bits| => Boolean(bits[i])))
  }

  // ----- reading back -------------------------------------------------------------------------------

  function AsU64(v: Json): Option<nat>
    decreases v
  {
    match v
    case Number(Some(n)) => if 0 <= n < U64_LIMIT then Some(n) else None
    case String(s) => ParseU64(s)
    case Array(items) => if |items| == 1 then AsU64(items[0]) else None
    case _ => None
  }

  function AsByte(v: Json): Option<byte> {
    match AsU64(v)
    case Some(n) => if n < 256 then Some(n) else None
    case None => None
  }

  /** Every item as a byte, or none if one of them is not. */
  function BytesFromArray(items: seq<Json>): Option<Bytes> {
    if items == [] then Some([]) else
    match (AsByte(items[0]), BytesFromArray(items[1..]))
    case (Some(b), Some(rest)) => Some([b] + rest)
    case _ => None
  }

  function StripPrefix(s: string): Option<string> {
    if |s| >= 2 && s[..2] == "0x" then Some(s[2..]) else None
  }

  /** Raw bytes out of a field rendered as hex or as an array. */
  function AsBytes(v: Json): Option<Bytes>
    decreases v
  {
    match v
    case String(s) => Hex.Decode(if StripPrefix(s).Some? then StripPrefix(s).value else s)
    case Array(items) => if |items| == 1 && !items[0].Number? then AsBytes(items[0]) else BytesFromArray(items)
    case _ => None
  }

  /** The bytes a text field is made from; a hex string must be marked as such and not be empty. */
  function PayloadBytes(v: Json): Option<Bytes>
    decreases v
  {
    match v
    case String(s) =>
      (match StripPrefix(s)
       case None => None
       case Some(digits) => if Hex.Decode(digits) == Some([]) then None else Hex.Decode(digits))
    case Array(items) =>
      if |items| == 1 && (items[0].String? || items[0].Array?) then PayloadBytes(items[0]) else BytesFromArray(items)
    case _ => None
  }

  /** The 32 bytes behind an account field. */
  function AccountBytes(v: Json): Option<Bytes> {
    var text := if v.String? then Some(v.s)
                else if v.Array? && |v.items| == 1 && v.items[0].String? then Some(v.items[0].s)
                else None;
    match text
    case None => None
    case Some(s) =>
      match StripPrefix(s)
      case None => None
      case Some(digits) =>
        match Hex.Decode(digits)
        case None => None
        case Some(bytes) => if |bytes| == 32 then Some(bytes) else None
  }

  // ----- round trips --------------------------------------------------------------------------------

  /** A byte string as the chain encodes it: so many small integers. */
  function OfBytes(bytes: Bytes): Scale {
    Unnamed(Integers(bytes))
  }

  function Integers(bytes: Bytes): (r: seq<Scale>)
    ensures |r| == |bytes| && forall i :: 0 <= i < |r| ==> r[i] == U128(bytes[i])
  {
    if bytes == [] then [] else [U128(bytes[0])] + Integers(bytes[1..])
  }

  function Decimals(bytes: Bytes): (r: seq<Json>)
    ensures |r| == |bytes| && forall i :: 0 <= i < |r| ==> r[i] == String(ToDecimal(bytes[i]))
  {
    if bytes == [] then [] else [String(ToDecimal(bytes[0]))] + Decimals(bytes[1..])
  }

  /** A value inside so many newtypes. */
  function Wrapped(v: Scale, levels: nat): Scale {
    if levels == 0 then v else Unnamed([Wrapped(v, levels - 1)])
  }

  lemma WrappedJson(v: Scale, levels: nat)
    requires levels > 0
    ensures ToJson(Wrapped(v, levels)) == Array([ToJson(Wrapped(v, levels - 1))])
  {
    var inner := Wrapped(v, levels - 1);
    assert Blob([inner]) == None;
    assert seq(1, i requires 0 <= i < 1 => ToJson([inner][i])) == [ToJson(inner)];
  }

  /** Bytes are shown as hex from sixteen on, and below that as decimal text, one by one. */
  lemma BytesJson(bytes: Bytes)
    ensures ToJson(OfBytes(bytes))
            == if |bytes| >= 16 then String("0x" + Hex.Encode(bytes))
               else Array(Decimals(bytes))
  {
    hide ToDecimal, Hex.Encode, Blob, Integers, Decimals, ToJson;
    var values := Integers(bytes);
    BlobOf(bytes);
    UnnamedJson(values);
    if |bytes| < MIN_HEX_BYTES {
      forall i | 0 <= i < |values|
        ensures ToJson(values[i]) == Decimals(bytes)[i]
      {
        IntegerJson(bytes[i]);
      }
      assert ToJson(Unnamed(values)).items == Decimals(bytes);
    }
  }

  lemma UnnamedJson(values: seq<Scale>)
    ensures match Blob(values)
            case Some(bytes) => ToJson(Unnamed(values)) == String("0x" + Hex.Encode(bytes))
            case None => var v := ToJson(Unnamed(values));
                         v.Array? && |v.items| == |values|
                         && forall i :: 0 <= i < |values| ==> v.items[i] == ToJson(values[i])
  {
    hide Blob, Hex.Encode;
  }

  /** Whole numbers of any width are text: their decimal digits, after a minus sign if there is one. */
  lemma SignedJson(i: int)
    ensures var v := ToJson(I128(i));
            v.String? && v.s != []
            && if i < 0 then v.s[0] == '-' && Value(v.s[1..]) == Some(-i) else Value(v.s) == Some(i)
  {
    DecimalValue(if i < 0 then -i else i);
  }

  /** A composite with names has each of them once, with the last value under it. */
  lemma NamedJson(fields: seq<(string, Scale)>)
    ensures var v := ToJson(Named(fields));
            v.Object?
            && (forall name :: name in v.members <==> exists i :: 0 <= i < |fields| && fields[i].0 == name)
            && forall i :: IsLastNamed(fields, i) ==> fields[i].0 in v.members && v.members[fields[i].0] == ToJson(fields[i].1)
  {
    hide Blob, Signed, ToDecimal, Hex.Encode;
    forall i | IsLastNamed(fields, i)
      ensures LastNamed(fields, fields[i].0) == i && fields[i].0 in Names(fields)
    {
      var j := LastNamed(fields, fields[i].0);
    }
  }

  /** An option is its value or nothing; any other variant keeps its name, as the one key of an object. */
  lemma VariantJson(name: string, held: Scale)
    ensures var v := ToJson(Variant(name, held));
            && (v == Null <==> name == "None" || (IsSome(name, held) && ToJson(held.values[0]) == Null))
            && (name != "None" && !IsSome(name, held) ==> v.Object? && v.members.Keys == {name} && v.members[name] == ToJson(held))
            && (IsSome(name, held) ==> v == ToJson(held.values[0]))
  {
  }

  predicate IsSome(name: string, held: Scale) {
    name == "Some" && held.Unnamed? && |held.values| == 1
  }

  /** Bits are shown one by one, in order; wide integers as the hex of their bytes; the rest as they are. */
  lemma PlainJson(bits: seq<bool>, bytes: Bytes, s: string, b: bool)
    ensures var v := ToJson(Bits(bits));
            v.Array? && |v.items| == |bits| && forall i :: 0 <= i < |bits| ==> v.items[i] == Boolean(bits[i])
    ensures var v := ToJson(Wide(bytes));
            v.String? && |v.s| == 2 + 2 * |bytes| && v.s[..2] == "0x" && Hex.Decode(v.s[2..]) == Some(bytes)
    ensures ToJson(Text(s)) == String(s) && ToJson(Bool(b)) == Boolean(b)
  {
    Hex.RoundTrip(bytes);
  }

  lemma IntegerJson(n: nat)
    ensures ToJson(U128(n)) == String(ToDecimal(n))
  {
  }

  lemma BlobOf(bytes: Bytes)
    ensures Blob(Integers(bytes)) == if |bytes| >= MIN_HEX_BYTES then Some(bytes) else None
  {
    hide Integers;
    if |bytes| >= MIN_HEX_BYTES {
      assert Blob(Integers(bytes)).value == bytes;
    }
  }

  lemma DecimalParses(n: nat)
    ensures ParseU64(ToDecimal(n)) == if n < U64_LIMIT then Some(n) else None
  {
    DecimalValue(n);
    assert ToDecimal(n)[0] in ToDecimal(n);
  }

  /** An integer of any width survives, inside any number of newtypes, if and only if it fits. */
  lemma {:induction false} IntegerRoundTripIff(n: nat, levels: nat)
    ensures AsU64(ToJson(Wrapped(U128(n), levels))) == Some(n) <==> n < U64_LIMIT
    ensures AsU64(ToJson(Wrapped(U128(n), levels))).Some? ==> n < U64_LIMIT
  {
    if levels == 0 {
      DecimalParses(n);
    } else {
      WrappedJson(U128(n), levels);
      IntegerRoundTripIff(n, levels - 1);
    }
  }

  lemma ByteItem(b: byte)
    ensures AsByte(String(ToDecimal(b))) == Some(b)
  {
    hide ToDecimal, ParseU64;
    DecimalParses(b);
  }

  lemma {:induction false} DecimalItems(bytes: Bytes)
    ensures BytesFromArray(Decimals(bytes)) == Some(bytes)
    decreases |bytes|
  {
    hide ToDecimal, ParseU64, AsByte;
    if bytes != [] {
      DecimalItems(bytes[1..]);
      ByteItem(bytes[0]);
      var items := Decimals(bytes);
      assert items[0] == String(ToDecimal(bytes[0])) && items[1..] == Decimals(bytes[1..]);
      hide Decimals;
      assert [bytes[0]] + bytes[1..] == bytes;
    }
  }

  // ----- JSON that was not rendered here --------------------------------------------------------------

  /** A whole number is read as a number or as text, with a plus sign or without, if and only if it fits 64 bits. */
  lemma PlainIntegerReads(n: nat)
    ensures var read := if n < 0x1_0000_0000_0000_0000 then Some(n) else None;
            && AsU64(Number(Some(n))) == read && AsU64(String(ToDecimal(n))) == read
            && AsU64(String("+" + ToDecimal(n))) == read && AsU64(Array([Number(Some(n))])) == read
    ensures AsU64(Number(None)) == None && AsU64(String("")) == None && AsU64(String("+")) == None
    ensures forall i: int :: i < 0 ==> AsU64(Number(Some(i))) == None
  {
    hide ToDecimal, Value;
    DecimalParses(n);
    DecimalValue(n);
    assert ("+" + ToDecimal(n))[1..] == ToDecimal(n) && ("+" + ToDecimal(n))[0] == '+';
    assert "+"[1..] == "";
  }

  function Numbers(bytes: Bytes): (r: seq<Json>)
    ensures |r| == |bytes| && forall i :: 0 <= i < |r| ==> r[i] == Number(Some(bytes[i]))
  {
    if bytes == [] then [] else [Number(Some(bytes[0]))] + Numbers(bytes[1..])
  }

  lemma {:induction false} NumberItems(bytes: Bytes)
    ensures BytesFromArray(Numbers(bytes)) == Some(bytes)
    decreases |bytes|
  {
    if bytes != [] {
      NumberItems(bytes[1..]);
      assert AsByte(Numbers(bytes)[0]) == Some(bytes[0]);
      assert Numbers(bytes)[1..] == Numbers(bytes[1..]);
      assert [bytes[0]] + bytes[1..] == bytes;
    }
  }

  /** An array of numbers is the bytes they are, one alone included. */
  lemma NumbersAreBytes(bytes: Bytes)
    ensures AsBytes(Array(Numbers(bytes))) == Some(bytes) && PayloadBytes(Array(Numbers(bytes))) == Some(bytes)
  {
    hide BytesFromArray;
    NumberItems(bytes);
  }

  /** Bytes take hex with its mark or without; a text field takes it marked, and not empty. */
  lemma HexReads(bytes: Bytes)
    ensures AsBytes(String("0x" + Hex.Encode(bytes))) == Some(bytes) && AsBytes(String(Hex.Encode(bytes))) == Some(bytes)
    ensures PayloadBytes(String("0x" + Hex.Encode(bytes))) == if bytes == [] then None else Some(bytes)
    ensures PayloadBytes(String(Hex.Encode(bytes))) == None
  {
    StripsHex(bytes);
    assert StripPrefix(Hex.Encode(bytes)) == None by {
      if bytes != [] {
        var s := Hex.Encode(bytes);
        assert s[1] == Hex.Nibble(bytes[0] % 16) && s[..2][1] == s[1] && "0x"[1] == 'x';
      }
    }
  }

  /** The decimal text of one byte, misread as hex: never that byte, and marked as hex by nothing. */
  lemma OneByteMisread(b: byte)
    ensures StripPrefix(ToDecimal(b)) == None && Hex.Decode(ToDecimal(b)) != Some([b])
  {
    if b < 10 {
      Digits1(b);
    } else if b < 100 {
      Digits2(b);
    } else {
      Digits3(b);
    }
  }

  lemma Digits1(b: nat)
    requires b < 10
    ensures ToDecimal(b) == [Digit(b)]
  {
  }

  lemma Digits2(b: nat)
    requires 10 <= b < 100
    ensures ToDecimal(b) == [Digit(b / 10), Digit(b % 10)]
    ensures StripPrefix(ToDecimal(b)) == None && Hex.Decode(ToDecimal(b)) == Some([16 * (b / 10) + b % 10])
  {
    Digits1(b / 10);
    var s := [Digit(b / 10), Digit(b % 10)];
    assert s[2..] == "" && Hex.Decode("") == Some([]);
    assert Hex.NibbleValue(s[0]) == Some(b / 10) && Hex.NibbleValue(s[1]) == Some(b % 10);
    assert [(16 * (b / 10) + b % 10) as byte] + [] == [16 * (b / 10) + b % 10];
    assert s[..2][1] == Digit(b % 10);
  }

  lemma Digits3(b: nat)
    requires 100 <= b < 1000
    ensures ToDecimal(b) == [Digit(b / 100), Digit(b / 10 % 10), Digit(b % 10)]
    ensures StripPrefix(ToDecimal(b)) == None && Hex.Decode(ToDecimal(b)) == None
  {
    Digits2(b / 10);
    var s := [Digit(b / 100), Digit(b / 10 % 10), Digit(b % 10)];
    assert s == ToDecimal(b / 10) + [Digit(b % 10)];
    assert |s[2..]| == 1;
    assert s[..2][1] == Digit(b / 10 % 10);
  }

  lemma StripsHex(bytes: Bytes)
    ensures StripPrefix("0x" + Hex.Encode(bytes)) == Some(Hex.Encode(bytes))
    ensures Hex.Decode(Hex.Encode(bytes)) == Some(bytes)
  {
    Hex.RoundTrip(bytes);
    assert ("0x" + Hex.Encode(bytes))[2..] == Hex.Encode(bytes);
    assert ("0x" + Hex.Encode(bytes))[..2] == "0x";
  }

  /**
   * A byte string, bare or inside newtypes, is read back if and only if it is not exactly one byte
   * long: a lone byte looks like one more newtype around a string.
   */
  lemma {:induction false} BytesRoundTripIff(bytes: Bytes, levels: nat)
    ensures AsBytes(ToJson(Wrapped(OfBytes(bytes), levels))) == Some(bytes) <==> |bytes| != 1
    decreases levels
  {
    hide ToJson, ToDecimal, ParseU64, Hex.Encode, BytesFromArray;
    if levels > 0 {
      BytesRoundTripIff(bytes, levels - 1);
      WrappedJson(OfBytes(bytes), levels);
      RendersNoNumber(bytes, levels - 1);
    } else {
      BytesJson(bytes);
      if |bytes| >= MIN_HEX_BYTES {
        StripsHex(bytes);
      } else if |bytes| == 1 {
        OneByteMisread(bytes[0]);
        assert Decimals(bytes)[0] == String(ToDecimal(bytes[0])) && bytes == [bytes[0]];
      } else {
        DecimalItems(bytes);
      }
    }
  }

  lemma RendersNoNumber(bytes: Bytes, levels: nat)
    ensures ToJson(Wrapped(OfBytes(bytes), levels)).String? || ToJson(Wrapped(OfBytes(bytes), levels)).Array?
  {
    BytesJson(bytes);
  }

  /** The same for the text of a field: one of a single character is lost. */
  lemma {:induction false} PayloadRoundTripIff(bytes: Bytes, levels: nat)
    ensures PayloadBytes(ToJson(Wrapped(OfBytes(bytes), levels))) == if |bytes| == 1 then None else Some(bytes)
    decreases levels
  {
    hide ToJson, ToDecimal, ParseU64, Hex.Encode, BytesFromArray;
    if levels > 0 {
      PayloadRoundTripIff(bytes, levels - 1);
      WrappedJson(OfBytes(bytes), levels);
      RendersNoNumber(bytes, levels - 1);
    } else {
      BytesJson(bytes);
      if |bytes| >= MIN_HEX_BYTES {
        StripsHex(bytes);
      } else if |bytes| == 1 {
        OneByteMisread(bytes[0]);
      } else {
        DecimalItems(bytes);
      }
    }
  }

  /** An account field is read if and only if it is 32 bytes inside at most one newtype. */
  lemma AccountRoundTripIff(bytes: Bytes, levels: nat)
    ensures AccountBytes(ToJson(Wrapped(OfBytes(bytes), levels)))
            == if |bytes| == 32 && levels <= 1 then Some(bytes) else None
  {
    BytesJson(bytes);
    StripsHex(bytes);
    if |bytes| == 1 {
      OneByteMisread(bytes[0]);
    }
    if levels > 0 {
      WrappedJson(OfBytes(bytes), levels);
    }
    if levels > 1 {
      WrappedJson(OfBytes(bytes), levels - 1);
    }
  }
}
