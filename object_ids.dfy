/**
 * BSON ObjectIDs: twelve bytes, their 24-digit hexadecimal text form and
 * the zero test of `ObjectIDIsZero` (type.go). The hex parser follows the
 * MongoDB Go driver's `primitive.ObjectIDFromHex`: exactly 24 hex digits,
 * either case; `Hex` writes lower case.
 */
module ObjectIds {
  import opened Wrappers

  newtype byte = x: int | 0 <= x < 256

  type ObjectId = s: seq<byte> | |s| == 12 witness NilIdBytes()

  function NilIdBytes(): seq<byte> { seq(12, _ => 0) }

  /** `primitive.NilObjectID`, the value of `ObjectID{}`. */
  const NilId: ObjectId := NilIdBytes()

  /** `string(b)` for a byte slice. */
  function BytesToString(b: seq<byte>): (s: string)
    ensures |s| == |b|
    ensures forall i | 0 <= i < |b| :: s[i] as int == b[i] as int
  {
    seq(|b|, i requires 0 <= i < |b| => (b[i] as int) as char)
  }

  /** `emptyObject`: the string made of the twelve zero bytes. */
  const EmptyObjectString: string := BytesToString(NilId)

  /** `ObjectIDIsZero` on an ObjectID: the id equals `[12]byte{}`. */
  predicate IdIsZero(id: ObjectId) {
    id == NilId
  }

  /** `ObjectIDIsZero` on a string: empty, or the twelve zero bytes. */
  predicate StringIdIsZero(s: string) {
    s == "" || s == EmptyObjectString
  }

  /** An ObjectID is zero exactly when every one of its bytes is 0. */
  lemma IdIsZeroBytes(id: ObjectId)
    ensures IdIsZero(id) <==> forall i | 0 <= i < 12 :: id[i] == 0
  {
    if forall i | 0 <= i < 12 :: id[i] == 0 {
      assert id == NilId;
    }
  }

  /** The values of the zero-id test cases. */
  lemma ZeroIdCases()
    ensures IdIsZero(NilId)
    ensures StringIdIsZero("")
    ensures StringIdIsZero(BytesToString(NilId))
    ensures !StringIdIsZero("000000000000000000000000")
  {
    var s := "000000000000000000000000";
    assert s[0] as int != 0;
  }

  /** A string id is zero exactly when it is empty or is twelve NUL characters. */
  lemma StringIdIsZeroChars(s: string)
    ensures StringIdIsZero(s) <==> |s| == 0 || (|s| == 12 && forall i | 0 <= i < 12 :: s[i] == '\0')
  {
    if |s| == 12 && forall i | 0 <= i < 12 :: s[i] == '\0' {
      assert s == EmptyObjectString;
    }
  }

  // ---------------------------------------------------------------------
  // Hexadecimal form

  function HexValue(c: char): Option<int> {
    if '0' <= c <= '9' then Some(c as int - '0' as int)
    else if 'a' <= c <= 'f' then Some(c as int - 'a' as int + 10)
    else if 'A' <= c <= 'F' then Some(c as int - 'A' as int + 10)
    else None
  }

  predicate IsHexText(s: string) {
    forall i | 0 <= i < |s| :: HexValue(s[i]).Some?
  }

  function HexDigit(d: int): char
    requires 0 <= d < 16
  {
    if d < 10 then ('0' as int + d) as char else ('a' as int + d - 10) as char
  }

  lemma HexDigitValue(d: int)
    requires 0 <= d < 16
    ensures HexValue(HexDigit(d)) == Some(d)
  {
  }

  /** The bytes spelled by pairs of hex digits. */
  function DecodePairs(s: string): seq<byte>
    requires |s| % 2 == 0 && IsHexText(s)
  {
    if |s| == 0 then []
    else [(16 * HexValue(s[0]).value + HexValue(s[1]).value) as byte] + DecodePairs(s[2..])
  }

  lemma {:induction false} DecodePairsLength(s: string)
    requires |s| % 2 == 0 && IsHexText(s)
    ensures |DecodePairs(s)| == |s| / 2
  {
    if |s| > 0 {
      DecodePairsLength(s[2..]);
    }
  }

  /** `primitive.ObjectIDFromHex`: 24 hex digits make an ObjectID, anything
      else is `ErrInvalidHex`. */
  function ParseHex(s: string): (r: Result<ObjectId>)
    ensures r.Ok? <==> |s| == 24 && IsHexText(s)
    ensures r.Err? ==> r.error == InvalidHex
  {
    if |s| != 24 || !IsHexText(s) then Err(InvalidHex)
    else
      DecodePairsLength(s);
      Ok(DecodePairs(s))
  }

  function EncodePairs(b: seq<byte>): (s: string)
    ensures |s| == 2 * |b|
  {
    if |b| == 0 then ""
    else [HexDigit(b[0] as int / 16), HexDigit(b[0] as int % 16)] + EncodePairs(b[1..])
  }

  /** `ObjectID.Hex()`: lower-case hexadecimal. */
  function Hex(id: ObjectId): string {
    EncodePairs(id)
  }

  lemma {:induction false} EncodeDecode(b: seq<byte>)
    ensures IsHexText(EncodePairs(b))
    ensures DecodePairs(EncodePairs(b)) == b
  {
    if |b| > 0 {
      EncodeDecode(b[1..]);
      var hi, lo := b[0] as int / 16, b[0] as int % 16;
      HexDigitValue(hi);
      HexDigitValue(lo);
      var s := EncodePairs(b);
      assert s[2..] == EncodePairs(b[1..]);
      assert s[0] == HexDigit(hi) && s[1] == HexDigit(lo);
      assert forall i | 2 <= i < |s| :: s[i] == EncodePairs(b[1..])[i - 2];
    }
  }

  /** Converting an id to its text form and back gives the same id
      (`ObjectID2String` then `TryString2ObjectID`, object_id.go). */
  lemma HexRoundTrip(id: ObjectId)
    ensures ParseHex(Hex(id)) == Ok(id)
  {
    EncodeDecode(id);
  }

  /** `copy(objID[:], b)`: the first min(12, |b|) bytes of `b`, zero-padded. */
  function CopyId(b: seq<byte>): (id: ObjectId)
    ensures forall i | 0 <= i < 12 :: id[i] == if i < |b| then b[i] else 0
  {
    seq(12, i requires 0 <= i < 12 => if i < |b| then b[i] else 0)
  }
}
