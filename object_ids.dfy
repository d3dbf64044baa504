/**
 * BSON ObjectIds and the serde helpers of src/utils/helps.rs that move a
 * vector of ids to and from a vector of their 24-digit hexadecimal texts.
 */
module ObjectIds {
  import opened Wrappers

  /** A BSON ObjectId: exactly twelve bytes. */
  type ObjectId = b: seq<byte> | |b| == 12 witness [0, 0, 0, 0, 0, 0, 0, 0, 0, 0, 0, 0]

  /** The errors of `ObjectId::parse_str` / `ObjectId::from_str`. */
  datatype OidError =
    | InvalidHexStringCharacter(c: char, index: nat)
    | InvalidHexStringLength(length: nat)

  function HexDigit(d: nat): (c: char)
    requires d < 16
    ensures IsLowerHex(c)
  {
    if d < 10 then ('0' as int + d) as char else ('a' as int + d - 10) as char
  }

  predicate IsLowerHex(c: char) { '0' <= c <= '9' || 'a' <= c <= 'f' }

  /** The value of one hexadecimal digit; both letter cases are accepted. */
  function HexValue(c: char): Option<nat>
  {
    if '0' <= c <= '9' then Some(c as int - '0' as int)
    else if 'a' <= c <= 'f' then Some(c as int - 'a' as int + 10)
    else if 'A' <= c <= 'F' then Some(c as int - 'A' as int + 10)
    else None
  }

  lemma HexValueOfDigit(d: nat)
    requires d < 16
    ensures HexValue(HexDigit(d)) == Some(d)
  {
  }

  /** `to_hex`: two lower-case digits per byte, high nibble first. */
  function ToHex(bytes: seq<byte>): (s: string)
    ensures |s| == 2 * |bytes|
    ensures forall i :: 0 <= i < |s| ==> IsLowerHex(s[i])
  {
    if bytes == [] then []
    else [HexDigit(bytes[0] as nat / 16), HexDigit(bytes[0] as nat % 16)] + ToHex(bytes[1..])
  }

  /**
   * `hex::decode` on an even-length text (the caller checks the length):
   * pairs of digits become bytes; the first non-digit is reported with its
   * position, counted from `offset`.
   */
  function DecodePairs(s: string, offset: nat): Result<seq<byte>, OidError>
    requires |s| % 2 == 0
  {
    if s == [] then Ok([])
    else if HexValue(s[0]).None? then Err(InvalidHexStringCharacter(s[0], offset))
    else if HexValue(s[1]).None? then Err(InvalidHexStringCharacter(s[1], offset + 1))
    else
      match DecodePairs(s[2..], offset + 2)
      case Err(e) => Err(e)
      case Ok(rest) => Ok([(HexValue(s[0]).value * 16 + HexValue(s[1]).value) as byte] + rest)
  }

  /**
   * `ObjectId::parse_str`: an odd length is a length error; otherwise the
   * digits are decoded first, and a result that is not twelve bytes long is
   * a length error too.
   */
  function ParseObjectId(s: string): Result<ObjectId, OidError>
  {
    if |s| % 2 != 0 then Err(InvalidHexStringLength(|s|))
    else
      match DecodePairs(s, 0)
      case Err(e) => Err(e)
      case Ok(bytes) => if |bytes| == 12 then Ok(bytes) else Err(InvalidHexStringLength(|s|))
  }

  predicate IsHex(c: char) { HexValue(c).Some? }

  /** The texts `parse_str` accepts: 24 hexadecimal digits of either case. */
  predicate IsObjectIdText(s: string)
  {
    |s| == 24 && forall i :: 0 <= i < |s| ==> IsHex(s[i])
  }

  lemma {:induction false} DecodePairsOfHex(bytes: seq<byte>, offset: nat)
    ensures DecodePairs(ToHex(bytes), offset) == Ok(bytes)
  {
    if bytes != [] {
      var s := ToHex(bytes);
      var hi, lo := bytes[0] as nat / 16, bytes[0] as nat % 16;
      HexValueOfDigit(hi);
      HexValueOfDigit(lo);
      assert s[0] == HexDigit(hi) && s[1] == HexDigit(lo);
      assert s[2..] == ToHex(bytes[1..]);
      assert (hi * 16 + lo) as byte == bytes[0];
      DecodePairsOfHex(bytes[1..], offset + 2);
      assert [bytes[0]] + bytes[1..] == bytes;
    }
  }

  /** Round trip: parsing the hex text of an id gives the id back. */
  lemma ParseToHex(id: ObjectId)
    ensures ParseObjectId(ToHex(id)) == Ok(id)
  {
    DecodePairsOfHex(id, 0);
  }

  lemma {:induction false} DecodePairsSucceeds(s: string, offset: nat)
    requires |s| % 2 == 0
    ensures DecodePairs(s, offset).Ok? <==> forall i :: 0 <= i < |s| ==> IsHex(s[i])
    ensures DecodePairs(s, offset).Ok? ==> |DecodePairs(s, offset).value| == |s| / 2
  {
    if s != [] {
      DecodePairsSucceeds(s[2..], offset + 2);
      if DecodePairs(s, offset).Ok? {
        forall i | 0 <= i < |s| ensures IsHex(s[i]) {
          if i >= 2 { assert s[i] == s[2..][i - 2]; }
        }
      }
      if forall i :: 0 <= i < |s| ==> IsHex(s[i]) {
        assert IsHex(s[0]) && IsHex(s[1]);
        forall i | 0 <= i < |s| - 2 ensures IsHex(s[2..][i]) {
          assert s[2..][i] == s[i + 2];
        }
      }
    }
  }

  /** `parse_str` succeeds exactly on 24 hexadecimal digits. */
  lemma ParseObjectIdSucceeds(s: string)
    ensures ParseObjectId(s).Ok? <==> IsObjectIdText(s)
  {
    if |s| % 2 == 0 {
      DecodePairsSucceeds(s, 0);
    }
  }

  lemma {:induction false} ToHexOfDecodePairs(s: string, offset: nat)
    requires |s| % 2 == 0 && forall i :: 0 <= i < |s| ==> IsLowerHex(s[i])
    ensures DecodePairs(s, offset).Ok? && ToHex(DecodePairs(s, offset).value) == s
  {
    if s != [] {
      forall i | 0 <= i < |s| - 2 ensures IsLowerHex(s[2..][i]) {
        assert s[2..][i] == s[i + 2];
      }
      ToHexOfDecodePairs(s[2..], offset + 2);
      var b := (HexValue(s[0]).value * 16 + HexValue(s[1]).value) as byte;
      assert b as nat / 16 == HexValue(s[0]).value && b as nat % 16 == HexValue(s[1]).value;
      var rest := DecodePairs(s[2..], offset + 2).value;
      assert ([b] + rest)[1..] == rest;
      assert s == [s[0], s[1]] + s[2..];
    }
  }

  /** The other way round: a lower-case id text is the hex text of what it parses to. */
  lemma ToHexOfParse(s: string)
    requires |s| == 24 && forall i :: 0 <= i < |s| ==> IsLowerHex(s[i])
    ensures ParseObjectId(s).Ok? && ToHex(ParseObjectId(s).value) == s
  {
    ToHexOfDecodePairs(s, 0);
    DecodePairsSucceeds(s, 0);
  }

  /** `serialize_object_id_vec_as_string_vec`: each id becomes its hex text, in order. */
  function SerializeIds(ids: seq<ObjectId>): (texts: seq<string>)
    ensures |texts| == |ids|
    ensures forall i :: 0 <= i < |ids| ==> texts[i] == ToHex(ids[i]) && |texts[i]| == 24
  {
    if ids == [] then [] else [ToHex(ids[0])] + SerializeIds(ids[1..])
  }

  /**
   * `deserialize_string_vec_as_object_id_vec`: every text is parsed, in order;
   * collecting into a `Result` stops at the first text that does not parse
   * and returns its error, with no partial vector.
   */
  function DeserializeIds(texts: seq<string>): (r: Result<seq<ObjectId>, OidError>)
    ensures r.Ok? ==>
      (|r.value| == |texts| && forall i :: 0 <= i < |texts| ==> ParseObjectId(texts[i]) == Ok(r.value[i]))
    ensures r.Err? ==>
      (exists i :: 0 <= i < |texts| && ParseObjectId(texts[i]) == Err(r.error)
         && forall j :: 0 <= j < i ==> ParseObjectId(texts[j]).Ok?)
  {
    if texts == [] then Ok([])
    else
      match ParseObjectId(texts[0])
      case Err(e) =>
        assert ParseObjectId(texts[0]) == Err(e); Err(e)
      case Ok(id) =>
        match DeserializeIds(texts[1..])
        case Err(e) =>
          ghost var k :| 0 <= k < |texts[1..]| && ParseObjectId(texts[1..][k]) == Err(e)
            && forall j :: 0 <= j < k ==> ParseObjectId(texts[1..][j]).Ok?;
          assert ParseObjectId(texts[k + 1]) == Err(e);
          assert forall j :: 0 <= j < k + 1 ==> ParseObjectId(texts[j]).Ok? by {
            forall j | 0 <= j < k + 1 ensures ParseObjectId(texts[j]).Ok? {
              if j > 0 { assert texts[j] == texts[1..][j - 1]; }
            }
          }
          Err(e)
        case Ok(rest) => Ok([id] + rest)
  }

  /** Deserialisation fails exactly when some text is not an id text. */
  lemma DeserializeIdsFails(texts: seq<string>)
    ensures DeserializeIds(texts).Err? <==> exists i :: 0 <= i < |texts| && !IsObjectIdText(texts[i])
  {
    if DeserializeIds(texts).Err? {
      var i :| 0 <= i < |texts| && ParseObjectId(texts[i]) == Err(DeserializeIds(texts).error);
      ParseObjectIdSucceeds(texts[i]);
    } else {
      forall i | 0 <= i < |texts| ensures IsObjectIdText(texts[i]) {
        ParseObjectIdSucceeds(texts[i]);
      }
    }
  }

  /** Round trip through the wire form: deserialising serialised ids gives them back. */
  lemma {:induction false} DeserializeSerialize(ids: seq<ObjectId>)
    ensures DeserializeIds(SerializeIds(ids)) == Ok(ids)
  {
    if ids != [] {
      ParseToHex(ids[0]);
      assert SerializeIds(ids)[1..] == SerializeIds(ids[1..]);
      DeserializeSerialize(ids[1..]);
      assert [ids[0]] + ids[1..] == ids;
    }
  }

  /** And back: lower-case id texts survive deserialising then serialising. */
  lemma SerializeDeserialize(texts: seq<string>)
    requires forall i :: 0 <= i < |texts| ==>
      |texts[i]| == 24 && forall j :: 0 <= j < 24 ==> IsLowerHex(texts[i][j])
    ensures DeserializeIds(texts).Ok? && SerializeIds(DeserializeIds(texts).value) == texts
  {
    forall i | 0 <= i < |texts| ensures IsObjectIdText(texts[i]) && ParseObjectId(texts[i]).Ok? {
      ToHexOfParse(texts[i]);
      ParseObjectIdSucceeds(texts[i]);
    }
    DeserializeIdsFails(texts);
    var ids := DeserializeIds(texts).value;
    forall i | 0 <= i < |texts| ensures SerializeIds(ids)[i] == texts[i] {
      ToHexOfParse(texts[i]);
    }
  }
}
