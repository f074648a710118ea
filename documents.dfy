/**
 * The values a stored document can hold, as the document store hands them back:
 * a document is a mapping from field name to value, and an `ObjectId` is the store's
 * opaque 12-byte identifier. Its string form is the 24-character lower-case
 * hexadecimal spelling of its bytes.
 */
module Documents {

  type byte = x: int | 0 <= x < 256

  /** The store's identifier: exactly twelve bytes. */
  type ObjectId = s: seq<byte> | |s| == 12 witness [0, 0, 0, 0, 0, 0, 0, 0, 0, 0, 0, 0]

  datatype Value =
    | Null
    | Bool(b: bool)
    | Int(i: int)
    | Str(s: string)
    | Time(t: int)                     // a datetime, as a count of microseconds
    | Oid(id: ObjectId)
    | Arr(items: seq<Value>)
    | Obj(fields: map<string, Value>)

  type Doc = map<string, Value>

  /** The lower-case hexadecimal digit for 0 <= n < 16. */
  function HexDigit(n: int): (c: char)
    requires 0 <= n < 16
    ensures '0' <= c <= '9' || 'a' <= c <= 'f'
    ensures n < 10 <==> '0' <= c <= '9'
  {
    if n < 10 then (48 + n) as char else (87 + n) as char
  }

  lemma HexDigitInjective(m: int, n: int)
    requires 0 <= m < 16 && 0 <= n < 16
    requires HexDigit(m) == HexDigit(n)
    ensures m == n
  {
  }

  /** Two hexadecimal digits per byte, high nibble first. */
  function Hex(bytes: seq<byte>): (s: string)
    ensures |s| == 2 * |bytes|
  {
    if bytes == [] then []
    else [HexDigit(bytes[0] / 16), HexDigit(bytes[0] % 16)] + Hex(bytes[1..])
  }

  /** The string form of an identifier: `str(ObjectId)`. */
  function IdString(id: ObjectId): (s: string)
    ensures |s| == 24
    ensures forall i :: 0 <= i < |s| ==> '0' <= s[i] <= '9' || 'a' <= s[i] <= 'f'
  {
    HexSpelling(id);
    Hex(id)
  }

  lemma {:induction false} HexSpelling(bytes: seq<byte>)
    ensures forall i :: 0 <= i < |Hex(bytes)| ==> '0' <= Hex(bytes)[i] <= '9' || 'a' <= Hex(bytes)[i] <= 'f'
  {
    if bytes != [] {
      HexSpelling(bytes[1..]);
      var h := Hex(bytes);
      assert h == [HexDigit(bytes[0] / 16), HexDigit(bytes[0] % 16)] + Hex(bytes[1..]);
      forall i | 0 <= i < |h|
        ensures '0' <= h[i] <= '9' || 'a' <= h[i] <= 'f'
      {
        if i >= 2 { assert h[i] == Hex(bytes[1..])[i - 2]; }
      }
    }
  }

  /** Distinct byte strings have distinct hexadecimal spellings. */
  lemma {:induction false} HexInjective(a: seq<byte>, b: seq<byte>)
    requires Hex(a) == Hex(b)
    ensures a == b
  {
    if a != [] {
      assert |b| == |a|;
      var ha, hb := Hex(a), Hex(b);
      assert ha[0] == HexDigit(a[0] / 16) && hb[0] == HexDigit(b[0] / 16);
      assert ha[1] == HexDigit(a[0] % 16) && hb[1] == HexDigit(b[0] % 16);
      HexDigitInjective(a[0] / 16, b[0] / 16);
      HexDigitInjective(a[0] % 16, b[0] % 16);
      assert a[0] == b[0];
      assert Hex(a[1..]) == ha[2..] == hb[2..] == Hex(b[1..]);
      HexInjective(a[1..], b[1..]);
      assert a == [a[0]] + a[1..];
      assert b == [b[0]] + b[1..];
    }
  }

  /** Distinct identifiers have distinct string forms: `str` on `ObjectId` is injective. */
  lemma IdStringInjective(x: ObjectId, y: ObjectId)
    ensures IdString(x) == IdString(y) ==> x == y
  {
    if IdString(x) == IdString(y) {
      HexInjective(x, y);
    }
  }
}
