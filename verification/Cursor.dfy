/**
 * The page cursor: a JSON payload in the URL-safe base64 of section 5 of RFC 4648, its padding stripped
 * as section 3.2 allows and put back before decoding.
 */
module Cursor {
  import opened Common
  import opened Domain

  type Byte = x: int | 0 <= x < 256

  type Sextet = x: int | 0 <= x < 64

  function Symbol(v: Sextet): (c: char)
    ensures c != '=' && Value(c) == Some(v)
  {
    if v < 26 then (v + 'A' as int) as char
    else if v < 52 then (v - 26 + 'a' as int) as char
    else if v < 62 then (v - 52 + '0' as int) as char
    else if v == 62 then '-' else '_'
  }

  function Value(c: char): Option<Sextet> {
    if 'A' <= c <= 'Z' then Some(c as int - 'A' as int)
    else if 'a' <= c <= 'z' then Some(c as int - 'a' as int + 26)
    else if '0' <= c <= '9' then Some(c as int - '0' as int + 52)
    else if c == '-' then Some(62)
    else if c == '_' then Some(63)
    else None
  }

  // ----- Three bytes as four sextets -----

  /** A last group of one or two bytes takes two or three sextets, its missing bits zero. */
  function Sextets(bytes: seq<Byte>): seq<Sextet>
    decreases |bytes|
  {
    if bytes == [] then []
    else if |bytes| == 1 then [bytes[0] / 4, Join(bytes[0] % 4, 0)]
    else if |bytes| == 2 then [bytes[0] / 4, Join(bytes[0] % 4, bytes[1] / 16), Fill(bytes[1] % 16, 0)]
    else
      [bytes[0] / 4, Join(bytes[0] % 4, bytes[1] / 16), Fill(bytes[1] % 16, bytes[2] / 64), bytes[2] % 64]
      + Sextets(bytes[3..])
  }

  function Join(high: int, low: int): (v: Sextet)
    requires 0 <= high < 4 && 0 <= low < 16
    ensures v / 16 == high && v % 16 == low
  {
    high * 16 + low
  }

  function Fill(high: int, low: int): (v: Sextet)
    requires 0 <= high < 16 && 0 <= low < 4
    ensures v / 4 == high && v % 4 == low
  {
    high * 4 + low
  }

  function High(p: Sextet, q: Sextet): Byte { p * 4 + q / 16 }

  function Middle(q: Sextet, r: Sextet): Byte { (q % 16) * 16 + r / 4 }

  function Low(r: Sextet, s: Sextet): Byte { (r % 4) * 64 + s }

  /** The bytes of a sequence of sextets; a single sextet left over holds no byte. */
  function Bytes(v: seq<Sextet>): Option<seq<Byte>>
    decreases |v|
  {
    if v == [] then Some([])
    else if |v| == 1 then None
    else if |v| == 2 then Some([High(v[0], v[1])])
    else if |v| == 3 then Some([High(v[0], v[1]), Middle(v[1], v[2])])
    else
      match Bytes(v[4..])
      case None => None
      case Some(rest) =>
        Some([High(v[0], v[1]), Middle(v[1], v[2]), Low(v[2], v[3])] + rest)
  }

  lemma GroupReturns(bytes: seq<Byte>)
    requires bytes != []
    ensures var v := Sextets(bytes);
            |v| >= 2 && High(v[0], v[1]) == bytes[0]
            && (|bytes| >= 2 ==> |v| >= 3 && Middle(v[1], v[2]) == bytes[1])
            && (|bytes| >= 3 ==> |v| >= 4 && Low(v[2], v[3]) == bytes[2])
  {
  }

  lemma BytesOfGroup(v: seq<Sextet>, bytes: seq<Byte>)
    requires |v| >= 4 && |bytes| >= 3 && Bytes(v[4..]) == Some(bytes[3..])
    requires High(v[0], v[1]) == bytes[0] && Middle(v[1], v[2]) == bytes[1] && Low(v[2], v[3]) == bytes[2]
    ensures Bytes(v) == Some(bytes)
  {
    assert bytes == [bytes[0], bytes[1], bytes[2]] + bytes[3..];
  }

  lemma SextetsOfGroup(bytes: seq<Byte>)
    requires |bytes| > 2
    ensures |Sextets(bytes)| >= 4 && Sextets(bytes)[4..] == Sextets(bytes[3..])
    ensures |Sextets(bytes)| == |Sextets(bytes[3..])| + 4
  {
  }

  lemma BytesOfTail(v: seq<Sextet>, bytes: seq<Byte>)
    requires |v| == |bytes| + 1 && 1 <= |bytes| <= 2 && High(v[0], v[1]) == bytes[0]
    requires |bytes| == 2 ==> Middle(v[1], v[2]) == bytes[1]
    ensures Bytes(v) == Some(bytes)
  {
    assert bytes == if |bytes| == 1 then [bytes[0]] else [bytes[0], bytes[1]];
  }

  lemma SextetsOfTail(bytes: seq<Byte>)
    requires 1 <= |bytes| <= 2
    ensures |Sextets(bytes)| == |bytes| + 1
  {
  }

  lemma {:induction false} BytesReturn(bytes: seq<Byte>)
    ensures Bytes(Sextets(bytes)) == Some(bytes)
    decreases |bytes|
  {
    if |bytes| > 2 {
      BytesReturn(bytes[3..]);
      var v := Sextets(bytes);
      SextetsOfGroup(bytes);
      GroupReturns(bytes);
      BytesOfGroup(v, bytes);
    } else if bytes != [] {
      SextetsOfTail(bytes);
      GroupReturns(bytes);
      BytesOfTail(Sextets(bytes), bytes);
    }
  }

  /** No encoding leaves a single symbol over. */
  lemma {:induction false} NoLoneSextet(bytes: seq<Byte>)
    ensures |Sextets(bytes)| % 4 != 1
    decreases |bytes|
  {
    if |bytes| > 2 {
      NoLoneSextet(bytes[3..]);
      SextetsOfGroup(bytes);
    }
  }

  // ----- Sextets as symbols -----

  function Symbols(v: seq<Sextet>): (text: string)
    ensures |text| == |v| && forall i :: 0 <= i < |v| ==> text[i] != '='
  {
    seq(|v|, i requires 0 <= i < |v| => Symbol(v[i]))
  }

  function Values(text: string): Option<seq<Sextet>> {
    if text == "" then Some([])
    else if Value(text[0]).None? || Values(text[1..]).None? then None
    else Some([Value(text[0]).value] + Values(text[1..]).value)
  }

  lemma {:induction false} ValuesReturn(v: seq<Sextet>)
    ensures Values(Symbols(v)) == Some(v)
  {
    if v != [] {
      ValuesReturn(v[1..]);
      assert Symbols(v)[1..] == Symbols(v[1..]);
      assert v == [v[0]] + v[1..];
    }
  }

  // ----- Padding -----

  function Padding(n: nat): string {
    seq(n, _ => '=')
  }

  /** `cursor + "=" * (-len(cursor) % 4)`. */
  function Padded(text: string): string {
    text + Padding((4 - |text| % 4) % 4)
  }

  function Stripped(text: string): string {
    StripRight(text, {'='})
  }

  lemma {:induction false} StripPadding(body: string, n: nat)
    requires body != "" ==> body[|body| - 1] != '='
    ensures Stripped(body + Padding(n)) == body
  {
    if n == 0 {
      assert body + Padding(0) == body;
    } else {
      StripPadding(body, n - 1);
      var all := body + Padding(n);
      assert all[..|all| - 1] == body + Padding(n - 1);
    }
  }

  /** `urlsafe_b64encode`: whole groups of four, padded. */
  function Encode(bytes: seq<Byte>): string {
    Padded(Symbols(Sextets(bytes)))
  }

  /** Padded text back to bytes; the padding carries nothing. */
  function Decode(text: string): Option<seq<Byte>> {
    match Values(Stripped(text))
    case None => None
    case Some(v) => Bytes(v)
  }

  lemma SymbolsDecode(v: seq<Sextet>)
    ensures Stripped(Padded(Symbols(v))) == Symbols(v) && Decode(Padded(Symbols(v))) == Bytes(v)
  {
    StripPadding(Symbols(v), (4 - |v| % 4) % 4);
    ValuesReturn(v);
  }

  lemma DecodeReturns(bytes: seq<Byte>)
    ensures Decode(Encode(bytes)) == Some(bytes)
  {
    SymbolsDecode(Sextets(bytes));
    BytesReturn(bytes);
  }

  lemma PaddingOfSymbols(v: seq<Sextet>)
    requires |v| % 4 != 1
    ensures Padded(Stripped(Padded(Symbols(v)))) == Padded(Symbols(v))
    ensures |Padded(Symbols(v))| - |Stripped(Padded(Symbols(v)))| <= 2
  {
    SymbolsDecode(v);
  }

  /** Padding that was stripped is put back exactly, and it was never more than two signs. */
  lemma PaddingReturns(bytes: seq<Byte>)
    ensures Padded(Stripped(Encode(bytes))) == Encode(bytes)
    ensures |Encode(bytes)| - |Stripped(Encode(bytes))| <= 2
  {
    NoLoneSextet(bytes);
    PaddingOfSymbols(Sextets(bytes));
  }

  // ----- Cursors -----

  /** The JSON layer: what `dumps` of `{"after": id}` yields, and what `loads` finds under "after". */
  datatype Json = Json(dump: string -> seq<Byte>, load: seq<Byte> -> Option<string>)

  ghost predicate ReadsBack(json: Json) {
    forall id: string :: json.load(json.dump(id)) == Some(id)
  }

  function EncodeCursor(json: Json, id: string): string {
    Stripped(Encode(json.dump(id)))
  }

  datatype Position = Start | AfterId(id: string) | Invalid

  /** No cursor is the start; a cursor that does not hold a non-empty id is refused. */
  function DecodeCursor(json: Json, cursor: Option<string>): Position {
    match cursor
    case None => Start
    case Some(text) =>
      match Decode(Padded(text))
      case None => Invalid
      case Some(bytes) =>
        var id := json.load(bytes);
        if id.None? || id.value == "" then Invalid else AfterId(id.value)
  }

  /** A cursor reads back as the id it was made from, unless that id is empty, which is refused. */
  lemma CursorReturns(json: Json, id: string)
    requires ReadsBack(json)
    ensures DecodeCursor(json, Some(EncodeCursor(json, id))) == if id == "" then Invalid else AfterId(id)
  {
    PaddingReturns(json.dump(id));
    DecodeReturns(json.dump(id));
  }

  /** Different positions have different cursors. */
  lemma CursorsDiffer(json: Json, a: string, b: string)
    requires ReadsBack(json) && EncodeCursor(json, a) == EncodeCursor(json, b)
    ensures a == b
  {
    PaddingReturns(json.dump(a));
    DecodeReturns(json.dump(a));
    PaddingReturns(json.dump(b));
    DecodeReturns(json.dump(b));
  }
}
