/**
 * `JSON.stringify` of the edited metadata, the snapshot the unsaved-changes
 * check compares against. A decoder for the same text proves the
 * serialization injective: two snapshots are equal exactly when
 * the metadata they were taken from is equal.
 */
module Json {
  import opened Wrappers
  import opened UploadTypes

  function HexDigit(n: nat): (c: char)
    requires n < 16
  {
    if n < 10 then ('0' as int + n) as char else ('a' as int + n - 10) as char
  }

  function HexValue(c: char): Option<nat> {
    if '0' <= c <= '9' then Some(c as int - '0' as int)
    else if 'a' <= c <= 'f' then Some(c as int - 'a' as int + 10)
    else if 'A' <= c <= 'F' then Some(c as int - 'A' as int + 10)
    else None
  }

  lemma HexRoundTrip(n: nat)
    requires n < 16
    ensures HexValue(HexDigit(n)) == Some(n)
  {
  }

  /** How `JSON.stringify` writes one character inside a string literal. */
  function EscapeChar(c: char): (r: string)
    ensures |r| >= 1
  {
    if c == '"' then ['\\', '"']
    else if c == '\\' then ['\\', '\\']
    else if c == '\U{8}' then ['\\', 'b']
    else if c == '\U{C}' then ['\\', 'f']
    else if c == '\n' then ['\\', 'n']
    else if c == '\r' then ['\\', 'r']
    else if c == '\t' then ['\\', 't']
    else if c < ' ' then ['\\', 'u', '0', '0', HexDigit(c as int / 16), HexDigit(c as int % 16)]
    else [c]
  }

  function Escape(s: string): string {
    if s == [] then [] else EscapeChar(s[0]) + Escape(s[1..])
  }

  /** A JSON string literal. */
  function Quote(s: string): string {
    ['"'] + Escape(s) + ['"']
  }

  /** `JSON.stringify` of an array of strings. */
  function StringArray(xs: seq<string>): string {
    ['['] + Elements(xs) + [']']
  }

  function Elements(xs: seq<string>): string {
    if xs == [] then []
    else if |xs| == 1 then Quote(xs[0])
    else Quote(xs[0]) + [','] + Elements(xs[1..])
  }

  /** `JSON.stringify` of the technical settings, followed by `rest`. */
  function SerializeTechnical(t: Technical, rest: string): string {
    "{\"orientation\":" + (Quote(t.orientation) +
    (",\"quality\":" + (Quote(t.quality) +
    (",\"lighting\":" + (Quote(t.lighting) +
    (",\"composition\":" + (StringArray(t.composition) + ("}" + rest))))))))
  }

  /** `JSON.stringify(metadata)`, keys in the order every metadata object of the source is built in. */
  function Serialize(m: Metadata): (r: string)
    ensures |r| > 0 && r[0] == '{'
  {
    "{\"title\":" + (Quote(m.title) +
    (",\"description\":" + (Quote(m.description) +
    (",\"tags\":" + (StringArray(m.tags) +
    (",\"objects\":" + (StringArray(m.objects) +
    (",\"scenes\":" + (StringArray(m.scenes) +
    (",\"emotions\":" + (StringArray(m.emotions) +
    (",\"technical\":" + SerializeTechnical(m.technical, "}")))))))))))))
  }

  // ---------------------------------------------------------------- decoder

  /** Decodes the escape sequence at the start of `s`; yields the character and the length consumed. */
  function Unescape(s: string): (r: Option<(char, nat)>)
    ensures r.Some? ==> 2 <= r.value.1 <= |s|
  {
    if |s| < 2 || s[0] != '\\' then None
    else if s[1] == '"' then Some(('"', 2))
    else if s[1] == '\\' then Some(('\\', 2))
    else if s[1] == '/' then Some(('/', 2))
    else if s[1] == 'b' then Some(('\U{8}', 2))
    else if s[1] == 'f' then Some(('\U{C}', 2))
    else if s[1] == 'n' then Some(('\n', 2))
    else if s[1] == 'r' then Some(('\r', 2))
    else if s[1] == 't' then Some(('\t', 2))
    else if s[1] == 'u' && |s| >= 6 then
      var d0 :- HexValue(s[2]);
      var d1 :- HexValue(s[3]);
      var d2 :- HexValue(s[4]);
      var d3 :- HexValue(s[5]);
      var v := ((d0 * 16 + d1) * 16 + d2) * 16 + d3;
      if 0xD800 <= v < 0xE000 || v >= 0x11_0000 then None else Some((v as char, 6))
    else None
  }

  /** Decodes the body of a string literal up to its closing quote; yields the value and what follows. */
  function DecodeChars(s: string): (r: Option<(string, string)>)
    ensures r.Some? ==> |r.value.1| < |s|
    decreases |s|
  {
    if |s| == 0 then None
    else if s[0] == '"' then Some(([], s[1..]))
    else if s[0] == '\\' then
      var u :- Unescape(s);
      var rest :- DecodeChars(s[u.1..]);
      Some(([u.0] + rest.0, rest.1))
    else
      var rest :- DecodeChars(s[1..]);
      Some(([s[0]] + rest.0, rest.1))
  }

  function DecodeString(s: string): (r: Option<(string, string)>)
    ensures r.Some? ==> |r.value.1| < |s|
  {
    if |s| > 0 && s[0] == '"' then DecodeChars(s[1..]) else None
  }

  function DecodeItems(s: string): Option<(seq<string>, string)>
    decreases |s|
  {
    var item :- DecodeString(s);
    var r := item.1;
    if |r| > 0 && r[0] == ',' then
      var more :- DecodeItems(r[1..]);
      Some(([item.0] + more.0, more.1))
    else if |r| > 0 && r[0] == ']' then Some(([item.0], r[1..]))
    else None
  }

  function DecodeArray(s: string): Option<(seq<string>, string)> {
    if |s| >= 2 && s[0] == '[' && s[1] == ']' then Some(([], s[2..]))
    else if |s| >= 1 && s[0] == '[' then DecodeItems(s[1..])
    else None
  }

  /** Strips the literal `lit` from the front of `s`. */
  function Expect(lit: string, s: string): Option<string> {
    if lit <= s then Some(s[|lit|..]) else None
  }

  /** A key followed by a string value. */
  function StringField(key: string, s: string): Option<(string, string)> {
    var s1 :- Expect(key, s);
    DecodeString(s1)
  }

  /** A key followed by an array of strings. */
  function ArrayField(key: string, s: string): Option<(seq<string>, string)> {
    var s1 :- Expect(key, s);
    DecodeArray(s1)
  }

  function DecodeTechnical(s: string): Option<(Technical, string)> {
    var o :- StringField("{\"orientation\":", s);
    var q :- StringField(",\"quality\":", o.1);
    var l :- StringField(",\"lighting\":", q.1);
    var c :- ArrayField(",\"composition\":", l.1);
    var rest :- Expect("}", c.1);
    Some((Technical(o.0, q.0, l.0, c.0), rest))
  }

  function Decode(s: string): Option<Metadata> {
    var t :- StringField("{\"title\":", s);
    var d :- StringField(",\"description\":", t.1);
    var tags :- ArrayField(",\"tags\":", d.1);
    var objects :- ArrayField(",\"objects\":", tags.1);
    var scenes :- ArrayField(",\"scenes\":", objects.1);
    var emotions :- ArrayField(",\"emotions\":", scenes.1);
    var technical :- DecodeTechnicalField(",\"technical\":", emotions.1);
    var rest :- Expect("}", technical.1);
    if rest == [] then Some(Metadata(t.0, d.0, tags.0, objects.0, scenes.0, emotions.0, technical.0)) else None
  }

  /** A key followed by the technical settings object. */
  function DecodeTechnicalField(key: string, s: string): Option<(Technical, string)> {
    var s1 :- Expect(key, s);
    DecodeTechnical(s1)
  }

  // ---------------------------------------------------------------- round trip

  lemma ExpectLiteral(lit: string, rest: string)
    ensures Expect(lit, lit + rest) == Some(rest)
  {
    assert (lit + rest)[..|lit|] == lit;
  }

  lemma DecodeEscapedChar(c: char, t: string)
    ensures DecodeChars(EscapeChar(c) + t) ==
      match DecodeChars(t)
      case Some(r) => Some(([c] + r.0, r.1))
      case None => None
  {
    var s := EscapeChar(c) + t;
    if c == '"' || c == '\\' || c == '\U{8}' || c == '\U{C}' || c == '\n' || c == '\r' || c == '\t' {
      assert s[2..] == t;
    } else if c < ' ' {
      var hi, lo := c as int / 16, c as int % 16;
      HexRoundTrip(hi);
      HexRoundTrip(lo);
      assert s[2] == '0' && s[3] == '0' && s[4] == HexDigit(hi) && s[5] == HexDigit(lo);
      assert Unescape(s) == Some((c, 6));
      assert s[6..] == t;
    } else {
      assert s[1..] == t;
    }
  }

  lemma {:induction false} DecodeEscaped(v: string, rest: string)
    ensures DecodeChars(Escape(v) + ['"'] + rest) == Some((v, rest))
  {
    if v == [] {
      assert Escape(v) + ['"'] + rest == ['"'] + rest;
    } else {
      var t := Escape(v[1..]) + ['"'] + rest;
      assert Escape(v) + ['"'] + rest == EscapeChar(v[0]) + t;
      DecodeEscaped(v[1..], rest);
      DecodeEscapedChar(v[0], t);
      assert [v[0]] + v[1..] == v;
    }
  }

  /** A string literal decodes to the string it was written from. */
  lemma DecodeQuote(v: string, rest: string)
    ensures DecodeString(Quote(v) + rest) == Some((v, rest))
  {
    var s := Quote(v) + rest;
    assert s[1..] == Escape(v) + ['"'] + rest;
    DecodeEscaped(v, rest);
  }

  lemma {:induction false} DecodeElements(xs: seq<string>, rest: string)
    requires xs != []
    ensures DecodeItems(Elements(xs) + [']'] + rest) == Some((xs, rest))
  {
    if |xs| == 1 {
      assert Elements(xs) + [']'] + rest == Quote(xs[0]) + ([']'] + rest);
      DecodeLastItem(xs[0], rest);
      assert [xs[0]] == xs;
    } else {
      var tail := Elements(xs[1..]) + [']'] + rest;
      assert Elements(xs) + [']'] + rest == Quote(xs[0]) + ([','] + tail);
      DecodeNextItem(xs[0], tail);
      DecodeElements(xs[1..], rest);
      assert [xs[0]] + xs[1..] == xs;
    }
  }

  /** The last item of an array is followed by its closing bracket. */
  lemma DecodeLastItem(x: string, rest: string)
    ensures DecodeItems(Quote(x) + ([']'] + rest)) == Some(([x], rest))
  {
    DecodeQuote(x, [']'] + rest);
    assert ([']'] + rest)[1..] == rest;
  }

  /** An item followed by a comma is put in front of the items after it. */
  lemma DecodeNextItem(x: string, tail: string)
    ensures DecodeItems(Quote(x) + ([','] + tail)) ==
      match DecodeItems(tail)
      case None => None
      case Some(more) => Some(([x] + more.0, more.1))
  {
    DecodeQuote(x, [','] + tail);
    assert ([','] + tail)[1..] == tail;
  }

  lemma DecodeStringArray(xs: seq<string>, rest: string)
    ensures DecodeArray(StringArray(xs) + rest) == Some((xs, rest))
  {
    var s := StringArray(xs) + rest;
    if xs == [] {
      assert s == ['[', ']'] + rest;
      assert s[2..] == rest;
    } else {
      assert s[1..] == Elements(xs) + [']'] + rest;
      assert Elements(xs)[0] == '"';
      DecodeElements(xs, rest);
    }
  }

  lemma StringFieldRoundTrip(key: string, v: string, rest: string)
    ensures StringField(key, key + (Quote(v) + rest)) == Some((v, rest))
  {
    ExpectLiteral(key, Quote(v) + rest);
    DecodeQuote(v, rest);
  }

  lemma ArrayFieldRoundTrip(key: string, xs: seq<string>, rest: string)
    ensures ArrayField(key, key + (StringArray(xs) + rest)) == Some((xs, rest))
  {
    ExpectLiteral(key, StringArray(xs) + rest);
    DecodeStringArray(xs, rest);
  }

  lemma DecodeSerializedTechnical(key: string, t: Technical, rest: string)
    ensures DecodeTechnicalField(key, key + SerializeTechnical(t, rest)) == Some((t, rest))
  {
    var x4 := StringArray(t.composition) + ("}" + rest);
    var x2 := Quote(t.lighting) + (",\"composition\":" + x4);
    var y1 := Quote(t.quality) + (",\"lighting\":" + x2);
    var z0 := Quote(t.orientation) + (",\"quality\":" + y1);
    ExpectLiteral(key, SerializeTechnical(t, rest));
    StringFieldRoundTrip("{\"orientation\":", t.orientation, ",\"quality\":" + y1);
    StringFieldRoundTrip(",\"quality\":", t.quality, ",\"lighting\":" + x2);
    StringFieldRoundTrip(",\"lighting\":", t.lighting, ",\"composition\":" + x4);
    ArrayFieldRoundTrip(",\"composition\":", t.composition, "}" + rest);
    ExpectLiteral("}", rest);
  }

  /** Decoding a snapshot gives back the metadata it was taken from. */
  lemma DecodeSerialize(m: Metadata)
    ensures Decode(Serialize(m)) == Some(m)
  {
    var k7 := SerializeTechnical(m.technical, "}");
    var k6 := StringArray(m.emotions) + (",\"technical\":" + k7);
    var k5 := StringArray(m.scenes) + (",\"emotions\":" + k6);
    var k4 := StringArray(m.objects) + (",\"scenes\":" + k5);
    var k3 := StringArray(m.tags) + (",\"objects\":" + k4);
    var k2 := Quote(m.description) + (",\"tags\":" + k3);
    var k1 := Quote(m.title) + (",\"description\":" + k2);
    assert Serialize(m) == "{\"title\":" + k1;
    StringFieldRoundTrip("{\"title\":", m.title, ",\"description\":" + k2);
    StringFieldRoundTrip(",\"description\":", m.description, ",\"tags\":" + k3);
    ArrayFieldRoundTrip(",\"tags\":", m.tags, ",\"objects\":" + k4);
    ArrayFieldRoundTrip(",\"objects\":", m.objects, ",\"scenes\":" + k5);
    ArrayFieldRoundTrip(",\"scenes\":", m.scenes, ",\"emotions\":" + k6);
    ArrayFieldRoundTrip(",\"emotions\":", m.emotions, ",\"technical\":" + k7);
    DecodeSerializedTechnical(",\"technical\":", m.technical, "}");
    ExpectLiteral("}", []);
    assert "}" == "}" + [];
  }

  /** Equal snapshots come from equal metadata. */
  lemma SerializeInjective(m1: Metadata, m2: Metadata)
    ensures Serialize(m1) == Serialize(m2) <==> m1 == m2
  {
    DecodeSerialize(m1);
    DecodeSerialize(m2);
  }
}
