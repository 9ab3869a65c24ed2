/** A stored response document and the two encoders that put it on the wire: the
    output model's own for a fresh answer, the standard library's for a replay. */
module JsonText {
  /** Numbers, booleans and null are given by their text. */
  datatype Json = Literal(text: string) | Text(chars: string) | List(items: Items) | Object(fields: Fields)
  datatype Items = NoItems | Item(first: Json, rest: Items)
  datatype Fields = NoFields | Field(name: string, value: Json, more: Fields)

  /** What the two encoders do differently: the separators, and whether everything
      above the printable ASCII characters is escaped. */
  datatype Style = Style(comma: string, colon: string, asciiOnly: bool)

  const FRESH_STYLE := Style(",", ":", false)
  const REPLAY_STYLE := Style(", ", ": ", true)

  function HexDigit(d: nat): char
    requires d < 16
  {
    if d < 10 then '0' + d as char else 'a' + (d - 10) as char
  }

  function UnicodeEscape(n: nat): (e: string)
    requires n < 0x1_0000
    ensures |e| == 6
  {
    ['\\', 'u', HexDigit(n / 0x1000), HexDigit(n / 0x100 % 16), HexDigit(n / 0x10 % 16), HexDigit(n % 16)]
  }

  /** One escape, or a surrogate pair above the basic plane. */
  function Escape(c: char): (e: string)
    ensures |e| >= 6
  {
    var n := c as int;
    if n < 0x1_0000 then UnicodeEscape(n)
    else UnicodeEscape(0xD800 + (n - 0x1_0000) / 0x400) + UnicodeEscape(0xDC00 + (n - 0x1_0000) % 0x400)
  }

  function EncodeChar(c: char, asciiOnly: bool): string {
    if c == '"' || c == '\\' then ['\\', c]
    else if c == '\n' then "\\n"
    else if c == '\r' then "\\r"
    else if c == '\t' then "\\t"
    else if c as int == 8 then "\\b"
    else if c as int == 12 then "\\f"
    else if c < ' ' || (asciiOnly && c > '~') then Escape(c)
    else [c]
  }

  function EncodeChars(s: string, asciiOnly: bool): string {
    if s == "" then "" else EncodeChar(s[0], asciiOnly) + EncodeChars(s[1..], asciiOnly)
  }

  function Quoted(s: string, asciiOnly: bool): string { "\"" + EncodeChars(s, asciiOnly) + "\"" }

  function Encode(j: Json, style: Style): string {
    match j
    case Literal(text) => text
    case Text(chars) => Quoted(chars, style.asciiOnly)
    case List(items) => "[" + EncodeItems(items, style) + "]"
    case Object(fields) => "{" + EncodeFields(fields, style) + "}"
  }

  function EncodeItems(items: Items, style: Style): string {
    match items
    case NoItems => ""
    case Item(first, rest) =>
      Encode(first, style) + (if rest.NoItems? then "" else style.comma) + EncodeItems(rest, style)
  }

  function EncodeFields(fields: Fields, style: Style): string {
    match fields
    case NoFields => ""
    case Field(name, value, more) =>
      Quoted(name, style.asciiOnly) + style.colon + Encode(value, style)
      + (if more.NoFields? then "" else style.comma) + EncodeFields(more, style)
  }

  function FreshText(doc: Json): string { Encode(doc, FRESH_STYLE) }
  function ReplayText(doc: Json): string { Encode(doc, REPLAY_STYLE) }

  // The two spellings side by side: of an object, of a list, and of a text with a quote, a line
  // break and a letter outside ASCII.

  lemma ObjectSpellings()
    ensures var doc := Object(Field("a", Literal("1"), NoFields));
      FreshText(doc) == "{\"a\":1}" && ReplayText(doc) == "{\"a\": 1}"
  {
    assert EncodeChars("a", true) == "a" && EncodeChars("a", false) == "a";
    var none := NoFields;
    assert EncodeFields(none, FRESH_STYLE) == "" && EncodeFields(none, REPLAY_STYLE) == "";
  }

  lemma ListSpellings()
    ensures var doc := List(Item(Literal("1"), Item(Literal("2"), NoItems)));
      FreshText(doc) == "[1,2]" && ReplayText(doc) == "[1, 2]"
  {
    var last := Item(Literal("2"), NoItems);
    assert EncodeItems(last, FRESH_STYLE) == "2" && EncodeItems(last, REPLAY_STYLE) == "2";
  }

  lemma TextSpellings()
    ensures EncodeChar('"', true) == "\\\"" == EncodeChar('"', false)
    ensures EncodeChar('\n', true) == "\\n" == EncodeChar('\n', false)
    ensures EncodeChar('\U{e9}', false) == "\U{e9}" && EncodeChar('\U{e9}', true) == "\\u00e9"
  {
  }

  // ----- when the two texts agree -----

  predicate Printable(s: string) { forall i :: 0 <= i < |s| ==> s[i] <= '~' }

  /** Nothing in the document is separated or needs escaping above ASCII. */
  predicate Bare(j: Json) {
    match j
    case Literal(_) => true
    case Text(chars) => Printable(chars)
    case List(items) => items.NoItems? || (items.rest.NoItems? && Bare(items.first))
    case Object(fields) => fields.NoFields?
  }

  lemma {:induction false} CharsCompare(s: string)
    ensures |EncodeChars(s, false)| <= |EncodeChars(s, true)|
    ensures Printable(s) ==> EncodeChars(s, false) == EncodeChars(s, true)
    ensures !Printable(s) ==> |EncodeChars(s, false)| < |EncodeChars(s, true)|
  {
    if s != "" { CharsCompare(s[1..]); }
  }

  lemma QuotedCompare(s: string)
    ensures |Quoted(s, false)| <= |Quoted(s, true)|
    ensures Printable(s) ==> Quoted(s, false) == Quoted(s, true)
    ensures !Printable(s) ==> |Quoted(s, false)| < |Quoted(s, true)|
  {
    CharsCompare(s);
  }

  /** The two styles, as far as lengths go. */
  ghost predicate Looser(tight: Style, loose: Style) {
    && |tight.comma| < |loose.comma| && |tight.colon| < |loose.colon| && !tight.asciiOnly && loose.asciiOnly
  }

  lemma {:induction false} LooserIsNoShorter(j: Json, tight: Style, loose: Style)
    requires Looser(tight, loose)
    ensures |Encode(j, tight)| <= |Encode(j, loose)|
    ensures if Bare(j) then Encode(j, tight) == Encode(j, loose) else |Encode(j, tight)| < |Encode(j, loose)|
  {
    match j
    case Literal(_) =>
    case Text(chars) => QuotedCompare(chars);
    case List(items) => LooserItems(items, tight, loose);
    case Object(fields) => LooserFields(fields, tight, loose);
  }

  lemma {:induction false} LooserItems(items: Items, tight: Style, loose: Style)
    requires Looser(tight, loose)
    ensures |EncodeItems(items, tight)| <= |EncodeItems(items, loose)|
    ensures items.Item? && !(items.rest.NoItems? && Bare(items.first)) ==>
      |EncodeItems(items, tight)| < |EncodeItems(items, loose)|
    ensures items.Item? && items.rest.NoItems? && Bare(items.first) ==>
      EncodeItems(items, tight) == EncodeItems(items, loose)
  {
    if items.Item? {
      LooserIsNoShorter(items.first, tight, loose);
      LooserItems(items.rest, tight, loose);
    }
  }

  lemma {:induction false} LooserFields(fields: Fields, tight: Style, loose: Style)
    requires Looser(tight, loose)
    ensures |EncodeFields(fields, tight)| <= |EncodeFields(fields, loose)|
    ensures fields.Field? ==> |EncodeFields(fields, tight)| < |EncodeFields(fields, loose)|
  {
    if fields.Field? {
      QuotedCompare(fields.name);
      LooserIsNoShorter(fields.value, tight, loose);
      LooserFields(fields.more, tight, loose);
    }
  }

  /** A replay is spelled like the fresh answer if and only if the document is bare;
      for an object, if and only if it has no field. */
  lemma SameTextIff(doc: Json)
    ensures FreshText(doc) == ReplayText(doc) <==> Bare(doc)
    ensures doc.Object? ==> (FreshText(doc) == ReplayText(doc) <==> doc.fields.NoFields?)
  {
    LooserIsNoShorter(doc, FRESH_STYLE, REPLAY_STYLE);
  }

  /** So an output with a field, such as any tool's, never replays as the same text. */
  lemma AnyFieldChangesTheText(name: string, value: Json, more: Fields)
    ensures FreshText(Object(Field(name, value, more))) != ReplayText(Object(Field(name, value, more)))
  {
    SameTextIff(Object(Field(name, value, more)));
  }
}
