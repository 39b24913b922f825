/** A concrete codec for the client info: the JSON object that Go's encoder writes (section 4 of
    RFC 8259, with the escapes of section 7 of RFC 8259), and a streaming reader of that form. */
module JsonCodec {
  import opened Common
  import opened ClientContext

  // ---- streaming readers ---------------------------------------------------------

  /** A reader needs more input, rejects, or takes a value off the front. */
  datatype Reading<+T> = Need | Bad | Got(value: T, rest: Bytes)

  type Reader<!T> = Bytes -> Reading<T>

  /** `read` recognises `text` as `v`: whatever follows it, and not before it is complete. */
  ghost predicate Delimits<T(!new)>(read: Reader<T>, text: Bytes, v: T) {
    && (forall rest :: read(text + rest) == Got(v, rest))
    && (forall k :: 0 <= k < |text| ==> read(text[..k]) == Need)
  }

  function Then<A, B>(first: Reader<A>, second: Reader<B>): Reader<(A, B)> {
    (text: Bytes) =>
      match first(text)
      case Need => Need
      case Bad => Bad
      case Got(a, rest) =>
        match second(rest)
        case Need => Need
        case Bad => Bad
        case Got(b, rest') => Got((a, b), rest')
  }

  lemma ThenDelimits<A(!new), B(!new)>(first: Reader<A>, a: A, t: Bytes, second: Reader<B>, b: B, u: Bytes)
    requires Delimits(first, t, a) && Delimits(second, u, b)
    ensures Delimits(Then(first, second), t + u, (a, b))
  {
    forall rest
      ensures Then(first, second)(t + u + rest) == Got((a, b), rest)
    {
      assert t + u + rest == t + (u + rest);
    }
    forall k | 0 <= k < |t + u|
      ensures Then(first, second)((t + u)[..k]) == Need
    {
      if k < |t| {
        assert (t + u)[..k] == t[..k];
      } else {
        assert (t + u)[..k] == t + u[..k - |t|];
      }
    }
  }

  /** A fixed text. */
  function Literal(lit: Bytes): Reader<()> {
    (text: Bytes) =>
      if |text| < |lit| then (if text == lit[..|text|] then Need else Bad)
      else if text[..|lit|] == lit then Got((), text[|lit|..]) else Bad
  }

  lemma LiteralDelimits(lit: Bytes)
    ensures Delimits(Literal(lit), lit, ())
  {
    forall rest ensures Literal(lit)(lit + rest) == Got((), rest) {
      assert (lit + rest)[..|lit|] == lit && (lit + rest)[|lit|..] == rest;
    }
  }

  // ---- strings -------------------------------------------------------------------

  const HEX: Bytes := "0123456789abcdef"

  function Hex4(n: nat): Bytes
    requires n < 0x1_0000
  {
    var a := n / 16;
    var b := a / 16;
    [HEX[b / 16], HEX[b % 16], HEX[a % 16], HEX[n % 16]]
  }

  function HexDigit(c: char): Option<nat> {
    if '0' <= c <= '9' then Some(c as nat - '0' as nat)
    else if 'a' <= c <= 'f' then Some(c as nat - 'a' as nat + 10)
    else None
  }

  lemma HexDigitOf(d: nat)
    requires d < 0x10
    ensures HexDigit(HEX[d]) == Some(d)
  {}

  /** Controls, the HTML characters and the two Unicode line separators. */
  predicate Hidden(c: char) {
    c < ' ' || c == '<' || c == '>' || c == '&' || c == '\U{2028}' || c == '\U{2029}'
  }

  const BACKSPACE: char := '\U{8}'
  const FORM_FEED: char := '\U{C}'

  function Escape(c: char): Bytes {
    if c == '"' || c == '\\' then ['\\', c]
    else if c == '\n' then "\\n"
    else if c == '\r' then "\\r"
    else if c == '\t' then "\\t"
    else if c == BACKSPACE then "\\b"
    else if c == FORM_FEED then "\\f"
    else if Hidden(c) then "\\u" + Hex4(c as nat)
    else [c]
  }

  function Unhex(text: Bytes): Option<char>
    requires |text| == 4
  {
    var (a, b, c, d) := (HexDigit(text[0]), HexDigit(text[1]), HexDigit(text[2]), HexDigit(text[3]));
    if a.None? || b.None? || c.None? || d.None? then None else
    var n := a.value * 0x1000 + b.value * 0x100 + c.value * 0x10 + d.value;
    if n < 0xD800 || 0xE000 <= n < 0x1_0000 then Some(n as char) else None
  }

  /** One possibly escaped character of a string, other than the closing quote. */
  function Character(text: Bytes): Reading<char> {
    if text == "" then Need
    else if text[0] == '"' || text[0] < ' ' then Bad
    else if text[0] != '\\' then Got(text[0], text[1..])
    else if |text| < 2 then Need
    else if text[1] == '"' || text[1] == '\\' || text[1] == '/' then Got(text[1], text[2..])
    else if text[1] == 'n' then Got('\n', text[2..])
    else if text[1] == 'r' then Got('\r', text[2..])
    else if text[1] == 't' then Got('\t', text[2..])
    else if text[1] == 'b' then Got(BACKSPACE, text[2..])
    else if text[1] == 'f' then Got(FORM_FEED, text[2..])
    else if text[1] != 'u' then Bad
    else if |text| < 6 then Need
    else if Unhex(text[2..6]).None? then Bad
    else Got(Unhex(text[2..6]).value, text[6..])
  }

  lemma UnhexHex4(c: char)
    requires c as nat < 0x1_0000
    ensures Unhex(Hex4(c as nat)) == Some(c)
  {
    var n := c as nat;
    var a := n / 16;
    var b := a / 16;
    HexDigitOf(b / 16);
    HexDigitOf(b % 16);
    HexDigitOf(a % 16);
    HexDigitOf(n % 16);
    HexValue(n);
  }

  lemma HexValue(n: nat)
    ensures var (a, b) := (n / 16, n / 16 / 16); b / 16 * 0x1000 + b % 16 * 0x100 + a % 16 * 0x10 + n % 16 == n
  {}

  lemma HiddenDelimits(c: char)
    requires Hidden(c)
    ensures Delimits(Character, "\\u" + Hex4(c as nat), c)
  {
    UnhexHex4(c);
    var text := "\\u" + Hex4(c as nat);
    forall rest ensures Character(text + rest) == Got(c, rest) {
      HiddenReads(c, rest);
    }
    forall k | 0 <= k < |text| ensures Character(text[..k]) == Need {
      HiddenNeedsMore(text, k);
    }
  }

  lemma HiddenNeedsMore(text: Bytes, k: nat)
    requires |text| == 6 && k < 6 && text[0] == '\\' && text[1] == 'u'
    ensures Character(text[..k]) == Need
  {
    var part := text[..k];
    assert k > 0 ==> part[0] == '\\';
    assert k > 1 ==> part[1] == 'u';
  }

  lemma HiddenReads(c: char, rest: Bytes)
    requires Hidden(c) && Unhex(Hex4(c as nat)) == Some(c)
    ensures Character("\\u" + Hex4(c as nat) + rest) == Got(c, rest)
  {
    var text := "\\u" + Hex4(c as nat);
    var whole := text + rest;
    assert whole[2..6] == Hex4(c as nat) && whole[6..] == rest;
    assert whole[0] == text[0] == '\\' && whole[1] == text[1] == 'u';
  }

  lemma ShortReads(c: char, rest: Bytes)
    requires |Escape(c)| != 6
    ensures Character(Escape(c) + rest) == Got(c, rest)
  {
    var (text, whole) := (Escape(c), Escape(c) + rest);
    assert whole[0] == text[0] && whole[|text|..] == rest;
    assert |text| == 2 ==> whole[1] == text[1];
  }

  lemma EscapeDelimits(c: char)
    ensures Delimits(Character, Escape(c), c)
    ensures Escape(c) != "" && Escape(c)[0] != '"'
  {
    var text := Escape(c);
    if |text| == 6 {
      HiddenDelimits(c);
    } else {
      forall rest ensures Character(text + rest) == Got(c, rest) {
        ShortReads(c, rest);
      }
      forall k | 0 <= k < |text| ensures Character(text[..k]) == Need {
        assert k > 0 ==> text[..k][0] == '\\';
      }
    }
  }

  function EscapeAll(s: string): Bytes {
    if s == "" then "" else Escape(s[0]) + EscapeAll(s[1..])
  }

  /** The rest of a string after its opening quote, up to and with the closing one. */
  function Characters(text: Bytes): Reading<string>
    decreases |text|
  {
    if text == "" then Need
    else if text[0] == '"' then Got("", text[1..])
    else match Character(text)
      case Need => Need
      case Bad => Bad
      case Got(c, rest) =>
        assert |rest| < |text|;
        match Characters(rest)
        case Need => Need
        case Bad => Bad
        case Got(s, rest') => Got([c] + s, rest')
  }

  lemma {:induction false} StringDelimits(s: string)
    ensures Delimits(Characters, EscapeAll(s) + "\"", s)
  {
    if s == "" {
      assert EscapeAll(s) + "\"" == "\"";
      forall rest ensures Characters("\"" + rest) == Got("", rest) {
        assert ("\"" + rest)[1..] == rest;
      }
    } else {
      StringDelimits(s[1..]);
      ConsDelimits(s[0], s[1..], EscapeAll(s[1..]) + "\"");
      assert [s[0]] + s[1..] == s;
      assert EscapeAll(s) + "\"" == Escape(s[0]) + (EscapeAll(s[1..]) + "\"");
    }
  }

  lemma CharactersStep(text: Bytes, c: char, rest: Bytes)
    requires text != "" && text[0] != '"' && Character(text) == Got(c, rest) && |rest| < |text|
    ensures Characters(text) == match Characters(rest)
                                case Need => Need
                                case Bad => Bad
                                case Got(s, rest') => Got([c] + s, rest')
  {}

  lemma ConsDelimits(c: char, s: string, tail: Bytes)
    requires Delimits(Characters, tail, s)
    ensures Delimits(Characters, Escape(c) + tail, [c] + s)
  {
    forall rest ensures Characters(Escape(c) + tail + rest) == Got([c] + s, rest) {
      ConsReads(c, s, tail, rest);
    }
    forall k | 0 <= k < |Escape(c) + tail| ensures Characters((Escape(c) + tail)[..k]) == Need {
      ConsNeedsMore(c, s, tail, k);
    }
  }

  lemma ConsReads(c: char, s: string, tail: Bytes, rest: Bytes)
    requires Delimits(Characters, tail, s)
    ensures Characters(Escape(c) + tail + rest) == Got([c] + s, rest)
  {
    Associate(Escape(c), tail, rest);
    HeadReads(c, tail + rest);
    CharactersStep(Escape(c) + (tail + rest), c, tail + rest);
  }

  lemma Associate(a: Bytes, b: Bytes, c: Bytes)
    ensures a + b + c == a + (b + c)
  {}

  lemma HeadReads(c: char, more: Bytes)
    ensures var text := Escape(c) + more;
            text != "" && text[0] != '"' && |more| < |text| && Character(text) == Got(c, more)
  {
    EscapeDelimits(c);
  }

  lemma ConsNeedsMore(c: char, s: string, tail: Bytes, k: nat)
    requires Delimits(Characters, tail, s) && k < |Escape(c) + tail|
    ensures Characters((Escape(c) + tail)[..k]) == Need
  {
    var e := Escape(c);
    EscapeDelimits(c);
    if k < |e| {
      assert (e + tail)[..k] == e[..k];
      assert k > 0 ==> e[..k][0] == e[0];
    } else {
      assert (e + tail)[..k] == e + tail[..k - |e|];
      CharactersStep(e + tail[..k - |e|], c, tail[..k - |e|]);
    }
  }

  /** `true` or `false`. */
  function Boolean(text: Bytes): Reading<bool> {
    match Literal("true")(text)
    case Got(_, rest) => Got(true, rest)
    case Need => Need
    case Bad =>
      match Literal("false")(text)
      case Got(_, rest) => Got(false, rest)
      case Need => Need
      case Bad => Bad
  }

  function BooleanText(b: bool): Bytes {
    if b then "true" else "false"
  }

  lemma BooleanDelimits(b: bool)
    ensures Delimits(Boolean, BooleanText(b), b)
  {
    LiteralDelimits(BooleanText(b));
    forall rest ensures Boolean(BooleanText(b) + rest) == Got(b, rest) {
      var text := BooleanText(b) + rest;
      assert text[0] == if b then 't' else 'f';
      assert Literal(BooleanText(b))(text) == Got((), rest);
      assert !b ==> text[..4][0] != "true"[0];
    }
    forall k | 0 <= k < |BooleanText(b)| ensures Boolean(BooleanText(b)[..k]) == Need {
      assert Literal(BooleanText(b))(BooleanText(b)[..k]) == Need;
      assert !b && 0 < k ==> BooleanText(b)[..k][0] != "true"[0];
    }
  }

  // ---- the object ----------------------------------------------------------------

  /** A string member, from the text before its value to the closing quote. */
  function StringMember(name: Bytes): Reader<((), string)> {
    Then(Literal(name), Characters)
  }

  function StringText(name: Bytes, v: string): Bytes {
    name + (EscapeAll(v) + "\"")
  }

  const DEVICE: Bytes := "{\"DeviceID\":\""
  const PLATFORM: Bytes := ",\"Platform\":\""
  const PRO: Bytes := ",\"IsPro\":"
  const COUNTRY: Bytes := ",\"CountryCode\":\""
  const VERSION: Bytes := ",\"Version\":\""

  function Marshal(info: ClientInfo): Bytes {
    StringText(DEVICE, info.deviceID)
    + (StringText(PLATFORM, info.platform)
       + ((PRO + BooleanText(info.isPro))
          + (StringText(COUNTRY, info.countryCode)
             + (StringText(VERSION, info.version)
                + "}"))))
  }

  type Fields = (((), string), (((), string), (((), bool), (((), string), (((), string), ())))))

  function Object(): Reader<Fields> {
    Then(StringMember(DEVICE),
         Then(StringMember(PLATFORM),
              Then(Then(Literal(PRO), Boolean),
                   Then(StringMember(COUNTRY),
                        Then(StringMember(VERSION), Literal("}"))))))
  }

  function Read(text: Bytes): Scan {
    match Object()(text)
    case Need => More
    case Bad => Malformed
    case Got(f, rest) =>
      var info := ClientInfo(f.0.1, f.1.0.1, f.1.1.0.1, f.1.1.1.0.1, f.1.1.1.1.0.1);
      if |rest| <= |text| then Value(info, |text| - |rest|) else Malformed
  }

  const JSON: Codec := Codec(Marshal, Read)

  function FieldsOf(info: ClientInfo): Fields {
    (((), info.deviceID), (((), info.platform),
                           (((), info.isPro), (((), info.countryCode), (((), info.version), ())))))
  }

  lemma MemberDelimits(name: Bytes, v: string)
    ensures Delimits(StringMember(name), StringText(name, v), ((), v))
  {
    LiteralDelimits(name);
    StringDelimits(v);
    ThenDelimits(Literal(name), (), name, Characters, v, EscapeAll(v) + "\"");
  }

  lemma ObjectDelimits(info: ClientInfo)
    ensures Delimits(Object(), Marshal(info), FieldsOf(info))
  {
    MemberDelimits(VERSION, info.version);
    LiteralDelimits("}");
    ThenDelimits(StringMember(VERSION), ((), info.version), StringText(VERSION, info.version), Literal("}"), (), "}");
    MemberDelimits(COUNTRY, info.countryCode);
    var r1, t1 := Then(StringMember(VERSION), Literal("}")), StringText(VERSION, info.version) + "}";
    ThenDelimits(StringMember(COUNTRY), ((), info.countryCode), StringText(COUNTRY, info.countryCode),
                 r1, (((), info.version), ()), t1);
    var r2, t2 := Then(StringMember(COUNTRY), r1), StringText(COUNTRY, info.countryCode) + t1;
    LiteralDelimits(PRO);
    BooleanDelimits(info.isPro);
    ThenDelimits(Literal(PRO), (), PRO, Boolean, info.isPro, BooleanText(info.isPro));
    ThenDelimits(Then(Literal(PRO), Boolean), ((), info.isPro), PRO + BooleanText(info.isPro),
                 r2, (((), info.countryCode), (((), info.version), ())), t2);
    var r3, t3 := Then(Then(Literal(PRO), Boolean), r2), (PRO + BooleanText(info.isPro)) + t2;
    MemberDelimits(PLATFORM, info.platform);
    ThenDelimits(StringMember(PLATFORM), ((), info.platform), StringText(PLATFORM, info.platform),
                 r3, FieldsOf(info).1.1, t3);
    var r4, t4 := Then(StringMember(PLATFORM), r3), StringText(PLATFORM, info.platform) + t3;
    MemberDelimits(DEVICE, info.deviceID);
    ThenDelimits(StringMember(DEVICE), ((), info.deviceID), StringText(DEVICE, info.deviceID),
                 r4, FieldsOf(info).1, t4);
  }

  lemma InfoDelimits(info: ClientInfo)
    ensures Marshal(info) != ""
    ensures forall rest :: Read(Marshal(info) + rest) == Value(info, |Marshal(info)|)
    ensures forall k :: 0 <= k < |Marshal(info)| ==> Read(Marshal(info)[..k]) == More
  {
    ObjectDelimits(info);
    ReadDelimited(info, Marshal(info));
    MarshalStarts(info);
  }

  lemma MarshalStarts(info: ClientInfo)
    ensures Marshal(info) != ""
  {
    assert |StringText(DEVICE, info.deviceID)| >= |DEVICE| > 0;
  }

  lemma ReadDelimited(info: ClientInfo, m: Bytes)
    requires Delimits(Object(), m, FieldsOf(info))
    ensures forall rest :: Read(m + rest) == Value(info, |m|)
    ensures forall k :: 0 <= k < |m| ==> Read(m[..k]) == More
  {
    forall rest ensures Read(m + rest) == Value(info, |m|) {
      assert Object()(m + rest) == Got(FieldsOf(info), rest);
    }
    forall k | 0 <= k < |m| ensures Read(m[..k]) == More {
      assert Object()(m[..k]) == Need;
    }
  }

  /** The encoding, letter by letter: the members in the order of the struct, under its field names. */
  lemma MarshalMeans(info: ClientInfo)
    ensures Marshal(info)
         == "{\"DeviceID\":\"" + (EscapeAll(info.deviceID) + "\"")
            + (",\"Platform\":\"" + (EscapeAll(info.platform) + "\"")
               + (",\"IsPro\":" + (if info.isPro then "true" else "false")
                  + (",\"CountryCode\":\"" + (EscapeAll(info.countryCode) + "\"")
                     + (",\"Version\":\"" + (EscapeAll(info.version) + "\"")
                        + "}"))))
  {}

  /** ... where a text is escaped character by character. */
  lemma {:induction false} EscapeAllMeans(s: string, u: string, c: char)
    ensures EscapeAll("") == "" && EscapeAll([c]) == Escape(c) && EscapeAll(s + u) == EscapeAll(s) + EscapeAll(u)
  {
    OneEscaped(c);
    if s == "" {
      assert s + u == u;
    } else {
      assert (s + u)[1..] == s[1..] + u;
      EscapeAllMeans(s[1..], u, c);
      Associate(Escape(s[0]), EscapeAll(s[1..]), EscapeAll(u));
    }
  }

  lemma OneEscaped(c: char)
    ensures EscapeAll([c]) == Escape(c)
  {
    assert EscapeAll([c]) == Escape(c) + EscapeAll("");
  }

  /** Quotes, backslashes and the usual controls have short escapes, the HTML characters long ones,
      and ordinary characters none. */
  lemma EscapeMeans(c: char)
    ensures c == '"' || c == '\\' ==> Escape(c) == ['\\', c]
    ensures c == '\n' ==> Escape(c) == ['\\', 'n']
    ensures c == '\r' ==> Escape(c) == ['\\', 'r']
    ensures c == '\t' ==> Escape(c) == ['\\', 't']
    ensures c >= ' ' && c != '"' && c != '\\' && c != '<' && c != '>' && c != '&' && c != '\U{2028}' && c != '\U{2029}' ==>
              Escape(c) == [c]
  {}

  /** The others are the code point in four lower-case hexadecimal digits. */
  lemma LongEscapeMeans(c: char)
    requires Hidden(c) && c != '\n' && c != '\r' && c != '\t' && c != BACKSPACE && c != FORM_FEED
    ensures var n := c as nat;
            Escape(c) == "\\u" + ["0123456789abcdef"[n / 16 / 16 / 16], "0123456789abcdef"[n / 16 / 16 % 16],
                                  "0123456789abcdef"[n / 16 % 16], "0123456789abcdef"[n % 16]]
  {}

  /** The JSON codec meets what the handshake needs of its codec, for every info. */
  lemma JsonSelfDelimiting()
    ensures SelfDelimiting(JSON)
  {
    forall info
      ensures JSON.marshal(info) != ""
      ensures forall rest :: JSON.scan(JSON.marshal(info) + rest) == Value(info, |JSON.marshal(info)|)
      ensures forall k :: 0 <= k < |JSON.marshal(info)| ==> JSON.scan(JSON.marshal(info)[..k]) == More
    {
      InfoDelimits(info);
    }
  }
}
