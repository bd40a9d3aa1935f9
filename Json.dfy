/** The text a saved conversation is stored as: JSON.stringify of an array of
    {sender, text} records, and the reading of that text back into messages
    that JSON.parse performs when a conversation is loaded.

    Encode writes exactly what JSON.stringify writes for a message list
    (properties in the order sender, text; no white space; string escapes as
    QuoteJSONString in the ECMAScript standard defines them, with lower-case
    hexadecimal digits). Decode accepts exactly the texts Encode produces and
    is proved to be its inverse in both directions. */
module Json {
  import opened Wrappers
  import opened Messages

  /** Lower-case hexadecimal digit for 0..15. */
  function HexDigit(n: nat): (d: char)
    requires n < 16
    ensures '0' <= d <= '9' || 'a' <= d <= 'f'
  {
    if n < 10 then ('0' as int + n) as char else ('a' as int + n - 10) as char
  }

  /** Value of a lower-case hexadecimal digit, the inverse of HexDigit. */
  function HexValue(d: char): (r: Option<nat>)
    ensures r.Some? ==> r.value < 16 && HexDigit(r.value) == d
  {
    if '0' <= d <= '9' then Some(d as int - '0' as int)
    else if 'a' <= d <= 'f' then Some(d as int - 'a' as int + 10)
    else None
  }

  /** The two-character escapes of JSON.stringify: backspace, tab, line feed,
      form feed, carriage return, quotation mark and backslash. */
  function ShortEscape(c: char): Option<char> {
    if c == '\U{8}' then Some('b')
    else if c == '\t' then Some('t')
    else if c == '\n' then Some('n')
    else if c == '\U{C}' then Some('f')
    else if c == '\r' then Some('r')
    else if c == '"' then Some('"')
    else if c == '\\' then Some('\\')
    else None
  }

  /** The character a two-character escape stands for. */
  function UnescapeShort(e: char): (r: Option<char>)
    ensures r.Some? ==> ShortEscape(r.value) == Some(e)
  {
    if e == 'b' then Some('\U{8}')
    else if e == 't' then Some('\t')
    else if e == 'n' then Some('\n')
    else if e == 'f' then Some('\U{C}')
    else if e == 'r' then Some('\r')
    else if e == '"' then Some('"')
    else if e == '\\' then Some('\\')
    else None
  }

  /** The \u00XX escape of a control character (code below 0x20): the
      last two digits are the code in lower-case hexadecimal. */
  function ControlEscape(code: nat): string
    requires code < 0x20
  {
    var low := if code < 16 then code else code - 16;
    ['\\', 'u', '0', '0', if code < 16 then '0' else '1', HexDigit(low)]
  }

  /** How one character of a string value is written: a two-character
      escape, a \u00XX escape for the other control characters, or itself. */
  function EscapeChar(c: char): (e: string)
    ensures 0 < |e| && e[0] != '"'
  {
    match ShortEscape(c)
    case Some(x) => ['\\', x]
    case None =>
      if (c as int) < 0x20 then ControlEscape(c as int)
      else [c]
  }

  /** The body of a JSON string literal for s (without the quotes). */
  function Escape(s: string): string {
    if s == [] then [] else EscapeChar(s[0]) + Escape(s[1..])
  }

  function SenderName(s: Sender): string {
    match s
    case User => "user"
    case Bot => "bot"
  }

  /** Everything JSON.stringify writes for a message before its text. */
  function MessageHead(s: Sender): string {
    "{\"sender\":\"" + SenderName(s) + "\",\"text\":\""
  }

  function EncodeMessage(m: Message): string {
    MessageHead(m.sender) + Escape(m.text) + "\"}"
  }

  /** The comma-separated records of a list, without brackets. */
  function Elements(ms: seq<Message>): string {
    if ms == [] then []
    else if |ms| == 1 then EncodeMessage(ms[0])
    else EncodeMessage(ms[0]) + "," + Elements(ms[1..])
  }

  /** JSON.stringify of a message list. */
  function Encode(ms: seq<Message>): (s: string)
    ensures 2 <= |s| && s[0] == '[' && s[|s| - 1] == ']'
  {
    "[" + Elements(ms) + "]"
  }

  /** Reads one (possibly escaped) character at the start of t: the
      character and how many characters of t it took, or None when t does not
      start with a character as Encode writes it. */
  function DecodeChar(t: string): (r: Option<(char, nat)>)
    ensures r.Some? ==> 0 < r.value.1 <= |t|
  {
    if |t| == 0 then None
    else if t[0] == '\\' then
      if |t| >= 2 && UnescapeShort(t[1]).Some? then
        Some((UnescapeShort(t[1]).value, 2))
      else if |t| >= 6 && t[1] == 'u' && t[2] == '0' && t[3] == '0'
              && (t[4] == '0' || t[4] == '1') && HexValue(t[5]).Some? then
        var c := ((if t[4] == '1' then 16 else 0) + HexValue(t[5]).value) as char;
        if ShortEscape(c).None? then Some((c, 6)) else None
      else None
    else if t[0] == '"' || (t[0] as int) < 0x20 then None
    else Some((t[0], 1))
  }

  /** Reads the body of a string literal up to its closing quote: the string
      and what follows the quote. */
  function ParseString(t: string): (r: Option<(string, string)>)
    ensures r.Some? ==> |r.value.1| < |t|
    decreases |t|
  {
    if |t| == 0 then None
    else if t[0] == '"' then Some(([], t[1..]))
    else
      match DecodeChar(t)
      case None => None
      case Some((c, n)) =>
        match ParseString(t[n..])
        case None => None
        case Some((s, rest)) => Some(([c] + s, rest))
  }

  /** True when t begins with p, compared character by character. The
      parser tests record heads with this recursive form rather than the
      built-in prefix test `<=`, so that the proofs about it step through the
      head one character at a time instead of comparing whole literals. */
  predicate StartsWith(p: string, t: string)
    decreases p
  {
    |p| <= |t| && (p == [] || (p[0] == t[0] && StartsWith(p[1..], t[1..])))
  }

  /** The sender whose record head t starts with, if any. */
  function SenderAt(t: string): (r: Option<Sender>)
    ensures r.Some? ==> StartsWith(MessageHead(r.value), t)
  {
    if StartsWith(MessageHead(User), t) then Some(User)
    else if StartsWith(MessageHead(Bot), t) then Some(Bot)
    else None
  }

  /** Reads the text of a record of sender s, its closing quote and brace. */
  function ParseRecordBody(s: Sender, body: string): (r: Option<(Message, string)>)
    ensures r.Some? ==> |r.value.1| < |body|
  {
    match ParseString(body)
    case None => None
    case Some((text, rest)) =>
      if |rest| > 0 && rest[0] == '}' then Some((Message(s, text), rest[1..])) else None
  }

  /** Reads one message record: the message and what follows its closing brace. */
  function ParseMessage(t: string): (r: Option<(Message, string)>)
    ensures r.Some? ==> |r.value.1| < |t|
  {
    match SenderAt(t)
    case None => None
    case Some(s) => ParseRecordBody(s, t[|MessageHead(s)|..])
  }

  /** Reads the records of a non-empty list and its closing bracket. */
  function ParseElements(t: string): Option<seq<Message>>
    decreases |t|
  {
    match ParseMessage(t)
    case None => None
    case Some((m, rest)) =>
      if rest == "]" then Some([m])
      else if |rest| > 0 && rest[0] == ',' then
        match ParseElements(rest[1..])
        case None => None
        case Some(ms) => Some([m] + ms)
      else None
  }

  /** JSON.parse of a stored conversation; None where JSON.parse would throw
      or would not yield a message list as Encode writes it. */
  function Decode(s: string): Option<seq<Message>> {
    if s == "[]" then Some([])
    else if |s| > 0 && s[0] == '[' then ParseElements(s[1..])
    else None
  }

  // ---------------------------------------------------------------------
  // Decode(Encode(ms)) == Some(ms)

  lemma DecodeEscapedChar(c: char, rest: string)
    ensures DecodeChar(EscapeChar(c) + rest) == Some((c, |EscapeChar(c)|))
  {
    var t := EscapeChar(c) + rest;
    match ShortEscape(c)
    case Some(x) =>
      assert t[0] == '\\' && t[1] == x;
    case None =>
      if (c as int) < 0x20 {
        var low := if (c as int) < 16 then c as int else c as int - 16;
        assert t[..6] == EscapeChar(c);
        assert HexValue(HexDigit(low)) == Some(low);
        assert UnescapeShort(t[1]).None?;
      } else {
        assert t[0] == c;
      }
  }

  lemma {:induction false} ParseEscaped(s: string, rest: string)
    ensures ParseString(Escape(s) + "\"" + rest) == Some((s, rest))
  {
    var t := Escape(s) + "\"" + rest;
    if s == [] {
      assert t == "\"" + rest;
    } else {
      var e := EscapeChar(s[0]);
      var tail := Escape(s[1..]) + "\"" + rest;
      assert t == e + tail;
      DecodeEscapedChar(s[0], tail);
      assert t[|e|..] == tail;
      ParseEscaped(s[1..], rest);
      assert [s[0]] + s[1..] == s;
    }
  }

  lemma {:induction false} StartsWithConcat(p: string, x: string)
    ensures StartsWith(p, p + x)
    decreases p
  {
    if p != [] {
      assert (p + x)[1..] == p[1..] + x;
      StartsWithConcat(p[1..], x);
    }
  }

  lemma {:induction false} StartsWithPrefix(p: string, t: string)
    requires StartsWith(p, t)
    ensures |p| <= |t| && t[..|p|] == p
    decreases p
  {
    if p != [] {
      StartsWithPrefix(p[1..], t[1..]);
      assert t[..|p|] == [t[0]] + t[1..][..|p| - 1];
    }
  }

  /** A bot record never starts with the head of a user record. */
  lemma HeadsDiffer(x: string)
    ensures !StartsWith(MessageHead(User), MessageHead(Bot) + x)
  {
    var u, b := MessageHead(User), MessageHead(Bot);
    assert u[11] == 'u' && (b + x)[11] == 'b';
    if StartsWith(u, b + x) {
      StartsWithPrefix(u, b + x);
      assert false;
    }
  }

  lemma ParseEncodedMessage(m: Message, rest: string)
    ensures ParseMessage(EncodeMessage(m) + rest) == Some((m, rest))
  {
    var t := EncodeMessage(m) + rest;
    var head := MessageHead(m.sender);
    var after := Escape(m.text) + "\"" + ("}" + rest);
    assert t == head + after;
    StartsWithConcat(head, after);
    assert t[|head|..] == after;
    if m.sender == Bot {
      HeadsDiffer(after);
    }
    ParseEscaped(m.text, "}" + rest);
  }

  lemma ParseElementsLast(t: string, m: Message)
    requires ParseMessage(t) == Some((m, "]"))
    ensures ParseElements(t) == Some([m])
  {
  }

  lemma ParseElementsMore(t: string, m: Message, tail: string, more: seq<Message>)
    requires ParseMessage(t) == Some((m, "," + tail))
    requires ParseElements(tail) == Some(more)
    ensures ParseElements(t) == Some([m] + more)
  {
    assert ("," + tail)[1..] == tail;
  }

  lemma ConsText(m: Message, more: seq<Message>)
    requires more != []
    ensures Elements([m] + more) + "]" == EncodeMessage(m) + ("," + (Elements(more) + "]"))
  {
    ElementsCons(m, more);
  }

  lemma ParseEncodedCons(m: Message, more: seq<Message>)
    requires more != [] && ParseElements(Elements(more) + "]") == Some(more)
    ensures ParseElements(Elements([m] + more) + "]") == Some([m] + more)
  {
    var tail := Elements(more) + "]";
    ConsText(m, more);
    ParseEncodedMessage(m, "," + tail);
    ParseElementsMore(EncodeMessage(m) + ("," + tail), m, tail, more);
  }

  lemma {:induction false} ParseEncodedElements(ms: seq<Message>)
    requires ms != []
    ensures ParseElements(Elements(ms) + "]") == Some(ms)
  {
    if |ms| == 1 {
      ParseEncodedMessage(ms[0], "]");
      ParseElementsLast(EncodeMessage(ms[0]) + "]", ms[0]);
      assert [ms[0]] == ms;
    } else {
      ParseEncodedElements(ms[1..]);
      ParseEncodedCons(ms[0], ms[1..]);
      assert [ms[0]] + ms[1..] == ms;
    }
  }

  /** Every saved conversation reads back as the same messages in the same order. */
  lemma DecodeEncode(ms: seq<Message>)
    ensures Decode(Encode(ms)) == Some(ms)
  {
    if ms != [] {
      var s := Encode(ms);
      var inner := Elements(ms) + "]";
      assert s == "[" + inner;
      assert |EncodeMessage(ms[0])| > 0;
      assert |s| > 2;
      assert s[1..] == inner;
      ParseEncodedElements(ms);
    }
  }

  // ---------------------------------------------------------------------
  // Decode(s) == Some(ms) ==> s == Encode(ms)

  /** A character read from stored text took exactly the characters
      JSON.stringify writes for it. */
  lemma DecodedCharIsEscaped(t: string, c: char, n: nat)
    requires DecodeChar(t) == Some((c, n))
    ensures t[..n] == EscapeChar(c)
  {
    if t[0] == '\\' && n == 6 {
      var v := HexValue(t[5]).value;
      assert c as int == (if t[4] == '1' then 16 else 0) + v;
      assert HexDigit(v) == t[5];
    }
  }

  lemma EscapeCons(c: char, s: string)
    ensures Escape([c] + s) == EscapeChar(c) + Escape(s)
  {
    assert ([c] + s)[1..] == s;
  }

  /** The two ways ParseString can succeed: on the closing quote, or on one
      character followed by the rest of the literal. */
  lemma ParseStringCases(t: string, s: string, rest: string)
    requires ParseString(t) == Some((s, rest))
    ensures || (t[0] == '"' && s == [] && rest == t[1..])
            || (&& DecodeChar(t).Some? && s != []
                && DecodeChar(t).value.0 == s[0]
                && ParseString(t[DecodeChar(t).value.1..]) == Some((s[1..], rest)))
  {
  }

  lemma EscapedStep(t: string, n: nat, s: string, rest: string)
    requires s != [] && n <= |t| && t[..n] == EscapeChar(s[0])
    requires t[n..] == Escape(s[1..]) + "\"" + rest
    ensures t == Escape(s) + "\"" + rest
  {
    EscapeCons(s[0], s[1..]);
    assert [s[0]] + s[1..] == s;
    calc {
      t;
      t[..n] + t[n..];
      EscapeChar(s[0]) + (Escape(s[1..]) + "\"" + rest);
      (EscapeChar(s[0]) + Escape(s[1..])) + "\"" + rest;
    }
  }

  lemma {:induction false} ParsedIsEscaped(t: string, s: string, rest: string)
    requires ParseString(t) == Some((s, rest))
    ensures t == Escape(s) + "\"" + rest
    decreases |t|
  {
    ParseStringCases(t, s, rest);
    if t[0] != '"' {
      var (c, n) := DecodeChar(t).value;
      DecodedCharIsEscaped(t, c, n);
      ParsedIsEscaped(t[n..], s[1..], rest);
      EscapedStep(t, n, s, rest);
    }
  }

  lemma ParsedRecordBodyIsEncoded(s: Sender, body: string, m: Message, rest: string)
    requires ParseRecordBody(s, body) == Some((m, rest))
    ensures m.sender == s && body == Escape(m.text) + "\"}" + rest
  {
    var (text, after) := ParseString(body).value;
    assert m.text == text && after == "}" + rest;
    assert body == Escape(text) + "\"" + after by {
      ParsedIsEscaped(body, text, after);
    }
    assert "\"" + ("}" + rest) == "\"}" + rest;
  }

  lemma EncodeMessageText(m: Message, rest: string)
    ensures EncodeMessage(m) + rest == MessageHead(m.sender) + (Escape(m.text) + "\"}" + rest)
  {
  }

  lemma ParsedMessageIsEncoded(t: string, m: Message, rest: string)
    requires ParseMessage(t) == Some((m, rest))
    ensures t == EncodeMessage(m) + rest
  {
    var s := SenderAt(t).value;
    var head := MessageHead(s);
    var body := t[|head|..];
    assert ParseRecordBody(s, body) == Some((m, rest));
    assert m.sender == s && body == Escape(m.text) + "\"}" + rest by {
      ParsedRecordBodyIsEncoded(s, body, m, rest);
    }
    assert t == head + body by {
      StartsWithPrefix(head, t);
      assert t == t[..|head|] + t[|head|..];
    }
    EncodeMessageText(m, rest);
  }

  /** The two ways ParseElements can succeed: on the last record, or on a
      record followed by a comma and more records. */
  lemma ParseElementsCases(t: string, ms: seq<Message>)
    requires ParseElements(t) == Some(ms)
    ensures ParseMessage(t).Some? && ms != [] && ms[0] == ParseMessage(t).value.0
    ensures ParseMessage(t).value.1 == "]" ==> ms == [ms[0]]
    ensures ParseMessage(t).value.1 != "]" ==>
      var rest := ParseMessage(t).value.1;
      |rest| > 0 && rest[0] == ',' && ParseElements(rest[1..]) == Some(ms[1..])
  {
  }

  lemma ElementsCons(m: Message, ms: seq<Message>)
    requires ms != []
    ensures Elements([m] + ms) == EncodeMessage(m) + "," + Elements(ms)
  {
    assert ([m] + ms)[1..] == ms;
  }

  lemma ElementsStep(t: string, m: Message, rest: string, more: seq<Message>)
    requires more != [] && t == EncodeMessage(m) + rest
    requires rest == "," + (Elements(more) + "]")
    ensures t == Elements([m] + more) + "]"
  {
    ElementsCons(m, more);
  }

  lemma {:induction false} ParsedElementsAreEncoded(t: string, ms: seq<Message>)
    requires ParseElements(t) == Some(ms)
    ensures ms != [] && t == Elements(ms) + "]"
    decreases |t|
  {
    ParseElementsCases(t, ms);
    var mr := ParseMessage(t).value;
    ParsedMessageIsEncoded(t, mr.0, mr.1);
    if mr.1 != "]" {
      var tail := mr.1[1..];
      ParsedElementsAreEncoded(tail, ms[1..]);
      assert mr.1 == "," + tail;
      ElementsStep(t, mr.0, mr.1, ms[1..]);
      assert [mr.0] + ms[1..] == ms;
    }
  }

  /** Decode accepts nothing but the encoding of what it returns. */
  lemma EncodeDecode(s: string, ms: seq<Message>)
    requires Decode(s) == Some(ms)
    ensures Encode(ms) == s
  {
    if s != "[]" {
      ParsedElementsAreEncoded(s[1..], ms);
      assert s == "[" + s[1..];
    }
  }

  /** Two conversations are stored as the same text only if they are equal. */
  lemma EncodeInjective(a: seq<Message>, b: seq<Message>)
    requires Encode(a) == Encode(b)
    ensures a == b
  {
    DecodeEncode(a);
    DecodeEncode(b);
  }
}
