/**
 * The user record of the mobile session module and the way it is written to
 * storage. The app stores the record with `JSON.stringify` and reads it back
 * with `JSON.parse`; here both are a concrete pair `Encode`/`Decode` that
 * produces the same JSON object shape (the four fields in declaration order,
 * no whitespace), so that the round trip is proved rather than assumed.
 */
module UserCodec {
  import opened Wrappers

  /** The identity record returned by the backend (`interface User`). */
  datatype User = User(id: string, name: string, email: string, avatarUrl: string)

  const Quote: char := '"'
  const Backslash: char := '\\'

  /** Characters below U+0020, which may not appear raw inside a JSON string. */
  predicate IsControl(c: char) {
    c as int < 0x20
  }

  /** The two-character escape `\e` that `JSON.stringify` writes for `c`, if any. */
  function ShortEscape(c: char): Option<char> {
    if c == Quote then Some(Quote)
    else if c == Backslash then Some(Backslash)
    else if c as int == 0x08 then Some('b')
    else if c == '\t' then Some('t')
    else if c == '\n' then Some('n')
    else if c as int == 0x0C then Some('f')
    else if c == '\r' then Some('r')
    else None
  }

  /** The character a two-character escape `\e` stands for. */
  function ShortUnescape(e: char): (r: Option<char>)
    ensures r.Some? ==> ShortEscape(r.value) == Some(e)
    ensures forall c :: ShortEscape(c) == Some(e) ==> r == Some(c)
  {
    if e == Quote then Some(Quote)
    else if e == Backslash then Some(Backslash)
    else if e == 'b' then Some(0x08 as char)
    else if e == 't' then Some('\t')
    else if e == 'n' then Some('\n')
    else if e == 'f' then Some(0x0C as char)
    else if e == 'r' then Some('\r')
    else None
  }

  /** Lower-case hexadecimal digit, as in the `\u00XX` escapes of `JSON.stringify`. */
  function HexDigit(n: nat): char
    requires n < 16
  {
    if n < 10 then ('0' as int + n) as char else ('a' as int + n - 10) as char
  }

  function HexValue(d: char): (r: Option<nat>)
    ensures r.Some? ==> r.value < 16 && HexDigit(r.value) == d
  {
    if '0' <= d <= '9' then Some(d as int - '0' as int)
    else if 'a' <= d <= 'f' then Some(d as int - 'a' as int + 10)
    else None
  }

  /**
   * The JSON escape of one character inside a string literal, as
   * `JSON.stringify` writes it: a short escape where one exists, `\u00XX` for
   * the other control characters, and the character itself otherwise.
   */
  function EscapeChar(c: char): string {
    match ShortEscape(c)
    case Some(e) => [Backslash, e]
    case None =>
      if IsControl(c) then [Backslash, 'u', '0', '0', HexDigit(c as int / 16), HexDigit(c as int % 16)]
      else [c]
  }

  /** The body of a JSON string literal for `s`, without its quotes. */
  function Escape(s: string): string
    decreases |s|
  {
    if s == [] then [] else EscapeChar(s[0]) + Escape(s[1..])
  }

  lemma EscapeCons(c: char, w: string)
    ensures Escape([c] + w) == EscapeChar(c) + Escape(w)
  {
    assert ([c] + w)[1..] == w;
  }

  /** A printable character other than a quote or a backslash is written as itself. */
  lemma PlainEscape(c: char)
    requires !IsControl(c) && c != Quote && c != Backslash
    ensures EscapeChar(c) == [c]
  {
  }

  /**
   * Reads one escape sequence at the front of `s` (which starts with a
   * backslash): the character it stands for and its length. Only the
   * spelling `EscapeChar` writes is accepted.
   */
  function ReadEscape(s: string): (r: Option<(char, nat)>)
    requires |s| > 0 && s[0] == Backslash
    ensures r.Some? ==> r.value.1 <= |s| && s[..r.value.1] == EscapeChar(r.value.0)
  {
    if |s| >= 2 && ShortUnescape(s[1]).Some? then
      Some((ShortUnescape(s[1]).value, 2))
    else if |s| >= 6 && s[1] == 'u' && s[2] == '0' && s[3] == '0'
      && HexValue(s[4]).Some? && HexValue(s[4]).value < 2 && HexValue(s[5]).Some? then
      var hi := HexValue(s[4]).value;
      var lo := HexValue(s[5]).value;
      var c := (16 * hi + lo) as char;
      assert c as int / 16 == hi && c as int % 16 == lo;
      if ShortEscape(c).None? then Some((c, 6)) else None
    else None
  }

  /**
   * Reads the rest of a string literal whose opening quote has already been
   * consumed: returns the unescaped contents and the text after the closing
   * quote. A raw control character fails, as in `JSON.parse`; only escapes
   * spelled the way `Escape` spells them are accepted.
   */
  function ReadLiteral(s: string): (r: Option<(string, string)>)
    ensures r.Some? ==> s == Escape(r.value.0) + ([Quote] + r.value.1)
    decreases |s|
  {
    if |s| == 0 then None
    else if s[0] == Quote then Some(([], s[1..]))
    else if s[0] == Backslash then
      match ReadEscape(s)
      case None => None
      case Some(e) =>
        if e.1 == 0 then None
        else
          match ReadLiteral(s[e.1..])
          case None => None
          case Some(p) =>
            assert s == s[..e.1] + s[e.1..];
            EscapeCons(e.0, p.0);
            Some(([e.0] + p.0, p.1))
    else if IsControl(s[0]) then None
    else
      match ReadLiteral(s[1..])
      case None => None
      case Some(p) =>
        assert s == [s[0]] + s[1..];
        PlainEscape(s[0]);
        EscapeCons(s[0], p.0);
        Some(([s[0]] + p.0, p.1))
  }

  /** Consumes the fixed text `lit` at the front of `s`. */
  function Skip(lit: string, s: string): (r: Option<string>)
    ensures r.Some? <==> lit <= s
    ensures r.Some? ==> s == lit + r.value
  {
    if lit <= s then Some(s[|lit|..]) else None
  }

  /** One `<open>"<value>"` member of the encoded object followed by `tail`. */
  function Member(open: string, v: string, tail: string): string {
    open + (Escape(v) + ([Quote] + tail))
  }

  /** Reads one member written by `Member`, returning its value and the tail. */
  function ReadMember(open: string, s: string): (r: Option<(string, string)>)
    ensures r.Some? ==> s == Member(open, r.value.0, r.value.1)
  {
    var rest :- Skip(open, s);
    ReadLiteral(rest)
  }

  const IdOpen: string := "{\"id\":\""
  const NameOpen: string := ",\"name\":\""
  const EmailOpen: string := ",\"email\":\""
  const AvatarOpen: string := ",\"avatar_url\":\""
  const Close: string := "}"

  /** `JSON.stringify(user)`: never the empty string, so always truthy. */
  function Encode(u: User): (r: string)
    ensures |r| > 0
  {
    Member(IdOpen, u.id,
      Member(NameOpen, u.name,
        Member(EmailOpen, u.email,
          Member(AvatarOpen, u.avatarUrl, Close))))
  }

  /**
   * `JSON.parse(text)` restricted to user records: it succeeds only on the
   * exact text `Encode` writes, which `JSON.parse` also accepts.
   */
  function Decode(text: string): (r: Option<User>)
    ensures r.Some? ==> Encode(r.value) == text
  {
    var id :- ReadMember(IdOpen, text);
    var name :- ReadMember(NameOpen, id.1);
    var email :- ReadMember(EmailOpen, name.1);
    var avatar :- ReadMember(AvatarOpen, email.1);
    if avatar.1 == Close then Some(User(id.0, name.0, email.0, avatar.0))
    else None
  }

  /** An escape written by `EscapeChar` reads back as its character. */
  lemma ReadWrittenEscape(c: char, more: string)
    requires ShortEscape(c).Some? || IsControl(c)
    ensures ReadEscape(EscapeChar(c) + more) == Some((c, |EscapeChar(c)|))
  {
    var s := EscapeChar(c) + more;
    if ShortEscape(c).None? {
      var hi := c as int / 16;
      var lo := c as int % 16;
      assert s[1] == 'u' && ShortUnescape('u') == None;
      assert HexValue(s[4]) == Some(hi) && HexValue(s[5]) == Some(lo);
      assert (16 * hi + lo) as char == c;
    }
  }

  /** Reading one written character, then the rest, gives the character in front of the rest. */
  lemma ReadWrittenChar(c: char, more: string, w: string, tail: string)
    requires ReadLiteral(more) == Some((w, tail))
    ensures ReadLiteral(EscapeChar(c) + more) == Some(([c] + w, tail))
  {
    var esc := EscapeChar(c);
    var s := esc + more;
    assert s[..|esc|] == esc;
    assert s[|esc|..] == more;
    if ShortEscape(c).Some? || IsControl(c) {
      ReadWrittenEscape(c, more);
    } else {
      PlainEscape(c);
    }
  }

  lemma EscapeConsTail(c: char, w: string, tail: string)
    ensures Escape([c] + w) + tail == EscapeChar(c) + (Escape(w) + tail)
  {
    EscapeCons(c, w);
  }

  /** Reading back an escaped literal gives the original text and the tail. */
  lemma {:induction false} ReadEscaped(v: string, tail: string)
    ensures ReadLiteral(Escape(v) + ([Quote] + tail)) == Some((v, tail))
    decreases |v|
  {
    if v == [] {
      assert Escape(v) + ([Quote] + tail) == [Quote] + tail;
    } else {
      var c, w := v[0], v[1..];
      assert [c] + w == v;
      ReadEscaped(w, tail);
      EscapeConsTail(c, w, [Quote] + tail);
      ReadWrittenChar(c, Escape(w) + ([Quote] + tail), w, tail);
    }
  }

  /** A member written by `Member` reads back as its value and tail. */
  lemma ReadWrittenMember(open: string, v: string, tail: string)
    ensures ReadMember(open, Member(open, v, tail)) == Some((v, tail))
  {
    var s := Member(open, v, tail);
    assert open <= s;
    assert s[|open|..] == Escape(v) + ([Quote] + tail);
    ReadEscaped(v, tail);
  }

  /** Decoding an encoded user gives the user back. */
  lemma DecodeEncode(u: User)
    ensures Decode(Encode(u)) == Some(u)
  {
    var t3 := Member(AvatarOpen, u.avatarUrl, Close);
    var t2 := Member(EmailOpen, u.email, t3);
    var t1 := Member(NameOpen, u.name, t2);
    ReadWrittenMember(IdOpen, u.id, t1);
    ReadWrittenMember(NameOpen, u.name, t2);
    ReadWrittenMember(EmailOpen, u.email, t3);
    ReadWrittenMember(AvatarOpen, u.avatarUrl, Close);
  }

  /** `Decode` is the exact inverse of `Encode`, in both directions. */
  lemma DecodeIff(text: string, u: User)
    ensures Decode(text) == Some(u) <==> text == Encode(u)
  {
    if text == Encode(u) {
      DecodeEncode(u);
    }
  }

  /** No raw control character: what `JSON.parse` demands inside a string literal. */
  predicate NoControl(s: string) {
    forall i :: 0 <= i < |s| ==> !IsControl(s[i])
  }

  lemma NoControlAppend(a: string, b: string)
    requires NoControl(a) && NoControl(b)
    ensures NoControl(a + b)
  {
    assert forall i :: 0 <= i < |a + b| ==> (a + b)[i] == if i < |a| then a[i] else b[i - |a|];
  }

  /** Escaping leaves no raw control character behind. */
  lemma {:induction false} EscapeNoControl(s: string)
    ensures NoControl(Escape(s))
    decreases |s|
  {
    if s != [] {
      EscapeNoControl(s[1..]);
      NoControlAppend(EscapeChar(s[0]), Escape(s[1..]));
    }
  }

  lemma MemberNoControl(open: string, v: string, tail: string)
    requires NoControl(open) && NoControl(tail)
    ensures NoControl(Member(open, v, tail))
  {
    EscapeNoControl(v);
    NoControlAppend([Quote], tail);
    NoControlAppend(Escape(v), [Quote] + tail);
    NoControlAppend(open, Escape(v) + ([Quote] + tail));
  }

  /** The stored user entry never holds a raw control character. */
  lemma EncodeNoControl(u: User)
    ensures NoControl(Encode(u))
  {
    MemberNoControl(AvatarOpen, u.avatarUrl, Close);
    MemberNoControl(EmailOpen, u.email, Member(AvatarOpen, u.avatarUrl, Close));
    MemberNoControl(NameOpen, u.name, Member(EmailOpen, u.email, Member(AvatarOpen, u.avatarUrl, Close)));
    MemberNoControl(IdOpen, u.id,
      Member(NameOpen, u.name, Member(EmailOpen, u.email, Member(AvatarOpen, u.avatarUrl, Close))));
  }

  /**
   * A text with a raw control character does not decode. `JSON.parse` throws
   * on one only inside a string literal; tab, line feed and carriage return
   * between tokens are JSON whitespace, which `Decode` does not accept.
   */
  lemma DecodeRejectsControl(text: string, i: int)
    requires 0 <= i < |text| && IsControl(text[i])
    ensures Decode(text) == None
  {
    if Decode(text).Some? {
      EncodeNoControl(Decode(text).value);
    }
  }

  /** A name holding a line break is stored escaped, with no raw control character, and reads back. */
  lemma LineBreakStoredEscaped()
    ensures var u := User("a\nb", "", "", "");
      Decode(Encode(u)) == Some(u) && NoControl(Encode(u))
  {
    var u := User("a\nb", "", "", "");
    DecodeEncode(u);
    EncodeNoControl(u);
  }

  /** The same record with the line break written raw does not decode. */
  lemma RawLineBreakRejected()
    ensures Decode("{\"id\":\"a\nb\",\"name\":\"\",\"email\":\"\",\"avatar_url\":\"\"}") == None
  {
    var raw := "{\"id\":\"a\nb\",\"name\":\"\",\"email\":\"\",\"avatar_url\":\"\"}";
    assert raw[8] == '\n';
    DecodeRejectsControl(raw, 8);
  }

  /**
   * An encoded entry followed by a line feed does not decode, although
   * `JSON.parse` accepts the line feed as trailing whitespace.
   */
  lemma TrailingLineBreakRejected(u: User)
    ensures Decode(Encode(u) + "\n") == None
  {
    var text := Encode(u) + "\n";
    DecodeRejectsControl(text, |text| - 1);
  }

  /** Different users never share an encoding. */
  lemma EncodeInjective(u: User, v: User)
    ensures Encode(u) == Encode(v) ==> u == v
  {
    DecodeEncode(u);
    DecodeEncode(v);
  }
}
