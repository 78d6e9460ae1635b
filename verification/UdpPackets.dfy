/** The datagrams byte by byte: what is sent for each message, and exactly which datagrams are read as which. */
module UdpPackets {
  import opened Bytes
  import opened Messages
  import opened UdpEncoder
  import opened UdpDecoder

  // ------------------------------------------------------------------- what is read

  predicate Printable(s: bytes) { s != [] && forall i :: 0 <= i < |s| ==> 0x20 <= s[i] <= 0x7E }

  /** `0` to `9`, `A` to `Z`, `a` to `z`, `-`, `.` and `_`. */
  predicate IsTokenByte(b: byte) {
    48 <= b <= 57 || 65 <= b <= 90 || 97 <= b <= 122 || b == 45 || b == 46 || b == 95
  }

  predicate IsToken(s: bytes) { s != [] && forall i :: 0 <= i < |s| ==> IsTokenByte(s[i]) }

  /** User names and secrets: the first byte may be any printable one. */
  predicate IsLogin(s: bytes) { s != [] && 0x20 <= s[0] <= 0x7E && forall i :: 1 <= i < |s| ==> IsTokenByte(s[i]) }

  predicate IsName(s: bytes) { Printable(s) && |s| <= 20 }

  predicate IsContent(s: bytes) { Printable(s) && |s| <= 60000 }

  /** The type byte and the message ID, in network byte order. */
  function Start(code: byte, m: Message): bytes { [code, m.id / 256, m.id % 256] }

  predicate HoldsJoin(d: bytes, m: Message, channel: bytes) {
    IsToken(channel) && Start(0x03, m) + (channel + [0] + m.author + [0]) <= d
  }

  predicate HoldsAuth(d: bytes, m: Message, username: bytes, name: bytes) {
    IsLogin(username) && Printable(name) && Start(0x02, m) + (username + [0] + name + [0] + m.text + [0]) <= d
  }

  /** A datagram starts with the packet of a message; channels, user and display names of others are lost. */
  ghost predicate Stands(d: bytes, m: Message) {
    (m.kind != REPLY ==> !m.isOk && m.refId == 0) &&
    match m.kind
    case CONFIRM => m.author == [] && m.text == [] && Start(0x00, m) <= d
    case PING => m.author == [] && m.text == [] && Start(0xFD, m) <= d
    case MSG => Printable(m.author) && Printable(m.text) && Start(0x04, m) + (m.author + [0] + m.text + [0]) <= d
    case ERR => Printable(m.author) && Printable(m.text) && Start(0xFE, m) + (m.author + [0] + m.text + [0]) <= d
    case BYE => Printable(m.author) && m.text == [] && Start(0xFF, m) + (m.author + [0]) <= d
    case REPLY =>
      m.author == [] && Printable(m.text) &&
      Start(0x01, m) + ([if m.isOk then 1 else 0, m.refId / 256, m.refId % 256] + m.text + [0]) <= d
    case JOIN => Printable(m.author) && m.text == [] && exists channel :: HoldsJoin(d, m, channel)
    case AUTH => m.author == [] && IsLogin(m.text) && exists username, name :: HoldsAuth(d, m, username, name)
    case _ => false
  }

  /** And author and text are not too long. */
  ghost predicate Means(d: bytes, m: Message) { Stands(d, m) && |m.author| <= 20 && |m.text| <= 60000 }

  lemma FieldClasses(s: bytes)
    ensures IsField(NAME_FIELD, s) <==> Printable(s)
    ensures IsField(CONTENT_FIELD, s) <==> Printable(s)
    ensures IsField(CHANNEL_FIELD, s) <==> IsToken(s)
    ensures IsField(SECRET_FIELD, s) <==> IsLogin(s)
  {
    if s != [] && IsField(NAME_FIELD, s) {
      forall i | 0 <= i < |s| ensures 0x20 <= s[i] <= 0x7E { assert i == 0 || Allows(PrintBytes, s[i]); }
    }
    if s != [] && IsField(CHANNEL_FIELD, s) {
      forall i | 0 <= i < |s| ensures IsTokenByte(s[i]) { assert i == 0 || Allows(TokenBytes, s[i]); }
    }
  }

  lemma Zeroes(a: bytes, b: bytes, c: bytes)
    ensures ZeroTerminated([]) == []
    ensures ZeroTerminated([a]) == a + [0]
    ensures ZeroTerminated([a, b]) == a + [0] + b + [0]
    ensures ZeroTerminated([a, b, c]) == a + [0] + b + [0] + c + [0]
  {
    assert [a][1..] == [] && [a, b][1..] == [b] && [b][1..] == [] && [a, b, c][1..] == [b, c] && [b, c][1..] == [c];
    assert [c][1..] == [];
    assert ZeroTerminated([c]) == c + [0] && ZeroTerminated([b, c]) == b + [0] + (c + [0]);
  }

  lemma FieldsAre(p: Packet)
    requires WellFormed(p)
    ensures forall k :: 0 <= k < |p.fields| ==> IsField(Fields(p.kind)[k], p.fields[k])
  {
    forall k | 0 <= k < |p.fields| ensures IsField(Fields(p.kind)[k], p.fields[k]) {
      assert IsField(Fields(p.kind)[0 + k], p.fields[k]);
    }
  }

  lemma TypeBytes(kind: MessageType)
    ensures kind.Code() == match kind { case CONFIRM => 0x00 case REPLY => 0x01 case AUTH => 0x02 case JOIN => 0x03
                                        case MSG => 0x04 case ERR => 0xFE case BYE => 0xFF case PING => 0xFD
                                        case ERR_INTERNAL => 0x45 case NONE => 0x2A }
    ensures TypeOf(kind.Code()) == Some(kind) <==> kind !in {NONE, ERR_INTERNAL}
  {
  }

  lemma PlainPacket(p: Packet)
    requires p.kind != REPLY
    ensures Serialise(p) == [p.kind.Code(), p.id / 256, p.id % 256] + ZeroTerminated(p.fields)
  {
    assert [] + ZeroTerminated(p.fields) == ZeroTerminated(p.fields);
  }

  lemma ReplyPacket(p: Packet)
    requires p.kind == REPLY && |p.fields| == 1
    ensures Serialise(p) == [0x01, p.id / 256, p.id % 256] +
                            ([if p.ok then 1 else 0, p.refId / 256, p.refId % 256] + p.fields[0] + [0])
  {
    var body := [if p.ok then 1 else 0] + Octets(p.refId);
    Zeroes(p.fields[0], [], []);
    assert p.fields == [p.fields[0]];
    assert body + ZeroTerminated(p.fields) == body + p.fields[0] + [0];
  }

  lemma FieldBytes(p: Packet)
    requires WellFormed(p)
    ensures |p.fields| == 0 ==> ZeroTerminated(p.fields) == []
    ensures |p.fields| == 1 ==> ZeroTerminated(p.fields) == p.fields[0] + [0]
    ensures |p.fields| == 2 ==> ZeroTerminated(p.fields) == p.fields[0] + [0] + p.fields[1] + [0]
    ensures |p.fields| == 3 ==>
              ZeroTerminated(p.fields) == p.fields[0] + [0] + p.fields[1] + [0] + p.fields[2] + [0]
  {
    var f := p.fields;
    if |f| == 0 { assert f == []; }
    if |f| == 1 { assert f == [f[0]]; Zeroes(f[0], [], []); }
    if |f| == 2 { assert f == [f[0], f[1]]; Zeroes(f[0], f[1], []); }
    if |f| == 3 { assert f == [f[0], f[1], f[2]]; Zeroes(f[0], f[1], f[2]); }
  }

  lemma PacketStands(d: bytes, p: Packet)
    requires WellFormed(p) && Serialise(p) <= d
    ensures Stands(d, Meaning(p)) && (Fits(p) <==> Means(d, Meaning(p)))
  {
    FieldsAre(p);
    TypeBytes(p.kind);
    FieldBytes(p);
    if |p.fields| > 0 { FieldClasses(p.fields[0]); }
    if |p.fields| > 1 { FieldClasses(p.fields[1]); }
    if |p.fields| > 2 { FieldClasses(p.fields[2]); }
    if p.kind == REPLY {
      ReplyPacket(p);
    } else {
      PlainPacket(p);
      if p.kind == JOIN { assert HoldsJoin(d, Meaning(p), p.fields[0]); }
      if p.kind == AUTH { assert HoldsAuth(d, Meaning(p), p.fields[0], p.fields[1]); }
      if |p.fields| == 0 { assert Start(p.kind.Code(), Meaning(p)) + [] == Start(p.kind.Code(), Meaning(p)); }
    }
  }

  /** The packet of a message, with the fields that the message does not keep. */
  function PacketFor(m: Message, lost: seq<bytes>): Packet {
    Packet(m.kind, m.id, m.isOk, m.refId,
           match m.kind
           case MSG => [m.author, m.text]
           case ERR => [m.author, m.text]
           case BYE => [m.author]
           case REPLY => [m.text]
           case JOIN => lost + [m.author]
           case AUTH => lost + [m.text]
           case _ => [])
  }

  predicate IsLost(d: bytes, m: Message, lost: seq<bytes>) {
    match m.kind
    case JOIN => |lost| == 1 && HoldsJoin(d, m, lost[0])
    case AUTH => |lost| == 2 && HoldsAuth(d, m, lost[0], lost[1])
    case _ => lost == []
  }

  lemma LostFields(d: bytes, m: Message) returns (lost: seq<bytes>)
    requires Stands(d, m)
    ensures IsLost(d, m, lost)
  {
    lost := [];
    if m.kind == JOIN {
      var channel :| HoldsJoin(d, m, channel);
      lost := [channel];
    }
    if m.kind == AUTH {
      var username, name :| HoldsAuth(d, m, username, name);
      lost := [username, name];
    }
  }

  lemma AreFieldsIf(p: Packet)
    requires |p.fields| == |Fields(p.kind)|
    requires forall k :: 0 <= k < |p.fields| ==> IsField(Fields(p.kind)[k], p.fields[k])
    ensures AreFields(p.kind, 0, p.fields)
  {
  }

  lemma StandsWellFormed(d: bytes, m: Message, lost: seq<bytes>)
    requires Stands(d, m) && IsLost(d, m, lost)
    ensures var p := PacketFor(m, lost); WellFormed(p) && Meaning(p) == m
  {
    var p := PacketFor(m, lost);
    TypeBytes(m.kind);
    FieldClasses(m.author);
    FieldClasses(m.text);
    if m.kind == JOIN {
      FieldClasses(lost[0]);
      assert p.fields == [lost[0], m.author];
    }
    if m.kind == AUTH {
      FieldClasses(lost[0]);
      FieldClasses(lost[1]);
      assert p.fields == [lost[0], lost[1], m.text];
    }
    AreFieldsIf(p);
  }

  lemma StandsPrefix(d: bytes, m: Message, lost: seq<bytes>)
    requires Stands(d, m) && IsLost(d, m, lost)
    ensures Serialise(PacketFor(m, lost)) <= d
  {
    var p := PacketFor(m, lost);
    StandsWellFormed(d, m, lost);
    TypeBytes(m.kind);
    FieldBytes(p);
    if m.kind == REPLY {
      ReplyPacket(p);
    } else {
      PlainPacket(p);
      if |p.fields| == 0 { assert Start(p.kind.Code(), m) + [] == Start(p.kind.Code(), m); }
    }
  }

  /**
   * The language of the decoder in bytes: it reads a message from a datagram if and only
   * if the datagram starts with the packet of that message, whatever follows.
   */
  lemma DatagramsRead(d: Datagram, m: Message)
    ensures Decode(d) == m && m.kind != ERR_INTERNAL <==> Means(d, m)
  {
    DecoderLanguage(d, m);
    if p :| WellFormed(p) && Serialise(p) <= d && Fits(p) && Meaning(p) == m {
      PacketStands(d, p);
    }
    if Means(d, m) {
      var lost := LostFields(d, m);
      StandsWellFormed(d, m, lost);
      StandsPrefix(d, m, lost);
    }
  }

  /** What a malformed datagram becomes: an internal error that keeps what was read before the failure. */
  function Error(author: bytes, isOk: bool, id: uint16, refId: uint16): Message {
    Message(ERR_INTERNAL, Ascii("Malformed message incoming from server!"), author, isOk, id, refId)
  }

  /** A packet with a field over the limit keeps its ID, and its author if that is not too long. */
  lemma OverlongMalformed(d: Datagram, m: Message)
    requires Stands(d, m) && (|m.author| > 20 || |m.text| > 60000)
    ensures Decode(d) == Error(if |m.author| <= 20 then m.author else [], m.isOk, m.id, m.refId)
  {
    var lost := LostFields(d, m);
    StandsWellFormed(d, m, lost);
    StandsPrefix(d, m, lost);
    DecodesPacket(FRESH, d, PacketFor(m, lost));
  }

  /** A datagram that starts with no packet has no ID. */
  lemma OthersMalformed(d: Datagram)
    requires forall m :: !Stands(d, m)
    ensures Decode(d) == Error([], false, 65535, 0)
  {
    if p :| WellFormed(p) && Serialise(p) <= d {
      PacketStands(d, p);
    } else {
      DecodesOther(FRESH, d);
    }
  }

  /** MSG and ERR, field by field: read as written if and only if both fields are printable and within the limits. */
  lemma TextDatagram(kind: MessageType, code: byte, a: byte, b: byte, name: bytes, text: bytes)
    requires (kind == MSG && code == 0x04) || (kind == ERR && code == 0xFE)
    requires |name| + |text| + 5 < 0x1_0000
    ensures Decode([code, a, b] + (name + [0] + text + [0])) == Message(kind, text, name, false, a * 256 + b, 0) <==>
            IsName(name) && IsContent(text)
  {
    DatagramsRead([code, a, b] + (name + [0] + text + [0]), Message(kind, text, name, false, a * 256 + b, 0));
  }

  lemma FirstField(x: bytes, s: bytes, y: bytes, t: bytes)
    requires ZeroFree(x) && ZeroFree(y) && x + [0] + s <= y + [0] + t
    ensures x == y && s <= t
  {
    var u, v := x + [0] + s, y + [0] + t;
    assert u[|x|] == 0 && v[|x|] == 0;
    if |y| <= |x| { assert u[|y|] == v[|y|] == 0; }
    assert x == u[..|x|] == v[..|x|] && y == v[..|y|];
    assert s == u[|x| + 1..] && t == v[|y| + 1..];
  }

  lemma SameStart(h: bytes, u: bytes, v: bytes)
    requires h + u <= h + v
    ensures u <= v
  {
    assert u == (h + u)[|h|..] && v == (h + v)[|h|..];
    assert forall i :: 0 <= i < |u| ==> u[i] == (h + u)[|h| + i] == (h + v)[|h| + i] == v[i];
  }

  lemma TokensZeroFree(s: bytes)
    ensures IsToken(s) || IsLogin(s) || Printable(s) ==> ZeroFree(s)
  {
  }

  /** JOIN: the channel is of letters, digits, `-`, `.` and `_`, and not kept. */
  lemma ChannelDatagram(a: byte, b: byte, channel: bytes, name: bytes)
    requires ZeroFree(channel) && |channel| + |name| + 5 < 0x1_0000
    ensures Decode([0x03, a, b] + (channel + [0] + name + [0])) == Message(JOIN, [], name, false, a * 256 + b, 0) <==>
            IsToken(channel) && IsName(name)
  {
    var d, m := [0x03, a, b] + (channel + [0] + name + [0]), Message(JOIN, [], name, false, a * 256 + b, 0);
    DatagramsRead(d, m);
    if IsToken(channel) && IsName(name) { assert HoldsJoin(d, m, channel); }
    if x :| HoldsJoin(d, m, x) {
      TokensZeroFree(x);
      assert x + [0] + name + [0] == x + [0] + (name + [0]);
      assert channel + [0] + name + [0] == channel + [0] + (name + [0]);
      SameStart(Start(0x03, m), x + [0] + (name + [0]), channel + [0] + (name + [0]));
      FirstField(x, name + [0], channel, name + [0]);
    }
  }

  lemma SplitLogin(username: bytes, name: bytes, secret: bytes)
    ensures username + [0] + name + [0] + secret + [0] == username + [0] + (name + [0] + (secret + [0]))
  {
  }

  /** AUTH: user name and secret are such tokens after any printable first byte; only the secret is kept, as text. */
  lemma LoginDatagram(a: byte, b: byte, username: bytes, name: bytes, secret: bytes)
    requires ZeroFree(username) && ZeroFree(name) && |username| + |name| + |secret| + 6 < 0x1_0000
    ensures Decode([0x02, a, b] + (username + [0] + name + [0] + secret + [0])) ==
              Message(AUTH, secret, [], false, a * 256 + b, 0) <==>
            IsLogin(username) && Printable(name) && IsLogin(secret) && |secret| <= 60000
  {
    var d := [0x02, a, b] + (username + [0] + name + [0] + secret + [0]);
    var m := Message(AUTH, secret, [], false, a * 256 + b, 0);
    DatagramsRead(d, m);
    if IsLogin(username) && Printable(name) { assert HoldsAuth(d, m, username, name); }
    if x, y :| HoldsAuth(d, m, x, y) {
      TokensZeroFree(x);
      TokensZeroFree(y);
      SplitLogin(x, y, secret);
      SplitLogin(username, name, secret);
      SameStart(Start(0x02, m), x + [0] + (y + [0] + (secret + [0])), username + [0] + (name + [0] + (secret + [0])));
      FirstField(x, y + [0] + (secret + [0]), username, name + [0] + (secret + [0]));
      FirstField(y, secret + [0], name, secret + [0]);
    }
  }

  // ------------------------------------------------------------------- what is sent

  /** Type byte, message ID with the low byte first, and the fields, each ended by a zero byte. */
  function Layout(m: Message, cfg: Config, id: uint16): bytes {
    var low, high := id % 256, id / 256;
    match m.kind
    case CONFIRM => [0x00, m.refId / 256, m.refId % 256]
    case PING => [0xFD, low, high]
    case AUTH => [0x02, low, high] + cfg.username + [0] + m.author + [0] + cfg.secret + [0]
    case JOIN => [0x03, low, high] + cfg.channel + [0] + m.author + [0]
    case MSG => [0x04, low, high] + m.author + [0] + m.text + [0]
    case ERR => [0xFE, low, high] + m.author + [0] + m.text + [0]
    case BYE => [0xFF, low, high] + m.author + [0]
    case _ => []
  }

  lemma Spread(h: bytes, a: bytes, b: bytes, c: bytes)
    ensures h + Field(a) == h + a + [0]
    ensures h + Field(a) + Field(b) == h + a + [0] + b + [0]
    ensures h + Field(a) + Field(b) + Field(c) == h + a + [0] + b + [0] + c + [0]
  {
    assert h + (a + [0]) == h + a + [0];
    assert h + a + [0] + (b + [0]) == h + a + [0] + b + [0];
    assert h + a + [0] + b + [0] + (c + [0]) == h + a + [0] + b + [0] + c + [0];
  }

  /** The datagram of a message under an ID is its layout, up to the length modulo 2^16. */
  lemma DatagramsSent(m: Message, cfg: Config, id: uint16)
    ensures Encode(m, cfg, id) == Layout(m, cfg, id)[..|Layout(m, cfg, id)| % 0x1_0000]
  {
    var h := [m.kind.Code(), id % 256, id / 256];
    TypeBytes(m.kind);
    Spread(h, m.author, m.text, []);
    Spread(h, cfg.channel, m.author, []);
    Spread(h, cfg.username, m.author, cfg.secret);
  }

  lemma PartsShipped()
    ensures HEADER == "{%b:Type}{%h:messageID}"
  {
  }

  lemma ReferencesShipped()
    ensures REFERENCE == "{%b:Result}{%h:rMessageID}"
  {
  }

  lemma ConfirmShipped()
    ensures NumberTemplate("Type", "rMessageID") == "{%b:Type}{%h:rMessageID}"
  {
  }

  lemma FieldsShipped()
    ensures FieldTemplate("DisplayName") == "{%s:DisplayName}\\x00"
    ensures FieldTemplate("MessageContent") == "{%s:MessageContent}\\x00"
  {
  }

  lemma LoginsShipped()
    ensures FieldTemplate("ChannelID") == "{%s:ChannelID}\\x00"
    ensures FieldTemplate("Username") == "{%s:Username}\\x00"
    ensures FieldTemplate("Secret") == "{%s:Secret}\\x00"
  {
  }

  /** The shipped templates, written out. */
  lemma TemplatesShipped()
    ensures Template(CONFIRM) == Some("{%b:Type}{%h:rMessageID}")
    ensures Template(PING) == Some("{%b:Type}{%h:messageID}")
    ensures Template(MSG) == Template(ERR) ==
            Some("{%b:Type}{%h:messageID}" + "{%s:DisplayName}\\x00" + "{%s:MessageContent}\\x00")
    ensures Template(BYE) == Some("{%b:Type}{%h:messageID}" + "{%s:DisplayName}\\x00")
    ensures Template(JOIN) == Some("{%b:Type}{%h:messageID}" + "{%s:ChannelID}\\x00" + "{%s:DisplayName}\\x00")
    ensures Template(AUTH) ==
            Some("{%b:Type}{%h:messageID}" + "{%s:Username}\\x00" + "{%s:DisplayName}\\x00" + "{%s:Secret}\\x00")
    ensures Template(REPLY) ==
            Some("{%b:Type}{%h:messageID}" + "{%b:Result}{%h:rMessageID}" + "{%s:MessageContent}\\x00")
  {
    PartsShipped();
    ReferencesShipped();
    ConfirmShipped();
    FieldsShipped();
    LoginsShipped();
  }
}
