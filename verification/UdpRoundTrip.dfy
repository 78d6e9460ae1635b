/** What the decoder makes of the encoder's datagrams. */
module UdpRoundTrip {
  import opened Bytes
  import opened Messages
  import opened Sequences
  import opened UdpEncoder
  import opened UdpDecoder

  /** The packet that the encoder writes: every ID but a CONFIRM's is swapped on the wire. */
  function PacketOf(m: Message, cfg: Config, id: uint16): Packet {
    match m.kind
    case CONFIRM => Packet(CONFIRM, m.refId, false, 0, [])
    case MSG => Packet(MSG, Swap(id), false, 0, [m.author, m.text])
    case ERR => Packet(ERR, Swap(id), false, 0, [m.author, m.text])
    case BYE => Packet(BYE, Swap(id), false, 0, [m.author])
    case JOIN => Packet(JOIN, Swap(id), false, 0, [cfg.channel, m.author])
    case AUTH => Packet(AUTH, Swap(id), false, 0, [cfg.username, m.author, cfg.secret])
    case kind => Packet(kind, Swap(id), false, 0, [])
  }

  lemma ZeroTerminatedFields(fields: seq<bytes>)
    requires 0 < |fields| <= 3
    ensures |fields| == 1 ==> ZeroTerminated(fields) == Field(fields[0])
    ensures |fields| == 2 ==> ZeroTerminated(fields) == Field(fields[0]) + Field(fields[1])
    ensures |fields| == 3 ==> ZeroTerminated(fields) == Field(fields[0]) + Field(fields[1]) + Field(fields[2])
  {
    if |fields| == 1 {
      assert fields[1..] == [];
    } else {
      ZeroTerminatedFields(fields[1..]);
    }
  }

  /** The packet's first three bytes are the header, with the ID back in host order. */
  lemma PacketHeader(m: Message, cfg: Config, id: uint16)
    ensures var p := PacketOf(m, cfg, id);
            m.kind != CONFIRM ==> [p.kind.Code()] + Octets(p.id) == Header(m.kind, id)
  {
    SwapTwice(id);
  }

  lemma WireIsPacket(m: Message, cfg: Config, id: uint16)
    requires Wire(m, cfg, id).Some?
    ensures Wire(m, cfg, id).value == Serialise(PacketOf(m, cfg, id))
  {
    var p := PacketOf(m, cfg, id);
    var head, z := [p.kind.Code()] + Octets(p.id), ZeroTerminated(p.fields);
    PacketHeader(m, cfg, id);
    assert Serialise(p) == head + z by { assert [] + z == z; }
    if p.fields == [] {
      assert head + z == head;
    } else {
      ZeroTerminatedFields(p.fields);
      if |p.fields| > 1 { Regroup(head, Field(p.fields[0]), Field(p.fields[1])); }
      if |p.fields| > 2 { Regroup(head, Field(p.fields[0]) + Field(p.fields[1]), Field(p.fields[2])); }
    }
  }

  /** A datagram that is sent whole and holds a packet decodes to what the packet means. */
  lemma PacketRoundTrip(m: Message, cfg: Config, id: uint16)
    requires Wire(m, cfg, id).Some? && |Wire(m, cfg, id).value| < 0x1_0000
    requires WellFormed(PacketOf(m, cfg, id)) && Fits(PacketOf(m, cfg, id))
    ensures Decode(Encode(m, cfg, id)) == Meaning(PacketOf(m, cfg, id))
  {
    var w := Wire(m, cfg, id).value;
    WireIsPacket(m, cfg, id);
    assert w[..|w| % 0x1_0000] == w;
    DecodesPacket(FRESH, w, PacketOf(m, cfg, id));
  }

  /** The packet behind a decoded message that is not the internal error. */
  lemma PacketBehind(d: Datagram) returns (q: Packet)
    requires Decode(d).kind != ERR_INTERNAL
    ensures WellFormed(q) && Serialise(q) <= d && Fits(q) && Meaning(q) == Decode(d)
  {
    DecoderLanguage(d, Decode(d));
    q :| WellFormed(q) && Serialise(q) <= d && Fits(q) && Meaning(q) == Decode(d);
  }

  lemma DecodedName(d: Datagram)
    ensures var r := Decode(d);
            r.kind == MSG || r.kind == ERR || r.kind == BYE ==>
              IsField(NAME_FIELD, r.author) && |r.author| <= MAX_AUTHOR
  {
    var r := Decode(d);
    if r.kind == MSG || r.kind == ERR || r.kind == BYE {
      var q := PacketBehind(d);
      assert IsField(Fields(q.kind)[0 + 0], q.fields[0]);
    }
  }

  lemma DecodedContent(d: Datagram)
    ensures var r := Decode(d);
            r.kind == MSG || r.kind == ERR ==> IsField(CONTENT_FIELD, r.text) && |r.text| <= MAX_TEXT
  {
    var r := Decode(d);
    if r.kind == MSG || r.kind == ERR {
      var q := PacketBehind(d);
      assert IsField(Fields(q.kind)[0 + 1], q.fields[1]);
    }
  }

  predicate TextFits(m: Message) {
    && IsField(NAME_FIELD, m.author) && |m.author| <= MAX_AUTHOR
    && IsField(CONTENT_FIELD, m.text) && |m.text| <= MAX_TEXT
  }

  lemma TextComesBack(m: Message, cfg: Config, id: uint16)
    requires (m.kind == MSG || m.kind == ERR) && TextFits(m)
    ensures Decode(Encode(m, cfg, id)) == Message(m.kind, m.text, m.author, false, Swap(id), 0)
  {
    PacketRoundTrip(m, cfg, id);
  }

  /**
   * MSG and ERR: type, author and text come back, and the ID swapped, exactly when
   * author and text are printable, non-empty and within the setters' limits.
   */
  lemma TextRoundTrip(m: Message, cfg: Config, id: uint16)
    requires m.kind == MSG || m.kind == ERR
    ensures Decode(Encode(m, cfg, id)) == Message(m.kind, m.text, m.author, false, Swap(id), 0) <==> TextFits(m)
  {
    DecodedName(Encode(m, cfg, id));
    DecodedContent(Encode(m, cfg, id));
    if TextFits(m) { TextComesBack(m, cfg, id); }
  }

  /** BYE: the author comes back exactly when it is printable, non-empty and short enough. */
  lemma ByeRoundTrip(m: Message, cfg: Config, id: uint16)
    requires m.kind == BYE
    ensures Decode(Encode(m, cfg, id)) == Message(BYE, [], m.author, false, Swap(id), 0) <==>
            IsField(NAME_FIELD, m.author) && |m.author| <= MAX_AUTHOR
  {
    DecodedName(Encode(m, cfg, id));
    if IsField(NAME_FIELD, m.author) && |m.author| <= MAX_AUTHOR {
      PacketRoundTrip(m, cfg, id);
    }
  }

  /** PING and CONFIRM always come back; a CONFIRM's reference becomes the decoded ID, unswapped. */
  lemma BareRoundTrip(m: Message, cfg: Config, id: uint16)
    requires m.kind == PING || m.kind == CONFIRM
    ensures Decode(Encode(m, cfg, id)) ==
            Message(m.kind, [], [], false, if m.kind == PING then Swap(id) else m.refId, 0)
  {
    PacketRoundTrip(m, cfg, id);
  }

  lemma PlainBody(p: Packet)
    requires p.kind != REPLY
    ensures Body(p) == ZeroTerminated(p.fields)
  {
    assert Body(p) == [] + ZeroTerminated(p.fields);
  }

  // ------------------------------------------------- what is read of any datagram sent

  /** The first `n` strings from `i` on, each up to the next zero byte. */
  function Pieces(w: bytes, i: nat, n: nat): (r: seq<bytes>)
    requires i <= |w|
    ensures |r| == n
    decreases n
  {
    if n == 0 then []
    else
      var s := CString(w, i);
      var next := i + |s| + 1;
      [s] + Pieces(w, if next <= |w| then next else |w|, n - 1)
  }

  lemma {:induction false} CStringAt(w: bytes, i: nat)
    requires i <= |w|
    ensures var s := CString(w, i); ZeroFree(s) && i + |s| <= |w| && (i + |s| < |w| ==> At(w, i, s + [0]))
    decreases |w| - i
  {
    if i < |w| && w[i] != 0 {
      var s := CString(w, i + 1);
      CStringAt(w, i + 1);
      if i + 1 + |s| < |w| {
        assert At(w, i, [w[i]]);
        JoinAt(w, i, [w[i]], s + [0]);
        assert [w[i]] + (s + [0]) == [w[i]] + s + [0];
      }
    } else if i < |w| {
      assert [] + [0] == w[i..i + 1];
    }
  }

  lemma {:induction false} AtIsPieces(w: bytes, i: nat, fields: seq<bytes>)
    requires (forall k :: 0 <= k < |fields| ==> ZeroFree(fields[k])) && At(w, i, ZeroTerminated(fields))
    ensures Pieces(w, i, |fields|) == fields
    decreases |fields|
  {
    if fields != [] {
      SplitAt(w, i, fields[0] + [0], ZeroTerminated(fields[1..]));
      CStringIs(w, i, fields[0]);
      AtIsPieces(w, i + |fields[0]| + 1, fields[1..]);
    }
  }

  lemma {:induction false} PiecesAreAt(w: bytes, i: nat, fields: seq<bytes>)
    requires i + |ZeroTerminated(fields)| <= |w| && Pieces(w, i, |fields|) == fields
    ensures At(w, i, ZeroTerminated(fields))
    decreases |fields|
  {
    if fields != [] {
      var s, rest := fields[0], fields[1..];
      assert |ZeroTerminated(fields)| == |s| + 1 + |ZeroTerminated(rest)|;
      CStringAt(w, i);
      assert s == CString(w, i) && rest == Pieces(w, i, |fields|)[1..];
      PiecesAreAt(w, i + |s| + 1, rest);
      JoinAt(w, i, s + [0], ZeroTerminated(rest));
    }
  }

  /** The packet that stands at the start of what the encoder writes. */
  function PacketRead(m: Message, cfg: Config, id: uint16): (p: Packet)
    requires Wire(m, cfg, id).Some? && |Wire(m, cfg, id).value| >= 3
    ensures p.kind == m.kind && |p.fields| == |Fields(p.kind)|
  {
    PacketOf(m, cfg, id).(fields := Pieces(Wire(m, cfg, id).value, 3, |Fields(m.kind)|))
  }

  predicate IsRead(m: Message, cfg: Config, id: uint16)
    requires Wire(m, cfg, id).Some? && |Wire(m, cfg, id).value| >= 3
  {
    var p := PacketRead(m, cfg, id);
    WellFormed(p) && Fits(p) && |Serialise(p)| <= |Wire(m, cfg, id).value| % 0x1_0000
  }

  lemma WireStart(m: Message, cfg: Config, id: uint16)
    requires Wire(m, cfg, id).Some?
    ensures var w, p := Wire(m, cfg, id).value, PacketOf(m, cfg, id);
            |w| >= 3 && w[0] == m.kind.Code() && [w[1], w[2]] == Octets(p.id) &&
            p.kind == m.kind && m.kind != REPLY && !p.ok && p.refId == 0
  {
    WireIsPacket(m, cfg, id);
    PrefixParts(Wire(m, cfg, id).value, PacketOf(m, cfg, id));
  }

  lemma SameOctets(x: uint16, y: uint16)
    requires Octets(x) == Octets(y)
    ensures x == y
  {
    assert Octets(x)[0] == Octets(y)[0] && Octets(x)[1] == Octets(y)[1];
  }

  lemma FieldsZeroFree(p: Packet)
    requires WellFormed(p)
    ensures forall k :: 0 <= k < |p.fields| ==> ZeroFree(p.fields[k])
  {
    forall k | 0 <= k < |p.fields| ensures ZeroFree(p.fields[k]) {
      assert IsField(Fields(p.kind)[0 + k], p.fields[k]);
    }
  }

  /** A well-formed packet at the start of the datagram is the one that is read. */
  lemma BehindIsRead(m: Message, cfg: Config, id: uint16, q: Packet)
    requires Wire(m, cfg, id).Some? && |Wire(m, cfg, id).value| >= 3
    requires WellFormed(q) && Serialise(q) <= Wire(m, cfg, id).value
    ensures q == PacketRead(m, cfg, id)
  {
    var w := Wire(m, cfg, id).value;
    WireStart(m, cfg, id);
    PrefixParts(w, q);
    SameOctets(q.id, PacketOf(m, cfg, id).id);
    assert q.kind == m.kind;
    PlainBody(q);
    FieldsZeroFree(q);
    AtIsPieces(w, 3, q.fields);
  }

  lemma PiecesPrefix(w: bytes, p: Packet)
    requires p.kind != REPLY && |w| >= 3 && w[0] == p.kind.Code() && [w[1], w[2]] == Octets(p.id)
    requires p.fields == Pieces(w, 3, |p.fields|) && |Serialise(p)| <= |w|
    ensures Serialise(p) <= w
  {
    PlainBody(p);
    assert |Serialise(p)| == 3 + |Body(p)|;
    PiecesAreAt(w, 3, p.fields);
    PartsPrefix(w, p);
  }

  lemma ReadIsPrefix(m: Message, cfg: Config, id: uint16)
    requires Wire(m, cfg, id).Some? && |Wire(m, cfg, id).value| >= 3 && IsRead(m, cfg, id)
    ensures Serialise(PacketRead(m, cfg, id)) <= Encode(m, cfg, id)
  {
    WireStart(m, cfg, id);
    PiecesPrefix(Wire(m, cfg, id).value, PacketRead(m, cfg, id));
    CutPrefix(Wire(m, cfg, id).value, Serialise(PacketRead(m, cfg, id)));
  }

  lemma CutPrefix(w: bytes, s: bytes)
    requires s <= w && |s| <= |w| % 0x1_0000
    ensures s <= w[..|w| % 0x1_0000]
  {
  }

  lemma ReadDecodes(m: Message, cfg: Config, id: uint16)
    requires Wire(m, cfg, id).Some? && |Wire(m, cfg, id).value| >= 3 && IsRead(m, cfg, id)
    ensures Decode(Encode(m, cfg, id)) == Meaning(PacketRead(m, cfg, id))
  {
    ReadIsPrefix(m, cfg, id);
    DecodesPacket(FRESH, Encode(m, cfg, id), PacketRead(m, cfg, id));
  }

  lemma DecodedIsRead(m: Message, cfg: Config, id: uint16)
    requires Wire(m, cfg, id).Some? && |Wire(m, cfg, id).value| >= 3
    requires Decode(Encode(m, cfg, id)).kind != ERR_INTERNAL
    ensures IsRead(m, cfg, id)
  {
    var q := PacketBehind(Encode(m, cfg, id));
    assert Serialise(q) <= Wire(m, cfg, id).value;
    BehindIsRead(m, cfg, id, q);
  }

  /** The message that comes out, or none if the datagram is malformed. */
  function ComesBack(m: Message, cfg: Config, id: uint16): Option<Message>
    requires Wire(m, cfg, id).Some? && |Wire(m, cfg, id).value| >= 3
  {
    if IsRead(m, cfg, id) then Some(Meaning(PacketRead(m, cfg, id))) else None
  }

  /**
   * What the decoder makes of anything that the encoder sends, for every message and
   * configuration, cut datagrams and fields with zero bytes included: the first pieces
   * of the layout, if the guards accept them, they are within the limits and they end
   * within what is sent; and else the datagram is malformed.
   */
  lemma EncodedRead(m: Message, cfg: Config, id: uint16)
    requires Wire(m, cfg, id).Some?
    ensures |Wire(m, cfg, id).value| >= 3
    ensures match ComesBack(m, cfg, id)
            case Some(r) => Decode(Encode(m, cfg, id)) == r
            case None => Decode(Encode(m, cfg, id)).kind == ERR_INTERNAL
  {
    WireStart(m, cfg, id);
    if IsRead(m, cfg, id) {
      ReadDecodes(m, cfg, id);
    } else if Decode(Encode(m, cfg, id)).kind != ERR_INTERNAL {
      DecodedIsRead(m, cfg, id);
    }
  }

  /**
   * JOIN: the display name comes back exactly when what is read of the datagram is
   * accepted and its second piece is that name, for every channel and name.
   */
  lemma JoinRoundTrip(m: Message, cfg: Config, id: uint16)
    requires m.kind == JOIN
    ensures |Wire(m, cfg, id).value| >= 3
    ensures Decode(Encode(m, cfg, id)) == Message(JOIN, [], m.author, false, Swap(id), 0) <==>
            IsRead(m, cfg, id) && PacketRead(m, cfg, id).fields[1] == m.author
  {
    EncodedRead(m, cfg, id);
  }

  /** AUTH: the same for the secret, which comes back as the text, and the third piece. */
  lemma AuthRoundTrip(m: Message, cfg: Config, id: uint16)
    requires m.kind == AUTH
    ensures |Wire(m, cfg, id).value| >= 3
    ensures Decode(Encode(m, cfg, id)) == Message(AUTH, cfg.secret, [], false, Swap(id), 0) <==>
            IsRead(m, cfg, id) && PacketRead(m, cfg, id).fields[2] == cfg.secret
  {
    EncodedRead(m, cfg, id);
  }

  /** Fields without zero bytes are read as they were written, if they are read at all. */
  lemma ReadWhole(m: Message, cfg: Config, id: uint16)
    requires Wire(m, cfg, id).Some? && |Wire(m, cfg, id).value| >= 3 && IsRead(m, cfg, id)
    requires forall k :: 0 <= k < |PacketOf(m, cfg, id).fields| ==> ZeroFree(PacketOf(m, cfg, id).fields[k])
    ensures PacketRead(m, cfg, id) == PacketOf(m, cfg, id) && |Wire(m, cfg, id).value| < 0x1_0000
  {
    WireIsPacket(m, cfg, id);
    WireStart(m, cfg, id);
    FieldsArePieces(PacketOf(m, cfg, id));
  }

  lemma FieldsArePieces(p: Packet)
    requires p.kind != REPLY && forall k :: 0 <= k < |p.fields| ==> ZeroFree(p.fields[k])
    ensures |Serialise(p)| >= 3 && Pieces(Serialise(p), 3, |p.fields|) == p.fields
  {
    PrefixParts(Serialise(p), p);
    PlainBody(p);
    AtIsPieces(Serialise(p), 3, p.fields);
  }

  predicate JoinFits(m: Message, cfg: Config) {
    && IsField(CHANNEL_FIELD, cfg.channel) && IsField(NAME_FIELD, m.author) && |m.author| <= MAX_AUTHOR
    && |cfg.channel| + |m.author| + 5 < 0x1_0000
  }

  /**
   * For a channel without a zero byte that means: the decoder's guards let the channel
   * and the name through, the name is short enough and the datagram's size fits in 16
   * bits. The channel never comes back.
   */
  lemma JoinRoundTripZeroFree(m: Message, cfg: Config, id: uint16)
    requires m.kind == JOIN && ZeroFree(cfg.channel)
    ensures Decode(Encode(m, cfg, id)) == Message(JOIN, [], m.author, false, Swap(id), 0) <==> JoinFits(m, cfg)
  {
    JoinRoundTrip(m, cfg, id);
    if JoinFits(m, cfg) {
      PacketRoundTrip(m, cfg, id);
    } else if IsRead(m, cfg, id) && PacketRead(m, cfg, id).fields[1] == m.author {
      FieldsZeroFree(PacketRead(m, cfg, id));
      ReadWhole(m, cfg, id);
      ReadFields(PacketOf(m, cfg, id));
    }
  }

  lemma ReadFields(p: Packet)
    requires WellFormed(p)
    ensures forall k :: 0 <= k < |p.fields| ==> IsField(Fields(p.kind)[k], p.fields[k])
  {
    forall k | 0 <= k < |p.fields| ensures IsField(Fields(p.kind)[k], p.fields[k]) {
      assert IsField(Fields(p.kind)[0 + k], p.fields[k]);
    }
  }

  predicate AuthFits(m: Message, cfg: Config) {
    && IsField(SECRET_FIELD, cfg.username) && IsField(NAME_FIELD, m.author) && IsField(SECRET_FIELD, cfg.secret)
    && |cfg.secret| <= MAX_TEXT && |cfg.username| + |m.author| + |cfg.secret| + 6 < 0x1_0000
  }

  lemma AuthReadFits(m: Message, cfg: Config, id: uint16)
    requires m.kind == AUTH && ZeroFree(cfg.username) && ZeroFree(m.author)
    requires |Wire(m, cfg, id).value| >= 3 && IsRead(m, cfg, id) && PacketRead(m, cfg, id).fields[2] == cfg.secret
    ensures AuthFits(m, cfg)
  {
    var p := PacketOf(m, cfg, id);
    FieldsZeroFree(PacketRead(m, cfg, id));
    ReadWhole(m, cfg, id);
    ReadFields(p);
    assert p.fields[0] == cfg.username && p.fields[1] == m.author && p.fields[2] == cfg.secret;
    AuthSize(m, cfg, id);
  }

  lemma AuthSize(m: Message, cfg: Config, id: uint16)
    requires m.kind == AUTH
    ensures |Wire(m, cfg, id).value| == |cfg.username| + |m.author| + |cfg.secret| + 6
  {
  }

  /**
   * For names without a zero byte that means: the decoder's guards let all three fields
   * through, the secret is within the text limit and the datagram's size fits in 16
   * bits. The user and display names never come back.
   */
  lemma AuthRoundTripZeroFree(m: Message, cfg: Config, id: uint16)
    requires m.kind == AUTH && ZeroFree(cfg.username) && ZeroFree(m.author)
    ensures Decode(Encode(m, cfg, id)) == Message(AUTH, cfg.secret, [], false, Swap(id), 0) <==> AuthFits(m, cfg)
  {
    AuthRoundTrip(m, cfg, id);
    if AuthFits(m, cfg) {
      PacketRoundTrip(m, cfg, id);
    } else if IsRead(m, cfg, id) && PacketRead(m, cfg, id).fields[2] == cfg.secret {
      AuthReadFits(m, cfg, id);
    }
  }

  lemma ForeignChannel(m: Message, cfg: Config, id: uint16)
    requires m.kind == JOIN && ZeroFree(cfg.channel) && !IsField(CHANNEL_FIELD, cfg.channel)
    ensures Decode(Encode(m, cfg, id)) != Message(JOIN, [], m.author, false, Swap(id), 0)
  {
    JoinRoundTripZeroFree(m, cfg, id);
  }

  lemma ForeignUser(m: Message, cfg: Config, id: uint16)
    requires m.kind == AUTH && ZeroFree(cfg.username) && ZeroFree(m.author)
    requires !IsField(SECRET_FIELD, cfg.username)
    ensures Decode(Encode(m, cfg, id)) != Message(AUTH, cfg.secret, [], false, Swap(id), 0)
  {
    AuthRoundTripZeroFree(m, cfg, id);
  }

  lemma HashIsForeign(s: bytes)
    requires s == Ascii("#room")
    ensures ZeroFree(s) && !IsField(CHANNEL_FIELD, s)
  {
    assert s[0] == '#' as int;
  }

  lemma AtIsForeign(s: bytes)
    requires s == Ascii("user@host")
    ensures ZeroFree(s) && !IsField(SECRET_FIELD, s)
  {
    assert s[4] == '@' as int;
  }

  /** `/join #room` passes the client's own checks and the encoder, but not the decoder. */
  lemma HashRoomLost(m: Message, cfg: Config, id: uint16)
    requires m.kind == JOIN && cfg.channel == Ascii("#room")
    ensures Decode(Encode(m, cfg, id)) != Message(JOIN, [], m.author, false, Swap(id), 0)
  {
    HashIsForeign(cfg.channel);
    ForeignChannel(m, cfg, id);
  }

  /** The same of a user name with an at sign. */
  lemma UserAtHostLost(m: Message, cfg: Config, id: uint16)
    requires m.kind == AUTH && cfg.username == Ascii("user@host") && ZeroFree(m.author)
    ensures Decode(Encode(m, cfg, id)) != Message(AUTH, cfg.secret, [], false, Swap(id), 0)
  {
    AtIsForeign(cfg.username);
    ForeignUser(m, cfg, id);
  }
}
