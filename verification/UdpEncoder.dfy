/** `encodeBinary`: the shipped templates, the value map, and the message ID counter. */
module UdpEncoder {
  import opened Bytes
  import opened Messages
  import opened UdpTemplate
  import opened Sequences

  function NumberTemplate(first: string, second: string): string {
    "{%b:" + first + "}" + ("{%h:" + second + "}")
  }

  const HEADER := NumberTemplate("Type", "messageID")
  const REFERENCE := NumberTemplate("Result", "rMessageID")

  function FieldTemplate(name: string): string { "{%s:" + name + "}\\x00" }

  /** `udpMessageFormats`, with its recurring parts named. */
  function Template(kind: MessageType): Option<string> {
    match kind
    case CONFIRM => Some(NumberTemplate("Type", "rMessageID"))
    case ERR => Some(HEADER + FieldTemplate("DisplayName") + FieldTemplate("MessageContent"))
    case REPLY => Some(HEADER + REFERENCE + FieldTemplate("MessageContent"))
    case AUTH => Some(HEADER + FieldTemplate("Username") + FieldTemplate("DisplayName") + FieldTemplate("Secret"))
    case JOIN => Some(HEADER + FieldTemplate("ChannelID") + FieldTemplate("DisplayName"))
    case MSG => Some(HEADER + FieldTemplate("DisplayName") + FieldTemplate("MessageContent"))
    case BYE => Some(HEADER + FieldTemplate("DisplayName"))
    case PING => Some(HEADER)
    case NONE => None
    case ERR_INTERNAL => None
  }

  /** The value map; `id` is the message's own ID or the one just drawn from the counter. */
  function Values(m: Message, cfg: Config, id: uint16): map<bytes, Value> {
    map[
      Ascii("DisplayName") := String(m.author),
      Ascii("MessageContent") := String(m.text),
      Ascii("Username") := String(cfg.username),
      Ascii("Secret") := String(cfg.secret),
      Ascii("Type") := Number(m.kind.Code()),
      Ascii("ChannelID") := String(cfg.channel),
      Ascii("messageID") := Number(Swap(id)),
      Ascii("rMessageID") := Number(m.refId)
    ]
  }

  // ------------------------------------------------------------- the wire layout

  function Field(s: bytes): bytes { s + [0] }

  /** Type byte and message ID, low byte first: the ID is swapped before its high byte is written first. */
  function Header(kind: MessageType, id: uint16): bytes { [kind.Code(), Low(id), High(id)] }

  /** The datagram for a message, stated field by field. REPLY has no value for its result. */
  function Wire(m: Message, cfg: Config, id: uint16): Option<bytes> {
    match m.kind
    case CONFIRM => Some([CONFIRM.Code()] + Octets(m.refId))
    case PING => Some(Header(PING, id))
    case BYE => Some(Header(BYE, id) + Field(m.author))
    case MSG => Some(Header(MSG, id) + Field(m.author) + Field(m.text))
    case ERR => Some(Header(ERR, id) + Field(m.author) + Field(m.text))
    case JOIN => Some(Header(JOIN, id) + Field(cfg.channel) + Field(m.author))
    case AUTH => Some(Header(AUTH, id) + Field(cfg.username) + Field(m.author) + Field(cfg.secret))
    case _ => None
  }

  // ---------------------------------------- the templates produce the wire layout

  function FieldTokens(name: string): seq<Token> { [Sub(Text, Ascii(name)), Code(Ascii("00"))] }

  function NumberTokens(first: string, second: string): seq<Token> {
    [Sub(OneByte, Ascii(first)), Sub(Short, Ascii(second))]
  }

  function HeaderTokens(): seq<Token> { NumberTokens("Type", "messageID") }

  function ReferenceTokens(): seq<Token> { NumberTokens("Result", "rMessageID") }

  function Tokens(kind: MessageType): seq<Token> {
    match kind
    case CONFIRM => NumberTokens("Type", "rMessageID")
    case ERR => HeaderTokens() + FieldTokens("DisplayName") + FieldTokens("MessageContent")
    case REPLY => HeaderTokens() + ReferenceTokens() + FieldTokens("MessageContent")
    case AUTH => HeaderTokens() + FieldTokens("Username") + FieldTokens("DisplayName") + FieldTokens("Secret")
    case JOIN => HeaderTokens() + FieldTokens("ChannelID") + FieldTokens("DisplayName")
    case MSG => HeaderTokens() + FieldTokens("DisplayName") + FieldTokens("MessageContent")
    case BYE => HeaderTokens() + FieldTokens("DisplayName")
    case PING => HeaderTokens()
    case _ => []
  }

  lemma AsciiConcat(a: string, b: string)
    ensures Ascii(a + b) == Ascii(a) + Ascii(b)
  {
  }

  predicate Unambiguous(ts: seq<Token>) {
    forall t :: t in ts ==> IsToken(t) && (t.Code? ==> |t.digits| == 2)
  }

  lemma {:induction false} UnambiguousIsTemplate(ts: seq<Token>)
    requires Unambiguous(ts)
    ensures IsTemplate(ts)
  {
    if ts != [] { UnambiguousIsTemplate(ts[1..]); }
  }

  lemma {:induction false} TextConcat(a: seq<Token>, b: seq<Token>)
    ensures TemplateText(a + b) == TemplateText(a) + TemplateText(b)
  {
    if a == [] {
      assert a + b == b;
    } else {
      assert (a + b)[1..] == a[1..] + b;
      TextConcat(a[1..], b);
      Regroup(TokenText(a[0]), TemplateText(a[1..]), TemplateText(b));
    }
  }

  lemma {:induction false} AssembleConcat(a: seq<Token>, b: seq<Token>, values: map<bytes, Value>, d: bytes)
    requires Assemble(a, values) == Data(d)
    ensures Assemble(a + b, values) == Prepend(d, Assemble(b, values))
  {
    if a == [] {
      assert a + b == b;
    } else {
      assert (a + b)[1..] == a[1..] + b;
      AssembleConcat(a[1..], b, values, Assemble(a[1..], values).data);
      PrependTwice(Substitute(a[0], values).data, Assemble(a[1..], values).data, Assemble(b, values));
    }
  }

  lemma PairText(a: Token, b: Token)
    ensures TemplateText([a, b]) == TokenText(a) + TokenText(b)
  {
    assert [a, b][1..] == [b] && [b][1..] == [];
    assert TemplateText([b]) == TokenText(b) + TemplateText([]);
    assert TokenText(b) + [] == TokenText(b);
  }

  lemma TextText(name: string)
    ensures TokenText(Sub(Text, Ascii(name))) == Ascii("{%s:" + name + "}")
  {
  }

  lemma ZeroText()
    ensures TokenText(Code(Ascii("00"))) == Ascii("\\x00")
  {
  }

  lemma FieldParts(name: string)
    ensures FieldTemplate(name) == ("{%s:" + name + "}") + "\\x00"
  {
    Regroup("{%s:" + name, "}", "\\x00");
  }

  lemma FieldText(name: string)
    ensures TemplateText(FieldTokens(name)) == Ascii(FieldTemplate(name))
  {
    PairText(Sub(Text, Ascii(name)), Code(Ascii("00")));
    TextText(name);
    ZeroText();
    AsciiConcat("{%s:" + name + "}", "\\x00");
    FieldParts(name);
  }

  lemma OneByteText(name: string)
    ensures TokenText(Sub(OneByte, Ascii(name))) == Ascii("{%b:" + name + "}")
  {
  }

  lemma ShortText(name: string)
    ensures TokenText(Sub(Short, Ascii(name))) == Ascii("{%h:" + name + "}")
  {
  }

  lemma NumberText(first: string, second: string)
    ensures TemplateText(NumberTokens(first, second)) == Ascii(NumberTemplate(first, second))
  {
    PairText(Sub(OneByte, Ascii(first)), Sub(Short, Ascii(second)));
    OneByteText(first);
    ShortText(second);
    AsciiConcat("{%b:" + first + "}", "{%h:" + second + "}");
  }

  lemma JoinText(a: seq<Token>, b: seq<Token>, s: string, t: string)
    requires TemplateText(a) == Ascii(s) && TemplateText(b) == Ascii(t)
    ensures TemplateText(a + b) == Ascii(s + t)
  {
    TextConcat(a, b);
    AsciiConcat(s, t);
  }

  lemma AddField(a: seq<Token>, s: string, name: string)
    requires TemplateText(a) == Ascii(s)
    ensures TemplateText(a + FieldTokens(name)) == Ascii(s + FieldTemplate(name))
  {
    FieldText(name);
    JoinText(a, FieldTokens(name), s, FieldTemplate(name));
  }

  lemma TokensText(kind: MessageType)
    requires Template(kind).Some?
    ensures TemplateText(Tokens(kind)) == Ascii(Template(kind).value)
  {
    NumberText("Type", "messageID");
    match kind
    case PING =>
    case CONFIRM => NumberText("Type", "rMessageID");
    case BYE => AddField(HeaderTokens(), HEADER, "DisplayName");
    case MSG =>
      AddField(HeaderTokens(), HEADER, "DisplayName");
      AddField(HeaderTokens() + FieldTokens("DisplayName"), HEADER + FieldTemplate("DisplayName"), "MessageContent");
    case ERR =>
      AddField(HeaderTokens(), HEADER, "DisplayName");
      AddField(HeaderTokens() + FieldTokens("DisplayName"), HEADER + FieldTemplate("DisplayName"), "MessageContent");
    case JOIN =>
      AddField(HeaderTokens(), HEADER, "ChannelID");
      AddField(HeaderTokens() + FieldTokens("ChannelID"), HEADER + FieldTemplate("ChannelID"), "DisplayName");
    case AUTH =>
      AddField(HeaderTokens(), HEADER, "Username");
      AddField(HeaderTokens() + FieldTokens("Username"), HEADER + FieldTemplate("Username"), "DisplayName");
      AddField(HeaderTokens() + FieldTokens("Username") + FieldTokens("DisplayName"),
               HEADER + FieldTemplate("Username") + FieldTemplate("DisplayName"), "Secret");
    case REPLY =>
      NumberText("Result", "rMessageID");
      JoinText(HeaderTokens(), ReferenceTokens(), HEADER, REFERENCE);
      AddField(HeaderTokens() + ReferenceTokens(), HEADER + REFERENCE, "MessageContent");
  }

  lemma LettersAreName(s: string)
    requires Letters(s)
    ensures IsName(Ascii(s))
  {
  }

  lemma FieldNames()
    ensures IsName(Ascii("DisplayName")) && IsName(Ascii("MessageContent"))
    ensures IsName(Ascii("Username")) && IsName(Ascii("Secret")) && IsName(Ascii("ChannelID"))
  {
    LettersAreName("DisplayName");
    LettersAreName("MessageContent");
    LettersAreName("Username");
    LettersAreName("Secret");
    LettersAreName("ChannelID");
  }

  lemma NumberNames()
    ensures IsName(Ascii("Type")) && IsName(Ascii("Result"))
    ensures IsName(Ascii("messageID")) && IsName(Ascii("rMessageID"))
  {
    LettersAreName("Type");
    LettersAreName("Result");
    LettersAreName("messageID");
    LettersAreName("rMessageID");
  }

  lemma UnambiguousConcat(a: seq<Token>, b: seq<Token>)
    requires Unambiguous(a) && Unambiguous(b)
    ensures Unambiguous(a + b)
  {
  }

  lemma FieldUnambiguous(a: seq<Token>, name: string)
    requires Unambiguous(a) && IsName(Ascii(name))
    ensures Unambiguous(a + FieldTokens(name))
  {
    UnambiguousConcat(a, FieldTokens(name));
  }

  lemma TokensUnambiguous(kind: MessageType)
    ensures Unambiguous(Tokens(kind))
  {
    FieldNames();
    NumberNames();
    match kind
    case BYE => FieldUnambiguous(HeaderTokens(), "DisplayName");
    case MSG =>
      FieldUnambiguous(HeaderTokens(), "DisplayName");
      FieldUnambiguous(HeaderTokens() + FieldTokens("DisplayName"), "MessageContent");
    case ERR =>
      FieldUnambiguous(HeaderTokens(), "DisplayName");
      FieldUnambiguous(HeaderTokens() + FieldTokens("DisplayName"), "MessageContent");
    case JOIN =>
      FieldUnambiguous(HeaderTokens(), "ChannelID");
      FieldUnambiguous(HeaderTokens() + FieldTokens("ChannelID"), "DisplayName");
    case AUTH =>
      FieldUnambiguous(HeaderTokens(), "Username");
      FieldUnambiguous(HeaderTokens() + FieldTokens("Username"), "DisplayName");
      FieldUnambiguous(HeaderTokens() + FieldTokens("Username") + FieldTokens("DisplayName"), "Secret");
    case REPLY =>
      UnambiguousConcat(HeaderTokens(), ReferenceTokens());
      FieldUnambiguous(HeaderTokens() + ReferenceTokens(), "MessageContent");
    case _ =>
  }

  /** Every shipped template lies in the template language, with these tokens. */
  lemma TemplateTokens(kind: MessageType)
    requires Template(kind).Some?
    ensures Tokenise(Ascii(Template(kind).value)) == Some(Tokens(kind))
  {
    TokensUnambiguous(kind);
    UnambiguousIsTemplate(Tokens(kind));
    TokensText(kind);
    TokeniseExact(Ascii(Template(kind).value), Tokens(kind));
  }

  lemma Lookups(m: Message, cfg: Config, id: uint16)
    ensures var v := Values(m, cfg, id);
            && Ascii("DisplayName") in v && v[Ascii("DisplayName")] == String(m.author)
            && Ascii("MessageContent") in v && v[Ascii("MessageContent")] == String(m.text)
            && Ascii("Username") in v && v[Ascii("Username")] == String(cfg.username)
            && Ascii("Secret") in v && v[Ascii("Secret")] == String(cfg.secret)
            && Ascii("ChannelID") in v && v[Ascii("ChannelID")] == String(cfg.channel)
            && Ascii("Type") in v && v[Ascii("Type")] == Number(m.kind.Code())
            && Ascii("messageID") in v && v[Ascii("messageID")] == Number(Swap(id))
            && Ascii("rMessageID") in v && v[Ascii("rMessageID")] == Number(m.refId)
            && Ascii("Result") !in v
  {
    assert Ascii("ChannelID")[0] != Ascii("messageID")[0];
    assert Ascii("Secret")[0] != Ascii("Result")[0];
  }

  lemma AssemblePair(a: Token, b: Token, values: map<bytes, Value>, x: bytes, y: bytes)
    requires Substitute(a, values) == Data(x) && Substitute(b, values) == Data(y)
    ensures Assemble([a, b], values) == Data(x + y)
  {
    assert [a, b][1..] == [b] && [b][1..] == [];
    assert Assemble([b], values) == Prepend(y, Assemble([], values));
    assert y + [] == y;
  }

  lemma AddFieldBytes(a: seq<Token>, values: map<bytes, Value>, d: bytes, name: string, s: bytes)
    requires Assemble(a, values) == Data(d)
    requires Ascii(name) in values && values[Ascii(name)] == String(s)
    ensures Assemble(a + FieldTokens(name), values) == Data(d + Field(s))
  {
    var zeros := Ascii("00");
    assert zeros[..1][..0] == [] && HexNumber([]) == 0;
    assert zeros[1] == '0' as int && zeros[..1][0] == '0' as int;
    assert HexNumber(zeros[..1]) == 0 && HexNumber(zeros) == 0;
    AssemblePair(Sub(Text, Ascii(name)), Code(zeros), values, s, [0]);
    AssembleConcat(a, FieldTokens(name), values, d);
  }

  lemma ShortBytes(x: uint16)
    ensures NumberBytes(Short, x) == Octets(x)
  {
    assert x / 256 % 256 == x / 256;
  }

  lemma HeaderBytes(m: Message, cfg: Config, id: uint16)
    ensures Assemble(HeaderTokens(), Values(m, cfg, id)) == Data(Header(m.kind, id))
  {
    Lookups(m, cfg, id);
    ShortBytes(Swap(id));
    AssemblePair(Sub(OneByte, Ascii("Type")), Sub(Short, Ascii("messageID")), Values(m, cfg, id),
                 [m.kind.Code()], Octets(Swap(id)));
    SwapTwice(id);
    assert [m.kind.Code()] + Octets(Swap(id)) == Header(m.kind, id);
  }

  lemma ConfirmBytes(m: Message, cfg: Config, id: uint16)
    requires m.kind == CONFIRM
    ensures Assemble(Tokens(CONFIRM), Values(m, cfg, id)) == Data([CONFIRM.Code()] + Octets(m.refId))
  {
    Lookups(m, cfg, id);
    ShortBytes(m.refId);
    AssemblePair(Sub(OneByte, Ascii("Type")), Sub(Short, Ascii("rMessageID")), Values(m, cfg, id),
                 [CONFIRM.Code()], Octets(m.refId));
  }

  lemma ReplyFails(m: Message, cfg: Config, id: uint16)
    ensures Assemble(Tokens(REPLY), Values(m, cfg, id)) == OutOfRange
  {
    Lookups(m, cfg, id);
    HeaderBytes(m, cfg, id);
    var rest := ReferenceTokens() + FieldTokens("MessageContent");
    assert Tokens(REPLY) == HeaderTokens() + rest;
    assert rest[0] == Sub(OneByte, Ascii("Result"));
    assert Assemble(rest, Values(m, cfg, id)) == OutOfRange;
    AssembleConcat(HeaderTokens(), rest, Values(m, cfg, id), Header(m.kind, id));
  }

  lemma TokensGiveWire(m: Message, cfg: Config, id: uint16)
    requires Template(m.kind).Some?
    ensures Assemble(Tokens(m.kind), Values(m, cfg, id)) ==
            match Wire(m, cfg, id) { case Some(d) => Data(d) case None => OutOfRange }
  {
    var v, h, t := Values(m, cfg, id), Header(m.kind, id), HeaderTokens();
    HeaderBytes(m, cfg, id);
    Lookups(m, cfg, id);
    match m.kind
    case CONFIRM => ConfirmBytes(m, cfg, id);
    case PING =>
    case BYE => AddFieldBytes(t, v, h, "DisplayName", m.author);
    case MSG =>
      AddFieldBytes(t, v, h, "DisplayName", m.author);
      AddFieldBytes(t + FieldTokens("DisplayName"), v, h + Field(m.author), "MessageContent", m.text);
    case ERR =>
      AddFieldBytes(t, v, h, "DisplayName", m.author);
      AddFieldBytes(t + FieldTokens("DisplayName"), v, h + Field(m.author), "MessageContent", m.text);
    case JOIN =>
      AddFieldBytes(t, v, h, "ChannelID", cfg.channel);
      AddFieldBytes(t + FieldTokens("ChannelID"), v, h + Field(cfg.channel), "DisplayName", m.author);
    case AUTH =>
      AddFieldBytes(t, v, h, "Username", cfg.username);
      AddFieldBytes(t + FieldTokens("Username"), v, h + Field(cfg.username), "DisplayName", m.author);
      AddFieldBytes(t + FieldTokens("Username") + FieldTokens("DisplayName"), v,
                    h + Field(cfg.username) + Field(m.author), "Secret", cfg.secret);
    case REPLY => ReplyFails(m, cfg, id);
  }

  /**
   * Interpreting the shipped template of a message yields its documented layout;
   * REPLY, whose template names a value nobody supplies, cannot be encoded.
   */
  lemma TemplateGivesWire(m: Message, cfg: Config, id: uint16)
    requires Template(m.kind).Some?
    ensures Render(Ascii(Template(m.kind).value), Values(m, cfg, id)) ==
            match Wire(m, cfg, id) { case Some(d) => Data(d) case None => OutOfRange }
    ensures Wire(m, cfg, id).None? <==> m.kind == REPLY
  {
    TemplateTokens(m.kind);
    RenderIsTokenwise(Ascii(Template(m.kind).value), Values(m, cfg, id));
    TokensGiveWire(m, cfg, id);
  }

  // ------------------------------------------------------------------ the encoder

  /** The ID a message is sent with when `issued` IDs have been drawn from the counter. */
  function IdFor(m: Message, issued: nat): uint16 {
    if m.id != UNASSIGNED then m.id else issued % 0x1_0000
  }

  function IssuedAfter(m: Message, issued: nat): nat {
    if m.id != UNASSIGNED then issued else issued + 1
  }

  /** What `send` is given: the buffer cut to its length modulo 2^16, for the length is a `uint16_t`. */
  function Encode(m: Message, cfg: Config, id: uint16): Datagram {
    match Wire(m, cfg, id)
    case Some(d) => d[..|d| % 0x1_0000]
    case None => []
  }

  /** Look the template up and expand it; every failure yields no bytes. */
  method Fill(m: Message, cfg: Config, id: uint16) returns (data: bytes)
    ensures data == match Wire(m, cfg, id) { case Some(d) => d case None => [] }
  {
    var template := Template(m.kind);
    if template.None? { return []; }
    TemplateGivesWire(m, cfg, id);
    var rendered := Expand(Ascii(template.value), Values(m, cfg, id));
    data := if rendered.Data? then rendered.data else [];
  }

  class UdpEncoder {
    /** The static counter. */
    var messageID: uint16
    /** The number of IDs ever drawn from it. */
    ghost var issued: nat

    ghost predicate Valid()
      reads this
    {
      messageID == issued % 0x1_0000
    }

    constructor ()
      ensures Valid() && issued == 0
    {
      messageID, issued := 0, 0;
    }

    /** `messageID++` on 16 bits. */
    method Draw() returns (id: uint16)
      requires Valid()
      modifies this
      ensures Valid() && issued == old(issued) + 1 && id == old(issued) % 0x1_0000
    {
      id := messageID;
      messageID := if messageID == 0xFFFF then 0 else messageID + 1;
      issued := issued + 1;
    }

    /** The counter moves whenever the message has no ID, even if encoding then fails. */
    method EncodeBinary(m: Message, cfg: Config) returns (data: bytes, size: uint16)
      requires Valid()
      modifies this
      ensures Valid() && issued == IssuedAfter(m, old(issued))
      ensures size == |data| % 0x1_0000
      ensures data[..size] == Encode(m, cfg, IdFor(m, old(issued)))
    {
      var id := m.id;
      if m.id == UNASSIGNED { id := Draw(); }
      data := Fill(m, cfg, id);
      size := |data| % 0x1_0000;
    }
  }
}
