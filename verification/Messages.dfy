/** The message record every component exchanges, and the user's settings. */
module Messages {
  import opened Bytes

  datatype MessageType = NONE | CONFIRM | REPLY | AUTH | JOIN | MSG | ERR_INTERNAL | ERR | BYE | PING {
    /** The enumerator's value; it is also the type byte on the wire. */
    function Code(): byte {
      match this
      case NONE => 0x2A
      case CONFIRM => 0x00
      case REPLY => 0x01
      case AUTH => 0x02
      case JOIN => 0x03
      case MSG => 0x04
      case ERR_INTERNAL => 0x45
      case ERR => 0xFE
      case BYE => 0xFF
      case PING => 0xFD
    }
  }

  const MAX_TEXT := 60000
  const MAX_AUTHOR := 20

  /** A message that carries this ID is given a fresh one when it is encoded. */
  const UNASSIGNED: uint16 := 65535

  datatype Result<+T> = Ok(value: T) | Thrown(message: T)

  /** Messages are copied on every assignment, so they are values here. */
  datatype Message = Message(kind: MessageType, text: bytes, author: bytes, isOk: bool, id: uint16, refId: uint16) {

    /** A setter that throws leaves the message as it was. */
    function SetText(t: bytes): (r: Result<Message>)
    {
      if |t| <= MAX_TEXT then Ok(this.(text := t)) else Thrown(this)
    }

    function SetAuthor(a: bytes): (r: Result<Message>)
    {
      if |a| <= MAX_AUTHOR then Ok(this.(author := a)) else Thrown(this)
    }
  }

  function New(kind: MessageType, author: bytes): Message {
    Message(kind, [], author, false, UNASSIGNED, 0)
  }

  /** The part of the configuration that user commands change. */
  datatype Config = Config(displayName: bytes, username: bytes, secret: bytes, channel: bytes)
}
