/** Bytes, 16-bit words and the character classes of the C locale. */
module Bytes {

  type byte = x: nat | x < 256
  type bytes = seq<byte>
  type uint16 = x: nat | x < 0x1_0000

  /** What a UDP receive hands over: at most 65535 bytes. */
  type Datagram = d: bytes | |d| < 0x1_0000 witness []

  datatype Option<+T> = None | Some(value: T)

  function High(x: uint16): byte { x / 256 }

  function Low(x: uint16): byte { x % 256 }

  function Word(high: byte, low: byte): uint16 { high * 256 + low }

  /** A word in network byte order. */
  function Octets(x: uint16): bytes { [High(x), Low(x)] }

  /** `htons` and `ntohs` on a little-endian host. */
  function Swap(x: uint16): uint16 { Word(Low(x), High(x)) }

  lemma SwapTwice(x: uint16)
    ensures Swap(Swap(x)) == x
    ensures High(Swap(x)) == Low(x) && Low(Swap(x)) == High(x)
    ensures Swap(x) == x <==> High(x) == Low(x)
  {
    WordParts(Low(x), High(x));
  }

  lemma WordParts(high: byte, low: byte)
    ensures High(Word(high, low)) == high && Low(Word(high, low)) == low
  {
  }

  /** The bytes of a string literal. */
  function Ascii(s: string): bytes {
    seq(|s|, i requires 0 <= i < |s| => s[i] as int % 256)
  }

  /** The names of the templates and formats are made of letters. */
  predicate Letters(s: string) {
    s != "" && forall i :: 0 <= i < |s| ==> 'a' <= s[i] <= 'z' || 'A' <= s[i] <= 'Z'
  }

  predicate ZeroFree(s: bytes) { forall k :: 0 <= k < |s| ==> s[k] != 0 }

  predicate IsPrint(b: byte) { 0x20 <= b <= 0x7E }

  predicate IsDigit(b: byte) { '0' as int <= b <= '9' as int }

  predicate IsAlpha(b: byte) {
    'a' as int <= b <= 'z' as int || 'A' as int <= b <= 'Z' as int
  }

  predicate IsAlnum(b: byte) { IsAlpha(b) || IsDigit(b) }

  predicate IsHex(b: byte) {
    IsDigit(b) || 'a' as int <= b <= 'f' as int || 'A' as int <= b <= 'F' as int
  }

  /** The value of a hexadecimal digit; the encoder asks for no other byte. */
  function HexValue(b: byte): nat {
    if IsDigit(b) then b - '0' as int
    else if 'a' as int <= b <= 'f' as int then b - 'a' as int + 10
    else if 'A' as int <= b <= 'F' as int then b - 'A' as int + 10
    else 0
  }
}
