/**
 Two 32-bit words on the wire, for either host byte order
 (src/remote/RemoteThroughput.cpp, src/master/MasterThroughput.cpp).
 */
module ResultCodec {
  import opened Events

  const WORDS := 0x1_0000_0000

  type Word = w: int | 0 <= w < 0x1_0000_0000

  /** An integer cut to 32 bits. */
  function Wrap(x: int): Word {
    x % WORDS
  }

  lemma SmallWrap(x: int)
    requires 0 <= x < WORDS
    ensures Wrap(x) == x
  {
  }

  datatype Order = BigEndian | LittleEndian

  /** The bytes of a word, least significant first. */
  function Digits(w: Word): seq<Byte> {
    [w % 256, w / 256 % 256, w / 0x1_0000 % 256, w / 0x100_0000]
  }

  function FromDigits(d: seq<Byte>): Word
    requires |d| == 4
  {
    var d0: int, d1: int, d2: int, d3: int := d[0], d[1], d[2], d[3];
    d0 + 256 * d1 + 0x1_0000 * d2 + 0x100_0000 * d3
  }

  function Reverse4(d: seq<Byte>): seq<Byte>
    requires |d| == 4
  {
    [d[3], d[2], d[1], d[0]]
  }

  /** How a word lies in the host's memory, and back. */
  function Memory(host: Order, w: Word): seq<Byte> {
    if host == LittleEndian then Digits(w) else Reverse4(Digits(w))
  }

  function Load(host: Order, bytes: seq<Byte>): Word
    requires |bytes| == 4
  {
    if host == LittleEndian then FromDigits(bytes) else FromDigits(Reverse4(bytes))
  }

  /** htonl and ntohl: swap the bytes on a little-endian host only. */
  function NetworkOrder(host: Order, w: Word): Word {
    if host == LittleEndian then FromDigits(Reverse4(Digits(w))) else w
  }

  /** Dividing by 256 again and again yields the digits one by one. */
  lemma Division(w: int)
    requires w >= 0
    ensures w == 256 * (w / 256) + w % 256 && 0 <= w % 256 < 256
    ensures w / 0x1_0000 == w / 256 / 256 && w / 0x100_0000 == w / 256 / 256 / 256
  {
  }

  lemma DigitsInverse(w: Word)
    ensures FromDigits(Digits(w)) == w
  {
    Division(w);
    Division(w / 256);
    Division(w / 256 / 256);
  }

  lemma QuotientOf(digit: int, rest: int)
    requires 0 <= digit < 256 && rest >= 0
    ensures (digit + 256 * rest) / 256 == rest && (digit + 256 * rest) % 256 == digit
  {
  }

  lemma FromDigitsInverse(d: seq<Byte>)
    requires |d| == 4
    ensures Digits(FromDigits(d)) == d
  {
    var w: int := FromDigits(d);
    var d0: int, d1: int, d2: int, d3: int := d[0], d[1], d[2], d[3];
    var b := d2 + 256 * d3;
    var a := d1 + 256 * b;
    assert w == d0 + 256 * a;
    QuotientOf(d0, a);
    QuotientOf(d1, b);
    QuotientOf(d2, d3);
    Division(w);
  }

  lemma WireDigits(host: Order, w: Word)
    ensures Memory(host, NetworkOrder(host, w)) == Reverse4(Digits(w))
  {
    FromDigitsInverse(Reverse4(Digits(w)));
  }

  function EncodeWord(host: Order, w: Word): seq<Byte> {
    Memory(host, NetworkOrder(host, w))
  }

  function DecodeWord(host: Order, bytes: seq<Byte>): Word
    requires |bytes| == 4
  {
    NetworkOrder(host, Load(host, bytes))
  }

  /** Decoding on any host what any host encoded gives the word back, and the other way round. */
  lemma WordRoundTrip(sender: Order, receiver: Order, w: Word, bytes: seq<Byte>)
    requires |bytes| == 4
    ensures DecodeWord(receiver, EncodeWord(sender, w)) == w
    ensures EncodeWord(sender, DecodeWord(receiver, bytes)) == bytes
  {
    WireDigits(sender, w);
    DigitsInverse(w);
    FromDigitsInverse(bytes);
    FromDigitsInverse(Reverse4(bytes));
    FromDigitsInverse(Reverse4(Digits(w)));
    WireDigits(sender, DecodeWord(receiver, bytes));
    assert DecodeWord(receiver, bytes) == FromDigits(Reverse4(bytes));
  }

  /** The number that four bytes stand for, most significant first. */
  function BigEndianValue(b: seq<Byte>): int
    requires |b| == 4
  {
    var b0: int, b1: int, b2: int, b3: int := b[0], b[1], b[2], b[3];
    b0 * 0x100_0000 + b1 * 0x1_0000 + b2 * 0x100 + b3
  }

  /** A word goes out most significant byte first, whatever the host (Appendix B of RFC 791). */
  lemma WordIsBigEndian(host: Order, w: Word)
    ensures |EncodeWord(host, w)| == 4 && BigEndianValue(EncodeWord(host, w)) == w
  {
    WireDigits(host, w);
    DigitsInverse(w);
  }

  function EncodeResult(host: Order, received: Word, usec: Word): seq<Byte> {
    EncodeWord(host, received) + EncodeWord(host, usec)
  }

  function DecodeResult(host: Order, bytes: seq<Byte>): (Word, Word)
    requires |bytes| == 8
  {
    (DecodeWord(host, bytes[..4]), DecodeWord(host, bytes[4..]))
  }

  lemma ResultRoundTrip(sender: Order, receiver: Order, received: Word, usec: Word, bytes: seq<Byte>)
    requires |bytes| == 8
    ensures DecodeResult(receiver, EncodeResult(sender, received, usec)) == (received, usec)
    ensures var (r, u) := DecodeResult(receiver, bytes); EncodeResult(sender, r, u) == bytes
  {
    WordRoundTrip(sender, receiver, received, bytes[..4]);
    WordRoundTrip(sender, receiver, usec, bytes[4..]);
    var wire := EncodeResult(sender, received, usec);
    assert wire[..4] == EncodeWord(sender, received) && wire[4..] == EncodeWord(sender, usec);
    assert bytes[..4] + bytes[4..] == bytes;
  }

  /** The eight bytes of a result are the bytes received and then the microseconds, each most significant first. */
  lemma WireIsBigEndian(host: Order, received: Word, usec: Word)
    ensures var b := EncodeResult(host, received, usec);
            |b| == 8 && BigEndianValue(b[..4]) == received && BigEndianValue(b[4..]) == usec
  {
    WordIsBigEndian(host, received);
    WordIsBigEndian(host, usec);
    assert EncodeResult(host, received, usec)[..4] == EncodeWord(host, received);
    assert EncodeResult(host, received, usec)[4..] == EncodeWord(host, usec);
  }

  /** Cutting keeps what 32 bits hold: the difference is a multiple of 2^32. */
  lemma WrapMeans(x: int) returns (k: int)
    ensures Wrap(x) == x - k * 0x1_0000_0000
  {
    k := x / WORDS;
  }
}
