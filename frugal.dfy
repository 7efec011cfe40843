/**
 * Vocabulary shared by every transport and server of the model: bytes, the
 * error kinds of transport and application exceptions, the 4-byte
 * big-endian frame-size prefix, and the Option/Result wrappers used for
 * the source's raised exceptions.
 */
module Frugal {

  type Byte = x: int | 0 <= x < 256

  datatype Option<+T> = None | Some(value: T)

  datatype Result<+T, +E> = Ok(value: T) | Err(error: E)

  /** The kinds of transport exception raised by the modelled code. */
  datatype TransportErrorKind =
    | Unknown
    | NotOpen
    | AlreadyOpen
    | TimedOut
    | EndOfFile
    | RequestTooLarge
    | ResponseTooLarge

  /** A raised transport exception: its kind and its message text. */
  datatype TransportError = TransportError(kind: TransportErrorKind, message: string)

  /** Thrift's application exception type codes that the base processor writes. */
  const UNKNOWN_METHOD: int := 1
  const INTERNAL_ERROR: int := 6

  /** Size of the frame-size prefix that every frugal frame starts with. */
  const FRAME_HEADER_SIZE: nat := 4

  /** The unsigned value of four bytes read most significant first. */
  function BigEndian32(b0: Byte, b1: Byte, b2: Byte, b3: Byte): (n: nat)
    ensures n < 0x1_0000_0000
    ensures n / 0x100_0000 == b0 && n % 0x100 == b3
  {
    (((b0 as int) * 256 + b1) * 256 + b2) * 256 + b3
  }

  /** The four bytes, most significant first, of a 32-bit unsigned value. */
  function EncodeBigEndian32(n: nat): (bytes: seq<Byte>)
    requires n < 0x1_0000_0000
    ensures |bytes| == 4
  {
    [n / 0x100_0000, (n / 0x1_0000) % 256, (n / 256) % 256, n % 256]
  }

  lemma DecodeEncodeBigEndian32(n: nat)
    requires n < 0x1_0000_0000
    ensures var b := EncodeBigEndian32(n); BigEndian32(b[0], b[1], b[2], b[3]) == n
  {
    var b := EncodeBigEndian32(n);
    var hi := n / 256;
    assert n == hi * 256 + b[3];
    var hi2 := hi / 256;
    assert hi == hi2 * 256 + b[2];
    assert hi2 == (b[0] as int) * 256 + b[1] by {
      assert n / 0x1_0000 == hi2;
      assert n / 0x100_0000 == hi2 / 256;
    }
  }

  /** The frame-size value of a frame, read from its first four bytes. */
  function FrameSize(data: seq<Byte>): (n: nat)
    requires |data| >= FRAME_HEADER_SIZE
    ensures n < 0x1_0000_0000
    ensures n == BigEndian32(data[0], data[1], data[2], data[3])
  {
    BigEndian32(data[0], data[1], data[2], data[3])
  }

  /**
   * The bytes after the frame-size prefix, as Python's `data[4:]` gives
   * them: empty when the data holds no more than the prefix.
   */
  function StripFrameHeader(data: seq<Byte>): (payload: seq<Byte>)
    ensures |payload| == if |data| <= FRAME_HEADER_SIZE then 0 else |data| - FRAME_HEADER_SIZE
    ensures forall i :: 0 <= i < |payload| ==> payload[i] == data[i + FRAME_HEADER_SIZE]
  {
    if |data| <= FRAME_HEADER_SIZE then [] else data[FRAME_HEADER_SIZE..]
  }

  lemma StripFrameHeaderOfFrame(size: seq<Byte>, payload: seq<Byte>)
    requires |size| == FRAME_HEADER_SIZE
    ensures StripFrameHeader(size + payload) == payload
  {
    assert (size + payload)[FRAME_HEADER_SIZE..] == payload;
  }
}
