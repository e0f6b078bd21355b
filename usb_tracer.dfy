/**
 * The serial-line tracer: bytes read one at a time are cut into 33-byte chunks, each chunk is
 * classified by its framing bytes (`identify_direction`) and printed as hex (`format_line`).
 */
module UsbTracer {
  import opened Wrappers

  newtype byte = x: int | 0 <= x < 256

  /** Frames shorter than this are never classified. */
  const MinPacketLength := 8

  const Unknown: string := "UNKNOWN"
  const MasterToSlave: string := "MASTER\U{2192}SLAVE"
  const SlaveToMaster: string := "SLAVE\U{2192}MASTER"

  /** A frame starts with STX (0x02) and ends with ETX (0x03). */
  predicate Framed(data: seq<byte>) {
    |data| >= MinPacketLength && data[0] == 0x02 && data[|data| - 1] == 0x03
  }

  /** The command byte of a frame sent by the master is an ASCII capital. */
  predicate IsCommandLetter(b: byte) {
    0x41 <= b <= 0x5A
  }

  /** `identify_direction(data)`. */
  function IdentifyDirection(data: seq<byte>): (r: string)
    ensures r == Unknown || r == MasterToSlave || r == SlaveToMaster
    ensures r == Unknown <==> !Framed(data)
    ensures r == MasterToSlave <==> Framed(data) && IsCommandLetter(data[4])
  {
    if |data| < MinPacketLength || data[0] != 0x02 || data[|data| - 1] != 0x03 then Unknown
    else
      var comd := data[4];
      if 0x41 <= comd <= 0x5A then MasterToSlave else SlaveToMaster
  }

  /** The direction depends on the length, byte 0, byte 4 and the last byte only; the address byte plays no part. */
  lemma DirectionFromFramingBytes(a: seq<byte>, b: seq<byte>)
    requires |a| == |b|
    requires |a| >= MinPacketLength ==>
      a[0] == b[0] && a[4] == b[4] && a[|a| - 1] == b[|b| - 1]
    ensures IdentifyDirection(a) == IdentifyDirection(b)
  {
    assert Framed(a) <==> Framed(b);
  }

  /** The three labels are distinct, so the label names the case. */
  lemma LabelsDistinct()
    ensures Unknown != MasterToSlave && Unknown != SlaveToMaster && MasterToSlave != SlaveToMaster
  {
    assert Unknown[0] == 'U' && MasterToSlave[0] == 'M' && SlaveToMaster[0] == 'S';
  }

  // ---------------------------------------------------------------------------------------------
  // format_line: `data.hex()`

  function HexDigit(n: int): (c: char)
    requires 0 <= n < 16
    ensures IsHexDigit(c)
  {
    if n < 10 then ('0' as int + n) as char else ('a' as int + n - 10) as char
  }

  /** The characters `bytes.hex()` writes: lower-case hexadecimal digits. */
  predicate IsHexDigit(c: char) {
    '0' <= c <= '9' || 'a' <= c <= 'f'
  }

  /** `data.hex()`: two lower-case digits per byte, high nibble first. */
  function Hex(data: seq<byte>): (r: string)
    ensures |r| == 2 * |data|
    ensures forall k | 0 <= k < |r| :: IsHexDigit(r[k])
    decreases |data|
  {
    if data == [] then ""
    else [HexDigit(data[0] as int / 16), HexDigit(data[0] as int % 16)] + Hex(data[1..])
  }

  function DigitValue(c: char): (n: int)
    requires IsHexDigit(c)
    ensures 0 <= n < 16
  {
    if c <= '9' then c as int - '0' as int else c as int - 'a' as int + 10
  }

  lemma DigitRoundTrip(n: int)
    requires 0 <= n < 16
    ensures DigitValue(HexDigit(n)) == n
  { }

  /** Reads hex text back into bytes. */
  function Unhex(s: string): (r: seq<byte>)
    requires |s| % 2 == 0 && forall k | 0 <= k < |s| :: IsHexDigit(s[k])
    decreases |s|
  {
    if s == [] then []
    else [(DigitValue(s[0]) * 16 + DigitValue(s[1])) as byte] + Unhex(s[2..])
  }

  /** The hex text determines the bytes: reading it back gives them again. */
  lemma {:induction false} HexRoundTrip(data: seq<byte>)
    ensures Unhex(Hex(data)) == data
    decreases |data|
  {
    if data != [] {
      var b := data[0] as int;
      DigitRoundTrip(b / 16);
      DigitRoundTrip(b % 16);
      HexRoundTrip(data[1..]);
      var h := Hex(data);
      assert h[2..] == Hex(data[1..]);
    }
  }

  /** `format_line(direction, data)` at the given time stamp: the hex of the bytes ends the line. */
  function FormatLine(timestamp: string, direction: string, data: seq<byte>): (r: string)
    ensures |r| >= 2 * |data| && r[|r| - 2 * |data|..] == Hex(data)
  {
    "[" + timestamp + "] " + direction + ": " + Hex(data)
  }

  // ---------------------------------------------------------------------------------------------
  // the chunking loop of main

  /** Every chunk is printed once the buffer holds more than this many bytes. */
  const ChunkLimit := 32

  /** A printed line, without its time stamp. */
  datatype Chunk = Chunk(direction: string, data: seq<byte>)

  /** The bytes of a sequence of one-byte reads; a read that timed out gives none. */
  function Received(input: seq<Option<byte>>): (r: seq<byte>)
    ensures |r| <= |input|
    decreases |input|
  {
    if input == [] then []
    else Received(input[..|input| - 1]) + (if input[|input| - 1].Some? then [input[|input| - 1].value] else [])
  }

  /** The bytes of the chunks, one after the other. */
  function Flatten(cs: seq<Chunk>): (r: seq<byte>)
    decreases |cs|
  {
    if cs == [] then [] else Flatten(cs[..|cs| - 1]) + cs[|cs| - 1].data
  }

  /** Chunks of 33 bytes. */
  predicate Sized(cs: seq<Chunk>) {
    forall k | 0 <= k < |cs| :: |cs[k].data| == ChunkLimit + 1
  }

  /** Chunks of 33 bytes, each labelled with its direction. */
  predicate Chunked(cs: seq<Chunk>) {
    Sized(cs) && forall k | 0 <= k < |cs| :: cs[k].direction == IdentifyDirection(cs[k].data)
  }

  /** One more read adds its byte, if it has one. */
  lemma ReceivedSnoc(input: seq<Option<byte>>, i: nat)
    requires i < |input|
    ensures Received(input[..i + 1]) == Received(input[..i]) + (if input[i].Some? then [input[i].value] else [])
  {
    assert input[..i + 1][..i] == input[..i] && input[..i + 1][i] == input[i];
  }

  /** One more chunk adds its bytes. */
  lemma FlattenSnoc(cs: seq<Chunk>, c: Chunk)
    ensures Flatten(cs + [c]) == Flatten(cs) + c.data
  {
    assert (cs + [c])[..|cs|] == cs;
  }

  /** A chunk of 33 bytes labelled with its direction keeps the chunks well formed. */
  lemma ChunkedSnoc(cs: seq<Chunk>, c: Chunk)
    requires Chunked(cs) && |c.data| == ChunkLimit + 1 && c.direction == IdentifyDirection(c.data)
    ensures Chunked(cs + [c])
  {
    forall k | 0 <= k < |cs + [c]|
      ensures |(cs + [c])[k].data| == ChunkLimit + 1 && (cs + [c])[k].direction == IdentifyDirection((cs + [c])[k].data)
    {
      if k < |cs| {
        assert (cs + [c])[k] == cs[k];
      }
    }
  }

  /**
   * One byte received: it joins the buffer, and a buffer of more than 32 bytes is printed as a
   * chunk with its direction and emptied.
   */
  method Push(printed: seq<Chunk>, buffer: seq<byte>, b: byte) returns (printed': seq<Chunk>, buffer': seq<byte>)
    requires Chunked(printed) && |buffer| <= ChunkLimit
    ensures Chunked(printed') && |buffer'| <= ChunkLimit
    ensures Flatten(printed') + buffer' == Flatten(printed) + buffer + [b]
  {
    printed', buffer' := printed, buffer + [b];
    if |buffer'| > ChunkLimit {
      var direction := IdentifyDirection(buffer');
      if direction != Unknown || |buffer'| > 3 {
        var chunk := Chunk(direction, buffer');
        FlattenSnoc(printed', chunk);
        ChunkedSnoc(printed', chunk);
        printed' := printed' + [chunk];
      } else {
        assert false;
      }
      buffer' := [];
    }
  }

  /**
   * The loop of `main` over the reads so far: the bytes arrive in order into chunks of 33, each
   * printed with its direction; what follows the last chunk stays in the buffer.
   */
  method Trace(input: seq<Option<byte>>) returns (printed: seq<Chunk>, buffer: seq<byte>)
    ensures Chunked(printed)
    ensures Flatten(printed) + buffer == Received(input)
    ensures |buffer| <= ChunkLimit
  {
    printed := [];
    buffer := [];
    for i := 0 to |input|
      invariant Chunked(printed)
      invariant Flatten(printed) + buffer == Received(input[..i])
      invariant |buffer| <= ChunkLimit
    {
      ReceivedSnoc(input, i);
      var read := input[i];
      if read.Some? {
        printed, buffer := Push(printed, buffer, read.value);
      }
    }
    assert input[..|input|] == input;
  }

  lemma {:induction false} FlattenLength(cs: seq<Chunk>)
    requires Sized(cs)
    ensures |Flatten(cs)| == 33 * |cs|
    decreases |cs|
  {
    if cs != [] {
      FlattenLength(cs[..|cs| - 1]);
    }
  }

  /** The k-th chunk sits at bytes 33k to 33k+32 of the flattened chunks. */
  lemma {:induction false} FlattenChunk(cs: seq<Chunk>, k: nat)
    requires Sized(cs) && k < |cs|
    ensures 33 * (k + 1) <= |Flatten(cs)|
    ensures Flatten(cs)[33 * k..33 * (k + 1)] == cs[k].data
    decreases |cs|
  {
    var init := cs[..|cs| - 1];
    var last := cs[|cs| - 1];
    assert Sized(init);
    FlattenLength(init);
    var f := Flatten(init);
    assert Flatten(cs) == f + last.data;
    if k == |cs| - 1 {
      assert |last.data| == 33;
    } else {
      FlattenChunk(init, k);
      assert cs[k] == init[k];
      assert (f + last.data)[..|f|] == f;
    }
  }

  lemma QuotientOfChunks(n: nat, r: nat)
    requires r <= ChunkLimit
    ensures (33 * n + r) / 33 == n
  { }

  /** The k-th chunk sits at bytes 33k to 33k+32 of anything the chunks begin. */
  lemma ChunkInBytes(cs: seq<Chunk>, buffer: seq<byte>, bytes: seq<byte>, k: nat)
    requires Sized(cs) && Flatten(cs) + buffer == bytes && k < |cs|
    ensures 33 * (k + 1) <= |bytes|
    ensures cs[k].data == bytes[33 * k..33 * (k + 1)]
  {
    FlattenChunk(cs, k);
    var f := Flatten(cs);
    assert bytes[..|f|] == f;
  }

  /**
   * What `Trace` prints is fixed by the bytes alone: as many chunks as there are whole 33-byte
   * runs, the k-th chunk being bytes 33k to 33k+32.
   */
  lemma ChunksOfReceived(cs: seq<Chunk>, buffer: seq<byte>, bytes: seq<byte>)
    requires Sized(cs) && Flatten(cs) + buffer == bytes && |buffer| <= ChunkLimit
    ensures |cs| == |bytes| / 33
    ensures forall k | 0 <= k < |cs| :: cs[k].data == bytes[33 * k..33 * (k + 1)]
    ensures buffer == bytes[33 * |cs|..]
  {
    FlattenLength(cs);
    QuotientOfChunks(|cs|, |buffer|);
    forall k | 0 <= k < |cs|
      ensures cs[k].data == bytes[33 * k..33 * (k + 1)]
    {
      ChunkInBytes(cs, buffer, bytes, k);
    }
  }
}
