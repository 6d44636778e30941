/** The gateway's packet header and application framing. */
module Framing {
  import opened Types

  // ---- Big-endian integers ----

  function Bytes16(n: uint16): (b: seq<byte>)
    ensures |b| == 2
  {
    [n / 0x100, n % 0x100]
  }

  function Value16(b: seq<byte>): uint16
    requires |b| >= 2
  {
    var hi: int := b[0];
    hi * 0x100 + b[1]
  }

  function Bytes32(n: uint32): (b: seq<byte>)
    ensures |b| == 4
  {
    [n / 0x100_0000, n / 0x1_0000 % 0x100, n / 0x100 % 0x100, n % 0x100]
  }

  lemma Value16OfBytes(n: uint16, rest: seq<byte>)
    ensures Value16(Bytes16(n) + rest) == n
  {
  }

  lemma Quarters(n: uint32)
    ensures n / 0x100_0000 * 0x100_0000 + n / 0x1_0000 % 0x100 * 0x1_0000 + n / 0x100 % 0x100 * 0x100 + n % 0x100 == n
  {
    var m := n / 0x100;
    var k := m / 0x100;
    assert k == n / 0x1_0000 && k / 0x100 == n / 0x100_0000;
    assert n == m * 0x100 + n % 0x100 && m == k * 0x100 + m % 0x100 && k == k / 0x100 * 0x100 + k % 0x100;
  }

  lemma Value32OfBytes(n: uint32, rest: seq<byte>)
    ensures BigEndian32(Bytes32(n) + rest) == n
  {
    Quarters(n);
    var b := Bytes32(n) + rest;
    assert b[0] == n / 0x100_0000 && b[1] == n / 0x1_0000 % 0x100 && b[2] == n / 0x100 % 0x100 && b[3] == n % 0x100;
  }

  /** The written bytes are worth the number, most significant byte first. */
  lemma BytesArePositional(n: uint32, m: uint16)
    ensures Positional(Bytes32(n)) == n && Positional(Bytes16(m)) == m
  {
    Value32OfBytes(n, []);
    assert Bytes32(n) + [] == Bytes32(n) && Bytes32(n)[..4] == Bytes32(n);
    BigEndian32IsPositional(Bytes32(n));
    Positional2(m / 0x100, m % 0x100);
  }

  function Truncate16(n: nat): uint16 {
    n % 0x1_0000
  }

  /** Adding a little to a length modulo 2^16. */
  lemma Truncate16Adds(n: nat, d: nat)
    requires d < 0x1_0000
    ensures var m := n % 0x1_0000;
      Truncate16(d + n) == if m + d < 0x1_0000 then m + d else m + d - 0x1_0000
  {
  }

  method PutUint16(buf: array<byte>, at: nat, v: uint16)
    requires at + 2 <= buf.Length
    modifies buf
    ensures buf[..] == old(buf[..at]) + Bytes16(v) + old(buf[at + 2..])
  {
    buf[at] := v / 0x100;
    buf[at + 1] := v % 0x100;
  }

  method PutUint32(buf: array<byte>, at: nat, v: uint32)
    requires at + 4 <= buf.Length
    modifies buf
    ensures buf[..] == old(buf[..at]) + Bytes32(v) + old(buf[at + 4..])
  {
    buf[at] := v / 0x100_0000;
    buf[at + 1] := v / 0x1_0000 % 0x100;
    buf[at + 2] := v / 0x100 % 0x100;
    buf[at + 3] := v % 0x100;
  }

  /** Go's `copy(buf[at:], data)`. */
  method CopyInto(buf: array<byte>, at: nat, data: seq<byte>)
    requires at <= buf.Length
    modifies buf
    ensures var n := if |data| < buf.Length - at then |data| else buf.Length - at;
      buf[..] == old(buf[..at]) + data[..n] + old(buf[at + n..])
  {
    var n := if |data| < buf.Length - at then |data| else buf.Length - at;
    var i := 0;
    while i < n
      invariant 0 <= i <= n
      invariant buf[..] == old(buf[..at]) + data[..i] + old(buf[at + i..])
    {
      buf[at + i] := data[i];
      i := i + 1;
    }
  }

  // ---- The nine-byte UDP header ----

  const HEADER_SIZE: nat := 9

  datatype Header = Header(id: uint32, key: uint32, packetType: byte)

  function HeaderBytes(h: Header): (b: seq<byte>)
    ensures |b| == HEADER_SIZE
  {
    Bytes32(h.id) + Bytes32(h.key) + [h.packetType]
  }

  method EncodeHeader(id: uint32, key: uint32, packetType: byte) returns (b: seq<byte>)
    ensures b == HeaderBytes(Header(id, key, packetType))
  {
    var buf := new byte[HEADER_SIZE](_ => 0);
    PutUint32(buf, 0, id);
    PutUint32(buf, 4, key);
    buf[8] := packetType;
    b := buf[..];
  }

  function DecodeHeader(buf: seq<byte>): Option<Header> {
    if |buf| < HEADER_SIZE then None
    else Some(Header(BigEndian32(buf[0..4]), BigEndian32(buf[4..8]), buf[8]))
  }

  /** Decoding undoes encoding whatever follows the header, and fails on nothing but
      a packet that is too short. */
  lemma HeaderRoundTrip(h: Header, rest: seq<byte>)
    ensures DecodeHeader(HeaderBytes(h) + rest) == Some(h)
    ensures forall b: seq<byte> :: DecodeHeader(b) == None <==> |b| < HEADER_SIZE
  {
    var b := HeaderBytes(h) + rest;
    Value32OfBytes(h.id, []);
    Value32OfBytes(h.key, []);
    assert b[0..4] == Bytes32(h.id) + [];
    assert b[4..8] == Bytes32(h.key) + [];
  }

  /** Where the fields of a header are. */
  lemma HeaderLayout(h: Header)
    ensures var b := HeaderBytes(h);
      Positional(b[..4]) == h.id && Positional(b[4..8]) == h.key && b[8] == h.packetType
  {
    var b := HeaderBytes(h);
    BytesArePositional(h.id, 0);
    BytesArePositional(h.key, 0);
    assert b[..4] == Bytes32(h.id) && b[4..8] == Bytes32(h.key);
    hide Bytes32;
  }

  lemma HeaderDecodesOnlyItself(b: seq<byte>)
    requires DecodeHeader(b).Some?
    ensures b == HeaderBytes(DecodeHeader(b).value) + b[HEADER_SIZE..]
  {
    BytesOfValue32(b[0..4]);
    BytesOfValue32(b[4..8]);
  }

  lemma Quotient8(n: int, q: int, r: int)
    requires n == q * 0x100 + r && 0 <= r < 0x100
    ensures n / 0x100 == q && n % 0x100 == r
  {
  }

  lemma Quotient16(n: int, q: int, r: int)
    requires n == q * 0x1_0000 + r && 0 <= r < 0x1_0000
    ensures n / 0x1_0000 == q
  {
  }

  lemma Quotient24(n: int, q: int, r: int)
    requires n == q * 0x100_0000 + r && 0 <= r < 0x100_0000
    ensures n / 0x100_0000 == q
  {
  }

  lemma BytesOfValue32(b: seq<byte>)
    requires |b| == 4
    ensures Bytes32(BigEndian32(b)) == b
  {
    var n := BigEndian32(b);
    var b0: int, b1: int, b2: int, b3: int := b[0], b[1], b[2], b[3];
    Quotient24(n, b0, b1 * 0x1_0000 + b2 * 0x100 + b3);
    Quotient16(n, b0 * 0x100 + b1, b2 * 0x100 + b3);
    Quotient8(b0 * 0x100 + b1, b0, b1);
    Quotient8(n, b0 * 0x1_0000 + b1 * 0x100 + b2, b3);
    Quotient8(b0 * 0x1_0000 + b1 * 0x100 + b2, b0 * 0x100 + b1, b2);
    SameBytes(n, b);
  }

  lemma SameBytes(n: uint32, b: seq<byte>)
    requires |b| == 4 && b[0] == n / 0x100_0000 && b[1] == n / 0x1_0000 % 0x100
    requires b[2] == n / 0x100 % 0x100 && b[3] == n % 0x100
    ensures Bytes32(n) == b
  {
  }

  // ---- Application frames ----

  const APP_HEADER_SIZE: nat := 4

  /** The longest payload whose frame length fits the arithmetic. */
  const MAX_PAYLOAD: nat := 65531

  datatype AppFrame = AppFrame(cmd: uint16, payload: seq<byte>)

  /** The bytes of a frame, or None when the 16-bit buffer length wraps below the
      header and the first writes panic. */
  function FrameBytes(f: AppFrame): Option<seq<byte>> {
    var totalLen := Truncate16(2 + |f.payload|);
    var size := Truncate16(2 + totalLen);
    if size < APP_HEADER_SIZE then None
    else Some(Bytes16(totalLen) + Bytes16(f.cmd) + f.payload[..size - APP_HEADER_SIZE])
  }

  /** Whatever the payload, only its length modulo 2^16 is written. */
  lemma FrameShape(f: AppFrame)
    ensures var m := |f.payload| % 0x1_0000;
      && (FrameBytes(f).Some? <==> m <= MAX_PAYLOAD)
      && (m <= MAX_PAYLOAD ==>
           && Truncate16(2 + |f.payload|) == m + 2 && Truncate16(2 + (m + 2)) == m + 4
           && FrameBytes(f).value == Bytes16(m + 2) + Bytes16(f.cmd) + f.payload[..m])
  {
    Truncate16Adds(|f.payload|, 2);
    hide Truncate16;
    var t: nat := Truncate16(2 + |f.payload|);
    Truncate16Adds(t, 2);
  }

  /** Where the parts of a frame are: the length of what follows, the command, the payload. */
  lemma FrameLayout(f: AppFrame)
    requires |f.payload| <= MAX_PAYLOAD
    ensures FrameBytes(f).Some?
    ensures var b := FrameBytes(f).value;
      && |b| == 4 + |f.payload| && Positional(b[..2]) == |b| - 2
      && Positional(b[2..4]) == f.cmd && b[4..] == f.payload
  {
    FrameShape(f);
    hide FrameBytes;
    var b := FrameBytes(f).value;
    assert f.payload[..|f.payload|] == f.payload;
    BytesArePositional(0, 2 + |f.payload|);
    BytesArePositional(0, f.cmd);
    assert b[..2] == Bytes16(2 + |f.payload|) && b[2..4] == Bytes16(f.cmd);
    hide Bytes16;
  }

  method EncodeAppFrame(cmd: uint16, payload: seq<byte>) returns (frame: Option<seq<byte>>)
    ensures frame == FrameBytes(AppFrame(cmd, payload))
  {
    var totalLen: nat := Truncate16(2 + |payload|);
    var size := Truncate16(2 + totalLen);
    var buf := new byte[size](_ => 0);
    if buf.Length < 2 {
      return None;
    }
    PutUint16(buf, 0, totalLen);
    if buf.Length < 4 {
      return None;
    }
    PutUint16(buf, 2, cmd);
    assert buf[..4] == Bytes16(totalLen) + Bytes16(cmd);
    FrameShape(AppFrame(cmd, payload));
    assert size - 4 <= |payload|;
    CopyInto(buf, 4, payload);
    assert buf[..] == Bytes16(totalLen) + Bytes16(cmd) + payload[..size - 4];
    frame := Some(buf[..]);
  }

  datatype ReadError = Eof | UnexpectedEof | InvalidLength

  datatype ReadResult = Read(frame: AppFrame) | Fail(error: ReadError)

  function EndOf(got: seq<byte>): ReadError {
    if got == [] then Eof else UnexpectedEof
  }

  /** Reading one frame off the front of a stream: the result and what is left. */
  function ParseFrame(s: seq<byte>): (ReadResult, seq<byte>) {
    if |s| < APP_HEADER_SIZE then (Fail(EndOf(s)), [])
    else
      var totalLen, cmd, body := Value16(s), Value16(s[2..]), s[4..];
      if totalLen < 2 then (Fail(InvalidLength), body)
      else if |body| < totalLen - 2 then (Fail(EndOf(body)), [])
      else (Read(AppFrame(cmd, body[..totalLen - 2])), body[totalLen - 2..])
  }

  /** Reading frames until the first error. */
  function ParseAll(s: seq<byte>): (seq<AppFrame>, ReadError)
    decreases |s|
  {
    var (result, rest) := ParseFrame(s);
    match result
    case Fail(e) => ([], e)
    case Read(f) =>
      var (frames, e) := ParseAll(rest);
      ([f] + frames, e)
  }

  function Flatten(chunks: seq<seq<byte>>): seq<byte> {
    if chunks == [] then [] else chunks[0] + Flatten(chunks[1..])
  }

  /** A stream that arrives in pieces of any sizes, empty ones included. */
  class Reader {
    var chunks: seq<seq<byte>>

    constructor (chunks: seq<seq<byte>>)
      ensures this.chunks == chunks
    {
      this.chunks := chunks;
    }

    ghost function Rest(): seq<byte>
      reads this
    {
      Flatten(chunks)
    }

    /** One read: at most `limit` bytes, and never beyond the piece at hand. */
    method ReadSome(limit: nat) returns (data: seq<byte>, eof: bool)
      requires limit > 0
      modifies this
      ensures old(Rest()) == data + Rest() && |data| <= limit
      ensures eof <==> old(chunks) == []
      ensures eof ==> data == [] && chunks == []
      ensures !eof ==> |Rest()| + |chunks| < old(|Rest()| + |chunks|)
    {
      if chunks == [] {
        return [], true;
      }
      var head := chunks[0];
      if |head| <= limit {
        data, chunks := head, chunks[1..];
      } else {
        data := head[..limit];
        chunks := [head[limit..]] + chunks[1..];
        assert chunks[1..] == old(chunks)[1..];
        assert head == head[..limit] + head[limit..];
      }
      eof := false;
    }

    /** `io.ReadFull`. */
    method ReadFull(n: nat) returns (data: seq<byte>, error: Option<ReadError>)
      modifies this
      ensures old(Rest()) == data + Rest()
      ensures |old(Rest())| >= n ==> |data| == n && error == None
      ensures |old(Rest())| < n ==> data == old(Rest()) && Rest() == [] && error == Some(EndOf(data))
    {
      data := [];
      var eof := false;
      while |data| < n && !eof
        invariant |data| <= n && old(Rest()) == data + Rest()
        invariant eof ==> Rest() == []
        decreases |Rest()| + |chunks|, !eof
      {
        var more;
        more, eof := ReadSome(n - |data|);
        data := data + more;
      }
      if |data| == n {
        return data, None;
      }
      return data, Some(EndOf(data));
    }

    method ReadAppFrame() returns (result: ReadResult)
      modifies this
      ensures (result, Rest()) == ParseFrame(old(Rest()))
    {
      var header, error := ReadFull(APP_HEADER_SIZE);
      if error.Some? {
        return Fail(error.value);
      }
      ghost var s := old(Rest());
      assert header == s[..4] && Rest() == s[4..];
      var totalLen: int, cmd := Value16(header), Value16(header[2..]);
      var payloadLen := totalLen - 2;
      if payloadLen < 0 {
        return Fail(InvalidLength);
      }
      if payloadLen == 0 {
        return Read(AppFrame(cmd, []));
      }
      var payload;
      payload, error := ReadFull(payloadLen);
      if error.Some? {
        return Fail(error.value);
      }
      assert payload == s[4..][..payloadLen] && Rest() == s[4..][payloadLen..];
      return Read(AppFrame(cmd, payload));
    }

    /** The read loop of an accepted connection: frames are dispatched until an error.
        What it dispatches depends on the bytes alone, not on how they were cut. */
    method Serve() returns (dispatched: seq<AppFrame>, error: ReadError)
      modifies this
      ensures (dispatched, error) == ParseAll(old(Rest()))
    {
      dispatched := [];
      while true
        invariant ParseAll(old(Rest())).0 == dispatched + ParseAll(Rest()).0
        invariant ParseAll(old(Rest())).1 == ParseAll(Rest()).1
        decreases |Rest()|
      {
        ghost var before := Rest();
        var result := ReadAppFrame();
        if result.Fail? {
          assert ParseAll(before) == ([], result.error);
          assert dispatched + [] == dispatched;
          return dispatched, result.error;
        }
        assert ParseAll(before).0 == [result.frame] + ParseAll(Rest()).0;
        dispatched := dispatched + [result.frame];
      }
    }
  }

  // ---- Parsing undoes printing ----

  lemma ParseShape(m: nat, cmd: uint16, payload: seq<byte>, rest: seq<byte>)
    requires m == |payload| <= MAX_PAYLOAD
    ensures ParseFrame(Bytes16(m + 2) + Bytes16(cmd) + payload + rest) == (Read(AppFrame(cmd, payload)), rest)
  {
    var s := Bytes16(m + 2) + Bytes16(cmd) + payload + rest;
    assert s == Bytes16(m + 2) + (Bytes16(cmd) + payload + rest);
    Value16OfBytes(m + 2, Bytes16(cmd) + payload + rest);
    assert s[2..] == Bytes16(cmd) + (payload + rest);
    Value16OfBytes(cmd, payload + rest);
    assert s[4..] == payload + rest;
    hide Value16, Bytes16;
    assert s[4..][..m] == payload && s[4..][m..] == rest;
  }

  /** A frame survives the round trip exactly when its payload is at most 65531 bytes. */
  lemma FrameRoundTripExact(f: AppFrame, rest: seq<byte>)
    ensures (FrameBytes(f).Some? && ParseFrame(FrameBytes(f).value + rest) == (Read(f), rest))
        <==> |f.payload| <= MAX_PAYLOAD
  {
    var m := |f.payload| % 0x1_0000;
    FrameShape(f);
    if m <= MAX_PAYLOAD {
      ParseShape(m, f.cmd, f.payload[..m], rest);
      hide ParseFrame, FrameBytes;
      assert |f.payload| <= MAX_PAYLOAD ==> f.payload[..m] == f.payload;
    }
  }

  ghost predicate Printable(frames: seq<AppFrame>) {
    forall f | f in frames :: |f.payload| <= MAX_PAYLOAD
  }

  lemma PrintableFrame(f: AppFrame)
    requires |f.payload| <= MAX_PAYLOAD
    ensures FrameBytes(f).Some? && |FrameBytes(f).value| == APP_HEADER_SIZE + |f.payload|
    ensures FrameBytes(f).value == Bytes16(2 + |f.payload|) + Bytes16(f.cmd) + f.payload
  {
    FrameShape(f);
    hide FrameBytes, Bytes16, Truncate16;
    assert f.payload[..|f.payload|] == f.payload;
  }

  function Print(frames: seq<AppFrame>): seq<byte>
    requires Printable(frames)
  {
    if frames == [] then []
    else PrintableFrame(frames[0]); FrameBytes(frames[0]).value + Print(frames[1..])
  }

  /** However the printed stream is cut into pieces, reading it gives the frames back
      and then a clean end. */
  lemma {:induction false} ParseUndoesPrint(frames: seq<AppFrame>, chunks: seq<seq<byte>>)
    requires Printable(frames) && Flatten(chunks) == Print(frames)
    ensures ParseAll(Flatten(chunks)) == (frames, Eof)
  {
    ParsePrinted(frames);
  }

  lemma {:induction false} ParsePrinted(frames: seq<AppFrame>)
    requires Printable(frames)
    ensures ParseAll(Print(frames)) == (frames, Eof)
  {
    if frames != [] {
      OneMoreFrame(frames[0], Print(frames[1..]));
      ParsePrinted(frames[1..]);
      assert frames == [frames[0]] + frames[1..];
    }
  }

  /** A frame cut short is an error: a clean end if not one byte of it arrived or
      nothing but its header did, an unexpected end otherwise. */
  lemma CutFrame(f: AppFrame, k: nat)
    requires |f.payload| <= MAX_PAYLOAD && k < APP_HEADER_SIZE + |f.payload|
    ensures FrameBytes(f).Some? && k < |FrameBytes(f).value|
    ensures ParseFrame(FrameBytes(f).value[..k])
         == (Fail(if k == 0 || k == APP_HEADER_SIZE then Eof else UnexpectedEof), [])
  {
    PrintableFrame(f);
    var s := FrameBytes(f).value[..k];
    if k >= APP_HEADER_SIZE {
      var rest := Bytes16(f.cmd) + f.payload[..k - 4];
      assert s == Bytes16(2 + |f.payload|) + rest;
      Value16OfBytes(2 + |f.payload|, rest);
      assert s[4..] == f.payload[..k - 4];
    }
  }

  /** A stream cut after `k` bytes, in the middle of or just before frame `m`, gives
      exactly the `m` complete frames and then an error. */
  lemma {:induction false} TruncatedStream(frames: seq<AppFrame>, m: nat, k: nat)
    requires Printable(frames) && m < |frames|
    requires |Print(frames[..m])| <= k < |Print(frames[..m])| + APP_HEADER_SIZE + |frames[m].payload|
    ensures k <= |Print(frames)|
    ensures var cut := k - |Print(frames[..m])|;
      ParseAll(Print(frames)[..k]) == (frames[..m], if cut == 0 || cut == APP_HEADER_SIZE then Eof else UnexpectedEof)
    decreases m
  {
    hide FrameBytes, ParseAll;
    PrintableFrame(frames[0]);
    var head, tail := FrameBytes(frames[0]).value, Print(frames[1..]);
    assert Print(frames) == head + tail;
    if m == 0 {
      CutFrame(frames[0], k);
      assert (head + tail)[..k] == head[..k];
      NoFrame(head[..k]);
    } else {
      assert frames[..m][0] == frames[0] && frames[..m][1..] == frames[1..][..m - 1];
      assert Print(frames[..m]) == head + Print(frames[1..][..m - 1]);
      hide Print;
      TruncatedStream(frames[1..], m - 1, k - |head|);
      assert (head + tail)[..k] == head + tail[..k - |head|];
      OneMoreFrame(frames[0], tail[..k - |head|]);
      assert frames[..m] == [frames[0]] + frames[1..][..m - 1];
    }
  }

  lemma NoFrame(s: seq<byte>)
    requires ParseFrame(s).0.Fail?
    ensures ParseAll(s) == ([], ParseFrame(s).0.error)
  {
  }

  lemma OneMoreFrame(f: AppFrame, rest: seq<byte>)
    requires |f.payload| <= MAX_PAYLOAD
    ensures FrameBytes(f).Some?
    ensures ParseAll(FrameBytes(f).value + rest) == ([f] + ParseAll(rest).0, ParseAll(rest).1)
  {
    hide FrameBytes, ParseFrame;
    FrameRoundTripExact(f, rest);
  }

  // ---- Session.Send's inline framing ----

  /** The bytes `Send` writes to KCP for `data`, which already starts with the command. */
  function KcpBytes(data: seq<byte>): Option<seq<byte>> {
    var totalLen := Truncate16(|data|);
    var size := Truncate16(2 + totalLen);
    if size < 2 then None else Some(Bytes16(totalLen) + data[..size - 2])
  }

  method FrameForKcp(data: seq<byte>) returns (frame: Option<seq<byte>>)
    ensures frame == KcpBytes(data)
  {
    var totalLen: nat := Truncate16(|data|);
    var size := Truncate16(2 + totalLen);
    var buf := new byte[size](_ => 0);
    if buf.Length < 2 {
      return None;
    }
    PutUint16(buf, 0, totalLen);
    assert buf[..2] == Bytes16(totalLen);
    Truncate16Adds(|data|, 0);
    Truncate16Adds(totalLen, 2);
    assert size - 2 <= |data|;
    CopyInto(buf, 2, data);
    assert buf[..] == Bytes16(totalLen) + data[..size - 2];
    frame := Some(buf[..]);
  }

  /** `Send` and `EncodeAppFrame` frame alike, panics included, except where the payload
      length is 65534 or 65535 modulo 2^16: there only `Send` still writes something. */
  lemma SendFramesLikeEncode(f: AppFrame)
    ensures KcpBytes(Bytes16(f.cmd) + f.payload) == FrameBytes(f)
        <==> |f.payload| % 0x1_0000 != 65534 && |f.payload| % 0x1_0000 != 65535
    ensures |f.payload| <= MAX_PAYLOAD ==> KcpBytes(Bytes16(f.cmd) + f.payload) == FrameBytes(f)
  {
    var data := Bytes16(f.cmd) + f.payload;
    var totalLen := Truncate16(|data|);
    assert totalLen == Truncate16(2 + |f.payload|);
    if FrameBytes(f).Some? {
      assert data[..totalLen] == Bytes16(f.cmd) + f.payload[..totalLen - 2];
      Associative16(Bytes16(totalLen), Bytes16(f.cmd), f.payload[..totalLen - 2]);
    }
  }

  lemma Associative16(a: seq<byte>, b: seq<byte>, c: seq<byte>)
    ensures a + b + c == a + (b + c)
  {
  }
}
