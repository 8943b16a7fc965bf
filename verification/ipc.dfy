/**
 IPC framing: a four-byte little-endian length and a payload of 1 byte to 4 MiB.  The payload is
 JSON text; (de)serialisation is left open as a pair of functions.
 */
module IpcFraming {
  import opened Common

  const MAX_FRAME_BYTES: nat := 4 * 1024 * 1024

  datatype FrameError = UnexpectedEof | BadJson | InvalidSize(actual: nat)

  /** Serialisation of one message type; `decode` rejects malformed and trailing text. */
  datatype Codec<!M> = Codec(encode: M -> Bytes, decode: Bytes -> Option<M>)

  ghost predicate Faithful<M(!new)>(c: Codec<M>) {
    forall m :: c.decode(c.encode(m)) == Some(m)
  }

  function LittleEndian(n: nat): (b: Bytes)
    requires n < 0x1_0000_0000
    ensures |b| == 4
  {
    [n % 256, n / 256 % 256, n / 256 / 256 % 256, n / 256 / 256 / 256]
  }

  function FromLittleEndian(b: Bytes): nat
    requires |b| == 4
  {
    var b0: nat, b1: nat, b2: nat, b3: nat := b[0], b[1], b[2], b[3];
    b0 + 256 * (b1 + 256 * (b2 + 256 * b3))
  }

  lemma LowByte(b: nat, m: nat)
    requires b < 256
    ensures (b + 256 * m) % 256 == b && (b + 256 * m) / 256 == m
  {
  }

  lemma LittleEndianRoundTrip(n: nat)
    requires n < 0x1_0000_0000
    ensures FromLittleEndian(LittleEndian(n)) == n
  {
  }

  lemma SizeRoundTrip(b: Bytes)
    requires |b| == 4
    ensures FromLittleEndian(b) < 0x1_0000_0000 && LittleEndian(FromLittleEndian(b)) == b
  {
    var b0: nat, b1: nat, b2: nat, b3: nat := b[0], b[1], b[2], b[3];
    LowByte(b0, b1 + 256 * (b2 + 256 * b3));
    LowByte(b1, b2 + 256 * b3);
    LowByte(b2, b3);
  }

  predicate Framable(payload: Bytes) {
    1 <= |payload| <= MAX_FRAME_BYTES
  }

  function Frame(payload: Bytes): Bytes
    requires Framable(payload)
  {
    LittleEndian(|payload|) + payload
  }

  function FrameAll(payloads: seq<Bytes>): Bytes
    requires forall i :: 0 <= i < |payloads| ==> Framable(payloads[i])
  {
    if payloads == [] then [] else Frame(payloads[0]) + FrameAll(payloads[1..])
  }

  // ---------- The stream ----------

  /** Bytes waiting to be read, and everything written. */
  class Pipe {
    var input: Bytes
    var output: Bytes

    constructor (input: Bytes)
      ensures this.input == input && output == []
    {
      this.input, output := input, [];
    }

    /** Fills a buffer completely, or consumes what there is and fails. */
    method ReadExact(count: nat) returns (r: Result<Bytes, FrameError>)
      modifies this`input
      ensures r.Ok? <==> count <= |old(input)|
      ensures r.Ok? ==> r.value == old(input)[..count] && input == old(input)[count..]
      ensures r.Err? ==> r.error == UnexpectedEof && input == []
    {
      if |input| < count {
        input := [];
        return Err(UnexpectedEof);
      }
      r := Ok(input[..count]);
      input := input[count..];
    }
  }

  method WriteFrame<M>(pipe: Pipe, codec: Codec<M>, message: M) returns (r: Result<(), FrameError>)
    modifies pipe`output
    ensures r.Ok? <==> Framable(codec.encode(message))
    ensures r.Ok? ==> pipe.output == old(pipe.output) + Frame(codec.encode(message))
    ensures r.Err? ==> r.error == InvalidSize(|codec.encode(message)|) && pipe.output == old(pipe.output)
  {
    var payload := codec.encode(message);
    if payload == [] || |payload| > MAX_FRAME_BYTES {
      return Err(InvalidSize(|payload|));
    }
    pipe.output := pipe.output + LittleEndian(|payload|);
    pipe.output := pipe.output + payload;
    r := Ok(());
  }

  /** What reading one frame does: the result and what is left unread. */
  function Received<M>(codec: Codec<M>, input: Bytes): (Result<M, FrameError>, Bytes) {
    if |input| < 4 then (Err(UnexpectedEof), [])
    else
      var size := FromLittleEndian(input[..4]);
      if size == 0 || size > MAX_FRAME_BYTES then (Err(InvalidSize(size)), input[4..])
      else if |input| - 4 < size then (Err(UnexpectedEof), [])
      else match codec.decode(input[4..4 + size])
        case Some(m) => (Ok(m), input[4 + size..])
        case None => (Err(BadJson), input[4 + size..])
  }

  method ReadFrame<M>(pipe: Pipe, codec: Codec<M>) returns (r: Result<M, FrameError>)
    modifies pipe`input
    ensures (r, pipe.input) == Received(codec, old(pipe.input))
    // A bad length is refused before any payload byte is read.
    ensures r.Err? && r.error.InvalidSize? ==>
              |old(pipe.input)| >= 4 && pipe.input == old(pipe.input)[4..]
              && (r.error.actual == 0 || r.error.actual > MAX_FRAME_BYTES)
  {
    var header := pipe.ReadExact(4);
    if header.Err? {
      return Err(header.error);
    }
    var size := FromLittleEndian(header.value);
    if size == 0 || size > MAX_FRAME_BYTES {
      return Err(InvalidSize(size));
    }
    var payload := pipe.ReadExact(size);
    if payload.Err? {
      return Err(payload.error);
    }
    assert payload.value == old(pipe.input)[4..4 + size];
    var value := codec.decode(payload.value);
    match value
    case Some(m) => r := Ok(m);
    case None => r := Err(BadJson);
  }

  // ---------- Framing is faithful ----------

  lemma ReceivesFrame<M>(codec: Codec<M>, payload: Bytes, rest: Bytes)
    requires Framable(payload)
    ensures Received(codec, Frame(payload) + rest) ==
            (match codec.decode(payload) case Some(m) => Ok(m) case None => Err(BadJson), rest)
  {
    var t := Frame(payload) + rest;
    LittleEndianRoundTrip(|payload|);
    assert t[..4] == LittleEndian(|payload|);
    assert t[4..4 + |payload|] == payload && t[4 + |payload|..] == rest;
  }

  function ReceivedAll<M>(codec: Codec<M>, count: nat, input: Bytes): (Option<seq<M>>, Bytes) {
    if count == 0 then (Some([]), input)
    else
      var (first, rest) := Received(codec, input);
      match first
      case Err(_) => (None, rest)
      case Ok(m) =>
        var (more, after) := ReceivedAll(codec, count - 1, rest);
        match more
        case None => (None, after)
        case Some(ms) => (Some([m] + ms), after)
  }

  ghost function Payloads<M>(codec: Codec<M>, messages: seq<M>): seq<Bytes> {
    seq(|messages|, i requires 0 <= i < |messages| => codec.encode(messages[i]))
  }

  /** Reading the concatenated frames of any messages gives back exactly those messages, in order. */
  lemma {:induction false} MessagesRoundTrip<M(!new)>(codec: Codec<M>, messages: seq<M>, rest: Bytes)
    requires Faithful(codec)
    requires forall i :: 0 <= i < |messages| ==> Framable(codec.encode(messages[i]))
    ensures ReceivedAll(codec, |messages|, FrameAll(Payloads(codec, messages)) + rest) == (Some(messages), rest)
  {
    hide Frame, Received;
    var payloads := Payloads(codec, messages);
    if messages == [] {
      assert FrameAll(payloads) + rest == rest;
    } else {
      var tail := FrameAll(payloads[1..]) + rest;
      assert payloads[1..] == Payloads(codec, messages[1..]);
      assert FrameAll(payloads) + rest == Frame(payloads[0]) + tail;
      ReceivesFrame(codec, payloads[0], tail);
      MessagesRoundTrip(codec, messages[1..], rest);
      assert messages == [messages[0]] + messages[1..];
    }
  }

  /** No proper prefix of a frame yields a value. */
  lemma PrefixYieldsNothing<M>(codec: Codec<M>, payload: Bytes, k: nat)
    requires Framable(payload) && k < |Frame(payload)|
    ensures Received(codec, Frame(payload)[..k]) == (Err(UnexpectedEof), [])
  {
    if k >= 4 {
      LittleEndianRoundTrip(|payload|);
      assert Frame(payload)[..k][..4] == LittleEndian(|payload|);
    }
  }

  /** A value is received exactly from a well-formed frame: conversely to the round trip, whatever
      was accepted was the frame of a payload that decodes to it. */
  lemma OnlyFramesAreAccepted<M>(codec: Codec<M>, input: Bytes)
    requires Received(codec, input).0.Ok?
    ensures var (r, rest) := Received(codec, input);
            exists payload :: Framable(payload) && input == Frame(payload) + rest && codec.decode(payload) == Some(r.value)
  {
    var size := FromLittleEndian(input[..4]);
    var payload := input[4..4 + size];
    SizeRoundTrip(input[..4]);
    assert input == Frame(payload) + input[4 + size..];
  }
}
