/** The container-log relay (backend/internal/websocket/logs_handler.go).

    The runtime multiplexes stdout and stderr into frames: a 1-byte stream
    type, 3 reserved bytes, a 4-byte big-endian payload length, then the
    payload. The handler reads the log stream into an 8192-byte buffer and
    strips the framing from each read on its own; nothing is carried from one
    read to the next. */
module LogStream {
  import opened Primitives
  import Validation
  import WsCommon

  const HeaderSize: nat := 8
  const ReadBufferSize: nat := 8192

  // ---- Framing ----

  function BigEndianU32(b: seq<byte>): (n: u32)
    requires |b| == 4
  {
    var b0: nat, b1: nat, b2: nat, b3: nat := b[0], b[1], b[2], b[3];
    ((b0 * 0x100 + b1) * 0x100 + b2) * 0x100 + b3
  }

  function U32Bytes(n: u32): (b: seq<byte>)
    ensures |b| == 4 && BigEndianU32(b) == n
  {
    [n / 0x100_0000, (n / 0x1_0000) % 0x100, (n / 0x100) % 0x100, n % 0x100]
  }

  /** The payload length a header at the front of `data` declares: bytes 4..7. */
  function DeclaredSize(data: seq<byte>): u32
    requires |data| >= HeaderSize
  {
    BigEndianU32(data[4..HeaderSize])
  }

  /** The loop of `stripDockerHeader`, as a function of the bytes not yet
      consumed: a short tail is kept verbatim, a frame running past the end
      loses its header and keeps the rest, a complete frame yields its
      payload and parsing continues after it. */
  function StripFrames(rest: seq<byte>): (out: seq<byte>)
    ensures |out| <= |rest|
    decreases |rest|
  {
    if |rest| == 0 then []
    else if |rest| < HeaderSize then rest
    else
      var size := DeclaredSize(rest);
      if HeaderSize + size > |rest| then rest[HeaderSize..]
      else rest[HeaderSize..HeaderSize + size] + StripFrames(rest[HeaderSize + size..])
  }

  /** `stripDockerHeader`: an input shorter than one header is returned as is. */
  function StripDockerHeader(data: seq<byte>): (out: seq<byte>)
    ensures |data| < HeaderSize ==> out == data
    ensures |out| <= |data|
  {
    if |data| < HeaderSize then data else StripFrames(data)
  }

  // ---- Well-formed frame streams ----

  datatype Frame = Frame(streamType: byte, reserved: seq<byte>, payload: seq<byte>)

  predicate WellFormed(f: Frame)
  {
    |f.reserved| == 3 && |f.payload| < TWO_32
  }

  predicate AllWellFormed(fs: seq<Frame>)
  {
    forall i :: 0 <= i < |fs| ==> WellFormed(fs[i])
  }

  function EncodeFrame(f: Frame): (b: seq<byte>)
    requires WellFormed(f)
    ensures |b| == HeaderSize + |f.payload|
  {
    [f.streamType] + f.reserved + U32Bytes(|f.payload|) + f.payload
  }

  function EncodeFrames(fs: seq<Frame>): seq<byte>
    requires AllWellFormed(fs)
  {
    if |fs| == 0 then [] else EncodeFrame(fs[0]) + EncodeFrames(fs[1..])
  }

  function Payloads(fs: seq<Frame>): seq<byte>
  {
    if |fs| == 0 then [] else fs[0].payload + Payloads(fs[1..])
  }

  /** One complete frame in front of any bytes is replaced by its payload. */
  lemma StripOneFrame(f: Frame, more: seq<byte>)
    requires WellFormed(f)
    ensures StripFrames(EncodeFrame(f) + more) == f.payload + StripFrames(more)
  {
    var header := [f.streamType] + f.reserved + U32Bytes(|f.payload|);
    assert |header| == HeaderSize;
    var data := EncodeFrame(f) + more;
    assert data == header + (f.payload + more);
    assert data[4..HeaderSize] == header[4..] == U32Bytes(|f.payload|);
    assert DeclaredSize(data) == |f.payload|;
    assert data[HeaderSize..] == f.payload + more;
    assert data[HeaderSize..HeaderSize + |f.payload|] == f.payload;
    assert data[HeaderSize + |f.payload|..] == more;
  }

  /** Complete frames in front of any bytes are replaced by their payloads,
      whatever their stream-type and reserved bytes. */
  lemma {:induction false} StripFramesAfterFrames(fs: seq<Frame>, x: seq<byte>)
    requires AllWellFormed(fs)
    ensures StripFrames(EncodeFrames(fs) + x) == Payloads(fs) + StripFrames(x)
  {
    if |fs| == 0 {
      assert EncodeFrames(fs) + x == x;
    } else {
      var more := EncodeFrames(fs[1..]) + x;
      assert EncodeFrames(fs) + x == EncodeFrame(fs[0]) + more;
      StripOneFrame(fs[0], more);
      StripFramesAfterFrames(fs[1..], x);
    }
  }

  /** Round trip: a concatenation of well-formed frames, optionally followed
      by a tail shorter than a header, strips to the payloads in order
      followed by that tail verbatim. */
  lemma RoundTrip(fs: seq<Frame>, tail: seq<byte>)
    requires AllWellFormed(fs) && |tail| < HeaderSize
    ensures StripDockerHeader(EncodeFrames(fs) + tail) == Payloads(fs) + tail
  {
    StripFramesAfterFrames(fs, tail);
    if |fs| == 0 {
      assert EncodeFrames(fs) + tail == tail;
    } else {
      assert |EncodeFrames(fs)| >= |EncodeFrame(fs[0])|;
    }
  }

  /** A frame whose declared length runs past the end of the read loses its
      8-byte header; the bytes after it are kept and parsing stops. */
  lemma TruncatedFrame(fs: seq<Frame>, header: seq<byte>, partial: seq<byte>)
    requires AllWellFormed(fs) && |header| == HeaderSize
    requires DeclaredSize(header) > |partial|
    ensures StripDockerHeader(EncodeFrames(fs) + header + partial) == Payloads(fs) + partial
  {
    assert EncodeFrames(fs) + header + partial == EncodeFrames(fs) + (header + partial);
    StripFramesAfterFrames(fs, header + partial);
    assert (header + partial)[4..HeaderSize] == header[4..HeaderSize];
  }

  /** Only the length field is read: the stream-type and reserved bytes of
      the first header do not affect the output. */
  lemma TagBytesIgnored(data: seq<byte>, tag: seq<byte>)
    requires |data| >= HeaderSize && |tag| == 4
    ensures StripDockerHeader(tag + data[4..]) == StripDockerHeader(data)
  {
    var d := tag + data[4..];
    assert d[4..] == data[4..];
    assert d[4..HeaderSize] == data[4..HeaderSize];
    var size := DeclaredSize(data);
    assert DeclaredSize(d) == size;
    if HeaderSize + size <= |data| {
      assert d[HeaderSize..HeaderSize + size] == data[HeaderSize..HeaderSize + size];
      assert d[HeaderSize + size..] == data[HeaderSize + size..];
    } else {
      assert d[HeaderSize..] == data[HeaderSize..];
    }
  }

  // ---- The handler ----

  datatype LogsOptions = LogsOptions(
    showStdout: bool, showStderr: bool, follow: bool, tail: string, timestamps: bool, since: string)

  datatype Rejection = Rejection(status: int, error: string)

  /** gin's `DefaultQuery`: the first value of the parameter when present, even if empty. */
  function DefaultQuery(query: map<string, string>, key: string, default: string): string
  {
    if key in query then query[key] else default
  }

  /** The gate and option set-up of `LogsHandler` before the upgrade. */
  function LogsRequest(id: string, query: map<string, string>): (r: Result<LogsOptions, Rejection>)
    ensures id == "" ==> r == Err(Rejection(400, "Container ID is required"))
    ensures id != "" && !Validation.ValidateContainerID(id) ==> r == Err(Rejection(400, "Invalid container ID format"))
    ensures r.Ok? <==> Validation.ValidateContainerID(id)
    ensures r.Ok? ==> && r.value.tail == (if "tail" in query then query["tail"] else "100")
                      && (r.value.follow <==> "follow" !in query || query["follow"] == "true")
                      && r.value.since == (if "since" in query then query["since"] else "")
                      && r.value.showStdout && r.value.showStderr && r.value.timestamps
  {
    if id == "" then Err(Rejection(400, "Container ID is required"))
    else if !Validation.ValidateContainerID(id) then Err(Rejection(400, "Invalid container ID format"))
    else
      var tail := DefaultQuery(query, "tail", "100");
      var follow := DefaultQuery(query, "follow", "true") == "true";
      var since := DefaultQuery(query, "since", "");
      var opts := LogsOptions(true, true, follow, tail, true, "");
      Ok(if since != "" then opts.(since := since) else opts)
  }

  /** The read loop over the chunks of successful reads (see
      `DeliveredChunks`): each chunk is stripped on its own; an empty read is
      skipped and a text message is written only when the stripped bytes are
      non-empty. */
  function RelayChunks(chunks: seq<seq<byte>>): (msgs: seq<seq<byte>>)
    ensures |msgs| <= |chunks|
    ensures forall i :: 0 <= i < |msgs| ==> |msgs[i]| > 0
  {
    if |chunks| == 0 then []
    else
      var earlier := RelayChunks(chunks[..|chunks| - 1]);
      var chunk := chunks[|chunks| - 1];
      if |chunk| == 0 then earlier
      else
        var stripped := StripDockerHeader(chunk);
        if |stripped| > 0 then earlier + [stripped] else earlier
  }

  /** No state is carried between chunks: relaying two runs of chunks is
      relaying each run separately. */
  lemma {:induction false} RelayIsStateless(a: seq<seq<byte>>, b: seq<seq<byte>>)
    ensures RelayChunks(a + b) == RelayChunks(a) + RelayChunks(b)
    decreases |b|
  {
    if |b| == 0 {
      assert a + b == a;
    } else {
      var b' := b[..|b| - 1];
      assert (a + b)[..|a + b| - 1] == a + b';
      assert (a + b)[|a + b| - 1] == b[|b| - 1];
      RelayIsStateless(a, b');
    }
  }

  /** Each written message is the stripped form of exactly one read. */
  lemma {:induction false} MessagesComeFromReads(chunks: seq<seq<byte>>)
    ensures forall m :: m in RelayChunks(chunks) ==> exists i :: 0 <= i < |chunks| && m == StripDockerHeader(chunks[i])
  {
    if |chunks| > 0 {
      var init := chunks[..|chunks| - 1];
      MessagesComeFromReads(init);
      forall m | m in RelayChunks(chunks)
        ensures exists i :: 0 <= i < |chunks| && m == StripDockerHeader(chunks[i])
      {
        if m in RelayChunks(init) {
          var i :| 0 <= i < |init| && m == StripDockerHeader(init[i]);
          assert chunks[i] == init[i];
        } else {
          assert m == StripDockerHeader(chunks[|chunks| - 1]);
        }
      }
    }
  }

  /** How one `Read` call on the log stream ended. */
  datatype ReadOutcome = ReadOk | EndOfStream | ReadFailed

  /** One `Read` call: the bytes it put into the buffer and how it ended.
      A reader may hand back bytes together with end of stream or an error. */
  datatype LogRead = LogRead(data: seq<byte>, outcome: ReadOutcome)

  /** The read loop looks at the error before the byte count: the chunks it
      strips are the data of the reads before the first one that did not end
      `ReadOk`, and that read's own bytes are dropped. */
  function DeliveredChunks(rs: seq<LogRead>): (chunks: seq<seq<byte>>)
    ensures |chunks| <= |rs|
    ensures forall i :: 0 <= i < |chunks| ==> rs[i].outcome == ReadOk && chunks[i] == rs[i].data
    ensures |chunks| < |rs| ==> rs[|chunks|].outcome != ReadOk
    decreases |rs|
  {
    if |rs| == 0 || rs[0].outcome != ReadOk then []
    else [rs[0].data] + DeliveredChunks(rs[1..])
  }

  /** Bytes that arrive together with end of stream or a read error are never
      relayed, and nothing after that read is looked at. */
  lemma {:induction false} FinalReadDropped(oks: seq<LogRead>, last: LogRead, rest: seq<LogRead>)
    requires forall i :: 0 <= i < |oks| ==> oks[i].outcome == ReadOk
    requires last.outcome != ReadOk
    ensures DeliveredChunks(oks + [last] + rest) == DeliveredChunks(oks)
    ensures |DeliveredChunks(oks)| == |oks|
    decreases |oks|
  {
    if |oks| == 0 {
      assert (oks + [last] + rest)[0] == last;
    } else {
      assert (oks + [last] + rest)[1..] == oks[1..] + [last] + rest;
      FinalReadDropped(oks[1..], last, rest);
    }
  }

  /** A complete frame delivered in the same read as end of stream is lost. */
  lemma FrameWithEndOfStreamLost()
    ensures var frame := [1, 0, 0, 0, 0, 0, 0, 2, 104, 105];
            && StripDockerHeader(frame) == [104, 105]
            && RelayChunks(DeliveredChunks([LogRead(frame, ReadOk)])) == [[104, 105]]
            && RelayChunks(DeliveredChunks([LogRead(frame, EndOfStream)])) == []
  {
    var frame: seq<byte> := [1, 0, 0, 0, 0, 0, 0, 2, 104, 105];
    assert DeclaredSize(frame) == 2;
    assert frame[HeaderSize + 2..] == [];
    assert [frame][..0] == [];
    assert [LogRead(frame, ReadOk)][1..] == [];
  }

  /** A read fills at most the 8192-byte buffer. */
  predicate FitsBuffer(rs: seq<LogRead>)
  {
    forall i :: 0 <= i < |rs| ==> |rs[i].data| <= ReadBufferSize
  }

  /** Every text message is at most one buffer long. */
  lemma MessagesFitBuffer(rs: seq<LogRead>)
    requires FitsBuffer(rs)
    ensures forall m :: m in RelayChunks(DeliveredChunks(rs)) ==> |m| <= ReadBufferSize
  {
    var chunks := DeliveredChunks(rs);
    MessagesComeFromReads(chunks);
    forall m | m in RelayChunks(chunks) ensures |m| <= ReadBufferSize {
      var i :| 0 <= i < |chunks| && m == StripDockerHeader(chunks[i]);
      assert |chunks[i]| <= ReadBufferSize;
    }
  }

  /** What the viewer receives from one logs request. */
  datatype LogsReply =
    | Refused(rejection: Rejection)          // plain HTTP 400, no upgrade
    | OriginRefused                          // the upgrader's origin check failed: no upgrade, no log call
    | LogsUnavailable(error: string)         // one JSON message over the socket, then close
    | Relayed(options: LogsOptions, messages: seq<seq<byte>>)

  /** `LogsHandler` end to end. `allowed` is the configured origin list and
      `origin` the request's Origin header, checked by the upgrader of
      `GetUpgrader` after the ID and options and before the log call.
      `openLogs` stands for the runtime's log call: given the options it
      either fails or yields the successive reads. */
  function LogsHandler(id: string, query: map<string, string>, allowed: seq<string>, origin: string,
                       openLogs: LogsOptions -> Result<seq<LogRead>, string>): (r: LogsReply)
    ensures LogsRequest(id, query).Err? ==> r == Refused(LogsRequest(id, query).error)
    ensures LogsRequest(id, query).Ok? && !WsCommon.CheckOrigin(allowed, origin) ==> r == OriginRefused
    ensures LogsRequest(id, query).Ok? && WsCommon.CheckOrigin(allowed, origin)
            && openLogs(LogsRequest(id, query).value).Err? ==>
              r == LogsUnavailable("Failed to get logs")
    ensures LogsRequest(id, query).Ok? && WsCommon.CheckOrigin(allowed, origin)
            && openLogs(LogsRequest(id, query).value).Ok? ==>
              r == Relayed(LogsRequest(id, query).value,
                           RelayChunks(DeliveredChunks(openLogs(LogsRequest(id, query).value).value)))
    ensures r.Relayed? ==> && Validation.ValidateContainerID(id)
                           && WsCommon.CheckOrigin(allowed, origin)
                           && r.options == LogsRequest(id, query).value
                           && openLogs(r.options).Ok?
                           && r.messages == RelayChunks(DeliveredChunks(openLogs(r.options).value))
  {
    match LogsRequest(id, query)
    case Err(rej) => Refused(rej)
    case Ok(opts) =>
      if !WsCommon.CheckOrigin(allowed, origin) then OriginRefused
      else match openLogs(opts)
        case Err(_) => LogsUnavailable("Failed to get logs")
        case Ok(rs) => Relayed(opts, RelayChunks(DeliveredChunks(rs)))
  }

  /** A malformed ID is refused before the origin is looked at and before
      the runtime's log call is made: the reply depends on neither. */
  lemma InvalidIdNeverOpensLogs(id: string, query: map<string, string>,
                                allowed1: seq<string>, origin1: string,
                                allowed2: seq<string>, origin2: string,
                                open1: LogsOptions -> Result<seq<LogRead>, string>,
                                open2: LogsOptions -> Result<seq<LogRead>, string>)
    requires !Validation.ValidateContainerID(id)
    ensures LogsHandler(id, query, allowed1, origin1, open1) == LogsHandler(id, query, allowed2, origin2, open2)
    ensures LogsHandler(id, query, allowed1, origin1, open1).Refused?
    ensures LogsHandler(id, query, allowed1, origin1, open1).rejection.status == 400
  {
  }

  /** A refused origin never reaches the runtime: the reply does not depend
      on what the log call would have answered. */
  lemma ForeignOriginNeverOpensLogs(id: string, query: map<string, string>, allowed: seq<string>, origin: string,
                                    open1: LogsOptions -> Result<seq<LogRead>, string>,
                                    open2: LogsOptions -> Result<seq<LogRead>, string>)
    requires Validation.ValidateContainerID(id) && !WsCommon.CheckOrigin(allowed, origin)
    ensures LogsHandler(id, query, allowed, origin, open1) == LogsHandler(id, query, allowed, origin, open2) == OriginRefused
  {
  }

  /** A frame whose header is split across two chunks is not reassembled:
      the raw header bytes reach the viewer as text. */
  lemma SplitHeaderLeaks()
    ensures var frame := [1, 0, 0, 0, 0, 0, 0, 2, 104, 105];
            && StripDockerHeader(frame) == [104, 105]
            && RelayChunks([frame]) == [[104, 105]]
            && RelayChunks([frame[..4], frame[4..]]) == [[1, 0, 0, 0], [0, 0, 0, 2, 104, 105]]
  {
    var frame: seq<byte> := [1, 0, 0, 0, 0, 0, 0, 2, 104, 105];
    assert DeclaredSize(frame) == 2;
    assert frame[HeaderSize + 2..] == [];
    var split := [frame[..4], frame[4..]];
    assert split[..1] == [frame[..4]];
    assert [frame[..4]][..0] == [];
    assert frame[..4] == [1, 0, 0, 0];
    assert RelayChunks([frame[..4]]) == [[1, 0, 0, 0]];
    assert split[1] == [0, 0, 0, 2, 104, 105];
    assert [frame][..0] == [];
  }

  /** A frame split inside its payload is not reassembled either: the first
      read yields the start of the payload, and the first 8 bytes of the
      continuation are taken for a header and dropped, so that much log text
      never reaches the viewer and no header bytes are shown. */
  lemma SplitPayloadLosesText()
    ensures var payload := seq(20, _ => 97 as byte);
            var frame := [1, 0, 0, 0, 0, 0, 0, 20] + payload;
            && StripDockerHeader(frame) == payload
            && RelayChunks([frame[..12], frame[12..]]) == [payload[..4], payload[12..]]
  {
    var payload: seq<byte> := seq(20, _ => 97 as byte);
    var frame: seq<byte> := [1, 0, 0, 0, 0, 0, 0, 20] + payload;
    assert frame[4..HeaderSize] == [0, 0, 0, 20];
    assert DeclaredSize(frame) == 20;
    assert frame[HeaderSize..HeaderSize + 20] == payload && frame[HeaderSize + 20..] == [];
    var first, second := frame[..12], frame[12..];
    assert first[4..HeaderSize] == [0, 0, 0, 20];
    assert DeclaredSize(first) == 20;
    assert first[HeaderSize..] == payload[..4];
    assert second[4..HeaderSize] == [97, 97, 97, 97];
    assert DeclaredSize(second) == 0x6161_6161;
    assert second[HeaderSize..] == payload[12..];
    var chunks := [first, second];
    var none: seq<seq<byte>> := [];
    assert chunks[..1] == [first] && [first][..0] == none;
  }
}
