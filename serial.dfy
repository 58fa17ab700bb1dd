/** The Web Serial adapter (ArduinoSerial): the port and stream handles it
    holds, the connect sequence with its failure paths and error-message
    mapping, the read loop over the results the stream reader delivers, and
    disconnect. The browser calls (requestPort, open, getReader, read,
    cancel, close) are replaced by their outcomes, given as inputs. */
module Serial {
  import opened Wrappers
  import opened JsText
  import opened Framing
  import opened Sequences

  // The messages are written as concatenations of short pieces, which keeps
  // the reasoning about their characters small.
  const ApiMissing: string := "Web Serial API is " + "not supported" + " in this browser"
  const NotReadable: string := "시리얼 포트를 읽을 수 없습니다."
  const PortCancelled: string := "포트 선택이 취소되었습니다."
  const BrowserUnsupported: string :=
    "Web Serial " + "API를 지원하지 " + "않는 브라우저입니다." + "\n" +
    "Chrome, " + "Edge, Opera " + "등의 최신 " + "브라우저를 사용해주세요."

  /** The message connect rethrows for a failure with message msg. */
  function SerialConnectError(msg: string): (r: string)
    ensures Includes(msg, "No port selected") ==> r == PortCancelled
    ensures !Includes(msg, "No port selected") && Includes(msg, "not supported") ==> r == BrowserUnsupported
    ensures !Includes(msg, "No port selected") && !Includes(msg, "not supported") ==> r == msg
    ensures r != msg ==> r == PortCancelled || r == BrowserUnsupported
  {
    if Includes(msg, "No port selected") then PortCancelled
    else if Includes(msg, "not supported") then BrowserUnsupported
    else msg
  }

  /** The error thrown when navigator.serial is missing is reported with the
      browser-support message. */
  lemma ApiMissingReported()
    ensures SerialConnectError(ApiMissing) == BrowserUnsupported
  {
    assert 'N' !in ApiMissing;
    ExcludesByChar(ApiMissing, "No port selected", 0);
    IncludesMiddle("Web Serial API is ", "not supported", " in this browser");
  }

  /** A port without a readable stream is reported as it is thrown. */
  lemma NotReadableReported()
    ensures SerialConnectError(NotReadable) == NotReadable
  {
    assert 'N' !in NotReadable && 'n' !in NotReadable;
    ExcludesByChar(NotReadable, "No port selected", 0);
    ExcludesByChar(NotReadable, "not supported", 0);
  }

  lemma BrowserUnsupportedLacksN()
    ensures 'N' !in BrowserUnsupported
  {
  }

  lemma BrowserUnsupportedLacksU()
    ensures 'u' !in BrowserUnsupported
  {
  }

  /** Mapping is idempotent: the two replacement messages contain neither
      trigger phrase, so a mapped message maps to itself. */
  lemma SerialConnectErrorIdempotent(msg: string)
    ensures SerialConnectError(SerialConnectError(msg)) == SerialConnectError(msg)
  {
    assert 'N' !in PortCancelled && 'n' !in PortCancelled;
    ExcludesByChar(PortCancelled, "No port selected", 0);
    ExcludesByChar(PortCancelled, "not supported", 0);
    BrowserUnsupportedLacksN();
    ExcludesByChar(BrowserUnsupported, "No port selected", 0);
    BrowserUnsupportedLacksU();
    ExcludesByChar(BrowserUnsupported, "not supported", 5);
  }

  // ---------------------------------------------------------------------------
  // the adapter

  /** A port as navigator.serial.requestPort hands it over: which streams it
      offers once opened. */
  datatype Port = Port(readable: bool, writable: bool)

  /** A lock on the port's readable stream (getReader) or writable stream
      (getWriter). */
  datatype Reader = Reader
  datatype Writer = Writer

  /** What the browser does during one connect: whether navigator.serial
      exists, the port the user picked or the rejection message of
      requestPort, and the rejection message of open, if any. */
  datatype SerialEnv = SerialEnv(apiAvailable: bool, requested: Result<Port, string>, openError: Option<string>)

  /** One settled reader.read(): a chunk already decoded to text, a result
      with neither value nor done, done = true, or a rejection. */
  datatype ReadResult = Chunk(text: string) | NoValue | Done | ReadFailed

  predicate EndsLoop(r: ReadResult) {
    r.Done? || r.ReadFailed?
  }

  /** How many results the read loop takes: up to and including the first
      done or failed read. */
  function ReadsTaken(results: seq<ReadResult>): (n: nat)
    ensures n <= |results|
  {
    if |results| == 0 then 0
    else if EndsLoop(results[0]) then 1
    else 1 + ReadsTaken(results[1..])
  }

  /** The loop takes every result before the first done or failed read, and
      that read itself when there is one. */
  lemma {:induction false} ReadsTakenStopsAtFirstEnd(results: seq<ReadResult>)
    ensures var n := ReadsTaken(results);
      && (forall i :: 0 <= i < n - 1 ==> !EndsLoop(results[i]))
      && ((n > 0 && EndsLoop(results[n - 1])) || (n == |results| && forall i :: 0 <= i < n ==> !EndsLoop(results[i])))
    decreases |results|
  {
    if |results| > 0 && !EndsLoop(results[0]) {
      ReadsTakenStopsAtFirstEnd(results[1..]);
      var n := ReadsTaken(results);
      assert forall i :: 1 <= i < n ==> results[i] == results[1..][i - 1];
    }
  }

  /** The text a result delivers to processData. */
  function TextOf(r: ReadResult): string {
    if r.Chunk? then r.text else ""
  }

  /** The text of the chunks among the given results, in order. */
  function Received(results: seq<ReadResult>): string {
    if |results| == 0 then "" else Received(results[..|results| - 1]) + TextOf(results[|results| - 1])
  }

  lemma ReceivedStep(results: seq<ReadResult>, k: nat)
    requires k < |results|
    ensures Received(results[..k + 1]) == Received(results[..k]) + TextOf(results[k])
  {
    assert results[..k + 1][..k] == results[..k];
  }

  lemma ReadsTakenStep(results: seq<ReadResult>, k: nat)
    requires k < |results|
    ensures ReadsTaken(results[k..]) == if EndsLoop(results[k]) then 1 else 1 + ReadsTaken(results[k + 1..])
  {
    assert results[k..][1..] == results[k + 1..];
  }

  lemma ReadsTakenEnd(results: seq<ReadResult>, k: nat)
    requires k == |results|
    ensures ReadsTaken(results[k..]) == 0
  {
  }

  lemma FeedChunk(handler: Option<HandlerId>, start: string, received: string, text: string)
    ensures Rest(Rest(start + received) + text) == Rest(start + (received + text))
    ensures Calls(handler, Readings(Complete(start + received)))
      + Calls(handler, Readings(Complete(Rest(start + received) + text)))
      == Calls(handler, Readings(Complete(start + (received + text))))
  {
    FeedTwice(start, received, text);
    CallsFeedTwice(handler, start, received, text);
    assert start + received + text == start + (received + text);
  }

  class ArduinoSerial {
    var port: Option<Port>
    var reader: Option<Reader>
    var writer: Option<Writer>
    var isReading: bool
    /** The data buffer and the registered data handler. */
    const framer: LineFramer

    predicate Valid()
      reads this, framer
    {
      framer.Valid() && (reader.Some? ==> port.Some?)
    }

    constructor()
      ensures Valid() && fresh(framer)
      ensures port == None && reader == None && writer == None && !isReading
      ensures framer.buffer == "" && framer.handler == None && framer.emitted == []
    {
      port := None;
      reader := None;
      writer := None;
      isReading := false;
      framer := new LineFramer();
    }

    /** isConnected(): both a port and a reader are held. */
    predicate IsConnected()
      reads this
    {
      port.Some? && reader.Some?
    }

    /** setDataHandler: later readings go to handler only. */
    method SetDataHandler(handler: HandlerId)
      requires Valid()
      modifies framer
      ensures Valid()
      ensures framer.handler == Some(handler)
      ensures framer.buffer == old(framer.buffer) && framer.emitted == old(framer.emitted)
    {
      framer.SetHandler(handler);
    }

    /** connect(): the outcome is Pass, or Fail with the message thrown. */
    method Connect(env: SerialEnv) returns (outcome: Outcome<string>)
      requires Valid()
      modifies this
      ensures Valid()
      ensures !env.apiAvailable || env.requested.Failure? ==>
        && outcome == Fail(SerialConnectError(if env.apiAvailable then env.requested.error else ApiMissing))
        && port == old(port) && reader == old(reader) && writer == old(writer) && isReading == old(isReading)
      ensures outcome.Pass? <==>
        env.apiAvailable && env.requested.Success? && env.openError.None? && env.requested.value.readable
      ensures outcome.Pass? ==> IsConnected() && isReading
      ensures env.apiAvailable && env.requested.Success? ==> port == Some(env.requested.value)
      ensures env.apiAvailable && env.requested.Success? && env.openError.Some? ==>
        && outcome == Fail(SerialConnectError(env.openError.value))
        && reader == old(reader) && writer == old(writer) && isReading == old(isReading)
      ensures env.apiAvailable && env.requested.Success? && env.openError.None? ==>
        var p := env.requested.value;
        && writer == (if p.writable then Some(Writer) else old(writer))
        && (p.readable ==> outcome == Pass && reader == Some(Reader) && isReading)
        && (!p.readable ==> outcome == Fail(NotReadable) && reader == old(reader) && isReading == old(isReading))
    {
      if !env.apiAvailable {
        return Fail(SerialConnectError(ApiMissing));
      }
      match env.requested
      case Failure(e) =>
        return Fail(SerialConnectError(e));
      case Success(p) =>
        port := Some(p);
        if env.openError.Some? {
          return Fail(SerialConnectError(env.openError.value));
        }
        if p.writable {
          writer := Some(Writer);
        }
        if p.readable {
          reader := Some(Reader);
          isReading := true;
          // readLoop is started here without being awaited; see ReadLoop
          outcome := Pass;
        } else {
          NotReadableReported();
          outcome := Fail(SerialConnectError(NotReadable));
        }
    }

    /** processData: one decoded chunk into the line framer. */
    method ProcessData(text: string)
      modifies framer
      ensures framer.Valid()
      ensures framer.buffer == Rest(old(framer.buffer) + text)
      ensures framer.handler == old(framer.handler)
      ensures framer.emitted == old(framer.emitted) + Calls(framer.handler, Readings(Complete(old(framer.buffer) + text)))
    {
      framer.Feed(text);
    }

    /** The framer holds what feeding `received` after `start` leaves, with
        the calls appended to the log `before`. */
    ghost predicate FedSince(before: seq<Call>, start: string, handler: Option<HandlerId>, received: string)
      reads framer
    {
      && framer.handler == handler
      && framer.buffer == Rest(start + received)
      && framer.emitted == before + Calls(handler, Readings(Complete(start + received)))
    }

    /** readLoop over the results the reader delivers, in order; returns how
        many were taken. */
    method ReadLoop(results: seq<ReadResult>) returns (taken: nat)
      requires framer.Valid()
      modifies framer
      ensures taken == if reader.Some? && isReading then ReadsTaken(results) else 0
      ensures framer.handler == old(framer.handler)
      ensures framer.buffer == Rest(old(framer.buffer) + Received(results[..taken]))
      ensures framer.emitted ==
        old(framer.emitted) + Calls(framer.handler, Readings(Complete(old(framer.buffer) + Received(results[..taken]))))
    {
      taken := 0;
      ghost var before, start, handler, received := framer.emitted, framer.buffer, framer.handler, "";
      RestAfterLastNewline(start);
      assert start + received == start;
      if reader.None? {
        return;
      }
      while isReading && reader.Some? && taken < |results|
        invariant taken <= |results|
        invariant received == Received(results[..taken])
        invariant !isReading ==> taken == 0
        invariant isReading ==> ReadsTaken(results) == taken + ReadsTaken(results[taken..])
        invariant FedSince(before, start, handler, received)
        decreases |results| - taken
      {
        var result := results[taken];
        ReceivedStep(results, taken);
        ReadsTakenStep(results, taken);
        taken := taken + 1;
        match result
        case Done =>
          assert received + "" == received;
          break;
        case ReadFailed =>
          // caught and logged; the loop ends without rethrowing
          assert received + "" == received;
          break;
        case NoValue =>
          assert received + "" == received;
        case Chunk(text) =>
          ghost var now := Calls(handler, Readings(Complete(start + received)));
          ghost var next := Calls(handler, Readings(Complete(Rest(start + received) + text)));
          FeedChunk(handler, start, received, text);
          ProcessData(text);
          AppendAssociative(before, now, next);
          received := received + text;
      }
      if taken == |results| {
        ReadsTakenEnd(results, taken);
      }
      assert FedSince(before, start, handler, Received(results[..taken]));
    }

    /** disconnect(): every handle is dropped, whether or not cancelling and
        closing them succeeds. */
    method Disconnect()
      requires Valid()
      modifies this
      ensures Valid()
      ensures !isReading && port == None && reader == None && writer == None
      ensures !IsConnected()
    {
      isReading := false;
      if reader.Some? {
        reader := None;
      }
      if writer.Some? {
        writer := None;
      }
      if port.Some? {
        port := None;
      }
    }
  }
}
