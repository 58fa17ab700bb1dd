/** The line framer that both transport adapters run on every decoded text
    chunk: the chunk is appended to a buffer, the buffer is cut at '\n', the
    last (possibly partial) piece is kept as the new buffer, and every
    complete non-empty piece goes through the CSV decoder; each decoded
    reading is handed to the registered data handler, if any. */
module Framing {
  import opened Wrappers
  import opened JsText
  import opened SensorDecoder
  import opened Sequences

  /** The identity of a registered data-handler callback. */
  type HandlerId = nat

  /** One invocation of a data handler with a decoded reading. */
  datatype Call = Call(handler: HandlerId, reading: Reading)

  /** The complete lines of s: every piece of s.split("\n") except the last. */
  function Complete(s: string): (lines: seq<string>)
    ensures forall i :: 0 <= i < |lines| ==> '\n' !in lines[i]
  {
    var pieces := Split(s, '\n');
    pieces[..|pieces| - 1]
  }

  /** The piece that lines.pop() removes: the text after the last '\n'. */
  function Rest(s: string): (r: string)
    ensures '\n' !in r
  {
    var pieces := Split(s, '\n');
    pieces[|pieces| - 1]
  }

  /** The readings one complete line yields: none for an empty line (it is
      skipped before decoding) or an undecodable one, else exactly one. */
  function LineReadings(line: string): (rs: seq<Reading>)
    ensures |rs| <= 1
  {
    if |line| == 0 then []
    else match DecodeLine(line)
      case None => []
      case Some(r) => [r]
  }

  /** The readings of a sequence of complete lines, in line order. */
  function Readings(lines: seq<string>): seq<Reading> {
    if |lines| == 0 then [] else Readings(lines[..|lines| - 1]) + LineReadings(lines[|lines| - 1])
  }

  /** The calls `this.onDataReceived?.(data)` makes for the given readings:
      one per reading, in order, when a handler is set; none otherwise. */
  function Calls(handler: Option<HandlerId>, rs: seq<Reading>): (cs: seq<Call>)
    ensures handler.None? ==> cs == []
    ensures handler.Some? ==> |cs| == |rs|
    ensures handler.Some? ==> forall i :: 0 <= i < |rs| ==> cs[i] == Call(handler.value, rs[i])
  {
    if handler.None? || |rs| == 0 then []
    else Calls(handler, rs[..|rs| - 1]) + [Call(handler.value, rs[|rs| - 1])]
  }

  /** The calls for at most one reading: one call carrying it when a handler
      is set, none otherwise. */
  lemma LineCalls(handler: Option<HandlerId>, rs: seq<Reading>)
    requires |rs| <= 1
    ensures Calls(handler, rs) == if |rs| == 1 && handler.Some? then [Call(handler.value, rs[0])] else []
  {
    if |rs| == 1 && handler.Some? {
      assert rs[..0] == [];
    }
  }

  lemma {:induction false} CallsAppend(handler: Option<HandlerId>, a: seq<Reading>, b: seq<Reading>)
    ensures Calls(handler, a + b) == Calls(handler, a) + Calls(handler, b)
    decreases |b|
  {
    if handler.Some? && |b| > 0 {
      assert (a + b)[..|a + b| - 1] == a + b[..|b| - 1];
      CallsAppend(handler, a, b[..|b| - 1]);
    } else if handler.Some? {
      assert a + b == a;
    }
  }

  lemma ReadingsStep(lines: seq<string>, i: nat)
    requires i < |lines|
    ensures Readings(lines[..i + 1]) == Readings(lines[..i]) + LineReadings(lines[i])
  {
    assert lines[..i + 1][..i] == lines[..i];
  }

  lemma CallsStep(handler: Option<HandlerId>, lines: seq<string>, i: nat)
    requires i < |lines|
    ensures Calls(handler, Readings(lines[..i + 1]))
      == Calls(handler, Readings(lines[..i])) + Calls(handler, LineReadings(lines[i]))
  {
    ReadingsStep(lines, i);
    CallsAppend(handler, Readings(lines[..i]), LineReadings(lines[i]));
  }

  // ---------------------------------------------------------------------------
  // properties of the framing

  /** The kept fragment and the complete lines, rejoined with '\n', give back
      exactly the text that was split: nothing is lost or reordered. */
  lemma RejoinPieces(s: string)
    ensures Join(Complete(s) + [Rest(s)], "\n") == s
  {
    var pieces := Split(s, '\n');
    assert pieces[..|pieces| - 1] + [pieces[|pieces| - 1]] == pieces;
    JoinSplit(s, '\n');
    assert "\n" == ['\n'];
  }

  /** The kept fragment is the text after the last '\n', or all of s when s
      has no '\n' (and then there is no complete line). */
  lemma RestAfterLastNewline(s: string)
    ensures '\n' !in s ==> Complete(s) == [] && Rest(s) == s
    ensures '\n' in s ==>
      var k := |s| - |Rest(s)| - 1;
      0 <= k && s[k] == '\n' && Rest(s) == s[k + 1..]
  {
    var pieces := Split(s, '\n');
    JoinSplit(s, '\n');
    if |pieces| == 1 {
      assert s == pieces[0];
    } else {
      assert pieces == Complete(s) + [Rest(s)];
      JoinSnoc(Complete(s), Rest(s), "\n");
      assert s == Join(Complete(s), "\n") + "\n" + Rest(s);
    }
  }

  /** Cutting s + t is cutting s, then cutting its fragment continued by t. */
  lemma FramingAppend(s: string, t: string)
    ensures Complete(s + t) == Complete(s) + Complete(Rest(s) + t)
    ensures Rest(s + t) == Rest(Rest(s) + t)
  {
    SplitAppend(s, t, '\n');
  }

  lemma {:induction false} ReadingsAppend(a: seq<string>, b: seq<string>)
    ensures Readings(a + b) == Readings(a) + Readings(b)
    decreases |b|
  {
    if |b| == 0 {
      assert a + b == a;
    } else {
      var front, last := b[..|b| - 1], b[|b| - 1];
      assert (a + b)[..|a + b| - 1] == a + front;
      assert (a + b)[|a + b| - 1] == last;
      ReadingsAppend(a, front);
      AppendAssociative(Readings(a), Readings(front), LineReadings(last));
    }
  }

  /** Two chunks in a row frame exactly like their concatenation: same kept
      fragment, same readings in the same order. */
  lemma FeedTwice(buffer: string, x: string, y: string)
    ensures Rest(Rest(buffer + x) + y) == Rest(buffer + x + y)
    ensures Readings(Complete(buffer + x)) + Readings(Complete(Rest(buffer + x) + y))
      == Readings(Complete(buffer + x + y))
  {
    FramingAppend(buffer + x, y);
    ReadingsAppend(Complete(buffer + x), Complete(Rest(buffer + x) + y));
  }

  /** The handler calls of two chunks in a row are those of their
      concatenation. */
  lemma CallsFeedTwice(handler: Option<HandlerId>, buffer: string, x: string, y: string)
    ensures Calls(handler, Readings(Complete(buffer + x))) + Calls(handler, Readings(Complete(Rest(buffer + x) + y)))
      == Calls(handler, Readings(Complete(buffer + x + y)))
  {
    FeedTwice(buffer, x, y);
    CallsAppend(handler, Readings(Complete(buffer + x)), Readings(Complete(Rest(buffer + x) + y)));
  }

  /** The empty-line check before decoding is redundant: an empty line does
      not decode anyway, so a line yields a reading iff it is decodable. */
  lemma LineReadingsDecodable(line: string)
    ensures LineReadings(line) == if Decodable(line) then [DecodeLine(line).value] else []
  {
    if |line| == 0 {
      BlankLineDropped(line);
    }
  }

  /** Every reading handed to a handler has its moisture in [0, 100]. */
  lemma {:induction false} ReadingsMoistureInRange(lines: seq<string>)
    ensures forall r :: r in Readings(lines) ==> 0 <= r.moisture <= 100
    decreases |lines|
  {
    if |lines| > 0 {
      ReadingsMoistureInRange(lines[..|lines| - 1]);
    }
  }

  /** The buffer of one adapter together with its data handler. The handler
      calls are recorded in the ghost log `emitted`. */
  class LineFramer {
    var buffer: string
    var handler: Option<HandlerId>
    ghost var emitted: seq<Call>

    /** A kept buffer never holds a complete line. */
    predicate Valid()
      reads this
    {
      '\n' !in buffer
    }

    constructor()
      ensures Valid()
      ensures buffer == "" && handler == None && emitted == []
    {
      buffer := "";
      handler := None;
      emitted := [];
    }

    /** setDataHandler: the new handler replaces any previous one. */
    method SetHandler(h: HandlerId)
      modifies this
      ensures handler == Some(h)
      ensures buffer == old(buffer) && emitted == old(emitted)
    {
      handler := Some(h);
    }

    /** The body of the per-line loop of processData / handleData: an empty
        line is skipped, a decodable one is handed to the handler. */
    method HandleLine(line: string)
      modifies this
      ensures buffer == old(buffer) && handler == old(handler)
      ensures emitted == old(emitted) + Calls(handler, LineReadings(line))
    {
      var data := LineReadings(line);
      LineCalls(handler, data);
      if |data| == 1 && handler.Some? {
        emitted := emitted + [Call(handler.value, data[0])];
      }
    }

    /** The for-of loop of processData / handleData over the complete lines,
        in order. */
    method HandleLines(lines: seq<string>)
      modifies this
      ensures buffer == old(buffer) && handler == old(handler)
      ensures emitted == old(emitted) + Calls(handler, Readings(lines))
    {
      for i := 0 to |lines|
        invariant buffer == old(buffer) && handler == old(handler)
        invariant emitted == old(emitted) + Calls(handler, Readings(lines[..i]))
      {
        CallsStep(handler, lines, i);
        HandleLine(lines[i]);
        AppendAssociative(old(emitted), Calls(handler, Readings(lines[..i])), Calls(handler, LineReadings(lines[i])));
      }
      assert lines[..|lines|] == lines;
    }

    /** processData / handleData on one chunk of text. */
    method Feed(text: string)
      modifies this
      ensures Valid()
      ensures buffer == Rest(old(buffer) + text)
      ensures handler == old(handler)
      ensures emitted == old(emitted) + Calls(handler, Readings(Complete(old(buffer) + text)))
    {
      buffer := buffer + text;
      var lines := Split(buffer, '\n');
      // lines.pop() || "": the last piece, which may be empty
      buffer := lines[|lines| - 1];
      HandleLines(lines[..|lines| - 1]);
    }
  }
}
