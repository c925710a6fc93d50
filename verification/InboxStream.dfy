/**
 The connector inbox as a stream of server-sent events: a Go handler that writes a frame whenever the
 polled inbox changed, and a client that reassembles the frames from arbitrary chunks.
 */
module InboxStream {
  import opened Prelude
  import opened Trimming

  const EVENT_FIELD := "event: orders"
  const DATA_FIELD := "data:"

  // ---------------------------------------------------------------- the producer

  function Frame(body: string): string {
    EVENT_FIELD + "\n" + DATA_FIELD + " " + body + "\n\n"
  }

  /** The bodies that differ from the one before them; before the first stands the empty text. */
  function Changes(bodies: seq<string>, last: string): seq<string> {
    if bodies == [] then []
    else if bodies[0] == last then Changes(bodies[1..], last)
    else [bodies[0]] + Changes(bodies[1..], bodies[0])
  }

  function Frames(bodies: seq<string>): string {
    if bodies == [] then "" else Frame(bodies[0]) + Frames(bodies[1..])
  }

  /** The last body a poll gave, or the one before when there was no poll. */
  function LastOf(bodies: seq<string>, last: string): string {
    if bodies == [] then last else bodies[|bodies| - 1]
  }

  class Producer {
    var last: string
    var written: string
    /** Every body polled so far. */
    ghost var Polled: seq<string>

    ghost predicate Valid()
      reads this
    {
      written == Frames(Changes(Polled, "")) && last == LastOf(Polled, "")
    }

    constructor ()
      ensures Valid() && Polled == [] && written == ""
    {
      last, written := "", "";
      Polled := [];
    }

    /** One poll; nothing is written when it fails or brought nothing new. */
    method Send(poll: Option<string>) returns (ok: bool)
      requires Valid()
      modifies this
      ensures Valid() && ok == poll.Some?
      ensures Polled == if poll.Some? then old(Polled) + [poll.value] else old(Polled)
    {
      if poll.None? {
        return false;
      }
      var current := poll.value;
      ChangesAppend(Polled, "", current);
      FramesAppend(Changes(Polled, ""), if current == last then [] else [current]);
      Polled := Polled + [current];
      if current == last {
        return true;
      }
      last := current;
      written := written + Frame(current);
      ok := true;
    }
  }

  lemma {:induction false} ChangesAppend(bodies: seq<string>, last: string, body: string)
    ensures Changes(bodies + [body], last)
            == Changes(bodies, last) + if body == LastOf(bodies, last) then [] else [body]
  {
    if bodies == [] {
      assert [] + [body] == [body];
    } else {
      assert (bodies + [body])[1..] == bodies[1..] + [body];
      ChangesAppend(bodies[1..], bodies[0], body);
    }
  }

  lemma {:induction false} FramesAppend(a: seq<string>, b: seq<string>)
    ensures Frames(a + b) == Frames(a) + Frames(b)
    ensures |b| == 1 ==> Frames(b) == Frame(b[0])
  {
    if |b| == 1 {
      assert b[1..] == [];
    }
    if a == [] {
      assert a + b == b;
    } else {
      assert (a + b)[1..] == a[1..] + b;
      FramesAppend(a[1..], b);
    }
  }

  // ---------------------------------------------------------------- the consumer

  predicate BoundaryAt(s: string, i: int) {
    0 <= i < |s| - 1 && s[i] == '\n' && s[i + 1] == '\n'
  }

  /** Where the first pair of consecutive line breaks begins. */
  function IndexOfBoundary(s: string): (r: Option<nat>)
    ensures r.Some? ==> BoundaryAt(s, r.value) && forall j :: 0 <= j < r.value ==> !BoundaryAt(s, j)
    ensures r.None? ==> forall j :: !BoundaryAt(s, j)
  {
    if |s| < 2 then None
    else if s[0] == '\n' && s[1] == '\n' then Some(0)
    else
      var rest := IndexOfBoundary(s[1..]);
      assert forall j :: BoundaryAt(s, j) && j > 0 ==> BoundaryAt(s[1..], j - 1);
      if rest.None? then None else Some(rest.value + 1)
  }

  /** The text cut at its line breaks; without any it is one line. */
  function Lines(s: string): (r: seq<string>)
    ensures r != []
  {
    if s == "" then [""]
    else if s[0] == '\n' then [""] + Lines(s[1..])
    else
      var rest := Lines(s[1..]);
      [[s[0]] + rest[0]] + rest[1..]
  }

  /** The contents of the data lines. */
  function DataLines(lines: seq<string>): seq<string> {
    if lines == [] then []
    else
      (if DATA_FIELD <= lines[0] then [Trim(lines[0][|DATA_FIELD|..])] else []) + DataLines(lines[1..])
  }

  function Joined(lines: seq<string>): string {
    if lines == [] then "" else if |lines| == 1 then lines[0] else lines[0] + "\n" + Joined(lines[1..])
  }

  function DataOf(event: string): string {
    Joined(DataLines(Lines(event)))
  }

  /** An event without data is not delivered. */
  function Deliver(event: string): seq<string> {
    if DataOf(event) == "" then [] else [DataOf(event)]
  }

  datatype Reading = Reading(delivered: seq<string>, buffer: string)

  /** What the inner loop delivers from a buffer, and what it leaves. */
  function Read(buffer: string): Reading
    decreases |buffer|
  {
    var boundary := IndexOfBoundary(buffer);
    if boundary.None? then Reading([], buffer)
    else
      var rest := Read(buffer[boundary.value + 2..]);
      Reading(Deliver(buffer[..boundary.value]) + rest.delivered, rest.buffer)
  }

  function Concat(chunks: seq<string>): string {
    if chunks == [] then "" else Concat(chunks[..|chunks| - 1]) + chunks[|chunks| - 1]
  }

  /** The inner loop: every complete event in the buffer. */
  method DeliverEvents(received: string) returns (orders: seq<string>, buffer: string)
    ensures Reading(orders, buffer) == Read(received)
    ensures forall i :: !BoundaryAt(buffer, i)
  {
    orders, buffer := [], received;
    var boundary := IndexOfBoundary(buffer);
    while boundary.Some?
      invariant boundary == IndexOfBoundary(buffer)
      invariant Read(received) == Reading(orders + Read(buffer).delivered, Read(buffer).buffer)
      decreases |buffer|
    {
      ghost var all, before := buffer, orders;
      var event := buffer[..boundary.value];
      buffer := buffer[boundary.value + 2..];
      var data := DataOf(event);
      if data != "" {
        orders := orders + [data];
      }
      assert orders == before + Deliver(event);
      Regroup(before, Deliver(event), Read(buffer).delivered);
      boundary := IndexOfBoundary(buffer);
    }
    assert orders + [] == orders;
  }

  method StreamConnectorInbox(chunks: seq<string>) returns (orders: seq<string>, buffer: string)
    ensures Reading(orders, buffer) == Read(Concat(chunks))
    ensures forall i :: !BoundaryAt(buffer, i)
  {
    orders, buffer := [], "";
    for n := 0 to |chunks|
      invariant Reading(orders, buffer) == Read(Concat(chunks[..n]))
      invariant forall i :: !BoundaryAt(buffer, i)
    {
      assert chunks[..n + 1][..n] == chunks[..n];
      ReadInParts(Concat(chunks[..n]), chunks[n]);
      var delivered;
      delivered, buffer := DeliverEvents(buffer + chunks[n]);
      orders := orders + delivered;
    }
    assert chunks[..|chunks|] == chunks;
  }

  // ---------------------------------------------------------------- chunks do not matter

  lemma FirstBoundary(s: string, i: nat)
    requires BoundaryAt(s, i) && forall j :: 0 <= j < i ==> !BoundaryAt(s, j)
    ensures IndexOfBoundary(s) == Some(i)
  {
  }

  lemma SameBoundary(a: string, b: string)
    ensures IndexOfBoundary(a).Some? ==>
              IndexOfBoundary(a).value + 2 <= |a| && IndexOfBoundary(a + b) == IndexOfBoundary(a)
  {
    var boundary := IndexOfBoundary(a);
    if boundary.Some? {
      forall j | 0 <= j < boundary.value
        ensures !BoundaryAt(a + b, j)
      {
        assert !BoundaryAt(a, j);
      }
      FirstBoundary(a + b, boundary.value);
    }
  }

  lemma Regroup(a: seq<string>, b: seq<string>, c: seq<string>)
    ensures a + (b + c) == a + b + c
  {
  }

  /** Reading a text in two parts, carrying the leftover over, is reading it in one. */
  lemma {:induction false} ReadInParts(a: string, b: string)
    ensures var first := Read(a);
            var second := Read(first.buffer + b);
            Read(a + b) == Reading(first.delivered + second.delivered, second.buffer)
    decreases |a|
  {
    hide Deliver, BoundaryAt;
    var boundary := IndexOfBoundary(a);
    if boundary.Some? {
      var i := boundary.value;
      SameBoundary(a, b);
      assert (a + b)[..i] == a[..i] && (a + b)[i + 2..] == a[i + 2..] + b;
      ReadInParts(a[i + 2..], b);
      var tail := Read(a[i + 2..]);
      Regroup(Deliver(a[..i]), tail.delivered, Read(tail.buffer + b).delivered);
    }
  }

  // ---------------------------------------------------------------- frames come back as bodies

  /** The JSON text of an inbox: not empty, on one line, and without white space around it. */
  predicate IsBody(body: string) {
    body != "" && '\n' !in body && IsTrimmed(body)
  }

  lemma {:induction false} OneLine(s: string)
    requires '\n' !in s
    ensures Lines(s) == [s]
  {
    if s != "" {
      OneLine(s[1..]);
      assert [s[0]] + s[1..] == s;
    }
  }

  lemma {:induction false} FirstLine(a: string, b: string)
    requires '\n' !in a
    ensures Lines(a + "\n" + b) == [a] + Lines(b)
  {
    var s := a + "\n" + b;
    if a == "" {
      assert s[1..] == b;
    } else {
      assert s[1..] == a[1..] + "\n" + b;
      FirstLine(a[1..], b);
      assert [a[0]] + a[1..] == a;
    }
  }

  predicate IsDataLine(line: string) {
    "data:" <= line
  }

  ghost predicate HasData(event: string) {
    exists l | l in Lines(event) :: IsDataLine(l)
  }

  lemma {:induction false} NoDataLines(lines: seq<string>)
    ensures DataLines(lines) == [] <==> forall l | l in lines :: !IsDataLine(l)
  {
    if lines != [] {
      NoDataLines(lines[1..]);
      assert forall l :: l in lines <==> l == lines[0] || l in lines[1..];
      assert IsDataLine(lines[0]) ==> |DataLines(lines)| > 0;
      assert !IsDataLine(lines[0]) ==> DataLines(lines) == DataLines(lines[1..]);
    }
  }

  /** An event of one line is delivered if it is a data line with something in it, and then as that, trimmed. */
  lemma OneLineEvent(line: string)
    requires '\n' !in line
    ensures DataOf(line) == if IsDataLine(line) then Trim(line[5..]) else ""
    ensures Deliver(line) == if IsDataLine(line) && Trim(line[5..]) != "" then [Trim(line[5..])] else []
  {
    hide Lines, Trim;
    OneLine(line);
    DataOfLines(line, []);
    assert [line] + [] == [line];
  }

  /** An event is what its data lines say, line by line, each trimmed; other lines, comments too, say nothing. */
  lemma EventLineByLine(line: string, rest: string)
    requires '\n' !in line
    ensures DataOf(line + "\n" + rest)
            == if !IsDataLine(line) then DataOf(rest)
               else if HasData(rest) then Trim(line[5..]) + "\n" + DataOf(rest)
               else Trim(line[5..])
  {
    hide Lines, Trim, DataLines, Joined;
    var more := DataLines(Lines(rest));
    FirstLine(line, rest);
    NoDataLines(Lines(rest));
    DataOfLines(line, Lines(rest));
    assert [] + more == more;
    if IsDataLine(line) {
      JoinedNext(Trim(line[5..]), more);
    }
  }

  lemma JoinedNext(first: string, rest: seq<string>)
    ensures Joined([first] + rest) == if rest == [] then first else first + "\n" + Joined(rest)
  {
    assert ([first] + rest)[1..] == rest;
  }

  lemma DataOfLines(line: string, rest: seq<string>)
    ensures DataLines([line] + rest) == (if IsDataLine(line) then [Trim(line[5..])] else []) + DataLines(rest)
  {
    hide Trim;
    var lines := [line] + rest;
    assert lines[0] == line && lines[1..] == rest;
    assert DATA_FIELD == "data:" && |DATA_FIELD| == 5;
    assert IsDataLine(line) <==> DATA_FIELD <= lines[0];
  }

  lemma DataOfFrame(body: string)
    requires IsBody(body)
    ensures DataOf(EVENT_FIELD + "\n" + (DATA_FIELD + " " + body)) == body
  {
    var dataLine := DATA_FIELD + " " + body;
    FirstLine(EVENT_FIELD, dataLine);
    OneLine(dataLine);
    var lines := [EVENT_FIELD] + [dataLine];
    assert EVENT_FIELD[0] != DATA_FIELD[0];
    assert dataLine[|DATA_FIELD|..] == " " + body;
    assert (" " + body)[1..] == body;
    TrimmedIsFixed(body);
    assert Trim(" " + body) == body;
    assert lines[1..] == [dataLine] && [dataLine][1..] == [];
    assert DATA_FIELD <= dataLine;
    assert DataLines([dataLine]) == [body];
    assert DataLines(lines) == [body];
  }

  lemma ReadFrame(body: string, rest: string)
    requires IsBody(body)
    ensures Read(Frame(body) + rest) == Reading([body] + Read(rest).delivered, Read(rest).buffer)
  {
    var event := EVENT_FIELD + "\n" + (DATA_FIELD + " " + body);
    var s := Frame(body) + rest;
    assert s == event + "\n\n" + rest;
    forall j | 0 <= j < |event|
      ensures !BoundaryAt(s, j)
    {
      assert s[j] == event[j] && (j + 1 < |event| ==> s[j + 1] == event[j + 1]);
      if j > |EVENT_FIELD| + |DATA_FIELD| + 1 {
        assert event[j] in body;
      }
    }
    FirstBoundary(s, |event|);
    assert s[..|event|] == event && s[|event| + 2..] == rest;
    DataOfFrame(body);
  }

  lemma {:induction false} ReadFrames(bodies: seq<string>, rest: string)
    requires forall b | b in bodies :: IsBody(b)
    ensures Read(Frames(bodies) + rest) == Reading(bodies + Read(rest).delivered, Read(rest).buffer)
  {
    hide Read, Frame;
    if bodies == [] {
      assert "" + rest == rest && [] + Read(rest).delivered == Read(rest).delivered;
    } else {
      assert Frames(bodies) + rest == Frame(bodies[0]) + (Frames(bodies[1..]) + rest);
      assert forall b | b in bodies[1..] :: b in bodies;
      ReadFrames(bodies[1..], rest);
      ReadFrame(bodies[0], Frames(bodies[1..]) + rest);
      assert [bodies[0]] + (bodies[1..] + Read(rest).delivered) == bodies + Read(rest).delivered;
    }
  }

  lemma {:induction false} ChangesAreBodies(bodies: seq<string>, last: string)
    ensures forall b | b in Changes(bodies, last) :: b in bodies
  {
    if bodies != [] {
      ChangesAreBodies(bodies[1..], bodies[0]);
      ChangesAreBodies(bodies[1..], last);
    }
  }

  /**
   However the written text is cut into chunks, the client delivers exactly the polled bodies, in
   order, with repetitions of the one before removed, and keeps nothing in its buffer.
   */
  lemma ClientSeesChanges(bodies: seq<string>, chunks: seq<string>)
    requires forall b | b in bodies :: IsBody(b)
    requires Concat(chunks) == Frames(Changes(bodies, ""))
    ensures Read(Concat(chunks)) == Reading(Changes(bodies, ""), "")
  {
    ChangesAreBodies(bodies, "");
    ReadFrames(Changes(bodies, ""), "");
    assert Frames(Changes(bodies, "")) + "" == Frames(Changes(bodies, ""));
    assert Changes(bodies, "") + [] == Changes(bodies, "");
  }

  /** Cut off anywhere, it has delivered a prefix of them and holds back an incomplete frame. */
  lemma ClientSeesPrefix(bodies: seq<string>, cut: string, missing: string)
    requires forall b | b in bodies :: IsBody(b)
    requires cut + missing == Frames(Changes(bodies, ""))
    ensures Read(cut).delivered <= Changes(bodies, "") && forall i :: !BoundaryAt(Read(cut).buffer, i)
  {
    ClientSeesChanges(bodies, [cut + missing]) by {
      assert [cut + missing][..0] == [];
      assert Concat([]) + (cut + missing) == cut + missing;
    }
    ReadInParts(cut, missing);
    LeftoverHasNoBoundary(cut);
    assert Concat([cut + missing]) == cut + missing by {
      assert [cut + missing][..0] == [];
    }
  }

  lemma {:induction false} LeftoverHasNoBoundary(buffer: string)
    ensures forall i :: !BoundaryAt(Read(buffer).buffer, i)
    decreases |buffer|
  {
    var boundary := IndexOfBoundary(buffer);
    if boundary.Some? {
      LeftoverHasNoBoundary(buffer[boundary.value + 2..]);
    }
  }
}
