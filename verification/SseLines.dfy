/** The SSE data-line writer (sse_hub.go), and the event-stream parsing rules of section 9.2.6
    of the HTML standard that its output is read by. */
module SseLines {
  import opened Prelude

  const CR: Byte := 13
  const LF: Byte := 10
  const SPACE: Byte := 32
  const COLON: Byte := 58
  /** `data` */
  const DATA_NAME: Bytes := [100, 97, 116, 97]
  /** `event` */
  const EVENT_NAME: Bytes := [101, 118, 101, 110, 116]
  const DATA_PREFIX: Bytes := DATA_NAME + [COLON]
  /** `event: data` */
  const EVENT_LINE: Bytes := EVENT_NAME + [COLON, SPACE] + DATA_NAME

  // ---- lines ----

  /** Every CRLF, CR and LF as one LF; `cr` says that a CR came just before. */
  function Normal(p: Bytes, cr: bool): Bytes {
    if p == [] then []
    else if cr && p[0] == LF then Normal(p[1..], false)
    else if p[0] == CR || p[0] == LF then [LF] + Normal(p[1..], p[0] == CR)
    else [p[0]] + Normal(p[1..], false)
  }

  /** The lines between the LFs: one more than there are LFs. */
  function Lines(q: Bytes): (r: seq<Bytes>)
    ensures r != []
  {
    if q == [] then [[]]
    else if q[0] == LF then [[]] + Lines(q[1..])
    else (var rest := Lines(q[1..]); [[q[0]] + rest[0]] + rest[1..])
  }

  /** The lines with an LF between each two. */
  function Join(lines: seq<Bytes>): Bytes
    requires lines != []
  {
    if |lines| == 1 then lines[0] else lines[0] + [LF] + Join(lines[1..])
  }

  lemma {:induction false} JoinLines(q: Bytes)
    ensures Join(Lines(q)) == q
  {
    if q != [] {
      JoinLines(q[1..]);
      var rest := Lines(q[1..]);
      if q[0] == LF {
        assert ([[]] + rest)[1..] == rest;
      } else {
        assert ([[q[0]] + rest[0]] + rest[1..])[1..] == rest[1..];
        assert q == [q[0]] + q[1..];
      }
    }
  }

  /** A line ends at its LF. */
  lemma {:induction false} LinesOfLine(line: Bytes, rest: Bytes)
    requires LF !in line
    ensures Lines(line + [LF] + rest) == [line] + Lines(rest)
  {
    var q := line + [LF] + rest;
    if line == [] {
      assert q[1..] == rest;
    } else {
      assert q[0] == line[0] && q[1..] == line[1..] + [LF] + rest;
      LinesOfLine(line[1..], rest);
      assert [line[0]] + line[1..] == line;
    }
  }

  lemma {:induction false} LinesHaveNoBreaks(q: Bytes)
    requires CR !in q
    ensures forall l :: l in Lines(q) ==> LF !in l && CR !in l
  {
    if q != [] {
      LinesHaveNoBreaks(q[1..]);
    }
  }

  lemma {:induction false} NormalHasNoReturn(p: Bytes, cr: bool)
    ensures CR !in Normal(p, cr)
  {
    if p != [] {
      NormalHasNoReturn(p[1..], false);
      NormalHasNoReturn(p[1..], true);
    }
  }

  lemma {:induction false} NormalKeeps(q: Bytes)
    requires CR !in q
    ensures Normal(q, false) == q
  {
    if q != [] {
      NormalKeeps(q[1..]);
    }
  }

  // ---- the writer ----

  datatype LineState = LineState(out: Bytes, lineStart: bool, pendingCR: bool)

  function Open(s: LineState): LineState {
    LineState(if s.lineStart then s.out + DATA_PREFIX else s.out, false, false)
  }

  /** The writer, one byte at a time. */
  function FeedByte(s: LineState, c: Byte): LineState {
    if s.pendingCR && c == LF then s.(pendingCR := false)
    else if c == CR || c == LF then LineState(Open(s).out + [LF], true, c == CR)
    else LineState(Open(s).out + [c], false, false)
  }

  function Feed(s: LineState, p: Bytes): LineState
    decreases |p|
  {
    if p == [] then s else Feed(FeedByte(s, p[0]), p[1..])
  }

  /** How the payload is cut into writes does not matter. */
  lemma {:induction false} FeedConcat(s: LineState, a: Bytes, b: Bytes)
    ensures Feed(s, a + b) == Feed(Feed(s, a), b)
    decreases |a|
  {
    if a == [] {
      assert a + b == b;
    } else {
      assert (a + b)[1..] == a[1..] + b;
      FeedConcat(FeedByte(s, a[0]), a[1..], b);
    }
  }

  /** Bytes up to the next line break go out as they are. */
  lemma {:induction false} FeedSpan(s: LineState, span: Bytes, rest: Bytes)
    requires !s.lineStart && !s.pendingCR && CR !in span && LF !in span
    ensures Feed(s, span + rest) == Feed(s.(out := s.out + span), rest)
    decreases |span|
  {
    if span == [] {
      assert span + rest == rest && s.out + span == s.out;
    } else {
      assert (span + rest)[1..] == span[1..] + rest;
      FeedSpan(FeedByte(s, span[0]), span[1..], rest);
      assert s.out + [span[0]] + span[1..] == s.out + span;
    }
  }

  /** `bytes.IndexAny(p, "\r\n")`. */
  method IndexBreak(p: Bytes) returns (i: int)
    ensures -1 <= i < |p|
    ensures i == -1 ==> CR !in p && LF !in p
    ensures i >= 0 ==> (p[i] == CR || p[i] == LF) && CR !in p[..i] && LF !in p[..i]
  {
    for k := 0 to |p|
      invariant CR !in p[..k] && LF !in p[..k]
    {
      if p[k] == CR || p[k] == LF {
        return k;
      }
    }
    assert p[..|p|] == p;
    return -1;
  }

  class SseDataWriter {
    var out: Bytes
    var lineStart: bool
    var pendingCR: bool

    constructor ()
      ensures State() == LineState([], true, false)
    {
      out, lineStart, pendingCR := [], true, false;
    }

    ghost function State(): LineState
      reads this
    {
      LineState(out, lineStart, pendingCR)
    }

    method Write(data: Bytes) returns (consumed: nat)
      modifies this
      ensures State() == Feed(old(State()), data) && consumed == |data|
    {
      var p := data;
      consumed := 0;
      while |p| > 0
        invariant Feed(State(), p) == Feed(old(State()), data) && consumed + |p| == |data|
        decreases |p|
      {
        if pendingCR {
          pendingCR := false;
          if p[0] == LF {
            p := p[1..];
            consumed := consumed + 1;
            continue;
          }
        }
        if lineStart {
          out := out + DATA_PREFIX;
          lineStart := false;
        }
        assert Feed(State(), p) == Feed(old(State()), data);
        var nextBreak := IndexBreak(p);
        if nextBreak < 0 {
          FeedSpan(State(), p, []);
          assert p + [] == p;
          out := out + p;
          return consumed + |p|;
        }
        FeedSpan(State(), p[..nextBreak], p[nextBreak..]);
        assert p[..nextBreak] + p[nextBreak..] == p;
        if nextBreak > 0 {
          out := out + p[..nextBreak];
          consumed := consumed + nextBreak;
          p := p[nextBreak..];
        }
        var delimiter := p[0];
        out := out + [LF];
        p := p[1..];
        consumed := consumed + 1;
        lineStart := true;
        pendingCR := delimiter == CR;
      }
    }

    method Close()
      modifies this
      ensures out == Closed(old(State()))
    {
      if lineStart {
        out := out + DATA_PREFIX;
      }
      out := out + [LF];
    }
  }

  // ---- what the writer produces ----

  function Closed(s: LineState): Bytes {
    Open(s).out + [LF]
  }

  /** One `data:` line per payload line. */
  function Framed(lines: seq<Bytes>): Bytes {
    if lines == [] then [] else DATA_PREFIX + lines[0] + [LF] + Framed(lines[1..])
  }

  /** The same text after the first prefix. */
  function FramedRest(lines: seq<Bytes>): Bytes
    requires lines != []
  {
    lines[0] + [LF] + Framed(lines[1..])
  }

  lemma BreakBegins(q: Bytes)
    ensures FramedRest(Lines([LF] + q)) == [LF] + (DATA_PREFIX + FramedRest(Lines(q)))
  {
    assert ([LF] + q)[1..] == q;
    var rest := Lines(q);
    assert ([[]] + rest)[1..] == rest;
    assert Framed(rest) == DATA_PREFIX + rest[0] + [LF] + Framed(rest[1..]);
    assert DATA_PREFIX + rest[0] + [LF] + Framed(rest[1..]) == DATA_PREFIX + (rest[0] + [LF] + Framed(rest[1..]));
  }

  lemma ByteBegins(c: Byte, q: Bytes)
    requires c != LF
    ensures FramedRest(Lines([c] + q)) == [c] + FramedRest(Lines(q))
  {
    assert ([c] + q)[1..] == q;
    var rest := Lines(q);
    assert ([[c] + rest[0]] + rest[1..])[1..] == rest[1..];
  }

  lemma Regroup(a: Bytes, b: Bytes, c: Bytes)
    ensures a + b + c == a + (b + c)
  {
  }

  lemma BreakOpens(s: LineState, c: Byte)
    requires (c == CR || c == LF) && !(s.pendingCR && c == LF)
    ensures FeedByte(s, c).lineStart && FeedByte(s, c).pendingCR == (c == CR)
    ensures Open(FeedByte(s, c)).out == Open(s).out + [LF] + DATA_PREFIX
  {
  }

  lemma {:induction false} WriterFramesFrom(s: LineState, p: Bytes)
    requires s.pendingCR ==> s.lineStart
    ensures Closed(Feed(s, p)) == Open(s).out + FramedRest(Lines(Normal(p, s.pendingCR)))
    decreases |p|
  {
    hide Lines, FramedRest;
    if p == [] {
      NoLines();
    } else {
      var c := p[0];
      WriterFramesFrom(FeedByte(s, c), p[1..]);
      if s.pendingCR && c == LF {
      } else if c == CR || c == LF {
        BreakOpens(s, c);
        hide FeedByte, Open, Closed;
        var q := Normal(p[1..], c == CR);
        BreakBegins(q);
        Regroup(Open(s).out + [LF], DATA_PREFIX, FramedRest(Lines(q)));
        Regroup(Open(s).out, [LF], DATA_PREFIX + FramedRest(Lines(q)));
      } else {
        var q := Normal(p[1..], false);
        assert Open(FeedByte(s, c)).out == Open(s).out + [c];
        hide FeedByte, Open, Closed;
        ByteBegins(c, q);
        Regroup(Open(s).out, [c], FramedRest(Lines(q)));
      }
    }
  }

  lemma NoLines()
    ensures Lines([]) == [[]] && FramedRest([[]]) == [LF]
  {
    var one: seq<Bytes> := [[]];
    assert one[1..] == [] && Framed([]) == [];
  }

  /** The text of an event's data: one line per payload line, whatever the line breaks. */
  lemma WriterFrames(p: Bytes)
    ensures Closed(Feed(LineState([], true, false), p)) == Framed(Lines(Normal(p, false)))
  {
    var lines := Lines(Normal(p, false));
    WriterFramesFrom(LineState([], true, false), p);
    assert DATA_PREFIX + FramedRest(lines) == Framed(lines);
  }

  // ---- reading an event back ----

  datatype Field = Field(name: Bytes, value: Bytes)

  /** A field's value loses one leading space. */
  function DropSpace(value: Bytes): Bytes {
    if value != [] && value[0] == SPACE then value[1..] else value
  }

  /** A line is a name, a colon and a value; without a colon it is only a name. */
  function FieldOf(line: Bytes): Field {
    var name := NameOf(line);
    Field(name, if |name| == |line| then [] else DropSpace(line[|name| + 1..]))
  }

  function NameOf(line: Bytes): (r: Bytes)
    ensures r <= line
  {
    if line == [] || line[0] == COLON then [] else [line[0]] + NameOf(line[1..])
  }

  datatype Dispatched = Dispatched(kind: Bytes, data: Bytes)

  /** Fields are collected until a blank line dispatches them. */
  function Dispatch(lines: seq<Bytes>, kind: Bytes, data: Bytes): Option<Dispatched>
    decreases |lines|
  {
    if lines == [] then None
    else if lines[0] == [] then
      if data == [] then Dispatch(lines[1..], [], []) else Some(Dispatched(kind, data[..|data| - 1]))
    else
      var f := FieldOf(lines[0]);
      if f.name == DATA_NAME then Dispatch(lines[1..], kind, data + f.value + [LF])
      else if f.name == EVENT_NAME then Dispatch(lines[1..], f.value, data)
      else Dispatch(lines[1..], kind, data)
  }

  /** The first event of an event stream. */
  function ParseEvent(text: Bytes): Option<Dispatched> {
    Dispatch(Lines(Normal(text, false)), [], [])
  }

  /** `event: data`, the data lines, and a blank line. */
  function EventText(p: Bytes): Bytes {
    EVENT_LINE + [LF] + Closed(Feed(LineState([], true, false), p)) + [LF]
  }

  function Prefixed(lines: seq<Bytes>): seq<Bytes> {
    if lines == [] then [] else [DATA_PREFIX + lines[0]] + Prefixed(lines[1..])
  }

  function DropSpaces(lines: seq<Bytes>): (r: seq<Bytes>)
    ensures |r| == |lines|
  {
    if lines == [] then [] else [DropSpace(lines[0])] + DropSpaces(lines[1..])
  }

  lemma {:induction false} LinesOfFramed(lines: seq<Bytes>, rest: Bytes)
    requires forall l :: l in lines ==> LF !in l
    ensures Lines(Framed(lines) + rest) == Prefixed(lines) + Lines(rest)
  {
    hide Lines;
    if lines == [] {
      assert Framed(lines) + rest == rest;
    } else {
      LinesOfFramed(lines[1..], rest);
      var line := DATA_PREFIX + lines[0];
      assert Framed(lines) + rest == line + [LF] + (Framed(lines[1..]) + rest);
      LinesOfLine(line, Framed(lines[1..]) + rest);
    }
  }

  lemma {:induction false} FramedHasNoReturn(lines: seq<Bytes>)
    requires forall l :: l in lines ==> CR !in l
    ensures CR !in Framed(lines)
  {
    if lines != [] {
      FramedHasNoReturn(lines[1..]);
    }
  }

  lemma DataField(value: Bytes)
    ensures FieldOf(DATA_PREFIX + value) == Field(DATA_NAME, DropSpace(value))
  {
    var line := DATA_PREFIX + value;
    assert line[1..][1..][1..][1..] == [COLON] + value;
    assert NameOf([COLON] + value) == [];
    assert NameOf(line[1..][1..][1..]) == [97] && NameOf(line[1..][1..]) == [116, 97];
    assert NameOf(line) == DATA_NAME;
    assert line[5..] == value;
  }

  lemma EventField()
    ensures FieldOf(EVENT_LINE) == Field(EVENT_NAME, DATA_NAME)
  {
    var line := EVENT_LINE;
    assert line[1..][1..][1..][1..][1..] == [COLON, SPACE] + DATA_NAME;
    assert NameOf(line[1..][1..][1..][1..]) == [116];
    assert NameOf(line[1..][1..][1..]) == [110, 116];
    assert NameOf(line[1..][1..]) == [101, 110, 116];
    assert NameOf(line) == EVENT_NAME;
    assert line[6..] == [SPACE] + DATA_NAME;
    assert DropSpace([SPACE] + DATA_NAME) == DATA_NAME;
  }

  lemma DispatchLine(line: Bytes, tail: seq<Bytes>, kind: Bytes, data: Bytes)
    ensures Dispatch([DATA_PREFIX + line] + tail, kind, data) == Dispatch(tail, kind, data + DropSpace(line) + [LF])
  {
    DataField(line);
    hide FieldOf;
    assert ([DATA_PREFIX + line] + tail)[1..] == tail;
  }

  lemma DispatchBlank(tail: seq<Bytes>, kind: Bytes, data: Bytes)
    ensures Dispatch([[]] + tail, kind, data + [LF]) == Some(Dispatched(kind, data))
  {
    assert (data + [LF])[..|data|] == data;
  }

  /** Data lines collect to their values, joined. */
  lemma {:induction false} DispatchData(lines: seq<Bytes>, kind: Bytes, data: Bytes, rest: seq<Bytes>)
    requires lines != []
    ensures Dispatch(Prefixed(lines) + ([[]] + rest), kind, data) ==
        Some(Dispatched(kind, data + Join(DropSpaces(lines))))
  {
    hide Dispatch, DropSpace;
    var tail := Prefixed(lines[1..]) + ([[]] + rest);
    var value := DropSpace(lines[0]);
    assert Prefixed(lines) + ([[]] + rest) == [DATA_PREFIX + lines[0]] + tail;
    DispatchLine(lines[0], tail, kind, data);
    if |lines| == 1 {
      assert tail == [[]] + rest;
      DispatchBlank(rest, kind, data + value);
      assert DropSpaces(lines) == [value];
    } else {
      DispatchData(lines[1..], kind, data + value + [LF], rest);
      assert DropSpaces(lines)[1..] == DropSpaces(lines[1..]);
      Regroup(data, value, [LF]);
      Regroup(data, value + [LF], Join(DropSpaces(lines[1..])));
    }
  }

  lemma TextLines(head: Bytes, lines: seq<Bytes>)
    requires LF !in head && CR !in head && forall l :: l in lines ==> LF !in l && CR !in l
    ensures Lines(Normal(head + [LF] + Framed(lines) + [LF], false)) == [head] + (Prefixed(lines) + ([[]] + [[]]))
  {
    hide Lines, Normal, Framed;
    var text := head + [LF] + Framed(lines) + [LF];
    FramedHasNoReturn(lines);
    NormalKeeps(text);
    Regroup(head + [LF], Framed(lines), [LF]);
    LinesOfLine(head, Framed(lines) + [LF]);
    LinesOfFramed(lines, [LF]);
    BlankEnd();
  }

  /** A reader of the event gets the payload's lines, each without its leading space. */
  lemma EventReadsBack(p: Bytes)
    ensures ParseEvent(EventText(p)) == Some(Dispatched(DATA_NAME, Join(DropSpaces(Lines(Normal(p, false))))))
  {
    hide Lines, Feed, Normal, Dispatch, Framed, Closed, Prefixed;
    var lines := Lines(Normal(p, false));
    NormalHasNoReturn(p, false);
    LinesHaveNoBreaks(Normal(p, false));
    WriterFrames(p);
    TextLines(EVENT_LINE, lines);
    EventDispatch(lines, [[]]);
  }

  lemma BlankEnd()
    ensures Lines([LF]) == [[]] + [[]]
  {
    assert [LF][1..] == [];
  }

  lemma EventDispatch(lines: seq<Bytes>, rest: seq<Bytes>)
    requires lines != []
    ensures Dispatch([EVENT_LINE] + (Prefixed(lines) + ([[]] + rest)), [], []) ==
        Some(Dispatched(DATA_NAME, Join(DropSpaces(lines))))
  {
    var head := EVENT_LINE;
    EventField();
    hide FieldOf;
    var tail := Prefixed(lines) + ([[]] + rest);
    assert ([head] + tail)[1..] == tail;
    DispatchData(lines, DATA_NAME, [], rest);
    assert [] + Join(DropSpaces(lines)) == Join(DropSpaces(lines));
  }

  /** No payload line starts with a space. */
  ghost predicate Flush(lines: seq<Bytes>) {
    forall i :: 0 <= i < |lines| ==> lines[i] == [] || lines[i][0] != SPACE
  }

  lemma {:induction false} SpacesCount(lines: seq<Bytes>)
    requires lines != []
    ensures if Flush(lines) then DropSpaces(lines) == lines else |Join(DropSpaces(lines))| < |Join(lines)|
    ensures |Join(DropSpaces(lines))| <= |Join(lines)|
  {
    if |lines| > 1 {
      SpacesCount(lines[1..]);
      assert DropSpaces(lines)[1..] == DropSpaces(lines[1..]);
      assert Flush(lines) <==> (lines[0] == [] || lines[0][0] != SPACE) && Flush(lines[1..]);
    } else {
      assert lines[1..] == [] && DropSpaces(lines) == [DropSpace(lines[0])];
    }
  }

  /** The reader gets the payload, up to line breaks, exactly when no line starts with a space. */
  lemma RoundTripIff(p: Bytes)
    ensures ParseEvent(EventText(p)) == Some(Dispatched(DATA_NAME, Normal(p, false))) <==>
        Flush(Lines(Normal(p, false)))
  {
    var lines := Lines(Normal(p, false));
    EventReadsBack(p);
    JoinLines(Normal(p, false));
    SpacesCount(lines);
  }

  /** A single space is lost. */
  lemma LeadingSpaceIsLost()
    ensures ParseEvent(EventText([SPACE])) == Some(Dispatched(DATA_NAME, []))
    ensures Normal([SPACE], false) == [SPACE]
  {
    assert Normal([SPACE], false) == [SPACE];
    assert [SPACE][1..] == [] && Lines([]) == [[]];
    assert Lines([SPACE]) == [[SPACE]];
    EventReadsBack([SPACE]);
    assert DropSpaces([[SPACE]]) == [[]];
  }
}
