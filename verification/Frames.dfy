/** The multiplexed log stream of the container runtime: every chunk is preceded by an 8-byte
    header that names the stream and the size of the chunk. Three readers take it apart. */
module Frames {
  import opened Wrappers

  newtype byte = b: int | 0 <= b < 256

  type Bytes = seq<byte>

  const HEADER := 8
  const LIMIT := 0x1_0000_0000

  /** A frame keeps the three padding bytes of its header, which no reader looks at. */
  datatype Frame = Frame(stream: byte, padding: Bytes, payload: Bytes) {
    predicate Valid() {
      |padding| == 3 && |payload| < LIMIT
    }
  }

  // ---- sizes, most significant byte first ----

  function SizeOf(b: Bytes): nat
    requires |b| == 4
  {
    b[0] as int * 0x100_0000 + b[1] as int * 0x1_0000 + b[2] as int * 0x100 + b[3] as int
  }

  function SizeBytes(n: nat): Bytes
    requires n < LIMIT
  {
    [(n / 0x100_0000) as byte, (n / 0x1_0000 % 0x100) as byte, (n / 0x100 % 0x100) as byte, (n % 0x100) as byte]
  }

  lemma SizeRoundTrip(n: nat)
    requires n < 0x1_0000_0000
    ensures SizeOf(SizeBytes(n)) == n
  {
    assert n / 0x1_0000 == n / 0x100 / 0x100 && n / 0x100_0000 == n / 0x1_0000 / 0x100;
  }

  lemma BytesRoundTrip(b: Bytes)
    requires |b| == 4
    ensures SizeOf(b) < LIMIT && SizeBytes(SizeOf(b)) == b
  {
    var n, top, mid := SizeOf(b), b[0] as int, b[0] as int * 0x100 + b[1] as int;
    var low := mid * 0x100 + b[2] as int;
    assert n == low * 0x100 + b[3] as int;
    LastByte(low, b[3] as int);
    LastByte(mid, b[2] as int);
    LastByte(top, b[1] as int);
    assert n / 0x100 == low && n / 0x1_0000 == n / 0x100 / 0x100 && n / 0x100_0000 == n / 0x100 / 0x100 / 0x100;
  }

  lemma LastByte(high: nat, low: nat)
    requires low < 0x100
    ensures (high * 0x100 + low) / 0x100 == high && (high * 0x100 + low) % 0x100 == low
  {
  }

  // ---- writing and reading frames ----

  function Header(f: Frame): Bytes
    requires f.Valid()
  {
    [f.stream] + f.padding + SizeBytes(|f.payload|)
  }

  function Encode(f: Frame): Bytes
    requires f.Valid()
  {
    Header(f) + f.payload
  }

  function EncodeAll(fs: seq<Frame>): Bytes
    requires forall f | f in fs :: f.Valid()
  {
    if fs == [] then [] else Encode(fs[0]) + EncodeAll(fs[1..])
  }

  /** The frame a stream begins with, if it is all there. */
  function First(data: Bytes): (f: Option<Frame>)
    ensures f.Some? ==> |data| >= HEADER + |f.value.payload|
  {
    if |data| < HEADER then None
    else
      var size := SizeOf(data[4..8]);
      if |data| < HEADER + size then None
      else Some(Frame(data[0], data[1..4], data[HEADER..HEADER + size]))
  }

  /** All complete frames from the beginning on. */
  function Decode(data: Bytes): seq<Frame> {
    match First(data)
    case None => []
    case Some(f) => [f] + Decode(data[HEADER + |f.payload|..])
  }

  /** What is left behind the last complete frame. */
  function Tail(data: Bytes): Bytes {
    match First(data)
    case None => data
    case Some(f) => Tail(data[HEADER + |f.payload|..])
  }

  lemma FirstOfEncoded(f: Frame, more: Bytes)
    requires f.Valid()
    ensures First(Encode(f) + more) == Some(f)
    ensures (Encode(f) + more)[HEADER + |f.payload|..] == more
  {
    var data := Encode(f) + more;
    SizeRoundTrip(|f.payload|);
    assert data[..8] == Header(f);
    assert data[4..8] == Header(f)[4..8] == SizeBytes(|f.payload|);
    assert data[1..4] == f.padding;
    assert data[HEADER..HEADER + |f.payload|] == f.payload;
  }

  lemma FirstIsEncoded(data: Bytes)
    ensures match First(data)
            case None => true
            case Some(f) => f.Valid() && data == Encode(f) + data[HEADER + |f.payload|..]
  {
    if |data| >= HEADER {
      BytesRoundTrip(data[4..8]);
      if First(data).Some? {
        var f := First(data).value;
        assert Header(f) == data[..HEADER];
        assert Encode(f) == data[..HEADER + |f.payload|];
      }
    }
  }

  /** Reading what was written, whatever incomplete data follows. */
  lemma {:induction false} RoundTrip(fs: seq<Frame>, tail: Bytes)
    requires (forall f | f in fs :: f.Valid()) && First(tail).None?
    ensures Decode(EncodeAll(fs) + tail) == fs && Tail(EncodeAll(fs) + tail) == tail
  {
    if fs == [] {
      assert EncodeAll(fs) + tail == tail;
    } else {
      var more := EncodeAll(fs[1..]) + tail;
      assert EncodeAll(fs) + tail == Encode(fs[0]) + more;
      FirstOfEncoded(fs[0], more);
      RoundTrip(fs[1..], tail);
    }
  }

  /** Nothing is lost: the frames read and what is left over make up the stream again. */
  lemma {:induction false} Lossless(data: Bytes)
    ensures forall f | f in Decode(data) :: f.Valid()
    ensures EncodeAll(Decode(data)) + Tail(data) == data
    ensures First(Tail(data)).None?
    decreases |data|
  {
    FirstIsEncoded(data);
    if First(data).Some? {
      var f := First(data).value;
      var more := data[HEADER + |f.payload|..];
      Lossless(more);
      assert EncodeAll(Decode(data)) == Encode(f) + EncodeAll(Decode(more));
    }
  }

  /** How many of the frames lie completely within the first bytes. */
  function Whole(fs: seq<Frame>, cut: nat): (n: nat)
    requires forall f | f in fs :: f.Valid()
    ensures n <= |fs|
  {
    if fs == [] || cut < |Encode(fs[0])| then 0 else 1 + Whole(fs[1..], cut - |Encode(fs[0])|)
  }

  /** A stream cut off anywhere yields exactly the frames that are completely there. */
  lemma {:induction false} CutOff(fs: seq<Frame>, cut: nat)
    requires (forall f | f in fs :: f.Valid()) && cut <= |EncodeAll(fs)|
    ensures Decode(EncodeAll(fs)[..cut]) == fs[..Whole(fs, cut)]
  {
    if fs != [] {
      if cut < |Encode(fs[0])| {
        CutInFirst(fs[0], EncodeAll(fs[1..]), cut);
      } else {
        CutOff(fs[1..], cut - |Encode(fs[0])|);
        CutBehindFirst(fs[0], EncodeAll(fs[1..]), cut);
      }
    }
  }

  /** Those that are completely there: they end before the cut, and the next one does not. */
  lemma {:induction false} WholeFits(fs: seq<Frame>, cut: nat)
    requires forall f | f in fs :: f.Valid()
    ensures |EncodeAll(fs[..Whole(fs, cut)])| <= cut
    ensures Whole(fs, cut) < |fs| ==> cut < |EncodeAll(fs[..Whole(fs, cut) + 1])|
  {
    if fs != [] {
      if cut < |Encode(fs[0])| {
        EncodeFirst(fs, 1);
      } else {
        var rest := cut - |Encode(fs[0])|;
        WholeFits(fs[1..], rest);
        NextPrefix(fs, Whole(fs[1..], rest), cut);
      }
    }
  }

  /** How far the first frames reach, seen from behind the first one. */
  lemma NextPrefix(fs: seq<Frame>, m: nat, cut: int)
    requires m < |fs| && forall f | f in fs :: f.Valid()
    requires |EncodeAll(fs[1..][..m])| <= cut - |Encode(fs[0])|
    requires m < |fs[1..]| ==> cut - |Encode(fs[0])| < |EncodeAll(fs[1..][..m + 1])|
    ensures |EncodeAll(fs[..m + 1])| <= cut
    ensures m + 1 < |fs| ==> cut < |EncodeAll(fs[..m + 2])|
  {
    EncodeFirst(fs, m + 1);
    if m + 1 < |fs| {
      EncodeFirst(fs, m + 2);
    }
  }

  lemma CutBehindFirst(f: Frame, rest: Bytes, cut: nat)
    requires f.Valid() && |Encode(f)| <= cut <= |Encode(f)| + |rest|
    ensures Decode((Encode(f) + rest)[..cut]) == [f] + Decode(rest[..cut - |Encode(f)|])
  {
    var more := rest[..cut - |Encode(f)|];
    assert (Encode(f) + rest)[..cut] == Encode(f) + more;
    FirstOfEncoded(f, more);
  }

  lemma EncodeFirst(fs: seq<Frame>, n: nat)
    requires 0 < n <= |fs| && forall f | f in fs :: f.Valid()
    ensures EncodeAll(fs[..n]) == Encode(fs[0]) + EncodeAll(fs[1..][..n - 1])
  {
    assert fs[..n][1..] == fs[1..][..n - 1];
  }

  lemma CutInFirst(f: Frame, more: Bytes, cut: nat)
    requires f.Valid() && cut < |Encode(f)|
    ensures First((Encode(f) + more)[..cut]).None?
  {
    var data := (Encode(f) + more)[..cut];
    if cut >= HEADER {
      SizeRoundTrip(|f.payload|);
      assert data[4..8] == Header(f)[4..8] == SizeBytes(|f.payload|);
    }
  }

  // ---- the readers ----

  /** A stream that is read from the front. */
  class Source {
    var data: Bytes

    constructor (data: Bytes)
      ensures this.data == data
    {
      this.data := data;
    }

    /** All or nothing: too short a stream is used up, and nothing is delivered. */
    method ReadFull(n: nat) returns (ok: bool, buf: Bytes)
      modifies this
      ensures ok == (n <= |old(data)|)
      ensures if ok then buf == old(data)[..n] && data == old(data)[n..] else buf == [] && data == []
    {
      if n <= |data| {
        ok, buf, data := true, data[..n], data[n..];
      } else {
        ok, buf, data := false, [], [];
      }
    }
  }

  /** What one attempt to read a frame meets: the end of the stream before a full header,
      the end before the whole payload, or a frame. */
  datatype Chunk = NoHeader | NoPayload | Chunk(stream: byte, payload: Bytes)

  function NextChunk(data: Bytes): Chunk {
    match First(data)
    case Some(f) => Chunk(f.stream, f.payload)
    case None => if |data| < HEADER then NoHeader else NoPayload
  }

  /** What is met when a frame was written: the frame, and when the stream is cut off in it, the end. */
  lemma ChunkOfWritten(f: Frame, more: Bytes, cut: nat)
    requires f.Valid() && cut <= |f.payload| + 8
    ensures NextChunk(Encode(f) + more) == Chunk(f.stream, f.payload) && Behind(Encode(f) + more) == more
    ensures cut < |f.payload| + 8 ==> NextChunk(Encode(f)[..cut]) == (if cut < 8 then NoHeader else NoPayload) && Behind(Encode(f)[..cut]) == []
  {
    FirstOfEncoded(f, more);
    if cut < |f.payload| + 8 {
      CutInFirst(f, [], cut);
      assert Encode(f) + [] == Encode(f);
    }
  }

  /** The stream behind the first frame; nothing if that is not complete. */
  function Behind(data: Bytes): Bytes {
    match First(data)
    case Some(f) => data[HEADER + |f.payload|..]
    case None => []
  }

  /** The part the three readers have in common: a header, then, unless the size is zero, a payload. */
  method ReadChunk(src: Source) returns (c: Chunk)
    modifies src
    ensures c == NextChunk(old(src.data)) && src.data == Behind(old(src.data))
  {
    ghost var was := src.data;
    var ok, hdr := src.ReadFull(HEADER);
    if !ok {
      return NoHeader;
    }
    assert hdr[4..] == was[4..8];
    var size := SizeOf(hdr[4..]);
    if size == 0 {
      return Chunk(hdr[0], []);
    }
    var payload;
    ok, payload := src.ReadFull(size);
    if !ok {
      return NoPayload;
    }
    assert payload == was[HEADER..HEADER + size] && src.data == was[HEADER + size..];
    c := Chunk(hdr[0], payload);
  }

  predicate LineEnd(b: byte) {
    b == 10 || b == 13
  }

  function TrimEnd(b: Bytes): (r: Bytes)
    ensures r <= b && (r != [] ==> !LineEnd(r[|r| - 1]))
    ensures forall i | |r| <= i < |b| :: LineEnd(b[i])
  {
    if b != [] && LineEnd(b[|b| - 1]) then TrimEnd(b[..|b| - 1]) else b
  }

  /** The log monitor reads one line per frame. */
  method ReadDockerLogLine(src: Source) returns (ok: bool, line: Bytes)
    modifies src
    ensures ok == First(old(src.data)).Some? && src.data == Behind(old(src.data))
    ensures ok ==> line == TrimEnd(First(old(src.data)).value.payload)
  {
    var c := ReadChunk(src);
    match c {
      case Chunk(_, payload) => return true, TrimEnd(payload);
      case _ => return false, [];
    }
  }

  /** Line ends, and only these, are taken off the end of each payload. */
  lemma {:induction false} TrimmedLinesAre(fs: seq<Frame>)
    ensures |TrimmedLines(fs)| == |fs|
    ensures forall i | 0 <= i < |fs| ::
              var line, p := TrimmedLines(fs)[i], fs[i].payload;
              && line <= p && (line != [] ==> line[|line| - 1] !in [10, 13])
              && forall j | |line| <= j < |p| :: p[j] in [10, 13]
  {
    if fs != [] {
      TrimmedLinesAre(fs[1..]);
    }
  }

  function TrimmedLines(fs: seq<Frame>): seq<Bytes> {
    if fs == [] then [] else [TrimEnd(fs[0].payload)] + TrimmedLines(fs[1..])
  }

  /** What the monitor reads until the stream ends. */
  method MonitorLines(src: Source) returns (lines: seq<Bytes>)
    modifies src
    ensures lines == TrimmedLines(Decode(old(src.data))) && src.data == []
  {
    lines := [];
    var ok := true;
    while ok
      invariant lines + TrimmedLines(Decode(src.data)) == TrimmedLines(Decode(old(src.data)))
      invariant !ok ==> src.data == []
      decreases if ok then 1 else 0, |src.data|
    {
      ghost var was := src.data;
      var line;
      ok, line := ReadDockerLogLine(src);
      if ok {
        assert Decode(was)[1..] == Decode(src.data);
        lines := lines + [line];
      }
    }
  }

  datatype LogEvent = Line(stderr: bool, text: Bytes) | Done

  function LineOf(f: Frame): seq<LogEvent> {
    if f.payload == [] then [] else [Line(f.stream == 2, f.payload)]
  }

  function LineEvents(fs: seq<Frame>): seq<LogEvent> {
    if fs == [] then [] else LineOf(fs[0]) + LineEvents(fs[1..])
  }

  /** A stream that ends between frames, or within a header, is reported as done. */
  function LogEvents(data: Bytes): seq<LogEvent> {
    LineEvents(Decode(data)) + if |Tail(data)| < HEADER then [Done] else []
  }

  /** The bytes of one of the two output streams. */
  function BytesOf(fs: seq<Frame>, err: bool): Bytes {
    if fs == [] then [] else (if (fs[0].stream == 2) == err then fs[0].payload else []) + BytesOf(fs[1..], err)
  }

  function Carried(e: LogEvent, err: bool): Bytes {
    if e.Line? && e.stderr == err then e.text else []
  }

  function TextOf(events: seq<LogEvent>, err: bool): Bytes {
    if events == [] then [] else Carried(events[0], err) + TextOf(events[1..], err)
  }

  lemma Associative(a: Bytes, b: Bytes, c: Bytes)
    ensures a + b + c == a + (b + c)
  {
  }

  lemma TextCons(e: LogEvent, rest: seq<LogEvent>, err: bool)
    ensures TextOf([e] + rest, err) == Carried(e, err) + TextOf(rest, err)
  {
    assert ([e] + rest)[1..] == rest;
  }

  lemma {:induction false} TextConcat(a: seq<LogEvent>, b: seq<LogEvent>, err: bool)
    ensures TextOf(a + b, err) == TextOf(a, err) + TextOf(b, err)
  {
    if a == [] {
      assert a + b == b;
    } else {
      var e, rest := a[0], a[1..];
      assert a == [e] + rest && a + b == [e] + (rest + b);
      TextCons(e, rest, err);
      TextCons(e, rest + b, err);
      TextConcat(rest, b, err);
      Associative(Carried(e, err), TextOf(rest, err), TextOf(b, err));
    }
  }

  lemma {:induction false} LinesCarry(fs: seq<Frame>, err: bool)
    ensures TextOf(LineEvents(fs), err) == BytesOf(fs, err)
    ensures forall e | e in LineEvents(fs) :: e.Line? && e.text != []
  {
    if fs != [] {
      LinesCarry(fs[1..], err);
      TextConcat(LineOf(fs[0]), LineEvents(fs[1..]), err);
      if fs[0].payload != [] {
        assert LineOf(fs[0])[1..] == [];
      }
    }
  }

  /** The events carry all that was written to each of the two output streams, whatever incomplete frame follows;
      no event is empty; and the end is reported, last, exactly if the stream ends within a header. */
  lemma EventsCarryAll(fs: seq<Frame>, rest: Bytes, err: bool)
    requires (forall f | f in fs :: f.Valid()) && First(rest).None?
    ensures var events := LogEvents(EncodeAll(fs) + rest);
            && TextOf(events, err) == BytesOf(fs, err)
            && (forall i | 0 <= i < |events| :: if events[i].Line? then events[i].text != [] else i == |events| - 1)
            && (Done in events <==> |rest| < 8)
  {
    RoundTrip(fs, rest);
    LinesCarry(fs, err);
    TextConcat(LineEvents(fs), if |rest| < 8 then [Done] else [], err);
    assert TextOf([Done], err) == [];
  }

  /** Frames that were written arrive as events, in order: the non-empty ones, those of the second stream marked as
      standard error; and a stream that ends with a whole frame is reported as done. */
  lemma {:induction false} EventsOfWritten(fs: seq<Frame>)
    requires forall f | f in fs :: f.Valid() && f.payload != []
    ensures var events := LogEvents(EncodeAll(fs));
            && |events| == |fs| + 1 && events[|fs|] == Done
            && forall i | 0 <= i < |fs| :: events[i] == Line(fs[i].stream == 2, fs[i].payload)
  {
    RoundTrip(fs, []);
    assert EncodeAll(fs) + [] == EncodeAll(fs);
    LinesAre(fs);
  }

  lemma {:induction false} LinesAre(fs: seq<Frame>)
    requires forall f | f in fs :: f.payload != []
    ensures |LineEvents(fs)| == |fs| && forall i | 0 <= i < |fs| :: LineEvents(fs)[i] == Line(fs[i].stream == 2, fs[i].payload)
  {
    if fs != [] {
      assert fs[0] in fs && forall f | f in fs[1..] :: f in fs;
      LinesAre(fs[1..]);
    }
  }

  lemma NextEvent(before: seq<LogEvent>, data: Bytes)
    requires First(data).Some?
    ensures before + LogEvents(data) == before + LineOf(First(data).value) + LogEvents(Behind(data))
  {
  }

  /** The log endpoint passes non-empty chunks on as they are. */
  method StreamLogs(src: Source) returns (events: seq<LogEvent>)
    modifies src
    ensures events == LogEvents(old(src.data)) && src.data == []
  {
    events := [];
    while true
      invariant events + LogEvents(src.data) == LogEvents(old(src.data))
      decreases |src.data|
    {
      ghost var was := src.data;
      var c := ReadChunk(src);
      match c {
        case NoHeader => return events + [Done];
        case NoPayload => return;
        case Chunk(stream, payload) =>
          NextEvent(events, was);
          if payload != [] {
            events := events + [Line(stream == 2, payload)];
          }
      }
    }
  }

  /** An entry of the access log. */
  datatype Entry = Entry(text: Bytes)

  /** `parse` holds the entries that chunks stand for; other chunks are not entries. */
  function EntryOf(f: Frame, parse: map<Bytes, Entry>): seq<Entry> {
    if f.payload != [] && f.payload in parse then [parse[f.payload]] else []
  }

  function Entries(fs: seq<Frame>, parse: map<Bytes, Entry>): seq<Entry> {
    if fs == [] then [] else EntryOf(fs[0], parse) + Entries(fs[1..], parse)
  }

  /** One more frame adds the entry its payload stands for, if it is not empty and stands for one, behind the others. */
  lemma {:induction false} EntriesAppended(fs: seq<Frame>, f: Frame, parse: map<Bytes, Entry>)
    ensures Entries([], parse) == []
    ensures Entries(fs + [f], parse) == Entries(fs, parse) + if |f.payload| > 0 && f.payload in parse then [parse[f.payload]] else []
  {
    if fs == [] {
      assert fs + [f] == [f] && [f][1..] == [];
    } else {
      EntriesAppended(fs[1..], f, parse);
      assert (fs + [f])[1..] == fs[1..] + [f];
    }
  }

  lemma NextEntry(before: seq<Entry>, data: Bytes, parse: map<Bytes, Entry>)
    requires First(data).Some?
    ensures before + Entries(Decode(data), parse)
            == before + EntryOf(First(data).value, parse) + Entries(Decode(Behind(data)), parse)
  {
  }

  /** The access-log reader keeps the chunks that parse as entries. */
  method ReadStream(src: Source, parse: map<Bytes, Entry>) returns (entries: seq<Entry>)
    modifies src
    ensures entries == Entries(Decode(old(src.data)), parse) && src.data == []
  {
    entries := [];
    while true
      invariant entries + Entries(Decode(src.data), parse) == Entries(Decode(old(src.data)), parse)
      decreases |src.data|
    {
      ghost var was := src.data;
      var c := ReadChunk(src);
      if !c.Chunk? {
        return;
      }
      NextEntry(entries, was, parse);
      var found := [];
      if c.payload != [] && c.payload in parse {
        found := [parse[c.payload]];
      }
      assert found == EntryOf(First(was).value, parse);
      entries := entries + found;
    }
  }
}
