/** Log streams of a worker connection, and the registry of connections: channels that are
    opened under a key, found by it, and closed when the key is given up. */
module LogChannels {

  const CAPACITY := 100

  /** A channel of log lines: what is in it, all that was offered to it, and what the consumer took. */
  datatype Chan = Chan(queue: seq<string>, offered: seq<string>, taken: seq<string>, closes: nat)

  datatype State = State(chans: seq<Chan>, logs: map<string, nat>)

  const INITIAL := State([], map[])

  /** Opening a stream, closing it, passing a line on, and the consumer taking one. */
  datatype Step = Open(id: string) | Close(id: string) | Push(id: string, line: string) | Read(k: nat)

  function Offer(c: Chan, line: string): Chan {
    c.(offered := c.offered + [line], queue := if |c.queue| < CAPACITY then c.queue + [line] else c.queue)
  }

  function Take(c: Chan): Chan {
    if c.queue == [] then c else c.(queue := c.queue[1..], taken := c.taken + [c.queue[0]])
  }

  /** The table only refers to channels there are. */
  predicate Sound(s: State) {
    forall id | id in s.logs :: s.logs[id] < |s.chans|
  }

  function Next(s: State, st: Step): State
    requires Sound(s)
  {
    match st
    case Open(id) => State(s.chans + [Chan([], [], [], 0)], s.logs[id := |s.chans|])
    case Close(id) =>
      if id in s.logs then
        var k := s.logs[id];
        State(s.chans[k := s.chans[k].(closes := s.chans[k].closes + 1)], s.logs - {id})
      else s
    case Push(id, line) =>
      if id in s.logs then
        var k := s.logs[id];
        s.(chans := s.chans[k := Offer(s.chans[k], line)])
      else s
    case Read(k) => if k < |s.chans| then s.(chans := s.chans[k := Take(s.chans[k])]) else s
  }

  lemma NextSound(s: State, st: Step)
    requires Sound(s)
    ensures Sound(Next(s, st)) && |s.chans| <= |Next(s, st).chans|
  {
  }

  function After(s: State, steps: seq<Step>): (s': State)
    requires Sound(s)
    ensures Sound(s') && |s.chans| <= |s'.chans|
    decreases |steps|
  {
    NextSound(s, if steps == [] then Read(0) else steps[0]);
    if steps == [] then s else After(Next(s, steps[0]), steps[1..])
  }

  // ---- what the consumer sees ----

  /** The first can be had from the second by leaving lines out. */
  predicate Sub(a: seq<string>, b: seq<string>) {
    || a == []
    || (b != [] && ((a[|a| - 1] == b[|b| - 1] && Sub(a[..|a| - 1], b[..|b| - 1])) || Sub(a, b[..|b| - 1])))
  }

  /** Some of the offered lines, in order; never more unread ones than fit; and closed at most once. */
  predicate ChanOk(c: Chan) {
    Sub(c.taken + c.queue, c.offered) && |c.queue| <= CAPACITY && c.closes <= 1
  }

  lemma OfferKeepsOk(c: Chan, line: string)
    requires ChanOk(c)
    ensures ChanOk(Offer(c, line))
    ensures Offer(c, line).taken + Offer(c, line).queue ==
            c.taken + c.queue + if |c.queue| == CAPACITY then [] else [line]
  {
  }

  lemma TakeKeepsOk(c: Chan)
    requires ChanOk(c)
    ensures ChanOk(Take(c))
    ensures Take(c).taken + Take(c).queue == c.taken + c.queue
  {
  }

  /** The streams in the table are open, and each is known by one id. */
  ghost predicate Inv(s: State) {
    && Sound(s)
    && (forall k | 0 <= k < |s.chans| :: ChanOk(s.chans[k]))
    && (forall id | id in s.logs :: s.chans[s.logs[id]].closes == 0)
    && (forall i, j | i in s.logs && j in s.logs && s.logs[i] == s.logs[j] :: i == j)
  }

  lemma OpenKeepsInv(s: State, id: string)
    requires Inv(s)
    ensures Inv(Next(s, Open(id)))
  {
  }

  lemma CloseKeepsInv(s: State, id: string)
    requires Inv(s)
    ensures Inv(Next(s, Close(id)))
  {
  }

  lemma StepKeepsInv(s: State, st: Step)
    requires Inv(s)
    ensures Inv(Next(s, st))
  {
    match st {
      case Open(id) => OpenKeepsInv(s, id);
      case Close(id) => CloseKeepsInv(s, id);
      case Push(id, line) =>
        if id in s.logs {
          var k := s.logs[id];
          OfferKeepsOk(s.chans[k], line);
        }
      case Read(k) =>
        if k < |s.chans| {
          TakeKeepsOk(s.chans[k]);
        }
    }
  }

  lemma {:induction false} RunKeepsInv(s: State, steps: seq<Step>)
    requires Inv(s)
    ensures Inv(After(s, steps))
    decreases |steps|
  {
    if steps != [] {
      StepKeepsInv(s, steps[0]);
      RunKeepsInv(Next(s, steps[0]), steps[1..]);
    }
  }

  /** In every run the consumer of a stream has some of the lines offered to it, in order; a stream is
      closed at most once; and as long as it can be found by its id it is open. */
  lemma ConsumersSeeSubsequences(steps: seq<Step>, k: nat)
    requires k < |After(INITIAL, steps).chans|
    ensures var c := After(INITIAL, steps).chans[k];
            Sub(c.taken + c.queue, c.offered) && c.closes <= 1
    ensures var s := After(INITIAL, steps); forall id | id in s.logs :: s.chans[s.logs[id]].closes == 0
  {
    RunKeepsInv(INITIAL, steps);
    assert ChanOk(After(INITIAL, steps).chans[k]);
  }

  /** No line is offered to the stream while it holds as many unread ones as fit. */
  predicate NeverFull(s: State, steps: seq<Step>, k: nat)
    requires Sound(s)
    decreases |steps|
  {
    if steps == [] then true
    else
      NextSound(s, steps[0]);
      && (steps[0].Push? && steps[0].id in s.logs && s.logs[steps[0].id] == k ==> |s.chans[k].queue| < CAPACITY)
      && NeverFull(Next(s, steps[0]), steps[1..], k)
  }

  predicate Complete(s: State, k: nat) {
    k < |s.chans| ==> s.chans[k].taken + s.chans[k].queue == s.chans[k].offered
  }

  /** Lines are dropped only when a full buffer of lines is unread: a stream that is never full when a
      line comes loses nothing. */
  lemma {:induction false} NothingLost(s: State, steps: seq<Step>, k: nat)
    requires Inv(s) && Complete(s, k) && NeverFull(s, steps, k)
    ensures Complete(After(s, steps), k)
    decreases |steps|
  {
    if steps != [] {
      StepKeepsComplete(s, steps[0], k);
      StepKeepsInv(s, steps[0]);
      NothingLost(Next(s, steps[0]), steps[1..], k);
    }
  }

  lemma StepKeepsComplete(s: State, st: Step, k: nat)
    requires Inv(s) && Complete(s, k)
    requires st.Push? && st.id in s.logs && s.logs[st.id] == k ==> |s.chans[k].queue| < CAPACITY
    ensures Complete(Next(s, st), k)
  {
  }

  /** What becomes of one stream by the steps that are about it alone. While it is open under its id, lines pushed
      under that id are offered to it, and a line is dropped if a hundred are unread; closing the id closes it;
      opening another stream under the id hides it. Its consumer takes the oldest unread line, if there is one. */
  function Stream(c: Chan, id: string, open: bool, k: nat, steps: seq<Step>): Chan
    decreases |steps|
  {
    if steps == [] then c
    else match steps[0]
      case Open(i) => Stream(c, id, open && i != id, k, steps[1..])
      case Close(i) =>
        if open && i == id then Stream(c.(closes := c.closes + 1), id, false, k, steps[1..]) else Stream(c, id, open, k, steps[1..])
      case Push(i, line) =>
        var queue := if |c.queue| < 100 then c.queue + [line] else c.queue;
        Stream(if open && i == id then c.(queue := queue, offered := c.offered + [line]) else c, id, open, k, steps[1..])
      case Read(j) =>
        Stream(if j == k && c.queue != [] then c.(queue := c.queue[1..], taken := c.taken + [c.queue[0]]) else c, id, open, k, steps[1..])
  }

  /** Only this id can lead to the stream. */
  ghost predicate OnlyUnder(s: State, id: string, open: bool, k: nat) {
    && (open <==> id in s.logs && s.logs[id] == k)
    && forall i | i in s.logs && s.logs[i] == k :: i == id
  }

  /** Streams do not interfere: over any run, each becomes what its own steps make of it. */
  lemma {:induction false} StreamsApart(s: State, steps: seq<Step>, id: string, open: bool, k: nat)
    requires Sound(s) && k < |s.chans| && OnlyUnder(s, id, open, k)
    ensures After(s, steps).chans[k] == Stream(s.chans[k], id, open, k, steps)
    decreases |steps|
  {
    if steps != [] {
      NextSound(s, steps[0]);
      StreamsApart(Next(s, steps[0]), steps[1..], id, open && steps[0] != Open(id) && steps[0] != Close(id), k);
    }
  }

  // ---- a line that is passed on in two steps ----

  /** Between finding the stream and sending to it, the stream is closed under its own id. */
  predicate ClosedMeanwhile(between: seq<Step>, id: string) {
    between != [] &&
    (between[0] == Close(id) || (between[0] != Open(id) && ClosedMeanwhile(between[1..], id)))
  }

  /** The lock is released between finding a stream and sending to it. The send meets a closed stream,
      which is fatal, exactly if the stream is closed in between; opening another one under the same id
      first protects it. */
  lemma {:induction false} SendMeetsClosedIff(s: State, id: string, between: seq<Step>)
    requires Inv(s) && id in s.logs
    ensures After(s, between).chans[s.logs[id]].closes > 0 <==> ClosedMeanwhile(between, id)
    decreases |between|
  {
    if between != [] {
      var st, k := between[0], s.logs[id];
      var s' := Next(s, st);
      StepKeepsInv(s, st);
      FirstStep(s, id, st);
      if st == Close(id) {
        StaysClosed(s', between[1..], k);
      } else if st == Open(id) {
        StaysOpen(s', between[1..], k);
      } else {
        SendMeetsClosedIff(s', id, between[1..]);
      }
    }
  }

  lemma FirstStep(s: State, id: string, st: Step)
    requires Inv(s) && id in s.logs
    ensures var s', k := Next(s, st), s.logs[id];
            && k < |s'.chans|
            && (st == Close(id) ==> s'.chans[k].closes > 0)
            && (st == Open(id) ==> s'.chans[k].closes == 0 && k !in s'.logs.Values)
            && (st != Close(id) && st != Open(id) ==> id in s'.logs && s'.logs[id] == k)
  {
  }

  lemma {:induction false} StaysClosed(s: State, steps: seq<Step>, k: nat)
    requires Sound(s) && k < |s.chans| && s.chans[k].closes > 0
    ensures After(s, steps).chans[k].closes > 0
    decreases |steps|
  {
    if steps != [] {
      NextSound(s, steps[0]);
      StaysClosed(Next(s, steps[0]), steps[1..], k);
    }
  }

  /** A stream that cannot be found any more is never closed. */
  lemma {:induction false} StaysOpen(s: State, steps: seq<Step>, k: nat)
    requires Sound(s) && k < |s.chans| && s.chans[k].closes == 0 && k !in s.logs.Values
    ensures After(s, steps).chans[k].closes == 0
    decreases |steps|
  {
    if steps != [] {
      NextSound(s, steps[0]);
      StaysOpen(Next(s, steps[0]), steps[1..], k);
    }
  }

  // ---- the log streams of a connection ----

  class WorkerLogs {
    var chans: seq<Chan>
    var logs: map<string, nat>

    constructor ()
      ensures Now() == INITIAL && Inv(Now())
    {
      chans, logs := [], map[];
    }

    function Now(): State
      reads this
    {
      State(chans, logs)
    }

    method StreamLogs(id: string) returns (k: nat)
      requires Inv(Now())
      modifies this
      ensures Now() == Next(old(Now()), Open(id)) && Inv(Now()) && k == |old(chans)|
    {
      ghost var s := Now();
      k := |chans|;
      chans := chans + [Chan([], [], [], 0)];
      logs := logs[id := k];
      StepKeepsInv(s, Open(id));
    }

    method CloseLogStream(id: string)
      requires Inv(Now())
      modifies this
      ensures Now() == Next(old(Now()), Close(id)) && Inv(Now())
    {
      ghost var s := Now();
      if id in logs {
        var k := logs[id];
        chans := chans[k := chans[k].(closes := chans[k].closes + 1)];
        logs := logs - {id};
      }
      StepKeepsInv(s, Close(id));
    }

    method PushLog(id: string, line: string)
      requires Inv(Now())
      modifies this
      ensures Now() == Next(old(Now()), Push(id, line)) && Inv(Now())
    {
      ghost var s := Now();
      StepKeepsInv(s, Push(id, line));
      if id !in logs {
        return;
      }
      var k := logs[id];
      var c := chans[k].(offered := chans[k].offered + [line]);
      if |c.queue| < CAPACITY {
        c := c.(queue := c.queue + [line]);
      }
      chans := chans[k := c];
    }
  }

  // ---- the registry of connections ----

  /** For each connection there has been, how often its done channel was closed. */
  datatype Connections = Connections(closes: seq<nat>, workers: map<string, nat>)

  datatype Change = Register(worker: string) | Unregister(worker: string)

  ghost predicate Orderly(r: Connections) {
    && (forall w | w in r.workers :: r.workers[w] < |r.closes| && r.closes[r.workers[w]] == 0)
    && (forall v, w | v in r.workers && w in r.workers && r.workers[v] == r.workers[w] :: v == w)
    && (forall k | 0 <= k < |r.closes| :: r.closes[k] <= 1)
  }

  function Changed(r: Connections, c: Change): Connections {
    match c
    case Register(w) => Connections(r.closes + [0], r.workers[w := |r.closes|])
    case Unregister(w) =>
      if w in r.workers && r.workers[w] < |r.closes| then
        Connections(r.closes[r.workers[w] := r.closes[r.workers[w]] + 1], r.workers - {w})
      else r
  }

  function AllChanged(r: Connections, cs: seq<Change>): Connections
    decreases |cs|
  {
    if cs == [] then r else AllChanged(Changed(r, cs[0]), cs[1..])
  }

  /** In every run of connecting, reconnecting and disconnecting, each done channel is closed at most
      once, and a connection that can be found is not closed. */
  lemma {:induction false} ClosedAtMostOnce(r: Connections, cs: seq<Change>)
    requires Orderly(r)
    ensures Orderly(AllChanged(r, cs))
    decreases |cs|
  {
    if cs != [] {
      ClosedAtMostOnce(Changed(r, cs[0]), cs[1..]);
    }
  }

  /** What one change does to a connection nobody can find. */
  lemma ChangeOfLost(r: Connections, c: Change, k: nat)
    requires Orderly(r) && k < |r.closes| && k !in r.workers.Values
    ensures var r' := Changed(r, c);
            Orderly(r') && k < |r'.closes| && r'.closes[k] == r.closes[k] && k !in r'.workers.Values
  {
    var r' := Changed(r, c);
    ChangeKeepsOrder(r, c);
    forall v | v in r'.workers
      ensures r'.workers[v] != k
    {
      assert v in r.workers ==> r.workers[v] in r.workers.Values;
    }
  }

  /** A connection nobody can find any more stays as it is. */
  lemma {:induction false} StaysLost(r: Connections, cs: seq<Change>, k: nat)
    requires Orderly(r) && k < |r.closes| && k !in r.workers.Values
    ensures var r' := AllChanged(r, cs);
            k < |r'.closes| && r'.closes[k] == r.closes[k] && k !in r'.workers.Values
    decreases |cs|
  {
    if cs != [] {
      ChangeOfLost(r, cs[0], k);
      StaysLost(Changed(r, cs[0]), cs[1..], k);
    }
  }

  lemma OtherChange(r: Connections, c: Change, w: string)
    requires Orderly(r) && w in r.workers && c.worker != w
    ensures var k, r' := r.workers[w], Changed(r, c);
            k < |r'.closes| && w in r'.workers && r'.workers[w] == k
  {
  }

  lemma OwnChange(r: Connections, c: Change, w: string)
    requires Orderly(r) && w in r.workers && c.worker == w
    ensures var k, r' := r.workers[w], Changed(r, c);
            k < |r'.closes| && k !in r'.workers.Values && r'.closes[k] == if c.Unregister? then 1 else 0
  {
  }

  /** The first change that is about the worker takes its connection away. */
  predicate TakenAway(cs: seq<Change>, w: string) {
    cs != [] && (cs[0] == Unregister(w) || (cs[0] != Register(w) && TakenAway(cs[1..], w)))
  }

  /** Whose connection it is: over any run of changes, a connection is still its worker's, and open, exactly
      if no change was about that worker. */
  lemma {:induction false} StaysFindableIff(r: Connections, cs: seq<Change>, w: string)
    requires Orderly(r) && w in r.workers
    ensures Findable(AllChanged(r, cs), w, r.workers[w]) <==> forall c | c in cs :: c.worker != w
    decreases |cs|
  {
    if cs != [] {
      var k, r1, rest := r.workers[w], Changed(r, cs[0]), cs[1..];
      ChangeKeepsOrder(r, cs[0]);
      assert forall c :: c in cs <==> c == cs[0] || c in rest;
      if cs[0].worker == w {
        OwnChange(r, cs[0], w);
        StaysLost(r1, rest, k);
      } else {
        OtherChange(r, cs[0], w);
        StaysFindableIff(r1, rest, w);
      }
    }
  }

  predicate Findable(r: Connections, w: string, k: nat) {
    w in r.workers && r.workers[w] == k && k < |r.closes| && r.closes[k] == 0
  }

  lemma ChangeKeepsOrder(r: Connections, c: Change)
    requires Orderly(r)
    ensures Orderly(Changed(r, c))
  {
    ClosedAtMostOnce(r, [c]);
    assert [c][1..] == [];
  }

  /** Its done channel has been closed exactly if the first change that was about the worker took a
      connection away, for then it took this one, whoever asked for it. */
  lemma {:induction false} ClosedIff(r: Connections, cs: seq<Change>, w: string)
    requires Orderly(r) && w in r.workers
    ensures var k, r' := r.workers[w], AllChanged(r, cs);
            k < |r'.closes| && r'.closes[k] == if TakenAway(cs, w) then 1 else 0
    decreases |cs|
  {
    if cs != [] {
      var k, r1, rest := r.workers[w], Changed(r, cs[0]), cs[1..];
      ChangeKeepsOrder(r, cs[0]);
      if cs[0].worker == w {
        OwnChange(r, cs[0], w);
        StaysLost(r1, rest, k);
      } else {
        OtherChange(r, cs[0], w);
        ClosedIff(r1, rest, w);
      }
    }
  }

  /** A worker that reconnects before its old connection has ended loses the new one with the old: it is
      the new connection's channel that is closed, and the worker can no longer be found. */
  lemma ReconnectLosesNew(r: Connections, w: string)
    requires Orderly(r) && w in r.workers
    ensures var r1 := Changed(r, Register(w));
            var r2 := Changed(r1, Unregister(w));
            && |r2.closes| == |r.closes| + 1 && r2.closes[|r.closes|] == 1
            && r2.closes[r.workers[w]] == 0
            && w !in r2.workers && Changed(r2, Unregister(w)) == r2
  {
  }

  class Registry {
    var closes: seq<nat>
    var workers: map<string, nat>

    constructor ()
      ensures Now() == Connections([], map[]) && Orderly(Now())
    {
      closes, workers := [], map[];
    }

    function Now(): Connections
      reads this
    {
      Connections(closes, workers)
    }

    method Register(w: string) returns (k: nat)
      requires Orderly(Now())
      modifies this
      ensures Now() == Changed(old(Now()), Change.Register(w)) && Orderly(Now()) && k == |old(closes)|
    {
      k := |closes|;
      closes := closes + [0];
      workers := workers[w := k];
    }

    method Unregister(w: string)
      requires Orderly(Now())
      modifies this
      ensures Now() == Changed(old(Now()), Change.Unregister(w)) && Orderly(Now())
    {
      if w in workers {
        var k := workers[w];
        closes := closes[k := closes[k] + 1];
        workers := workers - {w};
      }
    }
  }
}
