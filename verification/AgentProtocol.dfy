/** The command protocol between the control plane and a worker, over one connection. Commands
    wait for replies in one-place channels; one loop receives what the worker sends and hands it
    on. The atomic steps are the regions under the connection's lock, and single channel operations. */
module AgentProtocol {
  import opened Wrappers

  /** A reply names the command it belongs to. A refusal goes to the error channel. */
  datatype Reply = Accepted | Refused(reason: string) | Payload(body: string)

  datatype Message = Message(id: string, reply: Reply)

  /** How a command ends; replies are referred to by their position among all that were handed on. */
  datatype Outcome = Got(a: nat) | Failed(a: nat) | SendFailed | TimedOut | Disconnected

  datatype Phase = Sending | Waiting | Leaving(outcome: Outcome) | Returned(outcome: Outcome)

  /** A command under way: its two channels, and how many replies there had been before it was
      registered. */
  datatype Call = Call(id: string, since: nat, phase: Phase, result: Option<nat>, error: Option<nat>) {
    predicate Decided() {
      phase.Leaving? || phase.Returned?
    }
  }

  /** The receiving loop, between finding the command a reply belongs to and handing it on. */
  datatype Receiver = Idle | Holding(a: nat, k: nat)

  datatype State = State(replies: seq<Message>, calls: seq<Call>, pending: map<string, nat>, recv: Receiver, done: bool)

  const INITIAL := State([], [], map[], Idle, false)

  datatype Step =
    | Begin(id: string)
    | SendOk(k: nat)
    | SendFails(k: nat)
    | Dispatch(msg: Message)
    | Put
    | TakeResult(k: nat)
    | TakeError(k: nat)
    | Timeout(k: nat)
    | Hangup(k: nat)
    | Finish(k: nat)
    | Close

  predicate InPhase(s: State, k: nat, p: Phase) {
    k < |s.calls| && s.calls[k].phase == p
  }

  predicate Full(s: State, a: nat, k: nat)
    requires a < |s.replies| && k < |s.calls|
  {
    if s.replies[a].reply.Refused? then s.calls[k].error.Some? else s.calls[k].result.Some?
  }

  predicate Enabled(s: State, st: Step) {
    match st
    case Begin(_) => true
    case SendOk(k) => InPhase(s, k, Sending)
    case SendFails(k) => InPhase(s, k, Sending)
    case Dispatch(_) => s.recv.Idle?
    case Put => s.recv.Holding? && s.recv.a < |s.replies| && s.recv.k < |s.calls| && !Full(s, s.recv.a, s.recv.k)
    case TakeResult(k) => InPhase(s, k, Waiting) && s.calls[k].result.Some?
    case TakeError(k) => InPhase(s, k, Waiting) && s.calls[k].error.Some?
    case Timeout(k) => InPhase(s, k, Waiting)
    case Hangup(k) => InPhase(s, k, Waiting) && s.done
    case Finish(k) => k < |s.calls| && s.calls[k].phase.Leaving?
    case Close => !s.done
  }

  function WithPhase(s: State, k: nat, p: Phase): State
    requires k < |s.calls|
  {
    s.(calls := s.calls[k := s.calls[k].(phase := p)])
  }

  function Next(s: State, st: Step): State
    requires Enabled(s, st)
  {
    match st
    case Begin(id) =>
      s.(calls := s.calls + [Call(id, |s.replies|, Sending, None, None)], pending := s.pending[id := |s.calls|])
    case SendOk(k) => WithPhase(s, k, Waiting)
    case SendFails(k) => WithPhase(s, k, Leaving(SendFailed))
    case Dispatch(msg) =>
      s.(replies := s.replies + [msg],
         recv := if msg.id in s.pending then Holding(|s.replies|, s.pending[msg.id]) else Idle)
    case Put =>
      var a, c := s.recv.a, s.calls[s.recv.k];
      s.(calls := s.calls[s.recv.k := if s.replies[a].reply.Refused? then c.(error := Some(a)) else c.(result := Some(a))],
         recv := Idle)
    case TakeResult(k) =>
      var c := s.calls[k];
      s.(calls := s.calls[k := c.(phase := Leaving(Got(c.result.value)), result := None)])
    case TakeError(k) =>
      var c := s.calls[k];
      s.(calls := s.calls[k := c.(phase := Leaving(Failed(c.error.value)), error := None)])
    case Timeout(k) => WithPhase(s, k, Leaving(TimedOut))
    case Hangup(k) => WithPhase(s, k, Leaving(Disconnected))
    case Finish(k) =>
      WithPhase(s, k, Returned(s.calls[k].phase.outcome)).(pending := s.pending - {s.calls[k].id})
    case Close => s.(done := true)
  }

  /** The steps of an interleaving, each enabled when it is taken. */
  ghost predicate IsRun(s: State, steps: seq<Step>)
    decreases |steps|
  {
    steps != [] ==> Enabled(s, steps[0]) && IsRun(Next(s, steps[0]), steps[1..])
  }

  ghost function After(s: State, steps: seq<Step>): State
    requires IsRun(s, steps)
    decreases |steps|
  {
    if steps == [] then s else After(Next(s, steps[0]), steps[1..])
  }

  // ---- replies reach the command they name ----

  /** The reply was handed on, under the command's own id, after the command was registered. */
  predicate Belongs(s: State, a: nat, c: Call) {
    c.since <= a < |s.replies| && s.replies[a].id == c.id
  }

  predicate ResultOk(s: State, a: nat, c: Call) {
    Belongs(s, a, c) && !s.replies[a].reply.Refused?
  }

  predicate ErrorOk(s: State, a: nat, c: Call) {
    Belongs(s, a, c) && s.replies[a].reply.Refused?
  }

  predicate CallOk(s: State, c: Call) {
    && (c.result.Some? ==> ResultOk(s, c.result.value, c))
    && (c.error.Some? ==> ErrorOk(s, c.error.value, c))
    && (c.Decided() && c.phase.outcome.Got? ==> ResultOk(s, c.phase.outcome.a, c))
    && (c.Decided() && c.phase.outcome.Failed? ==> ErrorOk(s, c.phase.outcome.a, c))
    && c.since <= |s.replies|
  }

  ghost predicate Inv(s: State) {
    && (forall k | 0 <= k < |s.calls| :: CallOk(s, s.calls[k]))
    && (forall id | id in s.pending :: s.pending[id] < |s.calls| && s.calls[s.pending[id]].id == id)
    && (s.recv.Holding? ==> s.recv.k < |s.calls| && Belongs(s, s.recv.a, s.calls[s.recv.k]))
  }

  lemma DispatchKeepsInv(s: State, msg: Message)
    requires Inv(s) && Enabled(s, Dispatch(msg))
    ensures Inv(Next(s, Dispatch(msg)))
  {
  }

  lemma BeginKeepsInv(s: State, id: string)
    requires Inv(s)
    ensures Inv(Next(s, Begin(id)))
  {
  }

  /** A step of one command, which keeps its id. */
  lemma CallStepKeepsInv(s: State, s': State, k: nat)
    requires Inv(s) && k < |s.calls| && |s'.calls| == |s.calls| && s'.calls == s.calls[k := s'.calls[k]]
    requires s'.calls[k].id == s.calls[k].id && s'.calls[k].since == s.calls[k].since && CallOk(s, s'.calls[k])
    requires s'.replies == s.replies && (s'.recv == s.recv || s'.recv.Idle?)
    requires s'.pending == s.pending || s'.pending == s.pending - {s.calls[k].id}
    ensures Inv(s')
  {
  }

  /** The command a step is about. */
  function Subject(s: State, st: Step): nat {
    match st
    case SendOk(k) => k
    case SendFails(k) => k
    case TakeResult(k) => k
    case TakeError(k) => k
    case Timeout(k) => k
    case Hangup(k) => k
    case Finish(k) => k
    case Put => if s.recv.Holding? then s.recv.k else 0
    case _ => 0
  }

  lemma StepKeepsInv(s: State, st: Step)
    requires Inv(s) && Enabled(s, st)
    ensures Inv(Next(s, st))
  {
    if st.Dispatch? {
      DispatchKeepsInv(s, st.msg);
    } else if st.Begin? {
      BeginKeepsInv(s, st.id);
    } else if !st.Close? {
      assert CallOk(s, s.calls[Subject(s, st)]);
      CallStepKeepsInv(s, Next(s, st), Subject(s, st));
    } else {
      assert forall k | 0 <= k < |s.calls| :: CallOk(s, s.calls[k]) && CallOk(s.(done := true), s.calls[k]);
    }
  }

  lemma {:induction false} RunKeepsInv(s: State, steps: seq<Step>)
    requires Inv(s) && IsRun(s, steps)
    ensures Inv(After(s, steps))
    decreases |steps|
  {
    if steps != [] {
      StepKeepsInv(s, steps[0]);
      RunKeepsInv(Next(s, steps[0]), steps[1..]);
    }
  }

  /** Correlation: in every interleaving, a command that returns a result returns a reply that was
      handed on under its own id after it was registered, and was not a refusal. */
  lemma Correlated(steps: seq<Step>, k: nat)
    requires IsRun(INITIAL, steps) && k < |After(INITIAL, steps).calls|
    ensures var s := After(INITIAL, steps);
            var c := s.calls[k];
            && (c.phase.Returned? && c.phase.outcome.Got? ==> ResultOk(s, c.phase.outcome.a, c))
            && (c.phase.Returned? && c.phase.outcome.Failed? ==> ErrorOk(s, c.phase.outcome.a, c))
  {
    RunKeepsInv(INITIAL, steps);
    assert CallOk(After(INITIAL, steps), After(INITIAL, steps).calls[k]);
  }

  /** What is decided stays decided: a command takes at most one reply. */
  lemma {:induction false} OutcomeIsFinal(s: State, steps: seq<Step>, k: nat)
    requires IsRun(s, steps) && k < |s.calls| && s.calls[k].Decided()
    ensures var s' := After(s, steps);
            k < |s'.calls| && s'.calls[k].Decided() && s'.calls[k].phase.outcome == s.calls[k].phase.outcome
    decreases |steps|
  {
    if steps != [] {
      OutcomeIsFinal(Next(s, steps[0]), steps[1..], k);
    }
  }

  /** The outcome is that of the step. */
  predicate EndsAs(st: Step, o: Outcome) {
    match st
    case SendFails(_) => o.SendFailed?
    case TakeResult(_) => o.Got?
    case TakeError(_) => o.Failed?
    case Timeout(_) => o.TimedOut?
    case Hangup(_) => o.Disconnected?
    case _ => false
  }

  predicate EndedAs(s: State, k: nat, st: Step) {
    k < |s.calls| && s.calls[k].Decided() && EndsAs(st, s.calls[k].phase.outcome)
  }

  lemma EndsAtStep(s: State, st0: Step, k: nat, st: Step)
    requires Enabled(s, st0) && st in [SendFails(k), TakeResult(k), TakeError(k), Timeout(k), Hangup(k)]
    ensures EndedAs(Next(s, st0), k, st) <==> EndedAs(s, k, st) || st0 == st
    ensures Next(s, st0).done <==> s.done || st0.Close?
    ensures st0.Hangup? ==> s.done
  {
  }

  lemma {:induction false} EndsByStep(s: State, steps: seq<Step>, k: nat, st: Step)
    requires IsRun(s, steps) && st in [SendFails(k), TakeResult(k), TakeError(k), Timeout(k), Hangup(k)]
    ensures EndedAs(After(s, steps), k, st) <==> EndedAs(s, k, st) || st in steps
    ensures After(s, steps).done <==> s.done || Close in steps
    ensures Hangup(k) in steps ==> After(s, steps).done
    decreases |steps|
  {
    if steps != [] {
      EndsAtStep(s, steps[0], k, st);
      EndsByStep(Next(s, steps[0]), steps[1..], k, st);
    }
  }

  /** Each command ends as the step that ends it says: with an error when it could not be sent, with a result or a
      refusal when one was taken from its channels, and otherwise when its time was up or the connection closed. */
  lemma OutcomeIff(steps: seq<Step>, k: nat)
    requires IsRun(INITIAL, steps) && k < |After(INITIAL, steps).calls| && After(INITIAL, steps).calls[k].Decided()
    ensures var s := After(INITIAL, steps);
            var o := s.calls[k].phase.outcome;
            && (o.SendFailed? <==> SendFails(k) in steps) && (o.Got? <==> TakeResult(k) in steps)
            && (o.Failed? <==> TakeError(k) in steps) && (o.TimedOut? <==> Timeout(k) in steps)
            && (o.Disconnected? <==> Hangup(k) in steps) && (o.Disconnected? ==> Close in steps)
  {
    EndsByStep(INITIAL, steps, k, SendFails(k));
    EndsByStep(INITIAL, steps, k, TakeResult(k));
    EndsByStep(INITIAL, steps, k, TakeError(k));
    EndsByStep(INITIAL, steps, k, Timeout(k));
    EndsByStep(INITIAL, steps, k, Hangup(k));
  }

  // ---- unique ids ----

  /** No two commands bear the same id. */
  ghost predicate UniqueIds(s: State) {
    forall j, k | 0 <= j < k < |s.calls| :: s.calls[j].id != s.calls[k].id
  }

  /** The step makes up a new id, if any. */
  predicate NewId(s: State, st: Step) {
    st.Begin? ==> forall k | 0 <= k < |s.calls| :: s.calls[k].id != st.id
  }

  ghost predicate IdsAreNew(s: State, steps: seq<Step>)
    requires IsRun(s, steps)
    decreases |steps|
  {
    steps != [] ==> NewId(s, steps[0]) && IdsAreNew(Next(s, steps[0]), steps[1..])
  }

  predicate Registered(s: State, k: nat)
    requires k < |s.calls|
  {
    s.calls[k].id in s.pending && s.pending[s.calls[k].id] == k
  }

  /** Exactly the commands that have not returned are registered. */
  ghost predicate Books(s: State) {
    && UniqueIds(s)
    && (forall k | 0 <= k < |s.calls| :: Registered(s, k) <==> !s.calls[k].phase.Returned?)
    && (forall k | 0 <= k < |s.calls| :: s.calls[k].id in s.pending ==> Registered(s, k))
    && (forall id | id in s.pending :: s.pending[id] < |s.calls| && s.calls[s.pending[id]].id == id)
  }

  lemma SameBooks(s: State, s': State)
    requires Books(s) && |s'.calls| == |s.calls| && s'.pending == s.pending
    requires forall k | 0 <= k < |s.calls| ::
               s'.calls[k].id == s.calls[k].id && s'.calls[k].phase.Returned? == s.calls[k].phase.Returned?
    ensures Books(s')
  {
  }

  lemma BeginKeepsBooks(s: State, id: string)
    requires Books(s) && NewId(s, Begin(id))
    ensures Books(Next(s, Begin(id)))
  {
  }

  lemma FinishKeepsBooks(s: State, k: nat)
    requires Books(s) && Enabled(s, Finish(k))
    ensures Books(Next(s, Finish(k)))
  {
  }

  /** Other steps touch neither ids nor what is registered, and return nothing. */
  lemma OtherStep(s: State, st: Step)
    requires Enabled(s, st) && !st.Begin? && !st.Finish?
    ensures var s' := Next(s, st);
            && |s'.calls| == |s.calls| && s'.pending == s.pending
            && forall k | 0 <= k < |s.calls| ::
                 s'.calls[k].id == s.calls[k].id && s'.calls[k].phase.Returned? == s.calls[k].phase.Returned?
  {
  }

  lemma StepKeepsBooks(s: State, st: Step)
    requires Books(s) && Enabled(s, st) && NewId(s, st)
    ensures Books(Next(s, st))
  {
    match st {
      case Begin(id) => BeginKeepsBooks(s, id);
      case Finish(k) => FinishKeepsBooks(s, k);
      case _ =>
        OtherStep(s, st);
        SameBooks(s, Next(s, st));
    }
  }

  lemma {:induction false} RunKeepsBooks(s: State, steps: seq<Step>)
    requires Books(s) && IsRun(s, steps) && IdsAreNew(s, steps)
    ensures Books(After(s, steps))
    decreases |steps|
  {
    if steps != [] {
      StepKeepsBooks(s, steps[0]);
      RunKeepsBooks(Next(s, steps[0]), steps[1..]);
    }
  }

  /** With unique ids a command that has returned leaves nothing behind, and no reply, be it a
      result or a refusal, ends up with two commands. */
  lemma NothingLeftBehind(steps: seq<Step>, j: nat, k: nat)
    requires IsRun(INITIAL, steps) && IdsAreNew(INITIAL, steps)
    requires j < |After(INITIAL, steps).calls| && k < |After(INITIAL, steps).calls| && j != k
    ensures var s := After(INITIAL, steps);
            && (s.calls[j].phase.Returned? ==> s.calls[j].id !in s.pending)
            && (s.calls[j].Decided() && s.calls[k].Decided() && (s.calls[j].phase.outcome.Got? || s.calls[j].phase.outcome.Failed?) ==>
                  s.calls[j].phase.outcome != s.calls[k].phase.outcome)
  {
    RunKeepsInv(INITIAL, steps);
    RunKeepsBooks(INITIAL, steps);
    var s := After(INITIAL, steps);
    assert CallOk(s, s.calls[j]) && CallOk(s, s.calls[k]);
    assert s.calls[j].id != s.calls[k].id;
  }

  // ---- when handing on a reply can block ----

  /** Replies in the channels came before the one the receiver holds. */
  ghost predicate HeldIsLast(s: State) {
    s.recv.Holding? ==>
      forall k | 0 <= k < |s.calls| ::
        (s.calls[k].result.Some? ==> s.calls[k].result.value != s.recv.a)
        && (s.calls[k].error.Some? ==> s.calls[k].error.value != s.recv.a)
  }

  lemma StepKeepsHeldIsLast(s: State, st: Step)
    requires Inv(s) && HeldIsLast(s) && Enabled(s, st)
    ensures HeldIsLast(Next(s, st))
  {
    if st.Dispatch? {
      forall k | 0 <= k < |s.calls|
        ensures s.calls[k].result.Some? ==> s.calls[k].result.value < |s.replies|
        ensures s.calls[k].error.Some? ==> s.calls[k].error.value < |s.replies|
      {
        assert CallOk(s, s.calls[k]);
      }
    }
  }

  lemma {:induction false} RunKeepsHeldIsLast(s: State, steps: seq<Step>)
    requires Inv(s) && HeldIsLast(s) && IsRun(s, steps)
    ensures HeldIsLast(After(s, steps))
    decreases |steps|
  {
    if steps != [] {
      StepKeepsInv(s, steps[0]);
      StepKeepsHeldIsLast(s, steps[0]);
      RunKeepsHeldIsLast(Next(s, steps[0]), steps[1..]);
    }
  }

  /** Each command gets at most one refusal and at most one other reply. */
  ghost predicate NoDuplicates(replies: seq<Message>) {
    forall a, b | 0 <= a < b < |replies| && replies[a].id == replies[b].id ::
      replies[a].reply.Refused? != replies[b].reply.Refused?
  }

  /** Without duplicate replies the receiving loop never waits for a channel to be emptied. */
  lemma NeverBlocks(steps: seq<Step>)
    requires IsRun(INITIAL, steps) && NoDuplicates(After(INITIAL, steps).replies)
    ensures var s := After(INITIAL, steps); s.recv.Holding? ==> Enabled(s, Put)
  {
    RunKeepsInv(INITIAL, steps);
    RunKeepsHeldIsLast(INITIAL, steps);
    var s := After(INITIAL, steps);
    if s.recv.Holding? {
      assert CallOk(s, s.calls[s.recv.k]);
    }
  }

  /** The receiver holds a reply for a channel that is full and that nobody will read any more. */
  predicate Wedged(s: State) {
    && s.recv.Holding? && s.recv.a < |s.replies| && s.recv.k < |s.calls|
    && Full(s, s.recv.a, s.recv.k) && s.calls[s.recv.k].Decided()
  }

  /** From then on the loop receives nothing, whatever happens. */
  lemma {:induction false} WedgedForever(s: State, steps: seq<Step>)
    requires Wedged(s) && IsRun(s, steps)
    ensures Wedged(After(s, steps)) && After(s, steps).replies == s.replies
    decreases |steps|
  {
    if steps != [] {
      WedgedForever(Next(s, steps[0]), steps[1..]);
    }
  }

  // ---- exactly when the loop can stop for good ----

  /** With these messages from the worker, some interleaving leaves the receiving loop waiting. */
  ghost predicate CanBlock(msgs: seq<Message>) {
    exists steps :: IsRun(INITIAL, steps) && After(INITIAL, steps).replies <= msgs
                    && After(INITIAL, steps).recv.Holding? && !Enabled(After(INITIAL, steps), Put)
  }

  /** With these messages from the worker, some interleaving stops the receiving loop for good. */
  ghost predicate CanWedge(msgs: seq<Message>) {
    exists steps :: IsRun(INITIAL, steps) && After(INITIAL, steps).replies <= msgs && Wedged(After(INITIAL, steps))
  }

  /** A run that ends here. */
  ghost predicate Leads(s: State, steps: seq<Step>, s': State) {
    IsRun(s, steps) && IdsAreNew(s, steps) && After(s, steps) == s'
  }

  lemma {:induction false} LeadsOn(s: State, a: seq<Step>, s1: State, b: seq<Step>, s2: State)
    requires Leads(s, a, s1) && Leads(s1, b, s2)
    ensures Leads(s, a + b, s2)
    decreases |a|
  {
    if a == [] {
      assert a + b == b;
    } else {
      LeadsOn(Next(s, a[0]), a[1..], s1, b, s2);
      assert (a + b)[1..] == a[1..] + b;
    }
  }

  lemma OneStep(s: State, st: Step)
    requires Enabled(s, st) && NewId(s, st)
    ensures Leads(s, [st], Next(s, st))
  {
    assert [st][1..] == [];
  }

  /** Nothing registered: messages are dropped. */
  function Dropping(msgs: seq<Message>, i: nat): State
    requires i <= |msgs|
  {
    State(msgs[..i], [], map[], Idle, false)
  }

  lemma {:induction false} DropUpTo(msgs: seq<Message>, i: nat) returns (steps: seq<Step>)
    requires i <= |msgs|
    ensures Leads(INITIAL, steps, Dropping(msgs, i))
  {
    if i == 0 {
      steps := [];
    } else {
      var before := DropUpTo(msgs, i - 1);
      assert msgs[..i] == msgs[..i - 1] + [msgs[i - 1]];
      OneStep(Dropping(msgs, i - 1), Dispatch(msgs[i - 1]));
      LeadsOn(INITIAL, before, Dropping(msgs, i - 1), [Dispatch(msgs[i - 1])], Dropping(msgs, i));
      steps := before + [Dispatch(msgs[i - 1])];
    }
  }

  /** One command, registered just before its first reply, that reply in its channel, the command timed
      out but not yet forgotten; `other` is what the other channel holds. */
  function GivenUp(msgs: seq<Message>, a: nat, i: nat, other: Option<nat>): State
    requires a < i <= |msgs|
  {
    var refused := msgs[a].reply.Refused?;
    State(msgs[..i],
          [Call(msgs[a].id, a, Leaving(TimedOut), if refused then other else Some(a), if refused then Some(a) else other)],
          map[msgs[a].id := 0], Idle, false)
  }

  lemma GiveUp(msgs: seq<Message>, a: nat) returns (steps: seq<Step>)
    requires a < |msgs|
    ensures Leads(Dropping(msgs, a), steps, GivenUp(msgs, a, a + 1, None))
  {
    var id := msgs[a].id;
    var s0 := Dropping(msgs, a);
    var s1 := Next(s0, Begin(id));
    var s2 := Next(s1, SendOk(0));
    var s3 := Next(s2, Dispatch(msgs[a]));
    var s4 := Next(s3, Put);
    var s5 := Next(s4, Timeout(0));
    assert msgs[..a + 1] == msgs[..a] + [msgs[a]];
    assert s5 == GivenUp(msgs, a, a + 1, None);
    OneStep(s0, Begin(id));
    OneStep(s1, SendOk(0));
    OneStep(s2, Dispatch(msgs[a]));
    OneStep(s3, Put);
    OneStep(s4, Timeout(0));
    LeadsOn(s0, [Begin(id)], s1, [SendOk(0)], s2);
    LeadsOn(s2, [Dispatch(msgs[a])], s3, [Put], s4);
    LeadsOn(s0, [Begin(id)] + [SendOk(0)], s2, [Dispatch(msgs[a])] + [Put], s4);
    steps := [Begin(id)] + [SendOk(0)] + ([Dispatch(msgs[a])] + [Put]);
    LeadsOn(s0, steps, s4, [Timeout(0)], s5);
    steps := steps + [Timeout(0)];
  }

  /** Another message in that state is dropped, or goes into the other channel. */
  lemma OneMore(msgs: seq<Message>, a: nat, i: nat, other: Option<nat>) returns (steps: seq<Step>, other': Option<nat>)
    requires a < i < |msgs|
    requires msgs[i].id == msgs[a].id ==> other.None? && msgs[i].reply.Refused? != msgs[a].reply.Refused?
    ensures Leads(GivenUp(msgs, a, i, other), steps, GivenUp(msgs, a, i + 1, other'))
    ensures other' == if msgs[i].id == msgs[a].id then Some(i) else other
  {
    var s := GivenUp(msgs, a, i, other);
    var s1 := Next(s, Dispatch(msgs[i]));
    assert msgs[..i + 1] == msgs[..i] + [msgs[i]];
    OneStep(s, Dispatch(msgs[i]));
    if msgs[i].id == msgs[a].id {
      assert Enabled(s1, Put);
      OneStep(s1, Put);
      LeadsOn(s, [Dispatch(msgs[i])], s1, [Put], Next(s1, Put));
      steps, other' := [Dispatch(msgs[i])] + [Put], Some(i);
    } else {
      steps, other' := [Dispatch(msgs[i])], other;
    }
  }

  /** What the other channel holds is another reply to the command. */
  predicate OtherOk(msgs: seq<Message>, a: nat, i: nat, other: Option<nat>) {
    other.Some? ==>
      a < other.value < i <= |msgs| && msgs[other.value].id == msgs[a].id
      && msgs[other.value].reply.Refused? != msgs[a].reply.Refused?
  }

  lemma {:induction false} GoOn(msgs: seq<Message>, a: nat, i: nat, b: nat, other: Option<nat>) returns (steps: seq<Step>, other': Option<nat>)
    requires a < i <= b < |msgs| && NoDuplicates(msgs[..b]) && OtherOk(msgs, a, i, other)
    ensures Leads(GivenUp(msgs, a, i, other), steps, GivenUp(msgs, a, b, other'))
    decreases b - i
  {
    if i == b {
      steps, other' := [], other;
    } else {
      NotAgain(msgs, a, i, b, other);
      var first, o := OneMore(msgs, a, i, other);
      var rest;
      rest, other' := GoOn(msgs, a, i + 1, b, o);
      LeadsOn(GivenUp(msgs, a, i, other), first, GivenUp(msgs, a, i + 1, o), rest, GivenUp(msgs, a, b, other'));
      steps := first + rest;
    }
  }

  lemma NotAgain(msgs: seq<Message>, a: nat, i: nat, b: nat, other: Option<nat>)
    requires a < i < b < |msgs| && NoDuplicates(msgs[..b]) && OtherOk(msgs, a, i, other)
    ensures msgs[i].id == msgs[a].id ==> other.None? && msgs[i].reply.Refused? != msgs[a].reply.Refused?
  {
    var m := msgs[..b];
    assert m[i] == msgs[i] && m[a] == msgs[a] && (other.Some? ==> m[other.value] == msgs[other.value]);
  }

  /** The first message that repeats an earlier one. */
  lemma {:induction false} FirstDuplicate(msgs: seq<Message>) returns (a: nat, b: nat)
    requires !NoDuplicates(msgs)
    ensures a < b < |msgs| && NoDuplicates(msgs[..b])
    ensures msgs[a].id == msgs[b].id && msgs[a].reply.Refused? == msgs[b].reply.Refused?
  {
    var n := |msgs| - 1;
    var m := msgs[..n];
    var x, y :| 0 <= x < y < |msgs| && msgs[x].id == msgs[y].id && msgs[x].reply.Refused? == msgs[y].reply.Refused?;
    assert y < n ==> m[x] == msgs[x] && m[y] == msgs[y];
    if NoDuplicates(m) {
      a, b := x, y;
    } else {
      a, b := FirstDuplicate(m);
      assert m[..b] == msgs[..b];
    }
  }

  /** A run that stops the loop, with unique ids: the command is registered just before the first of two
      equal replies, gives up when that has come, and the second one finds the channel full. */
  lemma WedgingRun(msgs: seq<Message>) returns (steps: seq<Step>)
    requires !NoDuplicates(msgs)
    ensures IsRun(INITIAL, steps) && IdsAreNew(INITIAL, steps)
    ensures After(INITIAL, steps).replies <= msgs && Wedged(After(INITIAL, steps))
  {
    var a, b := FirstDuplicate(msgs);
    var dropped := DropUpTo(msgs, a);
    var given := GiveUp(msgs, a);
    var others, other := GoOn(msgs, a, a + 1, b, None);
    var s := GivenUp(msgs, a, b, other);
    OneStep(s, Dispatch(msgs[b]));
    LeadsOn(INITIAL, dropped, Dropping(msgs, a), given, GivenUp(msgs, a, a + 1, None));
    LeadsOn(INITIAL, dropped + given, GivenUp(msgs, a, a + 1, None), others, s);
    LeadsOn(INITIAL, dropped + given + others, s, [Dispatch(msgs[b])], Next(s, Dispatch(msgs[b])));
    steps := dropped + given + others + [Dispatch(msgs[b])];
    assert msgs[..b + 1] == msgs[..b] + [msgs[b]];
  }

  /** The receiving loop can be made to wait, and can be stopped for good, exactly if the worker sends two
      refusals, or two other replies, under one command id. */
  lemma WedgesIff(msgs: seq<Message>)
    ensures CanWedge(msgs) <==> !NoDuplicates(msgs)
    ensures CanBlock(msgs) <==> !NoDuplicates(msgs)
  {
    if !NoDuplicates(msgs) {
      var steps := WedgingRun(msgs);
    } else {
      forall steps | IsRun(INITIAL, steps) && After(INITIAL, steps).replies <= msgs
        ensures After(INITIAL, steps).recv.Holding? ==> Enabled(After(INITIAL, steps), Put)
      {
        NeverBlocks(steps);
      }
    }
  }

  /** For example, any message sent twice. */
  lemma DuplicatesCanWedge(msg: Message)
    ensures CanWedge([msg, msg]) && !CanBlock([msg])
  {
    var msgs := [msg, msg];
    assert !NoDuplicates(msgs) by {
      assert msgs[0].id == msgs[1].id;
    }
    WedgesIff(msgs);
    WedgesIff([msg]);
  }

  // ---- the connection ----

  /** The regions under the connection's lock, and the channel operations, one method each. */
  class WorkerConn {
    var replies: seq<Message>
    var calls: seq<Call>
    var pending: map<string, nat>
    var recv: Receiver
    var done: bool

    constructor ()
      ensures Now() == INITIAL && Inv(Now())
    {
      replies, calls, pending, recv, done := [], [], map[], Idle, false;
    }

    function Now(): State
      reads this
    {
      State(replies, calls, pending, recv, done)
    }

    method Register(id: string) returns (k: nat)
      requires Inv(Now())
      modifies this
      ensures Now() == Next(old(Now()), Begin(id)) && Inv(Now()) && k == |old(calls)|
    {
      ghost var s := Now();
      k := |calls|;
      calls := calls + [Call(id, |replies|, Sending, None, None)];
      pending := pending[id := k];
      StepKeepsInv(s, Begin(id));
    }

    method Resolve(msg: Message)
      requires Inv(Now()) && Enabled(Now(), Dispatch(msg))
      modifies this
      ensures Now() == Next(old(Now()), Dispatch(msg)) && Inv(Now())
    {
      ghost var s := Now();
      if msg.id in pending {
        recv := Holding(|replies|, pending[msg.id]);
      }
      replies := replies + [msg];
      StepKeepsInv(s, Dispatch(msg));
    }

    method HandOn()
      requires Inv(Now()) && Enabled(Now(), Put)
      modifies this
      ensures Now() == Next(old(Now()), Put) && Inv(Now())
    {
      ghost var s := Now();
      var a, k := recv.a, recv.k;
      if replies[a].reply.Refused? {
        calls := calls[k := calls[k].(error := Some(a))];
      } else {
        calls := calls[k := calls[k].(result := Some(a))];
      }
      recv := Idle;
      StepKeepsInv(s, Put);
    }

    /** The choice between a result, an error, the timer and the end of the connection is open. */
    method Wait(k: nat, choice: Step) returns (o: Outcome)
      requires Inv(Now()) && Enabled(Now(), choice)
      requires choice == TakeResult(k) || choice == TakeError(k) || choice == Timeout(k) || choice == Hangup(k)
      modifies this
      ensures Now() == Next(old(Now()), choice) && Inv(Now()) && calls[k].phase == Leaving(o)
    {
      ghost var s := Now();
      var c := calls[k];
      match choice {
        case TakeResult(_) => o, c := Got(c.result.value), c.(result := None);
        case TakeError(_) => o, c := Failed(c.error.value), c.(error := None);
        case Timeout(_) => o := TimedOut;
        case Hangup(_) => o := Disconnected;
      }
      calls := calls[k := c.(phase := Leaving(o))];
      StepKeepsInv(s, choice);
    }

    method Forget(k: nat)
      requires Inv(Now()) && Enabled(Now(), Finish(k))
      modifies this
      ensures Now() == Next(old(Now()), Finish(k)) && Inv(Now())
    {
      ghost var s := Now();
      pending := pending - {calls[k].id};
      calls := calls[k := calls[k].(phase := Returned(calls[k].phase.outcome))];
      StepKeepsInv(s, Finish(k));
    }
  }
}
