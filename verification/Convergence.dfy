/** Convergence of the control loop: when the runtime does what it is asked and nobody else
    interferes, repeated ticks bring the number of running replicas to the desired number,
    and keep it there, exactly from those states in which nothing is in the way. */
module Convergence {
  import opened Wrappers
  import opened Naming
  import opened ContainerRuntime
  import opened Rollout
  import opened Reconciler
  import Rolling

  /** What one tick is shown and told: the snapshot, the answers, the listing of its action. */
  datatype Input = Input(l: seq<Container>, env: TickEnv, shown: seq<Container>)

  /** The table and the row after some ticks of one service. */
  datatype State = State(w: World, svc: Service)

  /** A tick of a service whose image has not drifted. */
  function TickOnce(s: State, x: Input): State
    requires s.svc.manifest.Some?
    ensures TickOnce(s, x).svc == s.svc.(status := TickOnce(s, x).svc.status)
  {
    var actual := Labelled(x.l, s.svc.name);
    if CountRunning(actual) == 0 then Healed(s, x)
    else if CountRunning(actual) < Want(s.svc) then
      s.(w := ScaleUpWorld(s.w, s.svc.name, s.svc.manifest.value, |actual|, x.env.create))
    else if CountRunning(actual) > Want(s.svc) then s.(w := ScaleDownWorld(s.w, actual, x.env.failures))
    else if s.svc.status.Deploying? && x.env.stuck then Healed(s, x)
    else s
  }

  function Healed(s: State, x: Input): State
    requires s.svc.manifest.Some?
  {
    State(HealWorld(s.w, s.svc, s.svc.manifest.value, x.env, x.shown), s.svc.(status := HealStatus(s.w, s.svc, x.env)))
  }

  /** For such a service this is the tick of the control loop. */
  lemma TickOnceIsTick(s: State, x: Input, route: Option<string>)
    requires Steady(s.svc)
    ensures TickService(s.w, s.svc, route, Labelled(x.l, s.svc.name), x.env, x.shown) ==
            Tick(TickOnce(s, x).w, TickOnce(s, x).svc, route)
  {
  }

  function Ticks(s: State, xs: seq<Input>): State
    requires s.svc.manifest.Some?
    decreases |xs|
  {
    if xs == [] then s else Ticks(TickOnce(s, xs[0]), xs[1..])
  }

  /** Calls succeed, and a created container runs at once. */
  predicate CallsSucceed(env: TickEnv) {
    && env.recheckOk && env.removeListOk && env.failures == Failures({}, {})
    && env.create.Started? && env.create.status == Running
  }

  /** The table after self-healing has removed what it removes. */
  function Cleared(w: World, svc: string, shown: seq<Container>): World {
    End(w, SweepTrace(w, Targets(shown, svc), Failures({}, {})))
  }

  /** A tick in which calls succeed, listings are true when they are taken, and a new container gets an
      id that is not in use. */
  ghost predicate Smooth(w: World, svc: Service, x: Input) {
    && IsListing(x.l, w) && CallsSucceed(x.env)
    && (!Recovered(w, svc.name) ==> IsListing(x.shown, w) && Fresh(Cleared(w, svc.name, x.shown), x.env.create))
    && (svc.manifest.Some? && 0 < |RunningOf(w, svc.name)| < Want(svc) ==> Fresh(w, x.env.create))
  }

  ghost predicate SmoothRun(s: State, xs: seq<Input>)
    requires s.svc.manifest.Some?
    decreases |xs|
  {
    xs != [] ==> Smooth(s.w, s.svc, xs[0]) && SmoothRun(TickOnce(s, xs[0]), xs[1..])
  }

  /** A service the loop looks after, whose image has not drifted. */
  predicate Steady(svc: Service) {
    svc.manifest.Some? && !HasImageDrift(svc)
  }

  function Want(svc: Service): nat
    requires svc.manifest.Some?
  {
    Desired(svc.manifest.value)
  }

  function Size(s: State): nat {
    |Own(s.w, s.svc.name)|
  }

  function Up(s: State): nat {
    |RunningOf(s.w, s.svc.name)|
  }

  /** The number of ticks that suffice. */
  function Distance(s: State): nat
    requires s.svc.manifest.Some?
  {
    var d := Want(s.svc);
    CountsBounded(s.w, s.svc.name);
    if Up(s) == 0 then d
    else if Up(s) <= d then d - Up(s)
    else Size(s) - d
  }

  lemma CountsBounded(w: World, svc: string)
    ensures |RunningOf(w, svc)| <= |Own(w, svc)|
  {
    assert RunningOf(w, svc) <= Own(w, svc);
    Rolling.SubsetSize(RunningOf(w, svc), Own(w, svc));
  }

  /** The last name scaling up will want, counting from the present number of containers. */
  function LastName(s: State): int
    requires s.svc.manifest.Some?
  {
    Size(s) + Want(s.svc) - Up(s)
  }

  /** The k-th replica name is taken by an own container, other than a stopped one at the very last. */
  predicate Blocks(s: State, k: nat, last: int) {
    var name := ReplicaName(s.svc.name, k);
    name in Own(s.w, s.svc.name) && !(k == last && s.w[name].status != Running)
  }

  predicate Clear(s: State, n: int, last: int) {
    forall k: nat | n < k <= last :: !Blocks(s, k, last)
  }

  /** Nothing is in the way. With no replica running, self-healing must be willing to replace all
      there are, and the fresh start must not take a name that scaling up will want. With too few
      running, the names scaling up will want must not be taken by own containers, except that the
      last of them may belong to one that does not run. With enough running nothing is required. */
  predicate CanConverge(s: State)
    requires s.svc.manifest.Some?
  {
    var svc, d := s.svc.name, Want(s.svc);
    if Up(s) == 0 then
      && (forall n | n in Own(s.w, svc) :: NeedsRestart(s.w[n].status))
      && (forall k | 1 < k <= d :: s.svc.manifest.value.name != ReplicaName(svc, k))
    else if Up(s) < d then
      Clear(s, Size(s), LastName(s))
    else true
  }

  // ---- what each action does to the counts ----

  lemma Counted(s: State, x: Input)
    requires Smooth(s.w, s.svc, x)
    ensures |Labelled(x.l, s.svc.name)| == Size(s) && CountRunning(Labelled(x.l, s.svc.name)) == Up(s)
    ensures IsListing(Labelled(x.l, s.svc.name), Mine(s.w, s.svc.name))
  {
    LabelledIsListing(x.l, s.w, s.svc.name);
    CountsAgree(Labelled(x.l, s.svc.name), s.w, s.svc.name);
  }

  /** Removing listed containers one by one, without failures, removes exactly those. */
  lemma SweepRemoves(w: World, victims: seq<Container>)
    ensures End(w, SweepTrace(w, victims, Failures({}, {}))) == map n | n in w && (forall c | c in victims :: c.row.id != w[n].id) :: w[n]
  {
    SweepEnd(w, victims, Failures({}, {}));
    forall n | n in w
      ensures w[n].id in IdsOf(victims) <==> exists c | c in victims :: c.row.id == w[n].id
    {
    }
  }

  /** Self-healing with nothing worth keeping: one fresh replica, and no other. */
  lemma HealFresh(s: State, x: Input)
    requires Steady(s.svc) && Wf(s.w) && Smooth(s.w, s.svc, x) && Up(s) == 0
    requires forall n | n in Own(s.w, s.svc.name) :: NeedsRestart(s.w[n].status)
    ensures var s' := TickOnce(s, x);
            && Own(s'.w, s.svc.name) == {s.svc.manifest.value.name}
            && RunningOf(s'.w, s.svc.name) == {s.svc.manifest.value.name}
  {
    var svc, m := s.svc.name, s.svc.manifest.value;
    Counted(s, x);
    assert !Recovered(s.w, svc);
    NothingLeft(s.w, svc, x.shown);
    assert TickOnce(s, x).w == Create(Cleared(s.w, svc, x.shown), PlainSpec(m.name, svc, m.image), x.env.create);
  }

  lemma NothingLeft(w: World, svc: string, shown: seq<Container>)
    requires IsListing(shown, w)
    ensures Own(Cleared(w, svc, shown), svc) == {}
  {
    var victims := Targets(shown, svc);
    TargetsMembers(shown, svc);
    SweepRemoves(w, victims);
    forall n | n in w && w[n].service == svc
      ensures n !in Cleared(w, svc, shown)
    {
      assert Container(n, w[n]) in victims;
    }
  }

  /** Self-healing that finds a container it leaves alone changes nothing. */
  lemma HealStuck(s: State, x: Input, n: string)
    requires Steady(s.svc) && Wf(s.w) && Smooth(s.w, s.svc, x) && Up(s) == 0
    requires n in Own(s.w, s.svc.name) && !NeedsRestart(s.w[n].status)
    ensures TickOnce(s, x).w == s.w
  {
    Counted(s, x);
    assert Recovered(s.w, s.svc.name);
  }

  /** The row of a replica that was just started. */
  function NewRow(s: State, x: Input): Row
    requires s.svc.manifest.Some? && x.env.create.Started?
  {
    Row(x.env.create.id, s.svc.name, "", x.env.create.status, s.svc.manifest.value.image)
  }

  lemma TickScalesUp(s: State, x: Input)
    requires Steady(s.svc) && Wf(s.w) && Smooth(s.w, s.svc, x) && 0 < Up(s) < Want(s.svc)
    ensures TickOnce(s, x) == s.(w := s.w[ReplicaName(s.svc.name, Size(s) + 1) := NewRow(s, x)])
  {
    Counted(s, x);
    CreatePuts(s.w, PlainSpec(ReplicaName(s.svc.name, Size(s) + 1), s.svc.name, s.svc.manifest.value.image), x.env.create);
  }

  lemma CreatePuts(w: World, spec: ContainerSpec, o: CreateOutcome)
    requires o.Started?
    ensures Create(w, spec, o) == w[spec.name := FromSpec(spec, o.id, o.status)]
  {
  }

  lemma TickScalesDown(s: State, x: Input) returns (n: string)
    requires Steady(s.svc) && Wf(s.w) && Smooth(s.w, s.svc, x) && Up(s) > Want(s.svc)
    ensures n in Own(s.w, s.svc.name) && TickOnce(s, x) == s.(w := s.w - {n})
  {
    Counted(s, x);
    var actual := Labelled(x.l, s.svc.name);
    CountsBounded(s.w, s.svc.name);
    n := LargestListed(s.w, s.svc.name, actual);
    Rolling.RemovalDrops(s.w, n);
  }

  lemma LargestListed(w: World, svc: string, l: seq<Container>) returns (n: string)
    requires l != [] && IsListing(l, Mine(w, svc))
    ensures n in Own(w, svc) && Largest(l) == Container(n, w[n])
  {
    LargestIsLargest(l);
    var k :| 0 <= k < |l| && l[k] == Largest(l);
    n := l[k].name;
    assert n in Mine(w, svc) && Mine(w, svc)[n] == l[k].row;
  }

  lemma PutCounts(w: World, svc: string, name: string, row: Row)
    requires row.service == svc && row.status == Running
    ensures Own(w[name := row], svc) == Own(w, svc) + {name}
    ensures RunningOf(w[name := row], svc) == RunningOf(w, svc) + {name}
  {
  }

  lemma PutAddsAtMostOne(w: World, svc: string, name: string, row: Row)
    requires row.service == svc && row.status == Running
    ensures |RunningOf(w, svc)| <= |RunningOf(w[name := row], svc)| <= |RunningOf(w, svc)| + 1
  {
    PutCounts(w, svc, name, row);
    AddingOne(RunningOf(w, svc), name);
  }

  lemma AddingOne<T>(a: set<T>, x: T)
    ensures |a| <= |a + {x}| <= |a| + 1
  {
    if x in a {
      assert a + {x} == a;
    }
  }

  lemma DropCounts(w: World, svc: string, n: string)
    requires n in Own(w, svc)
    ensures |Own(w - {n}, svc)| == |Own(w, svc)| - 1
    ensures |RunningOf(w, svc)| - 1 <= |RunningOf(w - {n}, svc)| <= |RunningOf(w, svc)|
  {
    assert Own(w - {n}, svc) == Own(w, svc) - {n};
    assert RunningOf(w - {n}, svc) == RunningOf(w, svc) - {n};
  }

  /** With as many running as the manifest asks for, and one if it asks for none, a tick leaves the containers alone. */
  lemma Settled(s: State, x: Input)
    requires Steady(s.svc) && Wf(s.w) && Smooth(s.w, s.svc, x)
    requires var r := s.svc.manifest.value.replicas; Up(s) == if r >= 1 then r else 1
    ensures TickOnce(s, x).w == s.w
  {
    Counted(s, x);
    if s.svc.status.Deploying? && x.env.stuck {
      var n :| n in RunningOf(s.w, s.svc.name);
      assert Recovered(s.w, s.svc.name);
    }
  }

  /** Ids stay unique. */
  lemma TickKeepsWf(s: State, x: Input)
    requires Steady(s.svc) && Wf(s.w) && Smooth(s.w, s.svc, x)
    ensures Wf(TickOnce(s, x).w)
  {
    if Up(s) == 0 {
      HealKeepsWf(s, x);
    } else if Up(s) < Want(s.svc) {
      TickScalesUp(s, x);
    } else if Up(s) > Want(s.svc) {
      var n := TickScalesDown(s, x);
    } else {
      Settled(s, x);
    }
  }

  lemma HealKeepsWf(s: State, x: Input)
    requires Steady(s.svc) && Wf(s.w) && Smooth(s.w, s.svc, x) && Up(s) == 0
    ensures Wf(TickOnce(s, x).w)
  {
    Counted(s, x);
    if !Recovered(s.w, s.svc.name) {
      SweepRemoves(s.w, Targets(x.shown, s.svc.name));
      CreateKeepsWf(Cleared(s.w, s.svc.name, x.shown),
                    PlainSpec(s.svc.manifest.value.name, s.svc.name, s.svc.manifest.value.image), x.env.create);
    }
  }

  /** The count never moves away from the number the manifest asks for and never passes it. */
  lemma TickNeverOvershoots(s: State, x: Input)
    requires Steady(s.svc) && Wf(s.w) && Smooth(s.w, s.svc, x)
    ensures var r := s.svc.manifest.value.replicas; Between(Up(s), Up(TickOnce(s, x)), if r >= 1 then r else 1)
  {
    if Up(s) == 0 {
      HealNeverOvershoots(s, x);
    } else if Up(s) < Want(s.svc) {
      TickScalesUp(s, x);
      PutAddsAtMostOne(s.w, s.svc.name, ReplicaName(s.svc.name, Size(s) + 1), NewRow(s, x));
    } else if Up(s) > Want(s.svc) {
      var n := TickScalesDown(s, x);
      DropCounts(s.w, s.svc.name, n);
    } else {
      Settled(s, x);
    }
  }

  lemma HealNeverOvershoots(s: State, x: Input)
    requires Steady(s.svc) && Wf(s.w) && Smooth(s.w, s.svc, x) && Up(s) == 0
    ensures Between(Up(s), Up(TickOnce(s, x)), Want(s.svc))
  {
    if n :| n in Own(s.w, s.svc.name) && !NeedsRestart(s.w[n].status) {
      HealStuck(s, x, n);
    } else {
      HealFresh(s, x);
    }
  }

  /** `b` lies between `a` and the goal, the goal included. */
  predicate Between(a: nat, b: nat, goal: nat) {
    a <= b <= goal || goal <= b <= a
  }

  /** What the outlook depends on: the name, the manifest, and the containers. */
  lemma SameOutlook(s: State, s': State)
    requires s.svc.manifest.Some? && s'.svc == s.svc.(status := s'.svc.status) && s'.w == s.w
    ensures CanConverge(s') == CanConverge(s) && Up(s') == Up(s) && Distance(s') == Distance(s)
  {
    assert forall k: nat, last: int :: Blocks(s', k, last) == Blocks(s, k, last);
  }

  /** After the tick the loop can converge exactly if it could before; and if it can, the tick
      makes progress. */
  ghost predicate SameProspects(s: State, s': State)
    requires s.svc.manifest.Some? && s'.svc.manifest.Some?
  {
    && (CanConverge(s') <==> CanConverge(s))
    && (CanConverge(s) && Up(s) != Want(s.svc) ==> Distance(s') < Distance(s))
    && (!CanConverge(s) ==> Up(s') < Want(s.svc))
  }

  /** A tick neither removes nor creates obstacles. */
  lemma TickKeepsOutlook(s: State, x: Input)
    requires Steady(s.svc) && Wf(s.w) && Smooth(s.w, s.svc, x)
    ensures Steady(TickOnce(s, x).svc) && Want(TickOnce(s, x).svc) == Want(s.svc)
    ensures SameProspects(s, TickOnce(s, x))
  {
    var s' := TickOnce(s, x);
    if Up(s) == 0 {
      HealOutlook(s, x);
    } else if Up(s) < Want(s.svc) {
      TickScalesUp(s, x);
      ScaleUpOutlook(s, NewRow(s, x));
    } else if Up(s) > Want(s.svc) {
      var n := TickScalesDown(s, x);
      ScaleDownOutlook(s, n);
    } else {
      Settled(s, x);
      SameOutlook(s, s');
    }
  }

  lemma HealOutlook(s: State, x: Input)
    requires Steady(s.svc) && Wf(s.w) && Smooth(s.w, s.svc, x) && Up(s) == 0
    ensures SameProspects(s, TickOnce(s, x))
  {
    var s', svc := TickOnce(s, x), s.svc.name;
    if n :| n in Own(s.w, svc) && !NeedsRestart(s.w[n].status) {
      HealStuck(s, x, n);
      SameOutlook(s, s');
      assert !CanConverge(s);
    } else {
      HealFresh(s, x);
      FreshOutlook(s, s');
    }
  }

  lemma FreshOutlook(s: State, s': State)
    requires Steady(s.svc) && Up(s) == 0 && s'.svc == s.svc.(status := s'.svc.status)
    requires forall n | n in Own(s.w, s.svc.name) :: NeedsRestart(s.w[n].status)
    requires Own(s'.w, s.svc.name) == RunningOf(s'.w, s.svc.name) == {s.svc.manifest.value.name}
    ensures SameProspects(s, s')
  {
    var svc, d, name := s.svc.name, Want(s.svc), s.svc.manifest.value.name;
    assert Up(s') == 1 && Size(s') == 1;
    assert name in RunningOf(s'.w, svc);
    if d > 1 {
      assert forall k: nat :: Blocks(s', k, d) <==> name == ReplicaName(svc, k);
    }
  }

  lemma ScaleDownOutlook(s: State, n: string)
    requires Steady(s.svc) && Up(s) > Want(s.svc) && n in Own(s.w, s.svc.name)
    ensures SameProspects(s, s.(w := s.w - {n}))
  {
    DropCounts(s.w, s.svc.name, n);
    CountsBounded(s.w, s.svc.name);
  }

  lemma ScaleUpOutlook(s: State, row: Row)
    requires Steady(s.svc) && 0 < Up(s) < Want(s.svc) && row.service == s.svc.name && row.status == Running
    ensures SameProspects(s, s.(w := s.w[ReplicaName(s.svc.name, Size(s) + 1) := row]))
  {
    var name := ReplicaName(s.svc.name, Size(s) + 1);
    var s' := s.(w := s.w[name := row]);
    PutCounts(s.w, s.svc.name, name, row);
    if name in Own(s.w, s.svc.name) {
      BlockedOutlook(s, s', name);
    } else {
      assert Size(s') == Size(s) + 1 && Up(s') == Up(s) + 1;
      FreeOutlook(s, s', name);
    }
  }

  /** The name was free: one obstacle less to fear, the others stand as they were. */
  lemma FreeOutlook(s: State, s': State, name: string)
    requires Steady(s.svc) && 0 < Up(s) < Want(s.svc) && s'.svc == s.svc
    requires name == ReplicaName(s.svc.name, Size(s) + 1) && name !in Own(s.w, s.svc.name)
    requires Size(s') == Size(s) + 1 && Up(s') == Up(s) + 1
    requires name in s'.w && s'.w == s.w[name := s'.w[name]] && s'.w[name].service == s.svc.name
    ensures SameProspects(s, s')
  {
    var last := LastName(s);
    forall k | Size(s) + 1 < k
      ensures Blocks(s', k, last) == Blocks(s, k, last)
    {
      if ReplicaName(s.svc.name, k) == name {
        ReplicaNameInjective(s.svc.name, k, Size(s) + 1);
      }
    }
    assert !Blocks(s, Size(s) + 1, last);
  }

  /** The name was taken by an own container, which is replaced: the number of containers stays. */
  lemma BlockedOutlook(s: State, s': State, name: string)
    requires Steady(s.svc) && 0 < Up(s) < Want(s.svc) && s'.svc == s.svc
    requires name == ReplicaName(s.svc.name, Size(s) + 1) && name in Own(s.w, s.svc.name)
    requires Own(s'.w, s.svc.name) == Own(s.w, s.svc.name)
    requires RunningOf(s'.w, s.svc.name) == RunningOf(s.w, s.svc.name) + {name}
    ensures SameProspects(s, s')
  {
    var last := LastName(s);
    if name in RunningOf(s.w, s.svc.name) {
      assert RunningOf(s'.w, s.svc.name) == RunningOf(s.w, s.svc.name);
    } else {
      assert Up(s') == Up(s) + 1;
    }
    if Up(s') < Want(s.svc) {
      assert Blocks(s, Size(s) + 1, last);
      assert Blocks(s', Size(s) + 1, LastName(s'));
    } else {
      assert last == Size(s) + 1;
    }
  }

  /** Convergence, exactly: after as many smooth ticks as the distance, or more, as many replicas run as
      the manifest asks for, and one if it asks for none, if and only if nothing was in the way at the start. */
  lemma {:induction false} ConvergesIff(s: State, xs: seq<Input>)
    requires Steady(s.svc) && Wf(s.w) && SmoothRun(s, xs) && |xs| >= Distance(s)
    ensures var r, running := s.svc.manifest.value.replicas, |RunningOf(Ticks(s, xs).w, s.svc.name)|;
            running == (if r >= 1 then r else 1) <==> CanConverge(s)
    decreases |xs|
  {
    if CanConverge(s) {
      Reaches(s, xs);
    } else {
      StaysStuck(s, xs);
    }
  }

  lemma {:induction false} Reaches(s: State, xs: seq<Input>)
    requires Steady(s.svc) && Wf(s.w) && SmoothRun(s, xs) && |xs| >= Distance(s) && CanConverge(s)
    ensures Up(Ticks(s, xs)) == Want(s.svc) && Ticks(s, xs).svc.name == s.svc.name
    decreases |xs|
  {
    CountsBounded(s.w, s.svc.name);
    if Up(s) == Want(s.svc) {
      StaysSettled(s, xs);
    } else {
      TickKeepsOutlook(s, xs[0]);
      TickKeepsWf(s, xs[0]);
      Reaches(TickOnce(s, xs[0]), xs[1..]);
    }
  }

  /** From the desired number on, ticks are no-ops. */
  lemma {:induction false} StaysSettled(s: State, xs: seq<Input>)
    requires Steady(s.svc) && Wf(s.w) && SmoothRun(s, xs) && Up(s) == Want(s.svc)
    ensures Ticks(s, xs).w == s.w && Ticks(s, xs).svc.name == s.svc.name
    decreases |xs|
  {
    if xs != [] {
      Settled(s, xs[0]);
      TickKeepsWf(s, xs[0]);
      StaysSettled(TickOnce(s, xs[0]), xs[1..]);
    }
  }

  lemma {:induction false} StaysStuck(s: State, xs: seq<Input>)
    requires Steady(s.svc) && Wf(s.w) && SmoothRun(s, xs) && !CanConverge(s)
    ensures Up(Ticks(s, xs)) < Want(s.svc) && Ticks(s, xs).svc.name == s.svc.name
    decreases |xs|
  {
    if xs != [] {
      TickKeepsOutlook(s, xs[0]);
      TickKeepsWf(s, xs[0]);
      StaysStuck(TickOnce(s, xs[0]), xs[1..]);
    }
  }

  /** A paused replica with nothing else running: the loop reports recovery and does nothing, forever. */
  lemma PausedReplicaBlocksHealing(svc: string, row: Row)
    requires row.service == svc && row.status == Paused
    ensures forall m: Manifest :: !CanConverge(State(map[svc := row], Service(svc, ServiceStatus.Failed, Some(m), "", "", "", "")))
  {
    var w := map[svc := row];
    forall m: Manifest
      ensures !CanConverge(State(w, Service(svc, ServiceStatus.Failed, Some(m), "", "", "", "")))
    {
      assert RunningOf(w, svc) == {};
      assert svc in Own(w, svc) && !NeedsRestart(w[svc].status);
    }
  }
}
