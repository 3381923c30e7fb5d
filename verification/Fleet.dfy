/** Round after round over all services: what convergence of one service and isolation between
    services come to together. */
module Fleet {
  import opened Wrappers
  import opened Naming
  import opened ContainerRuntime
  import opened Rollout
  import opened Reconciler
  import opened FreshIds
  import opened Isolation
  import opened Rounds
  import opened Convergence
  import BlueGreen

  /** What one round is shown and told: the snapshot, and for each service the answers and the listing. */
  datatype RoundInput = RoundInput(l: seq<Container>, envs: seq<TickEnv>, shown: seq<seq<Container>>)

  /** Round after round; each works on the rows the one before has left. */
  function Play(p: Plane, rs: seq<RoundInput>): Plane
    decreases |rs|
  {
    if rs == [] then p else Play(PlayOne(p, rs[0]), rs[1..])
  }

  function PlayOne(p: Plane, r: RoundInput): Plane {
    if |r.envs| == |p.rows| == |r.shown| then Round(p.w, p.routes, r.l, p.rows, r.envs, r.shown) else p
  }

  /** In every round the daemon is honest. */
  ghost predicate HonestPlay(p: Plane, rs: seq<RoundInput>)
    decreases |rs|
  {
    rs != [] ==>
      && Honest(p.w, p.routes, rs[0].l, p.rows, rs[0].envs, rs[0].shown)
      && HonestPlay(PlayOne(p, rs[0]), rs[1..])
  }

  // ---- rows ----

  /** The row of the same service: its name, manifest and worker do not change. */
  predicate SameService(s: Service, row: Service) {
    row.name == s.name && row.manifest == s.manifest && row.worker == s.worker && (KnownSlot(s) ==> KnownSlot(row))
  }

  lemma UpdateKeepsRow(w: World, svc: Service, route: Option<string>, m: Manifest, env: TickEnv, shown: seq<Container>)
    ensures SameService(svc, UpdateTick(w, svc, route, m, env, shown).svc)
  {
    if m.blueGreen {
      BlueGreen.DeployEnd(BlueGreen.Sys(w, route, svc.slot), svc.name, m, shown, env.deploy);
    }
  }

  lemma TickKeepsRow(w: World, svc: Service, route: Option<string>, actual: seq<Container>, env: TickEnv, shown: seq<Container>)
    ensures SameService(svc, TickService(w, svc, route, actual, env, shown).svc)
  {
    if svc.manifest.Some? {
      match Diff(svc, svc.manifest.value, actual, env.stuck) {
        case Update => UpdateKeepsRow(w, svc, route, svc.manifest.value, env, shown);
        case _ =>
      }
    }
  }

  ghost predicate SameServices(services: seq<Service>, rows: seq<Service>) {
    |rows| == |services| && forall k | 0 <= k < |services| :: SameService(services[k], rows[k])
  }

  lemma SameNames(w: World, services: seq<Service>, rows: seq<Service>)
    requires Wf(w) && NamesApart(services) && AllUnclaimed(w, services) && SameServices(services, rows)
    requires forall k | 0 <= k < |services| :: KnownSlot(services[k])
    ensures Rounds.Ready(w, rows)
  {
  }

  lemma RoundKeepsRow(w: World, routes: map<string, string>, l: seq<Container>,
                      services: seq<Service>, envs: seq<TickEnv>, shown: seq<seq<Container>>, k: nat)
    requires Rounds.Ready(w, services) && Honest(w, routes, l, services, envs, shown) && k < |services|
    ensures var p := Round(w, routes, l, services, envs, shown);
            |p.rows| == |services| && SameService(services[k], p.rows[k])
  {
    RoundActsOnOwn(w, routes, l, services, envs, shown, k);
    var s := services[k];
    TickKeepsRow(Mine(w, s.name), s, RouteIn(routes, s.name), GroupOf(l, s.name), envs[k], Labelled(shown[k], s.name));
  }

  /** A round leaves a plane from which the next round can start. */
  lemma RoundKeepsReady(p: Plane, r: RoundInput)
    requires Rounds.Ready(p.w, p.rows) && Honest(p.w, p.routes, r.l, p.rows, r.envs, r.shown)
    ensures var q := PlayOne(p, r); SameServices(p.rows, q.rows) && Rounds.Ready(q.w, q.rows)
  {
    var q := After(p.w, p.routes, r.l, p.rows, r.envs, r.shown, |p.rows|);
    forall k | 0 <= k < |p.rows|
      ensures SameService(p.rows[k], q.rows[k])
    {
      RoundKeepsRow(p.w, p.routes, r.l, p.rows, r.envs, r.shown, k);
    }
    SameNames(q.w, p.rows, q.rows);
  }

  // ---- one service among the others ----

  /** The service with its own containers only. */
  function View(p: Plane, k: nat): State
    requires k < |p.rows|
  {
    State(Mine(p.w, p.rows[k].name), p.rows[k])
  }

  /** What a round shows and tells one service, of its own containers. */
  function Input1(p: Plane, r: RoundInput, k: nat): Input
    requires k < |p.rows| && k < |r.envs| && k < |r.shown|
  {
    Input(Labelled(r.l, p.rows[k].name), r.envs[k], Labelled(r.shown[k], p.rows[k].name))
  }

  /** A service the loop looks after, and whose image has not drifted. */
  predicate Looked(s: Service) {
    Eligible(s) && Steady(s) && s.name != ""
  }

  lemma RecoveredOwn(w: World, svc: string)
    ensures Recovered(Mine(w, svc), svc) == Recovered(w, svc)
  {
    if n :| n in w && w[n].service == svc && !NeedsRestart(w[n].status) {
      assert n in Mine(w, svc) && Mine(w, svc)[n] == w[n];
    }
  }

  lemma RunningOwn(w: World, svc: string)
    ensures RunningOf(Mine(w, svc), svc) == RunningOf(w, svc) && Own(Mine(w, svc), svc) == Own(w, svc)
  {
  }

  /** What an id is not used by in the whole table, it is not used by among the service's own containers. */
  lemma FreshInPart(own: World, f: World, o: CreateOutcome)
    requires Fresh(own + f, o) && own.Keys !! f.Keys
    ensures Fresh(own, o)
  {
    if o.StartFailed? || o.Started? {
      forall n | n in own
        ensures own[n].id != o.id
      {
        assert n in own + f && (own + f)[n] == own[n];
      }
    }
  }

  lemma ClearedOwn(w: World, s: Service, shown: seq<Container>, o: CreateOutcome)
    requires Wf(w) && Unclaimed(w, s) && IsListing(shown, w) && Fresh(Cleared(w, s.name, shown), o)
    ensures Fresh(Cleared(Mine(w, s.name), s.name, Labelled(shown, s.name)), o)
  {
    var m, f, none, mn := Mine(w, s.name), Foreign(w, s.name), Failures({}, {}), ManifestName(s);
    HealReadsOwn(w, s.name, mn, shown);
    var victims := Targets(shown, s.name);
    SweepPlus(m, f, victims, none);
    SweepOwn(m, victims, none, s.name, mn, Own(w, s.name));
    TwoParts(w, s.name);
    var own := End(m, SweepTrace(m, victims, none));
    FreshInPart(own, f, o);
  }

  /** The action of a steady service, seen from the table. */
  lemma SteadyDiff(w: World, s: Service, actual: seq<Container>, stuck: bool)
    requires Looked(s) && IsListing(actual, Mine(w, s.name))
    ensures var a, r := Diff(s, s.manifest.value, actual, stuck), |RunningOf(w, s.name)|;
            && (r == 0 ==> a.Heal?) && (0 < r < Want(s) ==> a.ScaleUp?)
            && (!Recovered(w, s.name) ==> r == 0)
  {
    CountsAgree(actual, w, s.name);
    if n :| n in RunningOf(w, s.name) {
      assert w[n].service == s.name && !NeedsRestart(w[n].status);
    }
  }

  /** At its turn in an honest round, a service whose calls succeed has a smooth tick. */
  lemma TurnIsSmooth(w1: World, routes: map<string, string>, l: seq<Container>, s: Service, env: TickEnv, shown: seq<Container>)
    requires Looked(s) && TurnReady(w1, routes, l, s, env, shown) && CallsSucceed(env)
    requires IsListing(Labelled(l, s.name), Mine(w1, s.name))
    ensures Smooth(Mine(w1, s.name), s, Input(Labelled(l, s.name), env, Labelled(shown, s.name)))
  {
    SteadyDiff(w1, s, Labelled(l, s.name), env.stuck);
    RecoveredOwn(w1, s.name);
    RunningOwn(w1, s.name);
    if !Recovered(w1, s.name) {
      LabelledIsListing(shown, w1, s.name);
      ClearedOwn(w1, s, shown, env.create);
    } else if 0 < |RunningOf(w1, s.name)| < Want(s) {
      TwoParts(w1, s.name);
      FreshInPart(Mine(w1, s.name), Foreign(w1, s.name), env.create);
    }
  }

  /** A round is, for each such service, one of its ticks, and a smooth one. */
  lemma RoundIsTick(p: Plane, r: RoundInput, k: nat)
    requires Rounds.Ready(p.w, p.rows) && Honest(p.w, p.routes, r.l, p.rows, r.envs, r.shown)
    requires k < |p.rows| && Looked(p.rows[k]) && CallsSucceed(r.envs[k])
    ensures Smooth(View(p, k).w, p.rows[k], Input1(p, r, k))
    ensures var q := PlayOne(p, r); |q.rows| == |p.rows| && q.rows[k].name == p.rows[k].name && View(q, k) == TickOnce(View(p, k), Input1(p, r, k))
  {
    var s := p.rows[k];
    var at := After(p.w, p.routes, r.l, p.rows, r.envs, r.shown, k);
    ReadyAt(p.w, p.routes, r.l, p.rows, r.envs, r.shown, OwnTicks(p.w, p.routes, r.l, p.rows, r.envs, r.shown), k, at);
    LabelledIsListing(r.l, p.w, s.name);
    TurnIsSmooth(at.w, at.routes, r.l, s, r.envs[k], r.shown[k]);
    RoundActsOnOwn(p.w, p.routes, r.l, p.rows, r.envs, r.shown, k);
    LabelledTwice(r.l, s.name);
    TickOnceIsTick(View(p, k), Input1(p, r, k), RouteIn(p.routes, s.name));
  }

  lemma StaysLooked(s: State, x: Input)
    requires Looked(s.svc)
    ensures Looked(TickOnce(s, x).svc)
  {
  }

  /** In every round the calls made for the k-th service succeed. */
  ghost predicate Succeeds(rs: seq<RoundInput>, k: nat) {
    forall i | 0 <= i < |rs| :: k < |rs[i].envs| && CallsSucceed(rs[i].envs[k])
  }

  /** Rounds over all services are, for each of them, a run of its own ticks. */
  lemma {:induction false} RoundsAreTicks(p: Plane, rs: seq<RoundInput>, k: nat) returns (xs: seq<Input>)
    requires Rounds.Ready(p.w, p.rows) && HonestPlay(p, rs)
    requires k < |p.rows| && Looked(p.rows[k]) && Succeeds(rs, k)
    ensures |xs| == |rs| && SmoothRun(View(p, k), xs)
    ensures var q := Play(p, rs); |q.rows| == |p.rows| && q.rows[k].name == p.rows[k].name && View(q, k) == Ticks(View(p, k), xs)
    decreases |rs|
  {
    if rs == [] {
      xs := [];
    } else {
      var q, x := PlayOne(p, rs[0]), Input1(p, rs[0], k);
      assert CallsSucceed(rs[0].envs[k]);
      RoundIsTick(p, rs[0], k);
      RoundKeepsReady(p, rs[0]);
      StaysLooked(View(p, k), x);
      var rest := RoundsAreTicks(q, rs[1..], k);
      xs := [x] + rest;
      assert xs[1..] == rest;
    }
  }

  lemma SameForView(p: Plane, k: nat)
    requires k < |p.rows| && p.rows[k].manifest.Some?
    ensures var s := State(p.w, p.rows[k]);
            && Convergence.Up(View(p, k)) == Convergence.Up(s) && Distance(View(p, k)) == Distance(s) && (CanConverge(View(p, k)) <==> CanConverge(s))
  {
    var s, v := State(p.w, p.rows[k]), View(p, k);
    RunningOwn(p.w, p.rows[k].name);
    assert forall j: nat, last: int :: Blocks(v, j, last) == Blocks(s, j, last);
  }

  /** Convergence of the whole fleet: rounds over all services, one snapshot each, services whose calls
      succeed next to others for which anything may go wrong, updates included. After as many rounds as
      its distance, or more, each service whose calls succeed has as many replicas running as its manifest
      asks for, and one if it asks for none, if and only if nothing was in its way at the start. */
  lemma EachConvergesIff(p: Plane, rs: seq<RoundInput>, k: nat)
    requires Rounds.Ready(p.w, p.rows) && HonestPlay(p, rs)
    requires k < |p.rows| && Looked(p.rows[k]) && Succeeds(rs, k) && |rs| >= Distance(State(p.w, p.rows[k]))
    ensures var r, running := p.rows[k].manifest.value.replicas, |RunningOf(Play(p, rs).w, p.rows[k].name)|;
            running == (if r >= 1 then r else 1) <==> CanConverge(State(p.w, p.rows[k]))
  {
    var xs := RoundsAreTicks(p, rs, k);
    SameForView(p, k);
    ConvergesIff(View(p, k), xs);
    RunningOwn(Play(p, rs).w, p.rows[k].name);
  }

  /** All of them at once. */
  lemma AllConverge(p: Plane, rs: seq<RoundInput>)
    requires Rounds.Ready(p.w, p.rows) && HonestPlay(p, rs)
    ensures forall k | 0 <= k < |p.rows| && Looked(p.rows[k]) && Succeeds(rs, k) && |rs| >= Distance(State(p.w, p.rows[k])) ::
              |RunningOf(Play(p, rs).w, p.rows[k].name)| == (if p.rows[k].manifest.value.replicas >= 1 then p.rows[k].manifest.value.replicas else 1) <==> CanConverge(State(p.w, p.rows[k]))
  {
    forall k | 0 <= k < |p.rows| && Looked(p.rows[k]) && Succeeds(rs, k) && |rs| >= Distance(State(p.w, p.rows[k]))
      ensures |RunningOf(Play(p, rs).w, p.rows[k].name)| == (if p.rows[k].manifest.value.replicas >= 1 then p.rows[k].manifest.value.replicas else 1) <==> CanConverge(State(p.w, p.rows[k]))
    {
      EachConvergesIff(p, rs, k);
    }
  }
}
