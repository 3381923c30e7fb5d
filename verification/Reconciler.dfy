/** The control loop: every tick compares the desired state of each service with the
    containers that carry its label, and acts on the difference. */
module Reconciler {
  import opened Wrappers
  import opened Naming
  import opened ContainerRuntime
  import opened Rollout
  import Rolling
  import BlueGreen

  datatype ServiceStatus = Deploying | Up | Halted | Failed | Rebooting

  /** The database row of a service; a manifest that cannot be read or resolved counts as None. */
  datatype Service = Service(name: string, status: ServiceStatus, manifest: Option<Manifest>, worker: string,
                             slot: string, deployedDigest: string, remoteDigest: string)

  datatype Action = Noop | Heal | ScaleUp | ScaleDown | Update

  /** All answers of the outside world during one tick of one service. `stuck` says that the
      row has not changed for more than ten minutes. */
  datatype TickEnv = TickEnv(stuck: bool, recheckOk: bool, removeListOk: bool, failures: Failures,
                             create: CreateOutcome, roll: Rolling.RollEnv, deploy: BlueGreen.DeployEnv)

  /** What a tick of one service leaves behind. */
  datatype Tick = Tick(w: World, svc: Service, route: Option<string>)

  predicate HasImageDrift(svc: Service) {
    svc.remoteDigest != "" && svc.deployedDigest != "" && svc.remoteDigest != svc.deployedDigest
  }

  /** Services the loop looks at: not halted, not being deployed, and not on a remote worker. */
  predicate Eligible(svc: Service) {
    !svc.status.Halted? && !svc.status.Deploying? && svc.worker == ""
  }

  function Diff(svc: Service, m: Manifest, actual: seq<Container>, stuck: bool): Action {
    var running := CountRunning(actual);
    if running == 0 then Heal
    else if HasImageDrift(svc) then Update
    else if running < Desired(m) then ScaleUp
    else if running > Desired(m) then ScaleDown
    else if svc.status.Deploying? && stuck then Heal
    else Noop
  }

  // ---- the actions ----

  function PlainSpec(name: string, svc: string, image: string): ContainerSpec {
    ContainerSpec(name, svc, "", image)
  }

  /** Some container of the service is in a state that self-healing leaves alone. */
  predicate Recovered(w: World, svc: string) {
    exists n | n in w :: w[n].service == svc && !NeedsRestart(w[n].status)
  }

  predicate Target(svc: string, c: Container) {
    c.row.service == svc || c.name == svc
  }

  /** The listed containers that carry the label, or the very name, of the service. */
  function Targets(l: seq<Container>, svc: string): seq<Container> {
    if l == [] then []
    else (if Target(svc, l[0]) then [l[0]] else []) + Targets(l[1..], svc)
  }

  /** `shown` is the listing the removal works from. */
  function HealWorld(w: World, svc: Service, m: Manifest, env: TickEnv, shown: seq<Container>): World {
    if env.recheckOk && Recovered(w, svc.name) then w
    else
      var w1 := if env.removeListOk then End(w, SweepTrace(w, Targets(shown, svc.name), env.failures)) else w;
      Create(w1, PlainSpec(m.name, svc.name, m.image), env.create)
  }

  function HealStatus(w: World, svc: Service, env: TickEnv): ServiceStatus {
    if (env.recheckOk && Recovered(w, svc.name)) || env.create.Started? then Up else Failed
  }

  function ScaleUpWorld(w: World, svc: string, m: Manifest, current: nat, o: CreateOutcome): World {
    Create(w, PlainSpec(ReplicaName(svc, current + 1), svc, m.image), o)
  }

  /** The listed container with the largest name, the one scale-down removes. */
  function Largest(l: seq<Container>): Container
    requires l != []
  {
    if |l| == 1 then l[0]
    else
      var c := Largest(l[..|l| - 1]);
      if Less(c.name, l[|l| - 1].name) then l[|l| - 1] else c
  }

  function RemoveById(w: World, id: nat, f: Failures): World {
    Delete(Stop(w, ById(id), id !in f.stop), ById(id), id !in f.delete)
  }

  function ScaleDownWorld(w: World, actual: seq<Container>, f: Failures): World {
    if actual == [] then w else RemoveById(w, Largest(actual).row.id, f)
  }

  /** `shown` is the listing the strategy works from. */
  function UpdateTick(w: World, svc: Service, route: Option<string>, m: Manifest, env: TickEnv, shown: seq<Container>): Tick {
    var s0 := BlueGreen.Sys(w, route, svc.slot);
    var (s1, ok) :=
      if m.blueGreen then
        var d := BlueGreen.Deploy(s0, svc.name, m, shown, env.deploy);
        (BlueGreen.Last(s0, d.trace), d.ok)
      else
        var r := Rolling.Roll(w, svc.name, m, Labelled(shown, svc.name), env.roll);
        (s0.(w := End(w, r.trace)), r.ok);
    Tick(s1.w, if ok then svc.(status := Up, slot := s1.slot, deployedDigest := svc.remoteDigest)
               else svc.(status := Failed, slot := s1.slot), s1.route)
  }

  /** One tick of one service. `actual` is the service's part of the snapshot taken at the
      beginning of the round, `shown` the listing the chosen action takes for itself. */
  function TickService(w: World, svc: Service, route: Option<string>, actual: seq<Container>, env: TickEnv, shown: seq<Container>): Tick {
    if svc.manifest.None? then Tick(w, svc, route)
    else
      var m := svc.manifest.value;
      match Diff(svc, m, actual, env.stuck)
      case Noop => Tick(w, svc, route)
      case Heal => Tick(HealWorld(w, svc, m, env, shown), svc.(status := HealStatus(w, svc, env)), route)
      case ScaleUp => Tick(ScaleUpWorld(w, svc.name, m, |actual|, env.create), svc, route)
      case ScaleDown => Tick(ScaleDownWorld(w, actual, env.failures), svc, route)
      case Update => UpdateTick(w, svc, route, m, env, shown)
  }

  /** The listing an action takes shows the table as it is when the action takes it. */
  ghost predicate ShownTruly(w: World, svc: Service, route: Option<string>, actual: seq<Container>, env: TickEnv, shown: seq<Container>) {
    svc.manifest.Some? ==>
      var m := svc.manifest.value;
      match Diff(svc, m, actual, env.stuck)
      case Heal => env.removeListOk && !(env.recheckOk && Recovered(w, svc.name)) ==> IsListing(shown, w)
      case Update =>
        if m.blueGreen then
          var s0 := BlueGreen.Sys(w, route, svc.slot);
          BlueGreen.Deploy(s0, svc.name, m, shown, env.deploy).ok ==>
            IsListing(shown, End(w, BlueGreen.Start(s0, svc.name, m, env.deploy)))
        else IsListing(shown, w)
      case _ => true
  }

  // ---- facts about the pieces ----

  lemma {:induction false} LargestIsLargest(l: seq<Container>)
    requires l != []
    ensures Largest(l) in l
    ensures forall c | c in l :: !Less(Largest(l).name, c.name)
  {
    if |l| == 1 {
      LessTotal(l[0].name, l[0].name);
    } else {
      var p := l[..|l| - 1];
      LargestIsLargest(p);
      var c, d := Largest(p), l[|l| - 1];
      LessTotal(c.name, d.name);
      LessTotal(d.name, d.name);
      forall e | e in l
        ensures !Less(Largest(l).name, e.name)
      {
        if e in p && Less(c.name, d.name) && Less(d.name, e.name) {
          LessTransitive(c.name, d.name, e.name);
        }
      }
    }
  }

  function Group(m: map<string, seq<Container>>, s: string): seq<Container> {
    if s in m then m[s] else []
  }

  lemma {:induction false} TargetsAppend(l: seq<Container>, c: Container, svc: string)
    ensures Targets(l + [c], svc) == Targets(l, svc) + if Target(svc, c) then [c] else []
  {
    if l == [] {
      assert l + [c] == [c] && [c][1..] == [];
    } else {
      TargetsAppend(l[1..], c, svc);
      assert (l + [c])[1..] == l[1..] + [c];
      Associative(if Target(svc, l[0]) then [l[0]] else [], Targets(l[1..], svc), if Target(svc, c) then [c] else []);
    }
  }

  lemma {:induction false} TargetsMembers(l: seq<Container>, svc: string)
    ensures forall c :: c in Targets(l, svc) <==> c in l && Target(svc, c)
  {
    if l != [] {
      TargetsMembers(l[1..], svc);
    }
  }

  // ---- the loop as it is carried out ----

  /** The controller holds the runtime and the routes the ingress serves. */
  class Controller {
    const rt: Runtime
    var routes: map<string, string>

    constructor (rt: Runtime)
      ensures this.rt == rt && this.routes == map[]
    {
      this.rt, this.routes := rt, map[];
    }

    function RouteOf(svc: string): Option<string>
      reads this
    {
      RouteIn(routes, svc)
    }

    /** Groups a listing by service label; containers without a label belong to no service. */
    method IndexByService(l: seq<Container>) returns (m: map<string, seq<Container>>)
      ensures forall s | s != "" :: Group(m, s) == Labelled(l, s)
      ensures Group(m, "") == []
    {
      m := map[];
      for i := 0 to |l|
        invariant forall s | s != "" :: Group(m, s) == Labelled(l[..i], s)
        invariant Group(m, "") == []
      {
        var name := l[i].row.service;
        ghost var m0 := m;
        if name != "" {
          m := m[name := Group(m, name) + [l[i]]];
        }
        assert l[..i + 1] == l[..i] + [l[i]];
        forall s | s != ""
          ensures Group(m, s) == Labelled(l[..i + 1], s)
        {
          assert Group(m0, s) == Labelled(l[..i], s);
          LabelledAppend(l[..i], l[i], s);
        }
      }
      assert l[..|l|] == l;
    }

    method CountRunningContainers(l: seq<Container>) returns (n: nat)
      ensures n == CountRunning(l)
    {
      n := 0;
      for i := 0 to |l|
        invariant n + CountRunning(l[i..]) == CountRunning(l)
      {
        assert l[i..][1..] == l[i + 1..];
        if l[i].row.status == Running {
          n := n + 1;
        }
      }
    }

    method SelectTargets(l: seq<Container>, svc: string) returns (victims: seq<Container>)
      ensures victims == Targets(l, svc)
    {
      victims := [];
      for i := 0 to |l|
        invariant victims == Targets(l[..i], svc)
      {
        TargetsAppend(l[..i], l[i], svc);
        assert l[..i + 1] == l[..i] + [l[i]];
        if l[i].row.service == svc || l[i].name == svc {
          victims := victims + [l[i]];
        }
      }
      assert l[..|l|] == l;
    }

    method RemoveContainers(svc: string, f: Failures) returns (ghost shown: seq<Container>)
      requires rt.Valid()
      modifies rt
      ensures rt.Valid() && IsListing(shown, old(rt.containers))
      ensures rt.containers == End(old(rt.containers), SweepTrace(old(rt.containers), Targets(shown, svc), f))
    {
      ghost var w0, h0 := rt.containers, rt.history;
      var l := rt.ListContainers();
      shown := l;
      var victims := SelectTargets(l, svc);
      Sweep(rt, victims, f);
      EndIsLast(h0, SweepTrace(w0, victims, f));
    }

    method Heal(svc: Service, m: Manifest, env: TickEnv) returns (svc': Service, ghost shown: seq<Container>)
      requires rt.Valid()
      modifies rt
      ensures rt.Valid() && rt.containers == HealWorld(old(rt.containers), svc, m, env, shown)
      ensures svc' == svc.(status := HealStatus(old(rt.containers), svc, env))
      ensures env.removeListOk && !(env.recheckOk && Recovered(old(rt.containers), svc.name)) ==> IsListing(shown, old(rt.containers))
    {
      ghost var w0 := rt.containers;
      shown := [];
      if env.recheckOk {
        var l := rt.ListContainers();
        for i := 0 to |l|
          invariant forall j | 0 <= j < i :: !(l[j].row.service == svc.name && !NeedsRestart(l[j].row.status))
        {
          if l[i].row.service == svc.name && !NeedsRestart(l[i].row.status) {
            assert Recovered(w0, svc.name);
            return svc.(status := Up), shown;
          }
        }
        assert forall n | n in w0 :: Container(n, w0[n]) in l;
        assert !Recovered(w0, svc.name);
      }
      if env.removeListOk {
        shown := RemoveContainers(svc.name, env.failures);
      }
      var ok := rt.CreateContainer(PlainSpec(m.name, svc.name, m.image), env.create);
      svc' := svc.(status := if ok then Up else Failed);
    }

    method ScaleDown(actual: seq<Container>, f: Failures)
      requires rt.Valid()
      modifies rt
      ensures rt.Valid() && rt.containers == ScaleDownWorld(old(rt.containers), actual, f)
    {
      if actual == [] {
        return;
      }
      var victim := actual[0];
      for i := 1 to |actual|
        invariant victim == Largest(actual[..i])
      {
        assert actual[..i + 1][..i] == actual[..i];
        if Less(victim.name, actual[i].name) {
          victim := actual[i];
        }
      }
      assert actual[..|actual|] == actual;
      rt.StopContainer(ById(victim.row.id), victim.row.id !in f.stop);
      rt.DeleteContainer(ById(victim.row.id), victim.row.id !in f.delete);
    }

    method UpdateService(svc: Service, m: Manifest, env: TickEnv) returns (svc': Service, ghost shown: seq<Container>)
      requires rt.Valid()
      modifies this, rt
      ensures rt.Valid()
      ensures var t := UpdateTick(old(rt.containers), svc, old(RouteOf(svc.name)), m, env, shown);
              rt.containers == t.w && svc' == t.svc && routes == WithRoute(old(routes), svc.name, t.route)
      ensures !m.blueGreen ==> IsListing(shown, old(rt.containers))
      ensures var s0 := BlueGreen.Sys(old(rt.containers), old(RouteOf(svc.name)), svc.slot);
              m.blueGreen && BlueGreen.Deploy(s0, svc.name, m, shown, env.deploy).ok ==>
                IsListing(shown, End(old(rt.containers), BlueGreen.Start(s0, svc.name, m, env.deploy)))
    {
      ghost var w0, h0 := rt.containers, rt.history;
      var ok;
      if m.blueGreen {
        var d := new BlueGreen.Deployer(svc.name, rt, svc.slot);
        d.route := RouteOf(svc.name);
        d.log := [BlueGreen.Sys(rt.containers, d.route, svc.slot)];
        ghost var s0 := d.State();
        ok, shown := d.DeployNew(m, env.deploy);
        LastIsLast([s0], BlueGreen.Deploy(s0, svc.name, m, shown, env.deploy).trace);
        routes := WithRoute(routes, svc.name, d.route);
        svc' := if ok then svc.(status := Up, slot := d.slot, deployedDigest := svc.remoteDigest)
                else svc.(status := Failed, slot := d.slot);
      } else {
        ok, shown := Rolling.RollingUpdate(rt, svc.name, m, env.roll);
        EndIsLast(h0, Rolling.Roll(w0, svc.name, m, Labelled(shown, svc.name), env.roll).trace);
        svc' := if ok then svc.(status := Up, deployedDigest := svc.remoteDigest) else svc.(status := Failed);
      }
    }

    /** One tick of one service, against its part of the snapshot. */
    method ReconcileOne(svc: Service, actual: seq<Container>, env: TickEnv) returns (svc': Service, ghost shown: seq<Container>)
      requires rt.Valid()
      modifies this, rt
      ensures rt.Valid()
      ensures var t := TickService(old(rt.containers), svc, old(RouteOf(svc.name)), actual, env, shown);
              rt.containers == t.w && svc' == t.svc && routes == WithRoute(old(routes), svc.name, t.route)
      ensures ShownTruly(old(rt.containers), svc, old(RouteOf(svc.name)), actual, env, shown)
    {
      svc', shown := svc, [];
      if svc.manifest.None? {
        return;
      }
      var m := svc.manifest.value;
      var running := CountRunningContainers(actual);
      if running == 0 {
        svc', shown := Heal(svc, m, env);
      } else if HasImageDrift(svc) {
        svc', shown := UpdateService(svc, m, env);
      } else if running < Desired(m) {
        var ok := rt.CreateContainer(PlainSpec(ReplicaName(svc.name, |actual| + 1), svc.name, m.image), env.create);
      } else if running > Desired(m) {
        ScaleDown(actual, env.failures);
      } else if svc.status.Deploying? && env.stuck {
        svc', shown := Heal(svc, m, env);
      }
    }

    /** The turn of one service in a round; services that are not eligible are passed over. */
    method TakeTurn(svc: Service, ghost l: seq<Container>, actual: seq<Container>, env: TickEnv)
      returns (row: Service, ghost shown: seq<Container>)
      requires rt.Valid() && actual == GroupOf(l, svc.name)
      modifies this, rt
      ensures rt.Valid()
      ensures Plane(rt.containers, routes, [row]) == Turn(old(rt.containers), old(routes), l, svc, env, shown)
      ensures TruthfulTurn(old(rt.containers), old(routes), l, svc, env, shown)
    {
      row, shown := svc, [];
      if Eligible(svc) {
        row, shown := ReconcileOne(svc, actual, env);
      }
    }

    /** One round over the services the database query returned: one snapshot, then one tick each. */
    method ReconcileAll(services: seq<Service>, listOk: bool, envs: seq<TickEnv>)
      returns (rows: seq<Service>, ghost snapshot: seq<Container>, ghost shown: seq<seq<Container>>)
      requires rt.Valid() && |envs| == |services|
      modifies this, rt
      ensures rt.Valid() && |shown| == |services|
      ensures !listOk ==> rt.containers == old(rt.containers) && routes == old(routes) && rows == services
      ensures IsListing(snapshot, old(rt.containers))
      ensures listOk ==>
                && Plane(rt.containers, routes, rows) == Round(old(rt.containers), old(routes), snapshot, services, envs, shown)
                && TruthfulRound(old(rt.containers), old(routes), snapshot, services, envs, shown)
    {
      ghost var w0, r0 := rt.containers, routes;
      var l := rt.ListContainers();
      snapshot := l;
      shown := seq(|services|, i => []);
      if !listOk {
        return services, snapshot, shown;
      }
      var groups := IndexByService(l);
      rows := [];
      shown := [];
      for i := 0 to |services|
        invariant rt.Valid() && |shown| == i
        invariant Plane(rt.containers, routes, rows) == RoundUpTo(w0, r0, l, services, envs, shown, i)
        invariant TruthfulRound(w0, r0, l, services, envs, shown)
      {
        var row;
        ghost var s;
        row, s := TakeTurn(services[i], l, Group(groups, services[i].name), envs[i]);
        NextTurn(w0, r0, l, services, envs, shown, s);
        rows := rows + [row];
        shown := shown + [s];
      }
    }
  }

  lemma LastIsLast(log: seq<BlueGreen.Sys>, t: seq<BlueGreen.Sys>)
    requires log != []
    ensures (log + t)[|log + t| - 1] == BlueGreen.Last(log[|log| - 1], t)
  {
  }

  // ---- a round ----

  function RouteIn(routes: map<string, string>, svc: string): Option<string> {
    if svc in routes then Some(routes[svc]) else None
  }

  function WithRoute(routes: map<string, string>, svc: string, r: Option<string>): map<string, string> {
    match r
    case Some(u) => routes[svc := u]
    case None => routes - {svc}
  }

  /** The service's part of the snapshot; containers without a label belong to nobody. */
  function GroupOf(l: seq<Container>, svc: string): seq<Container> {
    if svc == "" then [] else Labelled(l, svc)
  }

  /** The tick of one service, were it the only one. */
  function Alone(w: World, routes: map<string, string>, l: seq<Container>, svc: Service, env: TickEnv, shown: seq<Container>): Tick {
    TickService(w, svc, RouteIn(routes, svc.name), GroupOf(l, svc.name), env, shown)
  }

  /** What a round works on. */
  datatype Plane = Plane(w: World, routes: map<string, string>, rows: seq<Service>)

  /** The round's turn for one service; `rows` has just that service's row. */
  function Turn(w: World, routes: map<string, string>, l: seq<Container>, svc: Service, env: TickEnv, shown: seq<Container>): Plane {
    if !Eligible(svc) then Plane(w, routes, [svc])
    else
      var t := Alone(w, routes, l, svc, env, shown);
      Plane(t.w, WithRoute(routes, svc.name, t.route), [t.svc])
  }

  /** After the first k services have been ticked one after another, all against the same snapshot. */
  function RoundUpTo(w: World, routes: map<string, string>, l: seq<Container>,
                     services: seq<Service>, envs: seq<TickEnv>, shown: seq<seq<Container>>, k: nat): Plane
    requires k <= |services| && k <= |envs| && k <= |shown|
  {
    if k == 0 then Plane(w, routes, [])
    else
      var p := RoundUpTo(w, routes, l, services, envs, shown, k - 1);
      var q := Turn(p.w, p.routes, l, services[k - 1], envs[k - 1], shown[k - 1]);
      Plane(q.w, q.routes, p.rows + q.rows)
  }

  function Round(w: World, routes: map<string, string>, l: seq<Container>,
                 services: seq<Service>, envs: seq<TickEnv>, shown: seq<seq<Container>>): Plane
    requires |envs| == |services| == |shown|
  {
    RoundUpTo(w, routes, l, services, envs, shown, |services|)
  }

  /** What has been shown so far is all that counts. */
  lemma {:induction false} ShownSoFar(w: World, routes: map<string, string>, l: seq<Container>, services: seq<Service>,
                                     envs: seq<TickEnv>, shown: seq<seq<Container>>, more: seq<seq<Container>>, k: nat)
    requires k <= |services| && k <= |envs| && k <= |shown| && shown <= more
    ensures RoundUpTo(w, routes, l, services, envs, more, k) == RoundUpTo(w, routes, l, services, envs, shown, k)
  {
    if k > 0 {
      ShownSoFar(w, routes, l, services, envs, shown, more, k - 1);
    }
  }

  /** At its turn each service's action is shown the table as it is at that time. */
  ghost predicate TruthfulTurn(w: World, routes: map<string, string>, l: seq<Container>, svc: Service, env: TickEnv, shown: seq<Container>) {
    Eligible(svc) ==> ShownTruly(w, svc, RouteIn(routes, svc.name), GroupOf(l, svc.name), env, shown)
  }

  ghost predicate TruthfulAt(w: World, routes: map<string, string>, l: seq<Container>,
                             services: seq<Service>, envs: seq<TickEnv>, shown: seq<seq<Container>>, k: nat)
    requires k < |services| && k < |envs| && k < |shown|
  {
    var p := RoundUpTo(w, routes, l, services, envs, shown, k);
    TruthfulTurn(p.w, p.routes, l, services[k], envs[k], shown[k])
  }

  ghost predicate TruthfulRound(w: World, routes: map<string, string>, l: seq<Container>,
                                services: seq<Service>, envs: seq<TickEnv>, shown: seq<seq<Container>>)
    requires |shown| <= |services| == |envs|
  {
    forall k | 0 <= k < |shown| :: TruthfulAt(w, routes, l, services, envs, shown, k)
  }

  /** One more turn. */
  lemma NextTurn(w: World, routes: map<string, string>, l: seq<Container>, services: seq<Service>, envs: seq<TickEnv>,
                 shown: seq<seq<Container>>, s: seq<Container>)
    requires |shown| < |services| == |envs| && TruthfulRound(w, routes, l, services, envs, shown)
    requires var p := RoundUpTo(w, routes, l, services, envs, shown, |shown|);
             TruthfulTurn(p.w, p.routes, l, services[|shown|], envs[|shown|], s)
    ensures TruthfulRound(w, routes, l, services, envs, shown + [s])
    ensures RoundUpTo(w, routes, l, services, envs, shown + [s], |shown|) == RoundUpTo(w, routes, l, services, envs, shown, |shown|)
  {
    var more := shown + [s];
    forall k | 0 <= k < |more|
      ensures TruthfulAt(w, routes, l, services, envs, more, k)
    {
      ShownSoFar(w, routes, l, services, envs, shown, more, k);
      assert k < |shown| ==> TruthfulAt(w, routes, l, services, envs, shown, k);
    }
    ShownSoFar(w, routes, l, services, envs, shown, more, |shown|);
  }
}
