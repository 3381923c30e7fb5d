/** What one tick of the control loop does, told in terms of the table: which containers are there before and
    after, and what the service's row and route become. */
module Ticks {
  import opened Wrappers
  import opened Naming
  import opened ContainerRuntime
  import opened Rollout
  import opened Reconciler
  import Rolling
  import BlueGreen

  /** The number of replicas to run: what the manifest asks for, and at least one. */
  ghost predicate Wanted(m: Manifest, n: nat) {
    if m.replicas >= 1 then n == m.replicas else n == 1
  }

  /** Another image has been published than the one deployed. */
  predicate Outdated(svc: Service) {
    svc.deployedDigest != "" && svc.remoteDigest != "" && svc.deployedDigest != svc.remoteDigest
  }

  /** The table without the containers that bear the service's label, or its very name; those that cannot be deleted
      are at least stopped. */
  function WithoutService(w: World, svc: string, f: Failures): World {
    map n | n in w && ((w[n].service != svc && n != svc) || w[n].id in f.delete) ::
      if (w[n].service == svc || n == svc) && w[n].id !in f.stop && (w[n].status == Running || w[n].status == Paused || w[n].status == Restarting)
      then w[n].(status := Exited) else w[n]
  }

  lemma TargetIds(w: World, svc: string, shown: seq<Container>, n: string)
    requires Wf(w) && IsListing(shown, w) && n in w
    ensures w[n].id in IdsOf(Targets(shown, svc)) <==> w[n].service == svc || n == svc
  {
    TargetsMembers(shown, svc);
    assert Container(n, w[n]) in shown;
    if c :| c in Targets(shown, svc) && c.row.id == w[n].id {
      var k :| 0 <= k < |shown| && shown[k] == c;
      assert c.name in w && w[c.name] == c.row;
    }
  }

  lemma WithoutIds(w: World, svc: string, ids: set<nat>, f: Failures)
    requires forall n | n in w :: w[n].id in ids <==> w[n].service == svc || n == svc
    ensures Without(w, ids, f) == WithoutService(w, svc, f)
  {
  }

  lemma ServiceGone(w: World, svc: string, shown: seq<Container>, f: Failures)
    requires Wf(w) && IsListing(shown, w)
    ensures End(w, SweepTrace(w, Targets(shown, svc), f)) == WithoutService(w, svc, f)
  {
    SweepEnd(w, Targets(shown, svc), f);
    forall n | n in w
      ensures w[n].id in IdsOf(Targets(shown, svc)) <==> w[n].service == svc || n == svc
    {
      TargetIds(w, svc, shown, n);
    }
    WithoutIds(w, svc, IdsOf(Targets(shown, svc)), f);
  }

  /** Which action a tick takes. */
  lemma Chosen(svc: Service, actual: seq<Container>, stuck: bool, n: nat)
    requires svc.manifest.Some? && Wanted(svc.manifest.value, n)
    ensures var r := CountRunning(actual);
            Diff(svc, svc.manifest.value, actual, stuck) ==
            if r == 0 then Heal else if Outdated(svc) then Update else if r < n then ScaleUp else if r > n then ScaleDown
            else if svc.status == Deploying && stuck then Heal else Noop
  {
  }

  /** With no replica running, a tick looks again. If it sees a container of the service that is not exited, dead or
      stopped, it only records that the service is up. If not, it removes the service's containers and creates one
      under the manifest's name, and records whether that could be started. */
  lemma TickHeals(w: World, svc: Service, route: Option<string>, actual: seq<Container>, env: TickEnv, shown: seq<Container>)
    requires Wf(w) && IsListing(actual, Mine(w, svc.name)) && ShownTruly(w, svc, route, actual, env, shown)
    requires svc.manifest.Some? && RunningOf(w, svc.name) == {}
    ensures var t, m := TickService(w, svc, route, actual, env, shown), svc.manifest.value;
            var up := env.recheckOk && exists n | n in w :: w[n].service == svc.name && w[n].status !in {Exited, Dead, Stopped};
            && t.route == route
            && if up then t.w == w && t.svc == svc.(status := Up)
               else && t.svc == svc.(status := if env.create.Started? then Up else ServiceStatus.Failed)
                    && t.w == Create(if env.removeListOk then WithoutService(w, svc.name, env.failures) else w,
                                     ContainerSpec(m.name, svc.name, "", m.image), env.create)
  {
    CountsAgree(actual, w, svc.name);
    Chosen(svc, actual, env.stuck, Desired(svc.manifest.value));
    HealIs(w, svc, svc.manifest.value, env, shown);
  }

  lemma HealIs(w: World, svc: Service, m: Manifest, env: TickEnv, shown: seq<Container>)
    requires Wf(w) && (env.removeListOk && !(env.recheckOk && Recovered(w, svc.name)) ==> IsListing(shown, w))
    ensures var up := env.recheckOk && exists n | n in w :: w[n].service == svc.name && w[n].status !in {Exited, Dead, Stopped};
            && HealWorld(w, svc, m, env, shown) ==
               (if up then w
                else Create(if env.removeListOk then WithoutService(w, svc.name, env.failures) else w,
                            ContainerSpec(m.name, svc.name, "", m.image), env.create))
            && HealStatus(w, svc, env) == if up || env.create.Started? then Up else ServiceStatus.Failed
  {
    var up := env.recheckOk && exists n | n in w :: w[n].service == svc.name && w[n].status !in {Exited, Dead, Stopped};
    assert up == (env.recheckOk && Recovered(w, svc.name));
    if !up && env.removeListOk {
      ServiceGone(w, svc.name, shown, env.failures);
    }
  }

  /** With too few running, a tick makes one more, numbered one above the number of containers. */
  lemma TickAdds(w: World, svc: Service, route: Option<string>, actual: seq<Container>, env: TickEnv, shown: seq<Container>, n: nat)
    requires IsListing(actual, Mine(w, svc.name)) && svc.manifest.Some? && !Outdated(svc)
    requires Wanted(svc.manifest.value, n) && 0 < |RunningOf(w, svc.name)| < n
    ensures TickService(w, svc, route, actual, env, shown) ==
            Tick(Create(w, ContainerSpec(svc.name + "-" + Decimal(|Own(w, svc.name)| + 1), svc.name, "", svc.manifest.value.image), env.create),
                 svc, route)
  {
    CountsAgree(actual, w, svc.name);
    Chosen(svc, actual, env.stuck, n);
  }

  /** With too many running, a tick removes the container whose name comes last, or at least stops it. */
  lemma TickRemoves(w: World, svc: Service, route: Option<string>, actual: seq<Container>, env: TickEnv, shown: seq<Container>, n: nat)
    returns (last: string)
    requires Wf(w) && IsListing(actual, Mine(w, svc.name)) && svc.manifest.Some? && !Outdated(svc)
    requires Wanted(svc.manifest.value, n) && |RunningOf(w, svc.name)| > n
    ensures last in Own(w, svc.name) && forall name | name in Own(w, svc.name) :: !Less(last, name)
    ensures var c, f, t := w[last], env.failures, TickService(w, svc, route, actual, env, shown);
            && t.svc == svc && t.route == route
            && t.w == (if c.id !in f.delete then w - {last}
                       else w[last := if c.id !in f.stop && Live(c.status) then c.(status := Exited) else c])
  {
    last := LastListed(w, svc.name, actual);
    TooMany(w, svc, route, actual, env, shown, n);
    OneRemoved(w, last, env.failures);
  }

  lemma TooMany(w: World, svc: Service, route: Option<string>, actual: seq<Container>, env: TickEnv, shown: seq<Container>, n: nat)
    requires IsListing(actual, Mine(w, svc.name)) && svc.manifest.Some? && !Outdated(svc)
    requires Wanted(svc.manifest.value, n) && |RunningOf(w, svc.name)| > n
    ensures actual != [] && TickService(w, svc, route, actual, env, shown) == Tick(RemoveById(w, Largest(actual).row.id, env.failures), svc, route)
  {
    CountsAgree(actual, w, svc.name);
    Chosen(svc, actual, env.stuck, n);
  }

  lemma LastListed(w: World, svc: string, actual: seq<Container>) returns (last: string)
    requires IsListing(actual, Mine(w, svc)) && RunningOf(w, svc) != {}
    ensures last in Own(w, svc) && actual != [] && Largest(actual) == Container(last, w[last])
    ensures forall name | name in Own(w, svc) :: !Less(last, name)
  {
    var some :| some in RunningOf(w, svc);
    assert Container(some, Mine(w, svc)[some]) in actual;
    LargestIsLargest(actual);
    var k :| 0 <= k < |actual| && actual[k] == Largest(actual);
    last := actual[k].name;
    assert last in Mine(w, svc) && Mine(w, svc)[last] == actual[k].row;
    forall name | name in Own(w, svc)
      ensures !Less(last, name)
    {
      assert Container(name, Mine(w, svc)[name]) in actual;
    }
  }

  lemma OneRemoved(w: World, n: string, f: Failures)
    requires Wf(w) && n in w
    ensures RemoveById(w, w[n].id, f) ==
            if w[n].id !in f.delete then w - {n}
            else w[n := if w[n].id !in f.stop && Live(w[n].status) then w[n].(status := Exited) else w[n]]
  {
  }

  /** With the wanted number running, a tick does nothing, unless the service has long been recorded as being deployed:
      then it looks again, sees what runs, and records that the service is up. */
  lemma TickRests(w: World, svc: Service, route: Option<string>, actual: seq<Container>, env: TickEnv, shown: seq<Container>)
    requires IsListing(actual, Mine(w, svc.name)) && svc.manifest.Some? && !Outdated(svc)
    requires Wanted(svc.manifest.value, |RunningOf(w, svc.name)|) && env.recheckOk
    ensures TickService(w, svc, route, actual, env, shown) ==
            Tick(w, if svc.status == Deploying && env.stuck then svc.(status := Up) else svc, route)
  {
    CountsAgree(actual, w, svc.name);
    Chosen(svc, actual, env.stuck, |RunningOf(w, svc.name)|);
    var n :| n in RunningOf(w, svc.name);
    HealRests(w, svc, svc.manifest.value, env, shown, n);
  }

  lemma HealRests(w: World, svc: Service, m: Manifest, env: TickEnv, shown: seq<Container>, n: string)
    requires env.recheckOk && n in RunningOf(w, svc.name)
    ensures HealWorld(w, svc, m, env, shown) == w && HealStatus(w, svc, env) == Up
  {
    assert Recovered(w, svc.name);
  }

  /** A service that runs and is outdated is updated by the strategy its manifest names. An update that succeeds ends
      with the service up and no longer outdated; one that fails leaves it outdated. */
  lemma TickUpdates(w: World, svc: Service, route: Option<string>, actual: seq<Container>, env: TickEnv, shown: seq<Container>)
    requires IsListing(actual, Mine(w, svc.name)) && svc.manifest.Some? && Outdated(svc) && RunningOf(w, svc.name) != {}
    ensures var t, m := TickService(w, svc, route, actual, env, shown), svc.manifest.value;
            var roll := Rolling.Roll(w, svc.name, m, Labelled(shown, svc.name), env.roll);
            var s0 := BlueGreen.Sys(w, route, svc.slot);
            var deploy := BlueGreen.Deploy(s0, svc.name, m, shown, env.deploy);
            var ok := if m.blueGreen then deploy.ok else roll.ok;
            && t.svc == svc.(status := if ok then Up else ServiceStatus.Failed,
                             slot := if m.blueGreen && ok then NextSlot(svc.slot) else svc.slot,
                             deployedDigest := if ok then svc.remoteDigest else svc.deployedDigest)
            && (Outdated(t.svc) <==> !ok)
            && (if m.blueGreen then deploy.trace != [] && t.w == deploy.trace[|deploy.trace| - 1].w && t.route == deploy.trace[|deploy.trace| - 1].route
                else t.route == route && t.w == if roll.trace == [] then w else roll.trace[|roll.trace| - 1])
  {
    CountsAgree(actual, w, svc.name);
    Chosen(svc, actual, env.stuck, Desired(svc.manifest.value));
    TickIsUpdate(w, svc, route, actual, env, shown);
    if svc.manifest.value.blueGreen {
      DeployIs(w, svc, route, svc.manifest.value, env, shown);
    } else {
      RollIs(w, svc, route, svc.manifest.value, env, shown);
    }
  }

  lemma TickIsUpdate(w: World, svc: Service, route: Option<string>, actual: seq<Container>, env: TickEnv, shown: seq<Container>)
    requires svc.manifest.Some? && Diff(svc, svc.manifest.value, actual, env.stuck) == Update
    ensures TickService(w, svc, route, actual, env, shown) == UpdateTick(w, svc, route, svc.manifest.value, env, shown)
  {
  }

  lemma RollIs(w: World, svc: Service, route: Option<string>, m: Manifest, env: TickEnv, shown: seq<Container>)
    requires !m.blueGreen
    ensures var t, r := UpdateTick(w, svc, route, m, env, shown), Rolling.Roll(w, svc.name, m, Labelled(shown, svc.name), env.roll);
            && t.svc == (if r.ok then svc.(status := Up, deployedDigest := svc.remoteDigest) else svc.(status := ServiceStatus.Failed))
            && t.route == route && t.w == if r.trace == [] then w else r.trace[|r.trace| - 1]
  {
  }

  lemma DeployIs(w: World, svc: Service, route: Option<string>, m: Manifest, env: TickEnv, shown: seq<Container>)
    requires m.blueGreen
    ensures var t, d := UpdateTick(w, svc, route, m, env, shown), BlueGreen.Deploy(BlueGreen.Sys(w, route, svc.slot), svc.name, m, shown, env.deploy);
            && t.svc == (if d.ok then svc.(status := Up, slot := NextSlot(svc.slot), deployedDigest := svc.remoteDigest)
                         else svc.(status := ServiceStatus.Failed))
            && d.trace != [] && t.w == d.trace[|d.trace| - 1].w && t.route == d.trace[|d.trace| - 1].route
  {
    var s0 := BlueGreen.Sys(w, route, svc.slot);
    BlueGreen.DeployEnd(s0, svc.name, m, shown, env.deploy);
    BlueGreen.DeployNotEmpty(s0, svc.name, m, shown, env.deploy);
  }
}
