/** Container ids: a daemon that hands out ids not in use at the time keeps ids unique, whatever
    a tick does and whatever goes wrong in it. */
module FreshIds {
  import opened Wrappers
  import opened ContainerRuntime
  import opened Rollout
  import opened Reconciler
  import opened Naming
  import Rolling
  import BlueGreen

  /** Every id handed out while replicas are replaced is unused when it is handed out. */
  ghost predicate ReplaceUnused(w: World, svc: string, image: string, current: seq<Container>, i: nat, env: Rolling.RollEnv)
    decreases |current| - i
  {
    i < |current| ==>
      var o := Rolling.ReplaceOne(w, svc, image, current[i], i, env);
      && Fresh(w, env.step(i).create)
      && (o.ok ==> ReplaceUnused(End(w, o.trace), svc, image, current, i + 1, env))
  }

  ghost predicate TopUpUnused(w: World, svc: string, image: string, i: nat, desired: nat, env: Rolling.RollEnv)
    decreases desired - i
  {
    i < desired ==>
      && Fresh(w, env.topUp(i))
      && TopUpUnused(Create(w, Rolling.NewSpec(svc, Rolling.TopUpName(svc, i), image), env.topUp(i)), svc, image, i + 1, desired, env)
  }

  ghost predicate RollUnused(w: World, svc: string, m: Manifest, current: seq<Container>, env: Rolling.RollEnv) {
    env.listOk ==>
      if current == [] then Fresh(w, env.deploy)
      else
        var r := Rolling.ReplaceFrom(w, svc, m.image, current, 0, env);
        && ReplaceUnused(w, svc, m.image, current, 0, env)
        && (r.ok ==> TopUpUnused(End(w, r.trace), svc, m.image, |current|, Desired(m), env))
  }

  /** The table a healing tick creates the fresh replica in. */
  function HealSwept(w: World, svc: Service, env: TickEnv, shown: seq<Container>): World {
    if env.removeListOk then End(w, SweepTrace(w, Targets(shown, svc.name), env.failures)) else w
  }

  /** Every id handed out during the tick is unused when it is handed out. */
  ghost predicate IdsUnused(w: World, svc: Service, actual: seq<Container>, env: TickEnv, shown: seq<Container>) {
    svc.manifest.Some? ==>
      var m := svc.manifest.value;
      match Diff(svc, m, actual, env.stuck)
      case Heal => !(env.recheckOk && Recovered(w, svc.name)) ==> Fresh(HealSwept(w, svc, env, shown), env.create)
      case ScaleUp => Fresh(w, env.create)
      case Update =>
        if m.blueGreen then Fresh(w, env.deploy.create)
        else RollUnused(w, svc.name, m, Labelled(shown, svc.name), env.roll)
      case _ => true
  }

  lemma RemoveKeepsWf(w: World, r: Ref, stopOk: bool, deleteOk: bool)
    requires Wf(w)
    ensures Wf(Delete(Stop(w, r, stopOk), r, deleteOk))
  {
  }

  /** Starting a container and waiting for it. */
  lemma StartKeepsWf(w: World, spec: ContainerSpec, o: CreateOutcome, polls: seq<Poll>)
    requires Wf(w) && Fresh(w, o)
    ensures Wf(Create(w, spec, o))
    ensures Wf(End(Create(w, spec, o), AwaitTrace(Create(w, spec, o), spec.name, polls)))
  {
    CreateKeepsWf(w, spec, o);
    var w1 := Create(w, spec, o);
    AwaitEffect(w1, spec.name, polls);
    OnlyStatusKeepsWf(spec.name, w1, End(w1, AwaitTrace(w1, spec.name, polls)));
  }

  lemma ReplaceOneKeepsWf(w: World, svc: string, image: string, old_: Container, i: nat, env: Rolling.RollEnv)
    requires Wf(w) && Fresh(w, env.step(i).create)
    ensures Wf(End(w, Rolling.ReplaceOne(w, svc, image, old_, i, env).trace))
  {
    var e, name := env.step(i), Rolling.NewName(svc, i, env);
    var spec := Rolling.NewSpec(svc, name, image);
    StartKeepsWf(w, spec, e.create, e.polls);
    if e.create.Started? {
      var w1 := Create(w, spec, e.create);
      var waits, healthy := AwaitTrace(w1, name, e.polls), AwaitOk(w1, name, e.polls);
      var w2 := End(w, [w1] + waits);
      Rolling.EndOfConcat(w, [w1], waits);
      Rolling.EndOfConcat(w, [w1] + waits, Rolling.Settle(w2, name, old_, healthy, e));
      if healthy {
        RemoveKeepsWf(w2, ById(old_.row.id), e.stopOld, e.deleteOld);
      } else {
        RemoveKeepsWf(w2, ByName(name), e.stopNew, e.deleteNew);
      }
    }
  }

  lemma {:induction false} ReplaceKeepsWf(w: World, svc: string, image: string, current: seq<Container>, i: nat, env: Rolling.RollEnv)
    requires Wf(w) && ReplaceUnused(w, svc, image, current, i, env)
    ensures Wf(End(w, Rolling.ReplaceFrom(w, svc, image, current, i, env).trace))
    decreases |current| - i
  {
    if i < |current| {
      var o := Rolling.ReplaceOne(w, svc, image, current[i], i, env);
      ReplaceOneKeepsWf(w, svc, image, current[i], i, env);
      if o.ok {
        var w1 := End(w, o.trace);
        ReplaceKeepsWf(w1, svc, image, current, i + 1, env);
        Rolling.EndOfConcat(w, o.trace, Rolling.ReplaceFrom(w1, svc, image, current, i + 1, env).trace);
      }
    }
  }

  lemma {:induction false} TopUpKeepsWf(w: World, svc: string, image: string, i: nat, desired: nat, env: Rolling.RollEnv)
    requires Wf(w) && TopUpUnused(w, svc, image, i, desired, env)
    ensures Wf(End(w, Rolling.TopUpFrom(w, svc, image, i, desired, env)))
    decreases desired - i
  {
    if i < desired {
      var spec := Rolling.NewSpec(svc, Rolling.TopUpName(svc, i), image);
      var w1 := Create(w, spec, env.topUp(i));
      CreateKeepsWf(w, spec, env.topUp(i));
      TopUpKeepsWf(w1, svc, image, i + 1, desired, env);
      Rolling.EndOfConcat(w, [w1], Rolling.TopUpFrom(w1, svc, image, i + 1, desired, env));
    }
  }

  lemma RollKeepsWf(w: World, svc: string, m: Manifest, current: seq<Container>, env: Rolling.RollEnv)
    requires Wf(w) && RollUnused(w, svc, m, current, env)
    ensures Wf(End(w, Rolling.Roll(w, svc, m, current, env).trace))
  {
    if env.listOk {
      if current == [] {
        CreateKeepsWf(w, Rolling.NewSpec(svc, m.name, m.image), env.deploy);
      } else {
        var r := Rolling.ReplaceFrom(w, svc, m.image, current, 0, env);
        ReplaceKeepsWf(w, svc, m.image, current, 0, env);
        if r.ok {
          var w1 := End(w, r.trace);
          TopUpKeepsWf(w1, svc, m.image, |current|, Desired(m), env);
          Rolling.EndOfConcat(w, r.trace, Rolling.TopUpFrom(w1, svc, m.image, |current|, Desired(m), env));
        }
      }
    }
  }

  lemma HealKeepsWf(w: World, svc: Service, m: Manifest, env: TickEnv, shown: seq<Container>)
    requires Wf(w) && (!(env.recheckOk && Recovered(w, svc.name)) ==> Fresh(HealSwept(w, svc, env, shown), env.create))
    ensures Wf(HealWorld(w, svc, m, env, shown))
  {
    if !(env.recheckOk && Recovered(w, svc.name)) {
      SweepWf(w, Targets(shown, svc.name), env.failures);
      CreateKeepsWf(HealSwept(w, svc, env, shown), PlainSpec(m.name, svc.name, m.image), env.create);
    }
  }

  lemma ScaleDownKeepsWf(w: World, actual: seq<Container>, f: Failures)
    requires Wf(w)
    ensures Wf(ScaleDownWorld(w, actual, f))
  {
  }

  lemma UpdateKeepsWf(w: World, svc: Service, route: Option<string>, m: Manifest, env: TickEnv, shown: seq<Container>)
    requires Wf(w)
    requires if m.blueGreen then Fresh(w, env.deploy.create) else RollUnused(w, svc.name, m, Labelled(shown, svc.name), env.roll)
    ensures Wf(UpdateTick(w, svc, route, m, env, shown).w)
  {
    if m.blueGreen {
      BlueGreen.DeployKeepsWf(BlueGreen.Sys(w, route, svc.slot), svc.name, m, shown, env.deploy);
    } else {
      RollKeepsWf(w, svc.name, m, Labelled(shown, svc.name), env.roll);
    }
  }

  /** Every tick keeps ids unique. */
  lemma TickKeepsWf(w: World, svc: Service, route: Option<string>, actual: seq<Container>, env: TickEnv, shown: seq<Container>)
    requires Wf(w) && IdsUnused(w, svc, actual, env, shown)
    ensures Wf(TickService(w, svc, route, actual, env, shown).w)
  {
    if svc.manifest.Some? {
      var m := svc.manifest.value;
      match Diff(svc, m, actual, env.stuck) {
        case Noop =>
        case Heal => HealKeepsWf(w, svc, m, env, shown);
        case ScaleUp => CreateKeepsWf(w, PlainSpec(ReplicaName(svc.name, |actual| + 1), svc.name, m.image), env.create);
        case ScaleDown => ScaleDownKeepsWf(w, actual, env.failures);
        case Update => UpdateKeepsWf(w, svc, route, m, env, shown);
      }
    }
  }
}
