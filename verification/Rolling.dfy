/** Rolling update: each old replica is replaced by a new one, one at a time,
    and the service is then topped up to the desired number. */
module Rolling {
  import opened Naming
  import opened ContainerRuntime
  import opened Rollout

  /** What the clock and the daemon answer while the i-th old replica is replaced. */
  datatype StepEnv = StepEnv(time: nat, create: CreateOutcome, polls: seq<Poll>,
                             stopNew: bool, deleteNew: bool, stopOld: bool, deleteOld: bool)

  datatype RollEnv = RollEnv(listOk: bool, deploy: CreateOutcome, step: nat -> StepEnv, topUp: nat -> CreateOutcome)

  function NewName(svc: string, i: nat, env: RollEnv): string {
    RollName(svc, env.step(i).time, i)
  }

  /** Topping up continues the numbering: the replica after the first i is number i + 1. */
  function TopUpName(svc: string, i: nat): string {
    ReplicaName(svc, i + 1)
  }

  function NewSpec(svc: string, name: string, image: string): ContainerSpec {
    ContainerSpec(name, svc, "", image)
  }

  function Concat(a: Outcome, b: Outcome): Outcome {
    Outcome(a.trace + b.trace, b.ok)
  }

  /** A container is stopped, then deleted. */
  function Remove(w: World, r: Ref, stopOk: bool, deleteOk: bool): seq<World> {
    var w1 := Stop(w, r, stopOk);
    [w1, Delete(w1, r, deleteOk)]
  }

  /** A replacement that does not become healthy is removed; one that does replaces the old replica. */
  function Settle(w: World, name: string, old_: Container, healthy: bool, e: StepEnv): seq<World> {
    if healthy then Remove(w, ById(old_.row.id), e.stopOld, e.deleteOld)
    else Remove(w, ByName(name), e.stopNew, e.deleteNew)
  }

  /** Start the replacement, wait for it, and only then remove the old replica. */
  function ReplaceOne(w: World, svc: string, image: string, old_: Container, i: nat, env: RollEnv): Outcome {
    var e := env.step(i);
    var name := NewName(svc, i, env);
    var w1 := Create(w, NewSpec(svc, name, image), e.create);
    if !e.create.Started? then Outcome([w1], false)
    else
      var started := [w1] + AwaitTrace(w1, name, e.polls);
      var healthy := AwaitOk(w1, name, e.polls);
      Outcome(started + Settle(End(w, started), name, old_, healthy, e), healthy)
  }

  function ReplaceFrom(w: World, svc: string, image: string, current: seq<Container>, i: nat, env: RollEnv): Outcome
    decreases |current| - i
  {
    if i >= |current| then Outcome([], true)
    else
      var o := ReplaceOne(w, svc, image, current[i], i, env);
      if !o.ok then o
      else Concat(o, ReplaceFrom(End(w, o.trace), svc, image, current, i + 1, env))
  }

  function TopUpFrom(w: World, svc: string, image: string, i: nat, desired: nat, env: RollEnv): seq<World>
    decreases desired - i
  {
    if i >= desired then []
    else
      var w1 := Create(w, NewSpec(svc, TopUpName(svc, i), image), env.topUp(i));
      [w1] + TopUpFrom(w1, svc, image, i + 1, desired, env)
  }

  /** The whole update; `current` is the service's part of the listing. */
  function Roll(w: World, svc: string, m: Manifest, current: seq<Container>, env: RollEnv): Outcome {
    if !env.listOk then Outcome([], false)
    else if current == [] then
      Outcome([Create(w, NewSpec(svc, m.name, m.image), env.deploy)], env.deploy.Started?)
    else
      var r := ReplaceFrom(w, svc, m.image, current, 0, env);
      if !r.ok then r
      else Outcome(r.trace + TopUpFrom(End(w, r.trace), svc, m.image, |current|, Desired(m), env), true)
  }

  // ---- one replacement ----

  /** The replicas from the i-th on are still to be replaced: they are in the table as listed,
      the names of their replacements are free, and so are the ids those will get. */
  ghost predicate Ready(w: World, svc: string, current: seq<Container>, i: nat, env: RollEnv) {
    && Wf(w)
    && (forall j | i <= j < |current| ::
          current[j].name in w && w[current[j].name] == current[j].row && current[j].row.service == svc)
    && (forall j, k | i <= j < k < |current| :: current[j].name != current[k].name)
    && (forall j | i <= j < |current| :: NewName(svc, j, env) !in w)
    && (forall j | i <= j < |current| :: Fresh(w, env.step(j).create))
    && (forall j, k | i <= j < k < |current| :: NewIdsDiffer(env.step(j).create, env.step(k).create))
  }

  ghost predicate NewIdsDiffer(a: CreateOutcome, b: CreateOutcome) {
    (a.StartFailed? || a.Started?) && (b.StartFailed? || b.Started?) ==> a.id != b.id
  }

  /** The state is `w` with, at most, one more container, which bears the service's label. */
  ghost predicate AtMostAdds(w: World, h: World, svc: string, name: string) {
    && name !in w
    && (forall n | n in w :: n in h && h[n] == w[n])
    && h.Keys <= w.Keys + {name}
    && (name in h ==> h[name].service == svc)
  }

  lemma AtMostAddsCounts(w: World, h: World, svc: string, name: string)
    requires AtMostAdds(w, h, svc, name)
    ensures |RunningOf(h, svc)| >= |RunningOf(w, svc)|
    ensures |Own(h, svc)| <= |Own(w, svc)| + 1
  {
    assert RunningOf(w, svc) <= RunningOf(h, svc);
    SubsetSize(RunningOf(w, svc), RunningOf(h, svc));
    assert Own(h, svc) <= Own(w, svc) + {name};
    SubsetSize(Own(h, svc), Own(w, svc) + {name});
  }

  lemma SubsetSize<T>(a: set<T>, b: set<T>)
    requires a <= b
    ensures |a| <= |b|
  {
    assert b == a + (b - a);
  }

  /** Until the new replica is confirmed, the table only has one more entry than before. */
  lemma StartingPhase(w: World, svc: string, image: string, i: nat, env: RollEnv)
    requires Wf(w) && NewName(svc, i, env) !in w && Fresh(w, env.step(i).create)
    ensures var name, e := NewName(svc, i, env), env.step(i);
            var w1 := Create(w, NewSpec(svc, name, image), e.create);
            && Wf(w1) && AtMostAdds(w, w1, svc, name)
            && (e.create.Started? ==>
                  var started := [w1] + AwaitTrace(w1, name, e.polls);
                  && (forall h | h in started :: AtMostAdds(w, h, svc, name))
                  && (var w2 := End(w, started);
                      && Wf(w2) && AtMostAdds(w, w2, svc, name) && name in w2
                      && w2[name].id == e.create.id && w2[name].image == image && w2[name].slot == ""
                      && (AwaitOk(w1, name, e.polls) ==> w2[name].status == Running)))
  {
    var name, e := NewName(svc, i, env), env.step(i);
    var w1 := Create(w, NewSpec(svc, name, image), e.create);
    CreateKeepsWf(w, NewSpec(svc, name, image), e.create);
    if e.create.Started? {
      AwaitEffect(w1, name, e.polls);
      var waits := AwaitTrace(w1, name, e.polls);
      EndOfConcat(w, [w1], waits);
      OnlyStatusKeepsWf(name, w1, End(w1, waits));
    }
  }

  lemma EndOfConcat(w: World, a: seq<World>, b: seq<World>)
    ensures End(w, a + b) == End(End(w, a), b)
  {
  }

  /** The part of a replacement after the new replica is up: old one stopped, then deleted. */
  ghost predicate Swapped(w: World, h: World, svc: string, name: string, oldName: string) {
    && name !in w && oldName in w
    && name in h && h[name].service == svc && h[name].status == Running
    && (forall n | n in w && n != oldName :: n in h && h[n] == w[n])
    && h.Keys <= w.Keys + {name}
    && (oldName in h ==> h[oldName].service == w[oldName].service && h[oldName].id == w[oldName].id)
  }

  lemma SwappedCounts(w: World, h: World, svc: string, name: string, oldName: string)
    requires Swapped(w, h, svc, name, oldName)
    ensures |RunningOf(h, svc)| >= |RunningOf(w, svc)|
    ensures |Own(h, svc)| <= |Own(w, svc)| + 1
  {
    SwapSize(RunningOf(w, svc), RunningOf(h, svc), oldName, name);
    assert Own(h, svc) <= Own(w, svc) + {name};
    SubsetSize(Own(h, svc), Own(w, svc) + {name});
  }

  lemma SwapSize<T>(a: set<T>, b: set<T>, x: T, y: T)
    requires y !in a && a - {x} + {y} <= b
    ensures |a| <= |b|
  {
    SubsetSize(a - {x} + {y}, b);
    SubsetSize(a, a - {x} + {x});
  }

  lemma RollbackStates(w: World, w2: World, svc: string, name: string, stopOk: bool, deleteOk: bool)
    requires AtMostAdds(w, w2, svc, name)
    ensures forall h | h in Remove(w2, ByName(name), stopOk, deleteOk) :: AtMostAdds(w, h, svc, name)
  {
  }

  /** The end of a replacement that went wrong: the table has at most the unwanted new container
      more than before; every container there was is untouched. */
  lemma AbortedStep(w: World, svc: string, image: string, old_: Container, i: nat, env: RollEnv)
    requires Wf(w) && NewName(svc, i, env) !in w && Fresh(w, env.step(i).create)
    requires !ReplaceOne(w, svc, image, old_, i, env).ok
    ensures forall h | h in ReplaceOne(w, svc, image, old_, i, env).trace :: AtMostAdds(w, h, svc, NewName(svc, i, env))
    ensures AtMostAdds(w, End(w, ReplaceOne(w, svc, image, old_, i, env).trace), svc, NewName(svc, i, env))
  {
    StartingPhase(w, svc, image, i, env);
    var name, e := NewName(svc, i, env), env.step(i);
    if e.create.Started? {
      var w1 := Create(w, NewSpec(svc, name, image), e.create);
      var started := [w1] + AwaitTrace(w1, name, e.polls);
      RollbackStates(w, End(w, started), svc, name, e.stopNew, e.deleteNew);
      EndOfConcat(w, started, Settle(End(w, started), name, old_, false, e));
    }
  }

  /** It leaves everything exactly as it found it, the unwanted new container removed, if and only if the new
      container is never made, or is started and can be deleted; where it cannot, it is at least stopped. */
  lemma AbortRestoresIff(w: World, svc: string, image: string, old_: Container, i: nat, env: RollEnv)
    requires Wf(w) && NewName(svc, i, env) !in w && Fresh(w, env.step(i).create)
    requires !ReplaceOne(w, svc, image, old_, i, env).ok
    ensures var name, e, h := NewName(svc, i, env), env.step(i), End(w, ReplaceOne(w, svc, image, old_, i, env).trace);
            && (h == w <==> !e.create.StartFailed? && (e.create.Started? ==> e.deleteNew))
            && (e.create.Started? && !e.deleteNew && e.stopNew ==> name in h && !Live(h[name].status))
  {
    StartingPhase(w, svc, image, i, env);
    var name, e := NewName(svc, i, env), env.step(i);
    var w1 := Create(w, NewSpec(svc, name, image), e.create);
    if e.create.Started? {
      var started := [w1] + AwaitTrace(w1, name, e.polls);
      UnwantedGone(w, End(w, started), svc, name, e.stopNew, e.deleteNew);
      EndOfConcat(w, started, Settle(End(w, started), name, old_, false, e));
    } else if !e.create.StartFailed? {
      assert w1 == w;
    }
  }

  lemma UnwantedGone(w: World, w2: World, svc: string, name: string, stopOk: bool, deleteOk: bool)
    requires AtMostAdds(w, w2, svc, name) && name in w2
    ensures var h := Remove(w2, ByName(name), stopOk, deleteOk)[1];
            (h == w <==> deleteOk) && (!deleteOk && stopOk ==> name in h && !Live(h[name].status))
  {
    var h := Remove(w2, ByName(name), stopOk, deleteOk)[1];
    assert deleteOk ==> h.Keys == w.Keys;
  }

  lemma SwapStates(w: World, w2: World, svc: string, name: string, old_: Container, stopOk: bool, deleteOk: bool)
    requires Wf(w2) && AtMostAdds(w, w2, svc, name) && name in w2 && w2[name].status == Running
    requires old_.name in w && w[old_.name] == old_.row && w2[name].id != old_.row.id
    ensures var t := Remove(w2, ById(old_.row.id), stopOk, deleteOk);
            && (forall h | h in t :: Swapped(w, h, svc, name, old_.name))
            && Swapped(w, t[1], svc, name, old_.name)
            && Wf(t[1]) && t[1][name] == w2[name]
            && (deleteOk ==> old_.name !in t[1])
  {
    var r := ById(old_.row.id);
    assert w2[old_.name] == old_.row;
    var w3 := Stop(w2, r, stopOk);
    assert Swapped(w, w3, svc, name, old_.name);
    RemovalKeepsWf(w2, r, stopOk);
    OnlyOneDeleted(w3, old_.name, deleteOk);
    RemovalKeepsWf(w3, r, deleteOk);
  }

  lemma OnlyOneDeleted(w: World, name: string, ok: bool)
    requires Wf(w) && name in w
    ensures Delete(w, ById(w[name].id), ok) == if ok then w - {name} else w
  {
  }

  /** Stopping and deleting it leaves the others. */
  lemma RemovalDrops(w: World, name: string)
    requires Wf(w) && name in w
    ensures Delete(Stop(w, ById(w[name].id), true), ById(w[name].id), true) == w - {name}
  {
  }

  /** A replacement that went through: the old replica stays until the new one runs. */
  lemma CompletedStates(w: World, svc: string, image: string, old_: Container, i: nat, env: RollEnv)
    requires Wf(w) && NewName(svc, i, env) !in w && Fresh(w, env.step(i).create)
    requires old_.name in w && w[old_.name] == old_.row
    requires ReplaceOne(w, svc, image, old_, i, env).ok
    ensures var o := ReplaceOne(w, svc, image, old_, i, env);
            var name := NewName(svc, i, env);
            && (forall h | h in o.trace :: AtMostAdds(w, h, svc, name) || Swapped(w, h, svc, name, old_.name))
            && Swapped(w, End(w, o.trace), svc, name, old_.name)
            && End(w, o.trace)[name].image == image
            && End(w, o.trace)[name].id == env.step(i).create.id
            && (env.step(i).deleteOld ==> old_.name !in End(w, o.trace))
            && Wf(End(w, o.trace))
  {
    StartingPhase(w, svc, image, i, env);
    var name, e := NewName(svc, i, env), env.step(i);
    var w1 := Create(w, NewSpec(svc, name, image), e.create);
    var started := [w1] + AwaitTrace(w1, name, e.polls);
    SwapStates(w, End(w, started), svc, name, old_, e.stopOld, e.deleteOld);
    EndOfConcat(w, started, Settle(End(w, started), name, old_, true, e));
  }

  /** Where it ends, exactly: one new container, running the new image, and the old one deleted, or at least
      stopped if it cannot be deleted. */
  lemma CompletedEnd(w: World, svc: string, image: string, old_: Container, i: nat, env: RollEnv)
    requires Wf(w) && NewName(svc, i, env) !in w && Fresh(w, env.step(i).create)
    requires old_.name in w && w[old_.name] == old_.row
    requires ReplaceOne(w, svc, image, old_, i, env).ok
    ensures var e := env.step(i);
            var left := if e.stopOld && Live(old_.row.status) then old_.row.(status := Exited) else old_.row;
            End(w, ReplaceOne(w, svc, image, old_, i, env).trace) ==
            (if e.deleteOld then w - {old_.name} else w[old_.name := left])
              [svc + "-roll-" + Decimal(e.time) + "-" + Decimal(i) := Row(e.create.id, svc, "", Running, image)]
  {
    StartingPhase(w, svc, image, i, env);
    var name, e := NewName(svc, i, env), env.step(i);
    var w1 := Create(w, NewSpec(svc, name, image), e.create);
    var started := [w1] + AwaitTrace(w1, name, e.polls);
    EndOfConcat(w, started, Settle(End(w, started), name, old_, true, e));
    var row := Row(e.create.id, svc, "", Running, image);
    OneMoreRow(w, End(w, started), svc, name, row);
    OldRemoved(w, name, row, old_, e.stopOld, e.deleteOld);
  }

  lemma OneMoreRow(w: World, h: World, svc: string, name: string, row: Row)
    requires AtMostAdds(w, h, svc, name) && name in h && h[name] == row
    ensures h == w[name := row]
  {
  }

  lemma OldRemoved(w: World, name: string, row: Row, old_: Container, stopOk: bool, deleteOk: bool)
    requires Wf(w[name := row]) && name !in w && old_.name in w && w[old_.name] == old_.row
    ensures var left := if stopOk && Live(old_.row.status) then old_.row.(status := Exited) else old_.row;
            Remove(w[name := row], ById(old_.row.id), stopOk, deleteOk)[1] ==
            (if deleteOk then w - {old_.name} else w[old_.name := left])[name := row]
  {
    var w1 := w[name := row];
    assert w1[old_.name] == old_.row;
    assert forall n | n in w1 && n != old_.name :: w1[n].id != old_.row.id;
  }

  /** The next replacement can start from where a completed one ends. */
  lemma CompletedStep(w: World, svc: string, image: string, current: seq<Container>, i: nat, env: RollEnv)
    requires i < |current| && Ready(w, svc, current, i, env)
    requires ReplaceOne(w, svc, image, current[i], i, env).ok
    ensures var o := ReplaceOne(w, svc, image, current[i], i, env);
            var name := NewName(svc, i, env);
            && (forall h | h in o.trace :: AtMostAdds(w, h, svc, name) || Swapped(w, h, svc, name, current[i].name))
            && Swapped(w, End(w, o.trace), svc, name, current[i].name)
            && End(w, o.trace)[name].image == image
            && (env.step(i).deleteOld ==> current[i].name !in End(w, o.trace))
            && Ready(End(w, o.trace), svc, current, i + 1, env)
  {
    CompletedStates(w, svc, image, current[i], i, env);
    ReadyNext(w, End(w, ReplaceOne(w, svc, image, current[i], i, env).trace), svc, current, i, env);
  }

  lemma ReadyNext(w: World, h: World, svc: string, current: seq<Container>, i: nat, env: RollEnv)
    requires i < |current| && Ready(w, svc, current, i, env) && env.step(i).create.Started?
    requires Wf(h) && Swapped(w, h, svc, NewName(svc, i, env), current[i].name)
    requires h[NewName(svc, i, env)].id == env.step(i).create.id
    ensures Ready(h, svc, current, i + 1, env)
  {
    var name := NewName(svc, i, env);
    forall j | i + 1 <= j < |current|
      ensures NewName(svc, j, env) !in h
    {
      if NewName(svc, j, env) == name {
        RollNameInjective(svc, env.step(j).time, j, env.step(i).time, i);
      }
    }
    forall j | i + 1 <= j < |current|
      ensures Fresh(h, env.step(j).create)
    {
      assert NewIdsDiffer(env.step(i).create, env.step(j).create);
      assert Fresh(w, env.step(j).create);
    }
  }

  // ---- the whole replacement phase ----

  /** Availability: while replicas are replaced, at every moment, however creates, health checks,
      stops and deletes turn out, at least as many replicas run as when the phase began. */
  lemma {:induction false} ReplacingKeepsAvailability(w: World, svc: string, image: string,
                                                     current: seq<Container>, i: nat, env: RollEnv)
    requires Ready(w, svc, current, i, env)
    ensures forall h | h in ReplaceFrom(w, svc, image, current, i, env).trace ::
              |RunningOf(h, svc)| >= |RunningOf(w, svc)|
    ensures |RunningOf(End(w, ReplaceFrom(w, svc, image, current, i, env).trace), svc)| >= |RunningOf(w, svc)|
    decreases |current| - i
  {
    if i < |current| {
      var o := ReplaceOne(w, svc, image, current[i], i, env);
      var name := NewName(svc, i, env);
      StepCounts(w, svc, image, current, i, env);
      if o.ok {
        CompletedStep(w, svc, image, current, i, env);
        var w' := End(w, o.trace);
        ReplacingKeepsAvailability(w', svc, image, current, i + 1, env);
        EndOfConcat(w, o.trace, ReplaceFrom(w', svc, image, current, i + 1, env).trace);
      }
    }
  }

  lemma StepCounts(w: World, svc: string, image: string, current: seq<Container>, i: nat, env: RollEnv)
    requires i < |current| && Ready(w, svc, current, i, env)
    ensures var o := ReplaceOne(w, svc, image, current[i], i, env);
            && (forall h | h in o.trace || h == End(w, o.trace) ::
                  && |RunningOf(h, svc)| >= |RunningOf(w, svc)|
                  && |Own(h, svc)| <= |Own(w, svc)| + 1)
            && (o.ok && env.step(i).deleteOld ==> |Own(End(w, o.trace), svc)| == |Own(w, svc)|)
  {
    var o := ReplaceOne(w, svc, image, current[i], i, env);
    var name := NewName(svc, i, env);
    if o.ok {
      CompletedStep(w, svc, image, current, i, env);
      var w' := End(w, o.trace);
      if env.step(i).deleteOld {
        assert Own(w', svc) == Own(w, svc) - {current[i].name} + {name};
      }
    } else {
      AbortedStep(w, svc, image, current[i], i, env);
    }
    forall h | h in o.trace || h == End(w, o.trace)
      ensures |RunningOf(h, svc)| >= |RunningOf(w, svc)| && |Own(h, svc)| <= |Own(w, svc)| + 1
    {
      if AtMostAdds(w, h, svc, name) {
        AtMostAddsCounts(w, h, svc, name);
      } else {
        SwappedCounts(w, h, svc, name, current[i].name);
      }
    }
  }

  /** Surge: while replicas are replaced there is never more than one container extra,
      provided the old replicas can be deleted. */
  lemma {:induction false} ReplacingAddsAtMostOne(w: World, svc: string, image: string,
                                                 current: seq<Container>, i: nat, env: RollEnv)
    requires Ready(w, svc, current, i, env)
    requires forall j | i <= j < |current| :: env.step(j).deleteOld
    ensures forall h | h in ReplaceFrom(w, svc, image, current, i, env).trace :: |Own(h, svc)| <= |Own(w, svc)| + 1
    decreases |current| - i
  {
    if i < |current| {
      var o := ReplaceOne(w, svc, image, current[i], i, env);
      StepCounts(w, svc, image, current, i, env);
      if o.ok {
        CompletedStep(w, svc, image, current, i, env);
        ReplacingAddsAtMostOne(End(w, o.trace), svc, image, current, i + 1, env);
      }
    }
  }

  /** Whether it is aborted or goes through, replacing leaves as many containers as it found when old replicas
      and unwanted new ones can be deleted and no container is left half made. */
  lemma {:induction false} ReplacingKeepsNumber(w: World, svc: string, image: string, current: seq<Container>, i: nat, env: RollEnv)
    requires Ready(w, svc, current, i, env)
    requires forall j | i <= j < |current| :: env.step(j).deleteOld && env.step(j).deleteNew && !env.step(j).create.StartFailed?
    ensures |Own(End(w, ReplaceFrom(w, svc, image, current, i, env).trace), svc)| == |Own(w, svc)|
    decreases |current| - i
  {
    if i < |current| {
      var o := ReplaceOne(w, svc, image, current[i], i, env);
      if o.ok {
        CompletedStep(w, svc, image, current, i, env);
        StepCounts(w, svc, image, current, i, env);
        var w1 := End(w, o.trace);
        ReplacingKeepsNumber(w1, svc, image, current, i + 1, env);
        EndOfConcat(w, o.trace, ReplaceFrom(w1, svc, image, current, i + 1, env).trace);
      } else {
        AbortRestoresIff(w, svc, image, current[i], i, env);
      }
    }
  }

  // ---- a rollout that goes through ----

  /** Names of the listed containers from the i-th on. */
  ghost function NamesFrom(current: seq<Container>, i: nat): set<string> {
    set j | i <= j < |current| :: current[j].name
  }

  /** Of the service's containers, those not named in `old_` are of the new version. */
  ghost predicate NewVersionExcept(w: World, svc: string, image: string, old_: set<string>) {
    forall n | n in Own(w, svc) - old_ :: w[n].image == image
  }

  lemma NewVersionGrows(w: World, h: World, svc: string, image: string, current: seq<Container>, i: nat, name: string)
    requires i < |current| && NewVersionExcept(w, svc, image, NamesFrom(current, i))
    requires Swapped(w, h, svc, name, current[i].name) && h[name].image == image && current[i].name !in h
    ensures NewVersionExcept(h, svc, image, NamesFrom(current, i + 1))
  {
  }

  /** After the replacement phase every container of the service is one of the new version,
      and there are exactly as many as before. */
  lemma {:induction false} ReplacedAll(w: World, svc: string, image: string,
                                      current: seq<Container>, i: nat, env: RollEnv)
    requires Ready(w, svc, current, i, env)
    requires ReplaceFrom(w, svc, image, current, i, env).ok
    requires forall j | i <= j < |current| :: env.step(j).deleteOld
    requires NewVersionExcept(w, svc, image, NamesFrom(current, i))
    ensures var w' := End(w, ReplaceFrom(w, svc, image, current, i, env).trace);
            |Own(w', svc)| == |Own(w, svc)| && NewVersionExcept(w', svc, image, {})
    decreases |current| - i
  {
    if i < |current| {
      var o := ReplaceOne(w, svc, image, current[i], i, env);
      CompletedStep(w, svc, image, current, i, env);
      StepCounts(w, svc, image, current, i, env);
      var w1 := End(w, o.trace);
      NewVersionGrows(w, w1, svc, image, current, i, NewName(svc, i, env));
      ReplacedAll(w1, svc, image, current, i + 1, env);
      EndOfConcat(w, o.trace, ReplaceFrom(w1, svc, image, current, i + 1, env).trace);
    } else {
      assert NamesFrom(current, i) == {};
    }
  }

  /** The names the replacements get. */
  ghost function NewNames(svc: string, n: nat, env: RollEnv): set<string> {
    set j | 0 <= j < n :: NewName(svc, j, env)
  }

  lemma LastNameIsNew(svc: string, n: nat, env: RollEnv)
    ensures NewName(svc, n, env) !in NewNames(svc, n, env)
  {
    if j :| 0 <= j < n && NewName(svc, j, env) == NewName(svc, n, env) {
      RollNameInjective(svc, env.step(j).time, j, env.step(n).time, n);
    }
  }

  lemma {:induction false} NewNamesCount(svc: string, n: nat, env: RollEnv)
    ensures |NewNames(svc, n, env)| == n
  {
    if n > 0 {
      NewNamesCount(svc, n - 1, env);
      LastNameIsNew(svc, n - 1, env);
      assert NewNames(svc, n, env) == NewNames(svc, n - 1, env) + {NewName(svc, n - 1, env)};
    }
  }

  /** Replacing leaves a container that is not to be replaced as it is. */
  lemma {:induction false} OthersStay(w: World, svc: string, image: string,
                                     current: seq<Container>, i: nat, env: RollEnv, name: string)
    requires Ready(w, svc, current, i, env) && ReplaceFrom(w, svc, image, current, i, env).ok
    requires name in w && forall j | i <= j < |current| :: current[j].name != name
    ensures Kept(w, End(w, ReplaceFrom(w, svc, image, current, i, env).trace), name)
    decreases |current| - i
  {
    if i < |current| {
      var o := ReplaceOne(w, svc, image, current[i], i, env);
      CompletedStep(w, svc, image, current, i, env);
      var w1 := End(w, o.trace);
      OthersStay(w1, svc, image, current, i + 1, env, name);
      EndOfConcat(w, o.trace, ReplaceFrom(w1, svc, image, current, i + 1, env).trace);
    }
  }

  /** When the replacement phase is through, each replacement runs. */
  lemma {:induction false} ReplacementRuns(w: World, svc: string, image: string,
                                          current: seq<Container>, i: nat, env: RollEnv, j: nat)
    requires Ready(w, svc, current, i, env) && i <= j < |current|
    requires ReplaceFrom(w, svc, image, current, i, env).ok
    ensures NewName(svc, j, env) in RunningOf(End(w, ReplaceFrom(w, svc, image, current, i, env).trace), svc)
    decreases |current| - i
  {
    var o := ReplaceOne(w, svc, image, current[i], i, env);
    CompletedStep(w, svc, image, current, i, env);
    var w1 := End(w, o.trace);
    if j == i {
      OthersStay(w1, svc, image, current, i + 1, env, NewName(svc, i, env));
    } else {
      ReplacementRuns(w1, svc, image, current, i + 1, env, j);
    }
    EndOfConcat(w, o.trace, ReplaceFrom(w1, svc, image, current, i + 1, env).trace);
  }

  /** Topping up never, at no moment, stops a replica that bears none of the names topped up. */
  lemma {:induction false} TopUpSpares(w: World, svc: string, image: string, i: nat, desired: nat, env: RollEnv, name: string)
    requires name in RunningOf(w, svc) && forall k | i <= k < desired :: TopUpName(svc, k) != name
    ensures forall h | h in TopUpFrom(w, svc, image, i, desired, env) :: name in RunningOf(h, svc)
    decreases desired - i
  {
    if i < desired {
      var w1 := Create(w, NewSpec(svc, TopUpName(svc, i), image), env.topUp(i));
      TopUpSpares(w1, svc, image, i + 1, desired, env, name);
    }
  }

  /** While the service is topped up all replacements run, whoever holds the names topped up. */
  lemma ReplacementsStay(w: World, svc: string, image: string, n: nat, desired: nat, env: RollEnv, h: World)
    requires NewNames(svc, n, env) <= RunningOf(w, svc)
    requires h in TopUpFrom(w, svc, image, n, desired, env)
    ensures |RunningOf(h, svc)| >= n
  {
    forall name | name in NewNames(svc, n, env)
      ensures name in RunningOf(h, svc)
    {
      var j :| 0 <= j < n && name == NewName(svc, j, env);
      forall k | n <= k < desired
        ensures TopUpName(svc, k) != name
      {
        RollIsNotReplica(svc, env.step(j).time, j, k + 1);
      }
      TopUpSpares(w, svc, image, n, desired, env, name);
    }
    NewNamesCount(svc, n, env);
    SubsetSize(NewNames(svc, n, env), RunningOf(h, svc));
  }

  lemma TopUpNamesDiffer(w: World, svc: string, image: string, i: nat, desired: nat, env: RollEnv)
    requires i < desired && forall k | i <= k < desired :: TopUpName(svc, k) !in Own(w, svc)
    ensures forall k | i + 1 <= k < desired ::
              TopUpName(svc, k) !in Own(Create(w, NewSpec(svc, TopUpName(svc, i), image), env.topUp(i)), svc)
  {
    forall k | i + 1 <= k < desired
      ensures TopUpName(svc, k) != TopUpName(svc, i)
    {
      if TopUpName(svc, k) == TopUpName(svc, i) {
        ReplicaNameInjective(svc, k + 1, i + 1);
      }
    }
  }

  lemma AddsOne(w: World, svc: string, image: string, name: string, o: CreateOutcome)
    requires name !in Own(w, svc) && o.Started? && NewVersionExcept(w, svc, image, {})
    ensures var w1 := Create(w, NewSpec(svc, name, image), o);
            |Own(w1, svc)| == |Own(w, svc)| + 1 && NewVersionExcept(w1, svc, image, {})
  {
    var w1 := Create(w, NewSpec(svc, name, image), o);
    assert Own(w1, svc) == Own(w, svc) + {name};
  }

  /** Topping up adds one container of the new version per missing replica; a container of
      another service that holds the name gives way. */
  lemma {:induction false} ToppedUp(w: World, svc: string, image: string, i: nat, desired: nat, env: RollEnv)
    requires forall k | i <= k < desired :: TopUpName(svc, k) !in Own(w, svc)
    requires forall k | i <= k < desired :: env.topUp(k).Started?
    requires NewVersionExcept(w, svc, image, {})
    ensures var w' := End(w, TopUpFrom(w, svc, image, i, desired, env));
            && |Own(w', svc)| == |Own(w, svc)| + (if i < desired then desired - i else 0)
            && NewVersionExcept(w', svc, image, {})
    decreases desired - i
  {
    if i < desired {
      var w1 := Create(w, NewSpec(svc, TopUpName(svc, i), image), env.topUp(i));
      TopUpNamesDiffer(w, svc, image, i, desired, env);
      AddsOne(w, svc, image, TopUpName(svc, i), env.topUp(i));
      ToppedUp(w1, svc, image, i + 1, desired, env);
      EndOfConcat(w, [w1], TopUpFrom(w1, svc, image, i + 1, desired, env));
    }
  }

  /** The listing `current` shows all containers of the service. */
  lemma ListedAll(w: World, svc: string, current: seq<Container>)
    requires IsListing(current, Mine(w, svc))
    ensures NamesFrom(current, 0) == Own(w, svc)
  {
  }

  /** After the replacement phase the service's own containers all bear names of replacements. */
  lemma {:induction false} NoReplicaNames(w: World, svc: string, image: string,
                                         current: seq<Container>, i: nat, k: nat, env: RollEnv)
    requires Ready(w, svc, current, i, env) && ReplaceFrom(w, svc, image, current, i, env).ok
    requires forall j | i <= j < |current| :: env.step(j).deleteOld
    requires ReplicaName(svc, k) in Own(w, svc) ==> ReplicaName(svc, k) in NamesFrom(current, i)
    ensures ReplicaName(svc, k) !in Own(End(w, ReplaceFrom(w, svc, image, current, i, env).trace), svc)
    decreases |current| - i
  {
    if i < |current| {
      var o := ReplaceOne(w, svc, image, current[i], i, env);
      CompletedStep(w, svc, image, current, i, env);
      RollIsNotReplica(svc, env.step(i).time, i, k);
      var w1 := End(w, o.trace);
      NoReplicaNames(w1, svc, image, current, i + 1, k, env);
      EndOfConcat(w, o.trace, ReplaceFrom(w1, svc, image, current, i + 1, env).trace);
    }
  }

  lemma TopUpNamesUnused(w: World, svc: string, image: string, current: seq<Container>, desired: nat, env: RollEnv)
    requires Ready(w, svc, current, 0, env) && IsListing(current, Mine(w, svc))
    requires ReplaceFrom(w, svc, image, current, 0, env).ok
    requires forall j | 0 <= j < |current| :: env.step(j).deleteOld
    ensures forall k | |current| <= k < desired ::
              TopUpName(svc, k) !in Own(End(w, ReplaceFrom(w, svc, image, current, 0, env).trace), svc)
  {
    ListedAll(w, svc, current);
    forall k | |current| <= k < desired
      ensures TopUpName(svc, k) !in Own(End(w, ReplaceFrom(w, svc, image, current, 0, env).trace), svc)
    {
      NoReplicaNames(w, svc, image, current, 0, k + 1, env);
    }
  }

  /** Availability of the whole update: from a non-empty service with fresh generated names and ids,
      in every state passed through and in whatever way the update ends, at least as many
      replicas run as at the start. */
  lemma RollKeepsAvailability(w: World, svc: string, m: Manifest, current: seq<Container>, env: RollEnv)
    requires Ready(w, svc, current, 0, env) && IsListing(current, Mine(w, svc)) && current != []
    ensures forall h | h in Roll(w, svc, m, current, env).trace :: |RunningOf(h, svc)| >= |RunningOf(w, svc)|
  {
    if env.listOk {
      var r := ReplaceFrom(w, svc, m.image, current, 0, env);
      ReplacingKeepsAvailability(w, svc, m.image, current, 0, env);
      if r.ok {
        forall j | 0 <= j < |current|
          ensures NewName(svc, j, env) in RunningOf(End(w, r.trace), svc)
        {
          ReplacementRuns(w, svc, m.image, current, 0, env, j);
        }
        CountsAgree(current, w, svc);
        SubsetSize(RunningOf(w, svc), Own(w, svc));
        forall h | h in TopUpFrom(End(w, r.trace), svc, m.image, |current|, Desired(m), env)
          ensures |RunningOf(h, svc)| >= |RunningOf(w, svc)|
        {
          ReplacementsStay(End(w, r.trace), svc, m.image, |current|, Desired(m), env, h);
        }
      }
    }
  }

  lemma ReplaceOneOkIff(w: World, svc: string, image: string, old_: Container, i: nat, env: RollEnv)
    ensures ReplaceOne(w, svc, image, old_, i, env).ok <==> env.step(i).create.Started? && Healthy(env.step(i).polls)
  {
    var e, name := env.step(i), NewName(svc, i, env);
    if e.create.Started? {
      AwaitOkIff(Create(w, NewSpec(svc, name, image), e.create), name, e.polls);
    }
  }

  lemma ReplaceFromOk(w: World, svc: string, image: string, current: seq<Container>, i: nat, env: RollEnv)
    requires i < |current|
    ensures var o := ReplaceOne(w, svc, image, current[i], i, env);
            ReplaceFrom(w, svc, image, current, i, env).ok == (o.ok && ReplaceFrom(End(w, o.trace), svc, image, current, i + 1, env).ok)
  {
  }

  /** From the i-th on, every replacement can be started and becomes healthy. */
  ghost predicate AllHealthy(current: seq<Container>, i: nat, env: RollEnv) {
    forall j | i <= j < |current| :: env.step(j).create.Started? && Healthy(env.step(j).polls)
  }

  lemma FirstHealthy(current: seq<Container>, i: nat, env: RollEnv)
    requires i < |current|
    ensures AllHealthy(current, i, env) <==> env.step(i).create.Started? && Healthy(env.step(i).polls) && AllHealthy(current, i + 1, env)
  {
  }

  lemma {:induction false} ReplacedIff(w: World, svc: string, image: string, current: seq<Container>, i: nat, env: RollEnv)
    ensures ReplaceFrom(w, svc, image, current, i, env).ok <==> AllHealthy(current, i, env)
    decreases |current| - i
  {
    if i < |current| {
      FirstHealthy(current, i, env);
      ReplaceOneOkIff(w, svc, image, current[i], i, env);
      ReplaceFromOk(w, svc, image, current, i, env);
      ReplacedIff(End(w, ReplaceOne(w, svc, image, current[i], i, env).trace), svc, image, current, i + 1, env);
    }
  }

  /** When an update succeeds: the containers can be listed and, if there are none, one can be started; otherwise every
      replacement can be started and becomes healthy. Failures to remove old replicas or to top up do not count. */
  lemma RollOkIff(w: World, svc: string, m: Manifest, current: seq<Container>, env: RollEnv)
    ensures Roll(w, svc, m, current, env).ok <==>
              && env.listOk
              && if current == [] then env.deploy.Started?
                 else forall j | 0 <= j < |current| :: env.step(j).create.Started? && Healthy(env.step(j).polls)
  {
    ReplacedIff(w, svc, m.image, current, 0, env);
  }

  /** An update that goes through: all replicas replaced, then topped up. */
  lemma RollPhases(w: World, svc: string, m: Manifest, current: seq<Container>, env: RollEnv)
    requires Roll(w, svc, m, current, env).ok && current != []
    ensures var r := ReplaceFrom(w, svc, m.image, current, 0, env);
            var w1 := End(w, r.trace);
            r.ok && End(w, Roll(w, svc, m, current, env).trace) == End(w1, TopUpFrom(w1, svc, m.image, |current|, Desired(m), env))
  {
    var r := ReplaceFrom(w, svc, m.image, current, 0, env);
    EndOfConcat(w, r.trace, TopUpFrom(End(w, r.trace), svc, m.image, |current|, Desired(m), env));
  }

  /** The two phases after one another, without a failed delete or create. */
  lemma ReplacedThenToppedUp(w: World, svc: string, image: string, current: seq<Container>, desired: nat, env: RollEnv)
    requires Ready(w, svc, current, 0, env) && IsListing(current, Mine(w, svc))
    requires ReplaceFrom(w, svc, image, current, 0, env).ok
    requires forall j | 0 <= j < |current| :: env.step(j).deleteOld
    requires forall k | |current| <= k < desired :: env.topUp(k).Started?
    ensures var w1 := End(w, ReplaceFrom(w, svc, image, current, 0, env).trace);
            var w' := End(w1, TopUpFrom(w1, svc, image, |current|, desired, env));
            && |Own(w', svc)| == (if |Own(w, svc)| < desired then desired else |Own(w, svc)|)
            && NewVersionExcept(w', svc, image, {})
  {
    CountsAgree(current, w, svc);
    ListedAll(w, svc, current);
    ReplacedAll(w, svc, image, current, 0, env);
    TopUpNamesUnused(w, svc, image, current, desired, env);
    ToppedUp(End(w, ReplaceFrom(w, svc, image, current, 0, env).trace), svc, image, |current|, desired, env);
  }

  /** A full success leaves exactly as many containers as there were, or as the manifest asks for if these are
      more, all of the new version. */
  lemma RollSucceeds(w: World, svc: string, m: Manifest, current: seq<Container>, env: RollEnv)
    requires Ready(w, svc, current, 0, env) && IsListing(current, Mine(w, svc)) && current != []
    requires Roll(w, svc, m, current, env).ok
    requires forall j | 0 <= j < |current| :: env.step(j).deleteOld
    requires forall k | |current| <= k < Desired(m) :: env.topUp(k).Started?
    ensures var w' := End(w, Roll(w, svc, m, current, env).trace);
            && |Own(w', svc)| == (if |Own(w, svc)| < m.replicas then m.replicas else |Own(w, svc)|)
            && forall n | n in Own(w', svc) :: w'[n].image == m.image
  {
    RollPhases(w, svc, m, current, env);
    ReplacedThenToppedUp(w, svc, m.image, current, Desired(m), env);
  }

  /** An update that is aborted at the i-th replica leaves every replica from there on running as it was. */
  lemma {:induction false} AbortKeepsOld(w: World, svc: string, image: string,
                                        current: seq<Container>, i: nat, env: RollEnv)
    returns (failed: nat)
    requires Ready(w, svc, current, i, env)
    requires !ReplaceFrom(w, svc, image, current, i, env).ok
    ensures i <= failed < |current|
    ensures var w' := End(w, ReplaceFrom(w, svc, image, current, i, env).trace);
            forall j | failed <= j < |current| :: current[j].name in w' && w'[current[j].name] == current[j].row
    decreases |current| - i
  {
    var o := ReplaceOne(w, svc, image, current[i], i, env);
    if o.ok {
      CompletedStep(w, svc, image, current, i, env);
      var w1 := End(w, o.trace);
      failed := AbortKeepsOld(w1, svc, image, current, i + 1, env);
      EndOfConcat(w, o.trace, ReplaceFrom(w1, svc, image, current, i + 1, env).trace);
    } else {
      AbortedStep(w, svc, image, current[i], i, env);
      failed := i;
    }
  }

  // ---- the update as it is carried out ----

  method RemoveContainer(rt: Runtime, r: Ref, stopOk: bool, deleteOk: bool)
    requires rt.Valid()
    modifies rt
    ensures rt.Valid()
    ensures rt.history == old(rt.history) + Remove(old(rt.containers), r, stopOk, deleteOk)
  {
    ghost var h0 := rt.history;
    rt.StopContainer(r, stopOk);
    ghost var w1 := rt.containers;
    rt.DeleteContainer(r, deleteOk);
    assert rt.history == h0 + [w1, rt.containers];
  }

  method ReplaceReplica(rt: Runtime, svc: string, image: string, old_: Container, i: nat, env: RollEnv) returns (ok: bool)
    requires rt.Valid()
    modifies rt
    ensures rt.Valid()
    ensures var o := ReplaceOne(old(rt.containers), svc, image, old_, i, env);
            ok == o.ok && rt.history == old(rt.history) + o.trace
  {
    ghost var w0, h0 := rt.containers, rt.history;
    var e := env.step(i);
    var name := NewName(svc, i, env);
    ok := rt.CreateContainer(NewSpec(svc, name, image), e.create);
    if !ok {
      return;
    }
    ghost var w1 := rt.containers;
    ghost var started := [w1] + AwaitTrace(w1, name, e.polls);
    ok := WaitHealthy(rt, name, e.polls);
    assert rt.history == h0 + started;
    EndIsLast(h0, started);
    ghost var w2 := rt.containers;
    if ok {
      RemoveContainer(rt, ById(old_.row.id), e.stopOld, e.deleteOld);
    } else {
      RemoveContainer(rt, ByName(name), e.stopNew, e.deleteNew);
    }
    assert rt.history == h0 + started + Settle(w2, name, old_, ok, e);
    Associative(h0, started, Settle(w2, name, old_, ok, e));
  }

  /** One round of the loop: `rest` is what is still to come before it, `rest'` after it. */
  method ReplaceNext(rt: Runtime, svc: string, image: string, current: seq<Container>, i: nat, env: RollEnv, ghost rest: Outcome)
    returns (ok: bool, ghost rest': Outcome)
    requires rt.Valid() && i < |current|
    requires rest == ReplaceFrom(rt.containers, svc, image, current, i, env)
    modifies rt
    ensures rt.Valid()
    ensures rest'.ok == rest.ok && old(rt.history) + rest.trace == rt.history + rest'.trace
    ensures ok ==> rest' == ReplaceFrom(rt.containers, svc, image, current, i + 1, env)
    ensures !ok ==> !rest'.ok && rest'.trace == []
  {
    ghost var w, h := rt.containers, rt.history;
    ok := ReplaceReplica(rt, svc, image, current[i], i, env);
    rest' := Advance(h, w, rt.history, rt.containers, svc, image, current, i, env);
  }

  method ReplaceReplicas(rt: Runtime, svc: string, image: string, current: seq<Container>, env: RollEnv) returns (ok: bool)
    requires rt.Valid()
    modifies rt
    ensures rt.Valid()
    ensures var o := ReplaceFrom(old(rt.containers), svc, image, current, 0, env);
            ok == o.ok && rt.history == old(rt.history) + o.trace
  {
    ghost var h0 := rt.history;
    ghost var all := ReplaceFrom(rt.containers, svc, image, current, 0, env);
    ghost var rest := all;
    ok := true;
    var i := 0;
    while ok && i < |current|
      invariant 0 <= i <= |current| && rt.Valid()
      invariant ok ==> rest == ReplaceFrom(rt.containers, svc, image, current, i, env)
      invariant !ok ==> !rest.ok && rest.trace == []
      invariant rest.ok == all.ok && h0 + all.trace == rt.history + rest.trace
    {
      ok, rest := ReplaceNext(rt, svc, image, current, i, env, rest);
      i := i + 1;
    }
    assert rest.trace == [] && rest.ok == ok;
  }

  lemma Advance(h: seq<World>, w: World, h': seq<World>, w': World,
                svc: string, image: string, current: seq<Container>, i: nat, env: RollEnv) returns (rest: Outcome)
    requires h != [] && h[|h| - 1] == w && h' != [] && h'[|h'| - 1] == w' && i < |current|
    requires h' == h + ReplaceOne(w, svc, image, current[i], i, env).trace
    ensures rest.ok == ReplaceFrom(w, svc, image, current, i, env).ok
    ensures h + ReplaceFrom(w, svc, image, current, i, env).trace == h' + rest.trace
    ensures rest == if ReplaceOne(w, svc, image, current[i], i, env).ok
                    then ReplaceFrom(w', svc, image, current, i + 1, env) else Outcome([], false)
  {
    var o := ReplaceOne(w, svc, image, current[i], i, env);
    EndIsLast(h, o.trace);
    rest := if o.ok then ReplaceFrom(w', svc, image, current, i + 1, env) else Outcome([], false);
    Associative(h, o.trace, rest.trace);
  }

  method TopUp(rt: Runtime, svc: string, image: string, from: nat, desired: nat, env: RollEnv)
    requires rt.Valid()
    modifies rt
    ensures rt.Valid()
    ensures rt.history == old(rt.history) + TopUpFrom(old(rt.containers), svc, image, from, desired, env)
  {
    ghost var h0 := rt.history;
    ghost var all := TopUpFrom(rt.containers, svc, image, from, desired, env);
    var i := from;
    while i < desired
      invariant rt.Valid()
      invariant h0 + all == rt.history + TopUpFrom(rt.containers, svc, image, i, desired, env)
    {
      var created := rt.CreateContainer(NewSpec(svc, TopUpName(svc, i), image), env.topUp(i));
      i := i + 1;
    }
  }

  /** Carries out the update. The containers are replaced in the order the listing shows them,
      and the states passed through are those the specification names. */
  method RollingUpdate(rt: Runtime, svc: string, m: Manifest, env: RollEnv) returns (ok: bool, ghost shown: seq<Container>)
    requires rt.Valid()
    modifies rt
    ensures rt.Valid()
    ensures IsListing(shown, old(rt.containers))
    ensures var o := Roll(old(rt.containers), svc, m, Labelled(shown, svc), env);
            ok == o.ok && rt.history == old(rt.history) + o.trace
  {
    ghost var w0, h0 := rt.containers, rt.history;
    var l := rt.ListContainers();
    shown := l;
    if !env.listOk {
      return false, shown;
    }
    var current := SelectLabelled(l, svc);
    if current == [] {
      ok := rt.CreateContainer(NewSpec(svc, m.name, m.image), env.deploy);
      return ok, shown;
    }
    ok := ReplaceReplicas(rt, svc, m.image, current, env);
    if !ok {
      return false, shown;
    }
    ghost var r := ReplaceFrom(w0, svc, m.image, current, 0, env);
    EndIsLast(h0, r.trace);
    TopUp(rt, svc, m.image, |current|, Desired(m), env);
    Associative(h0, r.trace, TopUpFrom(End(w0, r.trace), svc, m.image, |current|, Desired(m), env));
  }
}
