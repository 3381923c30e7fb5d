/** Services do not disturb each other: a tick of one service acts on its own part of the
    container table and carries the rest along unchanged, so a round over many services
    does to each of them exactly what a tick of that service alone would have done. */
module Isolation {
  import opened Wrappers
  import opened Naming
  import opened ContainerRuntime
  import opened Rollout
  import opened Reconciler
  import Rolling
  import BlueGreen
  import opened FreshIds

  /** A part of the table that the service has no claim to: other labels, no name it can generate. */
  ghost predicate Apart(f: World, svc: string, manifestName: string) {
    forall n | n in f :: f[n].service != svc && !Generated(svc, manifestName, n)
  }

  /** None of the listed containers' ids occurs in that part. */
  ghost predicate IdsApart(f: World, l: seq<Container>) {
    forall c, n | c in l && n in f :: f[n].id != c.row.id
  }

  /** A table with containers of the service only, under names it started with or can generate. */
  ghost predicate AllOwn(h: World, svc: string, manifestName: string, names: set<string>) {
    forall n | n in h :: h[n].service == svc && (n in names || Generated(svc, manifestName, n))
  }

  ghost predicate AllOwnTrace(t: seq<World>, svc: string, manifestName: string, names: set<string>) {
    forall h | h in t :: AllOwn(h, svc, manifestName, names)
  }

  /** The same states with a further part of the table alongside. */
  function Plus(t: seq<World>, f: World): seq<World> {
    seq(|t|, i requires 0 <= i < |t| => t[i] + f)
  }

  lemma PlusConcat(a: seq<World>, b: seq<World>, f: World)
    ensures Plus(a + b, f) == Plus(a, f) + Plus(b, f)
  {
  }

  lemma PlusEnd(w: World, t: seq<World>, f: World)
    ensures End(w + f, Plus(t, f)) == End(w, t) + f
  {
  }

  // ---- single calls ----

  lemma CreateFrame(w: World, f: World, spec: ContainerSpec, o: CreateOutcome)
    requires spec.name !in f
    ensures Create(w + f, spec, o) == Create(w, spec, o) + f
  {
  }

  lemma ProgressFrame(w: World, f: World, name: string, s: Status)
    requires name !in f
    ensures Progress(w + f, name, s) == Progress(w, name, s) + f
  {
  }

  lemma StopFrame(w: World, f: World, r: Ref, ok: bool)
    requires forall n | n in f :: !Matches(r, n, f[n])
    ensures Stop(w + f, r, ok) == Stop(w, r, ok) + f
  {
  }

  lemma DeleteFrame(w: World, f: World, r: Ref, ok: bool)
    requires forall n | n in f :: !Matches(r, n, f[n])
    ensures Delete(w + f, r, ok) == Delete(w, r, ok) + f
  {
  }

  lemma RemoveFrame(w: World, f: World, r: Ref, stopOk: bool, deleteOk: bool)
    requires forall n | n in f :: !Matches(r, n, f[n])
    ensures Rolling.Remove(w + f, r, stopOk, deleteOk) == Plus(Rolling.Remove(w, r, stopOk, deleteOk), f)
  {
    StopFrame(w, f, r, stopOk);
    DeleteFrame(Stop(w, r, stopOk), f, r, deleteOk);
  }

  // ---- waiting ----

  lemma {:induction false} AwaitFrame(w: World, f: World, name: string, polls: seq<Poll>)
    requires name !in f
    ensures AwaitTrace(w + f, name, polls) == Plus(AwaitTrace(w, name, polls), f)
    ensures AwaitOk(w + f, name, polls) == AwaitOk(w, name, polls)
  {
    if polls != [] && polls[0].Observed? {
      ProgressFrame(w, f, name, polls[0].status);
      var w1 := Progress(w, name, polls[0].status);
      AwaitFrame(w1, f, name, polls[1..]);
      PlusConcat([w1], AwaitTrace(w1, name, polls[1..]), f);
      assert Plus([w1], f) == [w1 + f];
    }
  }

  lemma AwaitOwn(w: World, name: string, polls: seq<Poll>, svc: string, mn: string, names: set<string>)
    requires AllOwn(w, svc, mn, names)
    ensures AllOwnTrace(AwaitTrace(w, name, polls), svc, mn, names)
    ensures AllOwn(End(w, AwaitTrace(w, name, polls)), svc, mn, names)
  {
  }

  // ---- rolling update ----

  lemma ReplaceOneFrame(w: World, f: World, svc: string, m: Manifest, old_: Container, i: nat, env: Rolling.RollEnv)
    requires Apart(f, svc, m.name) && IdsApart(f, [old_])
    ensures var o, o' := Rolling.ReplaceOne(w, svc, m.image, old_, i, env), Rolling.ReplaceOne(w + f, svc, m.image, old_, i, env);
            o'.ok == o.ok && o'.trace == Plus(o.trace, f)
  {
    var e, name := env.step(i), Rolling.NewName(svc, i, env);
    assert Generated(svc, m.name, name);
    var spec := Rolling.NewSpec(svc, name, m.image);
    CreateFrame(w, f, spec, e.create);
    var w1 := Create(w, spec, e.create);
    assert Plus([w1], f) == [w1 + f];
    if e.create.Started? {
      AwaitFrame(w1, f, name, e.polls);
      var started := [w1] + AwaitTrace(w1, name, e.polls);
      PlusConcat([w1], AwaitTrace(w1, name, e.polls), f);
      PlusEnd(w, started, f);
      assert old_ in [old_];
      var ok := AwaitOk(w1, name, e.polls);
      RemoveFrame(End(w, started), f, if ok then ById(old_.row.id) else ByName(name),
                  if ok then e.stopOld else e.stopNew, if ok then e.deleteOld else e.deleteNew);
      PlusConcat(started, Rolling.Settle(End(w, started), name, old_, ok, e), f);
    }
  }

  lemma ReplaceOneOwn(w: World, svc: string, m: Manifest, old_: Container, i: nat, env: Rolling.RollEnv, names: set<string>)
    requires AllOwn(w, svc, m.name, names)
    ensures AllOwn(End(w, Rolling.ReplaceOne(w, svc, m.image, old_, i, env).trace), svc, m.name, names)
  {
    var e, name := env.step(i), Rolling.NewName(svc, i, env);
    assert Generated(svc, m.name, name);
    var w1 := Create(w, Rolling.NewSpec(svc, name, m.image), e.create);
    assert AllOwn(w1, svc, m.name, names);
    if e.create.Started? {
      AwaitOwn(w1, name, e.polls, svc, m.name, names);
      var started := [w1] + AwaitTrace(w1, name, e.polls);
      Rolling.EndOfConcat(w, [w1], AwaitTrace(w1, name, e.polls));
      var ok := AwaitOk(w1, name, e.polls);
      Rolling.EndOfConcat(w, started, Rolling.Settle(End(w, started), name, old_, ok, e));
    }
  }

  lemma {:induction false} ReplaceFrame(w: World, f: World, svc: string, m: Manifest,
                                       current: seq<Container>, i: nat, env: Rolling.RollEnv, names: set<string>)
    requires Apart(f, svc, m.name) && IdsApart(f, current) && AllOwn(w, svc, m.name, names)
    ensures var o := Rolling.ReplaceFrom(w, svc, m.image, current, i, env);
            var o' := Rolling.ReplaceFrom(w + f, svc, m.image, current, i, env);
            && o'.ok == o.ok && End(w + f, o'.trace) == End(w, o.trace) + f
            && AllOwn(End(w, o.trace), svc, m.name, names)
    decreases |current| - i
  {
    if i < |current| {
      var c := current[i];
      assert c in current;
      assert IdsApart(f, [c]);
      var o := Rolling.ReplaceOne(w, svc, m.image, c, i, env);
      var o' := Rolling.ReplaceOne(w + f, svc, m.image, c, i, env);
      ReplaceOneFrame(w, f, svc, m, c, i, env);
      ReplaceOneOwn(w, svc, m, c, i, env, names);
      PlusEnd(w, o.trace, f);
      if o.ok {
        var w1 := End(w, o.trace);
        ReplaceFrame(w1, f, svc, m, current, i + 1, env, names);
        Rolling.EndOfConcat(w, o.trace, Rolling.ReplaceFrom(w1, svc, m.image, current, i + 1, env).trace);
        Rolling.EndOfConcat(w + f, o'.trace, Rolling.ReplaceFrom(w1 + f, svc, m.image, current, i + 1, env).trace);
      }
    }
  }

  lemma {:induction false} TopUpFrame(w: World, f: World, svc: string, m: Manifest, i: nat, desired: nat,
                                     env: Rolling.RollEnv, names: set<string>)
    requires Apart(f, svc, m.name) && AllOwn(w, svc, m.name, names)
    ensures var t := Rolling.TopUpFrom(w, svc, m.image, i, desired, env);
            && End(w + f, Rolling.TopUpFrom(w + f, svc, m.image, i, desired, env)) == End(w, t) + f
            && AllOwn(End(w, t), svc, m.name, names)
    decreases desired - i
  {
    if i < desired {
      var name := Rolling.TopUpName(svc, i);
      assert Generated(svc, m.name, name);
      var spec := Rolling.NewSpec(svc, name, m.image);
      CreateFrame(w, f, spec, env.topUp(i));
      var w1 := Create(w, spec, env.topUp(i));
      TopUpFrame(w1, f, svc, m, i + 1, desired, env, names);
      Rolling.EndOfConcat(w, [w1], Rolling.TopUpFrom(w1, svc, m.image, i + 1, desired, env));
      Rolling.EndOfConcat(w + f, [w1 + f], Rolling.TopUpFrom(w1 + f, svc, m.image, i + 1, desired, env));
    }
  }

  lemma RollFrame(w: World, f: World, svc: string, m: Manifest, current: seq<Container>, env: Rolling.RollEnv, names: set<string>)
    requires Apart(f, svc, m.name) && (env.listOk ==> IdsApart(f, current)) && AllOwn(w, svc, m.name, names)
    ensures var o, o' := Rolling.Roll(w, svc, m, current, env), Rolling.Roll(w + f, svc, m, current, env);
            && o'.ok == o.ok && End(w + f, o'.trace) == End(w, o.trace) + f
            && AllOwn(End(w, o.trace), svc, m.name, names)
  {
    if env.listOk {
      if current == [] {
        assert Generated(svc, m.name, m.name);
        CreateFrame(w, f, Rolling.NewSpec(svc, m.name, m.image), env.deploy);
      } else {
        ReplaceFrame(w, f, svc, m, current, 0, env, names);
        var r, r' := Rolling.ReplaceFrom(w, svc, m.image, current, 0, env), Rolling.ReplaceFrom(w + f, svc, m.image, current, 0, env);
        if r.ok {
          var w1 := End(w, r.trace);
          TopUpFrame(w1, f, svc, m, |current|, Desired(m), env, names);
          Rolling.EndOfConcat(w, r.trace, Rolling.TopUpFrom(w1, svc, m.image, |current|, Desired(m), env));
          Rolling.EndOfConcat(w + f, r'.trace, Rolling.TopUpFrom(w1 + f, svc, m.image, |current|, Desired(m), env));
        }
      }
    }
  }

  // ---- blue-green deploy ----

  lemma {:induction false} SweepPlus(w: World, f: World, victims: seq<Container>, fails: Failures)
    requires IdsApart(f, victims)
    ensures End(w + f, SweepTrace(w + f, victims, fails)) == End(w, SweepTrace(w, victims, fails)) + f
  {
    if victims != [] {
      assert victims[0] in victims;
      var id := victims[0].row.id;
      var w1 := Stop(w, ById(id), id !in fails.stop);
      var w2 := Delete(w1, ById(id), id !in fails.delete);
      StopFrame(w, f, ById(id), id !in fails.stop);
      DeleteFrame(w1, f, ById(id), id !in fails.delete);
      SweepPlus(w2, f, victims[1..], fails);
      Rolling.EndOfConcat(w, [w1, w2], SweepTrace(w2, victims[1..], fails));
      Rolling.EndOfConcat(w + f, [w1 + f, w2 + f], SweepTrace(w2 + f, victims[1..], fails));
    }
  }

  lemma {:induction false} SweepOwn(w: World, victims: seq<Container>, fails: Failures, svc: string, mn: string, names: set<string>)
    requires AllOwn(w, svc, mn, names)
    ensures AllOwn(End(w, SweepTrace(w, victims, fails)), svc, mn, names)
  {
    if victims != [] {
      var id := victims[0].row.id;
      var w1 := Stop(w, ById(id), id !in fails.stop);
      var w2 := Delete(w1, ById(id), id !in fails.delete);
      SweepOwn(w2, victims[1..], fails, svc, mn, names);
      Rolling.EndOfConcat(w, [w1, w2], SweepTrace(w2, victims[1..], fails));
    }
  }

  lemma StartFrame(s: BlueGreen.Sys, f: World, svc: string, m: Manifest, env: BlueGreen.DeployEnv, names: set<string>)
    requires Apart(f, svc, m.name) && AllOwn(s.w, svc, m.name, names)
    ensures var s' := s.(w := s.w + f);
            && End(s'.w, BlueGreen.Start(s', svc, m, env)) == End(s.w, BlueGreen.Start(s, svc, m, env)) + f
            && BlueGreen.StartOk(s', svc, m, env) == BlueGreen.StartOk(s, svc, m, env)
            && AllOwn(End(s.w, BlueGreen.Start(s, svc, m, env)), svc, m.name, names)
  {
    var spec := BlueGreen.SlotSpec(svc, NextSlot(s.slot), m.image);
    assert Generated(svc, m.name, spec.name);
    CreateFrame(s.w, f, spec, env.create);
    var w1 := Create(s.w, spec, env.create);
    assert AllOwn(w1, svc, m.name, names);
    if env.create.Started? {
      AwaitFrame(w1, f, spec.name, env.polls);
      AwaitOwn(w1, spec.name, env.polls, svc, m.name, names);
      var t := AwaitTrace(w1, spec.name, env.polls);
      PlusEnd(w1, t, f);
      Rolling.EndOfConcat(s.w, [w1], t);
      Rolling.EndOfConcat(s.w + f, [w1 + f], Plus(t, f));
    }
  }

  lemma RollbackFrame(w: World, f: World, name: string, env: BlueGreen.DeployEnv, svc: string, mn: string, names: set<string>)
    requires name !in f && AllOwn(w, svc, mn, names)
    ensures BlueGreen.RemoveByName(w + f, name, env) == BlueGreen.RemoveByName(w, name, env) + f
    ensures AllOwn(BlueGreen.RemoveByName(w, name, env), svc, mn, names)
  {
    StopFrame(w, f, ByName(name), env.stopNew);
    DeleteFrame(Stop(w, ByName(name), env.stopNew), f, ByName(name), env.deleteNew);
  }

  lemma SweptFrame(w: World, f: World, svc: string, slot: string, l: seq<Container>, env: BlueGreen.DeployEnv, mn: string, names: set<string>)
    requires AllOwn(w, svc, mn, names) && (env.sweepListOk ==> IdsApart(f, BlueGreen.Victims(l, svc, slot)))
    ensures BlueGreen.Swept(w + f, svc, slot, l, env) == BlueGreen.Swept(w, svc, slot, l, env) + f
    ensures AllOwn(BlueGreen.Swept(w, svc, slot, l, env), svc, mn, names)
  {
    if env.sweepListOk {
      SweepPlus(w, f, BlueGreen.Victims(l, svc, slot), env.failures);
      SweepOwn(w, BlueGreen.Victims(l, svc, slot), env.failures, svc, mn, names);
    }
  }

  /** What the sweep of a deploy takes from its listing. */
  function DeployReads(s: BlueGreen.Sys, svc: string, m: Manifest, l: seq<Container>, env: BlueGreen.DeployEnv): seq<Container> {
    if BlueGreen.StartOk(s, svc, m, env) && BlueGreen.Switched(m, env) && env.sweepListOk
    then BlueGreen.Victims(l, svc, s.slot) else []
  }

  lemma EndedFrame(s: BlueGreen.Sys, f: World, svc: string, m: Manifest, l: seq<Container>, env: BlueGreen.DeployEnv, names: set<string>)
    requires Apart(f, svc, m.name) && AllOwn(s.w, svc, m.name, names) && IdsApart(f, DeployReads(s, svc, m, l, env))
    ensures var e := BlueGreen.Ended(s, svc, m, l, env);
            BlueGreen.Ended(s.(w := s.w + f), svc, m, l, env) == e.(w := e.w + f) && AllOwn(e.w, svc, m.name, names)
  {
    StartFrame(s, f, svc, m, env, names);
    var w1, name := End(s.w, BlueGreen.Start(s, svc, m, env)), SlotName(svc, NextSlot(s.slot));
    assert Generated(svc, m.name, name);
    if !BlueGreen.StartOk(s, svc, m, env) || !BlueGreen.Switched(m, env) {
      RollbackFrame(w1, f, name, env, svc, m.name, names);
    } else {
      SweptFrame(w1, f, svc, s.slot, l, env, m.name, names);
    }
  }

  lemma DeployFrame(s: BlueGreen.Sys, f: World, svc: string, m: Manifest, l: seq<Container>,
                    env: BlueGreen.DeployEnv, names: set<string>)
    requires Apart(f, svc, m.name) && AllOwn(s.w, svc, m.name, names) && IdsApart(f, DeployReads(s, svc, m, l, env))
    ensures var s' := s.(w := s.w + f);
            var d, d' := BlueGreen.Deploy(s, svc, m, l, env), BlueGreen.Deploy(s', svc, m, l, env);
            var e := BlueGreen.Last(s, d.trace);
            && d'.ok == d.ok && BlueGreen.Last(s', d'.trace) == e.(w := e.w + f)
            && AllOwn(e.w, svc, m.name, names)
  {
    var s' := s.(w := s.w + f);
    StartFrame(s, f, svc, m, env, names);
    EndedFrame(s, f, svc, m, l, env, names);
    BlueGreen.DeployEnd(s, svc, m, l, env);
    BlueGreen.DeployEnd(s', svc, m, l, env);
  }

  // ---- a tick ----

  function ManifestName(svc: Service): string {
    if svc.manifest.Some? then svc.manifest.value.name else svc.name
  }

  /** The containers a tick takes from the listing of its action, in listing order. */
  function HealReads(w: World, svc: Service, env: TickEnv, shown: seq<Container>): seq<Container> {
    if env.removeListOk && !(env.recheckOk && Recovered(w, svc.name)) then Targets(shown, svc.name) else []
  }

  function UpdateReads(w: World, svc: Service, route: Option<string>, m: Manifest, env: TickEnv, shown: seq<Container>): seq<Container> {
    if m.blueGreen then DeployReads(BlueGreen.Sys(w, route, svc.slot), svc.name, m, shown, env.deploy)
    else if env.roll.listOk then Labelled(shown, svc.name)
    else []
  }

  function Reads(w: World, svc: Service, route: Option<string>, actual: seq<Container>, env: TickEnv, shown: seq<Container>): seq<Container> {
    if svc.manifest.None? then []
    else match Diff(svc, svc.manifest.value, actual, env.stuck)
      case Heal => HealReads(w, svc, env, shown)
      case Update => UpdateReads(w, svc, route, svc.manifest.value, env, shown)
      case _ => []
  }

  lemma DeployReadsOnly(s: BlueGreen.Sys, svc: string, m: Manifest, l: seq<Container>, l': seq<Container>, env: BlueGreen.DeployEnv)
    requires DeployReads(s, svc, m, l, env) == DeployReads(s, svc, m, l', env)
    ensures BlueGreen.Last(s, BlueGreen.Deploy(s, svc, m, l, env).trace) == BlueGreen.Last(s, BlueGreen.Deploy(s, svc, m, l', env).trace)
    ensures BlueGreen.Deploy(s, svc, m, l, env).ok == BlueGreen.Deploy(s, svc, m, l', env).ok
  {
  }

  /** A tick depends on the listing its action takes only through what it takes from it: the
      labelled containers, those that healing removes, or those of the old slot. */
  lemma TickReadsOnly(w: World, svc: Service, route: Option<string>, actual: seq<Container>, env: TickEnv,
                      shown: seq<Container>, shown': seq<Container>)
    requires Reads(w, svc, route, actual, env, shown) == Reads(w, svc, route, actual, env, shown')
    ensures TickService(w, svc, route, actual, env, shown) == TickService(w, svc, route, actual, env, shown')
  {
    if svc.manifest.Some? && Diff(svc, svc.manifest.value, actual, env.stuck).Update? && svc.manifest.value.blueGreen {
      DeployReadsOnly(BlueGreen.Sys(w, route, svc.slot), svc.name, svc.manifest.value, shown, shown', env.deploy);
    }
  }

  lemma ScaleUpFrame(w: World, f: World, svc: string, m: Manifest, current: nat, o: CreateOutcome, names: set<string>)
    requires Apart(f, svc, m.name) && AllOwn(w, svc, m.name, names)
    ensures ScaleUpWorld(w + f, svc, m, current, o) == ScaleUpWorld(w, svc, m, current, o) + f
    ensures AllOwn(ScaleUpWorld(w, svc, m, current, o), svc, m.name, names)
  {
    assert Generated(svc, m.name, ReplicaName(svc, current + 1));
    CreateFrame(w, f, PlainSpec(ReplicaName(svc, current + 1), svc, m.image), o);
  }

  lemma ScaleDownFrame(w: World, f: World, actual: seq<Container>, fails: Failures, svc: string, mn: string, names: set<string>)
    requires IdsApart(f, actual) && AllOwn(w, svc, mn, names)
    ensures ScaleDownWorld(w + f, actual, fails) == ScaleDownWorld(w, actual, fails) + f
    ensures AllOwn(ScaleDownWorld(w, actual, fails), svc, mn, names)
  {
    if actual != [] {
      LargestIsLargest(actual);
      var id := Largest(actual).row.id;
      StopFrame(w, f, ById(id), id !in fails.stop);
      DeleteFrame(Stop(w, ById(id), id !in fails.stop), f, ById(id), id !in fails.delete);
    }
  }

  lemma RecoveredFrame(w: World, f: World, svc: string)
    requires w.Keys !! f.Keys && forall n | n in f :: f[n].service != svc
    ensures Recovered(w + f, svc) == Recovered(w, svc)
  {
    if n :| n in w && w[n].service == svc && !NeedsRestart(w[n].status) {
      assert n in w + f && (w + f)[n] == w[n];
    }
  }

  lemma HealFrame(w: World, f: World, svc: Service, m: Manifest, env: TickEnv, shown: seq<Container>)
    requires w.Keys !! f.Keys && (forall n | n in f :: f[n].service != svc.name) && m.name !in f
    requires IdsApart(f, HealReads(w, svc, env, shown))
    ensures HealWorld(w + f, svc, m, env, shown) == HealWorld(w, svc, m, env, shown) + f
    ensures HealStatus(w + f, svc, env) == HealStatus(w, svc, env)
  {
    RecoveredFrame(w, f, svc.name);
    if !(env.recheckOk && Recovered(w, svc.name)) {
      if env.removeListOk {
        SweepPlus(w, f, Targets(shown, svc.name), env.failures);
      }
      CreateFrame(HealSwept(w, svc, env, shown), f, PlainSpec(m.name, svc.name, m.image), env.create);
    }
  }

  lemma HealOwn(w: World, svc: Service, m: Manifest, env: TickEnv, shown: seq<Container>, names: set<string>)
    requires AllOwn(w, svc.name, m.name, names)
    ensures AllOwn(HealWorld(w, svc, m, env, shown), svc.name, m.name, names)
  {
    assert Generated(svc.name, m.name, m.name);
    SweepOwn(w, Targets(shown, svc.name), env.failures, svc.name, m.name, names);
    var w1 := if env.removeListOk then End(w, SweepTrace(w, Targets(shown, svc.name), env.failures)) else w;
  }

  lemma UpdateFrame(w: World, f: World, svc: Service, route: Option<string>, m: Manifest, env: TickEnv, shown: seq<Container>, names: set<string>)
    requires Apart(f, svc.name, m.name) && AllOwn(w, svc.name, m.name, names)
    requires IdsApart(f, UpdateReads(w, svc, route, m, env, shown))
    ensures var t := UpdateTick(w, svc, route, m, env, shown);
            && UpdateTick(w + f, svc, route, m, env, shown) == t.(w := t.w + f)
            && AllOwn(t.w, svc.name, m.name, names)
  {
    if m.blueGreen {
      DeployFrame(BlueGreen.Sys(w, route, svc.slot), f, svc.name, m, shown, env.deploy, names);
    } else {
      RollFrame(w, f, svc.name, m, Labelled(shown, svc.name), env.roll, names);
    }
  }

  /** The frame rule of the control loop: whatever a tick does, failures included, it does to the
      service's own part of the table; the rest is carried along. */
  lemma TickFrame(w: World, f: World, svc: Service, route: Option<string>, actual: seq<Container>,
                  env: TickEnv, shown: seq<Container>, names: set<string>)
    requires Apart(f, svc.name, ManifestName(svc)) && IdsApart(f, actual)
    requires IdsApart(f, Reads(w, svc, route, actual, env, shown))
    requires AllOwn(w, svc.name, ManifestName(svc), names) && w.Keys !! f.Keys
    ensures var t := TickService(w, svc, route, actual, env, shown);
            && TickService(w + f, svc, route, actual, env, shown) == t.(w := t.w + f)
            && AllOwn(t.w, svc.name, ManifestName(svc), names)
  {
    if svc.manifest.Some? {
      var m := svc.manifest.value;
      match Diff(svc, m, actual, env.stuck) {
        case Noop =>
        case Heal =>
          assert Generated(svc.name, m.name, m.name);
          HealFrame(w, f, svc, m, env, shown);
          HealOwn(w, svc, m, env, shown, names);
        case ScaleUp => ScaleUpFrame(w, f, svc.name, m, |actual|, env.create, names);
        case ScaleDown => ScaleDownFrame(w, f, actual, env.failures, svc.name, m.name, names);
        case Update => UpdateFrame(w, f, svc, route, m, env, shown, names);
      }
    }
  }

  lemma UpdateReadsFrame(w: World, f: World, svc: Service, route: Option<string>, m: Manifest,
                         env: TickEnv, shown: seq<Container>, names: set<string>)
    requires Apart(f, svc.name, m.name) && AllOwn(w, svc.name, m.name, names)
    ensures UpdateReads(w + f, svc, route, m, env, shown) == UpdateReads(w, svc, route, m, env, shown)
  {
    var s := BlueGreen.Sys(w, route, svc.slot);
    StartFrame(s, f, svc.name, m, env.deploy, names);
    assert s.(w := s.w + f) == BlueGreen.Sys(w + f, route, svc.slot);
  }

  /** What a tick takes from its listing does not depend on the rest of the table either. */
  lemma ReadsFrame(w: World, f: World, svc: Service, route: Option<string>, actual: seq<Container>,
                   env: TickEnv, shown: seq<Container>, names: set<string>)
    requires Apart(f, svc.name, ManifestName(svc)) && w.Keys !! f.Keys
    requires AllOwn(w, svc.name, ManifestName(svc), names)
    ensures Reads(w + f, svc, route, actual, env, shown) == Reads(w, svc, route, actual, env, shown)
  {
    if svc.manifest.Some? {
      match Diff(svc, svc.manifest.value, actual, env.stuck) {
        case Heal => RecoveredFrame(w, f, svc.name);
        case Update => UpdateReadsFrame(w, f, svc, route, svc.manifest.value, env, shown, names);
        case _ =>
      }
    }
  }

  // ---- ids and listings ----

  /** The slots a service's row can have. */
  predicate KnownSlot(svc: Service) {
    svc.slot == "" || svc.slot == "green" || svc.slot == "blue"
  }

  /** These are containers of the service, as the table has them. */
  ghost predicate OwnRows(l: seq<Container>, w: World, svc: string) {
    forall c | c in l :: c.name in Mine(w, svc) && w[c.name] == c.row
  }

  /** With unique ids, the labelled part of a true listing has no id of a foreign container. The
      listing may be of a later table, in which the foreign containers are still what they were. */
  lemma LabelledApart(w: World, later: World, l: seq<Container>, svc: string)
    requires Wf(later) && IsListing(l, later)
    requires forall n | n in Foreign(w, svc) :: n in later && later[n] == w[n]
    ensures IdsApart(Foreign(w, svc), Labelled(l, svc))
  {
    LabelledMembers(l, svc);
    forall c, n | c in Labelled(l, svc) && n in Foreign(w, svc)
      ensures Foreign(w, svc)[n].id != c.row.id
    {
      var i :| 0 <= i < |l| && l[i] == c;
      assert later[c.name] == c.row && later[n] == w[n];
    }
  }

  lemma {:induction false} LabelledTwice(l: seq<Container>, svc: string)
    ensures Labelled(Labelled(l, svc), svc) == Labelled(l, svc)
  {
    if l != [] {
      LabelledTwice(l[1..], svc);
      if l[0].row.service == svc {
        assert Labelled(l, svc)[1..] == Labelled(l[1..], svc);
      } else {
        assert Labelled(l, svc) == Labelled(l[1..], svc);
      }
    }
  }

  lemma {:induction false} TargetsAreLabelled(l: seq<Container>, svc: string)
    requires forall c | c in l && Target(svc, c) :: c.row.service == svc
    ensures Targets(l, svc) == Labelled(l, svc)
  {
    if l != [] {
      assert l[0] in l;
      TargetsAreLabelled(l[1..], svc);
    }
  }

  lemma {:induction false} VictimsAreLabelled(l: seq<Container>, svc: string, slot: string)
    requires forall c | c in l && BlueGreen.IsOld(svc, slot, c) :: c.row.service == svc
    ensures BlueGreen.Victims(l, svc, slot) == BlueGreen.Victims(Labelled(l, svc), svc, slot)
  {
    if l != [] {
      assert l[0] in l;
      VictimsAreLabelled(l[1..], svc, slot);
      if l[0].row.service == svc {
        assert Labelled(l, svc)[1..] == Labelled(l[1..], svc);
      } else {
        assert Labelled(l, svc) == Labelled(l[1..], svc);
      }
    }
  }

  /** Healing takes from a true listing just the labelled containers. */
  lemma HealReadsOwn(w: World, svc: string, mn: string, shown: seq<Container>)
    requires Wf(w) && Apart(Foreign(w, svc), svc, mn) && IsListing(shown, w)
    ensures IdsApart(Foreign(w, svc), Targets(shown, svc))
    ensures Targets(shown, svc) == Targets(Labelled(shown, svc), svc)
  {
    forall c | c in shown && Target(svc, c)
      ensures c.row.service == svc
    {
      var i :| 0 <= i < |shown| && shown[i] == c;
      assert c.row.service != svc ==> c.name in Foreign(w, svc);
    }
    TargetsAreLabelled(shown, svc);
    LabelledMembers(shown, svc);
    TargetsAreLabelled(Labelled(shown, svc), svc);
    LabelledTwice(shown, svc);
    LabelledApart(w, w, shown, svc);
  }

  /** The sweep of a deploy takes from a true listing just labelled containers. */
  lemma DeployReadsOwn(s: BlueGreen.Sys, svc: string, m: Manifest, l: seq<Container>, env: BlueGreen.DeployEnv)
    requires Wf(s.w) && Fresh(s.w, env.create) && Apart(Foreign(s.w, svc), svc, m.name)
    requires s.slot == "" || s.slot == "green" || s.slot == "blue"
    requires IsListing(l, End(s.w, BlueGreen.Start(s, svc, m, env)))
    ensures IdsApart(Foreign(s.w, svc), BlueGreen.Victims(l, svc, s.slot))
    ensures BlueGreen.Victims(l, svc, s.slot) == BlueGreen.Victims(Labelled(l, svc), svc, s.slot)
  {
    BlueGreen.StartEffect(s, svc, m, env);
    var w1, name := End(s.w, BlueGreen.Start(s, svc, m, env)), SlotName(svc, NextSlot(s.slot));
    ForeignStays(s.w, w1, svc, m.name, name);
    SlotsDiffer(svc, s.slot);
    assert Generated(svc, m.name, SlotName(svc, s.slot));
    forall c | c in l && BlueGreen.IsOld(svc, s.slot, c)
      ensures c.row.service == svc
    {
      var i :| 0 <= i < |l| && l[i] == c;
      assert c.name != name ==> c.name in w1 - {name} && c.name in s.w - {name};
      assert c.row.service != svc && c.name != name ==> c.name in Foreign(s.w, svc);
    }
    VictimsAreLabelled(l, svc, s.slot);
    LabelledApart(s.w, w1, l, svc);
    LabelledMembers(l, svc);
    BlueGreen.VictimsMembers(l, svc, s.slot);
  }

  lemma ForeignStays(w: World, w1: World, svc: string, mn: string, name: string)
    requires Apart(Foreign(w, svc), svc, mn) && Generated(svc, mn, name) && BlueGreen.SameBut(w, w1, name)
    ensures forall n | n in Foreign(w, svc) :: n in w1 && w1[n] == w[n]
  {
    forall n | n in Foreign(w, svc)
      ensures n in w1 && w1[n] == w[n]
    {
      assert n in w - {name} && (w - {name})[n] == w[n];
      assert n in w1 - {name};
    }
  }

  /** What a tick takes from a true listing are containers of the service: none has a foreign id, and
      listing the others does not matter. */
  lemma ReadsOwn(w: World, svc: Service, route: Option<string>, actual: seq<Container>, env: TickEnv, shown: seq<Container>)
    requires Wf(w) && Apart(Foreign(w, svc.name), svc.name, ManifestName(svc)) && KnownSlot(svc)
    requires ShownTruly(w, svc, route, actual, env, shown) && IdsUnused(w, svc, actual, env, shown)
    ensures IdsApart(Foreign(w, svc.name), Reads(w, svc, route, actual, env, shown))
    ensures Reads(w, svc, route, actual, env, shown) == Reads(w, svc, route, actual, env, Labelled(shown, svc.name))
  {
    if svc.manifest.Some? {
      var m := svc.manifest.value;
      match Diff(svc, m, actual, env.stuck) {
        case Heal =>
          if env.removeListOk && !(env.recheckOk && Recovered(w, svc.name)) {
            HealReadsOwn(w, svc.name, m.name, shown);
          }
        case Update => UpdateReadsOwn(w, svc, route, m, actual, env, shown);
        case _ =>
      }
    }
  }

  lemma UpdateReadsOwn(w: World, svc: Service, route: Option<string>, m: Manifest, actual: seq<Container>, env: TickEnv, shown: seq<Container>)
    requires Wf(w) && Apart(Foreign(w, svc.name), svc.name, m.name) && KnownSlot(svc)
    requires svc.manifest == Some(m) && Diff(svc, m, actual, env.stuck).Update?
    requires ShownTruly(w, svc, route, actual, env, shown) && IdsUnused(w, svc, actual, env, shown)
    ensures IdsApart(Foreign(w, svc.name), UpdateReads(w, svc, route, m, env, shown))
    ensures UpdateReads(w, svc, route, m, env, shown) == UpdateReads(w, svc, route, m, env, Labelled(shown, svc.name))
  {
    if m.blueGreen {
      SweepReadsOwn(BlueGreen.Sys(w, route, svc.slot), svc.name, m, shown, env.deploy);
    } else {
      LabelledApart(w, w, shown, svc.name);
      LabelledTwice(shown, svc.name);
    }
  }

  lemma SweepReadsOwn(s: BlueGreen.Sys, svc: string, m: Manifest, l: seq<Container>, env: BlueGreen.DeployEnv)
    requires Wf(s.w) && Fresh(s.w, env.create) && Apart(Foreign(s.w, svc), svc, m.name)
    requires s.slot == "" || s.slot == "green" || s.slot == "blue"
    requires BlueGreen.Deploy(s, svc, m, l, env).ok ==> IsListing(l, End(s.w, BlueGreen.Start(s, svc, m, env)))
    ensures IdsApart(Foreign(s.w, svc), DeployReads(s, svc, m, l, env))
    ensures DeployReads(s, svc, m, l, env) == DeployReads(s, svc, m, Labelled(l, svc), env)
  {
    if BlueGreen.StartOk(s, svc, m, env) && BlueGreen.Switched(m, env) && env.sweepListOk {
      BlueGreen.DeployEnd(s, svc, m, l, env);
      DeployReadsOwn(s, svc, m, l, env);
    }
  }

  /** Isolation: with unique ids and true listings, a tick leaves every container of other services
      untouched, and what it does to the service's own containers, its row and its route depends on
      nothing but these and the part of its listing that shows them. */
  lemma TickIsolated(w: World, svc: Service, route: Option<string>, actual: seq<Container>, env: TickEnv, shown: seq<Container>)
    requires Wf(w) && Apart(Foreign(w, svc.name), svc.name, ManifestName(svc)) && KnownSlot(svc)
    requires OwnRows(actual, w, svc.name)
    requires ShownTruly(w, svc, route, actual, env, shown) && IdsUnused(w, svc, actual, env, shown)
    ensures var t := TickService(w, svc, route, actual, env, shown);
            var own := TickService(Mine(w, svc.name), svc, route, actual, env, Labelled(shown, svc.name));
            && Foreign(t.w, svc.name) == Foreign(w, svc.name)
            && Mine(t.w, svc.name) == own.w && t.svc == own.svc && t.route == own.route
            && AllOwn(own.w, svc.name, ManifestName(svc), Own(w, svc.name))
            && Wf(t.w)
  {
    var m, f := Mine(w, svc.name), Foreign(w, svc.name);
    assert w == m + f;
    ReadsOwn(w, svc, route, actual, env, shown);
    ReadsFrame(m, f, svc, route, actual, env, shown, Own(w, svc.name));
    ReadsFrame(m, f, svc, route, actual, env, Labelled(shown, svc.name), Own(w, svc.name));
    TickFrame(m, f, svc, route, actual, env, shown, Own(w, svc.name));
    TickReadsOnly(m, svc, route, actual, env, shown, Labelled(shown, svc.name));
    SplitAgain(TickService(m, svc, route, actual, env, shown).w, f, svc.name, ManifestName(svc), Own(w, svc.name));
    TickKeepsWf(w, svc, route, actual, env, shown);
  }

  lemma SplitAgain(own: World, f: World, svc: string, mn: string, names: set<string>)
    requires AllOwn(own, svc, mn, names) && Apart(f, svc, mn) && names !! f.Keys
    ensures Mine(own + f, svc) == own && Foreign(own + f, svc) == f
  {
  }
}
