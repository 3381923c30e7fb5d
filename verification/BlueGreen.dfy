/** Blue-green deploys: the new slot is started beside the active one, traffic is switched
    once it runs, and only then is the old slot swept away. */
module BlueGreen {
  import opened Wrappers
  import opened Naming
  import opened ContainerRuntime
  import opened Rollout

  /** What the daemon, the health checks and the ingress answer during one deploy. When the route
      cannot be switched, the old route may or may not have been removed already. */
  datatype DeployEnv = DeployEnv(create: CreateOutcome, polls: seq<Poll>, stopNew: bool, deleteNew: bool,
                                 routeOk: bool, routeLost: bool, sweepListOk: bool, failures: Failures)

  /** Everything a deploy of one service changes: containers, the service's route, its active slot. */
  datatype Sys = Sys(w: World, route: Option<string>, slot: string)

  datatype Result = Result(trace: seq<Sys>, ok: bool)

  function Upstream(name: string, port: nat): string {
    name + ":" + Decimal(port)
  }

  predicate IsOld(svc: string, slot: string, c: Container) {
    c.name == SlotName(svc, slot) || (c.row.service == svc && c.row.slot == slot)
  }

  /** The containers that the sweep after a switch removes, in listing order. */
  function Victims(l: seq<Container>, svc: string, slot: string): seq<Container> {
    if l == [] then []
    else (if IsOld(svc, slot, l[0]) then [l[0]] else []) + Victims(l[1..], svc, slot)
  }

  function SlotSpec(svc: string, slot: string, image: string): ContainerSpec {
    ContainerSpec(SlotName(svc, slot), svc, slot, image)
  }

  function Worlds(s: Sys, ws: seq<World>): seq<Sys> {
    seq(|ws|, i requires 0 <= i < |ws| => s.(w := ws[i]))
  }

  function Last(s: Sys, t: seq<Sys>): Sys {
    if t == [] then s else t[|t| - 1]
  }

  function Rollback(w: World, name: string, env: DeployEnv): seq<World> {
    var w1 := Stop(w, ByName(name), env.stopNew);
    [w1, Delete(w1, ByName(name), env.deleteNew)]
  }

  /** Switching traffic; a service without a domain has no route. */
  function Switch(s: Sys, m: Manifest, name: string, env: DeployEnv): Sys {
    if m.domain == "" then s
    else if env.routeOk then s.(route := Some(Upstream(name, m.port)))
    else if env.routeLost then s.(route := None)
    else s
  }

  predicate Switched(m: Manifest, env: DeployEnv) {
    m.domain == "" || env.routeOk
  }

  /** From the switch on: sweep the old slot, then record the new one as active. */
  function Finish(s: Sys, svc: string, l: seq<Container>, env: DeployEnv): seq<Sys> {
    var swept := if env.sweepListOk then Worlds(s, SweepTrace(s.w, Victims(l, svc, s.slot), env.failures)) else [];
    swept + [Last(s, swept).(slot := NextSlot(s.slot))]
  }

  /** The new slot container is created and waited for. */
  function Start(s: Sys, svc: string, m: Manifest, env: DeployEnv): seq<World> {
    var spec := SlotSpec(svc, NextSlot(s.slot), m.image);
    var w1 := Create(s.w, spec, env.create);
    [w1] + if env.create.Started? then AwaitTrace(w1, spec.name, env.polls) else []
  }

  predicate StartOk(s: Sys, svc: string, m: Manifest, env: DeployEnv) {
    var spec := SlotSpec(svc, NextSlot(s.slot), m.image);
    env.create.Started? && AwaitOk(Create(s.w, spec, env.create), spec.name, env.polls)
  }

  /** What follows once the new slot runs. */
  function SwitchOver(s: Sys, svc: string, m: Manifest, l: seq<Container>, env: DeployEnv): seq<Sys> {
    var name := SlotName(svc, NextSlot(s.slot));
    var s1 := Switch(s, m, name, env);
    [s1] + if Switched(m, env) then Finish(s1, svc, l, env) else Worlds(s1, Rollback(s1.w, name, env))
  }

  /** One deploy; `l` is the listing the sweep works from. */
  function Deploy(s: Sys, svc: string, m: Manifest, l: seq<Container>, env: DeployEnv): Result {
    var start := Start(s, svc, m, env);
    var s1 := s.(w := End(s.w, start));
    if !env.create.Started? then Result(Worlds(s, start), false)
    else if !StartOk(s, svc, m, env) then
      Result(Worlds(s, start) + Worlds(s1, Rollback(s1.w, SlotName(svc, NextSlot(s.slot)), env)), false)
    else Result(Worlds(s, start) + SwitchOver(s1, svc, m, l, env), Switched(m, env))
  }

  // ---- one deploy ----

  predicate RunsAt(w: World, name: string) {
    name in w && w[name].status == Running
  }

  /** The invariant between deploys: the container of the active slot runs. */
  ghost predicate Serving(s: Sys, svc: string) {
    RunsAt(s.w, SlotName(svc, s.slot))
  }

  /** States that differ at most in one container. */
  ghost predicate SameBut(w: World, h: World, name: string) {
    h - {name} == w - {name}
  }

  lemma WorldsMembers(s: Sys, ws: seq<World>)
    ensures forall h | h in Worlds(s, ws) :: h.route == s.route && h.slot == s.slot && h.w in ws
    ensures Last(s, Worlds(s, ws)) == s.(w := End(s.w, ws))
  {
  }

  lemma StartEffect(s: Sys, svc: string, m: Manifest, env: DeployEnv)
    requires Wf(s.w) && Fresh(s.w, env.create)
    ensures var name := SlotName(svc, NextSlot(s.slot));
            && (forall w | w in Start(s, svc, m, env) :: SameBut(s.w, w, name))
            && (var w1 := End(s.w, Start(s, svc, m, env));
                && SameBut(s.w, w1, name) && Wf(w1)
                && (StartOk(s, svc, m, env) ==>
                      RunsAt(w1, name) && w1[name].slot == NextSlot(s.slot) && w1[name].service == svc && w1[name].image == m.image))
  {
    var spec := SlotSpec(svc, NextSlot(s.slot), m.image);
    var w1 := Create(s.w, spec, env.create);
    CreateKeepsWf(s.w, spec, env.create);
    assert SameBut(s.w, w1, spec.name);
    if env.create.Started? {
      var waits := AwaitTrace(w1, spec.name, env.polls);
      AwaitEffect(w1, spec.name, env.polls);
      OnlyStatusKeepsWf(spec.name, w1, End(w1, waits));
      forall w | w in waits || w == End(w1, waits)
        ensures SameBut(s.w, w, spec.name)
      {
        OnlyStatusSameBut(s.w, w1, w, spec.name);
      }
      assert End(s.w, [w1] + waits) == End(w1, waits);
    }
  }

  lemma OnlyStatusSameBut(w0: World, w: World, h: World, name: string)
    requires SameBut(w0, w, name) && OnlyStatusOf(name, w, h)
    ensures SameBut(w0, h, name)
  {
  }

  lemma RollbackEffect(w: World, name: string, env: DeployEnv)
    ensures forall h | h in Rollback(w, name, env) :: SameBut(w, h, name)
  {
  }

  lemma {:induction false} VictimsAppend(l: seq<Container>, c: Container, svc: string, slot: string)
    ensures Victims(l + [c], svc, slot) == Victims(l, svc, slot) + if IsOld(svc, slot, c) then [c] else []
  {
    if l == [] {
      assert l + [c] == [c] && [c][1..] == [];
    } else {
      VictimsAppend(l[1..], c, svc, slot);
      assert (l + [c])[1..] == l[1..] + [c];
      Associative(if IsOld(svc, slot, l[0]) then [l[0]] else [], Victims(l[1..], svc, slot), if IsOld(svc, slot, c) then [c] else []);
    }
  }

  lemma {:induction false} VictimsMembers(l: seq<Container>, svc: string, slot: string)
    ensures forall c :: c in Victims(l, svc, slot) <==> c in l && IsOld(svc, slot, c)
  {
    if l != [] {
      VictimsMembers(l[1..], svc, slot);
    }
  }

  /** The sweep never touches the container that has just taken over. */
  lemma SweepSparesNewSlot(w: World, svc: string, slot: string, l: seq<Container>, f: Failures)
    requires Wf(w) && IsListing(l, w)
    requires RunsAt(w, SlotName(svc, NextSlot(slot))) && w[SlotName(svc, NextSlot(slot))].slot == NextSlot(slot)
    ensures var name := SlotName(svc, NextSlot(slot));
            var t := SweepTrace(w, Victims(l, svc, slot), f);
            (forall h | h in t :: Kept(w, h, name)) && Kept(w, End(w, t), name)
  {
    var name := SlotName(svc, NextSlot(slot));
    SlotsDiffer(svc, slot);
    VictimsMembers(l, svc, slot);
    forall c | c in Victims(l, svc, slot)
      ensures c.row.id != w[name].id
    {
      var k :| 0 <= k < |l| && l[k] == c;
      assert c.name in w && w[c.name] == c.row;
    }
    SweepKeeps(w, Victims(l, svc, slot), f, name);
  }

  /** From the switch on, at every step, the new slot's container runs; it is the active one in the end. */
  lemma FinishEffect(s: Sys, svc: string, l: seq<Container>, env: DeployEnv)
    requires Wf(s.w) && IsListing(l, s.w)
    requires RunsAt(s.w, SlotName(svc, NextSlot(s.slot)))
    requires s.w[SlotName(svc, NextSlot(s.slot))].slot == NextSlot(s.slot)
    ensures var name := SlotName(svc, NextSlot(s.slot));
            var t := Finish(s, svc, l, env);
            && (forall h | h in t :: Kept(s.w, h.w, name) && h.route == s.route)
            && t != [] && t[|t| - 1].slot == NextSlot(s.slot)
  {
    if env.sweepListOk {
      SweepSparesNewSlot(s.w, svc, s.slot, l, env.failures);
      var ws := SweepTrace(s.w, Victims(l, svc, s.slot), env.failures);
      WorldsMembers(s, ws);
    }
  }

  /** A failed deploy leaves the active slot and every container but the new slot's as they were,
      at every step; the active slot keeps serving. */
  lemma FailedDeploy(s: Sys, svc: string, m: Manifest, l: seq<Container>, env: DeployEnv)
    requires Wf(s.w) && Fresh(s.w, env.create)
    requires !Deploy(s, svc, m, l, env).ok
    ensures var d := Deploy(s, svc, m, l, env);
            && (forall h | h in d.trace ::
                  h.slot == s.slot && SameBut(s.w, h.w, SlotName(svc, NextSlot(s.slot)))
                  && (Serving(s, svc) ==> Serving(h, svc)))
            && d.trace != []
            && (m.domain == "" || (!env.routeOk && !env.routeLost) || !StartOk(s, svc, m, env) ==>
                  Last(s, d.trace).route == s.route)
  {
    var name := SlotName(svc, NextSlot(s.slot));
    StartEffect(s, svc, m, env);
    SlotsDiffer(svc, s.slot);
    var start := Start(s, svc, m, env);
    var s1 := s.(w := End(s.w, start));
    var s2 := Switch(s1, m, name, env);
    RollbackEffect(s1.w, name, env);
    WorldsMembers(s, start);
    WorldsMembers(s1, Rollback(s1.w, name, env));
    WorldsMembers(s2, Rollback(s1.w, name, env));
    forall h | h in Deploy(s, svc, m, l, env).trace
      ensures h.slot == s.slot && SameBut(s.w, h.w, name)
      ensures Serving(s, svc) ==> Serving(h, svc)
    {
      assert h.w in start || h.w == s1.w || h.w in Rollback(s1.w, name, env);
      if Serving(s, svc) {
        assert SlotName(svc, s.slot) in s.w - {name};
        assert SlotName(svc, s.slot) in h.w - {name};
      }
    }
  }

  /** A successful deploy ends with the new slot active and running the new image and, when the
      service has a domain, with the route pointing at it. On the way, the old slot serves up to the
      switch and the new one from the switch on. */
  lemma SuccessfulDeploy(s: Sys, svc: string, m: Manifest, l: seq<Container>, env: DeployEnv)
    requires Wf(s.w) && Fresh(s.w, env.create)
    requires Deploy(s, svc, m, l, env).ok
    requires IsListing(l, End(s.w, Start(s, svc, m, env)))
    ensures var d := Deploy(s, svc, m, l, env);
            var name := SlotName(svc, NextSlot(s.slot));
            && (forall h | h in d.trace :: RunsAt(h.w, name) || (h.slot == s.slot && (Serving(s, svc) ==> Serving(h, svc))))
            && (var e := Last(s, d.trace);
                && d.trace != [] && e.slot == NextSlot(s.slot) && Serving(e, svc) && e.w[name].image == m.image
                && e.w[name].service == svc && e.w[name].slot == e.slot
                && e.route == if m.domain == "" then s.route else Some(name + ":" + Decimal(m.port)))
  {
    SuccessfulSteps(s, svc, m, l, env);
    SuccessfulEnd(s, svc, m, l, env);
  }

  /** While the new slot starts, the old one is left alone. */
  lemma StartingSpares(s: Sys, svc: string, m: Manifest, env: DeployEnv)
    requires Wf(s.w) && Fresh(s.w, env.create)
    ensures forall h | h in Worlds(s, Start(s, svc, m, env)) :: h.slot == s.slot && (Serving(s, svc) ==> Serving(h, svc))
  {
    var name, old_ := SlotName(svc, NextSlot(s.slot)), SlotName(svc, s.slot);
    StartEffect(s, svc, m, env);
    SlotsDiffer(svc, s.slot);
    WorldsMembers(s, Start(s, svc, m, env));
    forall h | h in Worlds(s, Start(s, svc, m, env)) && Serving(s, svc)
      ensures Serving(h, svc)
    {
      assert SameBut(s.w, h.w, name);
      assert old_ in s.w - {name} && old_ in h.w - {name};
    }
  }

  lemma SuccessfulSteps(s: Sys, svc: string, m: Manifest, l: seq<Container>, env: DeployEnv)
    requires Wf(s.w) && Fresh(s.w, env.create) && Deploy(s, svc, m, l, env).ok
    requires IsListing(l, End(s.w, Start(s, svc, m, env)))
    ensures forall h | h in Deploy(s, svc, m, l, env).trace ::
              RunsAt(h.w, SlotName(svc, NextSlot(s.slot))) || (h.slot == s.slot && (Serving(s, svc) ==> Serving(h, svc)))
  {
    var name, start := SlotName(svc, NextSlot(s.slot)), Start(s, svc, m, env);
    var s2 := Switch(s.(w := End(s.w, start)), m, name, env);
    StartEffect(s, svc, m, env);
    StartingSpares(s, svc, m, env);
    FinishEffect(s2, svc, l, env);
    assert Deploy(s, svc, m, l, env).trace == Worlds(s, start) + ([s2] + Finish(s2, svc, l, env));
  }

  lemma SuccessfulEnd(s: Sys, svc: string, m: Manifest, l: seq<Container>, env: DeployEnv)
    requires Wf(s.w) && Fresh(s.w, env.create) && Deploy(s, svc, m, l, env).ok
    requires IsListing(l, End(s.w, Start(s, svc, m, env)))
    ensures var d, name := Deploy(s, svc, m, l, env), SlotName(svc, NextSlot(s.slot));
            var e := Last(s, d.trace);
            && d.trace != [] && e.slot == NextSlot(s.slot) && Serving(e, svc)
            && e.w[name] == Row(env.create.id, svc, e.slot, Running, m.image)
            && e.route == if m.domain == "" then s.route else Some(name + ":" + Decimal(m.port))
  {
    SlotsDiffer(svc, s.slot);
    DeployEnd(s, svc, m, l, env);
    DeployNotEmpty(s, svc, m, l, env);
    OldSlotGone(s, svc, m, l, env);
  }

  /** The state a deploy ends in, without the states on the way. */
  function Ended(s: Sys, svc: string, m: Manifest, l: seq<Container>, env: DeployEnv): Sys {
    var s1 := s.(w := End(s.w, Start(s, svc, m, env)));
    var name := SlotName(svc, NextSlot(s.slot));
    var s2 := Switch(s1, m, name, env);
    if !env.create.Started? then s1
    else if !StartOk(s, svc, m, env) then s1.(w := RemoveByName(s1.w, name, env))
    else if !Switched(m, env) then s2.(w := RemoveByName(s2.w, name, env))
    else s2.(w := Swept(s2.w, svc, s.slot, l, env), slot := NextSlot(s.slot))
  }

  function Swept(w: World, svc: string, slot: string, l: seq<Container>, env: DeployEnv): World {
    if env.sweepListOk then End(w, SweepTrace(w, Victims(l, svc, slot), env.failures)) else w
  }

  lemma SwitchOverEnd(s: Sys, svc: string, m: Manifest, l: seq<Container>, env: DeployEnv)
    ensures var name := SlotName(svc, NextSlot(s.slot));
            var s2, t := Switch(s, m, name, env), SwitchOver(s, svc, m, l, env);
            && t != []
            && t[|t| - 1] == if Switched(m, env) then s2.(w := Swept(s2.w, svc, s.slot, l, env), slot := NextSlot(s.slot))
                             else s2.(w := RemoveByName(s2.w, name, env))
  {
  }

  lemma DeployEnd(s: Sys, svc: string, m: Manifest, l: seq<Container>, env: DeployEnv)
    ensures Last(s, Deploy(s, svc, m, l, env).trace) == Ended(s, svc, m, l, env)
    ensures Deploy(s, svc, m, l, env).ok <==> StartOk(s, svc, m, env) && Switched(m, env)
  {
    var start := Start(s, svc, m, env);
    var s1 := s.(w := End(s.w, start));
    WorldsMembers(s, start);
    if StartOk(s, svc, m, env) {
      SwitchOverEnd(s1, svc, m, l, env);
      var t := SwitchOver(s1, svc, m, l, env);
      assert (Worlds(s, start) + t)[|Worlds(s, start) + t| - 1] == t[|t| - 1];
    }
  }

  lemma DeployNotEmpty(s: Sys, svc: string, m: Manifest, l: seq<Container>, env: DeployEnv)
    ensures Deploy(s, svc, m, l, env).trace != []
  {
    assert |Worlds(s, Start(s, svc, m, env))| == |Start(s, svc, m, env)| > 0;
  }

  function RemoveByName(w: World, name: string, env: DeployEnv): World {
    Delete(Stop(w, ByName(name), env.stopNew), ByName(name), env.deleteNew)
  }

  /** Ids stay unique over a deploy, whatever goes wrong in it. */
  lemma DeployKeepsWf(s: Sys, svc: string, m: Manifest, l: seq<Container>, env: DeployEnv)
    requires Wf(s.w) && Fresh(s.w, env.create)
    ensures Wf(Last(s, Deploy(s, svc, m, l, env).trace).w)
  {
    StartEffect(s, svc, m, env);
    DeployEnd(s, svc, m, l, env);
    var w1, r := End(s.w, Start(s, svc, m, env)), ByName(SlotName(svc, NextSlot(s.slot)));
    RemovalKeepsWf(w1, r, env.stopNew);
    RemovalKeepsWf(Stop(w1, r, env.stopNew), r, env.deleteNew);
    SweepWf(w1, Victims(l, svc, s.slot), env.failures);
  }

  /** The container of the new slot, once it runs. */
  lemma StartedTable(s: Sys, svc: string, m: Manifest, env: DeployEnv)
    requires Wf(s.w) && Fresh(s.w, env.create) && StartOk(s, svc, m, env)
    ensures var slot := NextSlot(s.slot);
            End(s.w, Start(s, svc, m, env)) == s.w[SlotName(svc, slot) := Row(env.create.id, svc, slot, Running, m.image)]
  {
    var spec := SlotSpec(svc, NextSlot(s.slot), m.image);
    var w1 := Create(s.w, spec, env.create);
    var waits := AwaitTrace(w1, spec.name, env.polls);
    AwaitEffect(w1, spec.name, env.polls);
    assert End(s.w, [w1] + waits) == End(w1, waits);
    assert s.w[spec.name := End(w1, waits)[spec.name]] == End(w1, waits);
  }

  /** What a successful deploy leaves, exactly. Beside the new slot's container, all containers that bear the old
      slot's name, or are labelled with the service and the old slot, are gone, or at least stopped if they could
      not be deleted; all others are as they were. If the containers could not be listed, none has been touched. */
  lemma OldSlotGone(s: Sys, svc: string, m: Manifest, l: seq<Container>, env: DeployEnv)
    requires Wf(s.w) && Fresh(s.w, env.create) && Deploy(s, svc, m, l, env).ok
    requires IsListing(l, End(s.w, Start(s, svc, m, env)))
    ensures var slot, f := NextSlot(s.slot), env.failures;
            var up := s.w[SlotName(svc, slot) := Row(env.create.id, svc, slot, Running, m.image)];
            var h := Last(s, Deploy(s, svc, m, l, env).trace).w;
            && h.Keys <= up.Keys
            && forall n | n in up ::
                 if env.sweepListOk && (n == SlotName(svc, s.slot) || (up[n].service == svc && up[n].slot == s.slot)) then
                   if up[n].id !in f.delete then n !in h
                   else n in h && h[n] == if up[n].id !in f.stop && Live(up[n].status) then up[n].(status := Exited) else up[n]
                 else n in h && h[n] == up[n]
  {
    DeployEnd(s, svc, m, l, env);
    StartEffect(s, svc, m, env);
    StartedTable(s, svc, m, env);
    var up := End(s.w, Start(s, svc, m, env));
    if env.sweepListOk {
      SweepEnd(up, Victims(l, svc, s.slot), env.failures);
      forall n | n in up
        ensures up[n].id in IdsOf(Victims(l, svc, s.slot)) <==> n == SlotName(svc, s.slot) || (up[n].service == svc && up[n].slot == s.slot)
      {
        AimedAtOld(up, l, svc, s.slot, n);
      }
    }
  }

  /** The sweep aims at a container if and only if it is one of the old slot's. */
  lemma AimedAtOld(w: World, l: seq<Container>, svc: string, slot: string, n: string)
    requires Wf(w) && IsListing(l, w) && n in w
    ensures w[n].id in IdsOf(Victims(l, svc, slot)) <==> n == SlotName(svc, slot) || (w[n].service == svc && w[n].slot == slot)
  {
    VictimsMembers(l, svc, slot);
    assert Container(n, w[n]) in l;
    if c :| c in Victims(l, svc, slot) && c.row.id == w[n].id {
      var k :| 0 <= k < |l| && l[k] == c;
      assert c.name in w && w[c.name] == c.row;
    }
  }

  /** What a failed deploy leaves, exactly: a new container that was started and did not become healthy, or to which
      the route could not be switched, is gone, or at least stopped if it could not be deleted. */
  lemma NewSlotGone(s: Sys, svc: string, m: Manifest, l: seq<Container>, env: DeployEnv)
    requires Wf(s.w) && Fresh(s.w, env.create) && !Deploy(s, svc, m, l, env).ok
    ensures var slot := NextSlot(s.slot);
            var name, h := SlotName(svc, slot), Last(s, Deploy(s, svc, m, l, env).trace).w;
            && Last(s, Deploy(s, svc, m, l, env).trace).slot == s.slot
            && match env.create
            case PullFailed => h == s.w
            case CreateFailed(oldRemoved) => h == if oldRemoved then s.w - {name} else s.w
            case StartFailed(id) => h == s.w[name := Row(id, svc, slot, Created, m.image)]
            case Started(_, _) =>
              if env.deleteNew then h == s.w - {name}
              else h - {name} == s.w - {name} && name in h && (env.stopNew ==> !Live(h[name].status))
  {
    DeployEnd(s, svc, m, l, env);
    StartEffect(s, svc, m, env);
    var name := SlotName(svc, NextSlot(s.slot));
    if env.create.Started? {
      var w1 := End(s.w, Start(s, svc, m, env));
      assert name in w1 by {
        var w0 := Create(s.w, SlotSpec(svc, NextSlot(s.slot), m.image), env.create);
        AwaitEffect(w0, name, env.polls);
        assert End(s.w, [w0] + AwaitTrace(w0, name, env.polls)) == End(w0, AwaitTrace(w0, name, env.polls));
      }
      RemovedByName(s.w, w1, name, env);
    }
  }

  /** When a deploy succeeds: the new container becomes healthy and, if the service has a domain, the route can be
      switched. If only the latter fails, the route is as it was, unless it has been lost on the way. */
  lemma DeploySucceedsIff(s: Sys, svc: string, m: Manifest, l: seq<Container>, env: DeployEnv)
    ensures var d, up := Deploy(s, svc, m, l, env), env.create.Started? && Healthy(env.polls);
            && (d.ok <==> up && (m.domain == "" || env.routeOk))
            && (!d.ok ==> Last(s, d.trace).route == if up && env.routeLost then None else s.route)
  {
    DeployEnd(s, svc, m, l, env);
    if env.create.Started? {
      var spec := SlotSpec(svc, NextSlot(s.slot), m.image);
      AwaitOkIff(Create(s.w, spec, env.create), spec.name, env.polls);
    }
  }

  lemma RemovedByName(w0: World, w: World, name: string, env: DeployEnv)
    requires SameBut(w0, w, name) && name in w
    ensures var h := RemoveByName(w, name, env);
            if env.deleteNew then h == w0 - {name}
            else h - {name} == w0 - {name} && name in h && (env.stopNew ==> !Live(h[name].status))
  {
    var h := RemoveByName(w, name, env);
    assert h - {name} == w - {name};
  }

  // ---- runs of deploys ----

  /** One deploy attempt: what is deployed, how the environment answers, what the sweep is shown. */
  datatype Attempt = Attempt(m: Manifest, l: seq<Container>, env: DeployEnv)

  function RunDeploys(s: Sys, svc: string, attempts: seq<Attempt>): seq<Sys>
    decreases |attempts|
  {
    if attempts == [] then []
    else
      var t := Deploy(s, svc, attempts[0].m, attempts[0].l, attempts[0].env).trace;
      t + RunDeploys(Last(s, t), svc, attempts[1..])
  }

  /** The environment is honest: listings show the table as it is and new ids are unused. */
  ghost predicate Honest(s: Sys, svc: string, attempts: seq<Attempt>)
    decreases |attempts|
  {
    if attempts == [] then true
    else
      var a := attempts[0];
      && Fresh(s.w, a.env.create)
      && IsListing(a.l, End(s.w, Start(s, svc, a.m, a.env)))
      && Honest(Last(s, Deploy(s, svc, a.m, a.l, a.env).trace), svc, attempts[1..])
  }

  /** Some slot of the service serves: the active one or the one about to become active. */
  ghost predicate SomeSlotServes(s: Sys, svc: string) {
    Serving(s, svc) || RunsAt(s.w, SlotName(svc, NextSlot(s.slot)))
  }

  lemma DeployServes(s: Sys, svc: string, a: Attempt)
    requires Wf(s.w) && Fresh(s.w, a.env.create) && IsListing(a.l, End(s.w, Start(s, svc, a.m, a.env)))
    requires Serving(s, svc)
    ensures var d := Deploy(s, svc, a.m, a.l, a.env);
            && d.trace != [] && Serving(Last(s, d.trace), svc)
            && forall h | h in d.trace :: SomeSlotServes(h, svc)
  {
    var d := Deploy(s, svc, a.m, a.l, a.env);
    if d.ok {
      SuccessfulDeploy(s, svc, a.m, a.l, a.env);
      forall h | h in d.trace
        ensures SomeSlotServes(h, svc)
      {
        if h.slot == s.slot {
        } else {
          OnlyTwoSlots(s, svc, a, h);
        }
      }
    } else {
      FailedDeploy(s, svc, a.m, a.l, a.env);
      assert d.trace[|d.trace| - 1] in d.trace;
    }
  }

  /** During a deploy the recorded slot is the old one or the new one. */
  lemma OnlyTwoSlots(s: Sys, svc: string, a: Attempt, h: Sys)
    requires h in Deploy(s, svc, a.m, a.l, a.env).trace
    ensures h.slot == s.slot || h.slot == NextSlot(s.slot)
  {
  }

  /** Over whole runs of succeeding and failing deploys: after every deploy the active slot's
      container runs, and at every single step in between some slot serves. */
  lemma {:induction false} RunServes(s: Sys, svc: string, attempts: seq<Attempt>)
    requires Wf(s.w) && Honest(s, svc, attempts) && Serving(s, svc)
    ensures forall h | h in RunDeploys(s, svc, attempts) :: SomeSlotServes(h, svc)
    ensures Serving(Last(s, RunDeploys(s, svc, attempts)), svc)
    decreases |attempts|
  {
    if attempts != [] {
      DeployServes(s, svc, attempts[0]);
      DeployKeepsWf(s, svc, attempts[0].m, attempts[0].l, attempts[0].env);
      var t := Deploy(s, svc, attempts[0].m, attempts[0].l, attempts[0].env).trace;
      RunServes(Last(s, t), svc, attempts[1..]);
    }
  }

  // ---- when the recorded slot serves at every step ----

  lemma {:induction false} SweepHits(w: World, victims: seq<Container>, f: Failures, c: Container)
    requires Wf(w) && c in victims && c.name in w && w[c.name] == c.row && c.row.status == Running
    requires c.row.id !in f.stop || c.row.id !in f.delete
    ensures exists h :: h in SweepTrace(w, victims, f) && !RunsAt(h, c.name)
  {
    var id := victims[0].row.id;
    var w1 := Stop(w, ById(id), id !in f.stop);
    var w2 := Delete(w1, ById(id), id !in f.delete);
    assert SweepTrace(w, victims, f) == [w1, w2] + SweepTrace(w2, victims[1..], f);
    assert w1 in SweepTrace(w, victims, f) && w2 in SweepTrace(w, victims, f);
    if id != c.row.id {
      assert c in victims[1..];
      RemovalKeepsWf(w, ById(id), id !in f.stop);
      RemovalKeepsWf(w1, ById(id), id !in f.delete);
      SweepHits(w2, victims[1..], f, c);
    }
  }

  lemma {:induction false} SweepMisses(w: World, victims: seq<Container>, f: Failures, name: string)
    requires name in w && w[name].id in f.stop && w[name].id in f.delete
    ensures forall h | h in SweepTrace(w, victims, f) :: Kept(w, h, name)
    ensures Kept(w, End(w, SweepTrace(w, victims, f)), name)
  {
    if victims != [] {
      var id := victims[0].row.id;
      SweepMisses(Delete(Stop(w, ById(id), id !in f.stop), ById(id), id !in f.delete), victims[1..], f, name);
    }
  }

  /** Both calls that would take the old slot's container down fail, or are never made. */
  predicate OldSlotSurvives(s: Sys, svc: string, env: DeployEnv)
    requires SlotName(svc, s.slot) in s.w
  {
    var id := s.w[SlotName(svc, s.slot)].id;
    !env.sweepListOk || (id in env.failures.stop && id in env.failures.delete)
  }

  /** It is not true that the slot recorded as active serves at every step of every deploy:
      the sweep takes the old slot down before the new one is recorded. It serves throughout
      exactly when the new container does not become healthy, the route cannot be switched, or the
      sweep leaves the old slot's container alone. */
  lemma RecordedSlotServesIff(s: Sys, svc: string, a: Attempt)
    requires Wf(s.w) && Fresh(s.w, a.env.create) && IsListing(a.l, End(s.w, Start(s, svc, a.m, a.env)))
    requires Serving(s, svc)
    ensures var d := Deploy(s, svc, a.m, a.l, a.env);
            (forall h | h in d.trace :: Serving(h, svc))
            <==> (!(StartOk(s, svc, a.m, a.env) && Switched(a.m, a.env)) || OldSlotSurvives(s, svc, a.env))
  {
    var d := Deploy(s, svc, a.m, a.l, a.env);
    DeployEnd(s, svc, a.m, a.l, a.env);
    if d.ok {
      var name, old_ := SlotName(svc, NextSlot(s.slot)), SlotName(svc, s.slot);
      SlotsDiffer(svc, s.slot);
      StartEffect(s, svc, a.m, a.env);
      var start := Start(s, svc, a.m, a.env);
      var s2 := Switch(s.(w := End(s.w, start)), a.m, name, a.env);
      WorldsMembers(s, start);
      forall w | w in start
        ensures RunsAt(w, old_) && w[old_] == s.w[old_]
      {
        assert old_ in s.w - {name} && old_ in w - {name};
        assert (s.w - {name})[old_] == (w - {name})[old_];
      }
      assert s2.w in start;
      assert Serving(s2, svc) && forall h | h in Worlds(s, start) :: Serving(h, svc);
      FinishServesIff(s2, svc, a.l, a.env);
      assert d.trace == Worlds(s, start) + ([s2] + Finish(s2, svc, a.l, a.env));
    } else {
      FailedDeploy(s, svc, a.m, a.l, a.env);
    }
  }

  lemma FinishServesIff(s: Sys, svc: string, l: seq<Container>, env: DeployEnv)
    requires Wf(s.w) && IsListing(l, s.w) && Serving(s, svc)
    requires RunsAt(s.w, SlotName(svc, NextSlot(s.slot)))
    requires s.w[SlotName(svc, NextSlot(s.slot))].slot == NextSlot(s.slot)
    ensures (forall h | h in Finish(s, svc, l, env) :: Serving(h, svc)) <==> OldSlotSurvives(s, svc, env)
  {
    FinishEffect(s, svc, l, env);
    var t := Finish(s, svc, l, env);
    if env.sweepListOk {
      var old_ := SlotName(svc, s.slot);
      var victims := Victims(l, svc, s.slot);
      var ws := SweepTrace(s.w, victims, env.failures);
      WorldsMembers(s, ws);
      if OldSlotSurvives(s, svc, env) {
        SweepMisses(s.w, victims, env.failures, old_);
      } else {
        VictimsMembers(l, svc, s.slot);
        var c := Container(old_, s.w[old_]);
        SweepHits(s.w, victims, env.failures, c);
        var w :| w in ws && !RunsAt(w, old_);
        var i :| 0 <= i < |ws| && ws[i] == w;
        assert Worlds(s, ws)[i] in t;
      }
    }
  }

  // A concrete deploy: service "web" moves from its plain container to the green slot.
  const BEFORE: Sys := Sys(map["web" := Row(1, "web", "", Running, "v1")], None, "")
  const CREATED: World := BEFORE.w["web-green" := Row(2, "web", "green", Created, "v2")]
  const HEALTHY: World := BEFORE.w["web-green" := Row(2, "web", "green", Running, "v2")]
  const EXAMPLE: Attempt := Attempt(
    Manifest("web", 1, true, "", 80, "v2"),
    [Container("web", Row(1, "web", "", Running, "v1")), Container("web-green", Row(2, "web", "green", Running, "v2"))],
    DeployEnv(Started(2, Created), [Observed(Running)], true, true, true, false, true, Failures({}, {})))

  lemma ExampleStarts()
    ensures Start(BEFORE, "web", EXAMPLE.m, EXAMPLE.env) == [CREATED, HEALTHY]
    ensures StartOk(BEFORE, "web", EXAMPLE.m, EXAMPLE.env)
  {
    assert SlotName("web", NextSlot("")) == "web-green";
    assert Create(BEFORE.w, SlotSpec("web", "green", "v2"), EXAMPLE.env.create) == CREATED;
    assert Progress(CREATED, "web-green", Running) == HEALTHY;
    assert AwaitTrace(CREATED, "web-green", EXAMPLE.env.polls) == [HEALTHY];
  }

  /** During this deploy the recorded slot is down at some step, although nothing goes wrong. */
  lemma RecordedSlotDown()
    ensures exists h :: h in Deploy(BEFORE, "web", EXAMPLE.m, EXAMPLE.l, EXAMPLE.env).trace && !Serving(h, "web")
  {
    ExampleStarts();
    assert IsListing(EXAMPLE.l, HEALTHY) by {
      assert EXAMPLE.l[0] in EXAMPLE.l && EXAMPLE.l[1] in EXAMPLE.l;
    }
    RecordedSlotServesIff(BEFORE, "web", EXAMPLE);
  }

  // ---- the deploy as it is carried out ----

  /** The service's row and route, next to the runtime. */
  class Deployer {
    const svc: string
    const rt: Runtime
    var route: Option<string>
    var slot: string
    /** Every state a deploy has passed through. */
    ghost var log: seq<Sys>

    constructor (svc: string, rt: Runtime, slot: string)
      requires rt.Valid()
      ensures Valid() && this.svc == svc && this.rt == rt && State() == Sys(rt.containers, None, slot)
    {
      this.svc, this.rt, this.slot, this.route := svc, rt, slot, None;
      this.log := [Sys(rt.containers, None, slot)];
    }

    ghost function State(): Sys
      reads this, rt
    {
      Sys(rt.containers, route, slot)
    }

    /** The log ends in the present state. */
    ghost predicate Valid()
      reads this, rt
    {
      rt.Valid() && log != [] && log[|log| - 1] == State()
    }

    method SelectOld(l: seq<Container>) returns (victims: seq<Container>)
      ensures victims == Victims(l, svc, slot)
    {
      victims := [];
      for i := 0 to |l|
        invariant victims == Victims(l[..i], svc, slot)
      {
        VictimsAppend(l[..i], l[i], svc, slot);
        assert l[..i + 1] == l[..i] + [l[i]];
        var isOld := l[i].name == SlotName(svc, slot) || (l[i].row.service == svc && l[i].row.slot == slot);
        if isOld {
          victims := victims + [l[i]];
        }
      }
      assert l[..|l|] == l;
    }

    method RemoveNew(name: string, env: DeployEnv)
      requires Valid()
      modifies this`log, rt
      ensures Valid()
      ensures log == old(log) + Worlds(old(State()), Rollback(old(rt.containers), name, env))
    {
      ghost var s0 := State();
      rt.StopContainer(ByName(name), env.stopNew);
      ghost var s1 := State();
      rt.DeleteContainer(ByName(name), env.deleteNew);
      log := log + [s1, State()];
      assert Worlds(s0, Rollback(s0.w, name, env)) == [s1, State()];
    }

    /** Create the new slot and wait for it. */
    method StartNew(m: Manifest, env: DeployEnv) returns (healthy: bool)
      requires Valid()
      modifies this`log, rt
      ensures Valid()
      ensures log == old(log) + Worlds(old(State()), Start(old(State()), svc, m, env))
      ensures State() == old(State()).(w := End(old(rt.containers), Start(old(State()), svc, m, env)))
      ensures healthy == StartOk(old(State()), svc, m, env)
    {
      ghost var s0, h0 := State(), rt.history;
      var spec := SlotSpec(svc, NextSlot(slot), m.image);
      healthy := rt.CreateContainer(spec, env.create);
      ghost var w1 := rt.containers;
      if healthy {
        healthy := WaitHealthy(rt, spec.name, env.polls);
      }
      ghost var start := Start(s0, svc, m, env);
      assert rt.history == h0 + start by {
        assert h0 + [w1] + AwaitTrace(w1, spec.name, env.polls) == h0 + ([w1] + AwaitTrace(w1, spec.name, env.polls));
      }
      EndIsLast(h0, start);
      WorldsMembers(s0, start);
      log := log + Worlds(s0, start);
    }

    method SwitchRoute(m: Manifest, name: string, env: DeployEnv) returns (switched: bool)
      requires Valid()
      modifies this`route, this`log
      ensures Valid()
      ensures log == old(log) + [Switch(old(State()), m, name, env)]
      ensures switched == Switched(m, env)
    {
      if m.domain != "" {
        if env.routeOk {
          route := Some(Upstream(name, m.port));
        } else if env.routeLost {
          route := None;
        }
      }
      log := log + [State()];
      switched := m.domain == "" || env.routeOk;
    }

    /** Sweep the old slot and record the new one. */
    method FinishDeploy(env: DeployEnv) returns (ghost l: seq<Container>)
      requires Valid()
      modifies this`log, this`slot, rt
      ensures Valid()
      ensures IsListing(l, old(rt.containers))
      ensures log == old(log) + Finish(old(State()), svc, l, env)
    {
      ghost var s0, h0 := State(), rt.history;
      var list := rt.ListContainers();
      l := list;
      ghost var swept := [];
      if env.sweepListOk {
        var victims := SelectOld(list);
        Sweep(rt, victims, env.failures);
        ghost var ws := SweepTrace(s0.w, victims, env.failures);
        EndIsLast(h0, ws);
        WorldsMembers(s0, ws);
        swept := Worlds(s0, ws);
      }
      assert State() == Last(s0, swept);
      slot := NextSlot(slot);
      log := log + (swept + [State()]);
    }

    /** Switch traffic and finish, or take the new slot down again. */
    method SwitchAndFinish(m: Manifest, env: DeployEnv) returns (ok: bool, ghost l: seq<Container>)
      requires Valid()
      modifies this, rt
      ensures Valid()
      ensures log == old(log) + SwitchOver(old(State()), svc, m, l, env)
      ensures ok == Switched(m, env)
      ensures ok ==> IsListing(l, old(rt.containers))
    {
      ghost var s0, log0 := State(), log;
      var name := SlotName(svc, NextSlot(slot));
      ok := SwitchRoute(m, name, env);
      ghost var s1 := State();
      l := [];
      ghost var after := if ok then [] else Worlds(s1, Rollback(s1.w, name, env));
      if ok {
        l := FinishDeploy(env);
        after := Finish(s1, svc, l, env);
      } else {
        RemoveNew(name, env);
      }
      SwitchJoined(log0, s0, svc, m, l, env, after);
    }

    /** The deploy passes through exactly the states the specification names. */
    method DeployNew(m: Manifest, env: DeployEnv) returns (ok: bool, ghost l: seq<Container>)
      requires Valid()
      modifies this, rt
      ensures Valid()
      ensures ok == Deploy(old(State()), svc, m, l, env).ok
      ensures log == old(log) + Deploy(old(State()), svc, m, l, env).trace
      ensures ok ==> IsListing(l, End(old(rt.containers), Start(old(State()), svc, m, env)))
    {
      ghost var s0, log0 := State(), log;
      l := [];
      ok := StartNew(m, env);
      ghost var s1 := State();
      ghost var after := [];
      if ok {
        ok, l := SwitchAndFinish(m, env);
        after := SwitchOver(s1, svc, m, l, env);
      } else if env.create.Started? {
        var name := SlotName(svc, NextSlot(slot));
        RemoveNew(name, env);
        after := Worlds(s1, Rollback(s1.w, name, env));
      }
      DeployJoined(log0, s0, svc, m, l, env, after);
    }
  }

  lemma SwitchJoined(log: seq<Sys>, s: Sys, svc: string, m: Manifest, l: seq<Container>, env: DeployEnv, after: seq<Sys>)
    requires var name := SlotName(svc, NextSlot(s.slot));
             var s1 := Switch(s, m, name, env);
             after == if Switched(m, env) then Finish(s1, svc, l, env) else Worlds(s1, Rollback(s1.w, name, env))
    ensures log + [Switch(s, m, SlotName(svc, NextSlot(s.slot)), env)] + after == log + SwitchOver(s, svc, m, l, env)
  {
    Associative(log, [Switch(s, m, SlotName(svc, NextSlot(s.slot)), env)], after);
  }

  lemma DeployParts(s: Sys, svc: string, m: Manifest, l: seq<Container>, env: DeployEnv)
    ensures var s1, d := s.(w := End(s.w, Start(s, svc, m, env))), Deploy(s, svc, m, l, env);
            && d.ok == (StartOk(s, svc, m, env) && Switched(m, env))
            && d.trace == Worlds(s, Start(s, svc, m, env)) +
                          if StartOk(s, svc, m, env) then SwitchOver(s1, svc, m, l, env)
                          else if env.create.Started? then Worlds(s1, Rollback(s1.w, SlotName(svc, NextSlot(s.slot)), env))
                          else []
  {
    var start: seq<Sys> := Worlds(s, Start(s, svc, m, env));
    assert start + [] == start;
  }

  lemma DeployJoined(log: seq<Sys>, s: Sys, svc: string, m: Manifest, l: seq<Container>, env: DeployEnv, after: seq<Sys>)
    requires var s1 := s.(w := End(s.w, Start(s, svc, m, env)));
             after == if StartOk(s, svc, m, env) then SwitchOver(s1, svc, m, l, env)
                      else if env.create.Started? then Worlds(s1, Rollback(s1.w, SlotName(svc, NextSlot(s.slot)), env))
                      else []
    ensures log + Worlds(s, Start(s, svc, m, env)) + after == log + Deploy(s, svc, m, l, env).trace
    ensures Deploy(s, svc, m, l, env).ok == (StartOk(s, svc, m, env) && Switched(m, env))
  {
    DeployParts(s, svc, m, l, env);
    Associative(log, Worlds(s, Start(s, svc, m, env)), after);
  }
}
