/** Rounds over many services: although one snapshot is taken for all of them, each service gets
    exactly the tick it would have got alone, in whatever order they come. */
module Rounds {
  import opened Wrappers
  import opened Naming
  import opened ContainerRuntime
  import opened Rollout
  import opened Reconciler
  import opened FreshIds
  import opened Isolation

  // ---- what a round needs ----

  ghost predicate NoCommonName(a: Service, b: Service) {
    forall n :: !(Generated(a.name, ManifestName(a), n) && Generated(b.name, ManifestName(b), n))
  }

  /** Service names differ, and so do all names that two services can generate. */
  ghost predicate NamesApart(services: seq<Service>) {
    forall i, j | 0 <= i < j < |services| ::
      services[i].name != services[j].name && NoCommonName(services[i], services[j])
  }

  /** Nobody else's container bears a name that the service can generate. */
  ghost predicate Unclaimed(w: World, svc: Service) {
    Apart(Foreign(w, svc.name), svc.name, ManifestName(svc))
  }

  /** Ids are unique at the start, names do not clash, and rows are as the control plane writes them. */
  ghost predicate Ready(w: World, services: seq<Service>) {
    && Wf(w) && NamesApart(services)
    && forall k | 0 <= k < |services| :: Unclaimed(w, services[k]) && KnownSlot(services[k])
  }

  /** Every id handed out during the k-th service's turn is unused when it is handed out. */
  ghost predicate UnusedAt(w: World, routes: map<string, string>, l: seq<Container>,
                           services: seq<Service>, envs: seq<TickEnv>, shown: seq<seq<Container>>, k: nat)
    requires k < |services| && k < |envs| && k < |shown|
  {
    Eligible(services[k]) ==>
      IdsUnused(RoundUpTo(w, routes, l, services, envs, shown, k).w, services[k], GroupOf(l, services[k].name), envs[k], shown[k])
  }

  /** The daemon is honest: listings are true when they are taken, and ids unused when handed out. */
  ghost predicate Honest(w: World, routes: map<string, string>, l: seq<Container>,
                         services: seq<Service>, envs: seq<TickEnv>, shown: seq<seq<Container>>) {
    && |envs| == |services| == |shown| && IsListing(l, w)
    && TruthfulRound(w, routes, l, services, envs, shown)
    && forall k | 0 <= k < |services| :: UnusedAt(w, routes, l, services, envs, shown, k)
  }

  // ---- one turn ----

  /** All a tick needs to act on its own service only. */
  ghost predicate TurnReady(w: World, routes: map<string, string>, l: seq<Container>, s: Service, env: TickEnv, shown: seq<Container>) {
    && Wf(w) && Unclaimed(w, s) && KnownSlot(s) && OwnRows(GroupOf(l, s.name), w, s.name)
    && ShownTruly(w, s, RouteIn(routes, s.name), GroupOf(l, s.name), env, shown)
    && IdsUnused(w, s, GroupOf(l, s.name), env, shown)
  }

  /** The tick of a service on a table with its own containers only, shown only these. */
  function OwnTick(w: World, routes: map<string, string>, l: seq<Container>, s: Service, env: TickEnv, shown: seq<Container>): Tick {
    TickService(Mine(w, s.name), s, RouteIn(routes, s.name), GroupOf(l, s.name), env, Labelled(shown, s.name))
  }

  /** The table and the routes are, for this label, as they were. */
  ghost predicate Undisturbed(w0: World, routes0: map<string, string>, w: World, routes: map<string, string>, tag: string) {
    Mine(w, tag) == Mine(w0, tag) && RouteIn(routes, tag) == RouteIn(routes0, tag)
  }

  /** What is left behind for the service is what the tick left. */
  ghost predicate Left(w: World, routes: map<string, string>, row: Service, name: string, t: Tick) {
    Mine(w, name) == t.w && RouteIn(routes, name) == t.route && row == t.svc
  }

  /** A turn has had the effect of this tick on its own service, and no other. */
  ghost predicate Acted(p: Plane, q: Plane, s: Service, t: Tick) {
    && Wf(q.w) && |q.rows| == 1
    && if Eligible(s) then
         && Left(q.w, q.routes, q.rows[0], s.name, t)
         && Foreign(q.w, s.name) == Foreign(p.w, s.name)
         && (forall tag | tag != s.name :: Undisturbed(p.w, p.routes, q.w, q.routes, tag))
         && AllOwn(t.w, s.name, ManifestName(s), Own(p.w, s.name))
       else q == Plane(p.w, p.routes, [s])
  }

  lemma MineOfForeign(w: World, w': World, a: string, b: string)
    requires a != b && Foreign(w', a) == Foreign(w, a)
    ensures Mine(w', b) == Mine(w, b)
  {
    assert Mine(Foreign(w, a), b) == Mine(w, b) && Mine(Foreign(w', a), b) == Mine(w', b);
  }

  lemma TurnActs(p: Plane, l: seq<Container>, s: Service, env: TickEnv, shown: seq<Container>)
    requires Wf(p.w) && (Eligible(s) ==> TurnReady(p.w, p.routes, l, s, env, shown))
    ensures Acted(p, Turn(p.w, p.routes, l, s, env, shown), s, OwnTick(p.w, p.routes, l, s, env, shown))
  {
    if Eligible(s) {
      var q := Turn(p.w, p.routes, l, s, env, shown);
      TickIsolated(p.w, s, RouteIn(p.routes, s.name), GroupOf(l, s.name), env, shown);
      forall tag | tag != s.name
        ensures Undisturbed(p.w, p.routes, q.w, q.routes, tag)
      {
        MineOfForeign(p.w, q.w, s.name, tag);
      }
    }
  }

  /** The same service, or one it shares no name with. */
  ghost predicate SameOrApart(s: Service, b: Service) {
    if s.name == b.name then ManifestName(s) == ManifestName(b) else NoCommonName(s, b)
  }

  /** A turn leaves every service as unclaimed as it was. */
  lemma TurnKeepsUnclaimed(p: Plane, q: Plane, s: Service, t: Tick, b: Service)
    requires Acted(p, q, s, t) && Unclaimed(p.w, b) && SameOrApart(s, b)
    ensures Unclaimed(q.w, b)
  {
    if Eligible(s) && s.name != b.name {
      forall n | n in Foreign(q.w, b.name)
        ensures !Generated(b.name, ManifestName(b), n)
      {
        if q.w[n].service == s.name {
          assert n in Mine(q.w, s.name);
          assert n in Own(p.w, s.name) ==> n in Foreign(p.w, b.name);
        } else {
          assert n in Foreign(q.w, s.name) && n in Foreign(p.w, s.name) && n in Foreign(p.w, b.name);
        }
      }
    }
  }

  // ---- after some turns ----

  /** None of the first k services that are ticked has this name. */
  predicate Untouched(services: seq<Service>, k: nat, tag: string)
    requires k <= |services|
  {
    forall j | 0 <= j < k :: Eligible(services[j]) ==> services[j].name != tag
  }

  /** The j-th service has had its tick, or was passed over. */
  ghost predicate Done(p: Plane, s: Service, j: nat, t: Tick) {
    j < |p.rows| && if Eligible(s) then Left(p.w, p.routes, p.rows[j], s.name, t) else p.rows[j] == s
  }

  /** After the first k services: each of them has had its tick, and nothing else has happened. */
  ghost predicate Progressed(w0: World, routes0: map<string, string>, services: seq<Service>, ticks: seq<Tick>, k: nat, p: Plane) {
    && k <= |services| == |ticks| && |p.rows| == k
    && (forall tag | Untouched(services, k, tag) :: Undisturbed(w0, routes0, p.w, p.routes, tag))
    && (forall j | 0 <= j < k :: Done(p, services[j], j, ticks[j]))
  }

  ghost predicate AllUnclaimed(w: World, services: seq<Service>) {
    forall j | 0 <= j < |services| :: Unclaimed(w, services[j])
  }

  lemma StillUnclaimed(services: seq<Service>, k: nat, p: Plane, q: Plane, t: Tick)
    requires NamesApart(services) && AllUnclaimed(p.w, services) && k < |services| && Acted(p, q, services[k], t)
    ensures AllUnclaimed(q.w, services)
  {
    forall j | 0 <= j < |services|
      ensures Unclaimed(q.w, services[j])
    {
      TurnKeepsUnclaimed(p, q, services[k], t, services[j]);
    }
  }

  lemma OneMoreDone(w0: World, routes0: map<string, string>, services: seq<Service>, ticks: seq<Tick>, k: nat, p: Plane, q: Plane)
    requires NamesApart(services) && Progressed(w0, routes0, services, ticks, k, p)
    requires k < |services| && Acted(p, q, services[k], ticks[k])
    ensures Progressed(w0, routes0, services, ticks, k + 1, Plane(q.w, q.routes, p.rows + q.rows))
  {
    var p', s := Plane(q.w, q.routes, p.rows + q.rows), services[k];
    forall tag | Untouched(services, k + 1, tag)
      ensures Undisturbed(w0, routes0, p'.w, p'.routes, tag)
    {
      assert Untouched(services, k, tag) && (Eligible(s) ==> s.name != tag);
      TurnSpares(p, q, s, ticks[k], tag);
    }
    forall j | 0 <= j < k + 1
      ensures Done(p', services[j], j, ticks[j])
    {
      if j < k {
        StaysDone(p, q, s, ticks[k], services[j], j, ticks[j]);
      }
    }
  }

  lemma TurnSpares(p: Plane, q: Plane, s: Service, t: Tick, tag: string)
    requires Acted(p, q, s, t) && (Eligible(s) ==> s.name != tag)
    ensures Undisturbed(p.w, p.routes, q.w, q.routes, tag)
  {
  }

  lemma StaysDone(p: Plane, q: Plane, s: Service, t: Tick, b: Service, j: nat, u: Tick)
    requires Acted(p, q, s, t) && Done(p, b, j, u) && s.name != b.name
    ensures Done(Plane(q.w, q.routes, p.rows + q.rows), b, j, u)
  {
    assert (p.rows + q.rows)[j] == p.rows[j];
    assert Eligible(s) ==> Undisturbed(p.w, p.routes, q.w, q.routes, b.name);
  }

  /** The ticks of all services, each on the table at the start of the round. */
  ghost function OwnTicks(w: World, routes: map<string, string>, l: seq<Container>,
                          services: seq<Service>, envs: seq<TickEnv>, shown: seq<seq<Container>>): seq<Tick>
    requires |envs| == |services| == |shown|
  {
    seq(|services|, j requires 0 <= j < |services| => OwnTick(w, routes, l, services[j], envs[j], shown[j]))
  }

  /** A container of the service in the snapshot is one at its turn. */
  lemma SnapshotShowsOwn(w0: World, l: seq<Container>, w: World, svc: string)
    requires IsListing(l, w0) && Mine(w, svc) == Mine(w0, svc)
    ensures OwnRows(GroupOf(l, svc), w, svc)
  {
    forall c | c in GroupOf(l, svc)
      ensures c.name in Mine(w, svc) && w[c.name] == c.row
    {
      LabelledMembers(l, svc);
      var i :| 0 <= i < |l| && l[i] == c;
      assert Mine(w0, svc)[c.name] == Mine(w, svc)[c.name];
    }
  }

  lemma NotYetTouched(services: seq<Service>, k: nat)
    requires NamesApart(services) && k < |services|
    ensures Untouched(services, k, services[k].name)
  {
  }

  /** At its turn each service finds what it had at the start of the round. */
  lemma ReadyAt(w: World, routes: map<string, string>, l: seq<Container>, services: seq<Service>,
                envs: seq<TickEnv>, shown: seq<seq<Container>>, ticks: seq<Tick>, k: nat, p: Plane)
    requires Ready(w, services) && Honest(w, routes, l, services, envs, shown) && k < |services|
    requires p == RoundUpTo(w, routes, l, services, envs, shown, k) && Progressed(w, routes, services, ticks, k, p) && Wf(p.w) && AllUnclaimed(p.w, services)
    ensures Undisturbed(w, routes, p.w, p.routes, services[k].name)
    ensures Eligible(services[k]) ==> TurnReady(p.w, p.routes, l, services[k], envs[k], shown[k])
  {
    NotYetTouched(services, k);
    SnapshotShowsOwn(w, l, p.w, services[k].name);
    assert TruthfulAt(w, routes, l, services, envs, shown, k);
    assert UnusedAt(w, routes, l, services, envs, shown, k);
  }

  /** The k-th turn has the effect of a tick on the service's containers at the start of the round. */
  lemma TurnAt(w: World, routes: map<string, string>, l: seq<Container>, services: seq<Service>,
               envs: seq<TickEnv>, shown: seq<seq<Container>>, ticks: seq<Tick>, k: nat, p: Plane) returns (q: Plane)
    requires Ready(w, services) && Honest(w, routes, l, services, envs, shown) && k < |services|
    requires p == RoundUpTo(w, routes, l, services, envs, shown, k)
    requires Progressed(w, routes, services, ticks, k, p) && Wf(p.w) && AllUnclaimed(p.w, services)
    requires ticks == OwnTicks(w, routes, l, services, envs, shown)
    ensures RoundUpTo(w, routes, l, services, envs, shown, k + 1) == Plane(q.w, q.routes, p.rows + q.rows)
    ensures Acted(p, q, services[k], ticks[k])
  {
    ReadyAt(w, routes, l, services, envs, shown, ticks, k, p);
    q := Turn(p.w, p.routes, l, services[k], envs[k], shown[k]);
    TurnActs(p, l, services[k], envs[k], shown[k]);
    assert OwnTick(p.w, p.routes, l, services[k], envs[k], shown[k]) == ticks[k];
  }

  /** Where a round stands after the first k services. */
  ghost predicate Stands(w: World, routes: map<string, string>, l: seq<Container>,
                         services: seq<Service>, envs: seq<TickEnv>, shown: seq<seq<Container>>, k: nat, p: Plane)
    requires |envs| == |services| == |shown| && k <= |services|
  {
    && p == RoundUpTo(w, routes, l, services, envs, shown, k)
    && Wf(p.w) && AllUnclaimed(p.w, services)
    && Progressed(w, routes, services, OwnTicks(w, routes, l, services, envs, shown), k, p)
  }

  lemma StandsNext(w: World, routes: map<string, string>, l: seq<Container>, services: seq<Service>,
                   envs: seq<TickEnv>, shown: seq<seq<Container>>, k: nat, p: Plane) returns (p': Plane)
    requires Ready(w, services) && Honest(w, routes, l, services, envs, shown) && 0 < k <= |services|
    requires Stands(w, routes, l, services, envs, shown, k - 1, p)
    ensures Stands(w, routes, l, services, envs, shown, k, p')
  {
    var ticks := OwnTicks(w, routes, l, services, envs, shown);
    var q := TurnAt(w, routes, l, services, envs, shown, ticks, k - 1, p);
    StillUnclaimed(services, k - 1, p, q, ticks[k - 1]);
    OneMoreDone(w, routes, services, ticks, k - 1, p, q);
    p' := Plane(q.w, q.routes, p.rows + q.rows);
  }

  lemma {:induction false} After(w: World, routes: map<string, string>, l: seq<Container>,
                                services: seq<Service>, envs: seq<TickEnv>, shown: seq<seq<Container>>, k: nat) returns (p: Plane)
    requires Ready(w, services) && Honest(w, routes, l, services, envs, shown) && k <= |services|
    ensures Stands(w, routes, l, services, envs, shown, k, p)
  {
    if k == 0 {
      p := Plane(w, routes, []);
    } else {
      var before := After(w, routes, l, services, envs, shown, k - 1);
      p := StandsNext(w, routes, l, services, envs, shown, k, before);
    }
  }

  // ---- what a round does ----

  /** A round leaves containers and routes alone whose label is not that of a ticked service, keeps ids
      unique, and lays no claim to foreign names. */
  lemma RoundSpares(w: World, routes: map<string, string>, l: seq<Container>,
                    services: seq<Service>, envs: seq<TickEnv>, shown: seq<seq<Container>>, tag: string)
    requires Ready(w, services) && Honest(w, routes, l, services, envs, shown)
    requires Untouched(services, |services|, tag)
    ensures var p := Round(w, routes, l, services, envs, shown);
            && Undisturbed(w, routes, p.w, p.routes, tag)
            && Wf(p.w) && forall k | 0 <= k < |services| :: Unclaimed(p.w, services[k])
  {
    var p := After(w, routes, l, services, envs, shown, |services|);
  }

  /** A round does to each service what a tick does on a table with its own containers only, except that it passes
      over services that are halted, being deployed, or on a remote worker: these keep their row, their route and
      every container of their label. */
  lemma RoundActsOnOwn(w: World, routes: map<string, string>, l: seq<Container>,
                       services: seq<Service>, envs: seq<TickEnv>, shown: seq<seq<Container>>, k: nat)
    requires Ready(w, services) && Honest(w, routes, l, services, envs, shown) && k < |services|
    ensures var p, s := Round(w, routes, l, services, envs, shown), services[k];
            var t := TickService(Mine(w, s.name), s, RouteIn(routes, s.name), GroupOf(l, s.name), envs[k], Labelled(shown[k], s.name));
            && |p.rows| == |services|
            && if s.status == Halted || s.status == Deploying || s.worker != "" then
                 p.rows[k] == s && Mine(p.w, s.name) == Mine(w, s.name) && RouteIn(p.routes, s.name) == RouteIn(routes, s.name)
               else
                 p.rows[k] == t.svc && Mine(p.w, s.name) == t.w && RouteIn(p.routes, s.name) == t.route
  {
    var p := After(w, routes, l, services, envs, shown, |services|);
    var ticks := OwnTicks(w, routes, l, services, envs, shown);
    assert Done(p, services[k], k, ticks[k]);
    if !Eligible(services[k]) {
      PassedOverIsUntouched(services, k);
    }
  }

  lemma PassedOverIsUntouched(services: seq<Service>, k: nat)
    requires NamesApart(services) && k < |services| && !Eligible(services[k])
    ensures Untouched(services, |services|, services[k].name)
  {
  }

  /** A round, with its one snapshot, does to each service exactly what a tick of that service alone, on
      the table as it was when the snapshot was taken, does: same containers, same row, same route. The
      tick alone takes a true listing of that table, which has the service's containers in the order
      in which the round's listing had them. */
  lemma RoundActsAlone(w: World, routes: map<string, string>, l: seq<Container>, services: seq<Service>,
                       envs: seq<TickEnv>, shown: seq<seq<Container>>, k: nat, alone: seq<Container>)
    requires Ready(w, services) && Honest(w, routes, l, services, envs, shown) && k < |services|
    requires services[k].status != Halted && services[k].status != Deploying && services[k].worker == ""
    requires ShownTruly(w, services[k], RouteIn(routes, services[k].name), GroupOf(l, services[k].name), envs[k], alone)
    requires IdsUnused(w, services[k], GroupOf(l, services[k].name), envs[k], alone)
    requires Labelled(alone, services[k].name) == Labelled(shown[k], services[k].name)
    ensures var p, t := Round(w, routes, l, services, envs, shown), Alone(w, routes, l, services[k], envs[k], alone);
            && |p.rows| == |services| && p.rows[k] == t.svc
            && Mine(p.w, services[k].name) == Mine(t.w, services[k].name) && RouteIn(p.routes, services[k].name) == t.route
  {
    RoundActsOnOwn(w, routes, l, services, envs, shown, k);
    SnapshotShowsOwn(w, l, w, services[k].name);
    AloneActs(w, routes, l, services[k], envs[k], alone);
  }

  lemma AloneActs(w: World, routes: map<string, string>, l: seq<Container>, s: Service, env: TickEnv, shown: seq<Container>)
    requires TurnReady(w, routes, l, s, env, shown)
    ensures var t, own := Alone(w, routes, l, s, env, shown), OwnTick(w, routes, l, s, env, shown);
            Mine(t.w, s.name) == own.w && t.svc == own.svc && t.route == own.route
  {
    TickIsolated(w, s, RouteIn(routes, s.name), GroupOf(l, s.name), env, shown);
  }

  /** There is such a listing: the containers of a service can be listed in the same order in every
      table that has them. */
  lemma ListedAlike(w: World, w': World, l: seq<Container>, svc: string) returns (l': seq<Container>)
    requires IsListing(l, w) && Mine(w, svc) == Mine(w', svc)
    ensures IsListing(l', w') && Labelled(l', svc) == Labelled(l, svc)
  {
    var own := Labelled(l, svc);
    var others := SomeListing(Foreign(w', svc));
    LabelledIsListing(l, w, svc);
    LabelledTwice(l, svc);
    ForeignUnlabelled(others, w', svc);
    LabelledConcat(own, others, svc);
    l' := own + others;
    JoinedListing(own, Mine(w, svc), others, Foreign(w', svc));
    TwoParts(w', svc);
    assert own + [] == own;
  }

  lemma TwoParts(w: World, svc: string)
    ensures Mine(w, svc) + Foreign(w, svc) == w
  {
  }

  lemma ForeignUnlabelled(l: seq<Container>, w: World, svc: string)
    requires IsListing(l, Foreign(w, svc))
    ensures Labelled(l, svc) == []
  {
    forall c | c in l
      ensures c.row.service != svc
    {
      var i :| 0 <= i < |l| && l[i] == c;
      assert Foreign(w, svc)[l[i].name] == c.row;
    }
    NoneLabelled(l, svc);
  }

  lemma JoinedListing(a: seq<Container>, v: World, b: seq<Container>, w: World)
    requires IsListing(a, v) && IsListing(b, w) && v.Keys !! w.Keys
    ensures IsListing(a + b, v + w)
  {
  }

  lemma SomeListing(w: World) returns (l: seq<Container>)
    ensures IsListing(l, w)
    decreases w.Keys
  {
    if w == map[] {
      l := [];
    } else {
      var n :| n in w;
      var rest := SomeListing(w - {n});
      l := rest + [Container(n, w[n])];
      OneListed(n, w[n]);
      JoinedListing(rest, w - {n}, [Container(n, w[n])], map[n := w[n]]);
      assert (w - {n}) + map[n := w[n]] == w;
    }
  }

  lemma OneListed(n: string, row: Row)
    ensures IsListing([Container(n, row)], map[n := row])
  {
  }

  lemma {:induction false} NoneLabelled(l: seq<Container>, svc: string)
    requires forall c | c in l :: c.row.service != svc
    ensures Labelled(l, svc) == []
  {
    if l != [] {
      assert l[0] in l;
      NoneLabelled(l[1..], svc);
    }
  }

  lemma {:induction false} LabelledConcat(a: seq<Container>, b: seq<Container>, svc: string)
    ensures Labelled(a + b, svc) == Labelled(a, svc) + Labelled(b, svc)
  {
    if a == [] {
      assert a + b == b;
    } else {
      LabelledConcat(a[1..], b, svc);
      assert (a + b)[1..] == a[1..] + b;
      Associative(if a[0].row.service == svc then [a[0]] else [], Labelled(a[1..], svc), Labelled(b, svc));
    }
  }

  // ---- the order of the services ----

  ghost predicate SameAnswers(s: Service, env: TickEnv, shown: seq<Container>, s': Service, env': TickEnv, shown': seq<Container>) {
    s' == s && env' == env && Labelled(shown', s.name) == Labelled(shown, s.name)
  }

  /** The second order has every service of the first, with the same answers and its own containers
      listed in the same order; of the other containers nothing is said. */
  ghost predicate Covers(services: seq<Service>, envs: seq<TickEnv>, shown: seq<seq<Container>>,
                         services': seq<Service>, envs': seq<TickEnv>, shown': seq<seq<Container>>)
    requires |envs| == |services| == |shown| && |envs'| == |services'| == |shown'|
  {
    forall k | 0 <= k < |services| :: exists j | 0 <= j < |services'| :: SameAnswers(services[k], envs[k], shown[k], services'[j], envs'[j], shown'[j])
  }

  /** The same plane for a label: its containers and its route. */
  ghost predicate SameFor(p: Plane, p': Plane, tag: string) {
    Mine(p.w, tag) == Mine(p'.w, tag) && RouteIn(p.routes, tag) == RouteIn(p'.routes, tag)
  }

  /** The k-th service of the first order is one of the second, with the same tick. */
  ghost predicate HasTwin(services: seq<Service>, ticks: seq<Tick>, services': seq<Service>, ticks': seq<Tick>, k: nat)
    requires k < |services| == |ticks| && |services'| == |ticks'|
  {
    exists j | 0 <= j < |services'| :: services'[j] == services[k] && ticks'[j] == ticks[k]
  }

  ghost predicate Matched(services: seq<Service>, ticks: seq<Tick>, services': seq<Service>, ticks': seq<Tick>)
    requires |services| == |ticks| && |services'| == |ticks'|
  {
    forall k | 0 <= k < |services| :: HasTwin(services, ticks, services', ticks', k)
  }

  lemma CoversMatches(w: World, routes: map<string, string>, l: seq<Container>,
                      services: seq<Service>, envs: seq<TickEnv>, shown: seq<seq<Container>>,
                      services': seq<Service>, envs': seq<TickEnv>, shown': seq<seq<Container>>)
    requires |envs| == |services| == |shown| && |envs'| == |services'| == |shown'|
    requires Covers(services, envs, shown, services', envs', shown')
    ensures Matched(services, OwnTicks(w, routes, l, services, envs, shown), services', OwnTicks(w, routes, l, services', envs', shown'))
  {
    var ticks, ticks' := OwnTicks(w, routes, l, services, envs, shown), OwnTicks(w, routes, l, services', envs', shown');
    forall k | 0 <= k < |services|
      ensures HasTwin(services, ticks, services', ticks', k)
    {
      var j :| 0 <= j < |services'| && SameAnswers(services[k], envs[k], shown[k], services'[j], envs'[j], shown'[j]);
      assert services'[j] == services[k] && ticks'[j] == ticks[k];
    }
  }

  /** Two complete rounds with the same ticks in different orders. */
  lemma SameForLabel(w: World, routes: map<string, string>, services: seq<Service>, ticks: seq<Tick>, p: Plane,
                     services': seq<Service>, ticks': seq<Tick>, p': Plane, tag: string)
    requires Progressed(w, routes, services, ticks, |services|, p) && Progressed(w, routes, services', ticks', |services'|, p')
    requires Matched(services, ticks, services', ticks') && Matched(services', ticks', services, ticks)
    ensures SameFor(p, p', tag)
  {
    if k :| 0 <= k < |services| && services[k].name == tag && Eligible(services[k]) {
      assert HasTwin(services, ticks, services', ticks', k);
      var j :| 0 <= j < |services'| && services'[j] == services[k] && ticks'[j] == ticks[k];
      assert Done(p, services[k], k, ticks[k]) && Done(p', services'[j], j, ticks'[j]);
    } else {
      assert Untouched(services, |services|, tag);
      forall j | 0 <= j < |services'| && Eligible(services'[j])
        ensures services'[j].name != tag
      {
        assert HasTwin(services', ticks', services, ticks, j);
      }
      assert Untouched(services', |services'|, tag);
      assert Undisturbed(w, routes, p.w, p.routes, tag) && Undisturbed(w, routes, p'.w, p'.routes, tag);
    }
  }

  /** The row of the k-th service is also left by the other order. */
  ghost predicate RowKept(services: seq<Service>, p: Plane, services': seq<Service>, p': Plane, k: nat)
    requires k < |services| == |p.rows| && |services'| == |p'.rows|
  {
    exists j | 0 <= j < |services'| :: services'[j] == services[k] && p'.rows[j] == p.rows[k]
  }

  lemma SameRow(w: World, routes: map<string, string>, services: seq<Service>, ticks: seq<Tick>, p: Plane,
                services': seq<Service>, ticks': seq<Tick>, p': Plane, k: nat)
    requires Progressed(w, routes, services, ticks, |services|, p) && Progressed(w, routes, services', ticks', |services'|, p')
    requires Matched(services, ticks, services', ticks') && k < |services|
    ensures RowKept(services, p, services', p', k)
  {
    assert HasTwin(services, ticks, services', ticks', k);
    var j :| 0 <= j < |services'| && services'[j] == services[k] && ticks'[j] == ticks[k];
    assert Done(p, services[k], k, ticks[k]) && Done(p', services'[j], j, ticks'[j]);
    assert services'[j] == services[k] && p'.rows[j] == p.rows[k];
  }

  lemma SameByLabels(p: Plane, p': Plane)
    requires forall tag :: SameFor(p, p', tag)
    ensures p.w == p'.w && p.routes == p'.routes
  {
    forall n
      ensures n in p.w <==> n in p'.w
      ensures n in p.w ==> p.w[n] == p'.w[n]
    {
      if n in p.w {
        assert SameFor(p, p', p.w[n].service) && n in Mine(p.w, p.w[n].service);
      }
      if n in p'.w {
        assert SameFor(p, p', p'.w[n].service) && n in Mine(p'.w, p'.w[n].service);
      }
    }
    forall s
      ensures s in p.routes <==> s in p'.routes
      ensures s in p.routes ==> p.routes[s] == p'.routes[s]
    {
      assert SameFor(p, p', s);
    }
  }

  /** The same table, the same routes, and for each service the same row. */
  ghost predicate SamePlane(services: seq<Service>, p: Plane, services': seq<Service>, p': Plane) {
    && p.w == p'.w && p.routes == p'.routes && |p.rows| == |services| && |p'.rows| == |services'|
    && forall k | 0 <= k < |services| :: RowKept(services, p, services', p', k)
  }

  lemma SameTicksSamePlane(w: World, routes: map<string, string>, services: seq<Service>, ticks: seq<Tick>, p: Plane,
                           services': seq<Service>, ticks': seq<Tick>, p': Plane)
    requires Progressed(w, routes, services, ticks, |services|, p) && Progressed(w, routes, services', ticks', |services'|, p')
    requires Matched(services, ticks, services', ticks') && Matched(services', ticks', services, ticks)
    ensures SamePlane(services, p, services', p')
  {
    forall tag
      ensures SameFor(p, p', tag)
    {
      SameForLabel(w, routes, services, ticks, p, services', ticks', p', tag);
    }
    SameByLabels(p, p');
    forall k | 0 <= k < |services|
      ensures RowKept(services, p, services', p', k)
    {
      SameRow(w, routes, services, ticks, p, services', ticks', p', k);
    }
  }

  /** The order in which a round takes the services does not matter: with true listings in both, any two
      orders leave the same table, the same routes, and for each service the same row. */
  lemma OrderIrrelevant(w: World, routes: map<string, string>, l: seq<Container>,
                        services: seq<Service>, envs: seq<TickEnv>, shown: seq<seq<Container>>,
                        services': seq<Service>, envs': seq<TickEnv>, shown': seq<seq<Container>>)
    requires Ready(w, services) && Honest(w, routes, l, services, envs, shown)
    requires Ready(w, services') && Honest(w, routes, l, services', envs', shown')
    requires Covers(services, envs, shown, services', envs', shown') && Covers(services', envs', shown', services, envs, shown)
    ensures SamePlane(services, Round(w, routes, l, services, envs, shown), services', Round(w, routes, l, services', envs', shown'))
  {
    var p := After(w, routes, l, services, envs, shown, |services|);
    var p' := After(w, routes, l, services', envs', shown', |services'|);
    CoversMatches(w, routes, l, services, envs, shown, services', envs', shown');
    CoversMatches(w, routes, l, services', envs', shown', services, envs, shown);
    SameTicksSamePlane(w, routes, services, OwnTicks(w, routes, l, services, envs, shown), p,
                       services', OwnTicks(w, routes, l, services', envs', shown'), p');
  }
}
