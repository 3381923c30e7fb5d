/** The container runtime as the control plane sees it: a table of uniquely named
    containers that is read as a list and changed by create, stop and delete calls.
    What the daemon answers is part of each call's input. */
module ContainerRuntime {

  datatype Status = Running | Stopped | Paused | Exited | Dead | Restarting | Created | Unknown

  /** What the table holds about a container, with the two labels the control loop reads;
      a missing label is "". */
  datatype Row = Row(id: nat, service: string, slot: string, status: Status, image: string)

  /** The daemon keeps container names unique, so the table is keyed by name. */
  type World = map<string, Row>

  /** A container as a listing shows it. */
  datatype Container = Container(name: string, row: Row)

  /** What a create call asks for. */
  datatype ContainerSpec = ContainerSpec(name: string, service: string, slot: string, image: string)

  /** A container is addressed by its id or by its name. */
  datatype Ref = ById(id: nat) | ByName(name: string)

  /** How a create call ends. Before creating, a container of the same name is removed;
      the error of that removal is ignored, and only shows as a later name conflict. */
  datatype CreateOutcome =
    | PullFailed
    | CreateFailed(oldRemoved: bool)
    | StartFailed(id: nat)
    | Started(id: nat, status: Status)

  /** States that self-healing replaces. */
  predicate NeedsRestart(s: Status) {
    s.Exited? || s.Dead? || s.Stopped?
  }

  /** Stopping has an effect on containers that have a live process. */
  predicate Live(s: Status) {
    s.Running? || s.Paused? || s.Restarting?
  }

  /** No two containers share an id. */
  ghost predicate Wf(w: World) {
    forall n, m | n in w && m in w && w[n].id == w[m].id :: n == m
  }

  ghost predicate FreshId(w: World, id: nat) {
    forall n | n in w :: w[n].id != id
  }

  /** The id a create call hands out, if it gets that far, is not in use. */
  ghost predicate Fresh(w: World, o: CreateOutcome) {
    o.StartFailed? || o.Started? ==> FreshId(w, o.id)
  }

  predicate Matches(r: Ref, name: string, row: Row) {
    match r
    case ById(id) => row.id == id
    case ByName(n) => name == n
  }

  function FromSpec(spec: ContainerSpec, id: nat, status: Status): Row {
    Row(id, spec.service, spec.slot, status, spec.image)
  }

  function Create(w: World, spec: ContainerSpec, o: CreateOutcome): World {
    match o
    case PullFailed => w
    case CreateFailed(oldRemoved) => if oldRemoved then w - {spec.name} else w
    case StartFailed(id) => w[spec.name := FromSpec(spec, id, Created)]
    case Started(id, status) => w[spec.name := FromSpec(spec, id, status)]
  }

  function Stop(w: World, r: Ref, ok: bool): World {
    map n | n in w :: if ok && Matches(r, n, w[n]) && Live(w[n].status) then w[n].(status := Exited) else w[n]
  }

  function Delete(w: World, r: Ref, ok: bool): World {
    map n | n in w && !(ok && Matches(r, n, w[n])) :: w[n]
  }

  /** A started process reports a new state; nothing else in the table moves. */
  function Progress(w: World, name: string, status: Status): World {
    if name in w then w[name := w[name].(status := status)] else w
  }

  /** A daemon keeps ids unique when those it hands out are unused. */
  lemma CreateKeepsWf(w: World, spec: ContainerSpec, o: CreateOutcome)
    requires Wf(w) && Fresh(w, o)
    ensures Wf(Create(w, spec, o))
  {
  }

  lemma RemovalKeepsWf(w: World, r: Ref, ok: bool)
    requires Wf(w)
    ensures Wf(Stop(w, r, ok))
    ensures Wf(Delete(w, r, ok))
  {
  }

  // ---- listings ----

  /** A listing shows every container once, in an order the daemon chooses. */
  ghost predicate IsListing(l: seq<Container>, w: World) {
    && (forall i | 0 <= i < |l| :: l[i].name in w && w[l[i].name] == l[i].row)
    && (forall i, j | 0 <= i < j < |l| :: l[i].name != l[j].name)
    && (forall n | n in w :: Container(n, w[n]) in l)
  }

  /** What a listing shows that does not ask for containers without a process. */
  function LiveOnly(w: World): World {
    map n | n in w && Live(w[n].status) :: w[n]
  }

  /** Containers that carry the label of a service. */
  function Own(w: World, svc: string): set<string> {
    set n | n in w && w[n].service == svc
  }

  /** Its running containers. */
  function RunningOf(w: World, svc: string): set<string> {
    set n | n in w && w[n].service == svc && w[n].status == Running
  }

  /** The part of the table that carries the label of a service, and the rest. */
  function Mine(w: World, svc: string): World {
    map n | n in w && w[n].service == svc :: w[n]
  }

  function Foreign(w: World, svc: string): World {
    map n | n in w && w[n].service != svc :: w[n]
  }

  /** Entries of a listing that carry the label, in listing order. */
  function Labelled(l: seq<Container>, svc: string): seq<Container> {
    if l == [] then []
    else (if l[0].row.service == svc then [l[0]] else []) + Labelled(l[1..], svc)
  }

  function CountRunning(l: seq<Container>): nat {
    if l == [] then 0 else (if l[0].row.status == Running then 1 else 0) + CountRunning(l[1..])
  }

  lemma {:induction false} LabelledMembers(l: seq<Container>, svc: string)
    ensures forall c :: c in Labelled(l, svc) <==> c in l && c.row.service == svc
  {
    if l != [] {
      LabelledMembers(l[1..], svc);
    }
  }

  lemma {:induction false} LabelledDistinct(l: seq<Container>, svc: string)
    requires forall i, j | 0 <= i < j < |l| :: l[i].name != l[j].name
    ensures forall i, j | 0 <= i < j < |Labelled(l, svc)| :: Labelled(l, svc)[i].name != Labelled(l, svc)[j].name
  {
    if l != [] {
      LabelledDistinct(l[1..], svc);
      var rest := Labelled(l[1..], svc);
      LabelledMembers(l[1..], svc);
      forall j | 0 <= j < |rest|
        ensures rest[j].name != l[0].name
      {
        assert rest[j] in rest;
        var k :| 0 <= k < |l[1..]| && l[1..][k] == rest[j];
        assert l[k + 1] == rest[j];
      }
    }
  }

  lemma Associative<T>(a: seq<T>, b: seq<T>, c: seq<T>)
    ensures a + b + c == a + (b + c)
  {
  }

  lemma {:induction false} LabelledAppend(l: seq<Container>, c: Container, svc: string)
    ensures Labelled(l + [c], svc) == Labelled(l, svc) + if c.row.service == svc then [c] else []
  {
    if l == [] {
      assert l + [c] == [c] && [c][1..] == [];
    } else {
      LabelledAppend(l[1..], c, svc);
      assert (l + [c])[1..] == l[1..] + [c];
      Associative(if l[0].row.service == svc then [l[0]] else [], Labelled(l[1..], svc), if c.row.service == svc then [c] else []);
    }
  }

  /** The labelled part of a listing is a listing of the labelled part of the table. */
  lemma LabelledIsListing(l: seq<Container>, w: World, svc: string)
    requires IsListing(l, w)
    ensures IsListing(Labelled(l, svc), Mine(w, svc))
  {
    LabelledMembers(l, svc);
    LabelledDistinct(l, svc);
    var f := Labelled(l, svc);
    forall i | 0 <= i < |f|
      ensures f[i].name in Mine(w, svc) && Mine(w, svc)[f[i].name] == f[i].row
    {
      assert f[i] in f;
      assert f[i] in l;
    }
  }

  ghost function NameSet(l: seq<Container>): set<string> {
    if l == [] then {} else {l[0].name} + NameSet(l[1..])
  }

  ghost function RunningSet(l: seq<Container>): set<string> {
    if l == [] then {} else (if l[0].row.status == Running then {l[0].name} else {}) + RunningSet(l[1..])
  }

  lemma {:induction false} NameSetMembers(l: seq<Container>, n: string)
    ensures n in NameSet(l) <==> exists i :: 0 <= i < |l| && l[i].name == n
    ensures n in RunningSet(l) <==> exists i :: 0 <= i < |l| && l[i].name == n && l[i].row.status == Running
  {
    if l != [] {
      NameSetMembers(l[1..], n);
      assert forall i :: 0 < i < |l| ==> l[i] == l[1..][i - 1];
      if i :| 0 <= i < |l[1..]| && l[1..][i].name == n {
        assert l[i + 1].name == n;
      }
      if i :| 0 <= i < |l[1..]| && l[1..][i].name == n && l[1..][i].row.status == Running {
        assert l[i + 1].name == n && l[i + 1].row.status == Running;
      }
    }
  }

  lemma {:induction false} ListingCounts(l: seq<Container>)
    requires forall i, j | 0 <= i < j < |l| :: l[i].name != l[j].name
    ensures |NameSet(l)| == |l| && |RunningSet(l)| == CountRunning(l)
  {
    if l != [] {
      ListingCounts(l[1..]);
      NameSetMembers(l[1..], l[0].name);
    }
  }

  /** Counting over a listing of a service's containers counts the service's containers. */
  lemma CountsAgree(l: seq<Container>, w: World, svc: string)
    requires IsListing(l, Mine(w, svc))
    ensures NameSet(l) == Own(w, svc)
    ensures |l| == |Own(w, svc)|
    ensures CountRunning(l) == |RunningOf(w, svc)|
  {
    forall n
      ensures n in NameSet(l) <==> n in Own(w, svc)
      ensures n in RunningSet(l) <==> n in RunningOf(w, svc)
    {
      NameSetMembers(l, n);
      if n in Own(w, svc) {
        assert Container(n, Mine(w, svc)[n]) in l;
      }
    }
    assert NameSet(l) == Own(w, svc) && RunningSet(l) == RunningOf(w, svc);
    ListingCounts(l);
  }

  method SelectLabelled(l: seq<Container>, svc: string) returns (mine: seq<Container>)
    ensures mine == Labelled(l, svc)
  {
    mine := [];
    for i := 0 to |l|
      invariant mine == Labelled(l[..i], svc)
    {
      LabelledAppend(l[..i], l[i], svc);
      assert l[..i + 1] == l[..i] + [l[i]];
      if l[i].row.service == svc {
        mine := mine + [l[i]];
      }
    }
    assert l[..|l|] == l;
  }

  // ---- the runtime object ----

  method ListOf(w: World) returns (l: seq<Container>)
    ensures IsListing(l, w)
  {
    l := [];
    var todo := w.Keys;
    while todo != {}
      invariant todo <= w.Keys
      invariant forall i | 0 <= i < |l| :: l[i].name in w && w[l[i].name] == l[i].row && l[i].name !in todo
      invariant forall i, j | 0 <= i < j < |l| :: l[i].name != l[j].name
      invariant forall n | n in w && n !in todo :: Container(n, w[n]) in l
      decreases todo
    {
      var n :| n in todo;
      l := l + [Container(n, w[n])];
      todo := todo - {n};
    }
  }

  class Runtime {
    var containers: World
    /** Every state the table has been in, oldest first; the last is the present one. */
    ghost var history: seq<World>

    ghost predicate Valid()
      reads this
    {
      history != [] && history[|history| - 1] == containers
    }

    constructor (initial: World)
      ensures Valid() && containers == initial && history == [initial]
    {
      containers := initial;
      history := [initial];
    }

    method ListContainers() returns (l: seq<Container>)
      ensures IsListing(l, containers)
    {
      l := ListOf(containers);
    }

    method ListLive() returns (l: seq<Container>)
      ensures IsListing(l, LiveOnly(containers))
    {
      l := ListOf(LiveOnly(containers));
    }

    method CreateContainer(spec: ContainerSpec, o: CreateOutcome) returns (ok: bool)
      requires Valid()
      modifies this
      ensures Valid()
      ensures containers == Create(old(containers), spec, o)
      ensures history == old(history) + [containers]
      ensures ok == o.Started?
    {
      match o {
        case PullFailed =>
        case CreateFailed(oldRemoved) =>
          if oldRemoved {
            containers := containers - {spec.name};
          }
        case StartFailed(id) =>
          containers := containers - {spec.name};
          containers := containers[spec.name := FromSpec(spec, id, Created)];
        case Started(id, status) =>
          containers := containers - {spec.name};
          containers := containers[spec.name := FromSpec(spec, id, status)];
      }
      history := history + [containers];
      ok := o.Started?;
    }

    method StopContainer(r: Ref, ok: bool)
      requires Valid()
      modifies this
      ensures Valid()
      ensures containers == Stop(old(containers), r, ok)
      ensures history == old(history) + [containers]
    {
      containers := Stop(containers, r, ok);
      history := history + [containers];
    }

    method DeleteContainer(r: Ref, ok: bool)
      requires Valid()
      modifies this
      ensures Valid()
      ensures containers == Delete(old(containers), r, ok)
      ensures history == old(history) + [containers]
    {
      containers := Delete(containers, r, ok);
      history := history + [containers];
    }

    /** The world outside moves: a process that was started shows a new state. */
    method Observe(name: string, status: Status)
      requires Valid()
      modifies this
      ensures Valid()
      ensures containers == Progress(old(containers), name, status)
      ensures history == old(history) + [containers]
    {
      containers := Progress(containers, name, status);
      history := history + [containers];
    }
  }
}
