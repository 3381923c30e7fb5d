/** What both update strategies share: states passed through on the way,
    waiting for a new container, and removing containers one after another. */
module Rollout {
  import opened ContainerRuntime

  /** The resolved part of a manifest that drives the control loop. */
  datatype Manifest = Manifest(name: string, replicas: int, blueGreen: bool, domain: string, port: nat, image: string)

  /** Ids for which a stop or a delete call fails; both errors are ignored by every caller. */
  datatype Failures = Failures(stop: set<nat>, delete: set<nat>)

  /** One look at the runtime while waiting: the listing fails, or the new container shows a state. */
  datatype Poll = ListFails | Observed(status: Status)

  /** The states an operation passes through, oldest first, and whether it reports success. */
  datatype Outcome = Outcome(trace: seq<World>, ok: bool)

  /** At least one replica is always wanted. */
  function Desired(m: Manifest): nat {
    if m.replicas < 1 then 1 else m.replicas
  }

  function End(w: World, trace: seq<World>): World {
    if trace == [] then w else trace[|trace| - 1]
  }

  // ---- waiting for a container ----

  function AwaitTrace(w: World, name: string, polls: seq<Poll>): seq<World> {
    if polls == [] || polls[0].ListFails? then []
    else
      var w1 := Progress(w, name, polls[0].status);
      if name in w1 && Decided(w1[name].status) then [w1] else [w1] + AwaitTrace(w1, name, polls[1..])
  }

  function AwaitOk(w: World, name: string, polls: seq<Poll>): bool {
    if polls == [] || polls[0].ListFails? then false
    else
      var w1 := Progress(w, name, polls[0].status);
      if name in w1 && Decided(w1[name].status) then w1[name].status == Running
      else AwaitOk(w1, name, polls[1..])
  }

  predicate Decided(s: Status) {
    s.Running? || s.Exited? || s.Dead?
  }

  /** Two states that differ at most in the status of one container. */
  ghost predicate OnlyStatusOf(name: string, w: World, h: World) {
    && h.Keys == w.Keys
    && (forall n | n in w && n != name :: h[n] == w[n])
    && (name in w ==> h[name] == w[name].(status := h[name].status))
  }

  lemma OnlyStatusKeepsWf(name: string, w: World, h: World)
    requires Wf(w) && OnlyStatusOf(name, w, h)
    ensures Wf(h)
  {
  }

  /** Waiting only ever changes the state of the container waited for, and success means it runs. */
  lemma {:induction false} AwaitEffect(w: World, name: string, polls: seq<Poll>)
    ensures forall h | h in AwaitTrace(w, name, polls) :: OnlyStatusOf(name, w, h)
    ensures OnlyStatusOf(name, w, End(w, AwaitTrace(w, name, polls)))
    ensures AwaitOk(w, name, polls) ==>
              name in w && End(w, AwaitTrace(w, name, polls))[name].status == Running
  {
    if polls != [] && polls[0].Observed? {
      var w1 := Progress(w, name, polls[0].status);
      assert OnlyStatusOf(name, w, w1);
      if !(name in w1 && Decided(w1[name].status)) {
        AwaitEffect(w1, name, polls[1..]);
        var rest := AwaitTrace(w1, name, polls[1..]);
        assert AwaitTrace(w, name, polls) == [w1] + rest;
        assert End(w, [w1] + rest) == End(w1, rest);
      }
    }
  }

  /** The container is seen running at some time, the listings before did not fail, and it was not seen running,
      exited or dead before. */
  ghost predicate Healthy(polls: seq<Poll>) {
    exists i: nat :: RunsFirst(polls, i)
  }

  predicate RunsFirst(polls: seq<Poll>, i: nat) {
    && i < |polls| && polls[i] == Observed(Running)
    && forall j | 0 <= j < i :: polls[j].Observed? && polls[j].status !in {Running, Exited, Dead}
  }

  /** When waiting for a container that is there succeeds, told by what is seen. */
  lemma {:induction false} AwaitOkIff(w: World, name: string, polls: seq<Poll>)
    requires name in w
    ensures AwaitOk(w, name, polls) <==> Healthy(polls)
  {
    if polls != [] && polls[0].Observed? {
      var rest, w1 := polls[1..], Progress(w, name, polls[0].status);
      if Decided(polls[0].status) {
        assert polls[0].status == Running ==> RunsFirst(polls, 0);
      } else {
        AwaitOkIff(w1, name, rest);
        if i: nat :| RunsFirst(rest, i) {
          assert RunsFirst(polls, i + 1);
        }
        if i: nat :| RunsFirst(polls, i) {
          assert forall j | 0 <= j < i - 1 :: rest[j] == polls[j + 1];
          assert RunsFirst(rest, i - 1);
        }
      }
    }
  }

  method WaitHealthy(rt: Runtime, name: string, polls: seq<Poll>) returns (ok: bool)
    requires rt.Valid()
    modifies rt
    ensures rt.Valid()
    ensures rt.history == old(rt.history) + AwaitTrace(old(rt.containers), name, polls)
    ensures ok == AwaitOk(old(rt.containers), name, polls)
  {
    ghost var w0, h0 := rt.containers, rt.history;
    var i := 0;
    while i < |polls|
      invariant 0 <= i <= |polls| && rt.Valid()
      invariant h0 + AwaitTrace(w0, name, polls) == rt.history + AwaitTrace(rt.containers, name, polls[i..])
      invariant AwaitOk(w0, name, polls) == AwaitOk(rt.containers, name, polls[i..])
    {
      if polls[i].ListFails? {
        return false;
      }
      rt.Observe(name, polls[i].status);
      assert polls[i..][1..] == polls[i + 1..];
      var l := rt.ListContainers();
      var decided, running := Look(l, rt.containers, name);
      if decided {
        return running;
      }
      i := i + 1;
    }
    ok := false;
  }

  /** One look at a listing for the container waited for. */
  method Look(l: seq<Container>, ghost w: World, name: string) returns (decided: bool, running: bool)
    requires IsListing(l, w)
    ensures decided == (name in w && Decided(w[name].status))
    ensures decided ==> running == (w[name].status == Running)
  {
    for k := 0 to |l|
      invariant forall j | 0 <= j < k :: l[j].name == name ==> !Decided(l[j].row.status)
    {
      if l[k].name == name {
        match l[k].row.status {
          case Running => return true, true;
          case Exited => return true, false;
          case Dead => return true, false;
          case _ =>
        }
      }
    }
    assert name in w ==> Container(name, w[name]) in l;
    return false, false;
  }

  // ---- removing containers one by one ----

  function SweepTrace(w: World, victims: seq<Container>, f: Failures): seq<World> {
    if victims == [] then []
    else
      var w1 := Stop(w, ById(victims[0].row.id), victims[0].row.id !in f.stop);
      var w2 := Delete(w1, ById(victims[0].row.id), victims[0].row.id !in f.delete);
      [w1, w2] + SweepTrace(w2, victims[1..], f)
  }

  /** A container that no removal is aimed at stays exactly as it is. */
  ghost predicate Kept(w: World, h: World, name: string) {
    name in w && name in h && h[name] == w[name]
  }

  /** Removing some containers by id leaves every other one as it was, at every moment. */
  lemma {:induction false} SweepKeeps(w: World, victims: seq<Container>, f: Failures, name: string)
    requires name in w && forall c | c in victims :: c.row.id != w[name].id
    ensures forall h | h in SweepTrace(w, victims, f) :: Kept(w, h, name)
    ensures Kept(w, End(w, SweepTrace(w, victims, f)), name)
  {
    if victims != [] {
      var w1 := Stop(w, ById(victims[0].row.id), victims[0].row.id !in f.stop);
      var w2 := Delete(w1, ById(victims[0].row.id), victims[0].row.id !in f.delete);
      assert victims[0] in victims;
      assert Kept(w, w1, name) && Kept(w, w2, name);
      SweepKeeps(w2, victims[1..], f, name);
    }
  }

  lemma {:induction false} SweepWf(w: World, victims: seq<Container>, f: Failures)
    requires Wf(w)
    ensures forall h | h in SweepTrace(w, victims, f) :: Wf(h)
    ensures Wf(End(w, SweepTrace(w, victims, f)))
  {
    if victims != [] {
      var r := ById(victims[0].row.id);
      var w1 := Stop(w, r, victims[0].row.id !in f.stop);
      RemovalKeepsWf(w, r, victims[0].row.id !in f.stop);
      RemovalKeepsWf(w1, r, victims[0].row.id !in f.delete);
      SweepWf(Delete(w1, r, victims[0].row.id !in f.delete), victims[1..], f);
    }
  }

  function IdsOf(l: seq<Container>): set<nat> {
    set c | c in l :: c.row.id
  }

  /** The table without the containers with these ids; those that cannot be deleted are at least stopped. */
  function Without(w: World, ids: set<nat>, f: Failures): World {
    map n | n in w && !(w[n].id in ids && w[n].id !in f.delete) ::
      if w[n].id in ids && w[n].id !in f.stop && Live(w[n].status) then w[n].(status := Exited) else w[n]
  }

  /** What removing containers one by one leaves, exactly. */
  lemma {:induction false} SweepEnd(w: World, victims: seq<Container>, f: Failures)
    ensures End(w, SweepTrace(w, victims, f)) == Without(w, IdsOf(victims), f)
  {
    if victims != [] {
      var id := victims[0].row.id;
      var w1 := Stop(w, ById(id), id !in f.stop);
      var w2 := Delete(w1, ById(id), id !in f.delete);
      SweepEnd(w2, victims[1..], f);
      var rest := SweepTrace(w2, victims[1..], f);
      assert End(w, [w1, w2] + rest) == End(w2, rest);
      assert forall c :: c in victims <==> c == victims[0] || c in victims[1..];
      assert IdsOf(victims) == {id} + IdsOf(victims[1..]);
      OneWithout(w, id, IdsOf(victims[1..]), f);
    }
  }

  lemma OneWithout(w: World, id: nat, ids: set<nat>, f: Failures)
    ensures Without(Delete(Stop(w, ById(id), id !in f.stop), ById(id), id !in f.delete), ids, f) == Without(w, {id} + ids, f)
  {
  }

  method Sweep(rt: Runtime, victims: seq<Container>, f: Failures)
    requires rt.Valid()
    modifies rt
    ensures rt.Valid()
    ensures rt.history == old(rt.history) + SweepTrace(old(rt.containers), victims, f)
  {
    ghost var w0, h0 := rt.containers, rt.history;
    for i := 0 to |victims|
      invariant rt.Valid()
      invariant h0 + SweepTrace(w0, victims, f) == rt.history + SweepTrace(rt.containers, victims[i..], f)
    {
      var id := victims[i].row.id;
      ghost var w, h := rt.containers, rt.history;
      rt.StopContainer(ById(id), id !in f.stop);
      ghost var w1 := rt.containers;
      rt.DeleteContainer(ById(id), id !in f.delete);
      assert victims[i..][1..] == victims[i + 1..];
      assert SweepTrace(w, victims[i..], f) == [w1, rt.containers] + SweepTrace(rt.containers, victims[i + 1..], f);
      assert rt.history == h + [w1, rt.containers];
    }
  }

  /** The present state is where the states passed through lead. */
  lemma EndIsLast(h: seq<World>, trace: seq<World>)
    requires h != []
    ensures (h + trace)[|h + trace| - 1] == End(h[|h| - 1], trace)
  {
  }
}
