/** Automatic scaling: a tick measures the load of a service and, within cooldowns, adds a
    replica or removes the most recent one, here or on a remote worker. */
module Autoscaler {
  import opened Wrappers
  import opened Naming
  import opened ContainerRuntime
  import opened Rollout
  import Rolling

  const SECOND := 1_000_000_000
  const UP_COOLDOWN := 30 * SECOND
  const DOWN_COOLDOWN := 180 * SECOND

  /** What is remembered about a service between ticks; times are None until first set. */
  datatype Entry = Entry(lastUp: Option<int>, lastDown: Option<int>, below: Option<int>)

  const NEVER := Entry(None, None, None)

  /** Averages in percent. */
  datatype Load = Load(cpu: real, mem: real)

  datatype Limits = Limits(target: real, min: int, max: int)

  datatype Verdict = Idle | Up | Down | StartWaiting | StopWaiting

  /** One look at a service with n replicas; `done` says whether the scaling call succeeds. */
  datatype Look = Look(now: int, remote: bool, n: nat, load: Load, limits: Limits, done: bool)

  /** Only the local path drops the waiting period again, and only for its CPU load. */
  function Decide(e: Entry, k: Look): Verdict {
    var t := k.limits.target;
    if (k.load.cpu >= t || k.load.mem >= t) && k.n < k.limits.max then
      if e.lastUp.Some? && k.now - e.lastUp.value < UP_COOLDOWN then Idle else Up
    else if k.load.cpu < t * 0.5 && k.load.mem < t * 0.5 && k.n > k.limits.min then
      if e.below.None? then StartWaiting
      else if k.now - e.below.value < DOWN_COOLDOWN then Idle
      else Down
    else if !k.remote && e.below.Some? && k.load.cpu >= t * 0.5 then StopWaiting
    else Idle
  }

  /** A scaling call that fails leaves the entry as it was. */
  function Seen(e: Entry, k: Look): Entry {
    match Decide(e, k)
    case Idle => e
    case Up => if k.done then e.(lastUp := Some(k.now), below := None) else e
    case Down => if k.done then e.(lastDown := Some(k.now), below := None) else e
    case StartWaiting => e.(below := Some(k.now))
    case StopWaiting => e.(below := None)
  }

  /** No load is both a reason to add a replica and one to remove a replica, whatever happened before. */
  lemma LoadWantsOneWay(e: Entry, k: Look, e': Entry, k': Look)
    requires k.load == k'.load && k.limits.target == k'.limits.target
    ensures Decide(e, k).Up? && Decide(e', k').Down? ==> k.limits.target < 0.0
  {
  }

  // ---- no flapping ----

  /** A scaling that took place. */
  datatype Scaling = Scaling(up: bool, at: int)

  function Scalings(e: Entry, looks: seq<Look>): seq<Scaling>
    decreases |looks|
  {
    if looks == [] then []
    else
      var k := looks[0];
      (if Decide(e, k).Up? && k.done then [Scaling(true, k.now)]
       else if Decide(e, k).Down? && k.done then [Scaling(false, k.now)]
       else [])
      + Scalings(Seen(e, k), looks[1..])
  }

  /** The clock does not run backwards, and has reached `now`. */
  predicate Ordered(looks: seq<Look>, now: int) {
    looks != [] ==> now <= looks[0].now && Ordered(looks[1..], looks[0].now)
  }

  lemma {:induction false} UpsComeLater(e: Entry, looks: seq<Look>, now: int, x: int)
    requires Ordered(looks, now) && e.lastUp.Some? && x <= e.lastUp.value
    ensures forall s | s in Scalings(e, looks) && s.up :: s.at >= x + UP_COOLDOWN
    decreases |looks|
  {
    if looks != [] {
      UpsComeLater(Seen(e, looks[0]), looks[1..], looks[0].now, x);
    }
  }

  /** Scaling down waits for a period that begins after whatever happened last. */
  lemma {:induction false} DownsComeLater(e: Entry, looks: seq<Look>, now: int, x: int)
    requires Ordered(looks, now) && x <= now && (e.below.Some? ==> x <= e.below.value)
    ensures forall s | s in Scalings(e, looks) && !s.up :: s.at >= x + DOWN_COOLDOWN
    decreases |looks|
  {
    if looks != [] {
      DownsComeLater(Seen(e, looks[0]), looks[1..], looks[0].now, x);
    }
  }

  ghost predicate Spaced(a: Scaling, b: Scaling) {
    (a.up && b.up ==> b.at >= a.at + UP_COOLDOWN) && (!b.up ==> b.at >= a.at + DOWN_COOLDOWN)
  }

  ghost predicate AllSpaced(s: seq<Scaling>) {
    forall i, j | 0 <= i < j < |s| :: Spaced(s[i], s[j])
  }

  lemma SpacedFrom(x: Scaling, rest: seq<Scaling>)
    requires AllSpaced(rest) && forall s | s in rest :: Spaced(x, s)
    ensures AllSpaced([x] + rest)
  {
  }

  /** Anti-flapping, over any run of looks, local and remote ones mixed, with whatever loads and
      counts and failing calls in between: scaling up comes at least 30 seconds after the previous
      scaling up, and scaling down at least three minutes after the previous scaling of either kind. */
  lemma {:induction false} NoFlapping(e: Entry, looks: seq<Look>, now: int)
    requires Ordered(looks, now)
    ensures AllSpaced(Scalings(e, looks))
    decreases |looks|
  {
    if looks != [] {
      var k, e', s := looks[0], Seen(e, looks[0]), Scalings(e, looks);
      var rest := Scalings(e', looks[1..]);
      NoFlapping(e', looks[1..], k.now);
      if s != rest {
        assert s == [s[0]] + rest && s[0].at == k.now;
        DownsComeLater(e', looks[1..], k.now, k.now);
        if s[0].up {
          UpsComeLater(e', looks[1..], k.now, k.now);
        }
        SpacedFrom(s[0], rest);
      }
    }
  }

  /** How many scalings of one kind fall into an interval, both ends included. */
  function Within(s: seq<Scaling>, up: bool, a: int, z: int): nat {
    if s == [] then 0 else (if s[0].up == up && a <= s[0].at <= z then 1 else 0) + Within(s[1..], up, a, z)
  }

  ghost predicate Gaps(s: seq<Scaling>, up: bool, gap: nat) {
    forall i, j | 0 <= i < j < |s| :: s[i].up == up && s[j].up == up ==> s[j].at >= s[i].at + gap
  }

  /** An interval shorter than m gaps holds at most m of them. */
  lemma {:induction false} GapsBound(s: seq<Scaling>, up: bool, a: int, z: int, gap: nat, m: nat)
    requires Gaps(s, up, gap) && z < a + m * gap
    ensures Within(s, up, a, z) <= m
    decreases |s|
  {
    if s != [] {
      var rest := s[1..];
      if s[0].up == up && a <= s[0].at <= z {
        var a' := s[0].at + gap;
        assert m > 0 && m * gap == gap + (m - 1) * gap;
        forall j | 0 <= j < |rest| && rest[j].up == up
          ensures rest[j].at >= a'
        {
          assert rest[j] == s[j + 1];
        }
        LaterStart(rest, up, a, a', z);
        GapsBound(rest, up, a', z, gap, m - 1);
      } else {
        GapsBound(rest, up, a, z, gap, m);
      }
    }
  }

  /** Looking at the interval from later on misses nothing if all there is comes later. */
  lemma {:induction false} LaterStart(s: seq<Scaling>, up: bool, a: int, a': int, z: int)
    requires a <= a' && forall j | 0 <= j < |s| && s[j].up == up :: s[j].at >= a'
    ensures Within(s, up, a, z) == Within(s, up, a', z)
  {
    if s != [] {
      LaterStart(s[1..], up, a, a', z);
    }
  }

  /** So an interval holds few scalings, however the load behaves. */
  lemma FewScalings(e: Entry, looks: seq<Look>, now: int, a: int, z: int)
    requires Ordered(looks, now) && a <= z
    ensures Within(Scalings(e, looks), true, a, z) <= (z - a) / UP_COOLDOWN + 1
    ensures Within(Scalings(e, looks), false, a, z) <= (z - a) / DOWN_COOLDOWN + 1
  {
    NoFlapping(e, looks, now);
    var s := Scalings(e, looks);
    assert forall i, j | 0 <= i < j < |s| :: Spaced(s[i], s[j]);
    GapsBound(s, true, a, z, UP_COOLDOWN, (z - a) / UP_COOLDOWN + 1);
    GapsBound(s, false, a, z, DOWN_COOLDOWN, (z - a) / DOWN_COOLDOWN + 1);
  }

  // ---- how quiet the three minutes before a scaling down are ----

  /** Both loads below half the target: what scaling down waits for. */
  predicate Quiet(k: Look) {
    k.load.cpu < k.limits.target * 0.5 && k.load.mem < k.limits.target * 0.5
  }

  predicate Overloaded(k: Look) {
    k.load.cpu >= k.limits.target || k.load.mem >= k.limits.target
  }

  /** A look that is not quiet, and all the same leaves the waiting period running. With too much load and
      room to grow: when the last scaling up is too recent for another one, or the call fails. Otherwise:
      on a remote worker; and here, when the CPU is below half the target, whatever the memory is. */
  predicate Overlooked(e: Entry, k: Look) {
    && !Quiet(k)
    && if Overloaded(k) && k.n < k.limits.max
       then (e.lastUp.Some? && k.now - e.lastUp.value < UP_COOLDOWN) || !k.done
       else k.remote || k.load.cpu < k.limits.target * 0.5
  }

  /** Exactly these looks are overlooked. */
  lemma StaysWaitingIff(e: Entry, k: Look)
    requires e.below.Some? && !Quiet(k)
    ensures Seen(e, k).below.Some? <==> Overlooked(e, k)
    ensures Overlooked(e, k) ==> Seen(e, k).below == e.below
  {
  }

  /** What is remembered before the i-th look. */
  function EntryAt(e: Entry, looks: seq<Look>, i: nat): Entry
    requires i <= |looks|
  {
    if i == 0 then e else Seen(EntryAt(e, looks, i - 1), looks[i - 1])
  }

  /** The j-th look has led to this, and the scaling call, if any, has succeeded. */
  predicate Did(looks: seq<Look>, j: nat, v: Verdict)
    requires j < |looks|
  {
    Decide(EntryAt(NEVER, looks, j), looks[j]) == v && (v.Up? || v.Down? ==> looks[j].done)
  }

  predicate EndsWaiting(looks: seq<Look>, j: nat)
    requires j < |looks|
  {
    Did(looks, j, Up) || Did(looks, j, Down) || Did(looks, j, StopWaiting)
  }

  ghost predicate LastDid(looks: seq<Look>, j: nat, i: nat, v: Verdict)
    requires i <= |looks|
  {
    j < i && Did(looks, j, v) && forall h | j < h < i :: !Did(looks, h, v)
  }

  /** A waiting period began at the j-th look, and nothing has ended it before the i-th. */
  ghost predicate WaitingSince(looks: seq<Look>, j: nat, i: nat)
    requires i <= |looks|
  {
    j < i && Did(looks, j, StartWaiting) && forall h | j < h < i :: !EndsWaiting(looks, h)
  }

  /** The time remembered of the last scaling up or down. */
  function LastTime(e: Entry, up: bool): Option<int> {
    if up then e.lastUp else e.lastDown
  }

  lemma {:induction false} ScalingRemembered(looks: seq<Look>, j: nat, i: nat, up: bool)
    requires i <= |looks| && LastDid(looks, j, i, if up then Up else Down)
    ensures LastTime(EntryAt(NEVER, looks, i), up) == Some(looks[j].now)
  {
    var k := i - 1;
    if j < k {
      assert !Did(looks, k, if up then Up else Down);
      ScalingRemembered(looks, j, k, up);
    }
  }

  lemma {:induction false} ScalingHappened(looks: seq<Look>, i: nat, up: bool) returns (j: nat)
    requires i <= |looks| && LastTime(EntryAt(NEVER, looks, i), up).Some?
    ensures LastDid(looks, j, i, if up then Up else Down)
  {
    var k := i - 1;
    if Did(looks, k, if up then Up else Down) {
      j := k;
    } else {
      j := ScalingHappened(looks, k, up);
    }
  }

  lemma {:induction false} WaitingRemembered(looks: seq<Look>, j: nat, i: nat)
    requires i <= |looks| && WaitingSince(looks, j, i)
    ensures EntryAt(NEVER, looks, i).below == Some(looks[j].now)
  {
    var k := i - 1;
    if j < k {
      assert !EndsWaiting(looks, k);
      WaitingRemembered(looks, j, k);
    }
  }

  lemma {:induction false} WaitingHappened(looks: seq<Look>, i: nat) returns (j: nat)
    requires i <= |looks| && EntryAt(NEVER, looks, i).below.Some?
    ensures WaitingSince(looks, j, i)
  {
    var k := i - 1;
    if Did(looks, k, StartWaiting) {
      j := k;
    } else {
      assert !EndsWaiting(looks, k);
      j := WaitingHappened(looks, k);
    }
  }

  /** What is remembered, told by what has happened: the times of the last scaling of either kind that succeeded,
      and the beginning of a waiting period that no scaling has ended and that has not been dropped. */
  lemma Remembered(looks: seq<Look>, i: nat)
    requires i <= |looks|
    ensures var e := EntryAt(NEVER, looks, i);
            && (e.lastUp.Some? <==> exists j: nat :: LastDid(looks, j, i, Up))
            && (e.lastDown.Some? <==> exists j: nat :: LastDid(looks, j, i, Down))
            && (e.below.Some? <==> exists j: nat :: WaitingSince(looks, j, i))
            && (forall j: nat | LastDid(looks, j, i, Up) :: e.lastUp == Some(looks[j].now))
            && (forall j: nat | LastDid(looks, j, i, Down) :: e.lastDown == Some(looks[j].now))
            && (forall j: nat | WaitingSince(looks, j, i) :: e.below == Some(looks[j].now))
  {
    var e := EntryAt(NEVER, looks, i);
    forall j: nat
      ensures LastDid(looks, j, i, Up) ==> e.lastUp == Some(looks[j].now)
      ensures LastDid(looks, j, i, Down) ==> e.lastDown == Some(looks[j].now)
      ensures WaitingSince(looks, j, i) ==> e.below == Some(looks[j].now)
    {
      if LastDid(looks, j, i, Up) {
        ScalingRemembered(looks, j, i, true);
      }
      if LastDid(looks, j, i, Down) {
        ScalingRemembered(looks, j, i, false);
      }
      if WaitingSince(looks, j, i) {
        WaitingRemembered(looks, j, i);
      }
    }
    if e.lastUp.Some? {
      var j := ScalingHappened(looks, i, true);
    }
    if e.lastDown.Some? {
      var j := ScalingHappened(looks, i, false);
    }
    if e.below.Some? {
      var j := WaitingHappened(looks, i);
    }
  }

  lemma {:induction false} OrderedPairs(looks: seq<Look>, now: int, i: nat, j: nat)
    requires Ordered(looks, now) && i <= j < |looks|
    ensures now <= looks[i].now <= looks[j].now
  {
    if i > 0 {
      OrderedPairs(looks[1..], looks[0].now, i - 1, j - 1);
    } else if j > 0 {
      OrderedPairs(looks[1..], looks[0].now, 0, j - 1);
    }
  }

  /** A waiting period that began before the i-th look, and still runs at the j-th, ran at the i-th. */
  lemma {:induction false} StillWaiting(e: Entry, looks: seq<Look>, now: int, i: nat, j: nat, since: int)
    requires Ordered(looks, now) && i < j <= |looks|
    requires EntryAt(e, looks, j).below == Some(since) && looks[i].now > since
    ensures EntryAt(e, looks, i).below == Some(since) && EntryAt(e, looks, i + 1).below == Some(since)
    decreases j
  {
    OrderedPairs(looks, now, i, j - 1);
    if i < j - 1 {
      StillWaiting(e, looks, now, i, j - 1, since);
    }
  }

  /** Over any run: in the three minutes before a scaling down every look is quiet, or overlooked. */
  lemma LoadBeforeDown(e: Entry, looks: seq<Look>, now: int, i: nat, j: nat)
    requires Ordered(looks, now) && i < j < |looks| && looks[i].now > looks[j].now - DOWN_COOLDOWN
    requires Decide(EntryAt(e, looks, j), looks[j]).Down?
    ensures Quiet(looks[i]) || Overlooked(EntryAt(e, looks, i), looks[i])
  {
    StillWaiting(e, looks, now, i, j, EntryAt(e, looks, j).below.value);
    if !Quiet(looks[i]) {
      StaysWaitingIff(EntryAt(e, looks, i), looks[i]);
    }
  }

  ghost predicate AllQuiet(looks: seq<Look>, j: nat)
    requires j < |looks|
  {
    forall i | 0 <= i < j && looks[i].now > looks[j].now - DOWN_COOLDOWN :: Quiet(looks[i])
  }

  ghost predicate NoneOverlooked(e: Entry, looks: seq<Look>, j: nat)
    requires j < |looks|
  {
    forall i | 0 <= i < j && looks[i].now > looks[j].now - DOWN_COOLDOWN :: !Overlooked(EntryAt(e, looks, i), looks[i])
  }

  /** The three minutes before a scaling down were quiet ones exactly if no look in them is of the kind
      that is overlooked. */
  lemma QuietBeforeDownIff(e: Entry, looks: seq<Look>, now: int, j: nat)
    requires Ordered(looks, now) && j < |looks| && Decide(EntryAt(e, looks, j), looks[j]).Down?
    ensures AllQuiet(looks, j) <==> NoneOverlooked(e, looks, j)
  {
    forall i | 0 <= i < j && looks[i].now > looks[j].now - DOWN_COOLDOWN
      ensures Quiet(looks[i]) <==> !Overlooked(EntryAt(e, looks, i), looks[i])
    {
      LoadBeforeDown(e, looks, now, i, j);
    }
  }

  /** And each look of that kind does lead to a scaling down without three quiet minutes: after a look that
      starts the waiting, one that is not quiet, and a quiet one three minutes after the first, replicas
      are removed exactly if the one in between is overlooked. */
  lemma DownDespiteLoadIff(e: Entry, a: Look, b: Look, c: Look)
    requires e.below.None? && Decide(e, a).StartWaiting? && !Quiet(b)
    requires Quiet(c) && c.n > c.limits.min && !(Overloaded(c) && c.n < c.limits.max)
    requires a.now <= b.now <= c.now && c.now - a.now >= DOWN_COOLDOWN
    ensures Decide(Seen(Seen(e, a), b), c).Down? <==> Overlooked(Seen(e, a), b)
  {
  }

  /** For example, a service with no room to grow that is fully loaded in between: on a remote worker it is
      scaled down all the same, and here it is when only its memory is loaded. */
  lemma LoadInBetweenIsForgotten(limits: Limits, n: nat, remote: bool, busy: Load)
    requires limits.target > 0.0 && limits.min < n == limits.max
    requires busy.cpu >= limits.target || busy.mem >= limits.target
    ensures var quiet := Load(0.0, 0.0);
            Scalings(NEVER, [Look(0, remote, n, quiet, limits, true), Look(DOWN_COOLDOWN - 1, remote, n, busy, limits, true),
                             Look(DOWN_COOLDOWN, remote, n, quiet, limits, true)])
            == if remote || busy.cpu < limits.target * 0.5 then [Scaling(false, DOWN_COOLDOWN)] else []
  {
    var quiet := Load(0.0, 0.0);
    var a, b, c := Look(0, remote, n, quiet, limits, true), Look(DOWN_COOLDOWN - 1, remote, n, busy, limits, true),
                   Look(DOWN_COOLDOWN, remote, n, quiet, limits, true);
    DownDespiteLoadIff(NEVER, a, b, c);
    assert [a, b, c][1..] == [b, c] && [b, c][1..] == [c] && [c][1..] == [];
    var e1 := Seen(NEVER, a);
    var e2 := Seen(e1, b);
    assert Scalings(e2, [c]) == if Decide(e2, c).Down? then [Scaling(false, DOWN_COOLDOWN)] else [];
    assert Scalings(e1, [b, c]) == Scalings(e2, [c]);
  }

  // ---- the replica set ----

  /** The names a service with n replicas has when they were added one by one. */
  function Names(svc: string, n: nat): set<string> {
    if n == 0 then {} else if n == 1 then {svc} else Names(svc, n - 1) + {ReplicaName(svc, n)}
  }

  /** The containers a tick takes for the replicas of a service. */
  function Replicas(w: World, svc: string): set<string> {
    Own(LiveOnly(w), svc)
  }

  /** The listed container with the largest name other than the service's own. */
  function Newest(l: seq<Container>, svc: string): Option<Container> {
    if l == [] then None
    else
      var best, c := Newest(l[..|l| - 1], svc), l[|l| - 1];
      if c.name == svc then best
      else if best.None? || Less(best.value.name, c.name) then Some(c)
      else best
  }

  /** What the world answers during a tick. */
  datatype LocalEnv = LocalEnv(now: int, stats: map<nat, Load>, create: CreateOutcome, stopOk: bool, deleteOk: bool)

  function Measured(l: seq<Container>, stats: map<nat, Load>): nat {
    if l == [] then 0 else Measured(l[..|l| - 1], stats) + if l[|l| - 1].row.id in stats then 1 else 0
  }

  function Total(l: seq<Container>, stats: map<nat, Load>): Load {
    if l == [] then Load(0.0, 0.0)
    else
      var t, id := Total(l[..|l| - 1], stats), l[|l| - 1].row.id;
      if id in stats then Load(t.cpu + stats[id].cpu, t.mem + stats[id].mem) else t
  }

  /** The average over the containers whose load could be read, if there are any. */
  function Average(l: seq<Container>, stats: map<nat, Load>): Option<Load> {
    var t, k := Total(l, stats), Measured(l, stats);
    if k == 0 then None else Some(Load(t.cpu / k as real, t.mem / k as real))
  }

  // ---- what the average is ----

  /** The positions of the containers whose load can be read. */
  function Readable(l: seq<Container>, stats: map<nat, Load>): set<nat> {
    set i: nat | i < |l| && l[i].row.id in stats
  }

  lemma {:induction false} MeasuredCounts(l: seq<Container>, stats: map<nat, Load>)
    ensures Measured(l, stats) == |Readable(l, stats)|
  {
    if l != [] {
      var p, n := l[..|l| - 1], |l| - 1;
      MeasuredCounts(p, stats);
      assert Readable(l, stats) == Readable(p, stats) + if l[n].row.id in stats then {n} else {};
    }
  }

  lemma Quotient(x: real, k: real)
    requires k > 0.0
    ensures x / k * k == x
  {
  }

  /** A container whose load cannot be read does not count; one
      whose load can be read adds just that to the average times the number of those that can be read. */
  lemma AverageAppended(l: seq<Container>, c: Container, stats: map<nat, Load>)
    ensures Average([], stats).None?
    ensures c.row.id !in stats ==> Average(l + [c], stats) == Average(l, stats)
    ensures c.row.id in stats ==>
              var k, a, b, x := |Readable(l, stats)| as real, Average(l, stats), Average(l + [c], stats), stats[c.row.id];
              && b.Some?
              && (k + 1.0) * b.value.cpu == (if a.Some? then k * a.value.cpu else 0.0) + x.cpu
              && (k + 1.0) * b.value.mem == (if a.Some? then k * a.value.mem else 0.0) + x.mem
  {
    assert (l + [c])[..|l + [c]| - 1] == l;
    MeasuredCounts(l, stats);
    var t, u, k := Total(l, stats), Total(l + [c], stats), Measured(l, stats) as real;
    NothingMeasured(l, stats);
    if k > 0.0 {
      Quotient(t.cpu, k);
      Quotient(t.mem, k);
    }
    Quotient(u.cpu, k + 1.0);
    Quotient(u.mem, k + 1.0);
  }

  /** There is no average exactly if no load can be read. */
  lemma NoAverageIff(l: seq<Container>, stats: map<nat, Load>)
    ensures Average(l, stats).None? <==> forall c | c in l :: c.row.id !in stats
  {
    MeasuredCounts(l, stats);
    if c :| c in l && c.row.id in stats {
      var i: nat :| i < |l| && l[i] == c;
      assert i in Readable(l, stats);
    }
    if i :| i in Readable(l, stats) {
      assert l[i] in l;
    } else {
      assert Readable(l, stats) == {};
    }
  }

  lemma {:induction false} NothingMeasured(l: seq<Container>, stats: map<nat, Load>)
    ensures Measured(l, stats) == 0 ==> Total(l, stats) == Load(0.0, 0.0)
  {
    if l != [] {
      NothingMeasured(l[..|l| - 1], stats);
    }
  }

  /** Bounds for every load that can be read. */
  ghost predicate Bounded(l: seq<Container>, stats: map<nat, Load>, lo: Load, hi: Load) {
    forall c | c in l && c.row.id in stats ::
      lo.cpu <= stats[c.row.id].cpu <= hi.cpu && lo.mem <= stats[c.row.id].mem <= hi.mem
  }

  ghost function Times(x: real, k: nat): real {
    if k == 0 then 0.0 else Times(x, k - 1) + x
  }

  lemma {:induction false} TimesIs(x: real, k: nat)
    ensures Times(x, k) == x * k as real
  {
    if k > 0 {
      TimesIs(x, k - 1);
    }
  }

  lemma {:induction false} TotalBounded(l: seq<Container>, stats: map<nat, Load>, lo: Load, hi: Load)
    requires Bounded(l, stats, lo, hi)
    ensures var t, k := Total(l, stats), Measured(l, stats);
            Times(lo.cpu, k) <= t.cpu <= Times(hi.cpu, k) && Times(lo.mem, k) <= t.mem <= Times(hi.mem, k)
  {
    if l != [] {
      assert forall c | c in l[..|l| - 1] :: c in l;
      TotalBounded(l[..|l| - 1], stats, lo, hi);
      assert l[|l| - 1] in l;
    }
  }

  lemma QuotientBetween(lo: real, x: real, hi: real, k: nat)
    requires k > 0 && Times(lo, k) <= x <= Times(hi, k)
    ensures lo <= x / k as real <= hi
  {
    TimesIs(lo, k);
    TimesIs(hi, k);
    Between(lo, x, hi, k as real);
  }

  lemma Between(lo: real, x: real, hi: real, k: real)
    requires k > 0.0 && lo * k <= x <= hi * k
    ensures lo <= x / k <= hi
  {
    Quotient(x, k);
    var q := x / k;
    assert (q - lo) * k >= 0.0 && (hi - q) * k >= 0.0;
  }

  /** The average lies between any bounds of the loads. */
  lemma AverageBetween(l: seq<Container>, stats: map<nat, Load>, lo: Load, hi: Load)
    requires forall c | c in l && c.row.id in stats ::
               lo.cpu <= stats[c.row.id].cpu <= hi.cpu && lo.mem <= stats[c.row.id].mem <= hi.mem
    requires Average(l, stats).Some?
    ensures var a := Average(l, stats).value; lo.cpu <= a.cpu <= hi.cpu && lo.mem <= a.mem <= hi.mem
  {
    assert Bounded(l, stats, lo, hi);
    TotalBounded(l, stats, lo, hi);
    var t, k := Total(l, stats), Measured(l, stats);
    QuotientBetween(lo.cpu, t.cpu, hi.cpu, k);
    QuotientBetween(lo.mem, t.mem, hi.mem, k);
  }

  /** The new replica carries the label the manifest gives it, which is the manifest's name. */
  function UpSpec(svc: string, m: Manifest, current: nat): ContainerSpec {
    ContainerSpec(ReplicaName(svc, current + 1), m.name, "", m.image)
  }

  function ScaledDown(w: World, mine: seq<Container>, svc: string, env: LocalEnv): World {
    match Newest(mine, svc)
    case None => w
    case Some(c) => Delete(Stop(w, ById(c.row.id), env.stopOk), ById(c.row.id), env.deleteOk)
  }

  datatype Local = Local(w: World, entry: Entry)

  function LookAt(mine: seq<Container>, svc: string, load: Load, limits: Limits, e: Entry, env: LocalEnv): Look {
    var k := Look(env.now, false, |mine|, load, limits, true);
    k.(done := match Decide(e, k)
               case Up => env.create.Started?
               case Down => Newest(mine, svc).None? || env.deleteOk
               case _ => true)
  }

  function Act(w: World, verdict: Verdict, svc: string, m: Manifest, mine: seq<Container>, env: LocalEnv): World {
    match verdict
    case Up => Create(w, UpSpec(svc, m, |mine|), env.create)
    case Down => ScaledDown(w, mine, svc, env)
    case _ => w
  }

  /** One tick of a service whose containers run here; `mine` are its containers as listed. */
  function LocalTick(s: Local, svc: string, m: Manifest, limits: Limits, mine: seq<Container>, env: LocalEnv): Local {
    match Average(mine, env.stats)
    case None => s
    case Some(load) =>
      var k := LookAt(mine, svc, load, limits, s.entry, env);
      Local(Act(s.w, Decide(s.entry, k), svc, m, mine, env), Seen(s.entry, k))
  }

  /** A tick, all in one: what becomes of the table and of what is remembered, by load, count and time. */
  lemma LocalTickIs(s: Local, svc: string, m: Manifest, limits: Limits, mine: seq<Container>, env: LocalEnv)
    ensures var r, e, n, t := LocalTick(s, svc, m, limits, mine, env), s.entry, |mine|, limits.target;
            match Average(mine, env.stats)
            case None => r == s
            case Some(load) =>
              if (load.cpu >= t || load.mem >= t) && n < limits.max then
                if e.lastUp.Some? && env.now < e.lastUp.value + 30_000_000_000 then r == s
                else r == Local(Create(s.w, ContainerSpec(svc + "-" + Decimal(n + 1), m.name, "", m.image), env.create),
                                if env.create.Started? then Entry(Some(env.now), e.lastDown, None) else e)
              else if load.cpu < t * 0.5 && load.mem < t * 0.5 && n > limits.min then
                if e.below.None? then r == Local(s.w, e.(below := Some(env.now)))
                else if env.now < e.below.value + 180_000_000_000 then r == s
                else match Newest(mine, svc)
                  case None => r == Local(s.w, Entry(e.lastUp, Some(env.now), None))
                  case Some(c) =>
                    r == Local(Delete(Stop(s.w, ById(c.row.id), env.stopOk), ById(c.row.id), env.deleteOk),
                               if env.deleteOk then Entry(e.lastUp, Some(env.now), None) else e)
              else if load.cpu >= t * 0.5 then r == Local(s.w, e.(below := None))
              else r == s
  {
  }

  lemma {:induction false} NewestIsLargest(l: seq<Container>, svc: string)
    ensures Newest(l, svc).None? <==> forall c | c in l :: c.name == svc
    ensures Newest(l, svc).Some? ==>
              var best := Newest(l, svc).value;
              best in l && best.name != svc && forall c | c in l && c.name != svc :: !Less(best.name, c.name)
  {
    if l != [] {
      var p, c := l[..|l| - 1], l[|l| - 1];
      NewestIsLargest(p, svc);
      assert forall x :: x in l <==> x in p || x == c;
      LessTotal(c.name, c.name);
      if Newest(p, svc).Some? {
        var best := Newest(p, svc).value;
        LessTotal(best.name, c.name);
        forall x | x in p && x.name != svc && Less(best.name, c.name)
          ensures !Less(c.name, x.name)
        {
          if Less(c.name, x.name) {
            LessTransitive(best.name, c.name, x.name);
          }
        }
      }
    }
  }

  lemma ReplicaNamesDiffer(svc: string, n: nat)
    ensures ReplicaName(svc, n) != svc
    ensures forall k: nat | k < n :: ReplicaName(svc, k) != ReplicaName(svc, n)
  {
    assert |ReplicaName(svc, n)| > |svc|;
    forall k: nat | k < n
      ensures ReplicaName(svc, k) != ReplicaName(svc, n)
    {
      if ReplicaName(svc, k) == ReplicaName(svc, n) {
        ReplicaNameInjective(svc, k, n);
      }
    }
  }

  lemma {:induction false} NamesAre(svc: string, n: nat, name: string)
    ensures name in Names(svc, n) <==> n > 0 && (name == svc || exists k: nat :: 2 <= k <= n && name == ReplicaName(svc, k))
  {
    if n > 1 {
      NamesAre(svc, n - 1, name);
    }
  }

  lemma {:induction false} NamesCounted(svc: string, n: nat)
    ensures |Names(svc, n)| == n
  {
    if n > 1 {
      NamesCounted(svc, n - 1);
      NamesAre(svc, n - 1, ReplicaName(svc, n));
      ReplicaNamesDiffer(svc, n);
    }
  }

  /** A listing of the service's containers, named as if added one by one. */
  ghost predicate Contiguous(mine: seq<Container>, svc: string, n: nat) {
    forall name :: name in NameSet(mine) <==> name in Names(svc, n)
  }

  lemma Listed(mine: seq<Container>, svc: string, n: nat, name: string) returns (c: Container)
    requires Contiguous(mine, svc, n) && name in Names(svc, n)
    ensures c in mine && c.name == name
  {
    NameSetMembers(mine, name);
    var i :| 0 <= i < |mine| && mine[i].name == name;
    c := mine[i];
  }

  /** The one picked is a numbered replica. */
  lemma NewestIsNumbered(mine: seq<Container>, svc: string, n: nat) returns (k: nat)
    requires Contiguous(mine, svc, n) && Newest(mine, svc).Some?
    ensures 2 <= k <= n && Newest(mine, svc).value.name == ReplicaName(svc, k)
  {
    NewestIsLargest(mine, svc);
    var best := Newest(mine, svc).value;
    var i :| 0 <= i < |mine| && mine[i] == best;
    NameSetMembers(mine, best.name);
    NamesAre(svc, n, best.name);
    k :| 2 <= k <= n && best.name == ReplicaName(svc, k);
  }

  /** Up to nine replicas, the one picked is the one added last. */
  lemma NewestIsLast(mine: seq<Container>, svc: string, n: nat)
    requires Contiguous(mine, svc, n) && 2 <= n <= 9
    ensures Newest(mine, svc).Some? && Newest(mine, svc).value.name == ReplicaName(svc, n)
  {
    NewestIsLargest(mine, svc);
    NamesAre(svc, n, ReplicaName(svc, n));
    var last := Listed(mine, svc, n, ReplicaName(svc, n));
    assert last.name != svc;
    var k := NewestIsNumbered(mine, svc, n);
    SingleDigitOrder(svc, k, n);
  }

  /** With ten it is the ninth. */
  lemma NewestOfTenIsNinth(mine: seq<Container>, svc: string)
    requires Contiguous(mine, svc, 10)
    ensures Newest(mine, svc).Some? && Newest(mine, svc).value.name == ReplicaName(svc, 9)
  {
    NewestIsLargest(mine, svc);
    NamesAre(svc, 10, ReplicaName(svc, 9));
    var ninth := Listed(mine, svc, 10, ReplicaName(svc, 9));
    assert ninth.name != svc;
    var k := NewestIsNumbered(mine, svc, 10);
    NineSortsAfterTen(svc);
    if k < 10 {
      SingleDigitOrder(svc, k, 9);
    }
  }

  /** A listing of n replicas, for example. */
  function Sample(svc: string, n: nat): seq<Container> {
    if n == 0 then []
    else [Container(if n == 1 then svc else ReplicaName(svc, n), Row(n, svc, "", Running, ""))] + Sample(svc, n - 1)
  }

  lemma {:induction false} SampleIsContiguous(svc: string, n: nat)
    ensures NameSet(Sample(svc, n)) == Names(svc, n)
  {
    if n > 0 {
      SampleIsContiguous(svc, n - 1);
      assert Sample(svc, n)[1..] == Sample(svc, n - 1);
    }
  }

  ghost predicate PicksLast(svc: string, n: nat) {
    forall mine | Contiguous(mine, svc, n) ::
      Newest(mine, svc).Some? && Newest(mine, svc).value.name == ReplicaName(svc, n)
  }

  /** Scaling down picks the replica added last, whatever the number, exactly if the number is
      limited to nine. */
  lemma PicksLastIff(svc: string, max: nat)
    ensures (forall n | 2 <= n <= max :: PicksLast(svc, n)) <==> max <= 9
  {
    if max <= 9 {
      forall n, mine | 2 <= n <= max && Contiguous(mine, svc, n)
        ensures Newest(mine, svc).Some? && Newest(mine, svc).value.name == ReplicaName(svc, n)
      {
        NewestIsLast(mine, svc, n);
      }
    } else {
      SampleIsContiguous(svc, 10);
      NewestOfTenIsNinth(Sample(svc, 10), svc);
      assert ReplicaName(svc, 9) != ReplicaName(svc, 10) by {
        if ReplicaName(svc, 9) == ReplicaName(svc, 10) {
          ReplicaNameInjective(svc, 9, 10);
        }
      }
      assert !PicksLast(svc, 10);
    }
  }

  /** Calls succeed: a created container gets an unused id and runs at once. */
  ghost predicate Smooth(w: World, env: LocalEnv) {
    && env.create.Started? && env.create.status == Running && FreshId(w, env.create.id)
    && env.stopOk && env.deleteOk
  }

  lemma Counted(w: World, svc: string, shown: seq<Container>, n: nat)
    requires IsListing(shown, LiveOnly(w)) && Replicas(w, svc) == Names(svc, n)
    ensures |Labelled(shown, svc)| == n && Contiguous(Labelled(shown, svc), svc, n)
  {
    LabelledIsListing(shown, LiveOnly(w), svc);
    CountsAgree(Labelled(shown, svc), LiveOnly(w), svc);
    NamesCounted(svc, n);
  }

  lemma DownRemoves(w: World, svc: string, mine: seq<Container>, n: nat, env: LocalEnv)
    requires Wf(w) && env.stopOk && env.deleteOk && 2 <= n <= 9
    requires IsListing(mine, Mine(LiveOnly(w), svc)) && Contiguous(mine, svc, n)
    ensures ScaledDown(w, mine, svc, env) == w - {ReplicaName(svc, n)}
  {
    NewestIsLast(mine, svc, n);
    var c := Newest(mine, svc).value;
    NewestIsListed(w, svc, mine, c);
    Rolling.RemovalDrops(w, c.name);
  }

  lemma NewestIsListed(w: World, svc: string, mine: seq<Container>, c: Container)
    requires IsListing(mine, Mine(LiveOnly(w), svc)) && Newest(mine, svc) == Some(c)
    ensures c.name in w && w[c.name] == c.row
  {
    NewestIsLargest(mine, svc);
    var i :| 0 <= i < |mine| && mine[i] == c;
    assert mine[i].name in Mine(LiveOnly(w), svc);
  }

  lemma WithoutReplica(w: World, svc: string, name: string)
    ensures Replicas(w - {name}, svc) == Replicas(w, svc) - {name}
  {
  }

  lemma NamesWithoutLast(svc: string, n: nat)
    requires n >= 2
    ensures Names(svc, n) - {ReplicaName(svc, n)} == Names(svc, n - 1)
  {
    NamesAre(svc, n - 1, ReplicaName(svc, n));
    ReplicaNamesDiffer(svc, n);
  }

  /** The table after going from n replicas to one more, one less, or as many, at the end of the names. */
  function AtEnd(w: World, svc: string, m: Manifest, n: nat, id: nat, to: nat): World {
    if to > n then w[ReplicaName(svc, n + 1) := FromSpec(UpSpec(svc, m, n), id, Running)]
    else if to < n then w - {ReplicaName(svc, n)}
    else w
  }

  predicate OneStep(limits: Limits, n: nat, to: nat) {
    limits.min <= to <= limits.max && n - 1 <= to <= n + 1
  }

  lemma DecideKeepsLimits(e: Entry, k: Look)
    ensures Decide(e, k).Up? ==> k.n < k.limits.max
    ensures Decide(e, k).Down? ==> k.limits.min < k.n
  {
  }

  lemma ActChangesTheEnd(w: World, v: Verdict, svc: string, m: Manifest, limits: Limits, mine: seq<Container>, env: LocalEnv, n: nat)
    returns (to: nat)
    requires Wf(w) && Smooth(w, env) && 1 <= limits.min <= n <= limits.max <= 9
    requires IsListing(mine, Mine(LiveOnly(w), svc)) && Contiguous(mine, svc, n) && |mine| == n
    requires (v.Up? ==> n < limits.max) && (v.Down? ==> limits.min < n)
    ensures OneStep(limits, n, to) && Act(w, v, svc, m, mine, env) == AtEnd(w, svc, m, n, env.create.id, to)
  {
    match v {
      case Up => to := n + 1;
      case Down =>
        DownRemoves(w, svc, mine, n, env);
        to := n - 1;
      case _ => to := n;
    }
  }

  /** What a tick does to the table: it adds the next replica, or removes the last, within the limits, or
      leaves the table alone. */
  lemma TickChangesTheEnd(s: Local, svc: string, m: Manifest, limits: Limits, shown: seq<Container>, env: LocalEnv, n: nat)
    returns (to: nat)
    requires Wf(s.w) && Replicas(s.w, svc) == Names(svc, n) && Smooth(s.w, env) && IsListing(shown, LiveOnly(s.w))
    requires 1 <= limits.min <= n <= limits.max <= 9
    ensures OneStep(limits, n, to)
    ensures LocalTick(s, svc, m, limits, Labelled(shown, svc), env).w == AtEnd(s.w, svc, m, n, env.create.id, to)
  {
    Counted(s.w, svc, shown, n);
    LabelledIsListing(shown, LiveOnly(s.w), svc);
    var mine := Labelled(shown, svc);
    to := n;
    if Average(mine, env.stats).Some? {
      var k := LookAt(mine, svc, Average(mine, env.stats).value, limits, s.entry, env);
      DecideKeepsLimits(s.entry, k);
      to := ActChangesTheEnd(s.w, Decide(s.entry, k), svc, m, limits, mine, env, n);
    }
  }

  /** Such a change keeps the form of the replica set: the service's own name and the numbers from
      2 on, without gaps. */
  lemma EndKeepsNames(w: World, svc: string, m: Manifest, n: nat, id: nat, to: nat)
    requires Wf(w) && FreshId(w, id) && Replicas(w, svc) == Names(svc, n) && m.name == svc
    requires 1 <= to && 1 <= n && n - 1 <= to <= n + 1
    ensures Wf(AtEnd(w, svc, m, n, id, to)) && Replicas(AtEnd(w, svc, m, n, id, to), svc) == Names(svc, to)
  {
    if to < n {
      LastGone(w, svc, n);
    } else if to > n {
      NextAdded(w, svc, m, n, id);
    }
  }

  lemma LastGone(w: World, svc: string, n: nat)
    requires Wf(w) && Replicas(w, svc) == Names(svc, n) && n >= 2
    ensures Wf(w - {ReplicaName(svc, n)}) && Replicas(w - {ReplicaName(svc, n)}, svc) == Names(svc, n - 1)
  {
    WithoutReplica(w, svc, ReplicaName(svc, n));
    NamesWithoutLast(svc, n);
  }

  lemma NextAdded(w: World, svc: string, m: Manifest, n: nat, id: nat)
    requires Wf(w) && FreshId(w, id) && Replicas(w, svc) == Names(svc, n) && m.name == svc && n >= 1
    ensures var w' := w[ReplicaName(svc, n + 1) := FromSpec(UpSpec(svc, m, n), id, Running)];
            Wf(w') && Replicas(w', svc) == Names(svc, n + 1)
  {
  }

  datatype TickInput = TickInput(shown: seq<Container>, env: LocalEnv)

  /** The states after each tick. */
  function LocalRun(s: Local, svc: string, m: Manifest, limits: Limits, xs: seq<TickInput>): seq<Local>
    decreases |xs|
  {
    if xs == [] then []
    else
      var s' := LocalTick(s, svc, m, limits, Labelled(xs[0].shown, svc), xs[0].env);
      [s'] + LocalRun(s', svc, m, limits, xs[1..])
  }

  ghost predicate SmoothRun(s: Local, svc: string, m: Manifest, limits: Limits, xs: seq<TickInput>)
    decreases |xs|
  {
    xs != [] ==>
      && Smooth(s.w, xs[0].env) && IsListing(xs[0].shown, LiveOnly(s.w))
      && SmoothRun(LocalTick(s, svc, m, limits, Labelled(xs[0].shown, svc), xs[0].env), svc, m, limits, xs[1..])
  }

  ghost predicate InForm(w: World, svc: string, limits: Limits) {
    exists n: nat | limits.min <= n <= limits.max :: Replicas(w, svc) == Names(svc, n)
  }

  /** Over any run of ticks. */
  lemma {:induction false} RunKeepsNames(s: Local, svc: string, m: Manifest, limits: Limits, xs: seq<TickInput>)
    requires Wf(s.w) && InForm(s.w, svc, limits) && SmoothRun(s, svc, m, limits, xs)
    requires m.name == svc && 1 <= limits.min && limits.max <= 9
    ensures forall s' | s' in LocalRun(s, svc, m, limits, xs) :: InForm(s'.w, svc, limits) && svc in Replicas(s'.w, svc)
    decreases |xs|
  {
    if xs != [] {
      var n: nat :| limits.min <= n <= limits.max && Replicas(s.w, svc) == Names(svc, n);
      var s1 := LocalTick(s, svc, m, limits, Labelled(xs[0].shown, svc), xs[0].env);
      var n' := TickChangesTheEnd(s, svc, m, limits, xs[0].shown, xs[0].env, n);
      EndKeepsNames(s.w, svc, m, n, xs[0].env.create.id, n');
      NamesAre(svc, n', svc);
      RunKeepsNames(s1, svc, m, limits, xs[1..]);
    }
  }

  /** A new replica that runs counts as one exactly if the manifest bears the service's name: it is labelled
      with the manifest's, and looked for under the service's. */
  lemma NewReplicaCountsIff(w: World, svc: string, m: Manifest, n: nat, o: CreateOutcome)
    requires o.Started? && o.status == Running
    ensures ReplicaName(svc, n + 1) in Replicas(Create(w, UpSpec(svc, m, n), o), svc) <==> m.name == svc
    ensures Replicas(Create(w, UpSpec(svc, m, n), o), svc) ==
            if m.name == svc then Replicas(w, svc) + {ReplicaName(svc, n + 1)} else Replicas(w, svc) - {ReplicaName(svc, n + 1)}
  {
  }

  // ---- the ticks as they are carried out ----

  /** A request to a remote worker. */
  datatype Command = Autoscale(svc: string, from: nat, to: int)

  class Scaler {
    const rt: Runtime
    var history: map<string, Entry>
    var sent: seq<Command>

    constructor (rt: Runtime)
      ensures this.rt == rt && history == map[] && sent == []
    {
      this.rt, history, sent := rt, map[], [];
    }

    function EntryOf(svc: string): Entry
      reads this
    {
      if svc in history then history[svc] else NEVER
    }

    method Measure(l: seq<Container>, stats: map<nat, Load>) returns (load: Option<Load>)
      ensures load == Average(l, stats)
    {
      var cpu, mem, measured := 0.0, 0.0, 0;
      for i := 0 to |l|
        invariant Total(l[..i], stats) == Load(cpu, mem) && Measured(l[..i], stats) == measured
      {
        assert l[..i + 1][..i] == l[..i];
        if l[i].row.id in stats {
          var s := stats[l[i].row.id];
          cpu, mem, measured := cpu + s.cpu, mem + s.mem, measured + 1;
        }
      }
      assert l[..|l|] == l;
      load := if measured == 0 then None else Some(Load(cpu / measured as real, mem / measured as real));
    }

    method RemoveNewest(mine: seq<Container>, svc: string, env: LocalEnv) returns (ok: bool)
      requires rt.Valid()
      modifies rt
      ensures rt.Valid() && rt.containers == ScaledDown(old(rt.containers), mine, svc, env)
      ensures ok == (Newest(mine, svc).None? || env.deleteOk)
    {
      var victim: Option<Container> := None;
      for i := 0 to |mine|
        invariant victim == Newest(mine[..i], svc)
      {
        assert mine[..i + 1][..i] == mine[..i];
        if mine[i].name == svc {
          continue;
        }
        if victim.None? || Less(victim.value.name, mine[i].name) {
          victim := Some(mine[i]);
        }
      }
      assert mine[..|mine|] == mine;
      if victim.None? {
        return true;
      }
      rt.StopContainer(ById(victim.value.row.id), env.stopOk);
      rt.DeleteContainer(ById(victim.value.row.id), env.deleteOk);
      ok := env.deleteOk;
    }

    method Remember(svc: string, e: Entry)
      modifies this
      ensures EntryOf(svc) == e && sent == old(sent)
      ensures forall other | other != svc :: EntryOf(other) == old(EntryOf(other))
    {
      history := history[svc := e];
    }

    /** Scales, or starts or stops waiting, as the measured load demands. */
    method Scale(svc: string, m: Manifest, limits: Limits, mine: seq<Container>, load: Load, env: LocalEnv)
      requires rt.Valid()
      modifies this, rt
      ensures rt.Valid() && sent == old(sent)
      ensures var e, k := old(EntryOf(svc)), LookAt(mine, svc, load, limits, old(EntryOf(svc)), env);
              && rt.containers == Act(old(rt.containers), Decide(e, k), svc, m, mine, env)
              && EntryOf(svc) == Seen(e, k)
      ensures forall other | other != svc :: EntryOf(other) == old(EntryOf(other))
    {
      var e, current, t := EntryOf(svc), |mine|, limits.target;
      if (load.cpu >= t || load.mem >= t) && current < limits.max {
        if e.lastUp.Some? && env.now - e.lastUp.value < UP_COOLDOWN {
          return;
        }
        var ok := rt.CreateContainer(UpSpec(svc, m, current), env.create);
        if ok {
          Remember(svc, e.(lastUp := Some(env.now), below := None));
        }
      } else if load.cpu < t * 0.5 && load.mem < t * 0.5 && current > limits.min {
        if e.below.None? {
          Remember(svc, e.(below := Some(env.now)));
          return;
        }
        if env.now - e.below.value < DOWN_COOLDOWN {
          return;
        }
        var ok := RemoveNewest(mine, svc, env);
        if ok {
          Remember(svc, e.(lastDown := Some(env.now), below := None));
        }
      } else if e.below.Some? && load.cpu >= t * 0.5 {
        Remember(svc, e.(below := None));
      }
    }

    /** A tick of a service whose containers run here. */
    method ProcessLocal(svc: string, m: Manifest, limits: Limits, env: LocalEnv) returns (ghost shown: seq<Container>)
      requires rt.Valid()
      modifies this, rt
      ensures rt.Valid() && sent == old(sent) && IsListing(shown, LiveOnly(old(rt.containers)))
      ensures forall n | n in old(rt.containers) ::
                Container(n, old(rt.containers)[n]) in shown <==> old(rt.containers)[n].status in {Running, Paused, Restarting}
      ensures var s := LocalTick(Local(old(rt.containers), old(EntryOf(svc))), svc, m, limits, Labelled(shown, svc), env);
              rt.containers == s.w && EntryOf(svc) == s.entry
      ensures forall other | other != svc :: EntryOf(other) == old(EntryOf(other))
    {
      var l := rt.ListLive();
      shown := l;
      ghost var w := rt.containers;
      assert forall n | n in w :: Container(n, w[n]) in l <==> n in LiveOnly(w) by {
        forall n | n in w && Container(n, w[n]) in l
          ensures n in LiveOnly(w)
        {
          var k :| 0 <= k < |l| && l[k] == Container(n, w[n]);
        }
      }
      var mine := SelectLabelled(l, svc);
      var load := Measure(mine, env.stats);
      if load.Some? {
        Scale(svc, m, limits, mine, load.value, env);
      }
    }

    /** A tick of a service on a remote worker, which reports its containers and its load. */
    method ProcessRemote(svc: string, limits: Limits, now: int, reported: seq<Container>, load: Load, sendOk: bool)
      modifies this
      ensures |Labelled(reported, svc)| == 0 ==> history == old(history) && sent == old(sent)
      ensures |Labelled(reported, svc)| > 0 ==>
                var n := |Labelled(reported, svc)|;
                var k := Look(now, true, n, load, limits, sendOk);
                && EntryOf(svc) == Seen(old(EntryOf(svc)), k)
                && sent == old(sent) + (match Decide(old(EntryOf(svc)), k)
                                        case Up => [Autoscale(svc, n, n + 1)]
                                        case Down => [Autoscale(svc, n, n - 1)]
                                        case _ => [])
      ensures forall other | other != svc :: EntryOf(other) == old(EntryOf(other))
    {
      var e := EntryOf(svc);
      var mine := SelectLabelled(reported, svc);
      var current := |mine|;
      if current == 0 {
        return;
      }
      var t := limits.target;
      if (load.cpu >= t || load.mem >= t) && current < limits.max {
        if e.lastUp.Some? && now - e.lastUp.value < UP_COOLDOWN {
          return;
        }
        sent := sent + [Autoscale(svc, current, current + 1)];
        if sendOk {
          Remember(svc, e.(lastUp := Some(now), below := None));
        }
      } else if load.cpu < t * 0.5 && load.mem < t * 0.5 && current > limits.min {
        if e.below.None? {
          Remember(svc, e.(below := Some(now)));
          return;
        }
        if now - e.below.value < DOWN_COOLDOWN {
          return;
        }
        sent := sent + [Autoscale(svc, current, current - 1)];
        if sendOk {
          Remember(svc, e.(lastDown := Some(now), below := None));
        }
      }
    }
  }
}
