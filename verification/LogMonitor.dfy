/** The log monitor's books: it follows the logs of running containers and scans those of exited
    ones once. */
module LogMonitor {
  import opened ContainerRuntime

  /** A container as a listing shows it. */
  datatype Listed = Listed(id: string, internal: bool, status: Status)

  /** What the monitor keeps, and what it has set going: `starts` lists the containers whose logs it
      began to follow, `cancels` the positions in that list of those it stopped following, and
      `scans` the containers whose logs it read through. */
  datatype State = State(watching: map<string, nat>, scanned: set<string>,
                         starts: seq<string>, cancels: seq<nat>, scans: seq<string>)

  const INITIAL := State(map[], {}, [], [], [])

  predicate Distinct<T(==)>(s: seq<T>) {
    forall i, j | 0 <= i < j < |s| :: s[i] != s[j]
  }

  function SetOf<T>(s: seq<T>): set<T> {
    set x | x in s
  }

  function Ids(l: seq<Listed>): set<string> {
    set c | c in l :: c.id
  }

  function RunningIds(l: seq<Listed>): set<string> {
    set c | c in l && c.status == Running :: c.id
  }

  /** The containers whose logs are to be followed, and to be scanned. */
  function Watched(l: seq<Listed>): set<string> {
    set c | c in l && c.status == Running && !c.internal :: c.id
  }

  function Ended(l: seq<Listed>): set<string> {
    set c | c in l && (c.status == Exited || c.status == Stopped) && !c.internal :: c.id
  }

  // ---- one round ----

  function Kept(watching: map<string, nat>, running: set<string>): map<string, nat> {
    map id | id in watching && id in running :: watching[id]
  }

  function Visited(s: State, c: Listed): State {
    if c.internal then s
    else if c.status == Running && c.id !in s.watching then
      s.(watching := s.watching[c.id := |s.starts|], starts := s.starts + [c.id])
    else if (c.status == Exited || c.status == Stopped) && c.id !in s.scanned then
      s.(scanned := s.scanned + {c.id}, scans := s.scans + [c.id])
    else s
  }

  function VisitedAll(s: State, l: seq<Listed>): State {
    if l == [] then s else Visited(VisitedAll(s, l[..|l| - 1]), l[|l| - 1])
  }

  /** The watches of containers outside the set. */
  function Gone(watching: map<string, nat>, running: set<string>): set<nat> {
    set id | id in watching && id !in running :: watching[id]
  }

  /** Exactly the watches of containers outside the set are cancelled, each once, in whatever order. */
  ghost predicate Cancelled(s: State, running: set<string>, s': State) {
    && s' == s.(watching := Kept(s.watching, running), cancels := s'.cancels)
    && s.cancels <= s'.cancels
    && Distinct(s'.cancels[|s.cancels|..])
    && SetOf(s'.cancels[|s.cancels|..]) == Gone(s.watching, running)
  }

  function Prune(s: State, l: seq<Listed>): State {
    s.(scanned := s.scanned * Ids(l))
  }

  ghost predicate Reconciled(s: State, l: seq<Listed>, s': State) {
    exists s1 | Cancelled(s, RunningIds(l), s1) :: s' == Prune(VisitedAll(s1, l), l)
  }

  ghost predicate StoppedAll(s: State, s': State) {
    Cancelled(s, {}, s')
  }

  // ---- what every round keeps ----

  /** The k-th watch is on: it is the one on record for its container. */
  ghost predicate IsLive(s: State, k: nat) {
    k < |s.starts| && s.starts[k] in s.watching && s.watching[s.starts[k]] == k
  }

  ghost predicate OnRecord(s: State, id: string) {
    id in s.watching ==> s.watching[id] < |s.starts| && s.starts[s.watching[id]] == id
  }

  /** Every watch that was started either is on, or was cancelled, exactly once. */
  ghost predicate Valid(s: State) {
    && (forall id :: OnRecord(s, id))
    && (forall k: nat :: k in s.cancels <==> k < |s.starts| && !IsLive(s, k))
    && Distinct(s.cancels)
  }

  /** At no time are the logs of one container followed twice. */
  lemma OneWatchEach(s: State, j: nat, k: nat)
    requires Valid(s) && j < |s.starts| && k < |s.starts| && s.starts[j] == s.starts[k]
    requires j !in s.cancels && k !in s.cancels
    ensures j == k
  {
  }

  lemma AppendDistinct<T>(a: seq<T>, b: seq<T>)
    requires Distinct(a) && Distinct(b) && forall x | x in b :: x !in a
    ensures Distinct(a + b)
  {
    var s := a + b;
    forall i, j | 0 <= i < j < |s|
      ensures s[i] != s[j]
    {
      if j >= |a| {
        assert s[j] == b[j - |a|] && b[j - |a|] in b;
        if i >= |a| {
          assert s[i] == b[i - |a|];
        }
      }
    }
  }

  lemma CancelKeepsValid(s: State, running: set<string>, s': State)
    requires Valid(s) && Cancelled(s, running, s')
    ensures Valid(s')
  {
    var more := s'.cancels[|s.cancels|..];
    assert s'.cancels == s.cancels + more;
    forall k: nat
      ensures k in more <==> IsLive(s, k) && !IsLive(s', k)
    {
      GoneAre(s, running, k);
      assert k in more <==> k in SetOf(more);
    }
    AppendDistinct(s.cancels, more);
    forall id
      ensures OnRecord(s', id)
    {
      assert OnRecord(s, id);
    }
  }

  lemma GoneAre(s: State, running: set<string>, k: nat)
    requires Valid(s)
    ensures k in Gone(s.watching, running) <==> IsLive(s, k) && s.starts[k] !in running
  {
    if k in Gone(s.watching, running) {
      var id :| id in s.watching && id !in running && s.watching[id] == k;
      assert OnRecord(s, id);
    }
  }

  lemma VisitKeepsValid(s: State, c: Listed)
    requires Valid(s)
    ensures Valid(Visited(s, c))
  {
    var s' := Visited(s, c);
    forall id
      ensures OnRecord(s', id)
    {
      assert OnRecord(s, id);
    }
    forall k: nat
      ensures k in s'.cancels <==> k < |s'.starts| && !IsLive(s', k)
    {
      assert k in s.cancels <==> k < |s.starts| && !IsLive(s, k);
    }
  }

  lemma {:induction false} VisitAllKeepsValid(s: State, l: seq<Listed>)
    requires Valid(s)
    ensures Valid(VisitedAll(s, l))
  {
    if l != [] {
      VisitAllKeepsValid(s, l[..|l| - 1]);
      VisitKeepsValid(VisitedAll(s, l[..|l| - 1]), l[|l| - 1]);
    }
  }

  lemma PruneKeepsValid(s: State, l: seq<Listed>)
    requires Valid(s)
    ensures Valid(Prune(s, l))
  {
    assert forall id :: OnRecord(s, id) ==> OnRecord(Prune(s, l), id);
    assert forall k: nat :: IsLive(s, k) <==> IsLive(Prune(s, l), k);
  }

  /** Every round keeps the books in order. */
  lemma ReconcileKeepsValid(s: State, l: seq<Listed>, s': State)
    requires Valid(s) && Reconciled(s, l, s')
    ensures Valid(s')
  {
    var s1 :| Cancelled(s, RunningIds(l), s1) && s' == Prune(VisitedAll(s1, l), l);
    CancelKeepsValid(s, RunningIds(l), s1);
    VisitAllKeepsValid(s1, l);
    PruneKeepsValid(VisitedAll(s1, l), l);
  }

  /** After stopping, every watch that was ever started has been cancelled, exactly once. */
  lemma StopCancelsAll(s: State, s': State)
    requires Valid(s) && StoppedAll(s, s')
    ensures Valid(s') && s'.watching == map[]
    ensures Distinct(s'.cancels) && forall k: nat :: k in s'.cancels <==> k < |s'.starts|
  {
    CancelKeepsValid(s, {}, s');
  }

  // ---- what a round achieves ----

  lemma {:induction false} VisitAllWatches(s: State, l: seq<Listed>)
    ensures VisitedAll(s, l).watching.Keys == s.watching.Keys + Watched(l)
  {
    if l != [] {
      var p, c := l[..|l| - 1], l[|l| - 1];
      VisitAllWatches(s, p);
      assert forall x :: x in l <==> x in p || x == c;
      assert Watched(l) == Watched(p) + if c.status == Running && !c.internal then {c.id} else {};
    }
  }

  /** Labels of a container do not change. */
  ghost predicate Consistent(l: seq<Listed>, internal: set<string>) {
    forall c | c in l :: c.internal <==> c.id in internal
  }

  /** After a round exactly the running containers that are not internal are being followed. */
  lemma WatchesTheRunning(s: State, l: seq<Listed>, s': State, internal: set<string>)
    requires Consistent(l, internal) && Reconciled(s, l, s') && s.watching.Keys !! internal
    ensures s'.watching.Keys == Watched(l) && s'.watching.Keys !! internal
  {
    var s1 :| Cancelled(s, RunningIds(l), s1) && s' == Prune(VisitedAll(s1, l), l);
    VisitAllWatches(s1, l);
    forall id | id in s1.watching
      ensures id in Watched(l)
    {
      var c :| c in l && c.status == Running && c.id == id;
    }
  }

  lemma {:induction false} VisitAllScans(s: State, l: seq<Listed>)
    ensures var s' := VisitedAll(s, l);
            && s'.scanned == s.scanned + Ended(l)
            && s.scans <= s'.scans
            && Distinct(s'.scans[|s.scans|..])
            && SetOf(s'.scans[|s.scans|..]) == Ended(l) - s.scanned
  {
    if l != [] {
      var p, c := l[..|l| - 1], l[|l| - 1];
      VisitAllScans(s, p);
      assert forall x :: x in l <==> x in p || x == c;
      assert Ended(l) == Ended(p) + if (c.status == Exited || c.status == Stopped) && !c.internal then {c.id} else {};
      var sp := VisitedAll(s, p);
      OneMoreScan(s, sp, c);
    }
  }

  lemma OneMoreScan(s: State, sp: State, c: Listed)
    requires s.scans <= sp.scans && Distinct(sp.scans[|s.scans|..])
    requires SetOf(sp.scans[|s.scans|..]) == sp.scanned - s.scanned && s.scanned <= sp.scanned
    ensures var s' := Visited(sp, c);
            && s.scans <= s'.scans
            && Distinct(s'.scans[|s.scans|..])
            && SetOf(s'.scans[|s.scans|..]) == s'.scanned - s.scanned
  {
    var more, s' := sp.scans[|s.scans|..], Visited(sp, c);
    if s'.scans != sp.scans {
      assert s'.scans[|s.scans|..] == more + [c.id];
      assert c.id !in SetOf(more);
      AppendDistinct(more, [c.id]);
      assert SetOf(more + [c.id]) == SetOf(more) + {c.id};
    }
  }

  /** The containers a round scans. */
  function Scanned(s: State, s': State): set<string> {
    if |s.scans| <= |s'.scans| then SetOf(s'.scans[|s.scans|..]) else {}
  }

  /** A round scans, once each, the ended containers not marked yet; marks stay on listed ones. */
  lemma RoundScans(s: State, l: seq<Listed>, s': State)
    requires Reconciled(s, l, s')
    ensures s.scans <= s'.scans && Distinct(s'.scans[|s.scans|..])
    ensures Scanned(s, s') == Ended(l) - s.scanned
    ensures s'.scanned == (s.scanned + Ended(l)) * Ids(l)
  {
    var s1 :| Cancelled(s, RunningIds(l), s1) && s' == Prune(VisitedAll(s1, l), l);
    VisitAllScans(s1, l);
  }

  /** The states between rounds. */
  ghost predicate IsRun(states: seq<State>, lists: seq<seq<Listed>>) {
    && |states| == |lists| + 1
    && forall k | 0 <= k < |lists| :: Reconciled(states[k], lists[k], states[k + 1])
  }

  ghost predicate ListedIn(lists: seq<seq<Listed>>, i: nat, j: nat, id: string) {
    j <= |lists| && forall k | i <= k < j :: id in Ids(lists[k])
  }

  /** As long as a container keeps being listed, it stays marked. */
  lemma {:induction false} MarkStays(states: seq<State>, lists: seq<seq<Listed>>, i: nat, j: nat, id: string)
    requires IsRun(states, lists) && i <= j && ListedIn(lists, i, j, id) && id in states[i].scanned
    ensures id in states[j].scanned
    decreases j - i
  {
    if i < j {
      RoundScans(states[i], lists[i], states[i + 1]);
      MarkStays(states, lists, i + 1, j, id);
    }
  }

  /** Over any run of rounds, a container is scanned at most once while it keeps being listed. */
  lemma ScannedOnce(states: seq<State>, lists: seq<seq<Listed>>, i: nat, j: nat, id: string)
    requires IsRun(states, lists) && i < j < |lists| && ListedIn(lists, i, j, id)
    requires id in Scanned(states[i], states[i + 1])
    ensures id !in Scanned(states[j], states[j + 1])
  {
    RoundScans(states[i], lists[i], states[i + 1]);
    assert id in Ids(lists[i]);
    MarkStays(states, lists, i + 1, j, id);
    RoundScans(states[j], lists[j], states[j + 1]);
  }

  /** A mark comes from a scan, in a round from which on the container has been listed. */
  lemma {:induction false} MarkComesFromScan(states: seq<State>, lists: seq<seq<Listed>>, n: nat, id: string) returns (i: nat)
    requires IsRun(states, lists) && n <= |lists| && states[0].scanned == {} && id in states[n].scanned
    ensures i < n && id in Scanned(states[i], states[i + 1]) && ListedIn(lists, i, n, id)
  {
    RoundScans(states[n - 1], lists[n - 1], states[n]);
    if id in Scanned(states[n - 1], states[n]) {
      i := n - 1;
    } else {
      i := MarkComesFromScan(states, lists, n - 1, id);
    }
  }

  /** Every ended container is scanned: in the round that lists it as ended, or in an earlier one since
      when it has been listed all the time. With `ScannedOnce`, in exactly one of these. */
  lemma EndedIsScanned(states: seq<State>, lists: seq<seq<Listed>>, n: nat, id: string) returns (i: nat)
    requires IsRun(states, lists) && n < |lists| && states[0].scanned == {} && id in Ended(lists[n])
    ensures i <= n && id in Scanned(states[i], states[i + 1]) && ListedIn(lists, i, n + 1, id)
    ensures forall j | i < j <= n :: id !in Scanned(states[j], states[j + 1])
  {
    RoundScans(states[n], lists[n], states[n + 1]);
    assert Ended(lists[n]) <= Ids(lists[n]);
    i := MarkComesFromScan(states, lists, n + 1, id);
    forall j | i < j <= n
      ensures id !in Scanned(states[j], states[j + 1])
    {
      ScannedOnce(states, lists, i, j, id);
    }
  }

  // ---- from the start to the stop ----

  lemma {:induction false} RunKeepsValid(states: seq<State>, lists: seq<seq<Listed>>, n: nat)
    requires IsRun(states, lists) && n <= |lists| && states[0] == INITIAL
    ensures Valid(states[n])
  {
    if n > 0 {
      RunKeepsValid(states, lists, n - 1);
      ReconcileKeepsValid(states[n - 1], lists[n - 1], states[n]);
    }
  }

  lemma {:induction false} RunWatches(states: seq<State>, lists: seq<seq<Listed>>, internal: set<string>, n: nat)
    requires IsRun(states, lists) && n <= |lists| && states[0] == INITIAL && forall k | 0 <= k < |lists| :: Consistent(lists[k], internal)
    ensures states[n].watching.Keys !! internal
    ensures n > 0 ==> states[n].watching.Keys == Watched(lists[n - 1])
  {
    if n > 0 {
      RunWatches(states, lists, internal, n - 1);
      WatchesTheRunning(states[n - 1], lists[n - 1], states[n], internal);
    }
  }

  /** The life of a monitor, from its start through any rounds to its stop: after each round exactly the
      running containers that are not internal are followed, never one of them twice, and in the end
      every watch that was ever started has been cancelled exactly once, and nothing else has. */
  lemma WholeLife(states: seq<State>, lists: seq<seq<Listed>>, stopped: State, internal: set<string>)
    requires IsRun(states, lists) && states[0] == INITIAL && StoppedAll(states[|lists|], stopped)
    requires forall k | 0 <= k < |lists| :: Consistent(lists[k], internal)
    ensures forall n | 0 < n <= |lists| :: states[n].watching.Keys == Watched(lists[n - 1])
    ensures forall n, j, k | 0 <= n <= |lists| && 0 <= j < k < |states[n].starts| && states[n].starts[j] == states[n].starts[k] ::
              j in states[n].cancels || k in states[n].cancels
    ensures Distinct(stopped.cancels) && forall k: nat :: k in stopped.cancels <==> k < |stopped.starts|
  {
    forall n | 0 < n <= |lists|
      ensures states[n].watching.Keys == Watched(lists[n - 1])
    {
      RunWatches(states, lists, internal, n);
    }
    forall n, j, k | 0 <= n <= |lists| && 0 <= j < k < |states[n].starts| && states[n].starts[j] == states[n].starts[k]
      ensures j in states[n].cancels || k in states[n].cancels
    {
      RunKeepsValid(states, lists, n);
      if j !in states[n].cancels && k !in states[n].cancels {
        OneWatchEach(states[n], j, k);
      }
    }
    RunKeepsValid(states, lists, |lists|);
    StopCancelsAll(states[|lists|], stopped);
  }

  // ---- the monitor ----

  class Monitor {
    var watching: map<string, nat>
    var scanned: set<string>
    var starts: seq<string>
    var cancels: seq<nat>
    var scans: seq<string>

    constructor ()
      ensures Now() == INITIAL && Valid(Now())
    {
      watching, scanned, starts, cancels, scans := map[], {}, [], [], [];
    }

    function Now(): State
      reads this
    {
      State(watching, scanned, starts, cancels, scans)
    }

    /** Stops following containers that are not in the set. */
    method CancelGone(running: set<string>)
      requires Valid(Now())
      modifies this
      ensures Cancelled(old(Now()), running, Now())
    {
      var all := watching;
      var todo := all.Keys;
      ghost var more: seq<nat> := [];
      ghost var s := Now();
      while todo != {}
        invariant todo <= all.Keys
        invariant Now() == s.(watching := Kept(all, running + todo), cancels := s.cancels + more)
        invariant SetOf(more) == Gone(all, running + todo) && Distinct(more)
        decreases todo
      {
        var id :| id in todo;
        if id in running {
          assert running + todo == running + (todo - {id});
        } else {
          GoneNext(s, running + todo, id);
          assert running + todo - {id} == running + (todo - {id});
          AppendDistinct(more, [all[id]]);
          more := more + [all[id]];
          cancels := cancels + [watching[id]];
          watching := watching - {id};
        }
        todo := todo - {id};
      }
      assert running + todo == running;
      assert cancels[|s.cancels|..] == more;
    }

    method Visit(c: Listed)
      modifies this
      ensures Now() == Visited(old(Now()), c)
    {
      if c.internal {
        return;
      }
      match c.status {
        case Running =>
          if c.id !in watching {
            watching := watching[c.id := |starts|];
            starts := starts + [c.id];
          }
        case Exited => Scan(c.id);
        case Stopped => Scan(c.id);
        case _ =>
      }
    }

    method Scan(id: string)
      modifies this
      ensures Now() == if id in old(scanned) then old(Now())
                       else old(Now()).(scanned := old(scanned) + {id}, scans := old(scans) + [id])
    {
      if id !in scanned {
        scanned := scanned + {id};
        scans := scans + [id];
      }
    }

    method Reconcile(l: seq<Listed>)
      requires Valid(Now())
      modifies this
      ensures Reconciled(old(Now()), l, Now()) && Valid(Now())
    {
      ghost var s := Now();
      CancelGone(RunningIds(l));
      ghost var s1 := Now();
      for i := 0 to |l|
        invariant Now() == VisitedAll(s1, l[..i])
      {
        assert l[..i + 1][..i] == l[..i];
        Visit(l[i]);
      }
      assert l[..|l|] == l;
      var existing := Ids(l);
      scanned := set id | id in scanned && id in existing;
      assert Now() == Prune(VisitedAll(s1, l), l);
      ReconcileKeepsValid(s, l, Now());
    }

    method StopAll()
      requires Valid(Now())
      modifies this
      ensures StoppedAll(old(Now()), Now()) && Valid(Now())
    {
      ghost var s := Now();
      CancelGone({});
      StopCancelsAll(s, Now());
    }
  }

  /** One more watch outside the set. */
  lemma GoneNext(s: State, running: set<string>, id: string)
    requires Valid(s) && id in s.watching && id in running
    ensures Gone(s.watching, running - {id}) == Gone(s.watching, running) + {s.watching[id]}
    ensures s.watching[id] !in Gone(s.watching, running)
    ensures Kept(s.watching, running - {id}) == Kept(s.watching, running) - {id}
  {
    assert OnRecord(s, id);
    GoneAre(s, running, s.watching[id]);
    forall k
      ensures k in Gone(s.watching, running - {id}) <==> k in Gone(s.watching, running) + {s.watching[id]}
    {
      if k == s.watching[id] {
        assert id !in running - {id};
      }
    }
  }
}
