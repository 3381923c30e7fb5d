/** The watcher of container events: which deaths are taken for wanted ones, and which are
    sent to self-healing. */
module StopTracker {
  import opened Naming

  const SECOND := 1_000_000_000
  const RECENT := 3 * SECOND

  datatype Kind = Created | Started | Restarted | Unpaused | Destroyed | Paused | Stopped | Killed | Died | OutOfMemory

  /** `slot` is the slot label, `at` the time at which the event is handled. */
  datatype Event = Event(kind: Kind, id: string, name: string, slot: string, signal: string, exitCode: string, at: int)

  datatype Heal = Heal(service: string, id: string)

  /** Events of slot containers going away are left to whoever runs the slots. */
  predicate Ignored(e: Event) {
    e.name == "" || (e.slot != "" && (e.kind.Stopped? || e.kind.Died? || e.kind.Destroyed?))
  }

  predicate Terminates(signal: string) {
    signal == "15" || signal == "SIGTERM"
  }

  /** A stop, or a request to terminate, of a container. */
  predicate Records(e: Event) {
    !Ignored(e) && (e.kind.Stopped? || (e.kind.Killed? && Terminates(e.signal)))
  }

  /** A death with an exit code that calls for an explanation. */
  predicate Suspicious(e: Event) {
    !Ignored(e) && e.kind.Died? && e.exitCode != "0"
  }

  /** The time of the last record of each container that no death has used up. */
  type Seen = map<string, int>

  predicate Recent(seen: Seen, e: Event) {
    e.id in seen && e.at - seen[e.id] < RECENT
  }

  function After(seen: Seen, e: Event): Seen {
    if Records(e) then seen[e.id := e.at]
    else if Suspicious(e) then seen - {e.id}
    else seen
  }

  predicate Heals(seen: Seen, e: Event) {
    || (!Ignored(e) && e.kind.Killed? && !Terminates(e.signal))
    || (Suspicious(e) && !Recent(seen, e))
    || (!Ignored(e) && e.kind.OutOfMemory?)
  }

  predicate EndsIn(name: string, suffix: string) {
    |suffix| <= |name| && name[|name| - |suffix|..] == suffix
  }

  function ServiceOf(name: string): string {
    if EndsIn(name, "-green") then name[..|name| - 6]
    else if EndsIn(name, "-blue") then name[..|name| - 5]
    else name
  }

  lemma CutOff(svc: string, suffix: string)
    ensures EndsIn(svc + suffix, suffix) && (svc + suffix)[..|svc + suffix| - |suffix|] == svc
  {
  }

  lemma EndsDiffer(name: string, suffix: string, other: string)
    requires suffix != "" && other != "" && EndsIn(name, suffix) && suffix[|suffix| - 1] != other[|other| - 1]
    ensures !EndsIn(name, other)
  {
  }

  lemma GreenCutOff(svc: string)
    ensures ServiceOf(svc + "-green") == svc
  {
    CutOff(svc, "-green");
  }

  lemma BlueCutOff(svc: string)
    ensures ServiceOf(svc + "-blue") == svc
  {
    CutOff(svc, "-blue");
    EndsDiffer(svc + "-blue", "-blue", "-green");
  }

  /** A heal for a slot's container is one for its service. */
  lemma ServiceOfSlot(svc: string)
    ensures ServiceOf(SlotName(svc, "green")) == svc && ServiceOf(SlotName(svc, "blue")) == svc
  {
    assert SlotName(svc, "green") == svc + "-green" && SlotName(svc, "blue") == svc + "-blue";
    GreenCutOff(svc);
    BlueCutOff(svc);
  }

  class Tracker {
    var seen: Seen

    constructor ()
      ensures seen == map[]
    {
      seen := map[];
    }

    method Record(id: string, now: int)
      modifies this
      ensures seen == old(seen)[id := now]
    {
      seen := seen[id := now];
    }

    method WasRecentlyStopped(id: string, now: int) returns (r: bool)
      modifies this
      ensures seen == old(seen) - {id}
      ensures r == (id in old(seen) && now - old(seen)[id] < RECENT)
    {
      if id !in seen {
        return false;
      }
      var ts := seen[id];
      seen := seen - {id};
      r := now - ts < RECENT;
    }
  }

  class Watcher {
    const stops: Tracker
    var queue: seq<Heal>

    constructor ()
      ensures fresh(stops) && stops.seen == map[] && queue == []
    {
      stops := new Tracker();
      queue := [];
    }

    method EnqueueHeal(e: Event)
      modifies this
      ensures queue == old(queue) + [Heal(ServiceOf(e.name), e.id)]
    {
      queue := queue + [Heal(ServiceOf(e.name), e.id)];
    }

    method HandleContainerEvent(e: Event)
      modifies this, stops
      ensures stops.seen == After(old(stops.seen), e)
      ensures queue == old(queue) + if Heals(old(stops.seen), e) then [Heal(ServiceOf(e.name), e.id)] else []
    {
      if e.name == "" {
        return;
      }
      if e.slot != "" && (e.kind.Stopped? || e.kind.Died? || e.kind.Destroyed?) {
        return;
      }
      match e.kind {
        case Stopped => stops.Record(e.id, e.at);
        case Killed =>
          if e.signal == "15" || e.signal == "SIGTERM" {
            stops.Record(e.id, e.at);
            return;
          }
          EnqueueHeal(e);
        case Died =>
          if e.exitCode == "0" {
            return;
          }
          var wanted := stops.WasRecentlyStopped(e.id, e.at);
          if !wanted {
            EnqueueHeal(e);
          }
        case OutOfMemory => EnqueueHeal(e);
        case _ =>
      }
    }
  }

  // ---- traces ----

  predicate Ordered(t: seq<Event>) {
    forall i, j | 0 <= i < j < |t| :: t[i].at <= t[j].at
  }

  /** What the tracker holds before the n-th event of a trace. */
  function SeenAt(t: seq<Event>, n: nat): Seen
    requires n <= |t|
  {
    if n == 0 then map[] else After(SeenAt(t, n - 1), t[n - 1])
  }

  /** The i-th event is a suspicious death that the tracker explains. */
  predicate Suppressed(t: seq<Event>, i: nat) {
    i < |t| && Suspicious(t[i]) && Recent(SeenAt(t, i), t[i])
  }

  /** The k-th event records a stop of the container, and no suspicious death of it comes
      between then and the n-th event. */
  predicate Unused(t: seq<Event>, k: nat, n: nat, id: string) {
    && k < n <= |t| && Records(t[k]) && t[k].id == id
    && forall j | k < j < n :: !(Suspicious(t[j]) && t[j].id == id)
  }

  /** The k-th event is the last record of the container before the n-th. */
  predicate LastRecord(t: seq<Event>, k: nat, n: nat, id: string) {
    Unused(t, k, n, id) && forall j | k < j < n :: !(Records(t[j]) && t[j].id == id)
  }

  /** What the tracker holds is exactly the last record that is not used up. */
  lemma {:induction false} SeenIsLastUnused(t: seq<Event>, n: nat, id: string)
    requires n <= |t|
    ensures id in SeenAt(t, n) ==> exists k: nat | k < n :: LastRecord(t, k, n, id) && t[k].at == SeenAt(t, n)[id]
    ensures forall k: nat | k < n && Unused(t, k, n, id) :: id in SeenAt(t, n)
  {
    if n > 0 {
      SeenIsLastUnused(t, n - 1, id);
      var e := t[n - 1];
      if id in SeenAt(t, n) {
        if Records(e) && e.id == id {
          assert LastRecord(t, n - 1, n, id);
        } else {
          var k: nat :| k < n - 1 && LastRecord(t, k, n - 1, id) && t[k].at == SeenAt(t, n - 1)[id];
          assert LastRecord(t, k, n, id);
        }
      }
      forall k: nat | k < n && Unused(t, k, n, id)
        ensures id in SeenAt(t, n)
      {
        if k < n - 1 {
          assert Unused(t, k, n - 1, id);
        }
      }
    }
  }

  /** When a death is explained, told without the tracker: some stop or request to terminate of the
      same container came less than three seconds before, and no suspicious death of it since. */
  lemma SuppressedIff(t: seq<Event>, i: nat)
    requires Ordered(t) && i < |t| && Suspicious(t[i])
    ensures Suppressed(t, i) <==> exists k: nat | k < i :: Unused(t, k, i, t[i].id) && t[i].at - t[k].at < RECENT
  {
    var id := t[i].id;
    SeenIsLastUnused(t, i, id);
    if k: nat :| k < i && Unused(t, k, i, id) && t[i].at - t[k].at < RECENT {
      var last: nat :| last < i && LastRecord(t, last, i, id) && t[last].at == SeenAt(t, i)[id];
      assert k <= last;
    }
  }

  /** Every other suspicious death is healed. */
  lemma DiesAreExplainedOrHealed(t: seq<Event>, i: nat)
    requires Ordered(t) && i < |t| && t[i].kind.Died? && t[i].name != "" && t[i].slot == "" && t[i].exitCode != "0"
    ensures Heals(SeenAt(t, i), t[i]) <==>
            !exists k: nat | k < i :: Unused(t, k, i, t[i].id) && t[i].at - t[k].at < RECENT
  {
    SuppressedIff(t, i);
  }

  /** What is sent to self-healing, told without the tracker. The name must be known. A container that is killed by a
      signal other than the request to terminate is healed, and so is one that runs out of memory. One that dies with
      a non-zero exit code is healed, unless it is a slot's, or was stopped or asked to terminate less than three
      seconds before and has not died like that since. Nothing else is healed. */
  lemma HealedIff(t: seq<Event>, i: nat)
    requires Ordered(t) && i < |t|
    ensures Heals(SeenAt(t, i), t[i]) <==>
            && t[i].name != ""
            && (|| (t[i].kind == Killed && t[i].signal != "15" && t[i].signal != "SIGTERM")
                || t[i].kind == OutOfMemory
                || (t[i].kind == Died && t[i].slot == "" && t[i].exitCode != "0" && !exists k: nat | k < i ::
                      Explains(t, k, i, t[i].id) && t[i].at - t[k].at < 3_000_000_000))
  {
    if Suspicious(t[i]) {
      SuppressedIff(t, i);
      forall k: nat | k < i
        ensures Unused(t, k, i, t[i].id) <==> Explains(t, k, i, t[i].id)
      {
        UnusedIs(t, k, i, t[i].id);
      }
    }
  }

  /** The k-th event is a stop or a request to terminate, and the container has not died with a non-zero exit code since. */
  predicate Explains(t: seq<Event>, k: nat, i: nat, id: string) {
    && k < i <= |t| && t[k].id == id && t[k].name != ""
    && ((t[k].kind == Stopped && t[k].slot == "") || (t[k].kind == Killed && (t[k].signal == "15" || t[k].signal == "SIGTERM")))
    && forall j | k < j < i :: !(t[j].id == id && t[j].name != "" && t[j].kind == Died && t[j].slot == "" && t[j].exitCode != "0")
  }

  lemma UnusedIs(t: seq<Event>, k: nat, i: nat, id: string)
    requires k < i <= |t|
    ensures Unused(t, k, i, id) <==> Explains(t, k, i, id)
  {
  }

  /** The stop that explains the i-th event. */
  ghost function Explanation(t: seq<Event>, i: nat): nat
    requires Suppressed(t, i)
  {
    SeenIsLastUnused(t, i, t[i].id);
    var k: nat :| k < i && LastRecord(t, k, i, t[i].id) && t[k].at == SeenAt(t, i)[t[i].id];
    k
  }

  /** No stop explains two deaths: to each explained death belongs an earlier stop, or request to
      terminate, of the same container, less than three seconds before, and to different deaths
      different ones. */
  lemma ExplanationsDiffer(t: seq<Event>, i: nat, j: nat)
    requires Suppressed(t, i) && Suppressed(t, j) && i < j
    ensures Explanation(t, i) != Explanation(t, j)
    ensures var k := Explanation(t, j);
            k < j && Records(t[k]) && t[k].id == t[j].id && t[j].at - t[k].at < RECENT
  {
  }

  /** The stop event that follows a wanted death is left over and explains the next one, too, when
      that comes soon enough. */
  lemma LeftOverStop(term: Event, die: Event, stop: Event, crash: Event)
    requires Records(term) && Suspicious(die) && Records(stop) && Suspicious(crash)
    requires term.id == die.id == stop.id == crash.id
    requires term.at <= die.at <= stop.at <= crash.at < stop.at + RECENT && die.at < term.at + RECENT
    ensures Suppressed([term, die, stop, crash], 1) && Suppressed([term, die, stop, crash], 3)
  {
  }
}
