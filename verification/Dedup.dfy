/** Suppressing repeated messages: a message is let through if no message of the same key was let
    through within the window before. Old entries are thrown away at every call. */
module Dedup {

  type History = map<string, int>

  /** A message, and what the clock shows at the three moments the call reads it: to find old
      entries, to compare, and to note the message. */
  datatype Ask = Ask(key: string, prune: int, check: int, store: int)

  const KEEP := 10

  function Pruned(h: History, cutoff: int): History {
    map k | k in h && h[k] >= cutoff :: h[k]
  }

  predicate Repeats(h: History, a: Ask, window: nat) {
    a.key in h && a.check - h[a.key] < window
  }

  function Noted(h: History, a: Ask, window: nat): History {
    if Repeats(h, a, window) then h else h[a.key := a.store]
  }

  /** The history before the n-th message, when old entries are thrown away, and when none are. */
  function Kept(t: seq<Ask>, n: nat, window: nat): History
    requires n <= |t|
  {
    if n == 0 then map[]
    else Noted(Pruned(Kept(t, n - 1, window), t[n - 1].prune - KEEP * window), t[n - 1], window)
  }

  function Full(t: seq<Ask>, n: nat, window: nat): History
    requires n <= |t|
  {
    if n == 0 then map[] else Noted(Full(t, n - 1, window), t[n - 1], window)
  }

  /** What the call answers for the i-th message. */
  predicate Duplicate(t: seq<Ask>, i: nat, window: nat)
    requires i < |t|
  {
    Repeats(Pruned(Kept(t, i, window), t[i].prune - KEEP * window), t[i], window)
  }

  class Filter {
    const window: nat
    var seen: History

    constructor (window: nat)
      ensures this.window == window && seen == map[]
    {
      this.window, seen := window, map[];
    }

    method IsDuplicate(a: Ask) returns (dup: bool)
      modifies this
      ensures var h := Pruned(old(seen), a.prune - KEEP * window);
              dup == Repeats(h, a, window) && seen == Noted(h, a, window)
    {
      var cutoff := a.prune - KEEP * window;
      var all := seen;
      var todo := all.Keys;
      while todo != {}
        invariant todo <= all.Keys
        invariant seen == map k | k in all && (k in todo || all[k] >= cutoff) :: all[k]
        decreases todo
      {
        var k :| k in todo;
        if all[k] < cutoff {
          seen := seen - {k};
        }
        todo := todo - {k};
      }
      assert seen == Pruned(all, cutoff);
      if a.key in seen && a.check - seen[a.key] < window {
        return true;
      }
      seen := seen[a.key := a.store];
      dup := false;
    }
  }

  // ---- throwing old entries away makes no difference ----

  /** The clock does not run backwards. */
  predicate Ordered(t: seq<Ask>) {
    && (forall i | 0 <= i < |t| :: t[i].prune <= t[i].check <= t[i].store)
    && (forall i, j | 0 <= i < j < |t| :: t[i].store <= t[j].prune)
  }

  /** The same entries, but for some that are too old to matter. */
  ghost predicate Agree(h: History, full: History, now: int, window: nat) {
    && (forall k | k in h :: k in full && full[k] == h[k])
    && (forall k | k in full && k !in h :: now - full[k] >= window)
  }

  lemma {:induction false} KeptAgrees(t: seq<Ask>, n: nat, window: nat, now: int)
    requires Ordered(t) && n <= |t| && (n > 0 ==> t[n - 1].store <= now)
    ensures Agree(Kept(t, n, window), Full(t, n, window), now, window)
  {
    if n > 0 {
      var a := t[n - 1];
      KeptAgrees(t, n - 1, window, a.prune);
      assert t[n - 1].prune <= t[n - 1].check <= t[n - 1].store;
      var h := Pruned(Kept(t, n - 1, window), a.prune - KEEP * window);
    }
  }

  /** Every verdict is the one an unbounded history would have given. */
  lemma PruningIsInvisible(t: seq<Ask>, i: nat, window: nat)
    requires Ordered(t) && i < |t|
    ensures Duplicate(t, i, window) == Repeats(Full(t, i, window), t[i], window)
  {
    assert t[i].prune <= t[i].check;
    assert i > 0 ==> t[i - 1].store <= t[i].prune;
    KeptAgrees(t, i, window, t[i].prune);
  }

  /** Throwing old entries away before or after noting a message is the same. */
  lemma PruneThenNote(h: History, a: Ask, window: nat)
    requires a.prune <= a.check <= a.store
    ensures var cutoff := a.prune - KEEP * window; Noted(Pruned(h, cutoff), a, window) == Pruned(Noted(h, a, window), cutoff)
  {
  }

  /** One more message, when what is kept is what the unbounded history holds but for old entries. */
  lemma PruneAgain(full: History, earlier: int, a: Ask, window: nat)
    requires earlier <= a.prune - KEEP * window && a.prune <= a.check <= a.store
    ensures var cutoff := a.prune - KEEP * window;
            Noted(Pruned(Pruned(full, earlier), cutoff), a, window) == Pruned(Noted(full, a, window), cutoff)
  {
    assert Pruned(Pruned(full, earlier), a.prune - KEEP * window) == Pruned(full, a.prune - KEEP * window);
    PruneThenNote(full, a, window);
  }

  lemma PrunesInOrder(t: seq<Ask>, n: nat)
    requires Ordered(t) && 1 < n <= |t|
    ensures t[n - 2].prune <= t[n - 1].prune
  {
    assert t[n - 2].prune <= t[n - 2].check <= t[n - 2].store <= t[n - 1].prune;
  }

  lemma {:induction false} KeptIsPruned(t: seq<Ask>, n: nat, window: nat)
    requires Ordered(t) && 0 < n <= |t|
    ensures Kept(t, n, window) == Pruned(Full(t, n, window), t[n - 1].prune - KEEP * window)
  {
    if n == 1 {
      PruneThenNote(map[], t[0], window);
    } else {
      KeptIsPruned(t, n - 1, window);
      PrunesInOrder(t, n);
      PruneAgain(Full(t, n - 1, window), t[n - 2].prune - KEEP * window, t[n - 1], window);
    }
  }

  /** What is kept, exactly: the entries not older than ten windows when the last call looked for old ones. */
  lemma KeptIff(t: seq<Ask>, n: nat, window: nat, key: string)
    requires Ordered(t) && 0 < n <= |t|
    ensures var kept, full := Kept(t, n, window), Full(t, n, window);
            && (key in kept <==> key in full && full[key] >= t[n - 1].prune - 10 * window)
            && (key in kept ==> kept[key] == full[key])
  {
    KeptIsPruned(t, n, window);
  }

  // ---- what is let through ----

  /** The i-th message came before the n-th and was let through. */
  predicate Passed(t: seq<Ask>, i: nat, n: nat, window: nat, key: string) {
    i < n <= |t| && t[i].key == key && !Repeats(Full(t, i, window), t[i], window)
  }

  lemma {:induction false} FullHoldsLast(t: seq<Ask>, n: nat, window: nat, key: string)
    requires Ordered(t) && n <= |t|
    ensures key in Full(t, n, window) ==> exists i: nat | i < n :: Passed(t, i, n, window, key) && t[i].store == Full(t, n, window)[key]
    ensures forall i: nat | i < n && Passed(t, i, n, window, key) :: key in Full(t, n, window) && t[i].store <= Full(t, n, window)[key]
  {
    if n > 0 {
      FullHoldsLast(t, n - 1, window, key);
      var a := t[n - 1];
      assert forall i: nat | i < n - 1 :: Passed(t, i, n, window, key) <==> Passed(t, i, n - 1, window, key);
      if key in Full(t, n, window) {
        if a.key == key && !Repeats(Full(t, n - 1, window), a, window) {
          assert Passed(t, n - 1, n, window, key);
        } else {
          var i: nat :| i < n - 1 && Passed(t, i, n - 1, window, key) && t[i].store == Full(t, n - 1, window)[key];
          assert Passed(t, i, n, window, key);
        }
      }
      forall i: nat | i < n && Passed(t, i, n, window, key)
        ensures key in Full(t, n, window) && t[i].store <= Full(t, n, window)[key]
      {
        if i < n - 1 {
          assert Passed(t, i, n - 1, window, key);
          assert t[i].store <= t[n - 1].prune <= t[n - 1].store;
        }
      }
    }
  }

  /** A message is suppressed exactly if one of the same key was let through less than a window before. */
  lemma DuplicateIff(t: seq<Ask>, i: nat, window: nat)
    requires Ordered(t) && i < |t|
    ensures Duplicate(t, i, window) <==>
            exists j: nat | j < i :: Passed(t, j, i, window, t[i].key) && t[i].check - t[j].store < window
  {
    PruningIsInvisible(t, i, window);
    FullHoldsLast(t, i, window, t[i].key);
  }

  /** Messages of one key that are let through are at least a window apart. */
  lemma PassedAreApart(t: seq<Ask>, i: nat, j: nat, window: nat)
    requires Ordered(t) && i < j < |t| && t[i].key == t[j].key
    requires !Duplicate(t, i, window) && !Duplicate(t, j, window)
    ensures t[j].check - t[i].store >= window
  {
    PruningIsInvisible(t, i, window);
    DuplicateIff(t, j, window);
    assert Passed(t, i, j, window, t[j].key);
  }
}
