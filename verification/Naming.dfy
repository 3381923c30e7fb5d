/** Container names: how services, replicas, slots and rollout steps are named,
    and why names made for different purposes never clash. */
module Naming {

  function Digit(d: nat): char
    requires d < 10
  {
    "0123456789"[d]
  }

  predicate IsDigit(c: char) {
    '0' <= c <= '9'
  }

  /** Decimal text of a number, as the %d verb prints it. */
  function Decimal(n: nat): (s: string)
    ensures |s| > 0
    ensures forall c | c in s :: IsDigit(c)
  {
    if n < 10 then [Digit(n)] else Decimal(n / 10) + [Digit(n % 10)]
  }

  /** The number a decimal text stands for. */
  function Value(s: string): nat
    requires forall c | c in s :: IsDigit(c)
  {
    if s == [] then 0
    else
      assert IsDigit(s[|s| - 1]);
      10 * Value(s[..|s| - 1]) + (s[|s| - 1] as int - '0' as int)
  }

  lemma {:induction false} ValueOfDecimal(n: nat)
    ensures Value(Decimal(n)) == n
  {
    if n >= 10 {
      ValueOfDecimal(n / 10);
      assert Decimal(n)[..|Decimal(n)| - 1] == Decimal(n / 10);
    }
  }

  lemma DecimalInjective(a: nat, b: nat)
    requires Decimal(a) == Decimal(b)
    ensures a == b
  {
    ValueOfDecimal(a);
    ValueOfDecimal(b);
  }

  /** Name of the k-th replica of a service. */
  function ReplicaName(svc: string, k: nat): string {
    svc + "-" + Decimal(k)
  }

  /** Name of the container that a rolling update starts for the i-th old replica. */
  function RollName(svc: string, unixTime: nat, i: nat): string {
    svc + "-roll-" + Decimal(unixTime) + "-" + Decimal(i)
  }

  /** Name of the container of a slot; the empty slot is the service itself. */
  function SlotName(svc: string, slot: string): string {
    if slot == "" then svc else svc + "-" + slot
  }

  /** The slot a blue-green deploy moves to. */
  function NextSlot(current: string): string {
    if current == "green" then "blue" else "green"
  }

  /** Every container name the control loop can make up for a service. */
  ghost predicate Generated(svc: string, manifestName: string, name: string) {
    || name == manifestName
    || name == svc
    || name == SlotName(svc, "green")
    || name == SlotName(svc, "blue")
    || (exists k: nat :: name == ReplicaName(svc, k))
    || (exists t: nat, i: nat :: name == RollName(svc, t, i))
  }

  lemma ReplicaNameInjective(svc: string, a: nat, b: nat)
    requires ReplicaName(svc, a) == ReplicaName(svc, b)
    ensures a == b
  {
    assert ReplicaName(svc, a)[|svc| + 1..] == Decimal(a);
    assert ReplicaName(svc, b)[|svc| + 1..] == Decimal(b);
    DecimalInjective(a, b);
  }

  lemma SplitAtDash(x: string, y: string, x': string, y': string)
    requires forall c | c in x :: IsDigit(c)
    requires forall c | c in x' :: IsDigit(c)
    requires x + "-" + y == x' + "-" + y'
    ensures x == x' && y == y'
  {
    var l := x + "-" + y;
    assert l[|x|] == '-' && forall k | 0 <= k < |x| :: l[k] == x[k] && x[k] in x;
    assert l[|x'|] == '-' && forall k | 0 <= k < |x'| :: l[k] == x'[k] && x'[k] in x';
    assert |x| == |x'|;
    assert x == l[..|x|] == x';
    assert y == l[|x| + 1..] == y';
  }

  /** Rollout names of one service tell the replica indices apart, whatever the clock said. */
  lemma RollNameInjective(svc: string, t: nat, i: nat, t': nat, i': nat)
    requires RollName(svc, t, i) == RollName(svc, t', i')
    ensures t == t' && i == i'
  {
    var p := svc + "-roll-";
    var x, y := Decimal(t) + "-" + Decimal(i), Decimal(t') + "-" + Decimal(i');
    assert RollName(svc, t, i) == p + x && RollName(svc, t', i') == p + y;
    assert x == (p + x)[|p|..] == (p + y)[|p|..] == y;
    SplitAtDash(Decimal(t), Decimal(i), Decimal(t'), Decimal(i'));
    DecimalInjective(t, t');
    DecimalInjective(i, i');
  }

  lemma RollIsNotReplica(svc: string, t: nat, i: nat, k: nat)
    ensures RollName(svc, t, i) != ReplicaName(svc, k)
  {
    assert RollName(svc, t, i)[|svc| + 1] == 'r';
    assert ReplicaName(svc, k)[|svc| + 1] == Decimal(k)[0];
    assert Decimal(k)[0] in Decimal(k);
  }

  lemma SlotNameInjective(svc: string, a: string, b: string)
    requires a != "" && b != "" && SlotName(svc, a) == SlotName(svc, b)
    ensures a == b
  {
    assert SlotName(svc, a)[|svc| + 1..] == a;
    assert SlotName(svc, b)[|svc| + 1..] == b;
  }

  /** A deploy never reuses the name, or the slot label, of the slot it replaces. */
  lemma SlotsDiffer(svc: string, slot: string)
    ensures SlotName(svc, NextSlot(slot)) != SlotName(svc, slot)
    ensures NextSlot(slot) != slot
    ensures NextSlot(slot) == if slot == "green" then "blue" else "green"
    ensures SlotName(svc, NextSlot(slot)) == svc + "-" + NextSlot(slot)
  {
    assert |SlotName(svc, NextSlot(slot))| > |svc|;
    if slot != "" && SlotName(svc, NextSlot(slot)) == SlotName(svc, slot) {
      SlotNameInjective(svc, NextSlot(slot), slot);
      assert false;
    }
  }

  // ---- the order scale-down picks by ----

  /** Go's < on strings: the first difference decides, a proper prefix is smaller. */
  predicate Less(a: string, b: string) {
    if b == "" then false
    else if a == "" then true
    else if a[0] != b[0] then a[0] < b[0]
    else Less(a[1..], b[1..])
  }

  lemma {:induction false} LessTotal(a: string, b: string)
    ensures a == b || Less(a, b) || Less(b, a)
    ensures !(Less(a, b) && Less(b, a))
    ensures Less(a, b) ==> a != b
  {
    if a != "" && b != "" && a[0] == b[0] {
      LessTotal(a[1..], b[1..]);
      assert a == [a[0]] + a[1..] && b == [b[0]] + b[1..];
    }
  }

  lemma {:induction false} LessTransitive(a: string, b: string, c: string)
    requires Less(a, b) && Less(b, c)
    ensures Less(a, c)
  {
    if a != "" && a[0] == b[0] && b[0] == c[0] {
      LessTransitive(a[1..], b[1..], c[1..]);
    }
  }

  lemma {:induction false} LessCommonPrefix(p: string, a: string, b: string)
    ensures Less(p + a, p + b) == Less(a, b)
  {
    if p == "" {
      assert p + a == a && p + b == b;
    } else {
      LessCommonPrefix(p[1..], a, b);
      assert (p + a)[1..] == p[1..] + a && (p + b)[1..] == p[1..] + b;
    }
  }

  /** Up to nine replicas the string order of replica names is the numeric order;
      the plain service name comes before all of them. */
  lemma SingleDigitOrder(svc: string, a: nat, b: nat)
    requires a < 10 && b < 10
    ensures Less(ReplicaName(svc, a), ReplicaName(svc, b)) <==> a < b
    ensures Less(svc, ReplicaName(svc, a))
  {
    LessCommonPrefix(svc + "-", Decimal(a), Decimal(b));
    assert Decimal(a)[1..] == "" && Decimal(b)[1..] == "";
    LessCommonPrefix(svc, "", "-" + Decimal(a));
    assert svc + ("-" + Decimal(a)) == ReplicaName(svc, a) && svc + "" == svc;
  }

  /** From ten replicas on it is not: the ninth sorts after the tenth. */
  lemma NineSortsAfterTen(svc: string)
    ensures Less(ReplicaName(svc, 10), ReplicaName(svc, 9))
  {
    LessCommonPrefix(svc + "-", Decimal(10), Decimal(9));
    assert Decimal(10) == "10" && Decimal(9) == "9";
  }
}
