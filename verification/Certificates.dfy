/** The certificates the authority has issued: a table that grows, in which a renewal links
    the old row and the new one. */
module Certificates {
  import opened Wrappers

  const DAY := 24 * 60 * 60
  const VALIDITY := 90 * DAY

  datatype Owner = Owner(kind: string, id: string)

  /** A row's id is its position in the table. */
  datatype Cert = Cert(owner: Owner, subject: string, notAfter: int, revoked: bool, to: Option<nat>, from: Option<nat>)

  type Table = seq<Cert>

  predicate Active(c: Cert) {
    !c.revoked && c.to.None?
  }

  predicate Expiring(c: Cert, threshold: int) {
    Active(c) && c.notAfter < threshold
  }

  /** How the renewal of one certificate goes: signing or saving the new one fails, writing the link
      to it fails, or it is done at a certain time; then writing the link back may still fail, which
      nobody notices. */
  datatype Answer = IssueFails | LinkFails(now: int) | Renewed(now: int, backlink: bool)

  function NewCert(owner: Owner, subject: string, now: int): Cert {
    Cert(owner, subject, now + VALIDITY, false, None, None)
  }

  function RenewOne(t: Table, i: nat, a: Answer): Table
    requires i < |t|
  {
    match a
    case IssueFails => t
    case LinkFails(now) => t + [NewCert(t[i].owner, t[i].subject, now)]
    case Renewed(now, backlink) =>
      t[i := t[i].(to := Some(|t|))]
      + [NewCert(t[i].owner, t[i].subject, now).(from := if backlink then Some(i) else None)]
  }

  predicate InTable(order: seq<nat>, t: Table) {
    forall k | 0 <= k < |order| :: order[k] < |t|
  }

  /** One after the other, up to the first failure. */
  function RenewAll(t: Table, order: seq<nat>, answers: seq<Answer>): Table
    requires |answers| == |order| && InTable(order, t)
    decreases |order|
  {
    if order == [] then t
    else
      var t' := RenewOne(t, order[0], answers[0]);
      if answers[0].Renewed? then RenewAll(t', order[1..], answers[1..]) else t'
  }

  predicate AllRenewed(answers: seq<Answer>) {
    forall a | a in answers :: a.Renewed?
  }

  /** The statement that links a row to the one renewing it, and the one that saves a whole row as it is held in
      memory; a row that does not exist is not touched. */
  function WithLink(t: Table, i: nat, to: nat): Table {
    if i < |t| then t[i := t[i].(to := Some(to))] else t
  }

  function WithRow(t: Table, i: nat, c: Cert): Table {
    if i < |t| then t[i := c] else t
  }

  function Revoked(t: Table, workerId: string): Table {
    seq(|t|, i requires 0 <= i < |t| => if t[i].owner == Owner("worker", workerId) then t[i].(revoked := true) else t[i])
  }

  // ---- the authority ----

  /** The query finds the rows due for renewal, in an order the database chooses. */
  ghost predicate IsFound(order: seq<nat>, t: Table, threshold: int) {
    && InTable(order, t) && (forall k | 0 <= k < |order| :: Expiring(t[order[k]], threshold))
    && (forall i: nat | i < |t| && Expiring(t[i], threshold) :: i in order)
    && (forall i, j | 0 <= i < j < |order| :: order[i] != order[j])
  }

  class Authority {
    var table: Table

    constructor ()
      ensures table == []
    {
      table := [];
    }

    /** The row is also handed back as it was saved. */
    method IssueCert(owner: Owner, subject: string, now: int, ok: bool) returns (id: Option<nat>, issued: Cert)
      modifies this
      ensures table == if ok then old(table) + [issued] else old(table)
      ensures id == if ok then Some(|old(table)|) else None
      ensures issued == Cert(owner, subject, now + 90 * 24 * 60 * 60, false, None, None)
    {
      issued := NewCert(owner, subject, now);
      if !ok {
        return None, issued;
      }
      id := Some(|table|);
      table := table + [issued];
    }

    method LinkCert(i: nat, to: nat, ok: bool) returns (done: bool)
      modifies this
      ensures table == if ok then WithLink(old(table), i, to) else old(table)
      ensures done == ok
    {
      if ok && i < |table| {
        table := table[i := table[i].(to := Some(to))];
      }
      done := ok;
    }

    method SaveCert(i: nat, row: Cert, ok: bool)
      modifies this
      ensures table == if ok then WithRow(old(table), i, row) else old(table)
    {
      if ok && i < |table| {
        table := table[i := row];
      }
    }

    method FindExpiring(threshold: int) returns (order: seq<nat>)
      ensures IsFound(order, table, threshold)
    {
      order := [];
      for i := 0 to |table|
        invariant forall k | 0 <= k < |order| :: order[k] < i && Expiring(table[order[k]], threshold)
        invariant forall j: nat | j < i && Expiring(table[j], threshold) :: j in order
        invariant forall j, k | 0 <= j < k < |order| :: order[j] != order[k]
      {
        if Expiring(table[i], threshold) {
          order := order + [i];
        }
      }
    }

    /** Renews one row, as the query returned it. */
    method RenewCert(i: nat, row: Cert, a: Answer) returns (ok: bool)
      requires i < |table| && table[i] == row
      modifies this
      ensures table == RenewOne(old(table), i, a)
      ensures ok == a.Renewed?
    {
      var now := if a.IssueFails? then 0 else a.now;
      var id, issued := IssueCert(row.owner, row.subject, now, !a.IssueFails?);
      if id.None? {
        return false;
      }
      var linked := LinkCert(i, id.value, !a.LinkFails?);
      if !linked {
        return false;
      }
      issued := issued.(from := Some(i));
      SaveCert(id.value, issued, a.backlink);
      ok := true;
    }

    /** `order` is what the query found. */
    method RenewExpiring(threshold: int, order: seq<nat>, answers: seq<Answer>) returns (ok: bool)
      requires IsFound(order, table, threshold) && |answers| == |order|
      modifies this
      ensures table == RenewAll(old(table), order, answers)
      ensures ok == AllRenewed(answers)
    {
      var expiring := table;
      for k := 0 to |order|
        invariant InTable(order, expiring) && InTable(order, table)
        invariant forall j | k <= j < |order| :: table[order[j]] == expiring[order[j]]
        invariant RenewAll(old(table), order, answers) == RenewAll(table, order[k..], answers[k..])
        invariant AllRenewed(answers) == AllRenewed(answers[k..])
      {
        assert order[k..][1..] == order[k + 1..] && answers[k..] == [answers[k]] + answers[k + 1..];
        var renewed := RenewCert(order[k], expiring[order[k]], answers[k]);
        if !renewed {
          return false;
        }
      }
      ok := true;
    }

    /** Every certificate of the worker that is not revoked becomes so. */
    method RevokeWorkerCert(workerId: string)
      modifies this
      ensures |table| == |old(table)|
      ensures forall i | 0 <= i < |table| && old(table)[i].owner == Owner("worker", workerId) :: table[i].revoked
      ensures forall i | 0 <= i < |table| && old(table)[i].owner != Owner("worker", workerId) :: table[i] == old(table)[i]
      ensures forall i | 0 <= i < |table| :: table[i].(revoked := old(table)[i].revoked) == old(table)[i]
      ensures table == Revoked(old(table), workerId)
    {
      var n := |table|;
      for i := 0 to n
        invariant |table| == n == |old(table)|
        invariant forall j | 0 <= j < i :: table[j] == Revoked(old(table), workerId)[j]
        invariant forall j | i <= j < n :: table[j] == old(table)[j]
      {
        if table[i].owner == Owner("worker", workerId) && !table[i].revoked {
          table := table[i := table[i].(revoked := true)];
        }
      }
    }
  }

  // ---- what a complete renewal achieves ----

  predicate InTime(answers: seq<Answer>, threshold: int) {
    forall a | a in answers && a.Renewed? :: a.now + VALIDITY >= threshold
  }

  /** The threshold is taken when the renewal begins, so the clock need only not run backwards. */
  lemma LaterIsInTime(start: int, answers: seq<Answer>)
    requires forall a | a in answers && a.Renewed? :: start <= a.now
    ensures InTime(answers, start + 30 * 24 * 60 * 60)
  {
  }

  /** Active rows, each once; what is found is due, and what is left of it stays so. */
  ghost predicate Due(order: seq<nat>, t: Table) {
    && InTable(order, t) && (forall k | 0 <= k < |order| :: Active(t[order[k]]))
    && (forall i, j | 0 <= i < j < |order| :: order[i] != order[j])
  }

  lemma FoundIsDue(order: seq<nat>, t: Table, threshold: int)
    requires IsFound(order, t, threshold)
    ensures Due(order, t)
  {
  }

  lemma DueStep(t: Table, order: seq<nat>, a: Answer)
    requires Due(order, t) && order != [] && a.Renewed?
    ensures Due(order[1..], RenewOne(t, order[0], a))
  {
  }

  lemma RenewedStep(t: Table, order: seq<nat>, a: Answer, threshold: int)
    requires IsFound(order, t, threshold) && order != [] && a.Renewed? && a.now + VALIDITY >= threshold
    ensures IsFound(order[1..], RenewOne(t, order[0], a), threshold)
  {
  }

  /** After a renewal that went through, nothing that counts expires before the threshold: the query
      would find nothing, so that a second renewal changes nothing. */
  lemma {:induction false} NothingLeftExpiring(t: Table, order: seq<nat>, answers: seq<Answer>, threshold: int)
    requires IsFound(order, t, threshold) && |answers| == |order| && AllRenewed(answers) && InTime(answers, threshold)
    ensures IsFound([], RenewAll(t, order, answers), threshold)
    decreases |order|
  {
    if order != [] {
      assert answers[0] in answers;
      RenewedStep(t, order, answers[0], threshold);
      NothingLeftExpiring(RenewOne(t, order[0], answers[0]), order[1..], answers[1..], threshold);
    }
  }

  lemma SecondRunChangesNothing(t: Table, order: seq<nat>, answers: seq<Answer>, threshold: int, again: seq<nat>, answers': seq<Answer>)
    requires IsFound(order, t, threshold) && |answers| == |order| && AllRenewed(answers) && InTime(answers, threshold)
    requires IsFound(again, RenewAll(t, order, answers), threshold) && |answers'| == |again|
    ensures RenewAll(RenewAll(t, order, answers), again, answers') == RenewAll(t, order, answers)
  {
    NothingLeftExpiring(t, order, answers, threshold);
    var none: seq<nat> := [];
    assert forall k | 0 <= k < |again| :: again[k] in none;
  }

  // ---- no owner loses a certificate ----

  function ActiveOf(t: Table, owner: Owner): set<nat> {
    set i | 0 <= i < |t| && Active(t[i]) && t[i].owner == owner
  }

  lemma CountAppended(t: Table, c: Cert, owner: Owner)
    ensures |ActiveOf(t + [c], owner)| == |ActiveOf(t, owner)| + if Active(c) && c.owner == owner then 1 else 0
  {
    assert ActiveOf(t + [c], owner) == ActiveOf(t, owner) + if Active(c) && c.owner == owner then {|t|} else {};
  }

  lemma CountLinked(t: Table, i: nat, j: nat, owner: Owner)
    requires i < |t| && Active(t[i])
    ensures |ActiveOf(t[i := t[i].(to := Some(j))], owner)| == |ActiveOf(t, owner)| - if t[i].owner == owner then 1 else 0
  {
    assert ActiveOf(t[i := t[i].(to := Some(j))], owner) == ActiveOf(t, owner) - {i};
    if t[i].owner == owner {
      assert i in ActiveOf(t, owner);
    }
  }

  lemma CountStep(t: Table, i: nat, a: Answer, owner: Owner)
    requires i < |t| && Active(t[i])
    ensures |ActiveOf(RenewOne(t, i, a), owner)| ==
            |ActiveOf(t, owner)| + if a.LinkFails? && t[i].owner == owner then 1 else 0
  {
    match a {
      case IssueFails =>
      case LinkFails(now) => CountAppended(t, NewCert(t[i].owner, t[i].subject, now), owner);
      case Renewed(now, backlink) =>
        CountLinked(t, i, |t|, owner);
        CountAppended(t[i := t[i].(to := Some(|t|))],
                      NewCert(t[i].owner, t[i].subject, now).(from := if backlink then Some(i) else None), owner);
    }
  }

  /** The owner that is left with one certificate too many, when a renewal ends at the link. */
  function Surplus(t: Table, order: seq<nat>, answers: seq<Answer>): Option<Owner>
    requires |answers| == |order| && InTable(order, t)
    decreases |order|
  {
    if order == [] then None
    else match answers[0]
      case IssueFails => None
      case LinkFails(_) => Some(t[order[0]].owner)
      case Renewed(_, _) => Surplus(t, order[1..], answers[1..])
  }

  lemma {:induction false} SurplusUnaffected(t: Table, t': Table, order: seq<nat>, answers: seq<Answer>)
    requires |answers| == |order| && InTable(order, t) && |t| <= |t'|
    requires forall k | 0 <= k < |order| :: t'[order[k]].owner == t[order[k]].owner
    ensures InTable(order, t') && Surplus(t', order, answers) == Surplus(t, order, answers)
    decreases |order|
  {
    if order != [] {
      SurplusUnaffected(t, t', order[1..], answers[1..]);
    }
  }

  /** However the renewal goes, each owner has as many active certificates as before, except for one
      more where a new certificate could not be linked. */
  lemma {:induction false} CountsConserved(t: Table, order: seq<nat>, answers: seq<Answer>, owner: Owner)
    requires Due(order, t) && |answers| == |order|
    ensures |ActiveOf(RenewAll(t, order, answers), owner)| ==
            |ActiveOf(t, owner)| + if Surplus(t, order, answers) == Some(owner) then 1 else 0
    decreases |order|
  {
    if order != [] {
      var i, a := order[0], answers[0];
      CountStep(t, i, a, owner);
      if a.Renewed? {
        DueStep(t, order, a);
        CountsConserved(RenewOne(t, i, a), order[1..], answers[1..], owner);
        SurplusUnaffected(t, RenewOne(t, i, a), order[1..], answers[1..]);
      }
    }
  }

  // ---- links ----

  /** A link leads to a later row of the same owner. */
  predicate GoodLink(t: Table, i: nat) {
    i < |t| && t[i].to.Some? ==>
      var j := t[i].to.value;
      i < j < |t| && t[j].owner == t[i].owner && t[j].subject == t[i].subject
  }

  /** A link back answers a link. */
  predicate GoodBack(t: Table, j: nat) {
    j < |t| && t[j].from.Some? ==> var i := t[j].from.value; i < j && t[i].to == Some(j)
  }

  ghost predicate Injective(t: Table) {
    forall i: nat, j: nat | i < j < |t| && t[i].to.Some? :: t[i].to != t[j].to
  }

  ghost predicate Linked(t: Table) {
    (forall i: nat :: GoodLink(t, i)) && (forall j: nat :: GoodBack(t, j)) && Injective(t)
  }

  /** A link is answered by a link back. */
  ghost predicate Answered(t: Table) {
    forall i: nat | i < |t| && t[i].to.Some? :: t[i].to.value < |t| && t[t[i].to.value].from == Some(i)
  }

  lemma AppendedLinks(t: Table, c: Cert)
    requires Linked(t) && c.to.None? && c.from.None?
    ensures Linked(t + [c])
    ensures Answered(t) ==> Answered(t + [c])
  {
    var t' := t + [c];
    forall i: nat
      ensures GoodLink(t', i) && GoodBack(t', i)
    {
      assert GoodLink(t, i) && GoodBack(t, i);
    }
  }

  lemma RenewedLinks(t: Table, i: nat, c: Cert)
    requires Linked(t) && i < |t| && t[i].to.None? && c.owner == t[i].owner && c.subject == t[i].subject
    requires c.to.None? && (c.from.Some? ==> c.from.value == i)
    ensures Linked(t[i := t[i].(to := Some(|t|))] + [c])
    ensures Answered(t) && c.from.Some? ==> Answered(t[i := t[i].(to := Some(|t|))] + [c])
  {
    var t' := t[i := t[i].(to := Some(|t|))] + [c];
    forall k: nat
      ensures GoodLink(t', k) && GoodBack(t', k)
    {
      assert GoodLink(t, k) && GoodBack(t, k);
    }
    forall k: nat, j: nat | k < j < |t'| && t'[k].to.Some?
      ensures t'[k].to != t'[j].to
    {
      assert GoodLink(t, k) && GoodLink(t, j);
    }
  }

  lemma LinkStep(t: Table, i: nat, a: Answer)
    requires Linked(t) && i < |t| && t[i].to.None?
    ensures Linked(RenewOne(t, i, a))
    ensures Answered(t) && (a.Renewed? ==> a.backlink) ==> Answered(RenewOne(t, i, a))
  {
    match a {
      case IssueFails =>
      case LinkFails(now) => AppendedLinks(t, NewCert(t[i].owner, t[i].subject, now));
      case Renewed(now, backlink) =>
        RenewedLinks(t, i, NewCert(t[i].owner, t[i].subject, now).(from := if backlink then Some(i) else None));
    }
  }

  lemma RevokedLinks(t: Table, workerId: string)
    requires Linked(t)
    ensures Linked(Revoked(t, workerId))
  {
    var t' := Revoked(t, workerId);
    forall i: nat
      ensures GoodLink(t', i) && GoodBack(t', i)
    {
      assert GoodLink(t, i) && GoodBack(t, i);
    }
  }

  /** Renewal keeps the links in order, however it goes; and if the links back are written, they are
      the inverse of the links. */
  lemma {:induction false} RenewalKeepsLinks(t: Table, order: seq<nat>, answers: seq<Answer>)
    requires Due(order, t) && |answers| == |order| && Linked(t)
    ensures Linked(RenewAll(t, order, answers))
    ensures Answered(t) && (forall a | a in answers && a.Renewed? :: a.backlink) ==> Answered(RenewAll(t, order, answers))
    decreases |order|
  {
    if order != [] {
      var i, a := order[0], answers[0];
      assert a in answers;
      LinkStep(t, i, a);
      if a.Renewed? {
        DueStep(t, order, a);
        RenewalKeepsLinks(RenewOne(t, i, a), order[1..], answers[1..]);
      }
    }
  }

  /** Following the links from a row ends at the row that is in use for it. */
  ghost function Latest(t: Table, i: nat): (j: nat)
    requires Linked(t) && i < |t|
    ensures i <= j < |t| && t[j].to.None? && t[j].owner == t[i].owner && t[j].subject == t[i].subject
    decreases |t| - i
  {
    assert GoodLink(t, i);
    if t[i].to.None? then i else Latest(t, t[i].to.value)
  }

  /** Renewal only adds rows, and links to rows that had none. */
  lemma {:induction false} HistoryStays(t: Table, order: seq<nat>, answers: seq<Answer>)
    requires Due(order, t) && |answers| == |order|
    ensures var t' := RenewAll(t, order, answers);
            && |t| <= |t'|
            && (forall i: nat | i < |t| :: t'[i] == t[i].(to := t'[i].to))
            && (forall i: nat | i < |t| && i !in order :: t'[i] == t[i])
    decreases |order|
  {
    if order != [] {
      var i, a := order[0], answers[0];
      if a.Renewed? {
        DueStep(t, order, a);
        HistoryStays(RenewOne(t, i, a), order[1..], answers[1..]);
      }
    }
  }

  /** After a renewal that went through, every certificate's successor is good beyond the threshold,
      unless it was revoked. */
  lemma SuccessorsAreGood(t: Table, order: seq<nat>, answers: seq<Answer>, threshold: int, i: nat)
    requires IsFound(order, t, threshold) && |answers| == |order| && AllRenewed(answers) && InTime(answers, threshold)
    requires Linked(t) && i < |t|
    ensures var t' := RenewAll(t, order, answers);
            Linked(t') && i < |t'| && (t'[Latest(t', i)].revoked || t'[Latest(t', i)].notAfter >= threshold)
  {
    FoundIsDue(order, t, threshold);
    RenewalKeepsLinks(t, order, answers);
    HistoryStays(t, order, answers);
    NothingLeftExpiring(t, order, answers, threshold);
    var t' := RenewAll(t, order, answers);
    var j := Latest(t', i);
    assert Expiring(t'[j], threshold) ==> j in [];
  }

  // ---- revocation ----

  /** What a revocation means at once: the worker has no active certificate any more, every other owner has
      those it had, and revoking again changes nothing. */
  lemma RevocationEndsWorker(t: Table, workerId: string)
    ensures var t', worker := Revoked(t, workerId), Owner("worker", workerId);
            && ActiveOf(t', worker) == {}
            && (forall owner | owner != worker :: ActiveOf(t', owner) == ActiveOf(t, owner))
            && Revoked(t', workerId) == t'
  {
  }
}
