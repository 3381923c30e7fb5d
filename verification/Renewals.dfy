/** The renewal job next to other calls. It queries once, works through what it found, and makes three writes for
    each row: the new row, the link to it, and the new row again, as a whole, from memory. Certificates are issued
    and revoked in between. */
module Renewals {
  import opened Wrappers
  import opened Certificates

  /** What the job uses of a row it has queried. */
  datatype Job = Job(id: nat, owner: Owner, subject: string)

  /** Where the job is: `job` is being renewed and `rest` is still to come; the new row has id `new_`, and `mem` is
      what is held of it in memory. */
  datatype Renewer =
    | Idle
    | Issuing(job: Job, rest: seq<Job>)
    | Linking(job: Job, rest: seq<Job>, new_: nat, mem: Cert)
    | Saving(job: Job, rest: seq<Job>, new_: nat, mem: Cert)

  datatype State = State(table: Table, renewer: Renewer)

  /** `Query`, `Sign`, `Link` and `Save` are what the renewal job does; `Issue` and `Revoke` come from outside, and a
      restart forgets what is in memory. */
  datatype Step =
    | Query(threshold: int, order: seq<nat>)
    | Sign(now: int, ok: bool)
    | Link(ok: bool)
    | Save(ok: bool)
    | Issue(owner: Owner, subject: string, now: int, ok: bool)
    | Revoke(workerId: string)
    | Restart

  function Worker(workerId: string): Owner {
    Owner("worker", workerId)
  }

  function JobOf(t: Table, i: nat): Job
    requires i < |t|
  {
    Job(i, t[i].owner, t[i].subject)
  }

  function Jobs(t: Table, order: seq<nat>): seq<Job>
    requires InTable(order, t)
  {
    seq(|order|, k requires 0 <= k < |order| => JobOf(t, order[k]))
  }

  function Work(jobs: seq<Job>): Renewer {
    if jobs == [] then Idle else Issuing(jobs[0], jobs[1..])
  }

  ghost predicate Enabled(s: State, st: Step) {
    match st
    case Query(threshold, order) => s.renewer.Idle? && IsFound(order, s.table, threshold)
    case Sign(_, _) => s.renewer.Issuing?
    case Link(_) => s.renewer.Linking?
    case Save(_) => s.renewer.Saving?
    case _ => true
  }

  ghost function Next(s: State, st: Step): State
    requires Enabled(s, st)
  {
    var t, r := s.table, s.renewer;
    match st
    case Query(_, order) => State(t, Work(Jobs(t, order)))
    case Sign(now, ok) =>
      var c := NewCert(r.job.owner, r.job.subject, now);
      if ok then State(t + [c], Linking(r.job, r.rest, |t|, c)) else State(t, Idle)
    case Link(ok) =>
      if ok then State(WithLink(t, r.job.id, r.new_), Saving(r.job, r.rest, r.new_, r.mem)) else State(t, Idle)
    case Save(ok) => State(if ok then WithRow(t, r.new_, r.mem.(from := Some(r.job.id))) else t, Work(r.rest))
    case Issue(owner, subject, now, ok) => State(if ok then t + [NewCert(owner, subject, now)] else t, r)
    case Revoke(workerId) => State(Revoked(t, workerId), r)
    case Restart => State(t, Idle)
  }

  ghost predicate IsRun(s: State, steps: seq<Step>)
    decreases |steps|
  {
    steps == [] || (Enabled(s, steps[0]) && IsRun(Next(s, steps[0]), steps[1..]))
  }

  ghost function After(s: State, steps: seq<Step>): State
    requires IsRun(s, steps)
    decreases |steps|
  {
    if steps == [] then s else After(Next(s, steps[0]), steps[1..])
  }

  // ---- what the job may rely on ----

  /** The row of a job is the one that was queried. */
  predicate Named(t: Table, job: Job) {
    job.id < |t| && t[job.id].owner == job.owner && t[job.id].subject == job.subject
  }

  /** The rows still to come are different ones, and not renewed yet. */
  ghost predicate RestOk(t: Table, job: Job, rest: seq<Job>) {
    && (forall k | 0 <= k < |rest| :: Named(t, rest[k]) && t[rest[k].id].to.None? && rest[k].id != job.id)
    && (forall k, l | 0 <= k < l < |rest| :: rest[k].id != rest[l].id)
  }

  /** The new row is there, behind those queried, and memory holds an active row for the same owner. */
  ghost predicate NewOk(t: Table, job: Job, rest: seq<Job>, new_: nat, mem: Cert) {
    && job.id < new_ < |t| && (forall k | 0 <= k < |rest| :: rest[k].id < new_)
    && t[new_].owner == mem.owner == job.owner && t[new_].subject == mem.subject == job.subject
    && t[new_].to.None? && Active(mem)
  }

  ghost predicate Inv(s: State) {
    var t := s.table;
    match s.renewer
    case Idle => true
    case Issuing(job, rest) => Named(t, job) && t[job.id].to.None? && RestOk(t, job, rest)
    case Linking(job, rest, new_, mem) =>
      && Named(t, job) && t[job.id].to.None? && RestOk(t, job, rest) && NewOk(t, job, rest, new_, mem)
      && (Active(t[job.id]) ==> Active(t[new_]))
    case Saving(job, rest, new_, mem) =>
      && Named(t, job) && t[job.id].to == Some(new_) && RestOk(t, job, rest) && NewOk(t, job, rest, new_, mem)
  }

  lemma WorkOk(t: Table, jobs: seq<Job>)
    requires forall k | 0 <= k < |jobs| :: Named(t, jobs[k]) && t[jobs[k].id].to.None?
    requires forall k, l | 0 <= k < l < |jobs| :: jobs[k].id != jobs[l].id
    ensures Inv(State(t, Work(jobs)))
  {
  }

  /** Table `t'` has the rows of `t`, with the same owners, subjects and links, and maybe more. */
  ghost predicate SameNames(t: Table, t': Table) {
    |t| <= |t'| && forall i: nat | i < |t| ::
      t'[i].owner == t[i].owner && t'[i].subject == t[i].subject && t'[i].to == t[i].to
  }

  lemma OtherStepKeepsInv(s: State, t': Table)
    requires Inv(s) && SameNames(s.table, t')
    requires s.renewer.Linking? && Active(t'[s.renewer.job.id]) ==> Active(t'[s.renewer.new_])
    ensures Inv(State(t', s.renewer))
  {
  }

  lemma StepKeepsInv(s: State, st: Step)
    requires Inv(s) && Enabled(s, st)
    ensures Inv(Next(s, st))
  {
    var t, r := s.table, s.renewer;
    match st {
      case Query(_, order) => WorkOk(t, Jobs(t, order));
      case Sign(_, _) =>
      case Link(_) =>
      case Save(ok) => WorkOk(Next(s, st).table, r.rest);
      case Issue(_, _, _, _) => OtherStepKeepsInv(s, Next(s, st).table);
      case Revoke(_) => OtherStepKeepsInv(s, Next(s, st).table);
      case Restart =>
    }
  }

  lemma {:induction false} RunKeepsInv(s: State, steps: seq<Step>)
    requires Inv(s) && IsRun(s, steps)
    ensures Inv(After(s, steps))
    decreases |steps|
  {
    if steps != [] {
      StepKeepsInv(s, steps[0]);
      RunKeepsInv(Next(s, steps[0]), steps[1..]);
    }
  }

  // ---- links ----

  /** No row is linked yet to the new one. */
  ghost predicate Unlinked(s: State) {
    s.renewer.Linking? ==> forall i: nat | i < |s.table| :: s.table[i].to != Some(s.renewer.new_)
  }

  lemma LinkedStep(s: State, st: Step)
    requires Inv(s) && Unlinked(s) && Linked(s.table) && Enabled(s, st)
    ensures Unlinked(Next(s, st)) && Linked(Next(s, st).table)
  {
    var t, r := s.table, s.renewer;
    match st {
      case Sign(now, ok) =>
        AppendedLinks(t, NewCert(r.job.owner, r.job.subject, now));
        LinksEndInTable(t);
      case Link(ok) => LinkWritten(t, r.job.id, r.new_);
      case Save(ok) => RowSaved(t, r.new_, r.mem.(from := Some(r.job.id)));
      case Issue(owner, subject, now, ok) => AppendedLinks(t, NewCert(owner, subject, now));
      case Revoke(workerId) => RevokedLinks(t, workerId);
      case _ =>
    }
  }

  lemma LinksEndInTable(t: Table)
    requires Linked(t)
    ensures forall i: nat | i < |t| :: t[i].to != Some(|t|)
  {
    forall i: nat | i < |t|
      ensures t[i].to != Some(|t|)
    {
      assert GoodLink(t, i);
    }
  }

  lemma LinkWritten(t: Table, i: nat, j: nat)
    requires Linked(t) && i < j < |t| && t[i].to.None? && t[j].owner == t[i].owner && t[j].subject == t[i].subject
    requires forall k: nat | k < |t| :: t[k].to != Some(j)
    ensures Linked(WithLink(t, i, j))
  {
    var t' := WithLink(t, i, j);
    forall k: nat
      ensures GoodLink(t', k) && GoodBack(t', k)
    {
      assert GoodLink(t, k) && GoodBack(t, k);
    }
  }

  lemma RowSaved(t: Table, j: nat, c: Cert)
    requires Linked(t) && j < |t| && c.to.None? && t[j].to.None? && c.owner == t[j].owner && c.subject == t[j].subject
    requires c.from.Some? && c.from.value < j && t[c.from.value].to == Some(j)
    ensures Linked(WithRow(t, j, c))
  {
    var t' := WithRow(t, j, c);
    forall k: nat
      ensures GoodLink(t', k) && GoodBack(t', k)
    {
      assert GoodLink(t, k) && GoodBack(t, k);
    }
  }

  /** Over any run, with revocations, issues and restarts between the writes of a renewal and with any failures, the
      links stay in order. */
  lemma {:induction false} RunKeepsLinks(s: State, steps: seq<Step>)
    requires Inv(s) && Unlinked(s) && Linked(s.table) && IsRun(s, steps)
    ensures Linked(After(s, steps).table)
    decreases |steps|
  {
    if steps != [] {
      StepKeepsInv(s, steps[0]);
      LinkedStep(s, steps[0]);
      RunKeepsLinks(Next(s, steps[0]), steps[1..]);
    }
  }

  // ---- a renewal that goes through ----

  /** The row is still to be renewed. */
  predicate ToDo(r: Renewer, i: nat) {
    !r.Idle? && ((r.job.id == i && !r.Saving?) || exists k :: 0 <= k < |r.rest| && r.rest[k].id == i)
  }

  /** What is due is in the job's hands, and the row held in memory is not. */
  ghost predicate DueInHand(s: State, threshold: int) {
    && (forall i: nat | i < |s.table| && Expiring(s.table[i], threshold) :: ToDo(s.renewer, i))
    && (s.renewer.Linking? || s.renewer.Saving? ==> s.renewer.mem.notAfter >= threshold)
  }

  /** No step of the job fails where a failure ends it, and the clock has not run backwards. */
  predicate GoesOn(st: Step, threshold: int) {
    match st
    case Sign(now, ok) => ok && now + VALIDITY >= threshold
    case Link(ok) => ok
    case Issue(_, _, now, _) => now + VALIDITY >= threshold
    case Save(_) => true
    case Revoke(_) => true
    case _ => false
  }

  lemma StepKeepsDue(s: State, st: Step, threshold: int)
    requires Inv(s) && Enabled(s, st) && GoesOn(st, threshold) && DueInHand(s, threshold)
    ensures DueInHand(Next(s, st), threshold)
  {
    var t, s' := s.table, Next(s, st);
    forall i: nat | i < |s'.table| && Expiring(s'.table[i], threshold)
      ensures ToDo(s'.renewer, i)
    {
      assert i < |t| && Expiring(t[i], threshold);
      assert ToDo(s.renewer, i);
    }
  }

  lemma {:induction false} RunKeepsDue(s: State, steps: seq<Step>, threshold: int)
    requires Inv(s) && IsRun(s, steps) && DueInHand(s, threshold) && forall st | st in steps :: GoesOn(st, threshold)
    ensures DueInHand(After(s, steps), threshold)
    decreases |steps|
  {
    if steps != [] {
      StepKeepsInv(s, steps[0]);
      StepKeepsDue(s, steps[0], threshold);
      RunKeepsDue(Next(s, steps[0]), steps[1..], threshold);
    }
  }

  /** After a renewal that went through, whatever was issued and revoked meanwhile, nothing that counts expires
      before the threshold. */
  lemma InterruptedLeavesNothing(t: Table, threshold: int, order: seq<nat>, steps: seq<Step>)
    requires IsFound(order, t, threshold) && IsRun(State(t, Work(Jobs(t, order))), steps)
    requires forall st | st in steps :: GoesOn(st, threshold)
    requires After(State(t, Work(Jobs(t, order))), steps).renewer.Idle?
    ensures IsFound([], After(State(t, Work(Jobs(t, order))), steps).table, threshold)
  {
    var s := State(t, Work(Jobs(t, order)));
    WorkOk(t, Jobs(t, order));
    forall i: nat | i < |t| && Expiring(t[i], threshold)
      ensures ToDo(s.renewer, i)
    {
      var k :| 0 <= k < |order| && order[k] == i;
      assert Jobs(t, order)[k].id == i;
      assert k > 0 ==> s.renewer.rest[k - 1].id == i;
    }
    RunKeepsDue(s, steps, threshold);
  }

  // ---- revocation ----

  /** The job writes an active row for the owner. */
  predicate Writes(r: Renewer, st: Step, owner: Owner) {
    match st
    case Sign(_, ok) => ok && r.Issuing? && r.job.owner == owner
    case Save(ok) => ok && r.Saving? && r.job.owner == owner
    case _ => false
  }

  /** Before the job queries again, it writes an active row for the owner. */
  ghost predicate WritesLate(s: State, steps: seq<Step>, owner: Owner)
    requires IsRun(s, steps)
    decreases |steps|
  {
    steps != [] && !steps[0].Query? && (Writes(s.renewer, steps[0], owner) || WritesLate(Next(s, steps[0]), steps[1..], owner))
  }

  /** Nothing of the owner's is in the job's hands. */
  ghost predicate NotInHand(r: Renewer, owner: Owner) {
    !r.Idle? ==> r.job.owner != owner && forall k | 0 <= k < |r.rest| :: r.rest[k].owner != owner
  }

  /** The owner is not issued a certificate on request, and not revoked. */
  predicate LeftAlone(st: Step, workerId: string) {
    (st.Issue? && st.ok ==> st.owner != Worker(workerId)) && (st.Revoke? ==> st.workerId != workerId)
  }

  predicate AllLeaveAlone(steps: seq<Step>, workerId: string) {
    forall st | st in steps :: LeftAlone(st, workerId)
  }

  /** An owner that has an active certificate keeps one, unless it is revoked. */
  lemma StepKeepsActive(s: State, st: Step, workerId: string)
    requires Inv(s) && Enabled(s, st) && st != Revoke(workerId)
    requires ActiveOf(s.table, Worker(workerId)) != {}
    ensures ActiveOf(Next(s, st).table, Worker(workerId)) != {}
  {
    var t, t', r := s.table, Next(s, st).table, s.renewer;
    var i :| i in ActiveOf(t, Worker(workerId));
    if st.Link? && st.ok && r.job.id == i {
      assert r.new_ in ActiveOf(t', Worker(workerId));
    } else {
      assert i in ActiveOf(t', Worker(workerId));
    }
  }

  lemma WriteActivates(s: State, st: Step, owner: Owner)
    requires Inv(s) && Enabled(s, st) && Writes(s.renewer, st, owner)
    ensures ActiveOf(Next(s, st).table, owner) != {}
  {
    if st.Sign? {
      assert |s.table| in ActiveOf(Next(s, st).table, owner);
    } else {
      assert s.renewer.new_ in ActiveOf(Next(s, st).table, owner);
    }
  }

  /** Without such a write nobody becomes active. */
  lemma NothingActivates(s: State, st: Step, workerId: string)
    requires Inv(s) && Enabled(s, st) && LeftAlone(st, workerId) && !Writes(s.renewer, st, Worker(workerId))
    requires ActiveOf(s.table, Worker(workerId)) == {}
    ensures ActiveOf(Next(s, st).table, Worker(workerId)) == {}
    ensures st.Query? || NotInHand(s.renewer, Worker(workerId)) ==> NotInHand(Next(s, st).renewer, Worker(workerId))
  {
    var t, t' := s.table, Next(s, st).table;
    forall i | 0 <= i < |t'|
      ensures i !in ActiveOf(t', Worker(workerId))
    {
      assert i < |t| ==> i !in ActiveOf(t, Worker(workerId));
    }
    if st.Query? {
      forall k | 0 <= k < |st.order|
        ensures t[st.order[k]].owner != Worker(workerId)
      {
        assert st.order[k] !in ActiveOf(t, Worker(workerId));
      }
    }
  }

  lemma {:induction false} KeepsActive(s: State, steps: seq<Step>, workerId: string)
    requires Inv(s) && IsRun(s, steps) && Revoke(workerId) !in steps
    requires ActiveOf(s.table, Worker(workerId)) != {}
    ensures ActiveOf(After(s, steps).table, Worker(workerId)) != {}
    decreases |steps|
  {
    if steps != [] {
      StepKeepsInv(s, steps[0]);
      StepKeepsActive(s, steps[0], workerId);
      KeepsActive(Next(s, steps[0]), steps[1..], workerId);
    }
  }

  /** A worker without active certificates of which the job holds nothing stays without, over any number of renewals. */
  lemma {:induction false} StaysRevoked(s: State, steps: seq<Step>, workerId: string)
    requires Inv(s) && IsRun(s, steps) && AllLeaveAlone(steps, workerId)
    requires ActiveOf(s.table, Worker(workerId)) == {} && NotInHand(s.renewer, Worker(workerId))
    ensures ActiveOf(After(s, steps).table, Worker(workerId)) == {}
    decreases |steps|
  {
    if steps != [] {
      StepKeepsInv(s, steps[0]);
      NothingActivates(s, steps[0], workerId);
      StaysRevoked(Next(s, steps[0]), steps[1..], workerId);
    }
  }

  lemma {:induction false} InactiveRunIff(s: State, steps: seq<Step>, workerId: string)
    requires Inv(s) && IsRun(s, steps) && AllLeaveAlone(steps, workerId)
    requires ActiveOf(s.table, Worker(workerId)) == {}
    ensures ActiveOf(After(s, steps).table, Worker(workerId)) != {} <==> WritesLate(s, steps, Worker(workerId))
    decreases |steps|
  {
    if steps != [] {
      var s1 := Next(s, steps[0]);
      StepKeepsInv(s, steps[0]);
      if Writes(s.renewer, steps[0], Worker(workerId)) {
        WriteActivates(s, steps[0], Worker(workerId));
        assert !LeftAlone(Revoke(workerId), workerId);
        KeepsActive(s1, steps[1..], workerId);
      } else {
        NothingActivates(s, steps[0], workerId);
        if steps[0].Query? {
          StaysRevoked(s1, steps[1..], workerId);
        } else {
          InactiveRunIff(s1, steps[1..], workerId);
        }
      }
    }
  }

  lemma {:induction false} RunSplits(s: State, a: seq<Step>, b: seq<Step>)
    requires IsRun(s, a + b)
    ensures IsRun(s, a) && IsRun(After(s, a), b) && After(s, a + b) == After(After(s, a), b)
    decreases |a|
  {
    if a == [] {
      assert a + b == b;
    } else {
      assert (a + b)[1..] == a[1..] + b;
      RunSplits(Next(s, a[0]), a[1..], b);
    }
  }

  /** What a revocation is worth, exactly. From any table, over any run up to the revocation and on from there without
      a certificate issued to the worker on request: the worker has an active certificate in the end if and only if
      the revocation fell between a query and a write for one of its rows, which the job still made afterwards. */
  lemma ActiveAfterRevocationIff(t: Table, before: seq<Step>, workerId: string, after: seq<Step>)
    requires IsRun(State(t, Idle), before + [Revoke(workerId)] + after) && AllLeaveAlone(after, workerId)
    ensures IsRun(State(t, Idle), before + [Revoke(workerId)])
    ensures var s := After(State(t, Idle), before + [Revoke(workerId)]);
            && IsRun(s, after)
            && (ActiveOf(After(s, after).table, Worker(workerId)) != {} <==> WritesLate(s, after, Worker(workerId)))
            && (WritesLate(s, after, Worker(workerId)) ==> !NotInHand(s.renewer, Worker(workerId)))
  {
    var start, upTo := State(t, Idle), before + [Revoke(workerId)];
    RunSplits(start, upTo, after);
    RunSplits(start, before, [Revoke(workerId)]);
    RunKeepsInv(start, upTo);
    var s0, s := After(start, before), After(start, upTo);
    assert s == Next(s0, Revoke(workerId));
    RevocationEndsWorker(s0.table, workerId);
    InactiveRunIff(s, after, workerId);
    if NotInHand(s.renewer, Worker(workerId)) {
      StaysRevoked(s, after, workerId);
    }
  }

  /** And a certificate issued on request leaves the worker with an active one until it is revoked, whatever renewals do. */
  lemma IssuedStaysActive(s: State, workerId: string, subject: string, now: int, after: seq<Step>)
    requires Inv(s) && Revoke(workerId) !in after
    requires IsRun(s, [Issue(Owner("worker", workerId), subject, now, true)] + after)
    ensures ActiveOf(After(s, [Issue(Owner("worker", workerId), subject, now, true)] + after).table, Owner("worker", workerId)) != {}
  {
    var issue := Issue(Owner("worker", workerId), subject, now, true);
    var s1 := Next(s, issue);
    FirstStep(s, issue, after);
    StepKeepsInv(s, issue);
    assert |s.table| in ActiveOf(s1.table, Worker(workerId));
    KeepsActive(s1, after, workerId);
  }

  // A worker's certificate is due when its worker is revoked.
  const DUE: Table := [Cert(Owner("worker", "w"), "", 0, false, None, None)]

  /** Revoked after the query, before the new certificate: the job issues one to the revoked worker. */
  lemma RevokedWhileQueried()
    ensures var s, steps := State(DUE, Idle), [Query(10, [0]), Revoke("w"), Sign(5, true), Link(true), Save(true)];
            IsRun(s, steps) && ActiveOf(After(s, steps).table, Worker("w")) == {1}
  {
  }

  /** Revoked after the new certificate, before it is saved again: the new row is revoked, and then it is not. */
  lemma SavingUndoesRevocation()
    ensures var s, steps := State(DUE, Idle), [Query(10, [0]), Sign(5, true), Revoke("w")];
            && IsRun(s, steps) && ActiveOf(After(s, steps).table, Worker("w")) == {}
            && IsRun(After(s, steps), [Link(true), Save(true)])
            && ActiveOf(After(After(s, steps), [Link(true), Save(true)]).table, Worker("w")) == {1}
  {
  }

  // ---- a renewal that nothing comes between ----

  /** The steps of a renewal that gets these answers. */
  function StepsOf(answers: seq<Answer>): seq<Step> {
    if answers == [] then []
    else match answers[0]
      case IssueFails => [Sign(0, false)]
      case LinkFails(now) => [Sign(now, true), Link(false)]
      case Renewed(now, backlink) => [Sign(now, true), Link(true), Save(backlink)] + StepsOf(answers[1..])
  }

  lemma FirstStep(s: State, st: Step, rest: seq<Step>)
    requires Enabled(s, st)
    ensures IsRun(s, [st] + rest) <==> IsRun(Next(s, st), rest)
    ensures IsRun(s, [st] + rest) ==> After(s, [st] + rest) == After(Next(s, st), rest)
  {
    assert ([st] + rest)[1..] == rest;
  }

  /** The three steps that renew the first row. */
  lemma ThreeSteps(t: Table, order: seq<nat>, now: int, backlink: bool)
    requires Due(order, t) && order != []
    ensures var s, t' := State(t, Work(Jobs(t, order))), RenewOne(t, order[0], Renewed(now, backlink));
            && s.renewer.Issuing? && InTable(order[1..], t')
            && (var s1 := Next(s, Sign(now, true));
                && s1.renewer.Linking?
                && (var s2 := Next(s1, Link(true));
                    s2.renewer.Saving? && Next(s2, Save(backlink)) == State(t', Work(Jobs(t', order[1..])))))
  {
    var t' := RenewOne(t, order[0], Renewed(now, backlink));
    assert Jobs(t, order)[1..] == Jobs(t', order[1..]);
    var s2 := Next(Next(State(t, Work(Jobs(t, order))), Sign(now, true)), Link(true));
    assert Next(s2, Save(backlink)).table == t';
  }

  /** Without other calls in between, the steps of the job amount to the renewal as a whole. */
  lemma {:induction false} UninterruptedIsRenewAll(t: Table, order: seq<nat>, answers: seq<Answer>)
    requires Due(order, t) && |answers| == |order|
    ensures var s := State(t, Work(Jobs(t, order)));
            IsRun(s, StepsOf(answers)) && After(s, StepsOf(answers)) == State(RenewAll(t, order, answers), Idle)
    decreases |order|
  {
    if order != [] {
      var s := State(t, Work(Jobs(t, order)));
      match answers[0] {
        case IssueFails =>
        case LinkFails(now) => FirstStep(s, Sign(now, true), [Link(false)]);
        case Renewed(now, backlink) =>
          ThreeSteps(t, order, now, backlink);
          DueStep(t, order, answers[0]);
          UninterruptedIsRenewAll(RenewOne(t, order[0], answers[0]), order[1..], answers[1..]);
          var rest := StepsOf(answers[1..]);
          var s1 := Next(s, Sign(now, true));
          FirstStep(Next(s1, Link(true)), Save(backlink), rest);
          FirstStep(s1, Link(true), [Save(backlink)] + rest);
          FirstStep(s, Sign(now, true), [Link(true)] + ([Save(backlink)] + rest));
          assert StepsOf(answers) == [Sign(now, true)] + ([Link(true)] + ([Save(backlink)] + rest));
      }
    }
  }
}
