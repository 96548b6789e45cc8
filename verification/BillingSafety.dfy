/**
 What every step of the billing state machine keeps: the pending jobs of a tenant fit its status,
 there is at most one of them that matters, and periods are extended once per successful payment.
 */
module BillingSafety {
  import opened Durations
  import opened Wrappers
  import opened JobIds
  import opened Billing

  // Which job may be pending in which status.
  ghost predicate Fits(k: Kind, sub: Sub) {
    match k
    case TrialEnd => sub.status == Trial
    case TrialReminder(_) => true
    case Charge(_) => sub.status == Active
    case Retry(attempt) => sub.status == PastDue && 2 <= attempt <= 3 && sub.retryCount == attempt - 1
    case Expire => sub.status == Cancelled || (sub.status == PastDue && sub.retryCount == 3)
  }

  /** One tenant's subscription together with its own pending jobs. */
  ghost predicate Legal(sub: Sub, own: Queue) {
    && (forall id :: id in own ==> Fits(own[id].kind, sub))
    && (forall id, id' :: id in own && id' in own && own[id].kind.Billing() && own[id'].kind.Billing() ==> id == id')
    && (sub.card.Some? ==> sub.provider.Some?)
    && (sub.status == PastDue ==> sub.card.Some?)
  }

  ghost predicate Safe(s: System) {
    && RowsKnown(s) && JobsKnown(s)
    && forall t :: t in s.subs ==>
         Legal(s.subs[t], Own(s.queue, t)) && s.subs[t].renewals == SuccessCount(s.payments, t)
  }

  function Weight(p: Payment, t: TenantId): nat {
    if p.tenant == t && p.status == Succeeded then 1 else 0
  }

  function SuccessCount(ps: seq<Payment>, t: TenantId): nat {
    if ps == [] then 0 else SuccessCount(ps[..|ps| - 1], t) + Weight(ps[|ps| - 1], t)
  }

  lemma SuccessCountAppend(ps: seq<Payment>, p: Payment, t: TenantId)
    ensures SuccessCount(ps + [p], t) == SuccessCount(ps, t) + Weight(p, t)
  {
    assert (ps + [p])[..|ps|] == ps;
  }

  lemma {:induction false} SuccessCountUpdate(ps: seq<Payment>, i: nat, p: Payment, t: TenantId)
    requires i < |ps|
    ensures SuccessCount(ps[i := p], t) == SuccessCount(ps, t) - Weight(ps[i], t) + Weight(p, t)
  {
    var n := |ps| - 1;
    if i == n {
      assert ps[i := p][..n] == ps[..n];
    } else {
      SuccessCountUpdate(ps[..n], i, p, t);
      assert ps[i := p][..n] == ps[..n][i := p];
    }
  }

  // How a queue and a payment table look to everybody but one tenant.
  ghost predicate OthersSee(s: System, t: TenantId, ps: seq<Payment>, q: Queue) {
    && WellKeyed(q) && (forall id :: id in q ==> q[id].tenant in s.subs)
    && (forall i :: 0 <= i < |ps| ==> ps[i].tenant in s.subs)
    && forall u :: u in s.subs && u != t ==>
         Own(q, u) == Own(s.queue, u) && SuccessCount(ps, u) == SuccessCount(s.payments, u)
  }

  /** Every tenant but `t` keeps its subscription and its pending jobs. */
  ghost predicate Untouched(s: System, s': System, t: Option<TenantId>) {
    forall u :: u in s.subs && t != Some(u) ==>
      u in s'.subs && s'.subs[u] == s.subs[u] && Own(s'.queue, u) == Own(s.queue, u)
  }

  // A step that concerns one tenant is safe when it leaves that tenant legal and the others alone.
  lemma LocalStepSafe(s: System, t: TenantId, sub: Sub, ps: seq<Payment>, q: Queue)
    requires Safe(s) && t in s.subs && OthersSee(s, t, ps, q)
    requires Legal(sub, Own(q, t)) && sub.renewals == SuccessCount(ps, t)
    ensures Safe(s.(subs := s.subs[t := sub], payments := ps, queue := q))
    ensures Untouched(s, s.(subs := s.subs[t := sub], payments := ps, queue := q), Some(t))
  {
    hide JobId, Own, SuccessCount, Fits, Legal;
  }

  // One job added to a queue that, for other tenants, looks like the old one.
  lemma AfterAdd(s: System, q: Queue, j: Job)
    requires WellKeyed(q) && JobId(j) !in Own(q, j.tenant) && j.tenant in s.subs
    requires forall id :: id in q ==> q[id].tenant in s.subs
    requires forall u :: u != j.tenant ==> Own(q, u) == Own(s.queue, u)
    ensures WellKeyed(Add(q, j)) && forall id :: id in Add(q, j) ==> Add(q, j)[id].tenant in s.subs
    ensures Own(Add(q, j), j.tenant) == Own(q, j.tenant)[JobId(j) := j]
    ensures forall u :: u != j.tenant ==> Own(Add(q, j), u) == Own(s.queue, u)
  {
    OwnAfterAdd(q, j, j.tenant);
    forall u | u != j.tenant ensures Own(Add(q, j), u) == Own(s.queue, u) {
      OwnAfterAdd(q, j, u);
    }
  }

  lemma AfterDrop(s: System, t: TenantId)
    requires JobsKnown(s)
    ensures WellKeyed(WithoutTenant(s.queue, t)) && Own(WithoutTenant(s.queue, t), t) == map[]
    ensures forall id :: id in WithoutTenant(s.queue, t) ==> WithoutTenant(s.queue, t)[id].tenant in s.subs
    ensures forall u :: u != t ==> Own(WithoutTenant(s.queue, t), u) == Own(s.queue, u)
  {
    OwnAfterDrop(s.queue, t, t);
    forall u | u != t ensures Own(WithoutTenant(s.queue, t), u) == Own(s.queue, u) {
      OwnAfterDrop(s.queue, t, u);
    }
  }

  lemma RegisterSafe(s: System, t: TenantId, trialEndsAt: Option<nat>, withTrialJobs: bool)
    requires Safe(s)
    ensures Safe(Registered(s, t, trialEndsAt, withTrialJobs))
    ensures Untouched(s, Registered(s, t, trialEndsAt, withTrialJobs), Some(t))
  {
    hide JobId, Own, SuccessCount, TrialJobs, Safe, WellKeyed;
    if t !in s.subs {
      var s0 := Registered(s, t, trialEndsAt, false);
      EnrolSafe(s, t, s0.subs[t]);
      if trialEndsAt.Some? && s.now < trialEndsAt.value && withTrialJobs {
        TrialJobsSafe(s0, t);
      }
    }
  }

  lemma TrialJobsSafe(s: System, t: TenantId)
    requires Safe(s) && t in s.subs && s.subs[t].status == Trial && Own(s.queue, t) == map[]
    ensures Safe(s.(queue := TrialJobs(s.queue, t, s.now)))
    ensures Untouched(s, s.(queue := TrialJobs(s.queue, t, s.now)), Some(t))
  {
    hide JobId, Own, SuccessCount, TrialJobs;
    TrialJobsAdded(s, t);
    TrialJobsView(s, t);
    LocalStepSafe(s, t, s.subs[t], s.payments, TrialJobs(s.queue, t, s.now));
    SameSub(s, t);
  }

  lemma SameSub(s: System, t: TenantId)
    requires t in s.subs
    ensures s.subs[t := s.subs[t]] == s.subs
  {}

  lemma EnrolSafe(s: System, t: TenantId, sub: Sub)
    requires Safe(s) && t !in s.subs
    requires sub.status in {Trial, Expired} && sub.card.None? && sub.renewals == 0
    ensures Safe(s.(subs := s.subs[t := sub])) && Own(s.queue, t) == map[]
  {
    assert Own(s.queue, t) == map[];
    NoRowsNoSuccess(s.payments, t);
  }

  lemma {:induction false} NoRowsNoSuccess(ps: seq<Payment>, t: TenantId)
    requires forall i :: 0 <= i < |ps| ==> ps[i].tenant != t
    ensures SuccessCount(ps, t) == 0
  {
    if ps != [] {
      NoRowsNoSuccess(ps[..|ps| - 1], t);
    }
  }

  lemma TrialIdsDistinct(j: Job, j5: Job, j6: Job)
    requires j.kind == TrialEnd && j5.kind == TrialReminder(5) && j6.kind == TrialReminder(6)
    ensures JobId(j) != JobId(j5) && JobId(j5) != JobId(j6) && JobId(j) != JobId(j6)
    ensures JobId(j) == JobId(Job(TrialEnd, j.tenant, 0))
  {
    assert JobId(j)[6] == 'e' && JobId(j5)[6] == 'r' && JobId(j6)[6] == 'r';
    assert JobId(j5)[15] == '5' && JobId(j6)[15] == '6';
  }

  /** The trial jobs of a tenant without jobs are really added, and nobody else's change. */
  lemma TrialJobsAdded(s: System, t: TenantId)
    requires JobsKnown(s) && t in s.subs && Own(s.queue, t) == map[]
    ensures JobsKnown(s.(queue := TrialJobs(s.queue, t, s.now)))
    ensures forall u :: u != t ==> Own(TrialJobs(s.queue, t, s.now), u) == Own(s.queue, u)
    ensures var j, j5, j6 := Job(TrialEnd, t, s.now + 7 * DAY), Job(TrialReminder(5), t, s.now + 5 * DAY),
                             Job(TrialReminder(6), t, s.now + 6 * DAY);
            Own(TrialJobs(s.queue, t, s.now), t) == map[JobId(j) := j, JobId(j5) := j5, JobId(j6) := j6]
  {
    hide JobId, Own, Add;
    var j, j5, j6 := Job(TrialEnd, t, s.now + 7 * DAY), Job(TrialReminder(5), t, s.now + 5 * DAY),
                     Job(TrialReminder(6), t, s.now + 6 * DAY);
    TrialIdsDistinct(j, j5, j6);
    AfterAdd(s, s.queue, j);
    var q1 := Add(s.queue, j);
    AfterAdd(s, q1, j5);
    var q2 := Add(q1, j5);
    AfterAdd(s, q2, j6);
  }

  lemma TrialJobsView(s: System, t: TenantId)
    requires JobsKnown(s) && t in s.subs && Own(s.queue, t) == map[]
    ensures var own := Own(TrialJobs(s.queue, t, s.now), t);
            (forall id :: id in own ==> own[id].kind in {TrialEnd, TrialReminder(5), TrialReminder(6)}) &&
            (forall id :: id in own && own[id].kind.Billing() ==> id == JobId(Job(TrialEnd, t, 0)))
  {
    hide JobId, Own, Add, TrialJobs;
    TrialJobsAdded(s, t);
    TrialIdsDistinct(Job(TrialEnd, t, s.now + 7 * DAY), Job(TrialReminder(5), t, 0), Job(TrialReminder(6), t, 0));
  }

  lemma SuccessSafe(s: System, provider: Provider, hit: Option<nat>, cardToken: Option<string>)
    requires Safe(s) && (hit.Some? ==> hit.value < |s.payments|)
    ensures Safe(PaymentSucceeded(s, provider, hit, cardToken))
    ensures Untouched(s, PaymentSucceeded(s, provider, hit, cardToken), RowTenant(s, hit))
  {
    hide JobId, Own, WithoutTenant, SuccessCount, Add, Safe, Untouched, RowsKnown;
    if hit.Some? && s.payments[hit.value].status != Succeeded {
      var t := s.payments[hit.value].tenant;
      SafeKnows(s, t);
      KnownRow(s, hit.value);
      PaidSafe(s, hit.value, Renew(s.subs[t], s.now).(status := Active, provider := Some(provider), card := cardToken));
    } else if hit.Some? {
      NothingTouched(s, s.payments[hit.value].tenant);
    } else {
      NobodyTouched(s);
    }
  }

  lemma KnownRow(s: System, i: nat)
    requires RowsKnown(s) && i < |s.payments|
    ensures s.payments[i].tenant in s.subs
  {}

  lemma NobodyTouched(s: System)
    ensures Untouched(s, s, None)
  {
    hide Own;
  }

  lemma PaidSafe(s: System, i: nat, sub: Sub)
    requires Safe(s) && i < |s.payments| && s.payments[i].status != Succeeded && s.payments[i].tenant in s.subs
    requires sub.status == Active && sub.provider.Some? && sub.renewals == s.subs[s.payments[i].tenant].renewals + 1
    ensures var p := s.payments[i];
            var j := Job(Charge(s.now + PERIOD), p.tenant, s.now + PERIOD);
            var s' := s.(subs := s.subs[p.tenant := sub], payments := s.payments[i := p.(status := Succeeded)],
                         queue := Add(WithoutTenant(s.queue, p.tenant), j));
            Safe(s') && Untouched(s, s', Some(p.tenant))
  {
    hide JobId, Own, WithoutTenant, SuccessCount, Add, Legal, Fits, Untouched, WellKeyed, OthersSee, Safe;
    var p := s.payments[i];
    var j := Job(Charge(s.now + PERIOD), p.tenant, s.now + PERIOD);
    SafeKnows(s, p.tenant);
    PaidView(s, i, j);
    PaidLegal(sub, j);
    LocalStepSafe(s, p.tenant, sub, s.payments[i := p.(status := Succeeded)], Add(WithoutTenant(s.queue, p.tenant), j));
  }

  lemma SafeKnows(s: System, t: TenantId)
    requires Safe(s)
    ensures RowsKnown(s) && JobsKnown(s)
    ensures t in s.subs ==> s.subs[t].renewals == SuccessCount(s.payments, t)
  {
    hide JobId, Own, SuccessCount, Legal;
  }

  // A payment becomes successful and the tenant's jobs give way to one.
  lemma PaidView(s: System, i: nat, j: Job)
    requires RowsKnown(s) && JobsKnown(s) && i < |s.payments| && s.payments[i].status != Succeeded && j.tenant == s.payments[i].tenant
    ensures var ps, q := s.payments[i := s.payments[i].(status := Succeeded)], Add(WithoutTenant(s.queue, j.tenant), j);
            && OthersSee(s, j.tenant, ps, q) && Own(q, j.tenant) == map[JobId(j) := j]
            && SuccessCount(ps, j.tenant) == SuccessCount(s.payments, j.tenant) + 1
  {
    hide JobId, Own, WithoutTenant, SuccessCount, Add;
    AfterDrop(s, j.tenant);
    AfterAdd(s, WithoutTenant(s.queue, j.tenant), j);
    forall u {
      SuccessCountUpdate(s.payments, i, s.payments[i].(status := Succeeded), u);
    }
  }

  lemma PaidLegal(sub: Sub, j: Job)
    requires sub.status == Active && sub.provider.Some? && j.kind.Charge?
    ensures Legal(sub, map[JobId(j) := j])
  {
    hide JobId;
  }

  lemma FailureSafe(s: System, hit: Option<nat>)
    requires Safe(s) && (hit.Some? ==> hit.value < |s.payments|)
    ensures Safe(PaymentFailed(s, hit))
  {
    if hit.Some? {
      forall u {
        SuccessCountUpdate(s.payments, hit.value, s.payments[hit.value].(status := Failed), u);
      }
    }
  }

  lemma CheckoutSafe(s: System, t: TenantId, provider: Provider, externalId: string)
    requires Safe(s) && t in s.subs
    ensures Safe(CheckedOut(s, t, provider, externalId))
  {
    hide JobId, Own, SuccessCount, Legal, Fits, WellKeyed;
    forall u {
      SuccessCountAppend(s.payments, Payment(t, provider, externalId, Pending), u);
    }
  }

  lemma CancelSafe(s: System, t: TenantId)
    requires Safe(s) && t in s.subs
    ensures Safe(CancelledBy(s, t))
    ensures Untouched(s, CancelledBy(s, t), Some(t))
  {
    hide JobId, Own, WithoutTenant, SuccessCount, Add, Safe, Untouched;
    var sub := s.subs[t];
    CardHasProvider(s, t);
    match sub.status {
      case Trial => DroppedSafe(s, t, sub.(status := Expired));
      case Active =>
        if sub.periodEnd.Some? && s.now < sub.periodEnd.value {
          ReplacedSafe(s, t, sub.(status := Cancelled), Job(Expire, t, sub.periodEnd.value));
        } else {
          DroppedSafe(s, t, sub.(status := Cancelled));
        }
      case _ => NothingTouched(s, t);
    }
  }

  lemma CardHasProvider(s: System, t: TenantId)
    requires Safe(s) && t in s.subs
    ensures s.subs[t].card.Some? ==> s.subs[t].provider.Some?
  {
    hide Own, JobId;
  }

  lemma NothingTouched(s: System, t: TenantId)
    ensures Untouched(s, s, Some(t))
  {
    hide Own;
  }

  // A tenant's jobs are dropped, or replaced by a single one.
  lemma DroppedSafe(s: System, t: TenantId, sub: Sub)
    requires Safe(s) && t in s.subs && Legal(sub, map[]) && sub.renewals == s.subs[t].renewals
    ensures var s' := s.(subs := s.subs[t := sub], queue := WithoutTenant(s.queue, t)); Safe(s') && Untouched(s, s', Some(t))
  {
    hide JobId, Own, WithoutTenant, SuccessCount, Legal;
    AfterDrop(s, t);
    LocalStepSafe(s, t, sub, s.payments, WithoutTenant(s.queue, t));
  }

  lemma ReplacedSafe(s: System, t: TenantId, sub: Sub, j: Job)
    requires Safe(s) && t in s.subs && Legal(sub, map[JobId(j) := j]) && sub.renewals == s.subs[t].renewals && j.tenant == t
    ensures var s' := s.(subs := s.subs[t := sub], queue := Add(WithoutTenant(s.queue, t), j)); Safe(s') && Untouched(s, s', Some(t))
  {
    hide JobId, Own, WithoutTenant, SuccessCount, Legal, Add;
    AfterDrop(s, t);
    AfterAdd(s, WithoutTenant(s.queue, t), j);
    LocalStepSafe(s, t, sub, s.payments, Add(WithoutTenant(s.queue, t), j));
  }

  ghost predicate OnlyReminders(own: Queue) {
    forall id :: id in own ==> !own[id].kind.Billing()
  }

  // Once a billing job has left the queue its tenant has no billing job pending.
  lemma AfterFire(s: System, id: string)
    requires Safe(s) && id in s.queue
    ensures WellKeyed(s.queue - {id}) && forall x :: x in s.queue - {id} ==> s.queue[x].tenant in s.subs
    ensures forall u :: u != s.queue[id].tenant ==> Own(s.queue - {id}, u) == Own(s.queue, u)
    ensures Own(s.queue - {id}, s.queue[id].tenant) == Own(s.queue, s.queue[id].tenant) - {id}
    ensures Fits(s.queue[id].kind, s.subs[s.queue[id].tenant])
    ensures s.queue[id].kind.Billing() ==> OnlyReminders(Own(s.queue - {id}, s.queue[id].tenant))
  {
    forall u {
      OwnAfterRemove(s.queue, id, u);
    }
    var own := Own(s.queue, s.queue[id].tenant);
    assert Legal(s.subs[s.queue[id].tenant], own);
    assert id in own && own[id] == s.queue[id];
  }

  lemma PendingFits(s: System, id: string)
    requires Safe(s) && id in s.queue
    ensures s.queue[id].tenant in s.subs && Fits(s.queue[id].kind, s.subs[s.queue[id].tenant])
    ensures Legal(s.subs[s.queue[id].tenant], Own(s.queue, s.queue[id].tenant))
  {
    var own := Own(s.queue, s.queue[id].tenant);
    assert id in own && own[id] == s.queue[id];
  }

  // A billing job may be added to a tenant that only has reminders left.
  lemma RemindersLeaveRoom(q: Queue, j: Job)
    requires WellKeyed(q) && j.kind.Billing()
    requires OnlyReminders(Own(q, j.tenant))
    ensures JobId(j) !in Own(q, j.tenant)
  {
    if JobId(j) in Own(q, j.tenant) {
      JobIdDetermines(q[JobId(j)], j);
    }
  }

  // The job a firing charge or retry leaves behind, unless it was approved or broke off.
  ghost function NextJob(s: System, j: Job, outcome: ChargeOutcome): Job {
    if outcome.Approved? then Job(Charge(s.now + PERIOD), j.tenant, s.now + PERIOD)
    else match j.kind
      case Retry(attempt) => NextAttempt(j.tenant, attempt, s.now)
      case _ => Job(Retry(2), j.tenant, s.now + 24 * HOUR)
  }

  /** What a tenant has pending once one of its jobs has fired. */
  ghost function LeftPending(s: System, id: string, outcome: ChargeOutcome): Queue
    requires id in s.queue && s.queue[id].tenant in s.subs
  {
    var j := s.queue[id];
    var rest := Own(s.queue, j.tenant) - {id};
    var chargeable := s.subs[j.tenant].provider.Some? && s.subs[j.tenant].card.Some?;
    if (j.kind.Charge? || j.kind.Retry?) && chargeable && !outcome.Aborted?
    then rest[JobId(NextJob(s, j, outcome)) := NextJob(s, j, outcome)]
    else rest
  }

  // A charge attempt appends one row and may leave one job behind.
  lemma AttemptSafe(s: System, id: string, sub: Sub, row: Payment, next: Job)
    requires Safe(s) && id in s.queue && s.queue[id].kind.Billing()
    requires row.tenant == next.tenant == s.queue[id].tenant && next.kind.Billing()
    requires Fits(next.kind, sub) && sub.card.Some? && sub.provider.Some?
    requires forall k: Kind :: k.TrialReminder? ==> Fits(k, sub)
    requires sub.renewals == s.subs[row.tenant].renewals + Weight(row, row.tenant)
    ensures var s' := s.(subs := s.subs[row.tenant := sub], payments := s.payments + [row], queue := Add(s.queue - {id}, next));
            Safe(s') && Untouched(s, s', Some(row.tenant))
    ensures Own(Add(s.queue - {id}, next), row.tenant) == (Own(s.queue, row.tenant) - {id})[JobId(next) := next]
  {
    hide JobId, Own, SuccessCount, Add;
    var t := row.tenant;
    var q := s.queue - {id};
    AfterFire(s, id);
    RemindersLeaveRoom(q, next);
    AfterAdd(s, q, next);
    RowAppended(s, row);
    LocalStepSafe(s, t, sub, s.payments + [row], Add(q, next));
  }

  lemma RowAppended(s: System, row: Payment)
    requires RowsKnown(s) && row.tenant in s.subs
    ensures forall i :: 0 <= i < |s.payments + [row]| ==> (s.payments + [row])[i].tenant in s.subs
    ensures SuccessCount(s.payments + [row], row.tenant) == SuccessCount(s.payments, row.tenant) + Weight(row, row.tenant)
    ensures forall u :: u != row.tenant ==> SuccessCount(s.payments + [row], u) == SuccessCount(s.payments, u)
  {
    forall u {
      SuccessCountAppend(s.payments, row, u);
    }
  }

  function WithRow(ps: seq<Payment>, row: Option<Payment>): seq<Payment> {
    if row.Some? then ps + [row.value] else ps
  }

  // The firing of a job that leaves no billing job behind and may append an unsuccessful row.
  lemma QuietFireSafe(s: System, id: string, sub: Sub, row: Option<Payment>)
    requires Safe(s) && id in s.queue
    requires row.Some? ==> row.value.tenant == s.queue[id].tenant && row.value.status != Succeeded
    requires sub == s.subs[s.queue[id].tenant] ||
             (s.queue[id].kind.Billing() && sub == s.subs[s.queue[id].tenant].(status := Expired, card := None))
    ensures Safe(s.(subs := s.subs[s.queue[id].tenant := sub], payments := WithRow(s.payments, row), queue := s.queue - {id}))
    ensures Untouched(s, s.(subs := s.subs[s.queue[id].tenant := sub], payments := WithRow(s.payments, row), queue := s.queue - {id}),
                      Some(s.queue[id].tenant))
    ensures Own(s.queue - {id}, s.queue[id].tenant) == Own(s.queue, s.queue[id].tenant) - {id}
  {
    hide JobId, Own, SuccessCount;
    AfterFire(s, id);
    if row.Some? {
      RowAppended(s, row.value);
    }
    LocalStepSafe(s, s.queue[id].tenant, sub, WithRow(s.payments, row), s.queue - {id});
  }

  lemma ChargeFires(s: System, id: string, orderId: string, outcome: ChargeOutcome)
    requires Safe(s) && id in s.queue && s.queue[id].kind.Charge?
    ensures Safe(Fired(s, id, orderId, outcome))
    ensures Untouched(s, Fired(s, id, orderId, outcome), Some(s.queue[id].tenant))
    ensures Own(Fired(s, id, orderId, outcome).queue, s.queue[id].tenant) == LeftPending(s, id, outcome)
  {
    hide JobId, Own, SuccessCount, Add, Safe, Untouched, WellKeyed;
    PendingFits(s, id);
    var t := s.queue[id].tenant;
    var sub := s.subs[t];
    SameSub(s, t);
    if sub.provider.None? || sub.card.None? {
      QuietFireSafe(s, id, sub, None);
    } else {
      var row := OutcomeRow(t, sub.provider.value, orderId, outcome);
      match outcome
      case Approved(_) => AttemptSafe(s, id, Renew(sub, s.now), row, Job(Charge(s.now + PERIOD), t, s.now + PERIOD));
      case Declined => AttemptSafe(s, id, sub.(status := PastDue, retryCount := 1), row, Job(Retry(2), t, s.now + 24 * HOUR));
      case Aborted => QuietFireSafe(s, id, sub, Some(row));
    }
  }

  lemma RetryFires(s: System, id: string, orderId: string, outcome: ChargeOutcome)
    requires Safe(s) && id in s.queue && s.queue[id].kind.Retry?
    ensures Safe(Fired(s, id, orderId, outcome))
    ensures Untouched(s, Fired(s, id, orderId, outcome), Some(s.queue[id].tenant))
    ensures Own(Fired(s, id, orderId, outcome).queue, s.queue[id].tenant) == LeftPending(s, id, outcome)
  {
    hide JobId, Own, SuccessCount, Add, Safe, Untouched, WellKeyed;
    PendingFits(s, id);
    var j := s.queue[id];
    var t := j.tenant;
    var sub := s.subs[t];
    SameSub(s, t);
    var row := OutcomeRow(t, sub.provider.value, orderId, outcome);
    match outcome
    case Approved(_) =>
      AttemptSafe(s, id, Renew(sub, s.now).(status := Active), row, Job(Charge(s.now + PERIOD), t, s.now + PERIOD));
    case Declined =>
      AttemptSafe(s, id, sub.(retryCount := j.kind.attempt), row, NextAttempt(t, j.kind.attempt, s.now));
    case Aborted => QuietFireSafe(s, id, sub, Some(row));
  }

  lemma FireSafe(s: System, id: string, orderId: string, outcome: ChargeOutcome)
    requires Safe(s) && id in s.queue
    ensures Safe(Fired(s, id, orderId, outcome))
    ensures Untouched(s, Fired(s, id, orderId, outcome), Some(s.queue[id].tenant))
    ensures Own(Fired(s, id, orderId, outcome).queue, s.queue[id].tenant) == LeftPending(s, id, outcome)
  {
    hide JobId, Own, SuccessCount, Add, Charged, Retried, Safe, Untouched, WellKeyed;
    PendingFits(s, id);
    SameSub(s, s.queue[id].tenant);
    var j := s.queue[id];
    var sub := s.subs[j.tenant];
    match j.kind
    case Charge(_) => ChargeFires(s, id, orderId, outcome);
    case Retry(_) => RetryFires(s, id, orderId, outcome);
    case TrialReminder(_) => QuietFireSafe(s, id, sub, None);
    case _ => QuietFireSafe(s, id, sub.(status := Expired, card := None), None);
  }

  function RowTenant(s: System, hit: Option<nat>): Option<TenantId>
    requires hit.Some? ==> hit.value < |s.payments|
  {
    if hit.Some? then Some(s.payments[hit.value].tenant) else None
  }

  /** The tenant an event is about. */
  ghost function Target(s: System, e: Event): Option<TenantId>
    requires Enabled(s, e)
  {
    match e
    case Register(t, _, _) => Some(t)
    case Checkout(t, _, _) => Some(t)
    case PaymentSuccess(_, _, hit, _) => RowTenant(s, hit)
    case PaymentFailure(_, _, hit) => RowTenant(s, hit)
    case Cancel(t) => Some(t)
    case Fire(id, _, _) => Some(s.queue[id].tenant)
    case Tick(_) => None
  }

  /** Every step keeps the invariant, whatever the providers answer and whether or not a handler throws. */
  lemma StepKeepsSafe(s: System, e: Event)
    requires Safe(s) && Enabled(s, e)
    ensures Safe(Step(s, e)) && Untouched(s, Step(s, e), Target(s, e))
  {
    match e
    case Register(t, trialEndsAt, withTrialJobs) => RegisterSafe(s, t, trialEndsAt, withTrialJobs);
    case Checkout(t, provider, externalId) => CheckoutSafe(s, t, provider, externalId);
    case PaymentSuccess(provider, _, hit, cardToken) => SuccessSafe(s, provider, hit, cardToken);
    case PaymentFailure(_, _, hit) => FailureSafe(s, hit);
    case Cancel(t) => CancelSafe(s, t);
    case Fire(id, orderId, outcome) => FireSafe(s, id, orderId, outcome);
    case Tick(_) =>
  }

  lemma {:induction false} RunKeepsSafe(s: System, es: seq<Event>)
    requires Safe(s) && Runnable(s, es)
    ensures Safe(Run(s, es))
    decreases |es|
  {
    if es != [] {
      StepKeepsSafe(s, es[0]);
      RunKeepsSafe(Step(s, es[0]), es[1..]);
    }
  }
}
