/**
 The subscription service itself: an object that updates the tables and the queue in place. Every
 handler is proved to make the step of the billing state machine that carries its name.
 */
module SubscriptionService {
  import opened Durations
  import opened Wrappers
  import opened JobIds
  import opened Billing

  class SubscriptionService {
    var now: nat
    var subs: map<TenantId, Sub>
    var payments: seq<Payment>
    var queue: Queue

    ghost function State(): (s: System)
      reads this
    {
      System(now, subs, payments, queue)
    }

    // Foreign keys hold and every queued job sits under its own id.
    ghost predicate Valid()
      reads this
    {
      RowsKnown(State()) && JobsKnown(State())
    }

    constructor (now: nat)
      ensures Valid() && State() == System(now, map[], [], map[])
    {
      this.now := now;
      subs, payments, queue := map[], [], map[];
    }

    /** Removes the pending jobs of a tenant, looking them up by id and by id prefix. */
    method CancelPendingJobs(t: TenantId)
      requires WellKeyed(queue)
      modifies this`queue
      ensures queue == WithoutTenant(old(queue), t)
    {
      hide CancelPatterns, Unhit, WithoutTenant, JobId;
      ghost var q0 := queue;
      var patterns := CancelPatterns(t);
      var i := 0;
      UnhitNone(q0, patterns);
      while i < |patterns|
        invariant 0 <= i <= |patterns|
        invariant queue == Unhit(q0, patterns, i)
        decreases |patterns| - i
      {
        match patterns[i] {
          case Exact(id) =>
            if id in queue {
              queue := queue - {id};
            }
          case Prefix(text) =>
            RemoveByPrefix(text);
        }
        UnhitNext(q0, patterns, i);
        i := i + 1;
      }
      UnhitAll(q0, t);
    }

    // Walks over the delayed jobs as they were on entry and drops those whose id has the prefix.
    method RemoveByPrefix(text: string)
      modifies this`queue
      ensures queue == map id | id in old(queue) && !(text <= id) :: old(queue)[id]
    {
      var delayed := queue.Keys;
      while delayed != {}
        invariant delayed <= old(queue).Keys
        invariant queue == map id | id in old(queue) && !(text <= id && id !in delayed) :: old(queue)[id]
        decreases delayed
      {
        var id :| id in delayed;
        delayed := delayed - {id};
        if text <= id {
          queue := queue - {id};
        }
      }
    }

    method Schedule(kind: Kind, t: TenantId, due: nat)
      modifies this`queue
      ensures queue == Add(old(queue), Job(kind, t, due))
    {
      var j := Job(kind, t, due);
      if JobId(j) !in queue {
        queue := queue[JobId(j) := j];
      }
    }

    // A row that answers the lookup, if there is one.
    method FindPayment(provider: Provider, externalId: string) returns (hit: Option<nat>)
      ensures Answers(State(), provider, externalId, hit)
    {
      for i := 0 to |payments|
        invariant forall k :: 0 <= k < i ==> !IsRow(payments[k], provider, externalId)
      {
        if IsRow(payments[i], provider, externalId) {
          return Some(i);
        }
      }
      hit := None;
    }

    method HandlePaymentSuccess(provider: Provider, externalId: string, cardToken: Option<string>)
      returns (hit: Option<nat>)
      requires Valid()
      modifies this
      ensures Answers(old(State()), provider, externalId, hit)
      ensures Valid() && State() == PaymentSucceeded(old(State()), provider, hit, cardToken)
    {
      hide JobId, Add, WithoutTenant, WellKeyed;
      hit := FindPayment(provider, externalId);
      if hit.None? || payments[hit.value].status == Succeeded {
        return;
      }
      var payment := payments[hit.value];
      var periodEnd := now + PERIOD;
      payments := payments[hit.value := payment.(status := Succeeded)];
      var sub := subs[payment.tenant];
      subs := subs[payment.tenant :=
                   sub.(status := Active, provider := Some(provider), card := cardToken, periodStart := Some(now),
                        periodEnd := Some(periodEnd), retryCount := 0, renewals := sub.renewals + 1)];
      DropKnown(queue, subs.Keys, payment.tenant);
      CancelPendingJobs(payment.tenant);
      AddKnown(queue, subs.Keys, Job(Charge(periodEnd), payment.tenant, periodEnd));
      Schedule(Charge(periodEnd), payment.tenant, periodEnd);
    }

    method HandlePaymentFailure(provider: Provider, externalId: string) returns (hit: Option<nat>)
      requires Valid()
      modifies this`payments
      ensures Answers(old(State()), provider, externalId, hit)
      ensures Valid() && State() == PaymentFailed(old(State()), hit)
    {
      hit := FindPayment(provider, externalId);
      if hit.Some? && payments[hit.value].status == Pending {
        payments := payments[hit.value := payments[hit.value].(status := Failed)];
      }
    }

    // The row is written as pending first; `outcome` is what the provider call came to.
    method Attempt(t: TenantId, orderId: string, outcome: ChargeOutcome)
      requires Valid() && t in subs && subs[t].provider.Some?
      modifies this`payments
      ensures Valid() && payments == old(payments) + [OutcomeRow(t, subs[t].provider.value, orderId, outcome)]
    {
      var row := Payment(t, subs[t].provider.value, orderId, Pending);
      payments := payments + [row];
      match outcome
      case Approved(externalId) =>
        row := row.(status := Succeeded, externalId := if externalId != "" then externalId else orderId);
        payments := payments[|payments| - 1 := row];
      case Declined =>
        payments := payments[|payments| - 1 := row.(status := Failed)];
      case Aborted =>
    }

    method ProcessCharge(t: TenantId, orderId: string, outcome: ChargeOutcome)
      requires Valid()
      modifies this
      ensures Valid() && State() == if t in old(subs) then Charged(old(State()), t, orderId, outcome) else old(State())
    {
      hide JobId;
      if t !in subs || subs[t].provider.None? || subs[t].card.None? {
        return;
      }
      Attempt(t, orderId, outcome);
      var sub := subs[t];
      match outcome
      case Approved(_) =>
        subs := subs[t := Renew(sub, now)];
        Schedule(Charge(now + PERIOD), t, now + PERIOD);
      case Declined =>
        subs := subs[t := sub.(status := PastDue, retryCount := 1)];
        Schedule(Retry(2), t, now + 24 * HOUR);
      case Aborted =>
    }

    method ProcessRetry(t: TenantId, attempt: nat, orderId: string, outcome: ChargeOutcome)
      requires Valid()
      modifies this
      ensures Valid()
      ensures State() == if t in old(subs) then Retried(old(State()), t, attempt, orderId, outcome) else old(State())
    {
      hide JobId;
      if t !in subs || subs[t].status != PastDue {
        return;
      }
      if subs[t].provider.None? || subs[t].card.None? {
        Schedule(Expire, t, now);
        return;
      }
      Attempt(t, orderId, outcome);
      var sub := subs[t];
      match outcome
      case Approved(_) =>
        subs := subs[t := Renew(sub, now).(status := Active)];
        Schedule(Charge(now + PERIOD), t, now + PERIOD);
      case Declined =>
        subs := subs[t := sub.(retryCount := attempt)];
        if attempt < 3 {
          var delay := if attempt == 2 then 48 * HOUR else 24 * HOUR;
          Schedule(Retry(attempt + 1), t, now + delay);
        } else {
          Schedule(Expire, t, now + 3 * DAY);
        }
      case Aborted =>
    }

    method ProcessTrialEnd(t: TenantId)
      requires Valid()
      modifies this`subs
      ensures Valid() && State() == if t in old(subs) then TrialEnded(old(State()), t) else old(State())
    {
      if t in subs && subs[t].status == Trial {
        subs := subs[t := subs[t].(status := Expired, card := None)];
      }
    }

    method ProcessExpire(t: TenantId)
      requires Valid()
      modifies this`subs
      ensures Valid() && State() == if t in old(subs) then GraceEnded(old(State()), t) else old(State())
    {
      if t in subs && subs[t].status in {PastDue, Cancelled} {
        subs := subs[t := subs[t].(status := Expired, card := None)];
      }
    }

    /** The answer tells whether the request was accepted. */
    method CancelSubscription(t: TenantId) returns (accepted: bool)
      requires Valid() && t in subs
      modifies this
      ensures accepted <==> old(subs)[t].status in {Active, Trial}
      ensures Valid() && State() == CancelledBy(old(State()), t)
    {
      hide JobId;
      var sub := subs[t];
      if sub.status !in {Active, Trial} {
        return false;
      }
      if sub.status == Trial {
        subs := subs[t := sub.(status := Expired)];
        CancelPendingJobs(t);
      } else {
        subs := subs[t := sub.(status := Cancelled)];
        CancelPendingJobs(t);
        if sub.periodEnd.Some? && now < sub.periodEnd.value {
          Schedule(Expire, t, sub.periodEnd.value);
        }
      }
      accepted := true;
    }

    /** Creates the row only when the tenant has none; a registration may then schedule its trial jobs. */
    method EnsureSubscription(t: TenantId, trialEndsAt: Option<nat>, withTrialJobs: bool)
      requires Valid()
      modifies this
      ensures Valid() && State() == Registered(old(State()), t, trialEndsAt, withTrialJobs)
    {
      hide JobId, Add;
      if t in subs {
        return;
      }
      var trial := trialEndsAt.Some? && now < trialEndsAt.value;
      subs := subs[t := Sub(if trial then Trial else Expired, None, None, 0,
                            if trial then Some(now) else None, trialEndsAt, 0)];
      if trial && withTrialJobs {
        ScheduleTrialJobs(t);
      }
    }

    /** The check at the end of the trial and the two messages before it. */
    method ScheduleTrialJobs(t: TenantId)
      requires Valid() && t in subs
      modifies this`queue
      ensures Valid() && queue == TrialJobs(old(queue), t, now)
    {
      hide JobId, Add, WellKeyed;
      AddKnown(queue, subs.Keys, Job(TrialEnd, t, now + 7 * DAY));
      Schedule(TrialEnd, t, now + 7 * DAY);
      AddKnown(queue, subs.Keys, Job(TrialReminder(5), t, now + 5 * DAY));
      Schedule(TrialReminder(5), t, now + 5 * DAY);
      AddKnown(queue, subs.Keys, Job(TrialReminder(6), t, now + 6 * DAY));
      Schedule(TrialReminder(6), t, now + 6 * DAY);
    }

    /** Opens a pending payment; refused while the subscription is active. */
    method Checkout(t: TenantId, provider: Provider, externalId: string) returns (accepted: bool)
      requires Valid() && t in subs
      modifies this`payments
      ensures accepted <==> subs[t].status != Active
      ensures Valid() && State() == CheckedOut(old(State()), t, provider, externalId)
    {
      accepted := subs[t].status != Active;
      if accepted {
        payments := payments + [Payment(t, provider, externalId, Pending)];
      }
    }

    /** The queue hands out a due job and its handler runs. */
    method RunJob(id: string, orderId: string, outcome: ChargeOutcome)
      requires Valid() && id in queue && queue[id].due <= now
      modifies this
      ensures Valid() && State() == Fired(old(State()), id, orderId, outcome)
    {
      hide JobId;
      var j := queue[id];
      queue := queue - {id};
      match j.kind
      case TrialEnd => ProcessTrialEnd(j.tenant);
      case TrialReminder(_) =>
      case Charge(_) => ProcessCharge(j.tenant, orderId, outcome);
      case Retry(attempt) => ProcessRetry(j.tenant, attempt, orderId, outcome);
      case Expire => ProcessExpire(j.tenant);
    }
  }

  lemma AddKnown(q: Queue, tenants: set<TenantId>, j: Job)
    requires WellKeyed(q) && (forall id :: id in q ==> q[id].tenant in tenants) && j.tenant in tenants
    ensures WellKeyed(Add(q, j)) && forall id :: id in Add(q, j) ==> Add(q, j)[id].tenant in tenants
  {
    hide JobId;
  }

  lemma DropKnown(q: Queue, tenants: set<TenantId>, t: TenantId)
    requires WellKeyed(q) && forall id :: id in q ==> q[id].tenant in tenants
    ensures WellKeyed(WithoutTenant(q, t))
    ensures forall id :: id in WithoutTenant(q, t) ==> WithoutTenant(q, t)[id].tenant in tenants
  {
    hide JobId;
  }

  // What is left after the first `n` patterns.
  ghost function Unhit(q: Queue, patterns: seq<Pattern>, n: nat): Queue
    requires n <= |patterns|
  {
    map id | id in q && (forall k :: 0 <= k < n ==> !Matches(patterns[k], id)) :: q[id]
  }

  lemma UnhitNone(q: Queue, patterns: seq<Pattern>)
    ensures Unhit(q, patterns, 0) == q
  {}

  lemma UnhitNext(q: Queue, patterns: seq<Pattern>, n: nat)
    requires n < |patterns|
    ensures Unhit(q, patterns, n + 1) ==
            map id | id in Unhit(q, patterns, n) && !Matches(patterns[n], id) :: Unhit(q, patterns, n)[id]
  {}

  lemma UnhitAll(q: Queue, t: TenantId)
    requires WellKeyed(q)
    ensures Unhit(q, CancelPatterns(t), |CancelPatterns(t)|) == WithoutTenant(q, t)
  {
    hide CancelPatterns, Matches, JobId;
    forall id | id in q
      ensures q[id].tenant == t <==> exists k :: 0 <= k < |CancelPatterns(t)| && Matches(CancelPatterns(t)[k], id)
    {
      PatternsHitOwnJobsOnly(t, q[id]);
    }
  }
}
