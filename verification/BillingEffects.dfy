/**
 What each step does to a tenant, field by field: told in the fields of the state before, the event and
 plain lengths of time.
 */
module BillingEffects {
  import opened Wrappers
  import opened JobIds
  import opened Billing
  import opened BillingSafety

  // In milliseconds.
  const THIRTY_DAYS: nat := 2_592_000_000
  const ONE_HOUR: nat := 3_600_000

  // The first success reported for a payment of the tenant.
  ghost predicate FirstSuccess(s: System, e: Event, t: TenantId)
    requires Enabled(s, e)
  {
    e.PaymentSuccess? && e.hit.Some? && s.payments[e.hit.value].tenant == t && s.payments[e.hit.value].status != Succeeded
  }

  // A charge or retry of the tenant runs and there is a card to charge.
  ghost predicate Attempts(s: System, e: Event, t: TenantId)
    requires Enabled(s, e)
  {
    && e.Fire? && s.queue[e.id].tenant == t && (s.queue[e.id].kind.Charge? || s.queue[e.id].kind.Retry?)
    && t in s.subs && s.subs[t].card.Some?
  }

  // A job of the tenant that ends its access runs.
  ghost predicate Ends(s: System, e: Event, t: TenantId)
    requires Enabled(s, e)
  {
    e.Fire? && s.queue[e.id].tenant == t && (s.queue[e.id].kind.TrialEnd? || s.queue[e.id].kind.Expire?)
  }

  ghost predicate Paid(s: System, e: Event, t: TenantId)
    requires Enabled(s, e)
  {
    FirstSuccess(s, e, t) || (Attempts(s, e, t) && e.outcome.Approved?)
  }

  // ---------------------------------------------------------------------------
  // The subscription
  // ---------------------------------------------------------------------------

  /** Every field of a subscription after a step, from what happened to its tenant. */
  ghost predicate SubAsTold(s: System, e: Event, t: TenantId, sub: Sub)
    requires Enabled(s, e) && t in s.subs
  {
    var was := s.subs[t];
    && sub.status == (if Paid(s, e, t) then Active
                      else if Attempts(s, e, t) && e.outcome.Declined? then PastDue
                      else if Ends(s, e, t) then Expired
                      else if e == Cancel(t) && was.status == Trial then Expired
                      else if e == Cancel(t) && was.status == Active then Cancelled
                      else was.status)
    && sub.card == (if FirstSuccess(s, e, t) then e.cardToken else if Ends(s, e, t) then None else was.card)
    && sub.provider == (if FirstSuccess(s, e, t) then Some(e.provider) else was.provider)
    && sub.retryCount == (if Paid(s, e, t) then 0
                          else if Attempts(s, e, t) && e.outcome.Declined? then
                            (if s.queue[e.id].kind.Charge? then 1 else s.queue[e.id].kind.attempt)
                          else was.retryCount)
    && sub.periodStart == (if Paid(s, e, t) then Some(s.now) else was.periodStart)
    && sub.periodEnd == (if Paid(s, e, t) then Some(s.now + THIRTY_DAYS) else was.periodEnd)
  }

  lemma FireSub(s: System, e: Event, t: TenantId)
    requires Safe(s) && Enabled(s, e) && e.Fire? && s.queue[e.id].tenant == t
    ensures t in s.subs && t in Step(s, e).subs && SubAsTold(s, e, t, Step(s, e).subs[t])
    ensures Step(s, e).subs[t].renewals == s.subs[t].renewals + if Paid(s, e, t) then 1 else 0
  {
    hide JobId, Own, Add, Safe, RowsKnown, JobsKnown;
    PendingFits(s, e.id);
    match s.queue[e.id].kind
    case Charge(_) =>
    case Retry(_) =>
    case _ =>
  }

  lemma CalledSub(s: System, e: Event, t: TenantId)
    requires Enabled(s, e) && !e.Fire? && t in s.subs
    ensures t in Step(s, e).subs && SubAsTold(s, e, t, Step(s, e).subs[t])
    ensures Step(s, e).subs[t].renewals == s.subs[t].renewals + if Paid(s, e, t) then 1 else 0
  {
    hide JobId, Own, Add, WithoutTenant, TrialJobs, RowsKnown, JobsKnown;
  }

  lemma ForeignFireSub(s: System, e: Event, t: TenantId)
    requires Safe(s) && Enabled(s, e) && e.Fire? && s.queue[e.id].tenant != t && t in s.subs
    ensures t in Step(s, e).subs && SubAsTold(s, e, t, Step(s, e).subs[t])
    ensures Step(s, e).subs[t].renewals == s.subs[t].renewals && !Paid(s, e, t)
  {
    hide JobId, Own, Safe, Step, RowsKnown, JobsKnown;
    StepKeepsSafe(s, e);
  }

  /** In a safe state every step changes a tenant's subscription exactly as told, and no other way. */
  lemma SubExact(s: System, e: Event, t: TenantId)
    requires Safe(s) && Enabled(s, e) && t in s.subs
    ensures t in Step(s, e).subs && SubAsTold(s, e, t, Step(s, e).subs[t])
    ensures Step(s, e).subs[t].renewals == s.subs[t].renewals + if Paid(s, e, t) then 1 else 0
  {
    if !e.Fire? {
      CalledSub(s, e, t);
    } else if s.queue[e.id].tenant == t {
      FireSub(s, e, t);
    } else {
      ForeignFireSub(s, e, t);
    }
  }

  ghost predicate ChargeDue(s: System, t: TenantId, at: nat) {
    exists id :: id in s.queue && s.queue[id] == Job(Charge(at), t, at)
  }

  /**
   A tenant's successful payments grow by at most one in a step. When they grow, a period of thirty days
   starts now and its charge is due when it ends; when they do not, the tenant keeps the period it has.
   */
  lemma PeriodExact(s: System, e: Event, t: TenantId)
    requires Safe(s) && Enabled(s, e) && t in s.subs
    ensures t in Step(s, e).subs
    ensures var s' := Step(s, e);
            var count, count' := SuccessCount(s.payments, t), SuccessCount(s'.payments, t);
            && (count' == count || count' == count + 1)
            && (count' == count + 1 ==>
                  && s'.subs[t].periodStart == Some(s.now) && s'.subs[t].periodEnd == Some(s.now + 2_592_000_000)
                  && s'.subs[t].status == Active && ChargeDue(s', t, s.now + 2_592_000_000))
            && (count' == count ==>
                  s'.subs[t].periodStart == s.subs[t].periodStart && s'.subs[t].periodEnd == s.subs[t].periodEnd)
  {
    hide Step, Safe, JobId, Own, SuccessCount;
    SubExact(s, e, t);
    StepKeepsSafe(s, e);
    SafeKnows(s, t);
    SafeKnows(Step(s, e), t);
    if Paid(s, e, t) {
      PaidChargeDue(s, e, t);
    }
  }

  lemma PaidChargeDue(s: System, e: Event, t: TenantId)
    requires Safe(s) && Enabled(s, e) && t in s.subs && Paid(s, e, t)
    ensures ChargeDue(Step(s, e), t, s.now + 2_592_000_000)
  {
    hide JobId, Own, Step, Safe;
    var j := Job(Charge(s.now + 2_592_000_000), t, s.now + 2_592_000_000);
    if FirstSuccess(s, e, t) {
      SuccessJobs(s, e, t);
    } else {
      FiredJobs(s, e, t);
    }
    OwnHolds(Step(s, e).queue, t, JobId(j));
  }

  // ---------------------------------------------------------------------------
  // The pending jobs
  // ---------------------------------------------------------------------------

  /** A first success leaves the tenant one job: the charge at the end of the new period. */
  lemma SuccessJobs(s: System, e: Event, t: TenantId)
    requires Safe(s) && Enabled(s, e) && FirstSuccess(s, e, t)
    ensures var j := Job(Charge(s.now + 2_592_000_000), t, s.now + 2_592_000_000);
            Own(Step(s, e).queue, t) == map[JobId(j) := j]
  {
    hide JobId, Own, SuccessCount, WellKeyed, Legal, Fits, OthersSee, Add, WithoutTenant;
    SafeKnows(s, t);
    PaidView(s, e.hit.value, Job(Charge(s.now + PERIOD), t, s.now + PERIOD));
  }

  // The job that follows an attempt that did not break off.
  function Follower(s: System, j: Job, outcome: ChargeOutcome): Job {
    if outcome.Approved? then Job(Charge(s.now + 2_592_000_000), j.tenant, s.now + 2_592_000_000)
    else if j.kind.Charge? then Job(Retry(2), j.tenant, s.now + 24 * ONE_HOUR)
    else if j.kind == Retry(2) then Job(Retry(3), j.tenant, s.now + 48 * ONE_HOUR)
    else Job(Expire, j.tenant, s.now + 72 * ONE_HOUR)
  }

  /** A job that runs is gone; a charge or retry that did not break off leaves its follower, all else stays. */
  lemma FiredJobs(s: System, e: Event, t: TenantId)
    requires Safe(s) && Enabled(s, e) && e.Fire? && s.queue[e.id].tenant == t
    ensures var own, j := Own(s.queue, t), s.queue[e.id];
            Own(Step(s, e).queue, t) ==
              if Attempts(s, e, t) && !e.outcome.Aborted?
              then (own - {e.id})[JobId(Follower(s, j, e.outcome)) := Follower(s, j, e.outcome)]
              else own - {e.id}
  {
    hide JobId, Own, SuccessCount, WellKeyed, Add, Step, Safe, Legal;
    PendingFits(s, e.id);
    CardHasProvider(s, t);
    FireIsStep(s, e);
    FireSafe(s, e.id, e.orderId, e.outcome);
    if s.queue[e.id].kind.Charge? || s.queue[e.id].kind.Retry? {
      FollowerIsNext(s, s.queue[e.id], e.outcome, s.subs[t]);
    }
  }

  lemma FireIsStep(s: System, e: Event)
    requires Enabled(s, e) && e.Fire?
    ensures Step(s, e) == Fired(s, e.id, e.orderId, e.outcome)
  {}

  lemma FollowerIsNext(s: System, j: Job, outcome: ChargeOutcome, sub: Sub)
    requires Fits(j.kind, sub) && (j.kind.Charge? || j.kind.Retry?)
    ensures Follower(s, j, outcome) == NextJob(s, j, outcome)
  {}

  // The job finds its tenant in a status it is not for, or without a card to charge.
  predicate Stale(j: Job, sub: Sub) {
    match j.kind
    case TrialEnd => sub.status != Trial
    case TrialReminder(_) => true
    case Charge(_) => sub.provider.None? || sub.card.None?
    case Retry(_) => sub.status != PastDue
    case Expire => sub.status != PastDue && sub.status != Cancelled
  }

  /**
   In any state, safe or not: a job that comes too late, and a reminder, change nothing but the queue they leave.
   A retry without a card asks for the end of access at once.
   */
  lemma StaleJobs(s: System, e: Event)
    requires Enabled(s, e) && e.Fire?
    ensures s.queue[e.id].tenant in s.subs
    ensures var j := s.queue[e.id];
            var sub := s.subs[j.tenant];
            && (Stale(j, sub) ==> Step(s, e) == s.(queue := s.queue - {e.id}))
            && (j.kind.Retry? && !Stale(j, sub) && (sub.provider.None? || sub.card.None?) ==>
                  Step(s, e) == s.(queue := Add(s.queue - {e.id}, Job(Expire, j.tenant, s.now))))
  {
    hide JobId;
  }

  /** Cancelling an active tenant leaves one job, the end of access at the period's end if that lies ahead; a trial, none. */
  lemma CancelExact(s: System, t: TenantId)
    requires Safe(s) && Enabled(s, Cancel(t))
    ensures var s', was := Step(s, Cancel(t)), s.subs[t];
            if was.status == Trial then Own(s'.queue, t) == map[]
            else if was.status == Active then
              Own(s'.queue, t) == if was.periodEnd.Some? && s.now < was.periodEnd.value
                                  then var j := Job(Expire, t, was.periodEnd.value); map[JobId(j) := j]
                                  else map[]
            else s' == s
  {
    hide JobId, Own, WithoutTenant, Add, WellKeyed, Legal, Fits;
    AfterDrop(s, t);
    var was := s.subs[t];
    if was.status == Active && was.periodEnd.Some? && s.now < was.periodEnd.value {
      AfterAdd(s, WithoutTenant(s.queue, t), Job(Expire, t, was.periodEnd.value));
    }
  }

  /** No other step touches a tenant's pending jobs; those of other tenants are never touched. */
  lemma JobsOtherwiseKept(s: System, e: Event, t: TenantId)
    requires Safe(s) && Enabled(s, e) && t in s.subs
    requires !FirstSuccess(s, e, t) && !(e.Fire? && s.queue[e.id].tenant == t) && e != Cancel(t)
    ensures Own(Step(s, e).queue, t) == Own(s.queue, t)
  {
    if Target(s, e) != Some(t) {
      hide JobId, Own, Step, Safe, Target, Enabled;
      StepKeepsSafe(s, e);
    } else {
      OwnJobsKept(s, e, t);
    }
  }

  lemma OwnJobsKept(s: System, e: Event, t: TenantId)
    requires Enabled(s, e) && t in s.subs && Target(s, e) == Some(t) && !FirstSuccess(s, e, t) && !e.Fire? && !e.Cancel?
    ensures Step(s, e).queue == s.queue
  {
    hide JobId, Own, Add, WithoutTenant, TrialJobs, RowsKnown, JobsKnown;
  }

  // ---------------------------------------------------------------------------
  // The payment rows, registration, the clock
  // ---------------------------------------------------------------------------

  // How the row of an attempt ends.
  function RowStatus(outcome: ChargeOutcome): PaymentStatus {
    match outcome
    case Approved(_) => Succeeded
    case Declined => Failed
    case Aborted => Pending
  }

  ghost predicate Opens(s: System, e: Event)
    requires Enabled(s, e)
  {
    e.Checkout? && s.subs[e.tenant].status != Active
  }

  /** A checkout of a tenant that is not active adds a pending row, an attempt one with its outcome, nothing else a row. */
  lemma RowsAdded(s: System, e: Event)
    requires Safe(s) && Enabled(s, e)
    ensures var ps := Step(s, e).payments;
            var attempted := e.Fire? && Attempts(s, e, s.queue[e.id].tenant);
            && |ps| == |s.payments| + (if Opens(s, e) || attempted then 1 else 0)
            && (Opens(s, e) ==> ps[|s.payments|] == Payment(e.tenant, e.provider, e.externalId, Pending))
            && (attempted ==>
                  var t := s.queue[e.id].tenant;
                  && s.subs[t].provider.Some?
                  && ps[|s.payments|] == Payment(t, s.subs[t].provider.value,
                       if e.outcome.Approved? && e.outcome.externalId != "" then e.outcome.externalId else e.orderId,
                       RowStatus(e.outcome)))
  {
    hide JobId, Own, Add, WithoutTenant, TrialJobs, Safe;
    if e.Fire? {
      PendingFits(s, e.id);
    }
  }

  /** Of the rows there are a success report settles its own, a failure report its own if it is pending; no other changes. */
  lemma RowsKept(s: System, e: Event, i: nat)
    requires Enabled(s, e) && i < |s.payments|
    ensures i < |Step(s, e).payments|
    ensures Step(s, e).payments[i] == s.payments[i].(status :=
              if e.PaymentSuccess? && e.hit == Some(i) then Succeeded
              else if e.PaymentFailure? && e.hit == Some(i) && s.payments[i].status == Pending then Failed
              else s.payments[i].status)
  {
    hide JobId, Own, Add, WithoutTenant, TrialJobs;
  }

  /** A tenant is new only by registration: on trial if its trial ends in the future, else expired, without card or payment. */
  lemma RegistrationExact(s: System, e: Event, t: TenantId)
    requires Enabled(s, e) && t !in s.subs && t in Step(s, e).subs
    ensures e.Register? && e.tenant == t
    ensures var sub := Step(s, e).subs[t];
            var trial := e.trialEndsAt.Some? && s.now < e.trialEndsAt.value;
            sub == Sub(if trial then Trial else Expired, None, None, 0, if trial then Some(s.now) else None, e.trialEndsAt, 0)
    ensures Step(s, e).payments == s.payments
  {
    hide JobId, Add, WithoutTenant, TrialJobs;
  }

  /** Registering enrols the tenant; a second time, it changes nothing. */
  lemma RegisterTakes(s: System, e: Event)
    requires Enabled(s, e) && e.Register?
    ensures e.tenant in Step(s, e).subs
    ensures e.tenant in s.subs ==> Step(s, e) == s
  {
    hide JobId, Add, TrialJobs;
  }

  lemma ClockExact(s: System, e: Event)
    requires Enabled(s, e)
    ensures Step(s, e).now == s.now + if e.Tick? then e.later else 0
  {
    hide JobId, Own, Add, WithoutTenant, TrialJobs;
  }
}
