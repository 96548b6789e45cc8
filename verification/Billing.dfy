/**
 The subscription life cycle as a state machine: every tenant's subscription row, the payment table
 and the one job queue all tenants share. Each service call and each job firing is one step.
 */
module Billing {
  import opened Wrappers
  import opened JobIds
  import opened Durations

  const PERIOD: nat := 30 * DAY

  datatype Status = Trial | Active | PastDue | Cancelled | Expired
  datatype Provider = Monobank | Liqpay
  datatype PaymentStatus = Pending | Succeeded | Failed

  datatype Payment = Payment(tenant: TenantId, provider: Provider, externalId: string, status: PaymentStatus)

  // `renewals` is a history variable: how often a payment has set a new period.
  datatype Sub = Sub(status: Status, provider: Option<Provider>, card: Option<string>, retryCount: nat,
                     periodStart: Option<nat>, periodEnd: Option<nat>, renewals: nat)

  datatype System = System(now: nat, subs: map<TenantId, Sub>, payments: seq<Payment>, queue: Queue)

  // What became of a call that charges a saved card. An exception leaves the handler half done.
  datatype ChargeOutcome = Approved(externalId: string) | Declined | Aborted

  datatype Event =
    | Register(tenant: TenantId, trialEndsAt: Option<nat>, withTrialJobs: bool)
    | Checkout(tenant: TenantId, provider: Provider, externalId: string)
    | PaymentSuccess(provider: Provider, externalId: string, hit: Option<nat>, cardToken: Option<string>)
    | PaymentFailure(provider: Provider, externalId: string, hit: Option<nat>)
    | Cancel(tenant: TenantId)
    | Fire(id: string, orderId: string, outcome: ChargeOutcome)
    | Tick(later: nat)

  // ---------------------------------------------------------------------------
  // Service operations as functions of the state
  // ---------------------------------------------------------------------------

  // The database may answer a lookup that several rows satisfy with any of them.
  ghost predicate Answers(s: System, provider: Provider, externalId: string, hit: Option<nat>) {
    match hit
    case None => forall i :: 0 <= i < |s.payments| ==> !IsRow(s.payments[i], provider, externalId)
    case Some(i) => i < |s.payments| && IsRow(s.payments[i], provider, externalId)
  }

  predicate IsRow(p: Payment, provider: Provider, externalId: string) {
    p.provider == provider && p.externalId == externalId
  }

  ghost predicate RowsKnown(s: System) {
    forall i :: 0 <= i < |s.payments| ==> s.payments[i].tenant in s.subs
  }

  function Registered(s: System, t: TenantId, trialEndsAt: Option<nat>, withTrialJobs: bool): System {
    if t in s.subs then s
    else
      var trial := trialEndsAt.Some? && s.now < trialEndsAt.value;
      var sub := Sub(if trial then Trial else Expired, None, None, 0,
                     if trial then Some(s.now) else None, trialEndsAt, 0);
      var s' := s.(subs := s.subs[t := sub]);
      if trial && withTrialJobs then s'.(queue := TrialJobs(s.queue, t, s.now)) else s'
  }

  function TrialJobs(q: Queue, t: TenantId, now: nat): Queue {
    Add(Add(Add(q, Job(TrialEnd, t, now + 7 * DAY)), Job(TrialReminder(5), t, now + 5 * DAY)),
        Job(TrialReminder(6), t, now + 6 * DAY))
  }

  function CheckedOut(s: System, t: TenantId, provider: Provider, externalId: string): System
    requires t in s.subs
  {
    if s.subs[t].status == Active then s  // rejected: already active
    else s.(payments := s.payments + [Payment(t, provider, externalId, Pending)])
  }

  // A payment gives the tenant thirty days from now.
  function Renew(sub: Sub, now: nat): Sub {
    sub.(periodStart := Some(now), periodEnd := Some(now + PERIOD), retryCount := 0, renewals := sub.renewals + 1)
  }

  function PaymentSucceeded(s: System, provider: Provider, hit: Option<nat>, cardToken: Option<string>): System
    requires RowsKnown(s) && (hit.Some? ==> hit.value < |s.payments|)
  {
    if hit.None? || s.payments[hit.value].status == Succeeded then s
    else
      var p := s.payments[hit.value];
      var sub := Renew(s.subs[p.tenant], s.now).(status := Active, provider := Some(provider), card := cardToken);
      s.(payments := s.payments[hit.value := p.(status := Succeeded)],
         subs := s.subs[p.tenant := sub],
         queue := Add(WithoutTenant(s.queue, p.tenant), Job(Charge(s.now + PERIOD), p.tenant, s.now + PERIOD)))
  }

  function PaymentFailed(s: System, hit: Option<nat>): System
    requires hit.Some? ==> hit.value < |s.payments|
  {
    if hit.None? || s.payments[hit.value].status != Pending then s
    else s.(payments := s.payments[hit.value := s.payments[hit.value].(status := Failed)])
  }

  function OutcomeRow(t: TenantId, provider: Provider, orderId: string, outcome: ChargeOutcome): Payment {
    match outcome
    case Approved(externalId) => Payment(t, provider, if externalId != "" then externalId else orderId, Succeeded)
    case Declined => Payment(t, provider, orderId, Failed)
    case Aborted => Payment(t, provider, orderId, Pending)
  }

  function Charged(s: System, t: TenantId, orderId: string, outcome: ChargeOutcome): System
    requires t in s.subs
  {
    var sub := s.subs[t];
    if sub.provider.None? || sub.card.None? then s
    else
      var s' := s.(payments := s.payments + [OutcomeRow(t, sub.provider.value, orderId, outcome)]);
      match outcome
      case Approved(_) =>
        s'.(subs := s.subs[t := Renew(sub, s.now)],
            queue := Add(s.queue, Job(Charge(s.now + PERIOD), t, s.now + PERIOD)))
      case Declined =>
        s'.(subs := s.subs[t := sub.(status := PastDue, retryCount := 1)],
            queue := Add(s.queue, Job(Retry(2), t, s.now + 24 * HOUR)))
      case Aborted => s'
  }

  function Retried(s: System, t: TenantId, attempt: nat, orderId: string, outcome: ChargeOutcome): System
    requires t in s.subs
  {
    var sub := s.subs[t];
    if sub.status != PastDue then s
    else if sub.provider.None? || sub.card.None? then s.(queue := Add(s.queue, Job(Expire, t, s.now)))
    else
      var s' := s.(payments := s.payments + [OutcomeRow(t, sub.provider.value, orderId, outcome)]);
      match outcome
      case Approved(_) =>
        s'.(subs := s.subs[t := Renew(sub, s.now).(status := Active)],
            queue := Add(s.queue, Job(Charge(s.now + PERIOD), t, s.now + PERIOD)))
      case Declined =>
        s'.(subs := s.subs[t := sub.(retryCount := attempt)], queue := Add(s.queue, NextAttempt(t, attempt, s.now)))
      case Aborted => s'
  }

  function NextAttempt(t: TenantId, attempt: nat, now: nat): Job {
    if attempt < 3 then Job(Retry(attempt + 1), t, now + (if attempt == 2 then 48 * HOUR else 24 * HOUR))
    else Job(Expire, t, now + 3 * DAY)
  }

  function TrialEnded(s: System, t: TenantId): System
    requires t in s.subs
  {
    if s.subs[t].status != Trial then s
    else s.(subs := s.subs[t := s.subs[t].(status := Expired, card := None)])
  }

  function GraceEnded(s: System, t: TenantId): System
    requires t in s.subs
  {
    if s.subs[t].status !in {PastDue, Cancelled} then s
    else s.(subs := s.subs[t := s.subs[t].(status := Expired, card := None)])
  }

  function CancelledBy(s: System, t: TenantId): System
    requires t in s.subs
  {
    var sub := s.subs[t];
    var q := WithoutTenant(s.queue, t);
    match sub.status
    case Trial => s.(subs := s.subs[t := sub.(status := Expired)], queue := q)
    case Active =>
      var later := sub.periodEnd.Some? && s.now < sub.periodEnd.value;
      s.(subs := s.subs[t := sub.(status := Cancelled)],
         queue := if later then Add(q, Job(Expire, t, sub.periodEnd.value)) else q)
    case _ => s  // rejected
  }

  /** A due job leaves the queue and its handler runs. */
  function Fired(s: System, id: string, orderId: string, outcome: ChargeOutcome): System
    requires id in s.queue && s.queue[id].tenant in s.subs
  {
    var j := s.queue[id];
    var s' := s.(queue := s.queue - {id});
    match j.kind
    case TrialEnd => TrialEnded(s', j.tenant)
    case TrialReminder(_) => s'
    case Charge(_) => Charged(s', j.tenant, orderId, outcome)
    case Retry(attempt) => Retried(s', j.tenant, attempt, orderId, outcome)
    case Expire => GraceEnded(s', j.tenant)
  }

  // ---------------------------------------------------------------------------
  // Steps and runs
  // ---------------------------------------------------------------------------

  ghost predicate JobsKnown(s: System) {
    WellKeyed(s.queue) && forall id :: id in s.queue ==> s.queue[id].tenant in s.subs
  }

  ghost predicate Enabled(s: System, e: Event) {
    && RowsKnown(s) && JobsKnown(s)
    && match e
       case Register(_, _, _) => true
       case Checkout(t, _, _) => t in s.subs
       case PaymentSuccess(provider, externalId, hit, _) => Answers(s, provider, externalId, hit)
       case PaymentFailure(provider, externalId, hit) => Answers(s, provider, externalId, hit)
       case Cancel(t) => t in s.subs
       case Fire(id, _, _) => id in s.queue && s.queue[id].due <= s.now
       case Tick(_) => true
  }

  ghost function Step(s: System, e: Event): System
    requires Enabled(s, e)
  {
    match e
    case Register(t, trialEndsAt, withTrialJobs) => Registered(s, t, trialEndsAt, withTrialJobs)
    case Checkout(t, provider, externalId) => CheckedOut(s, t, provider, externalId)
    case PaymentSuccess(provider, _, hit, cardToken) => PaymentSucceeded(s, provider, hit, cardToken)
    case PaymentFailure(_, _, hit) => PaymentFailed(s, hit)
    case Cancel(t) => CancelledBy(s, t)
    case Fire(id, orderId, outcome) => Fired(s, id, orderId, outcome)
    case Tick(later) => s.(now := s.now + later)
  }

  ghost predicate Runnable(s: System, es: seq<Event>)
    decreases |es|
  {
    es == [] || (Enabled(s, es[0]) && Runnable(Step(s, es[0]), es[1..]))
  }

  ghost function Run(s: System, es: seq<Event>): System
    requires Runnable(s, es)
    decreases |es|
  {
    if es == [] then s else Run(Step(s, es[0]), es[1..])
  }

  // No subscription, no payment, no job.
  predicate Fresh(s: System) {
    s.subs == map[] && s.payments == [] && s.queue == map[]
  }
}
