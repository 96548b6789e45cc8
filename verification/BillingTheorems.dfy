/** What the billing invariant gives: legal status changes, liveness, webhook idempotence, dunning. */
module BillingTheorems {
  import opened Wrappers
  import opened JobIds
  import opened Billing
  import opened BillingSafety

  // ---------------------------------------------------------------------------
  // Reachable states
  // ---------------------------------------------------------------------------

  predicate BillingJobOf(s: System, t: TenantId, id: string) {
    id in s.queue && s.queue[id].tenant == t && s.queue[id].kind.Billing()
  }

  ghost predicate AtMostOneBillingJob(s: System, t: TenantId) {
    forall id, id' :: BillingJobOf(s, t, id) && BillingJobOf(s, t, id') ==> id == id'
  }

  ghost predicate JobsFitStatus(s: System, t: TenantId)
    requires t in s.subs
  {
    forall id :: id in s.queue && s.queue[id].tenant == t ==> Fits(s.queue[id].kind, s.subs[t])
  }

  /**
   In every state a fresh system can reach, under any webhooks, cancels, job firings and provider
   answers, each tenant has at most one billing job pending and it fits the subscription's status.
   */
  lemma ReachableStatesLegal(s: System, es: seq<Event>)
    requires Fresh(s) && Runnable(s, es)
    ensures Safe(Run(s, es))
    ensures forall t :: t in Run(s, es).subs ==>
              AtMostOneBillingJob(Run(s, es), t) && JobsFitStatus(Run(s, es), t) &&
              (Run(s, es).subs[t].status == PastDue ==> Run(s, es).subs[t].card.Some? && Run(s, es).subs[t].provider.Some?)
  {
    RunKeepsSafe(s, es);
    var s' := Run(s, es);
    forall t | t in s'.subs ensures AtMostOneBillingJob(s', t) && JobsFitStatus(s', t) {
      SafeView(s', t);
    }
  }

  lemma SafeView(s: System, t: TenantId)
    requires Safe(s) && t in s.subs
    ensures AtMostOneBillingJob(s, t) && JobsFitStatus(s, t)
  {
    var own := Own(s.queue, t);
    forall id | id in s.queue && s.queue[id].tenant == t ensures id in own && own[id] == s.queue[id] {}
  }

  /** An expired subscription has nothing pending but, at most, reminder messages. */
  lemma ExpiredHasNoBillingJob(s: System, t: TenantId, id: string)
    requires Safe(s) && t in s.subs && s.subs[t].status == Expired
    requires id in s.queue && s.queue[id].tenant == t
    ensures !s.queue[id].kind.Billing()
  {
    SafeView(s, t);
  }

  // ---------------------------------------------------------------------------
  // Status changes
  // ---------------------------------------------------------------------------

  predicate LegalChange(before: Status, after: Status) {
    || before == after
    || (before == Trial && after in {Active, Expired})
    || (before == Active && after in {PastDue, Cancelled})
    || (before == PastDue && after in {Active, Expired})
    || (before == Expired && after == Active)
    || (before == Cancelled && after in {Expired, Active})
  }

  /** Every step changes every status along the documented arrows or from cancelled to active. */
  lemma StatusChangesAreLegal(s: System, e: Event, t: TenantId)
    requires Safe(s) && Enabled(s, e) && t in s.subs
    ensures t in Step(s, e).subs && LegalChange(s.subs[t].status, Step(s, e).subs[t].status)
  {
    if e.Fire? {
      FireChangesAreLegal(s, e, t);
    } else {
      hide JobId, Own, Add, WithoutTenant, TrialJobs, Safe, RowsKnown, JobsKnown;
    }
  }

  lemma FireChangesAreLegal(s: System, e: Event, t: TenantId)
    requires Safe(s) && Enabled(s, e) && e.Fire? && t in s.subs
    ensures t in Step(s, e).subs && LegalChange(s.subs[t].status, Step(s, e).subs[t].status)
  {
    hide JobId, Own, Add, Safe, RowsKnown, JobsKnown;
    PendingFits(s, e.id);
    match s.queue[e.id].kind
    case Charge(_) =>
    case Retry(_) =>
    case _ =>
  }

  /** The branch for a retry without a saved card is never taken. */
  lemma RetryAlwaysHasCard(s: System, id: string)
    requires Safe(s) && id in s.queue && s.queue[id].kind.Retry?
    ensures var sub := s.subs[s.queue[id].tenant];
            sub.status == PastDue && sub.card.Some? && sub.provider.Some?
  {
    PendingFits(s, id);
  }

  // ---------------------------------------------------------------------------
  // Liveness of billing
  // ---------------------------------------------------------------------------

  ghost predicate HasPending(own: Queue, p: Kind -> bool) {
    exists id :: id in own && p(own[id].kind)
  }

  // A past-due subscription still has an attempt or its end ahead; a card on file is charged again.
  ghost predicate KeepsGoing(sub: Sub, own: Queue) {
    && (sub.status == PastDue ==> HasPending(own, (k: Kind) => k.Retry? || k.Expire?))
    && (sub.status == Active && sub.card.Some? ==> HasPending(own, (k: Kind) => k.Charge?))
  }

  ghost predicate Live(s: System) {
    forall t :: t in s.subs ==> KeepsGoing(s.subs[t], Own(s.queue, t))
  }

  // The event is the firing of a charge or retry that broke off with an exception.
  ghost predicate BreaksOff(s: System, e: Event)
    requires Enabled(s, e)
  {
    e.Fire? && (s.queue[e.id].kind.Charge? || s.queue[e.id].kind.Retry?) && e.outcome.Aborted?
    && s.subs[s.queue[e.id].tenant].card.Some?
  }

  // Billing of one tenant goes on after a step.
  ghost predicate GoesOn(s: System, t: TenantId) {
    t in s.subs && KeepsGoing(s.subs[t], Own(s.queue, t))
  }

  lemma FireOwnLive(s: System, e: Event)
    requires Safe(s) && Live(s) && Enabled(s, e) && e.Fire?
    ensures GoesOn(Step(s, e), s.queue[e.id].tenant) <==> !BreaksOff(s, e)
  {
    var j := s.queue[e.id];
    if !j.kind.Billing() {
      ReminderFires(s, e);
    } else if !j.kind.Charge? && !j.kind.Retry? {
      EndFires(s, e);
    } else if s.subs[j.tenant].card.Some? {
      AttemptOwnLive(s, e);
    } else {
      NoCardFires(s, e);
    }
  }

  lemma EndFires(s: System, e: Event)
    requires Safe(s) && Enabled(s, e) && e.Fire? && (s.queue[e.id].kind.TrialEnd? || s.queue[e.id].kind.Expire?)
    ensures GoesOn(Step(s, e), s.queue[e.id].tenant)
  {
    hide JobId, Own, Add;
    PendingFits(s, e.id);
  }

  lemma NoCardFires(s: System, e: Event)
    requires Safe(s) && Enabled(s, e) && e.Fire? && s.subs[s.queue[e.id].tenant].card.None?
    requires s.queue[e.id].kind.Charge? || s.queue[e.id].kind.Retry?
    ensures GoesOn(Step(s, e), s.queue[e.id].tenant)
  {
    hide JobId, Own, Add;
    PendingFits(s, e.id);
  }

  // The subscription a firing charge or retry leaves behind.
  lemma AttemptSub(s: System, e: Event)
    requires Safe(s) && Enabled(s, e) && e.Fire? && s.subs[s.queue[e.id].tenant].card.Some?
    requires s.queue[e.id].kind.Charge? || s.queue[e.id].kind.Retry?
    ensures var t := s.queue[e.id].tenant;
            && t in Step(s, e).subs && Step(s, e).subs[t].card.Some?
            && Step(s, e).subs[t].status == match e.outcome
                                            case Approved(_) => Active
                                            case Declined => PastDue
                                            case Aborted => s.subs[t].status
    ensures s.subs[s.queue[e.id].tenant].status == if s.queue[e.id].kind.Charge? then Active else PastDue
    ensures s.queue[e.id].kind.Retry? ==> 2 <= s.queue[e.id].kind.attempt <= 3
  {
    hide JobId, Own, Add;
    PendingFits(s, e.id);
  }

  // What is pending then: no billing job after an exception, else the one that follows.
  lemma AttemptPending(s: System, e: Event)
    requires Safe(s) && Enabled(s, e) && e.Fire? && s.subs[s.queue[e.id].tenant].card.Some?
    requires s.queue[e.id].kind.Charge? || s.queue[e.id].kind.Retry?
    ensures var own, next := Own(Step(s, e).queue, s.queue[e.id].tenant), NextJob(s, s.queue[e.id], e.outcome);
            if e.outcome.Aborted? then OnlyReminders(own) else JobId(next) in own && own[JobId(next)] == next
  {
    hide JobId, Own, Add, Legal, Fits;
    PendingFits(s, e.id);
    FireSafe(s, e.id, e.orderId, e.outcome);
    AfterFire(s, e.id);
  }

  lemma AttemptOwnLive(s: System, e: Event)
    requires Safe(s) && Enabled(s, e) && e.Fire? && s.subs[s.queue[e.id].tenant].card.Some?
    requires s.queue[e.id].kind.Charge? || s.queue[e.id].kind.Retry?
    ensures GoesOn(Step(s, e), s.queue[e.id].tenant) <==> !e.outcome.Aborted?
  {
    hide JobId, Own, Step, Safe, RowsKnown, JobsKnown;
    var j := s.queue[e.id];
    var next := NextJob(s, j, e.outcome);
    AttemptSub(s, e);
    AttemptPending(s, e);
    if !e.outcome.Aborted? {
      var own := Own(Step(s, e).queue, j.tenant);
      assert own[JobId(next)].kind == next.kind;
    }
  }

  lemma ReminderFires(s: System, e: Event)
    requires Safe(s) && Live(s) && Enabled(s, e) && e.Fire? && !s.queue[e.id].kind.Billing()
    ensures GoesOn(Step(s, e), s.queue[e.id].tenant)
  {
    hide JobId, WellKeyed, Own;
    var t := s.queue[e.id].tenant;
    var own := Own(s.queue, t);
    OwnHolds(s.queue, t, e.id);
    OwnAfterRemove(s.queue, e.id, t);
    var left := own - {e.id};
    forall id | id in own && own[id].kind.Billing() ensures id in left && left[id] == own[id] {}
  }

  lemma OtherOwnLive(s: System, e: Event, t: TenantId)
    requires Safe(s) && Live(s) && Enabled(s, e) && !e.Fire? && Target(s, e) == Some(t)
    ensures GoesOn(Step(s, e), t)
  {
    if e.PaymentSuccess? {
      SuccessOwnLive(s, e, t);
    } else {
      hide JobId, Own, Safe, Add, WithoutTenant, TrialJobs;
    }
  }

  lemma SuccessOwnLive(s: System, e: Event, t: TenantId)
    requires Safe(s) && Live(s) && Enabled(s, e) && e.PaymentSuccess? && Target(s, e) == Some(t)
    ensures GoesOn(Step(s, e), t)
  {
    hide JobId, Own;
    if s.payments[e.hit.value].status != Succeeded {
      var j := Job(Charge(s.now + PERIOD), t, s.now + PERIOD);
      AfterDrop(s, t);
      OwnAfterAdd(WithoutTenant(s.queue, t), j, t);
      var own := Own(Add(WithoutTenant(s.queue, t), j), t);
      assert JobId(j) in own && own[JobId(j)].kind.Charge?;
    }
  }

  lemma LiveFromView(s: System, s': System, target: Option<TenantId>)
    requires Live(s) && Untouched(s, s', target)
    requires forall u :: u in s'.subs ==> u in s.subs || target == Some(u)
    requires target.Some? ==> target.value in s'.subs
    ensures Live(s') <==> (target.Some? ==> KeepsGoing(s'.subs[target.value], Own(s'.queue, target.value)))
  {
    hide JobId, Own, KeepsGoing;
  }

  /** Billing keeps going exactly as long as no charge or retry breaks off with an exception. */
  lemma StepKeepsLiveUnlessBrokenOff(s: System, e: Event)
    requires Safe(s) && Live(s) && Enabled(s, e)
    ensures Live(Step(s, e)) <==> !BreaksOff(s, e)
  {
    hide JobId, Own, KeepsGoing, Safe, Live, Untouched, RowsKnown, JobsKnown;
    StepKeepsSafe(s, e);
    StepAddsOnlyTarget(s, e);
    if e.Fire? {
      PendingFits(s, e.id);
      FireOwnLive(s, e);
      LiveFromView(s, Step(s, e), Some(s.queue[e.id].tenant));
    } else {
      var target := Target(s, e);
      if target.Some? {
        OtherOwnLive(s, e, target.value);
      }
      LiveFromView(s, Step(s, e), target);
    }
  }

  lemma StepAddsOnlyTarget(s: System, e: Event)
    requires Enabled(s, e)
    ensures forall u :: u in Step(s, e).subs ==> u in s.subs || Target(s, e) == Some(u)
  {}

  lemma {:induction false} RunKeepsLive(s: System, es: seq<Event>)
    requires Safe(s) && Live(s) && Runnable(s, es)
    requires forall e :: e in es && e.Fire? ==> !e.outcome.Aborted?
    ensures Live(Run(s, es))
    decreases |es|
  {
    if es != [] {
      assert es[0] in es;
      StepKeepsSafe(s, es[0]);
      StepKeepsLiveUnlessBrokenOff(s, es[0]);
      RunKeepsLive(Step(s, es[0]), es[1..]);
    }
  }

  /** With handlers that run to their end no reachable state forgets a past-due or paying tenant. */
  lemma ReachableStatesLive(s: System, es: seq<Event>)
    requires Fresh(s) && Runnable(s, es)
    requires forall e :: e in es && e.Fire? ==> !e.outcome.Aborted?
    ensures Live(Run(s, es))
  {
    RunKeepsLive(s, es);
  }

  // ---------------------------------------------------------------------------
  // Webhooks
  // ---------------------------------------------------------------------------

  // What one webhook does to the payment row `i`.
  ghost function RowAfter(st: PaymentStatus, e: Event, i: nat): PaymentStatus {
    match e
    case PaymentSuccess(_, _, hit, _) => if hit == Some(i) then Succeeded else st
    case PaymentFailure(_, _, hit) => if hit == Some(i) && st == Pending then Failed else st
    case _ => st
  }

  ghost predicate SuccessFor(e: Event, i: nat) {
    e.PaymentSuccess? && e.hit == Some(i)
  }

  ghost predicate WebhookFor(e: Event, i: nat) {
    SuccessFor(e, i) || (e.PaymentFailure? && e.hit == Some(i))
  }

  lemma StepOnRow(s: System, e: Event, i: nat)
    requires Enabled(s, e) && i < |s.payments|
    ensures i < |Step(s, e).payments|
    ensures Step(s, e).payments[i] == s.payments[i].(status := RowAfter(s.payments[i].status, e, i))
  {
    hide JobId, Add, WithoutTenant;
  }

  /**
   A payment row over a whole run: webhooks for it may come in any order, be repeated and be mixed
   with everything else. It ends successful exactly when one success was delivered; with failures
   only it ends failed; untouched it stays pending.
   */
  lemma {:induction false} WebhookOutcome(s: System, es: seq<Event>, i: nat)
    requires Runnable(s, es) && i < |s.payments|
    ensures i < |Run(s, es).payments|
    ensures Run(s, es).payments[i].status ==
              if s.payments[i].status == Succeeded || (exists e :: e in es && SuccessFor(e, i)) then Succeeded
              else if exists e :: e in es && WebhookFor(e, i) then Failed
              else s.payments[i].status
    ensures Run(s, es).payments[i].tenant == s.payments[i].tenant
    decreases |es|
  {
    if es != [] {
      StepOnRow(s, es[0], i);
      WebhookOutcome(Step(s, es[0]), es[1..], i);
      assert es[0] in es;
      forall e ensures e in es <==> e == es[0] || e in es[1..] {
        assert es == [es[0]] + es[1..];
      }
    }
  }

  /** Over every run each tenant's period is set exactly once per successful payment row. */
  lemma RenewalsCountPayments(s: System, es: seq<Event>, t: TenantId)
    requires Fresh(s) && Runnable(s, es) && t in Run(s, es).subs
    ensures Run(s, es).subs[t].renewals == SuccessCount(Run(s, es).payments, t)
  {
    RunKeepsSafe(s, es);
  }

  /** A success webhook renews the tenant's period at once the first time and never again. */
  lemma SuccessWebhookRenewsOnce(s: System, e: Event, i: nat)
    requires Safe(s) && Enabled(s, e) && SuccessFor(e, i)
    ensures var t := s.payments[i].tenant;
            var sub := Step(s, e).subs[t];
            if s.payments[i].status == Succeeded then Step(s, e) == s
            else sub.renewals == s.subs[t].renewals + 1 && sub.status == Active &&
                 sub.periodEnd == Some(s.now + PERIOD) && sub.card == e.cardToken
  {}
}
