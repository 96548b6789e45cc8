/** The grace period: what a failed charge leads to when no later payment goes through. */
module Dunning {
  import opened Durations
  import opened Wrappers
  import opened JobIds
  import opened Billing
  import opened BillingSafety

  // Nothing helps tenant `t` in this step: its charges are declined and no success reaches its rows.
  ghost predicate NoLuck(s: System, e: Event, t: TenantId)
    requires Enabled(s, e)
  {
    match e
    case PaymentSuccess(_, _, hit, _) => RowTenant(s, hit) != Some(t)
    case Fire(id, _, outcome) => s.queue[id].tenant == t ==> outcome.Declined?
    case _ => true
  }

  ghost predicate UnluckyRun(s: System, es: seq<Event>, t: TenantId)
    requires Runnable(s, es)
    decreases |es|
  {
    es == [] || (NoLuck(s, es[0], t) && UnluckyRun(Step(s, es[0]), es[1..], t))
  }

  // The step runs one of the tenant's billing jobs.
  predicate FiresFor(s: System, e: Event, t: TenantId) {
    e.Fire? && e.id in s.queue && s.queue[e.id].tenant == t && s.queue[e.id].kind.Billing()
  }

  ghost function Firings(s: System, es: seq<Event>, t: TenantId): nat
    requires Runnable(s, es)
    decreases |es|
  {
    if es == [] then 0
    else (if FiresFor(s, es[0], t) then 1 else 0) + Firings(Step(s, es[0]), es[1..], t)
  }

  // Every billing job of the tenant runs at the very moment it is due.
  ghost predicate OnTime(s: System, es: seq<Event>, t: TenantId)
    requires Runnable(s, es)
    decreases |es|
  {
    es == [] || ((FiresFor(s, es[0], t) ==> s.queue[es[0].id].due == s.now) && OnTime(Step(s, es[0]), es[1..], t))
  }

  // How long after the failed charge the next job of phase n is due, and what that job is.
  function Offset(n: nat): nat {
    if n == 0 then 24 * HOUR else if n == 1 then 72 * HOUR else 144 * HOUR
  }

  function NextKind(n: nat): Kind {
    if n == 0 then Retry(2) else if n == 1 then Retry(3) else Expire
  }

  /**
   Tenant `t`, whose charge failed at `t0`, has seen `n` further jobs run. With `punctual` those jobs
   ran on time, so the due times are exact.
   */
  ghost predicate Phase(s: System, t: TenantId, t0: nat, n: nat, punctual: bool) {
    && Safe(s) && t in s.subs
    && (n < 3 ==>
         && s.subs[t].status == PastDue && s.subs[t].retryCount == n + 1
         && exists id :: AwaitsJob(s, t, t0, n, punctual, id))
    && (n >= 3 ==> n == 3 && s.subs[t].status == Expired && t0 + 144 * HOUR <= s.now)
  }

  ghost predicate AwaitsJob(s: System, t: TenantId, t0: nat, n: nat, punctual: bool, id: string) {
    && id in s.queue && s.queue[id].tenant == t && s.queue[id].kind == NextKind(n)
    && t0 + Offset(n) <= s.queue[id].due
    && (punctual ==> s.queue[id].due == t0 + Offset(n))
  }

  // A declined charge or retry leaves its successor pending.
  lemma DeclinedLeavesNext(s: System, e: Event, t: TenantId, next: Job)
    requires Safe(s) && Enabled(s, e) && FiresFor(s, e, t) && e.outcome.Declined? && t in s.subs && s.subs[t].card.Some?
    requires s.queue[e.id].kind.Charge? || s.queue[e.id].kind.Retry?
    requires next == NextJob(s, s.queue[e.id], e.outcome)
    ensures Safe(Step(s, e))
    ensures JobId(next) in Step(s, e).queue && Step(s, e).queue[JobId(next)] == next && next.tenant == t
  {
    hide JobId, Own, Add, Untouched, WellKeyed, Safe, Legal;
    PendingFits(s, e.id);
    FireSafe(s, e.id, e.orderId, e.outcome);
    OwnHolds(Step(s, e).queue, t, JobId(next));
    assert JobId(next) in LeftPending(s, e.id, e.outcome);
  }

  // What it makes of the subscription.
  lemma DeclinedSub(s: System, e: Event, t: TenantId)
    requires Safe(s) && Enabled(s, e) && FiresFor(s, e, t) && e.outcome.Declined? && t in s.subs && s.subs[t].card.Some?
    requires s.queue[e.id].kind.Charge? || s.queue[e.id].kind.Retry?
    ensures t in Step(s, e).subs && Step(s, e).now == s.now
    ensures Step(s, e).subs[t].status == PastDue
    ensures Step(s, e).subs[t].retryCount == if s.queue[e.id].kind.Charge? then 1 else s.queue[e.id].kind.attempt
  {
    hide JobId, Own, Add;
    PendingFits(s, e.id);
  }

  /** A declined charge starts the grace period: phase 0, first retry a day later. */
  lemma DeclinedChargeStartsDunning(s: System, e: Event, t: TenantId)
    requires Safe(s) && Enabled(s, e) && FiresFor(s, e, t) && s.queue[e.id].kind.Charge? && e.outcome.Declined?
    requires s.subs[t].card.Some?
    ensures Phase(Step(s, e), t, s.now, 0, true)
  {
    assert t in s.subs;
    hide JobId, Step, Safe, Enabled;
    var next := Job(Retry(2), t, s.now + 24 * HOUR);
    DeclinedLeavesNext(s, e, t, next);
    DeclinedSub(s, e, t);
    assert AwaitsJob(Step(s, e), t, s.now, 0, true, JobId(next));
  }

  lemma FiringAdvances(s: System, e: Event, t: TenantId, t0: nat, n: nat, punctual: bool, punctual': bool)
    requires Phase(s, t, t0, n, punctual) && Enabled(s, e) && NoLuck(s, e, t) && FiresFor(s, e, t)
    requires punctual' ==> punctual && s.queue[e.id].due == s.now
    ensures n < 3 && Phase(Step(s, e), t, t0, n + 1, punctual')
    ensures t0 + Offset(n) <= s.now && (punctual' ==> s.now == t0 + Offset(n))
  {
    PhaseBound(s, t, t0, n, punctual);
    if n == 3 {
      NothingFires(s, e, t, t0, punctual);
    } else {
      hide Safe, Step, Enabled;
      var id :| AwaitsJob(s, t, t0, n, punctual, id);
      BothPending(s, t, id, e.id);
      Relax(s, t, t0, n, punctual, false);
      if n < 2 {
        FiringReschedules(s, e, t, t0, n, punctual');
      } else {
        FiringExpires(s, e, t, t0, punctual');
      }
    }
  }

  lemma NothingFires(s: System, e: Event, t: TenantId, t0: nat, punctual: bool)
    requires Phase(s, t, t0, 3, punctual)
    ensures !FiresFor(s, e, t)
  {
    hide JobId, Own;
    if FiresFor(s, e, t) {
      PendingFits(s, e.id);
    }
  }

  lemma FiringExpires(s: System, e: Event, t: TenantId, t0: nat, punctual: bool)
    requires Phase(s, t, t0, 2, false) && Enabled(s, e) && FiresFor(s, e, t)
    requires s.queue[e.id].kind == Expire && t0 + Offset(2) <= s.now
    ensures Phase(Step(s, e), t, t0, 3, punctual)
  {
    hide JobId, Own, Add;
    FireSafe(s, e.id, e.orderId, e.outcome);
    hide Safe;
  }

  lemma BothPending(s: System, t: TenantId, id: string, id': string)
    requires Safe(s) && t in s.subs
    requires id in s.queue && s.queue[id].tenant == t && s.queue[id].kind.Billing()
    requires id' in s.queue && s.queue[id'].tenant == t && s.queue[id'].kind.Billing()
    ensures id == id'
  {
    var own := Own(s.queue, t);
    assert id in own && id' in own;
  }

  lemma FiringReschedules(s: System, e: Event, t: TenantId, t0: nat, n: nat, punctual: bool)
    requires Phase(s, t, t0, n, false) && Enabled(s, e) && NoLuck(s, e, t) && FiresFor(s, e, t) && n < 2
    requires s.queue[e.id].kind == NextKind(n) && t0 + Offset(n) <= s.now
    requires punctual ==> s.now == t0 + Offset(n)
    ensures Phase(Step(s, e), t, t0, n + 1, punctual)
  {
    hide JobId, Step, Safe, Enabled;
    var next := NextAttempt(t, n + 2, s.now);
    assert s.subs[t].card.Some? by { RetryHasCard(s, e, t); }
    DeclinedLeavesNext(s, e, t, next);
    DeclinedSub(s, e, t);
    assert AwaitsJob(Step(s, e), t, t0, n + 1, punctual, JobId(next));
  }

  lemma RetryHasCard(s: System, e: Event, t: TenantId)
    requires Safe(s) && FiresFor(s, e, t) && s.queue[e.id].kind.Retry?
    ensures t in s.subs && s.subs[t].card.Some?
  {
    hide JobId, Own;
    PendingFits(s, e.id);
  }

  // What a step that is not one of the tenant's own billing jobs leaves of its subscription and jobs.
  ghost predicate Undisturbed(s: System, s': System, t: TenantId) {
    && t in s.subs && t in s'.subs && s'.subs[t] == s.subs[t]
    && forall id :: id in Own(s.queue, t) && Own(s.queue, t)[id].kind.Billing() ==>
         id in Own(s'.queue, t) && Own(s'.queue, t)[id] == Own(s.queue, t)[id]
  }

  lemma PastDueWaits(s: System, e: Event, t: TenantId)
    requires Safe(s) && t in s.subs && Enabled(s, e) && NoLuck(s, e, t) && !FiresFor(s, e, t)
    requires s.subs[t].status in {PastDue, Expired}
    ensures Undisturbed(s, Step(s, e), t)
  {
    if Target(s, e) != Some(t) {
      ForeignStep(s, e, t);
    } else if e.Fire? {
      ReminderStep(s, e, t);
    } else {
      OwnStepWaits(s, e, t);
    }
  }

  lemma OwnStepWaits(s: System, e: Event, t: TenantId)
    requires t in s.subs && Enabled(s, e) && NoLuck(s, e, t) && !e.Fire? && Target(s, e) == Some(t)
    requires s.subs[t].status in {PastDue, Expired}
    ensures Undisturbed(s, Step(s, e), t)
  {
    hide JobId, Own, Safe, Add, WithoutTenant, TrialJobs, RowsKnown, JobsKnown;
  }

  lemma ForeignStep(s: System, e: Event, t: TenantId)
    requires Safe(s) && t in s.subs && Enabled(s, e) && Target(s, e) != Some(t)
    ensures Undisturbed(s, Step(s, e), t)
  {
    hide JobId, Own, Safe, Step, Target, Enabled;
    StepKeepsSafe(s, e);
  }

  lemma ReminderStep(s: System, e: Event, t: TenantId)
    requires Safe(s) && t in s.subs && Enabled(s, e) && e.Fire? && s.queue[e.id].kind.TrialReminder?
    ensures Undisturbed(s, Step(s, e), t)
  {
    hide JobId, WellKeyed, Own;
    OwnAfterRemove(s.queue, e.id, t);
    OwnHolds(s.queue, t, e.id);
  }

  lemma OtherStepsWait(s: System, e: Event, t: TenantId, t0: nat, n: nat, punctual: bool)
    requires Phase(s, t, t0, n, punctual) && Enabled(s, e) && NoLuck(s, e, t) && !FiresFor(s, e, t)
    ensures Phase(Step(s, e), t, t0, n, punctual)
  {
    hide JobId, Step, Safe, NoLuck, Own, Enabled, Untouched;
    StepKeepsSafe(s, e);
    PastDueWaits(s, e, t);
    TimeMoves(s, e);
    if n < 3 {
      var id :| AwaitsJob(s, t, t0, n, punctual, id);
      OwnHolds(s.queue, t, id);
      OwnHolds(Step(s, e).queue, t, id);
      assert AwaitsJob(Step(s, e), t, t0, n, punctual, id);
    }
  }

  lemma TimeMoves(s: System, e: Event)
    requires Enabled(s, e)
    ensures s.now <= Step(s, e).now
  {}

  /**
   Dunning ends. Whatever else happens, after a charge failed at `t0` and nothing goes through, the
   number of this tenant's jobs that have run alone decides where it stands: past due at attempt
   1, 2 or 3 with the next job waiting, or, after exactly three, expired; a fourth never runs.
   */
  lemma {:induction false} DunningRun(s: System, es: seq<Event>, t: TenantId, t0: nat, n: nat, punctual: bool)
    requires Phase(s, t, t0, n, punctual) && Runnable(s, es) && UnluckyRun(s, es, t)
    requires punctual ==> OnTime(s, es, t)
    ensures n + Firings(s, es, t) <= 3
    ensures Phase(Run(s, es), t, t0, n + Firings(s, es, t), punctual)
    decreases |es|
  {
    hide Step, Safe, Enabled, NoLuck, Phase, FiresFor;
    PhaseBound(s, t, t0, n, punctual);
    if es != [] {
      var e := es[0];
      if FiresFor(s, e, t) {
        FiringAdvances(s, e, t, t0, n, punctual, punctual);
        DunningRun(Step(s, e), es[1..], t, t0, n + 1, punctual);
      } else {
        OtherStepsWait(s, e, t, t0, n, punctual);
        DunningRun(Step(s, e), es[1..], t, t0, n, punctual);
      }
    }
  }

  lemma PhaseBound(s: System, t: TenantId, t0: nat, n: nat, punctual: bool)
    requires Phase(s, t, t0, n, punctual)
    ensures n <= 3
  {}

  // The pending job of a phase, once its time has come.
  lemma WaitForJob(s: System, t: TenantId, t0: nat, n: nat, punctual: bool, id: string) returns (later: nat)
    requires Phase(s, t, t0, n, punctual) && n < 3 && AwaitsJob(s, t, t0, n, punctual, id)
    ensures Enabled(s, Tick(later)) && s.queue[id].due <= s.now + later
    ensures punctual && s.now <= t0 + Offset(n) ==> s.queue[id].due == s.now + later
    ensures Step(s, Tick(later)) == s.(now := s.now + later)
    ensures Phase(s.(now := s.now + later), t, t0, n, punctual)
    ensures RowsKnown(s) && JobsKnown(s)
  {
    hide JobId, Own, Legal;
    later := if s.queue[id].due <= s.now then 0 else s.queue[id].due - s.now;
    var s' := s.(now := s.now + later);
    assert Safe(s');
    assert AwaitsJob(s', t, t0, n, punctual, id);
  }

  /** In every phase before the last the next job can run once its time has come, and leads on. */
  lemma NextFiringComes(s: System, t: TenantId, t0: nat, n: nat, punctual: bool) returns (later: nat, e: Event)
    requires Phase(s, t, t0, n, punctual) && n < 3
    ensures Enabled(s, Tick(later))
    ensures var s' := Step(s, Tick(later));
            && Enabled(s', e) && NoLuck(s', e, t) && FiresFor(s', e, t)
            && (punctual && s.now <= t0 + Offset(n) ==> s'.queue[e.id].due == s'.now)
            && Phase(Step(s', e), t, t0, n + 1, false)
  {
    var id :| AwaitsJob(s, t, t0, n, punctual, id);
    hide Safe, Phase, Legal, Step, RowsKnown, JobsKnown;
    later := WaitForJob(s, t, t0, n, punctual, id);
    e := Fire(id, "order", Declined);
    var s' := s.(now := s.now + later);
    Relax(s', t, t0, n, punctual, false);
    FiringAdvances(s', e, t, t0, n, false, false);
  }

  predicate HasStatus(s: System, t: TenantId, status: Status) {
    t in s.subs && s.subs[t].status == status
  }

  /**
   The third job expires the subscription: never before 144 hours after the failed charge, and at
   exactly 144 hours when every job ran on time.
   */
  lemma DunningExpires(s: System, es: seq<Event>, e: Event, t: TenantId, t0: nat, punctual: bool)
    requires Phase(s, t, t0, 0, true) && Runnable(s, es) && UnluckyRun(s, es, t) && Firings(s, es, t) == 2
    requires punctual ==> OnTime(s, es, t)
    requires Enabled(Run(s, es), e) && NoLuck(Run(s, es), e, t) && FiresFor(Run(s, es), e, t)
    requires punctual ==> Run(s, es).queue[e.id].due == Run(s, es).now
    ensures HasStatus(Run(s, es), t, PastDue) && HasStatus(Step(Run(s, es), e), t, Expired)
    ensures t0 + 144 * HOUR <= Step(Run(s, es), e).now
    ensures punctual ==> Step(Run(s, es), e).now == t0 + 144 * HOUR
  {
    hide Step, Safe, Enabled, NoLuck, FiresFor, Phase, Runnable, Run, UnluckyRun, Firings, OnTime;
    Relax(s, t, t0, 0, true, punctual);
    DunningRun(s, es, t, t0, 0, punctual);
    LastFiring(Run(s, es), e, t, t0, punctual);
  }

  lemma LastFiring(s: System, e: Event, t: TenantId, t0: nat, punctual: bool)
    requires Phase(s, t, t0, 2, punctual) && Enabled(s, e) && NoLuck(s, e, t) && FiresFor(s, e, t)
    requires punctual ==> s.queue[e.id].due == s.now
    ensures HasStatus(s, t, PastDue) && HasStatus(Step(s, e), t, Expired)
    ensures t0 + 144 * HOUR <= Step(s, e).now
    ensures punctual ==> Step(s, e).now == t0 + 144 * HOUR
  {
    FireKeepsClock(s, e);
    FiringAdvances(s, e, t, t0, 2, punctual, punctual);
    hide Step, Safe, Enabled;
  }

  lemma FireKeepsClock(s: System, e: Event)
    requires Enabled(s, e) && e.Fire?
    ensures Step(s, e).now == s.now
  {}

  lemma Relax(s: System, t: TenantId, t0: nat, n: nat, punctual: bool, punctual': bool)
    requires Phase(s, t, t0, n, punctual) && (punctual' ==> punctual)
    ensures Phase(s, t, t0, n, punctual')
  {
    hide Safe;
    if n < 3 {
      var id :| AwaitsJob(s, t, t0, n, punctual, id);
      assert AwaitsJob(s, t, t0, n, punctual', id);
    }
  }
}
