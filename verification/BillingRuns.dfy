/** More about runs of the billing machine: one renewal per payment, the job that ends a trial, a run that stalls. */
module BillingRuns {
  import opened Wrappers
  import opened JobIds
  import opened Durations
  import opened Billing
  import opened BillingSafety
  import opened BillingTheorems

  // ---------------------------------------------------------------------------
  // One renewal per payment
  // ---------------------------------------------------------------------------

  // How often, along a run, a success webhook for payment `i` extended a period.
  ghost function Extensions(s: System, es: seq<Event>, i: nat): nat
    requires Runnable(s, es)
    decreases |es|
  {
    if es == [] then 0
    else (if SuccessFor(es[0], i) && Step(s, es[0]) != s then 1 else 0) + Extensions(Step(s, es[0]), es[1..], i)
  }

  /**
   However often success is reported for a payment, and whatever happens in between, it extends a period
   once if it was not successful before and at least one report came, and otherwise never.
   */
  lemma {:induction false} PaymentExtendsOnce(s: System, es: seq<Event>, i: nat)
    requires Safe(s) && Runnable(s, es) && i < |s.payments|
    ensures Extensions(s, es, i) ==
            if s.payments[i].status != Succeeded && (exists e :: e in es && SuccessFor(e, i)) then 1 else 0
    decreases |es|
  {
    hide Step, Safe, SuccessFor;
    if es != [] {
      var e, rest := es[0], es[1..];
      assert es == [e] + rest;
      StepKeepsSafe(s, e);
      StepOnRow(s, e, i);
      FirstExtension(s, e, i);
      PaymentExtendsOnce(Step(s, e), rest, i);
    }
  }

  lemma FirstExtension(s: System, e: Event, i: nat)
    requires Safe(s) && Enabled(s, e) && i < |s.payments|
    ensures SuccessFor(e, i) ==> (Step(s, e) != s <==> s.payments[i].status != Succeeded)
    ensures SuccessFor(e, i) ==> RowAfter(s.payments[i].status, e, i) == Succeeded
    ensures !SuccessFor(e, i) ==> (RowAfter(s.payments[i].status, e, i) == Succeeded <==> s.payments[i].status == Succeeded)
  {
    hide Step, Safe;
    if SuccessFor(e, i) {
      SuccessWebhookRenewsOnce(s, e, i);
    }
  }

  // ---------------------------------------------------------------------------
  // What ends a trial
  // ---------------------------------------------------------------------------

  ghost predicate TrialEndPending(s: System, t: TenantId) {
    exists id :: id in s.queue && s.queue[id].tenant == t && s.queue[id].kind.TrialEnd?
  }

  // Whether the first registration of the tenant queued the trial jobs.
  ghost predicate RegisteredWithJobs(es: seq<Event>, t: TenantId) {
    es != [] && if es[0].Register? && es[0].tenant == t then es[0].withTrialJobs else RegisteredWithJobs(es[1..], t)
  }

  predicate OnTrial(s: System, t: TenantId) {
    t in s.subs && s.subs[t].status == Trial
  }

  lemma PendingIsOwn(s: System, t: TenantId)
    ensures TrialEndPending(s, t) <==> exists id :: id in Own(s.queue, t) && Own(s.queue, t)[id].kind.TrialEnd?
  {
    if id :| id in s.queue && s.queue[id].tenant == t && s.queue[id].kind.TrialEnd? {
      assert id in Own(s.queue, t) && Own(s.queue, t)[id].kind.TrialEnd?;
    }
    if id :| id in Own(s.queue, t) && Own(s.queue, t)[id].kind.TrialEnd? {
      assert id in s.queue && s.queue[id].tenant == t && s.queue[id].kind.TrialEnd?;
    }
  }

  lemma FiredOnTrial(s: System, e: Event, t: TenantId)
    requires Safe(s) && Enabled(s, e) && e.Fire? && s.queue[e.id].tenant == t && t in s.subs && OnTrial(s, t)
    ensures s.queue[e.id].kind.TrialEnd? || s.queue[e.id].kind.TrialReminder?
    ensures OnTrial(Step(s, e), t) ==> s.queue[e.id].kind.TrialReminder? && Step(s, e).queue == s.queue - {e.id}
  {
    hide Own, JobId, Add;
    PendingFits(s, e.id);
  }

  // An event about the tenant that leaves it on trial takes away a reminder message at most.
  lemma OwnStepOnTrial(s: System, e: Event, t: TenantId)
    requires Safe(s) && Enabled(s, e) && OnTrial(s, t) && OnTrial(Step(s, e), t) && Target(s, e) == Some(t)
    ensures e.Fire? ==> s.queue[e.id].kind.TrialReminder? && Step(s, e).queue == s.queue - {e.id}
    ensures !e.Fire? ==> Step(s, e).queue == s.queue
  {
    if e.Fire? {
      FiredOnTrial(s, e, t);
    } else {
      hide Own, JobId, Add, Safe, TrialJobs, WithoutTenant;
    }
  }

  // While a tenant stays on trial, its trial-end job is neither added nor lost.
  lemma TrialStepKeepsJob(s: System, e: Event, t: TenantId)
    requires Safe(s) && Enabled(s, e) && t in s.subs && OnTrial(Step(s, e), t)
    ensures OnTrial(s, t)
    ensures TrialEndPending(Step(s, e), t) <==> TrialEndPending(s, t)
  {
    hide Own, JobId, Safe, Step;
    StatusChangesAreLegal(s, e, t);
    if Target(s, e) == Some(t) {
      OwnStepOnTrial(s, e, t);
      if id :| id in s.queue && s.queue[id].tenant == t && s.queue[id].kind.TrialEnd? {
        assert id in Step(s, e).queue && Step(s, e).queue[id] == s.queue[id];
      }
    } else {
      StepKeepsSafe(s, e);
      PendingIsOwn(s, t);
      PendingIsOwn(Step(s, e), t);
    }
  }

  // A new tenant has the job from the start, or not.
  lemma RegistrationQueuesJob(s: System, e: Event, t: TenantId)
    requires Safe(s) && Enabled(s, e) && t !in s.subs && OnTrial(Step(s, e), t)
    ensures e.Register? && e.tenant == t
    ensures TrialEndPending(Step(s, e), t) <==> e.withTrialJobs
  {
    hide Own, JobId, Add, TrialJobs, Safe, WithoutTenant;
    NobodysJobs(s, t);
    PendingIsOwn(s, t);
    if e.Register? && e.withTrialJobs {
      TrialJobsAdded(s.(subs := Step(s, e).subs), t);
      var j := Job(TrialEnd, t, s.now + 7 * DAY);
      var own := Own(Step(s, e).queue, t);
      PendingIsOwn(Step(s, e), t);
      EndJobStays(j, Job(TrialReminder(5), t, s.now + 5 * DAY), Job(TrialReminder(6), t, s.now + 6 * DAY));
      assert JobId(j) in own && own[JobId(j)].kind.TrialEnd?;
    }
  }

  lemma EndJobStays(j: Job, j5: Job, j6: Job)
    requires j.kind == TrialEnd && j5.kind == TrialReminder(5) && j6.kind == TrialReminder(6)
    ensures map[JobId(j) := j, JobId(j5) := j5, JobId(j6) := j6][JobId(j)] == j
  {
    hide JobId;
    TrialIdsDistinct(j, j5, j6);
  }

  lemma NobodysJobs(s: System, t: TenantId)
    requires Safe(s) && t !in s.subs
    ensures Own(s.queue, t) == map[]
  {}

  lemma {:induction false} TrialEndAlong(s: System, es: seq<Event>, t: TenantId)
    requires Safe(s) && Runnable(s, es) && OnTrial(Run(s, es), t)
    ensures TrialEndPending(Run(s, es), t) <==>
            if t in s.subs then TrialEndPending(s, t) else RegisteredWithJobs(es, t)
    ensures t in s.subs ==> OnTrial(s, t)
    decreases |es|
  {
    hide Safe, Step, TrialEndPending;
    if es != [] {
      var s' := Step(s, es[0]);
      StepKeepsSafe(s, es[0]);
      TrialEndAlong(s', es[1..], t);
      if t in s.subs {
        StatusChangesAreLegal(s, es[0], t);
        TrialStepKeepsJob(s, es[0], t);
      } else if t in s'.subs {
        RegistrationQueuesJob(s, es[0], t);
      } else {
        RegisteringEnrols(s, es[0], t);
      }
    }
  }

  lemma RegisteringEnrols(s: System, e: Event, t: TenantId)
    requires Enabled(s, e) && t !in Step(s, e).subs
    ensures !(e.Register? && e.tenant == t)
  {
    hide TrialJobs;
  }

  /**
   In every reachable state a tenant on trial has a job pending that will end the trial if and only if it
   was registered with the trial jobs; registered without, no job ever ends it.
   */
  lemma TrialEndExact(s: System, es: seq<Event>, t: TenantId)
    requires Fresh(s) && Runnable(s, es) && OnTrial(Run(s, es), t)
    ensures TrialEndPending(Run(s, es), t) <==> RegisteredWithJobs(es, t)
  {
    TrialEndAlong(s, es, t);
  }

  // ---------------------------------------------------------------------------
  // A run that stalls
  // ---------------------------------------------------------------------------

  lemma {:induction false} RunThen(s: System, es: seq<Event>, e: Event)
    requires Runnable(s, es) && Enabled(Run(s, es), e)
    ensures Runnable(s, es + [e]) && Run(s, es + [e]) == Step(Run(s, es), e)
    decreases |es|
  {
    hide Step, Enabled;
    if es == [] {
      assert ([] + [e])[1..] == [] && Run(s, es) == s;
      assert Run(Step(s, e), []) == Step(s, e);
    } else {
      RunThen(Step(s, es[0]), es[1..], e);
      assert (es + [e])[1..] == es[1..] + [e];
    }
  }

  function FirstPayment(t: TenantId): seq<Event> {
    [Register(t, None, false), Checkout(t, Monobank, "p"), PaymentSuccess(Monobank, "p", Some(0), Some("card")), Tick(PERIOD)]
  }

  // A month after the first payment with a card, the charge is due.
  lemma FirstPaymentRuns(s: System, t: TenantId)
    requires Fresh(s) && s.now == 0
    ensures Runnable(s, FirstPayment(t))
    ensures var s' := Run(s, FirstPayment(t));
            var j := Job(Charge(PERIOD), t, PERIOD);
            && t in s'.subs && s'.subs[t].card.Some? && s'.now == PERIOD
            && JobId(j) in s'.queue && s'.queue[JobId(j)] == j
  {
    hide JobId, Step, Enabled, Run, Runnable;
    var es := FirstPayment(t);
    assert es[..2] == [es[0], es[1]] && es[..3] == es[..2] + [es[2]] && es == es[..3] + [es[3]];
    CheckoutRuns(s, t);
    PaidAndWaited(t);
    RunThen(s, es[..2], es[2]);
    RunThen(s, es[..3], es[3]);
  }

  // Registered without a trial, with one payment open.
  function Unpaid(t: TenantId): System {
    System(0, map[t := Sub(Expired, None, None, 0, None, None, 0)], [Payment(t, Monobank, "p", Pending)], map[])
  }

  lemma CheckoutRuns(s: System, t: TenantId)
    requires Fresh(s) && s.now == 0
    ensures var es := [FirstPayment(t)[0], FirstPayment(t)[1]]; Runnable(s, es) && Run(s, es) == Unpaid(t)
  {
    var es := [FirstPayment(t)[0], FirstPayment(t)[1]];
    assert es[..1] == [] + [es[0]] && es == es[..1] + [es[1]];
    RunThen(s, [], es[0]);
    RunThen(s, es[..1], es[1]);
  }

  lemma PaidAndWaited(t: TenantId)
    ensures var s, es, j := Unpaid(t), FirstPayment(t), Job(Charge(PERIOD), t, PERIOD);
            && Enabled(s, es[2]) && Enabled(Step(s, es[2]), es[3])
            && var s' := Step(Step(s, es[2]), es[3]);
               t in s'.subs && s'.subs[t].card.Some? && s'.now == PERIOD && JobId(j) in s'.queue && s'.queue[JobId(j)] == j
  {
    hide JobId;
  }

  /** From scratch: register, pay with a card, wait a month, and let the charge break off. Billing has stopped. */
  lemma StallReached(s: System, t: TenantId)
    requires Fresh(s) && s.now == 0
    ensures var fire := Fire(JobId(Job(Charge(PERIOD), t, PERIOD)), "order", Aborted);
            var es := FirstPayment(t) + [fire];
            Runnable(s, es) && Live(s) && !Live(Run(s, es))
  {
    hide JobId, FirstPayment, Step, Live, Safe, Run, Runnable;
    var fire := Fire(JobId(Job(Charge(PERIOD), t, PERIOD)), "order", Aborted);
    FirstPaymentRuns(s, t);
    FreshIsLive(s);
    RunKeepsSafe(s, FirstPayment(t));
    FirstPaymentFiresNothing(t);
    RunKeepsLive(s, FirstPayment(t));
    SafeKnows(Run(s, FirstPayment(t)), t);
    RunThen(s, FirstPayment(t), fire);
    StepKeepsLiveUnlessBrokenOff(Run(s, FirstPayment(t)), fire);
  }

  lemma FreshIsLive(s: System)
    requires Fresh(s)
    ensures Safe(s) && Live(s)
  {}

  lemma FirstPaymentFiresNothing(t: TenantId)
    ensures forall e :: e in FirstPayment(t) ==> !e.Fire?
  {}
}
