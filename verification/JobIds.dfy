/**
 The subscription queue is shared by every tenant; a job is found again only through the text of
 its id. This module models the ids, the queue, and what cancelling a tenant's jobs by id removes.
 */
module JobIds {
  import opened Numerals

  // Tenant ids are UUIDs; what the id scheme relies on is that they hold no colon.
  type TenantId = s: string | ':' !in s witness "t"

  datatype Kind =
    | TrialEnd
    | TrialReminder(day: nat)
    | Charge(at: nat)
    | Retry(attempt: nat)
    | Expire
  {
    predicate Billing() { !TrialReminder? }

    // The text before the first colon of the id.
    function Name(): (s: string)
      ensures ':' !in s
    {
      match this
      case TrialEnd => "trial-end"
      case TrialReminder(day) => if day == 5 then "trial-reminder-5d" else "trial-reminder-6d"
      case Charge(_) => "charge"
      case Retry(_) => "retry"
      case Expire => "expire"
    }

    // The text after the tenant id, empty when the id ends there.
    function Suffix(): string {
      match this
      case Charge(at) => ":" + Decimal(at)
      case Retry(attempt) => ":attempt" + Decimal(attempt)
      case _ => ""
    }
  }

  datatype Job = Job(kind: Kind, tenant: TenantId, due: nat)

  function JobId(j: Job): string {
    j.kind.Name() + (":" + (j.tenant + j.kind.Suffix()))
  }

  /** Pending jobs by id. An id is present at most once: adding it again changes nothing. */
  type Queue = map<string, Job>

  ghost predicate WellKeyed(q: Queue) {
    forall id :: id in q ==> JobId(q[id]) == id
  }

  function Add(q: Queue, j: Job): Queue {
    if JobId(j) in q then q else q[JobId(j) := j]
  }

  /** The pending jobs of one tenant. */
  function Own(q: Queue, t: TenantId): Queue {
    map id | id in q && q[id].tenant == t :: q[id]
  }

  /** The queue after every pending job of one tenant is gone. */
  function WithoutTenant(q: Queue, t: TenantId): Queue {
    map id | id in q && q[id].tenant != t :: q[id]
  }

  // ---------------------------------------------------------------------------
  // Ids determine the tenant and the kind of job
  // ---------------------------------------------------------------------------

  function Head(s: string): (h: string)
    ensures ':' !in h
  {
    if s == "" || s[0] == ':' then "" else [s[0]] + Head(s[1..])
  }

  lemma {:induction false} HeadStopsAtColon(a: string, b: string)
    requires ':' !in a
    requires b == "" || b[0] == ':'
    ensures Head(a + b) == a
  {
    if a == "" {
      assert a + b == b;
    } else {
      assert (a + b)[1..] == a[1..] + b;
      HeadStopsAtColon(a[1..], b);
    }
  }

  lemma SplitUnique(a: string, b: string, a': string, b': string)
    requires ':' !in a && ':' !in a'
    requires b == "" || b[0] == ':'
    requires b' == "" || b'[0] == ':'
    requires a + b == a' + b'
    ensures a == a' && b == b'
  {
    HeadStopsAtColon(a, b);
    HeadStopsAtColon(a', b');
    assert b == (a + b)[|a|..];
    assert b' == (a' + b')[|a'|..];
  }

  lemma NamesDistinct(k: Kind, k': Kind)
    requires k.Name() == k'.Name()
    ensures k.TrialEnd? == k'.TrialEnd? && k.TrialReminder? == k'.TrialReminder?
    ensures k.Charge? == k'.Charge? && k.Retry? == k'.Retry? && k.Expire? == k'.Expire?
  {}

  lemma SuffixShape(k: Kind)
    ensures k.Suffix() == "" || k.Suffix()[0] == ':'
  {}

  // An id that starts with a name and a colon gives away both the name and what follows.
  lemma PeelName(name: string, rest: string, j: Job)
    requires ':' !in name && name + (":" + rest) == JobId(j)
    ensures j.kind.Name() == name && rest == j.tenant + j.kind.Suffix()
  {
    var mine, its := ":" + rest, ":" + (j.tenant + j.kind.Suffix());
    SplitUnique(name, mine, j.kind.Name(), its);
    assert mine[1..] == rest && its[1..] == j.tenant + j.kind.Suffix();
  }

  lemma PeelTenant(t: TenantId, rest: string, j: Job)
    requires rest == "" || rest[0] == ':'
    requires t + rest == j.tenant + j.kind.Suffix()
    ensures t == j.tenant
  {
    SuffixShape(j.kind);
    SplitUnique(t, rest, j.tenant, j.kind.Suffix());
  }

  /** Equal ids mean the same tenant and the same sort of job. */
  lemma JobIdDetermines(j: Job, j': Job)
    requires JobId(j) == JobId(j')
    ensures j.tenant == j'.tenant
    ensures j.kind.TrialEnd? == j'.kind.TrialEnd? && j.kind.TrialReminder? == j'.kind.TrialReminder?
    ensures j.kind.Charge? == j'.kind.Charge? && j.kind.Retry? == j'.kind.Retry?
    ensures j.kind.Expire? == j'.kind.Expire?
  {
    PeelName(j.kind.Name(), j.tenant + j.kind.Suffix(), j');
    NamesDistinct(j.kind, j'.kind);
    SuffixShape(j.kind);
    PeelTenant(j.tenant, j.kind.Suffix(), j');
  }

  // ---------------------------------------------------------------------------
  // Cancelling by pattern
  // ---------------------------------------------------------------------------

  datatype Pattern = Exact(id: string) | Prefix(text: string)

  predicate Matches(p: Pattern, id: string) {
    match p
    case Exact(x) => id == x
    case Prefix(x) => x <= id
  }

  function ExactFor(name: string, t: TenantId): Pattern {
    Exact(name + (":" + t))
  }

  function PrefixFor(name: string, t: TenantId): Pattern {
    Prefix(name + (":" + (t + ":")))
  }

  function CancelPatterns(t: TenantId): seq<Pattern> {
    [ExactFor("trial-end", t), ExactFor("trial-reminder-5d", t), ExactFor("trial-reminder-6d", t),
     PrefixFor("charge", t), PrefixFor("retry", t), ExactFor("expire", t)]
  }

  lemma PrefixPatternHits(name: string, t: TenantId, j: Job)
    requires ':' !in name && Matches(PrefixFor(name, t), JobId(j))
    ensures j.tenant == t
  {
    hide JobId;
    var p := name + (":" + (t + ":"));
    var rest := JobId(j)[|p|..];
    assert JobId(j) == p + rest;
    assert p + rest == name + (":" + (t + (":" + rest)));
    PeelName(name, t + (":" + rest), j);
    PeelTenant(t, ":" + rest, j);
  }

  lemma ExactPatternHits(name: string, t: TenantId, j: Job)
    requires ':' !in name && Matches(ExactFor(name, t), JobId(j))
    ensures j.tenant == t
  {
    hide JobId;
    PeelName(name, t, j);
    assert t + "" == t;
    PeelTenant(t, "", j);
  }

  lemma ExactPatternFor(j: Job)
    requires j.kind.Suffix() == ""
    ensures Matches(ExactFor(j.kind.Name(), j.tenant), JobId(j))
  {
    assert j.tenant + "" == j.tenant;
  }

  lemma PrefixPatternFor(j: Job, rest: string)
    requires j.kind.Suffix() == ":" + rest
    ensures Matches(PrefixFor(j.kind.Name(), j.tenant), JobId(j))
  {
    var p := j.kind.Name() + (":" + (j.tenant + ":"));
    assert JobId(j) == p + rest;
  }

  lemma OwnJobIsHit(j: Job) returns (i: nat)
    ensures i < |CancelPatterns(j.tenant)| && Matches(CancelPatterns(j.tenant)[i], JobId(j))
  {
    hide JobId, Matches, ExactFor, PrefixFor;
    match j.kind
    case TrialEnd => ExactPatternFor(j); i := 0;
    case TrialReminder(day) => ExactPatternFor(j); i := if day == 5 then 1 else 2;
    case Charge(at) => PrefixPatternFor(j, Decimal(at)); i := 3;
    case Retry(attempt) => RetrySuffix(attempt); PrefixPatternFor(j, "attempt" + Decimal(attempt)); i := 4;
    case Expire => ExactPatternFor(j); i := 5;
  }

  lemma RetrySuffix(attempt: nat)
    ensures Retry(attempt).Suffix() == ":" + ("attempt" + Decimal(attempt))
  {
    assert ":attempt" == ":" + "attempt";
  }

  lemma HitJobIsOwn(t: TenantId, j: Job, i: nat)
    requires i < |CancelPatterns(t)| && Matches(CancelPatterns(t)[i], JobId(j))
    ensures j.tenant == t
  {
    hide JobId, Matches, ExactFor, PrefixFor;
    if i == 3 {
      PrefixPatternHits("charge", t, j);
    } else if i == 4 {
      PrefixPatternHits("retry", t, j);
    } else {
      var name := ["trial-end", "trial-reminder-5d", "trial-reminder-6d", "", "", "expire"][i];
      ExactPatternHits(name, t, j);
    }
  }

  /** The six patterns hit exactly the tenant's own jobs: none is missed, no other tenant loses one. */
  lemma PatternsHitOwnJobsOnly(t: TenantId, j: Job)
    ensures (exists i :: 0 <= i < |CancelPatterns(t)| && Matches(CancelPatterns(t)[i], JobId(j))) <==> j.tenant == t
  {
    hide JobId, Matches, CancelPatterns;
    if j.tenant == t {
      var i := OwnJobIsHit(j);
    }
    if i :| 0 <= i < |CancelPatterns(t)| && Matches(CancelPatterns(t)[i], JobId(j)) {
      HitJobIsOwn(t, j, i);
    }
  }

  // ---------------------------------------------------------------------------
  // How the queue operations look to each tenant
  // ---------------------------------------------------------------------------

  lemma OwnHolds(q: Queue, t: TenantId, id: string)
    ensures id in Own(q, t) <==> id in q && q[id].tenant == t
    ensures id in Own(q, t) ==> Own(q, t)[id] == q[id]
  {}

  lemma OwnAfterDrop(q: Queue, t: TenantId, u: TenantId)
    ensures Own(WithoutTenant(q, t), u) == if u == t then map[] else Own(q, u)
    ensures WellKeyed(q) ==> WellKeyed(WithoutTenant(q, t))
  {}

  lemma OwnAfterRemove(q: Queue, id: string, u: TenantId)
    requires id in q
    ensures Own(q - {id}, u) == if u == q[id].tenant then Own(q, u) - {id} else Own(q, u)
    ensures WellKeyed(q) ==> WellKeyed(q - {id})
  {}

  /** Under one id the queue keeps the job it has: a later one is not taken, and no other job is touched. */
  lemma AddKeepsFirst(q: Queue, j: Job, id: string)
    ensures JobId(j) in Add(q, j) && (id in Add(q, j) <==> id in q || id == JobId(j))
    ensures id in Add(q, j) ==> Add(q, j)[id] == if id in q then q[id] else j
  {
    hide JobId;
  }

  /** Adding a job under an id its tenant does not use really adds it, and nobody else notices. */
  lemma OwnAfterAdd(q: Queue, j: Job, u: TenantId)
    requires WellKeyed(q)
    requires JobId(j) !in Own(q, j.tenant)
    ensures WellKeyed(Add(q, j))
    ensures Own(Add(q, j), u) == if u == j.tenant then Own(q, u)[JobId(j) := j] else Own(q, u)
  {
    if JobId(j) in q {
      JobIdDetermines(q[JobId(j)], j);
    }
  }
}
