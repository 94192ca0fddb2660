/** One tick of the Matrix reconciliation schedule: a rotated list of jobs under one item budget
    (agent/schedules/matrix-delivery.ts). */
module MatrixSchedule {
  function Min(a: nat, b: nat): nat { if a <= b then a else b }

  /** What a job reports: a number, something that is no whole number, or an error. */
  datatype Report = Reported(count: int) | NotWhole | Threw

  /** How many items the job really attempted, and what it reported. */
  datatype Outcome = Outcome(attempted: nat, report: Report)

  /** `run` answers any limit; different answers in different ticks are different jobs. */
  datatype Job = Job(limit: nat, run: nat -> Outcome)

  /** Keeps its limit and counts truly, or fails. */
  ghost predicate Respectful(job: Job) {
    forall limit: nat :: var o := job.run(limit);
      o.attempted <= limit && (o.report.Reported? ==> o.report.count == o.attempted)
  }

  ghost predicate AllRespectful(jobs: seq<Job>) { forall k | 0 <= k < |jobs| :: Respectful(jobs[k]) }

  /** Lines 125-145: a failed or implausible report costs the whole allocation. */
  function Charge(o: Outcome, limit: nat): (c: nat)
    ensures c <= limit
    ensures o.attempted <= limit && (o.report.Reported? ==> o.report.count == o.attempted) ==> o.attempted <= c
  {
    if o.report.Reported? && 0 <= o.report.count <= limit then o.report.count else limit
  }

  /** The item loop of the joins job, lines 52-68: `late` is the first item met after the deadline, `aborted`
      the first one met after an abort. What an item throws is swallowed. */
  method AttemptItems(candidates: nat, limit: nat, late: nat, aborted: nat) returns (o: Outcome)
    ensures o.attempted <= limit && (o.report.Reported? ==> o.report.count == o.attempted)
    ensures o.attempted == Min(Min(candidates, limit), Min(late, aborted))
    ensures o.report.Threw? <==> aborted < Min(candidates, limit) && aborted <= late
  {
    var attempted := 0;
    for i := 0 to Min(candidates, limit)
      invariant attempted == i <= Min(late, aborted)
    {
      if aborted <= i {
        return Outcome(attempted, Threw);
      }
      if late <= i {
        break;
      }
      attempted := attempted + 1;
    }
    o := Outcome(attempted, Reported(attempted));
  }

  /** The budget left before job `k`. */
  function Remaining(jobs: seq<Job>, budget: nat, k: nat): nat
    requires k <= |jobs|
  {
    if k == 0 then budget
    else
      var before := Remaining(jobs, budget, k - 1);
      var offer := Min(jobs[k - 1].limit, before);
      before - Charge(jobs[k - 1].run(offer), offer)
  }

  function Offer(jobs: seq<Job>, budget: nat, k: nat): nat
    requires k < |jobs|
  {
    Min(jobs[k].limit, Remaining(jobs, budget, k))
  }

  function Limits(jobs: seq<Job>, k: nat): nat
    requires k <= |jobs|
  {
    if k == 0 then 0 else Limits(jobs, k - 1) + jobs[k - 1].limit
  }

  function Sum(xs: seq<nat>): nat {
    if xs == [] then 0 else Sum(xs[..|xs| - 1]) + xs[|xs| - 1]
  }

  /** What a tick has offered, and how many items each job attempted. */
  predicate Ticked(jobs: seq<Job>, budget: nat, offers: seq<nat>, attempts: seq<nat>) {
    && |offers| == |attempts| <= |jobs|
    && forall k {:trigger offers[k]} | 0 <= k < |offers| :: offers[k] == Offer(jobs, budget, k) && attempts[k] == jobs[k].run(offers[k]).attempted
  }

  /** Jobs that respect their limits never attempt more than the budget together. */
  lemma {:induction false} AttemptsFitTheBudget(jobs: seq<Job>, budget: nat, offers: seq<nat>, attempts: seq<nat>)
    requires Ticked(jobs, budget, offers, attempts) && AllRespectful(jobs)
    ensures Sum(attempts) + Remaining(jobs, budget, |attempts|) <= budget
    decreases |attempts|
  {
    if attempts != [] {
      var k := |attempts| - 1;
      AttemptsFitTheBudget(jobs, budget, offers[..k], attempts[..k]);
      assert Respectful(jobs[k]);
      var o := jobs[k].run(offers[k]);
      assert attempts[k] == o.attempted <= Charge(o, offers[k]);
    }
  }

  /** Counts truly, or has used up its whole offer. */
  predicate Accounted(o: Outcome, offer: nat) { o.report == Reported(o.attempted) || o.attempted == offer }

  predicate AllAccounted(jobs: seq<Job>, offers: seq<nat>)
    requires |offers| <= |jobs|
  {
    forall k | 0 <= k < |offers| :: Accounted(jobs[k].run(offers[k]), offers[k])
  }

  lemma ChargedAsAttemptedIff(job: Job, offer: nat)
    requires Respectful(job)
    ensures var o := job.run(offer);
            o.attempted <= Charge(o, offer) && (Charge(o, offer) == o.attempted <==> Accounted(o, offer))
  {
  }

  lemma LastAccounted(jobs: seq<Job>, offers: seq<nat>)
    requires 0 < |offers| <= |jobs|
    ensures var k := |offers| - 1;
            AllAccounted(jobs, offers) <==> AllAccounted(jobs, offers[..k]) && Accounted(jobs[k].run(offers[k]), offers[k])
  {
    var k := |offers| - 1;
    assert forall i | 0 <= i < k :: offers[..k][i] == offers[i];
    if AllAccounted(jobs, offers[..k]) {
      assert forall i | 0 <= i < k :: Accounted(jobs[i].run(offers[..k][i]), offers[..k][i]);
    }
  }

  /** Nothing is lost on the way: the budget is spent on attempts alone exactly if every job that did not count truly had
      used up its whole offer; what truthful jobs leave goes to the jobs behind them. */
  lemma {:induction false} BudgetIsSpentOnAttemptsIff(jobs: seq<Job>, budget: nat, offers: seq<nat>, attempts: seq<nat>)
    requires Ticked(jobs, budget, offers, attempts) && AllRespectful(jobs)
    ensures Remaining(jobs, budget, |attempts|) + Sum(attempts) == budget
       <==> AllAccounted(jobs, offers)
    decreases |attempts|
  {
    if attempts != [] {
      var k := |attempts| - 1;
      BudgetIsSpentOnAttemptsIff(jobs, budget, offers[..k], attempts[..k]);
      AttemptsFitTheBudget(jobs, budget, offers[..k], attempts[..k]);
      ChargedAsAttemptedIff(jobs[k], offers[k]);
      LastAccounted(jobs, offers);
    }
  }

  /** Lines 121-146. `clock` is how many jobs are reached before the deadline passes or the tick is aborted. */
  method RunTick(jobs: seq<Job>, budget: nat, clock: nat) returns (offers: seq<nat>, attempts: seq<nat>)
    ensures Ticked(jobs, budget, offers, attempts) && |offers| <= clock
    ensures |offers| < Min(|jobs|, clock) ==> forall k | |offers| <= k < |jobs| :: Offer(jobs, budget, k) == 0
    ensures AllRespectful(jobs) ==> Sum(attempts) <= budget
    ensures AllRespectful(jobs) && AllAccounted(jobs, offers) && |offers| < Min(|jobs|, clock) ==> Sum(attempts) == budget
  {
    var remaining := budget;
    offers, attempts := [], [];
    var k := 0;
    while k < |jobs|
      invariant 0 <= k <= |jobs| && |offers| == k <= clock && Ticked(jobs, budget, offers, attempts)
      invariant remaining == Remaining(jobs, budget, k)
    {
      if remaining == 0 || k >= clock {
        break;
      }
      var limit := Min(jobs[k].limit, remaining);
      var outcome := jobs[k].run(limit);
      if outcome.report.Reported? && 0 <= outcome.report.count <= limit {
        remaining := remaining - outcome.report.count;
      } else {
        remaining := remaining - limit;
      }
      TickStep(jobs, budget, offers, attempts);
      offers, attempts := offers + [limit], attempts + [outcome.attempted];
      k := k + 1;
    }
    TickEnds(jobs, budget, offers, attempts);
    if AllRespectful(jobs) {
      AttemptsFitTheBudget(jobs, budget, offers, attempts);
      BudgetIsSpentOnAttemptsIff(jobs, budget, offers, attempts);
    }
  }

  lemma TickStep(jobs: seq<Job>, budget: nat, offers: seq<nat>, attempts: seq<nat>)
    requires Ticked(jobs, budget, offers, attempts) && |offers| < |jobs|
    ensures var k := |offers|;
            var limit := Offer(jobs, budget, k);
            var outcome := jobs[k].run(limit);
            && Ticked(jobs, budget, offers + [limit], attempts + [outcome.attempted])
            && Remaining(jobs, budget, k + 1) == Remaining(jobs, budget, k) - Charge(outcome, limit)
  {
    var k := |offers|;
    var limit := Offer(jobs, budget, k);
    var more := offers + [limit];
    var longer := attempts + [jobs[k].run(limit).attempted];
    forall i | 0 <= i < |more| ensures more[i] == Offer(jobs, budget, i) && longer[i] == jobs[i].run(more[i]).attempted {
      if i < k {
        assert more[i] == offers[i] && longer[i] == attempts[i];
      }
    }
  }

  lemma TickEnds(jobs: seq<Job>, budget: nat, offers: seq<nat>, attempts: seq<nat>)
    requires Ticked(jobs, budget, offers, attempts)
    ensures Remaining(jobs, budget, |offers|) == 0 ==> forall k | |offers| <= k < |jobs| :: Offer(jobs, budget, k) == 0
  {
    forall k | |offers| <= k < |jobs| && Remaining(jobs, budget, |offers|) == 0 ensures Offer(jobs, budget, k) == 0 {
      SpentStaysSpent(jobs, budget, |offers|, k);
    }
  }

  lemma {:induction false} SpentStaysSpent(jobs: seq<Job>, budget: nat, j: nat, k: nat)
    requires j <= k <= |jobs| && Remaining(jobs, budget, j) == 0
    ensures Remaining(jobs, budget, k) == 0
  {
    if j < k {
      SpentStaysSpent(jobs, budget, j, k - 1);
    }
  }

  /** Nobody can take more than their limit from those behind them. */
  lemma {:induction false} OfferedAtLeast(jobs: seq<Job>, budget: nat, k: nat)
    requires k < |jobs|
    ensures Remaining(jobs, budget, k) >= budget - Limits(jobs, k)
    ensures Offer(jobs, budget, k) >= Min(jobs[k].limit, if budget >= Limits(jobs, k) then budget - Limits(jobs, k) else 0)
  {
    if k > 0 {
      OfferedAtLeast(jobs, budget, k - 1);
    }
  }

  function Failing(limits: seq<nat>): seq<Job> {
    seq(|limits|, i requires 0 <= i < |limits| => Job(limits[i], (limit: nat) => Outcome(limit, Threw)))
  }

  /** And when everybody fails, nobody is offered more. */
  lemma {:induction false} FailingJobsReachTheBound(limits: seq<nat>, budget: nat, k: nat)
    requires k <= |limits|
    ensures var jobs := Failing(limits);
            Remaining(jobs, budget, k) == if budget >= Limits(jobs, k) then budget - Limits(jobs, k) else 0
  {
    if k > 0 {
      FailingJobsReachTheBound(limits, budget, k - 1);
      assert Failing(limits)[k - 1].limit == limits[k - 1];
    }
  }

  predicate HasLimits(jobs: seq<Job>, limits: seq<nat>) {
    |jobs| == |limits| && forall i | 0 <= i < |jobs| :: jobs[i].limit == limits[i]
  }

  function Prefix(limits: seq<nat>, k: nat): nat
    requires k <= |limits|
  {
    if k == 0 then 0 else Prefix(limits, k - 1) + limits[k - 1]
  }

  lemma {:induction false} SamePrefix(jobs: seq<Job>, limits: seq<nat>, k: nat)
    requires HasLimits(jobs, limits) && k <= |limits|
    ensures Limits(jobs, k) == Prefix(limits, k)
  {
    if k > 0 {
      SamePrefix(jobs, limits, k - 1);
    }
  }

  /** Whatever the jobs do, the k-th one gets its full limit: exactly when it fits behind all the limits before it. */
  lemma AlwaysFullIff(limits: seq<nat>, budget: nat, k: nat)
    requires k < |limits| && limits[k] > 0
    ensures (forall jobs | HasLimits(jobs, limits) :: Offer(jobs, budget, k) == limits[k])
            <==> Prefix(limits, k) + limits[k] <= budget
  {
    if Prefix(limits, k) + limits[k] <= budget {
      forall jobs | HasLimits(jobs, limits) ensures Offer(jobs, budget, k) == limits[k] {
        OfferedAtLeast(jobs, budget, k);
        SamePrefix(jobs, limits, k);
      }
    } else {
      var jobs := Failing(limits);
      assert HasLimits(jobs, limits);
      FailingJobsReachTheBound(limits, budget, k);
      SamePrefix(jobs, limits, k);
    }
  }

  // ---------------------------------------------------------------- the schedule's own numbers

  const BUDGET: nat := 50

  /** departures, erasures, joins, rooms, activity, delivery */
  const LIMITS: seq<nat> := [10, 20, 5, 5, 5, 25]

  function Rotate(first: nat): seq<nat>
    requires first < 6
  {
    LIMITS[first..] + LIMITS[..first]
  }

  /** Where a class stands in a tick that starts with class `first`. */
  function Place(class_: nat, first: nat): (k: nat)
    requires class_ < 6 && first < 6
    ensures k < 6
  {
    if class_ >= first then class_ - first else class_ + 6 - first
  }

  lemma PlaceIsRight(class_: nat, first: nat)
    requires class_ < 6 && first < 6
    ensures Rotate(first)[Place(class_, first)] == LIMITS[class_] > 0
  {
    var k := Place(class_, first);
    if class_ >= first {
      assert LIMITS[first..][k] == LIMITS[class_];
    } else {
      assert LIMITS[..first][class_] == LIMITS[class_];
    }
  }

  /** Sure of its whole limit, whatever every other job does. */
  ghost predicate Sure(class_: nat, minute: nat)
    requires class_ < 6
  {
    forall jobs | HasLimits(jobs, Rotate(minute % 6)) :: Offer(jobs, BUDGET, Place(class_, minute % 6)) == LIMITS[class_]
  }

  /** The minutes of a rotation in which a class is sure of its limit: its own, and those it still fits behind. */
  function SureMinutes(class_: nat): set<nat>
    requires class_ < 6
  {
    match class_
    case 0 => {0, 2, 3, 4, 5}
    case 1 => {0, 1}
    case 2 => {0, 1, 2}
    case 3 => {0, 1, 2, 3}
    case 4 => {0, 1, 2, 3, 4}
    case _ => {2, 3, 4, 5}
  }

  lemma PrefixesOfSix(limits: seq<nat>)
    requires |limits| == 6
    ensures Prefix(limits, 0) == 0
    ensures Prefix(limits, 1) == limits[0]
    ensures Prefix(limits, 2) == limits[0] + limits[1]
    ensures Prefix(limits, 3) == limits[0] + limits[1] + limits[2]
    ensures Prefix(limits, 4) == limits[0] + limits[1] + limits[2] + limits[3]
    ensures Prefix(limits, 5) == limits[0] + limits[1] + limits[2] + limits[3] + limits[4]
  {
    assert Prefix(limits, 1) == Prefix(limits, 0) + limits[0];
    assert Prefix(limits, 2) == Prefix(limits, 1) + limits[1];
    assert Prefix(limits, 3) == Prefix(limits, 2) + limits[2];
    assert Prefix(limits, 4) == Prefix(limits, 3) + limits[3];
  }

  lemma FitsExactlyWhen(class_: nat, first: nat)
    requires class_ < 6 && first < 6
    ensures Prefix(Rotate(first), Place(class_, first)) + LIMITS[class_] <= BUDGET <==> first in SureMinutes(class_)
  {
    PrefixesOfSix(Rotate(first));
    match first
    case 0 => assert Rotate(0) == [10, 20, 5, 5, 5, 25];
    case 1 => assert Rotate(1) == [20, 5, 5, 5, 25, 10];
    case 2 => assert Rotate(2) == [5, 5, 5, 25, 10, 20];
    case 3 => assert Rotate(3) == [5, 5, 25, 10, 20, 5];
    case 4 => assert Rotate(4) == [5, 25, 10, 20, 5, 5];
    case _ => assert Rotate(5) == [25, 10, 20, 5, 5, 5];
  }

  lemma SureExactlyWhen(class_: nat, minute: nat)
    requires class_ < 6
    ensures Sure(class_, minute) <==> minute % 6 in SureMinutes(class_)
  {
    PlaceIsRight(class_, minute % 6);
    AlwaysFullIff(Rotate(minute % 6), BUDGET, Place(class_, minute % 6));
    FitsExactlyWhen(class_, minute % 6);
  }

  /** The next minute whose tick starts with class `first`. */
  function NextMinute(start: nat, first: nat): (m: nat)
    requires first < 6
    ensures start <= m < start + 6 && m % 6 == first
  {
    start + (first + 6 - start % 6) % 6
  }

  /** In any six consecutive minutes each class is sure of its full limit at least twice. */
  lemma EveryClassIsSureTwiceInSixMinutes(class_: nat, start: nat) returns (m: nat, n: nat)
    requires class_ < 6
    ensures start <= m < start + 6 && start <= n < start + 6 && m != n
    ensures Sure(class_, m) && Sure(class_, n)
  {
    var other := if class_ == 0 then 5 else if class_ == 5 then 4 else class_ - 1;
    m, n := NextMinute(start, class_), NextMinute(start, other);
    SureExactlyWhen(class_, m);
    SureExactlyWhen(class_, n);
  }
}
