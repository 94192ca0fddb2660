/** What a submitted answer comes to, first or repeated, and what its error says about the dispatch
    (agent/lib/channel-response.ts:230-287). */
module ChannelResubmissions {
  import opened Wrappers
  import opened ChannelResponses

  // ---------------------------------------------------------------- an answer given again

  /** What a caller learns from a row that is already there. */
  ghost predicate AnsweredBy(outer: Outer, row: Row, input: Input, revision: string) {
    && (outer == Returned <==> SameClaim(row, input, revision) && row.status == Accepted)
    && (outer == Threw(UncertainError) <==> SameClaim(row, input, revision) && row.status != Accepted)
    && (outer == Threw(RejectedError) <==> !SameClaim(row, input, revision))
  }

  lemma {:induction false} SettledCallerStays(w: World, steps: seq<Step>, n: nat)
    requires n < |w.submissions| && w.submissions[n].inner.Unstarted?
    requires w.submissions[n].outer.Returned? || w.submissions[n].outer.Threw?
    ensures n < |Run(w, steps).submissions| && Run(w, steps).submissions[n] == w.submissions[n]
    decreases |steps|
  {
    if steps != [] {
      SettledCallerStays(Apply(w, steps[0]), steps[1..], n);
    }
  }

  /** A caller whose slot is taken is answered by the row as it then stands, for good, and dispatches nothing. */
  lemma TakenSlotAnswers(before: seq<Step>, n: nat, more: seq<Step>)
    requires n < |Run(EMPTY, before).submissions| && Run(EMPTY, before).submissions[n].outer.Claiming?
    requires Run(EMPTY, before).submissions[n].input.At() in Run(EMPTY, before).rows
    ensures var w := Run(EMPTY, before);
            var s := w.submissions[n];
            var claimed := Run(w, [ClaimIt(n, true)]);
            var y := Run(claimed, more);
            && claimed.rows == w.rows && claimed.dispatches == w.dispatches
            && n < |y.submissions| && AnsweredBy(y.submissions[n].outer, w.rows[s.input.At()], s.input, s.revision)
            && forall d | d in y.dispatches :: d.owner != n
  {
    RunKeeps(EMPTY, before);
    var w := Run(EMPTY, before);
    var s := w.submissions[n];
    assert SubmissionOk(w, n) && RowOk(w, s.input.At());
    var claimed := Apply(w, ClaimIt(n, true));
    RunSnoc(w, [], ClaimIt(n, true));
    assert [] + [ClaimIt(n, true)] == [ClaimIt(n, true)];
    assert AnsweredBy(claimed.submissions[n].outer, w.rows[s.input.At()], s.input, s.revision);
    StepKeeps(w, ClaimIt(n, true));
    SettledCallerStays(claimed, more, n);
    RunKeeps(claimed, more);
    var y := Run(claimed, more);
    forall d | d in y.dispatches ensures d.owner != n {
      assert DispatchOk(y, d);
    }
  }

  /** The same user submits again, and the request prepares to a revision. */
  function Again(n: nat, input: Input, revision: string): seq<Step> {
    [Submit(input), Prepare(n, Some(revision)), ClaimIt(n, true)]
  }

  /** Whatever happened before and happens later, an answer submitted for a request that has a row returns if that row is
      accepted and its own, is uncertain if it is its own and not accepted, and is rejected otherwise. */
  lemma ResubmissionIsAnswered(before: seq<Step>, input: Input, revision: string, more: seq<Step>)
    requires input.At() in Run(EMPTY, before).rows
    ensures var w := Run(EMPTY, before);
            var n := |w.submissions|;
            var y := Run(Run(w, Again(n, input, revision)), more);
            && n < |y.submissions| && AnsweredBy(y.submissions[n].outer, w.rows[input.At()], input, revision)
            && forall d | d in y.dispatches :: d.owner != n
  {
    var w := Run(EMPTY, before);
    var n := |w.submissions|;
    var prepare := [Submit(input), Prepare(n, Some(revision))];
    RunSnoc(w, [], Submit(input));
    assert [] + [Submit(input)] == [Submit(input)];
    RunSnoc(w, [Submit(input)], Prepare(n, Some(revision)));
    assert [Submit(input)] + [Prepare(n, Some(revision))] == prepare;
    RunConcat(EMPTY, before, prepare);
    RunConcat(w, prepare, [ClaimIt(n, true)]);
    assert prepare + [ClaimIt(n, true)] == Again(n, input, revision);
    TakenSlotAnswers(before + prepare, n, more);
  }

  // ---------------------------------------------------------------- an answer given once

  /** A submission nothing goes wrong for. */
  function Undisturbed(n: nat, input: Input, revision: string): seq<Step> {
    Again(n, input, revision)
    + [Respond(n, Some(revision)), Answer(n, true), IssueMark(n), MarkAccepted(n, Reported), Join(n)]
  }

  /** From every reachable state, the first answer to a request is dispatched, accepted and returned if all goes well. */
  lemma UndisturbedSubmissionReturns(before: seq<Step>, input: Input, revision: string)
    requires input.At() !in Run(EMPTY, before).rows
    ensures var w := Run(EMPTY, before);
            var n := |w.submissions|;
            var y := Run(w, Undisturbed(n, input, revision));
            && y.submissions == w.submissions + [Submission(input, revision, Returned, Done)]
            && y.rows == w.rows[input.At() := Row(n, input, revision, Accepted)]
            && y.dispatches == w.dispatches + [Dispatch(input.At(), revision, input.decision, n)]
            && y.confirmed == w.confirmed + {input.At()}
  {
    var w := Run(EMPTY, before);
    var n := |w.submissions|;
    var claim, rest := Again(n, input, revision), [Respond(n, Some(revision)), Answer(n, true), IssueMark(n), MarkAccepted(n, Reported), Join(n)];
    RunConcat(w, claim, rest);
    ClaimedFirst(w, input, revision);
    RunsThrough(w, Run(w, claim), input, revision);
  }

  lemma ClaimedFirst(w: World, input: Input, revision: string)
    requires input.At() !in w.rows
    ensures var x := Run(w, Again(|w.submissions|, input, revision));
            && AtStage(w, x, input, revision, Waiting, Rechecking, Attempted)
            && x.dispatches == w.dispatches && x.confirmed == w.confirmed
  {
    var n := |w.submissions|;
    RunSnoc(w, [], Submit(input));
    assert [] + [Submit(input)] == [Submit(input)];
    RunSnoc(w, [Submit(input)], Prepare(n, Some(revision)));
    assert [Submit(input)] + [Prepare(n, Some(revision))] == [Submit(input), Prepare(n, Some(revision))];
    var prepared := Run(w, [Submit(input), Prepare(n, Some(revision))]);
    assert prepared.submissions == w.submissions + [Submission(input, revision, Claiming, Unstarted)];
    RunSnoc(w, [Submit(input), Prepare(n, Some(revision))], ClaimIt(n, true));
    assert [Submit(input), Prepare(n, Some(revision))] + [ClaimIt(n, true)] == Again(n, input, revision);
    assert Run(w, Again(n, input, revision)).submissions == w.submissions + [Submission(input, revision, Waiting, Rechecking)];
  }

  /** The state of the last submission and its row, on the way to acceptance. */
  ghost predicate AtStage(w: World, x: World, input: Input, revision: string, outer: Outer, inner: Inner, status: Status) {
    var n := |w.submissions|;
    && x.submissions == w.submissions + [Submission(input, revision, outer, inner)]
    && x.rows == w.rows[input.At() := Row(n, input, revision, status)]
  }

  lemma RunsThrough(w: World, x: World, input: Input, revision: string)
    requires AtStage(w, x, input, revision, Waiting, Rechecking, Attempted)
    requires x.dispatches == w.dispatches && x.confirmed == w.confirmed
    ensures var n := |w.submissions|;
            var y := Run(x, [Respond(n, Some(revision)), Answer(n, true), IssueMark(n), MarkAccepted(n, Reported), Join(n)]);
            && AtStage(w, y, input, revision, Returned, Done, Accepted)
            && y.dispatches == w.dispatches + [Dispatch(input.At(), revision, input.decision, n)]
            && y.confirmed == w.confirmed + {input.At()}
  {
    var n := |w.submissions|;
    var steps := [Respond(n, Some(revision)), Answer(n, true), IssueMark(n), MarkAccepted(n, Reported), Join(n)];
    var a := Apply(x, steps[0]);
    assert AtStage(w, a, input, revision, Waiting, InFlight, Attempted);
    var b := Apply(a, steps[1]);
    assert AtStage(w, b, input, revision, Waiting, Answered, Attempted);
    var c := Apply(b, steps[2]);
    assert AtStage(w, c, input, revision, Waiting, Marking, Attempted);
    var d := Apply(c, steps[3]);
    assert AtStage(w, d, input, revision, Waiting, Done, Accepted);
    assert AtStage(w, Apply(d, steps[4]), input, revision, Returned, Done, Accepted);
    RunOfFive(x, steps);
  }

  lemma RunOfFive(w: World, steps: seq<Step>)
    requires |steps| == 5
    ensures Run(w, steps) == Apply(Apply(Apply(Apply(Apply(w, steps[0]), steps[1]), steps[2]), steps[3]), steps[4])
  {
    var a := Apply(Apply(w, steps[0]), steps[1]);
    var b := Apply(Apply(a, steps[2]), steps[3]);
    assert Run(w, steps) == Run(Apply(w, steps[0]), steps[1..]) == Run(a, steps[1..][1..]);
    assert steps[1..][1..] == steps[2..] && steps[2..][1..][1..] == steps[4..] && steps[4..][1..] == [];
    assert Run(a, steps[2..]) == Run(Apply(a, steps[2]), steps[2..][1..]) == Run(b, steps[2..][1..][1..]);
  }

  // ---------------------------------------------------------------- what an error says

  ghost predicate DispatchedBy(w: World, n: nat) { exists d | d in w.dispatches :: d.owner == n }

  /** A rejected submission, or one about to be, has dispatched nothing; one that threw otherwise than for a failed
      statement has settled the row it owns. */
  ghost predicate ErrorOk(w: World, n: nat)
    requires n < |w.submissions|
  {
    var s := w.submissions[n];
    && (s.inner == Broken(RejectedError) || s.outer == Closing(RejectedError) || s.outer == Threw(RejectedError) ==>
          !DispatchedBy(w, n))
    && (s.outer.Threw? && s.outer.error != StoreError && !s.inner.Unstarted? ==>
          s.input.At() in w.rows && w.rows[s.input.At()].id == n && !w.rows[s.input.At()].status.Attempted?)
  }

  lemma OwnStepKeepsError(w: World, n: nat, step: Step)
    requires Inv(w) && n < |w.submissions| && ErrorOk(w, n)
    ensures ErrorOk(Advance(w, n, step), n)
  {
    var s := w.submissions[n];
    assert SubmissionOk(w, n);
    forall d | d in w.dispatches && d.owner == n ensures !s.inner.Unstarted? && !s.inner.Rechecking? {
      assert DispatchOk(w, d);
    }
  }

  lemma OtherStepKeepsError(w: World, n: nat, m: nat, step: Step)
    requires Inv(w) && n < |w.submissions| && m < |w.submissions| && m != n && ErrorOk(w, n)
    ensures ErrorOk(Advance(w, m, step), n)
  {
    StepFrame(w, m, step);
    assert SubmissionOk(w, n);
  }

  lemma StepKeepsError(w: World, n: nat, step: Step, x: World)
    requires Inv(w) && x == Apply(w, step) && n < |x.submissions| && (n < |w.submissions| ==> ErrorOk(w, n))
    ensures ErrorOk(x, n)
  {
    if n >= |w.submissions| {
      forall d | d in w.dispatches ensures d.owner != n {
        assert DispatchOk(w, d);
      }
    } else if !step.Submit? && step.n == n {
      OwnStepKeepsError(w, n, step);
    } else if !step.Submit? && step.n < |w.submissions| {
      OtherStepKeepsError(w, n, step.n, step);
    }
  }

  lemma {:induction false} ErrorsOk(steps: seq<Step>, n: nat)
    requires n < |Run(EMPTY, steps).submissions|
    ensures ErrorOk(Run(EMPTY, steps), n)
    decreases |steps|
  {
    if steps != [] {
      var before, last := steps[..|steps| - 1], steps[|steps| - 1];
      assert steps == before + [last];
      var w := Run(EMPTY, before);
      RunSnoc(EMPTY, before, last);
      RunKeeps(EMPTY, before);
      if n < |w.submissions| {
        ErrorsOk(before, n);
      }
      StepKeepsError(w, n, last, Apply(w, last));
    }
  }

  lemma {:induction false} ThrownStays(w: World, steps: seq<Step>, n: nat)
    requires n < |w.submissions| && w.submissions[n].outer.Threw?
    ensures n < |Run(w, steps).submissions| && Run(w, steps).submissions[n].outer == w.submissions[n].outer
    decreases |steps|
  {
    if steps != [] {
      ThrownStays(Apply(w, steps[0]), steps[1..], n);
    }
  }

  /** Whoever is told that its answer was rejected has dispatched nothing, and never will. */
  lemma RejectedMeansNotDispatched(steps: seq<Step>, n: nat, more: seq<Step>)
    requires n < |Run(EMPTY, steps).submissions| && Run(EMPTY, steps).submissions[n].outer == Threw(RejectedError)
    ensures forall d | d in Run(Run(EMPTY, steps), more).dispatches :: d.owner != n
  {
    ThrownStays(Run(EMPTY, steps), more, n);
    RunConcat(EMPTY, steps, more);
    ErrorsOk(steps + more, n);
  }

  /** A caller that claimed the row and threw, for anything but a failed statement, has left it accepted or uncertain. */
  lemma ThrowingOwnerSettlesItsRow(steps: seq<Step>, n: nat)
    requires n < |Run(EMPTY, steps).submissions|
    requires var s := Run(EMPTY, steps).submissions[n];
             s.outer.Threw? && s.outer.error != StoreError && !s.inner.Unstarted?
    ensures var w := Run(EMPTY, steps);
            var slot := w.submissions[n].input.At();
            slot in w.rows && w.rows[slot].id == n && w.rows[slot].status in {Accepted, Uncertain}
  {
    ErrorsOk(steps, n);
  }
}
