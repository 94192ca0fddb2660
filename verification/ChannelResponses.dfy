/** Claiming, dispatching and marking one answer to one pending request, with any number of
    concurrent and retried submitters (agent/lib/channel-response.ts:230-287,
    server/messaging/input-response.ts). */
module ChannelResponses {
  import opened Wrappers

  datatype Decision = Approve | Cancel

  datatype Input = Input(identity: string, session: string, source: string, request: string,
                         turn: string, decision: Decision)
  {
    function At(): Slot { Slot(session, request) }
  }

  /** The unique index on (session_id, request_id). */
  datatype Slot = Slot(session: string, request: string)

  datatype Status = Attempted | Accepted | Uncertain

  /** `id` is the row's own identifier, held only by the submission that inserted it. */
  datatype Row = Row(id: nat, input: Input, revision: string, status: Status)

  datatype Claim = Acquired(id: nat) | Duplicate(status: Status) | Conflict

  function ClaimRow(rows: map<Slot, Row>, id: nat, input: Input, revision: string): (Claim, map<Slot, Row>) {
    var slot := input.At();
    if slot !in rows then (Acquired(id), rows[slot := Row(id, input, revision, Attempted)])
    else if rows[slot].input == input && rows[slot].revision == revision then (Duplicate(rows[slot].status), rows)
    else (Conflict, rows)
  }

  /** The stored answer is this one, given by the same user in the same message for the same turn. */
  predicate SameClaim(row: Row, input: Input, revision: string) {
    && row.input.identity == input.identity && row.input.source == input.source && row.input.turn == input.turn
    && row.input.decision == input.decision && row.revision == revision
  }

  /** Only an attempted row changes, and only the one with this id. */
  function MarkRow(rows: map<Slot, Row>, slot: Slot, id: nat, status: Status): (bool, map<Slot, Row>) {
    if slot in rows && rows[slot].id == id && rows[slot].status.Attempted?
    then (true, rows[slot := rows[slot].(status := status)])
    else (false, rows)
  }

  /** A message in the inbox that was accepted for its identity and session. */
  datatype Message = Message(identity: string, session: string, source: string)

  datatype Refusal = IdentityInactive | NoSingleSource

  /** The stored claims, beside the identities that are not revoked and the inbox: server/messaging/input-response.ts:22-89. */
  class InputResponses {
    var rows: map<Slot, Row>
    var identities: set<string>
    var inbox: multiset<Message>

    /** Rows are found by their own session and request. */
    predicate Valid()
      reads this
    {
      forall slot | slot in rows :: rows[slot].input.At() == slot
    }

    constructor (identities: set<string>, inbox: multiset<Message>)
      ensures Valid() && rows == map[] && this.identities == identities && this.inbox == inbox
    {
      rows, this.identities, this.inbox := map[], identities, inbox;
    }

    method ClaimResponse(id: nat, input: Input, revision: string) returns (r: Result<Claim, Refusal>)
      requires Valid()
      modifies this`rows
      ensures Valid()
      ensures r == Err(IdentityInactive) <==> input.identity !in identities
      ensures r == Err(NoSingleSource) <==>
                input.identity in identities && inbox[Message(input.identity, input.session, input.source)] != 1
      ensures if r.Ok? then (r.value, rows) == ClaimRow(old(rows), id, input, revision) else rows == old(rows)
      ensures r.Ok? ==> (r.value.Acquired? <==> input.At() !in old(rows))
      ensures r.Ok? && r.value.Acquired? ==> r.value.id == id && rows == old(rows)[input.At() := Row(id, input, revision, Attempted)]
      ensures r.Ok? && !r.value.Acquired? ==> rows == old(rows)
      ensures forall status :: r == Ok(Duplicate(status)) <==>
                && input.identity in identities && inbox[Message(input.identity, input.session, input.source)] == 1
                && input.At() in old(rows) && SameClaim(old(rows)[input.At()], input, revision)
                && old(rows)[input.At()].status == status
      ensures r == Ok(Conflict) <==>
                && input.identity in identities && inbox[Message(input.identity, input.session, input.source)] == 1
                && input.At() in old(rows) && !SameClaim(old(rows)[input.At()], input, revision)
      ensures forall slot | slot in old(rows) :: slot in rows && rows[slot] == old(rows)[slot]
    {
      if input.identity !in identities {
        return Err(IdentityInactive);
      }
      if inbox[Message(input.identity, input.session, input.source)] != 1 {
        return Err(NoSingleSource);
      }
      var slot := input.At();
      if slot !in rows {
        rows := rows[slot := Row(id, input, revision, Attempted)];
        return Ok(Acquired(id));
      }
      var previous := rows[slot];
      if previous.input.identity == input.identity && previous.input.source == input.source
         && previous.revision == revision && previous.input.decision == input.decision
         && previous.input.turn == input.turn {
        return Ok(Duplicate(previous.status));
      }
      r := Ok(Conflict);
    }

    method MarkResponse(slot: Slot, id: nat, status: Status) returns (marked: bool)
      requires Valid()
      modifies this`rows
      ensures Valid() && (marked <==> slot in old(rows) && old(rows)[slot].id == id && old(rows)[slot].status == Attempted)
      ensures rows == if marked then old(rows)[slot := old(rows)[slot].(status := status)] else old(rows)
      ensures (marked, rows) == MarkRow(old(rows), slot, id, status)
      ensures forall s | s in old(rows) && !old(rows)[s].status.Attempted? :: s in rows && rows[s] == old(rows)[s]
    {
      marked := slot in rows && rows[slot].id == id && rows[slot].status.Attempted?;
      if marked {
        rows := rows[slot := rows[slot].(status := status)];
      }
    }
  }

  // ---------------------------------------------------------------- concurrent submissions

  datatype Error = RejectedError | UncertainError | StoreError | TimedOut

  /** The caller: `Waiting` is inside the `try`, `Closing` is the `catch`. */
  datatype Outer = Preparing | Claiming | Waiting | Closing(error: Error) | Returned | Threw(error: Error) | Gone

  /** The work under the 8 s timeout. It keeps going after the caller has stopped waiting for it. */
  datatype Inner = Unstarted | Rechecking | InFlight | Answered | Marking | Done | Broken(error: Error) | Lost

  /** What becomes of an UPDATE under way: carried out and reported, carried out with its report lost, or not carried out. */
  datatype Fate = Reported | ReportLost | NotCarried

  datatype Submission = Submission(input: Input, revision: string, outer: Outer, inner: Inner)

  datatype Dispatch = Dispatch(slot: Slot, revision: string, decision: Decision, owner: nat)

  /** `confirmed` holds the slots whose dispatch the session answered with `accepted`. */
  datatype World = World(rows: map<Slot, Row>, submissions: seq<Submission>, dispatches: seq<Dispatch>, confirmed: set<Slot>)

  datatype Step =
    | Submit(input: Input)
    | Prepare(n: nat, revision: Option<string>)
    | ClaimIt(n: nat, available: bool)
    | Respond(n: nat, revision: Option<string>)
    | Answer(n: nat, accepted: bool)
    | IssueMark(n: nat)
    | MarkAccepted(n: nat, fate: Fate)
    | Expire(n: nat)
    | Join(n: nat)
    | MarkUncertain(n: nat, fate: Fate)
    | Crash(n: nat)

  const EMPTY := World(map[], [], [], {})

  function Put(w: World, n: nat, s: Submission): World
    requires n < |w.submissions|
  {
    w.(submissions := w.submissions[n := s])
  }

  /** An UPDATE already under way may still be carried out. */
  function AfterCrash(inner: Inner): Inner {
    if inner.Unstarted? || inner.Marking? then inner else Lost
  }

  /** One atomic step of submission `n`; `revision` is what preparing again reports, if it succeeds. */
  function Advance(w: World, n: nat, step: Step): World
    requires n < |w.submissions|
  {
    var s := w.submissions[n];
    match step
    case Prepare(_, revision) =>
      if !s.outer.Preparing? then w
      else if revision.None? then Put(w, n, s.(outer := Threw(RejectedError)))
      else Put(w, n, s.(revision := revision.value, outer := Claiming))
    case ClaimIt(_, available) =>
      if !s.outer.Claiming? then w
      else if !available then Put(w, n, s.(outer := Threw(StoreError)))
      else
        var (claim, rows) := ClaimRow(w.rows, n, s.input, s.revision);
        var s' := match claim
          case Acquired(_) => s.(outer := Waiting, inner := Rechecking)
          case Duplicate(status) => s.(outer := if status.Accepted? then Returned else Threw(UncertainError))
          case Conflict => s.(outer := Threw(RejectedError));
        Put(w.(rows := rows), n, s')
    case Respond(_, revision) =>
      // An aborted signal stops the recheck; once it passes, the dispatch is issued at once.
      if !(s.inner.Rechecking? && s.outer.Waiting?) then w
      else if revision != Some(s.revision) then Put(w, n, s.(inner := Broken(RejectedError)))
      else Put(w.(dispatches := w.dispatches + [Dispatch(s.input.At(), revision.value, s.input.decision, n)]), n, s.(inner := InFlight))
    case Answer(_, accepted) =>
      if !s.inner.InFlight? then w
      else if accepted then Put(w.(confirmed := w.confirmed + {s.input.At()}), n, s.(inner := Answered))
      else Put(w, n, s.(inner := Broken(UncertainError)))
    case IssueMark(_) =>
      // Every statement first checks the signal: after the timeout no UPDATE leaves.
      if !s.inner.Answered? then w
      else Put(w, n, s.(inner := if s.outer.Waiting? then Marking else Broken(TimedOut)))
    case MarkAccepted(_, fate) =>
      if !s.inner.Marking? then w
      else
        var (marked, rows) := if fate.NotCarried? then (false, w.rows) else MarkRow(w.rows, s.input.At(), n, Accepted);
        Put(w.(rows := rows), n, s.(inner := if !fate.Reported? then Broken(StoreError) else if marked then Done else Broken(UncertainError)))
    case Expire(_) =>
      if s.outer.Waiting? then Put(w, n, s.(outer := Closing(TimedOut))) else w
    case Join(_) =>
      if !s.outer.Waiting? then w
      else if s.inner.Done? then Put(w, n, s.(outer := Returned))
      else if s.inner.Broken? then Put(w, n, s.(outer := Closing(s.inner.error)))
      else w
    case MarkUncertain(_, fate) =>
      if !s.outer.Closing? then w
      else
        var rows := if fate.NotCarried? then w.rows else MarkRow(w.rows, s.input.At(), n, Uncertain).1;
        Put(w.(rows := rows), n, s.(outer := Threw(if fate.Reported? then s.outer.error else StoreError)))
    case Crash(_) =>
      Put(w, n, s.(outer := if s.outer.Returned? || s.outer.Threw? then s.outer else Gone, inner := AfterCrash(s.inner)))
    case Submit(_) => w
  }

  function Apply(w: World, step: Step): World {
    if step.Submit? then w.(submissions := w.submissions + [Submission(step.input, "", Preparing, Unstarted)])
    else if step.n < |w.submissions| then Advance(w, step.n, step)
    else w
  }

  function Run(w: World, steps: seq<Step>): World
    decreases |steps|
  {
    if steps == [] then w else Run(Apply(w, steps[0]), steps[1..])
  }

  // ---------------------------------------------------------------- invariant

  /** A row belongs to the submission that inserted it. */
  ghost predicate RowOk(w: World, slot: Slot)
    requires slot in w.rows
  {
    var r := w.rows[slot];
    && r.id < |w.submissions|
    && var s := w.submissions[r.id];
    && r.input == s.input && r.revision == s.revision && s.input.At() == slot
    && !s.inner.Unstarted?
    && (r.status.Accepted? ==> slot in w.confirmed)
    && (!r.status.Attempted? ==> !(s.inner.Rechecking? && s.outer.Waiting?))
  }

  ghost predicate SubmissionOk(w: World, n: nat)
    requires n < |w.submissions|
  {
    var s := w.submissions[n];
    && (s.outer.Preparing? || s.outer.Claiming? ==> s.inner.Unstarted?)
    && (s.outer.Waiting? || s.outer.Closing? ==> !s.inner.Unstarted?)
    && (!s.inner.Unstarted? ==> s.input.At() in w.rows && w.rows[s.input.At()].id == n)
    && (s.inner.Done? ==> w.rows[s.input.At()].status.Accepted?)
    && (s.inner.Rechecking? || s.inner.InFlight? || s.inner.Answered? || s.inner.Marking? ==>
          !w.rows[s.input.At()].status.Accepted?)
    && (s.outer.Waiting? ==> !w.rows[s.input.At()].status.Uncertain? && !s.inner.Lost?)
    && (s.inner.Answered? || s.inner.Marking? ==> s.input.At() in w.confirmed)
    && (s.outer.Returned? ==>
          s.input.At() in w.rows && w.rows[s.input.At()].status.Accepted?
          && w.rows[s.input.At()].input == s.input && w.rows[s.input.At()].revision == s.revision)
  }

  ghost predicate DispatchOk(w: World, d: Dispatch) {
    && d.slot in w.rows
    && w.rows[d.slot].id == d.owner && w.rows[d.slot].revision == d.revision && w.rows[d.slot].input.decision == d.decision
    && d.owner < |w.submissions|
    && !w.submissions[d.owner].inner.Rechecking? && !w.submissions[d.owner].inner.Unstarted?
  }

  ghost predicate RowsOk(w: World) { forall slot | slot in w.rows :: RowOk(w, slot) }

  ghost predicate SubmissionsOk(w: World) { forall n | 0 <= n < |w.submissions| :: SubmissionOk(w, n) }

  ghost predicate DispatchesOk(w: World) {
    && (forall d | d in w.dispatches :: DispatchOk(w, d))
    && (forall i, j | 0 <= i < j < |w.dispatches| :: w.dispatches[i].slot != w.dispatches[j].slot)
    && (forall n | 0 <= n < |w.submissions| && w.submissions[n].inner.InFlight? ::
          exists d | d in w.dispatches :: d.slot == w.submissions[n].input.At())
    && (forall slot | slot in w.confirmed :: exists d | d in w.dispatches :: d.slot == slot)
  }

  ghost predicate Inv(w: World) { RowsOk(w) && SubmissionsOk(w) && DispatchesOk(w) }

  /** What one step of submission `n` can have changed. */
  ghost predicate Frame(w: World, w': World, n: nat)
    requires n < |w.submissions|
  {
    var own := w.submissions[n].input.At();
    && |w'.submissions| == |w.submissions|
    && (forall m | 0 <= m < |w.submissions| && m != n :: w'.submissions[m] == w.submissions[m])
    && w'.submissions[n].input == w.submissions[n].input
    && (forall slot | slot != own :: (slot in w'.rows <==> slot in w.rows) && (slot in w.rows ==> w'.rows[slot] == w.rows[slot]))
    && (own in w.rows ==>
          && own in w'.rows
          && (w'.rows[own] == w.rows[own]
              || (w.rows[own].id == n && w.rows[own].status.Attempted? && w'.rows[own] == w.rows[own].(status := w'.rows[own].status))))
    && (w'.dispatches == w.dispatches
        || (w.submissions[n].inner.Rechecking? && w.submissions[n].outer.Waiting?
            && w'.dispatches == w.dispatches + [Dispatch(own, w.submissions[n].revision, w.submissions[n].input.decision, n)]))
    && (w'.confirmed == w.confirmed || (w.submissions[n].inner.InFlight? && w'.confirmed == w.confirmed + {own}))
  }

  lemma StepFrame(w: World, n: nat, step: Step)
    requires n < |w.submissions|
    ensures Frame(w, Advance(w, n, step), n)
  {
  }

  /** The stepping submission itself, and the row at its slot. */
  lemma OwnKeeps(w: World, n: nat, step: Step)
    requires n < |w.submissions| && SubmissionOk(w, n)
    requires w.submissions[n].input.At() in w.rows ==> RowOk(w, w.submissions[n].input.At())
    requires w.submissions[n].inner.InFlight? ==> exists d | d in w.dispatches :: d.slot == w.submissions[n].input.At()
    ensures SubmissionOk(Advance(w, n, step), n)
    ensures var w' := Advance(w, n, step);
            var own := w.submissions[n].input.At();
            own in w'.rows ==> RowOk(w', own)
  {
    OwnRowKeeps(w, n, step);
  }

  lemma OwnRowKeeps(w: World, n: nat, step: Step)
    requires n < |w.submissions| && SubmissionOk(w, n)
    requires w.submissions[n].input.At() in w.rows ==> RowOk(w, w.submissions[n].input.At())
    ensures var w' := Advance(w, n, step);
            var own := w.submissions[n].input.At();
            own in w'.rows ==> RowOk(w', own)
  {
  }

  lemma OwnDispatches(w: World, n: nat, step: Step)
    requires n < |w.submissions| && SubmissionOk(w, n)
    ensures var w' := Advance(w, n, step);
            && (w'.submissions[n].inner.InFlight? && w'.dispatches == w.dispatches ==> w.submissions[n].inner.InFlight?)
            && (w'.dispatches != w.dispatches ==> w'.submissions[n].inner.InFlight?)
            && (w.submissions[n].inner.Unstarted? || w'.submissions[n].inner.Rechecking? ==>
                  w'.dispatches == w.dispatches && w'.confirmed == w.confirmed)
            && (!w.submissions[n].inner.Unstarted? && !w.submissions[n].inner.Rechecking? ==>
                  !w'.submissions[n].inner.Unstarted? && !w'.submissions[n].inner.Rechecking?)
  {
  }

  lemma OthersKeep(w: World, w': World, n: nat)
    requires n < |w.submissions| && Frame(w, w', n) && RowsOk(w) && SubmissionsOk(w) && DispatchesOk(w)
    requires SubmissionOk(w', n)
    requires w.submissions[n].input.At() in w'.rows ==> RowOk(w', w.submissions[n].input.At())
    ensures RowsOk(w') && SubmissionsOk(w')
  {
    OtherRowsKeep(w, w', n);
    forall m | 0 <= m < |w'.submissions| ensures SubmissionOk(w', m) {
      if m != n {
        assert SubmissionOk(w, m);
      }
    }
  }

  lemma OtherRowsKeep(w: World, w': World, n: nat)
    requires n < |w.submissions| && Frame(w, w', n) && RowsOk(w)
    requires w.submissions[n].input.At() in w'.rows ==> RowOk(w', w.submissions[n].input.At())
    ensures RowsOk(w')
  {
    forall slot | slot in w'.rows ensures RowOk(w', slot) {
      if slot != w.submissions[n].input.At() {
        assert RowOk(w, slot);
      }
    }
  }

  lemma DispatchesKeep(w: World, n: nat, step: Step)
    requires n < |w.submissions| && Inv(w)
    ensures DispatchesOk(Advance(w, n, step))
  {
    var w' := Advance(w, n, step);
    var own := w.submissions[n].input.At();
    StepFrame(w, n, step);
    assert SubmissionOk(w, n);
    OwnKeeps(w, n, step);
    OwnDispatches(w, n, step);
    DispatchesKeepFramed(w, w', n);
  }

  lemma DispatchesKeepFramed(w: World, w': World, n: nat)
    requires n < |w.submissions| && Inv(w) && Frame(w, w', n) && SubmissionOk(w', n)
    requires w'.submissions[n].inner.InFlight? && w'.dispatches == w.dispatches ==> w.submissions[n].inner.InFlight?
    requires w'.dispatches != w.dispatches ==> w'.submissions[n].inner.InFlight?
    requires !w.submissions[n].inner.Unstarted? && !w.submissions[n].inner.Rechecking? ==>
               !w'.submissions[n].inner.Unstarted? && !w'.submissions[n].inner.Rechecking?
    ensures DispatchesOk(w')
  {
    var own := w.submissions[n].input.At();
    assert SubmissionOk(w, n);
    forall d | d in w.dispatches ensures DispatchOk(w', d) && d in w'.dispatches {
      assert DispatchOk(w, d);
    }
    if w'.dispatches != w.dispatches {
      var last := w'.dispatches[|w.dispatches|];
      assert last in w'.dispatches && last.slot == own;
      assert RowOk(w, own);
      forall d | d in w.dispatches ensures d.slot != own {
        assert DispatchOk(w, d);
      }
    }
    forall slot | slot in w'.confirmed ensures exists d | d in w'.dispatches :: d.slot == slot {
      assert slot in w.confirmed || (slot == own && w.submissions[n].inner.InFlight?);
      var d :| d in w.dispatches && d.slot == slot;
      assert d in w'.dispatches;
    }
    forall m | 0 <= m < |w'.submissions| && w'.submissions[m].inner.InFlight?
      ensures exists d | d in w'.dispatches :: d.slot == w'.submissions[m].input.At()
    {
      if !(m == n && w'.dispatches != w.dispatches) {
        assert w.submissions[m].inner.InFlight?;
        var d :| d in w.dispatches && d.slot == w.submissions[m].input.At();
        assert d in w'.dispatches;
      }
    }
  }

  lemma SubmitKeeps(w: World, i: Input)
    requires Inv(w)
    ensures Inv(Apply(w, Submit(i)))
  {
    var w' := Apply(w, Submit(i));
    forall slot | slot in w'.rows ensures RowOk(w', slot) {
      assert RowOk(w, slot);
    }
    forall m | 0 <= m < |w'.submissions| ensures SubmissionOk(w', m) {
      if m < |w.submissions| {
        assert SubmissionOk(w, m);
      }
    }
    forall d | d in w'.dispatches ensures DispatchOk(w', d) {
      assert DispatchOk(w, d);
    }
  }

  lemma StepKeeps(w: World, step: Step)
    requires Inv(w)
    ensures Inv(Apply(w, step))
  {
    if step.Submit? {
      SubmitKeeps(w, step.input);
    } else if step.n < |w.submissions| {
      var n := step.n;
      StepFrame(w, n, step);
      assert SubmissionOk(w, n);
      if w.submissions[n].input.At() in w.rows {
        assert RowOk(w, w.submissions[n].input.At());
      }
      OwnKeeps(w, n, step);
      OthersKeep(w, Advance(w, n, step), n);
      DispatchesKeep(w, n, step);
    }
  }

  lemma {:induction false} RunKeeps(w: World, steps: seq<Step>)
    requires Inv(w)
    ensures Inv(Run(w, steps))
    decreases |steps|
  {
    if steps != [] {
      StepKeeps(w, steps[0]);
      RunKeeps(Apply(w, steps[0]), steps[1..]);
    }
  }

  // ---------------------------------------------------------------- guarantees

  /** At most one dispatch per session and request, and only of the claimed revision and decision. */
  lemma DispatchedAtMostOnce(steps: seq<Step>)
    ensures var w := Run(EMPTY, steps);
            && (forall i, j | 0 <= i < j < |w.dispatches| :: w.dispatches[i].slot != w.dispatches[j].slot)
            && (forall d | d in w.dispatches ::
                  && d.slot in w.rows && d.owner < |w.submissions|
                  && w.rows[d.slot].input == w.submissions[d.owner].input
                  && w.rows[d.slot].revision == d.revision && w.rows[d.slot].input.decision == d.decision)
  {
    RunKeeps(EMPTY, steps);
    var w := Run(EMPTY, steps);
    forall d | d in w.dispatches
      ensures d.slot in w.rows && d.owner < |w.submissions| && w.rows[d.slot].input == w.submissions[d.owner].input
    {
      assert DispatchOk(w, d) && RowOk(w, d.slot);
    }
  }

  /** A caller returns normally only for an accepted row holding its own answer, whose dispatch the session accepted. */
  lemma NormalReturnMeansAccepted(steps: seq<Step>, n: nat)
    requires n < |Run(EMPTY, steps).submissions| && Run(EMPTY, steps).submissions[n].outer.Returned?
    ensures var w := Run(EMPTY, steps);
            var s := w.submissions[n];
            && s.input.At() in w.rows
            && w.rows[s.input.At()].status == Accepted
            && w.rows[s.input.At()].input == s.input && w.rows[s.input.At()].revision == s.revision
            && s.input.At() in w.confirmed
            && exists d | d in w.dispatches :: d.slot == s.input.At() && d.revision == s.revision && d.decision == s.input.decision
  {
    RunKeeps(EMPTY, steps);
    var w := Run(EMPTY, steps);
    var slot := w.submissions[n].input.At();
    assert SubmissionOk(w, n) && RowOk(w, slot);
    var d :| d in w.dispatches && d.slot == slot;
    assert DispatchOk(w, d);
  }

  ghost predicate Finished(w: World, slot: Slot) { slot in w.rows && !w.rows[slot].status.Attempted? }

  lemma StepAfterFinish(w: World, step: Step, slot: Slot)
    requires Inv(w) && Finished(w, slot)
    ensures var w' := Apply(w, step);
            && slot in w'.rows && w'.rows[slot] == w.rows[slot]
            && (forall d | d in w'.dispatches && d.slot == slot :: d in w.dispatches)
  {
    assert RowOk(w, slot);
    if !step.Submit? && step.n < |w.submissions| {
      assert SubmissionOk(w, step.n);
    }
  }

  /** Accepted and uncertain rows are final: they never change again and nothing more is dispatched for them. */
  lemma {:induction false} FinishedRowsAreFinal(w: World, steps: seq<Step>, slot: Slot)
    requires Inv(w) && Finished(w, slot)
    ensures var w' := Run(w, steps);
            && slot in w'.rows && w'.rows[slot] == w.rows[slot]
            && (forall d | d in w'.dispatches && d.slot == slot :: d in w.dispatches)
    decreases |steps|
  {
    if steps != [] {
      StepAfterFinish(w, steps[0], slot);
      RunKeeps(w, [steps[0]]);
      assert Run(w, [steps[0]]) == Apply(w, steps[0]);
      FinishedRowsAreFinal(Apply(w, steps[0]), steps[1..], slot);
    }
  }

  /** Once a row is uncertain, no later run dispatches for it and no caller for it ever returns normally. */
  lemma UncertainStaysUncertain(before: seq<Step>, after: seq<Step>, slot: Slot)
    requires slot in Run(EMPTY, before).rows && Run(EMPTY, before).rows[slot].status.Uncertain?
    ensures var w, w' := Run(EMPTY, before), Run(Run(EMPTY, before), after);
            && slot in w'.rows && w'.rows[slot].status.Uncertain?
            && (forall d | d in w'.dispatches && d.slot == slot :: d in w.dispatches)
            && (forall n | 0 <= n < |w'.submissions| && w'.submissions[n].input.At() == slot :: !w'.submissions[n].outer.Returned?)
  {
    RunKeeps(EMPTY, before);
    var w := Run(EMPTY, before);
    RunKeeps(w, after);
    FinishedRowsAreFinal(w, after, slot);
    var w' := Run(w, after);
    forall n | 0 <= n < |w'.submissions| && w'.submissions[n].input.At() == slot ensures !w'.submissions[n].outer.Returned? {
      assert SubmissionOk(w', n);
    }
  }

  // ---------------------------------------------------------------- a caller that throws for an accepted row

  /** What separates the caller from its accepted answer: the timeout expires once the UPDATE is under way or done but
      not yet joined, or the report of the UPDATE is lost. */
  ghost predicate Misses(w: World, step: Step, n: nat) {
    && n < |w.submissions| && w.submissions[n].outer.Waiting?
    && var inner := w.submissions[n].inner;
       (step == Expire(n) && (inner.Marking? || inner.Done?)) || (step == MarkAccepted(n, ReportLost) && inner.Marking?)
  }

  ghost predicate Missed(steps: seq<Step>, n: nat) {
    exists i | 0 <= i < |steps| :: Misses(Run(EMPTY, steps[..i]), steps[i], n)
  }

  /** The submission's UPDATE is under way or was carried out. */
  ghost predicate Marked(w: World, n: nat)
    requires n < |w.submissions|
  {
    var s := w.submissions[n];
    s.inner.Marking? || s.inner.Done?
    || (s.input.At() in w.rows && w.rows[s.input.At()].id == n && w.rows[s.input.At()].status.Accepted?)
  }

  /** How a marked submission's caller stands, given whether it has missed its answer. */
  ghost predicate CallerOk(w: World, n: nat, missed: bool)
    requires n < |w.submissions|
  {
    var s := w.submissions[n];
    && (s.inner.Unstarted? || s.inner.Rechecking? || s.inner.InFlight? || s.inner.Answered? ==> !missed)
    && (Marked(w, n) ==>
          match s.outer
          case Waiting => missed <==> s.inner.Broken?
          case Closing(e) => missed && e in {TimedOut, StoreError}
          case Threw(e) => missed && e in {TimedOut, StoreError}
          case Returned => !missed
          case Gone => true
          case _ => false)
    && (Marked(w, n) && s.inner.Broken? ==> s.inner.error == StoreError)
  }

  lemma OwnStepKeepsCaller(w: World, step: Step, n: nat, missed: bool)
    requires n < |w.submissions| && SubmissionOk(w, n) && CallerOk(w, n, missed)
    requires !step.Submit? && step.n == n
    ensures CallerOk(Advance(w, n, step), n, missed || Misses(w, step, n))
  {
  }

  /** Another submission's step leaves this one and its row alone. */
  lemma OtherStepKeepsCaller(w: World, step: Step, n: nat, missed: bool)
    requires n < |w.submissions| && CallerOk(w, n, missed)
    requires step.Submit? || step.n != n
    ensures CallerOk(Apply(w, step), n, missed)
  {
    if !step.Submit? && step.n < |w.submissions| {
      OtherStepKeepsRow(w, step.n, step, n);
    }
  }

  lemma OtherStepKeepsRow(w: World, m: nat, step: Step, n: nat)
    requires m < |w.submissions| && n < |w.submissions| && m != n
    ensures var w' := Advance(w, m, step);
            && |w'.submissions| == |w.submissions| && w'.submissions[n] == w.submissions[n]
            && (Marked(w', n) <==> Marked(w, n))
  {
  }

  lemma CallerStepKeeps(w: World, step: Step, x: World, n: nat, missed: bool)
    requires Inv(w) && n < |w.submissions| && CallerOk(w, n, missed) && x == Apply(w, step)
    ensures n < |x.submissions| && CallerOk(x, n, missed || Misses(w, step, n))
  {
    assert SubmissionOk(w, n);
    if !step.Submit? && step.n == n {
      OwnStepKeepsCaller(w, step, n, missed);
    } else {
      OtherStepKeepsCaller(w, step, n, missed);
    }
  }

  lemma MissedSnoc(steps: seq<Step>, last: Step, n: nat)
    ensures Missed(steps + [last], n) <==> Missed(steps, n) || Misses(Run(EMPTY, steps), last, n)
  {
    var all := steps + [last];
    assert all[..|steps|] == steps && all[|steps|] == last;
    assert forall i | 0 <= i < |steps| :: all[..i] == steps[..i] && all[i] == steps[i];
    if i :| 0 <= i < |steps| && Misses(Run(EMPTY, steps[..i]), steps[i], n) {
      assert Misses(Run(EMPTY, all[..i]), all[i], n);
    }
    if Misses(Run(EMPTY, steps), last, n) {
      assert Misses(Run(EMPTY, all[..|steps|]), all[|steps|], n);
    }
    if i :| 0 <= i < |all| && Misses(Run(EMPTY, all[..i]), all[i], n) {
      assert i < |steps| ==> Misses(Run(EMPTY, steps[..i]), steps[i], n);
    }
  }

  lemma {:induction false} CallersOk(steps: seq<Step>, n: nat)
    requires n < |Run(EMPTY, steps).submissions|
    ensures CallerOk(Run(EMPTY, steps), n, Missed(steps, n))
    decreases |steps|
  {
    if steps != [] {
      var before, last := steps[..|steps| - 1], steps[|steps| - 1];
      assert steps == before + [last];
      var w := Run(EMPTY, before);
      RunSnoc(EMPTY, before, last);
      MissedSnoc(before, last, n);
      if n < |w.submissions| {
        CallersOk(before, n);
        RunKeeps(EMPTY, before);
        CallerStepKeeps(w, last, Apply(w, last), n, Missed(before, n));
      } else {
        NobodyMissesEarly(before, n);
        RunKeeps(EMPTY, before);
        NewCallerOk(w, last, n);
      }
    }
  }

  lemma NewCallerOk(w: World, step: Step, n: nat)
    requires Inv(w) && |w.submissions| <= n < |Apply(w, step).submissions|
    ensures CallerOk(Apply(w, step), n, false) && !Misses(w, step, n)
  {
  }

  lemma {:induction false} SubmissionsStay(w: World, steps: seq<Step>)
    ensures |w.submissions| <= |Run(w, steps).submissions|
    decreases |steps|
  {
    if steps != [] {
      SubmissionsStay(Apply(w, steps[0]), steps[1..]);
    }
  }

  lemma {:induction false} RunConcat(w: World, a: seq<Step>, b: seq<Step>)
    ensures Run(w, a + b) == Run(Run(w, a), b)
    decreases |a|
  {
    if a == [] {
      assert a + b == b;
    } else {
      assert (a + b)[1..] == a[1..] + b;
      RunConcat(Apply(w, a[0]), a[1..], b);
    }
  }

  lemma NobodyMissesEarly(steps: seq<Step>, n: nat)
    requires |Run(EMPTY, steps).submissions| <= n
    ensures !Missed(steps, n)
  {
    forall i | 0 <= i < |steps| ensures !Misses(Run(EMPTY, steps[..i]), steps[i], n) {
      assert steps == steps[..i] + steps[i..];
      RunConcat(EMPTY, steps[..i], steps[i..]);
      SubmissionsStay(Run(EMPTY, steps[..i]), steps[i..]);
    }
  }

  /** The owner of an accepted row returned, is still waiting, is gone or threw; and once it has returned or thrown,
      it threw exactly if its timeout expired between issuing the mark and being joined, or the mark's report was lost. */
  lemma AcceptedOwnerThrewIffMissed(steps: seq<Step>, slot: Slot)
    requires slot in Run(EMPTY, steps).rows && Run(EMPTY, steps).rows[slot].status.Accepted?
    ensures var w := Run(EMPTY, steps);
            var n := w.rows[slot].id;
            && n < |w.submissions| && w.submissions[n].input.At() == slot
            && var outer := w.submissions[n].outer;
            && !outer.Preparing? && !outer.Claiming?
            && (outer.Returned? || outer.Threw? ==> (outer.Threw? <==> Missed(steps, n)))
            && (outer.Threw? ==> outer.error == TimedOut || outer.error == StoreError)
  {
    RunKeeps(EMPTY, steps);
    assert RowOk(Run(EMPTY, steps), slot);
    CallersOk(steps, Run(EMPTY, steps).rows[slot].id);
  }

  /** The UPDATE a timed-out caller left under way is still carried out: the caller throws, the row says accepted. */
  lemma TimedOutCallerMayStillBeAccepted(i: Input, revision: string)
    ensures var w := Run(EMPTY, [Submit(i), Prepare(0, Some(revision)), ClaimIt(0, true), Respond(0, Some(revision)),
                                 Answer(0, true), IssueMark(0), Expire(0), MarkAccepted(0, Reported), MarkUncertain(0, Reported)]);
            && w.submissions == [Submission(i, revision, Threw(TimedOut), Done)]
            && w.rows == map[i.At() := Row(0, i, revision, Accepted)]
  {
    var steps := AnsweredRun(i, revision);
    RunSnoc(EMPTY, steps, IssueMark(0));               steps := steps + [IssueMark(0)];
    RunSnoc(EMPTY, steps, Expire(0));                  steps := steps + [Expire(0)];
    RunSnoc(EMPTY, steps, MarkAccepted(0, Reported));  steps := steps + [MarkAccepted(0, Reported)];
    RunSnoc(EMPTY, steps, MarkUncertain(0, Reported));     steps := steps + [MarkUncertain(0, Reported)];
    assert steps == [Submit(i), Prepare(0, Some(revision)), ClaimIt(0, true), Respond(0, Some(revision)),
                     Answer(0, true), IssueMark(0), Expire(0), MarkAccepted(0, Reported), MarkUncertain(0, Reported)];
  }

  lemma AnsweredRun(i: Input, revision: string) returns (steps: seq<Step>)
    ensures steps == [Submit(i), Prepare(0, Some(revision)), ClaimIt(0, true), Respond(0, Some(revision)), Answer(0, true)]
    ensures Run(EMPTY, steps) == World(map[i.At() := Row(0, i, revision, Attempted)],
                                       [Submission(i, revision, Waiting, Answered)],
                                       [Dispatch(i.At(), revision, i.decision, 0)], {i.At()})
  {
    steps := [];
    RunSnoc(EMPTY, steps, Submit(i));                   steps := steps + [Submit(i)];
    RunSnoc(EMPTY, steps, Prepare(0, Some(revision)));  steps := steps + [Prepare(0, Some(revision))];
    RunSnoc(EMPTY, steps, ClaimIt(0, true));            steps := steps + [ClaimIt(0, true)];
    assert Run(EMPTY, steps).submissions == [Submission(i, revision, Waiting, Rechecking)];
    RunSnoc(EMPTY, steps, Respond(0, Some(revision)));  steps := steps + [Respond(0, Some(revision))];
    RunSnoc(EMPTY, steps, Answer(0, true));             steps := steps + [Answer(0, true)];
    assert Run(EMPTY, steps).submissions == [Submission(i, revision, Waiting, Answered)];
  }

  lemma {:induction false} RunSnoc(w: World, steps: seq<Step>, last: Step)
    ensures Run(w, steps + [last]) == Apply(Run(w, steps), last)
    decreases |steps|
  {
    if steps != [] {
      RunSnoc(Apply(w, steps[0]), steps[1..], last);
      assert (steps + [last])[1..] == steps[1..] + [last];
    }
  }
}
