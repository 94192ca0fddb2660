/** What durable delivery promises over every run, and exactly when it does
    (agent/lib/durable-delivery.ts:39-189). */
module DurableGuarantees {
  import opened Wrappers
  import opened DurableDelivery
  import opened DurableRuns

  // ---------------------------------------------------------------- consumed at most once

  /** Over all sessions of a workspace together, an input occurs at most once in checkpointed history. */
  ghost predicate ConsumedAtMostOnce(w: World) {
    forall a, b, i, j ::
      && a in w.sessions && b in w.sessions && w.sessions[a].workspace == w.sessions[b].workspace
      && 0 <= i < |w.sessions[a].history| && 0 <= j < |w.sessions[b].history|
      && w.sessions[a].history[i].id == w.sessions[b].history[j].id
      ==> a == b && i == j
  }

  lemma InputsConsumedAtMostOnce(sys: System, steps: seq<Step>)
    ensures ConsumedAtMostOnce(Run(sys, EMPTY, steps))
  {
    EmptyInv(sys);
    RunKeeps(sys, EMPTY, steps);
    var w := Run(sys, EMPTY, steps);
    forall a, b, i, j |
      && a in w.sessions && b in w.sessions && w.sessions[a].workspace == w.sessions[b].workspace
      && 0 <= i < |w.sessions[a].history| && 0 <= j < |w.sessions[b].history|
      && w.sessions[a].history[i].id == w.sessions[b].history[j].id
      ensures a == b && i == j
    {
      assert SessionInv(sys, w.rows, a, w.sessions[a]) && SessionInv(sys, w.rows, b, w.sessions[b]);
    }
  }

  // ---------------------------------------------------------------- acknowledged inputs are never lost

  /** Every acknowledged input is checkpointed at the session its receipt names, or still queued there. */
  ghost predicate AcksKept(w: World) {
    forall n | 0 <= n < |w.senders| && w.senders[n].phase.Acked? ::
      w.senders[n].intent.Input() in w.rows && Kept(w.rows, w.sessions, w.senders[n].intent.Input())
  }

  /** Some answer's task may end, or lose its permission, after the answer is recorded and before it is checkpointed. */
  ghost predicate SomeWithdrawableAnswer(sys: System) {
    exists i | i in sys.intents :: i.Answer? && i.workspace != "" && i.Input() in sys.withdrawable
  }

  lemma AcknowledgedInputsAreKept(sys: System, steps: seq<Step>)
    requires !SomeWithdrawableAnswer(sys)
    ensures AcksKept(Run(sys, EMPTY, steps))
  {
    EmptyInv(sys);
    RunKeeps(sys, EMPTY, steps);
    var w := Run(sys, EMPTY, steps);
    forall n | 0 <= n < |w.senders| && w.senders[n].phase.Acked?
      ensures w.senders[n].intent.Input() in w.rows && Kept(w.rows, w.sessions, w.senders[n].intent.Input())
    {
      assert SenderOk(sys, w.rows, w.senders[n]);
    }
  }

  lemma AnswerIsSent(sys: System, i: Intent) returns (steps: seq<Step>)
    requires i in sys.intents && i.Answer? && i.workspace != ""
    ensures var sent := Run(sys, EMPTY, steps);
            && sent.rows == map[] && sent.tasks == map[] && sent.senders == [Sender(i, Polling, true)]
            && sent.sessions == map[i.session := Session(i.workspace,
                 Channel(map[], Some(SessionAlias(i.session)), {SessionAlias(i.session)}),
                 [Envelope(i.id, i.Digest(), true)], [], None)]
  {
    steps := [];
    RunSnoc(sys, EMPTY, steps, Arrive(i));          steps := steps + [Arrive(i)];
    RunSnoc(sys, EMPTY, steps, Acquire(0));         steps := steps + [Acquire(0)];
    RunSnoc(sys, EMPTY, steps, Check(0));           steps := steps + [Check(0)];
    RunSnoc(sys, EMPTY, steps, Send(0, i.session)); steps := steps + [Send(0, i.session)];
    assert Run(sys, EMPTY, steps).senders == [Sender(i, Polling, true)];
  }

  /** The question is open and the answer is consumed and acknowledged, on its SQL row alone. */
  lemma AnswerIsAcknowledged(sys: System, i: Intent) returns (steps: seq<Step>)
    requires i in sys.intents && i.Answer? && i.workspace != "" && i.Input() in sys.withdrawable
    ensures var acked := Run(sys, EMPTY, steps);
            && acked.senders == [Sender(i, Acked(i.session), true)] && i.session in acked.sessions
            && acked.rows == map[i.Input() := Receipt(i.session, i.Digest())]
            && acked.tasks == map[i.Input() := Task(Working, true)]
            && acked.sessions[i.session].channel.receipts == map[] && acked.sessions[i.session].workspace == i.workspace
            && acked.sessions[i.session].queue == [Envelope(i.id, i.Digest(), true)]
            && acked.sessions[i.session].channel.token.Some?
  {
    var s := i.session;
    var open := Steer(i.Input(), Task(InputRequired, true));
    steps := AnswerIsSent(sys, i);
    RunSnoc(sys, EMPTY, steps, open);                      steps := steps + [open];
    RunSnoc(sys, EMPTY, steps, Start(s, Accepts, false));  steps := steps + [Start(s, Accepts, false)];
    RunSnoc(sys, EMPTY, steps, Poll(0));                   steps := steps + [Poll(0)];
    assert Run(sys, EMPTY, steps).senders == [Sender(i, Acked(s), true)];
  }

  /** Then a crash comes before the checkpoint, and the task has ended when the replay is checked: the answer is gone. */
  lemma WithdrawnAnswerIsLost(sys: System, i: Intent) returns (steps: seq<Step>)
    requires i in sys.intents && i.Answer? && i.workspace != "" && i.Input() in sys.withdrawable
    ensures !AcksKept(Run(sys, EMPTY, steps))
  {
    var first := AnswerIsAcknowledged(sys, i);
    var acked := Run(sys, EMPTY, first);
    var rest := [Crash(i.session), Steer(i.Input(), Task(OtherState, true)), Start(i.session, Refuses, false), Checkpoint(i.session)];
    RunConcat(sys, EMPTY, first, rest);
    RunOfFour(sys, acked, rest);
    ReplayIsRefused(sys, acked, i);
    steps := first + rest;
    assert Run(sys, EMPTY, steps).senders[0].phase.Acked?;
  }

  lemma ReplayIsRefused(sys: System, w: World, i: Intent)
    requires i.Answer? && i.Input() in sys.withdrawable && i.session in w.sessions
    requires w.rows == map[i.Input() := Receipt(i.session, i.Digest())]
    requires w.sessions[i.session].queue == [Envelope(i.id, i.Digest(), true)]
    requires w.sessions[i.session].channel.receipts == map[] && w.sessions[i.session].workspace == i.workspace
    ensures var crashed := Apply(sys, w, Crash(i.session));
            var ended := Apply(sys, crashed, Steer(i.Input(), Task(OtherState, true)));
            var lost := Apply(sys, Apply(sys, ended, Start(i.session, Refuses, false)), Checkpoint(i.session));
            && lost.rows == w.rows && lost.senders == w.senders && !Kept(lost.rows, lost.sessions, i.Input())
  {
    var crashed := Apply(sys, w, Crash(i.session));
    var ended := Apply(sys, crashed, Steer(i.Input(), Task(OtherState, true)));
    var refused := Apply(sys, ended, Start(i.session, Refuses, false));
    assert refused.sessions[i.session].turn.value.outcome.Skipped?;
    var lost := Apply(sys, refused, Checkpoint(i.session));
    assert lost.sessions[i.session].queue == [];
  }

  /** Acknowledged inputs survive every run exactly when every answer's task stays open - waiting for input or at work,
      and permitted - from the recording of the answer to its checkpoint. */
  lemma AcksKeptIffNoAnswerWithdrawable(sys: System)
    ensures (forall steps :: AcksKept(Run(sys, EMPTY, steps))) <==> !SomeWithdrawableAnswer(sys)
  {
    if SomeWithdrawableAnswer(sys) {
      var i :| i in sys.intents && i.Answer? && i.workspace != "" && i.Input() in sys.withdrawable;
      var steps := WithdrawnAnswerIsLost(sys, i);
    } else {
      forall steps ensures AcksKept(Run(sys, EMPTY, steps)) {
        AcknowledgedInputsAreKept(sys, steps);
      }
    }
  }

  // ---------------------------------------------------------------- which contents an acknowledgment vouches for

  /** Whoever was acknowledged sent the contents the receipt records. */
  ghost predicate AcksMatchContents(w: World) {
    forall n | 0 <= n < |w.senders| && w.senders[n].phase.Acked? ::
      w.senders[n].intent.Input() in w.rows && w.rows[w.senders[n].intent.Input()].digest == w.senders[n].intent.Digest()
  }

  ghost predicate ConflictsWithMessage(sys: System, m: Intent, i: Intent) {
    m in sys.intents && i in sys.intents && m.Message? && m.workspace != "" && m.Input() == i.Input() && m.Digest() != i.Digest()
  }

  lemma AgreeingContentsAreVouched(sys: System, steps: seq<Step>)
    requires forall m, i :: !ConflictsWithMessage(sys, m, i)
    ensures AcksMatchContents(Run(sys, EMPTY, steps))
  {
    EmptyInv(sys);
    RunKeeps(sys, EMPTY, steps);
    var w := Run(sys, EMPTY, steps);
    forall n | 0 <= n < |w.senders| && w.senders[n].phase.Acked?
      ensures w.senders[n].intent.Input() in w.rows && w.rows[w.senders[n].intent.Input()].digest == w.senders[n].intent.Digest()
    {
      var m := w.senders[n].intent;
      assert SenderOk(sys, w.rows, w.senders[n]);
      var i :| i in sys.intents && i.Input() == m.Input() && i.Digest() == w.rows[m.Input()].digest;
      assert !ConflictsWithMessage(sys, m, i);
    }
  }

  /** A session that so far only holds one parked payload. */
  function ParkedSession(i: Intent, s: string, queue: seq<Envelope>): Session {
    var address := if i.Message? then i.address else SessionAlias(s);
    Session(i.workspace, Channel(map[], Some(address), {address}), queue, [], None)
  }

  /** A call that times out after its send leaves its payload parked. */
  lemma TimedOutSendParks(sys: System, i: Intent, s: string)
    requires i in sys.intents && i.workspace != "" && (i.Answer? ==> s == i.session)
    ensures Run(sys, EMPTY, [Arrive(i), Acquire(0), Check(0), Send(0, s), Abandon(0)])
         == World(map[], map[s := ParkedSession(i, s, [Envelope(i.id, i.Digest(), i.Answer?)])], [Sender(i, Abandoned, true)], map[])
  {
    var steps := [];
    RunSnoc(sys, EMPTY, steps, Arrive(i));   steps := steps + [Arrive(i)];
    RunSnoc(sys, EMPTY, steps, Acquire(0));  steps := steps + [Acquire(0)];
    RunSnoc(sys, EMPTY, steps, Check(0));    steps := steps + [Check(0)];
    RunSnoc(sys, EMPTY, steps, Send(0, s));  steps := steps + [Send(0, s)];
    assert Run(sys, EMPTY, steps).senders == [Sender(i, Polling, true)];
    RunSnoc(sys, EMPTY, steps, Abandon(0));  steps := steps + [Abandon(0)];
    assert steps == [Arrive(i), Acquire(0), Check(0), Send(0, s), Abandon(0)];
  }

  /** A second call for the same input finds no receipt, sends too, and polls. */
  lemma SecondCallPolls(sys: System, w: World, m: Intent, i: Intent, s: string)
    requires ConflictsWithMessage(sys, m, i)
    requires w == World(map[], map[s := ParkedSession(i, s, [Envelope(i.id, i.Digest(), i.Answer?)])], [Sender(i, Abandoned, true)], map[])
    ensures Run(sys, w, [Arrive(m), Acquire(1), Check(1), Send(1, s)])
         == World(map[],
                  map[s := ParkedSession(i, s, [Envelope(i.id, i.Digest(), i.Answer?), Envelope(m.id, m.Digest(), false)])],
                  [Sender(i, Abandoned, true), Sender(m, Polling, true)], map[])
  {
    var steps := [];
    RunSnoc(sys, w, steps, Arrive(m));   steps := steps + [Arrive(m)];
    RunSnoc(sys, w, steps, Acquire(1));  steps := steps + [Acquire(1)];
    RunSnoc(sys, w, steps, Check(1));    steps := steps + [Check(1)];
    assert Run(sys, w, steps).senders == [Sender(i, Abandoned, true), Sender(m, Sending, false)];
    RunSnoc(sys, w, steps, Send(1, s));  steps := steps + [Send(1, s)];
    assert steps == [Arrive(m), Acquire(1), Check(1), Send(1, s)];
    assert [Envelope(i.id, i.Digest(), i.Answer?)] + [Envelope(m.id, m.Digest(), false)]
        == [Envelope(i.id, i.Digest(), i.Answer?), Envelope(m.id, m.Digest(), false)];
  }

  /** The first payload is consumed and checkpointed. */
  lemma ParkedIsConsumed(sys: System, w: World, m: Intent, i: Intent, s: string)
    requires ConflictsWithMessage(sys, m, i)
    requires w.rows == map[] && w.senders == [Sender(i, Abandoned, true), Sender(m, Polling, true)]
    requires w.sessions
          == map[s := ParkedSession(i, s, [Envelope(i.id, i.Digest(), i.Answer?), Envelope(m.id, m.Digest(), false)])]
    ensures var gate := if i.Answer? then Accepts else NoGate;
            var w' := Run(sys, w, [Steer(i.Input(), Task(InputRequired, true)), Start(s, gate, false), Checkpoint(s)]);
            && w'.rows == map[i.Input() := Receipt(s, i.Digest())] && w'.senders == w.senders
            && s in w'.sessions && SessionAlias(s) in w'.sessions[s].channel.aliases
  {
    var gate := if i.Answer? then Accepts else NoGate;
    var open := Steer(i.Input(), Task(InputRequired, true));
    var steps := [];
    RunSnoc(sys, w, steps, open);                   steps := steps + [open];
    RunSnoc(sys, w, steps, Start(s, gate, false));  steps := steps + [Start(s, gate, false)];
    assert Run(sys, w, steps).rows == map[i.Input() := Receipt(s, i.Digest())];
    RunSnoc(sys, w, steps, Checkpoint(s));          steps := steps + [Checkpoint(s)];
    assert steps == [open, Start(s, gate, false), Checkpoint(s)];
  }

  /** Then the second caller's poll is answered. */
  lemma PollIsAnswered(sys: System, w: World, m: Intent, i: Intent, s: string)
    requires ConflictsWithMessage(sys, m, i)
    requires w.rows == map[i.Input() := Receipt(s, i.Digest())]
    requires w.senders == [Sender(i, Abandoned, true), Sender(m, Polling, true)]
    requires s in w.sessions && SessionAlias(s) in w.sessions[s].channel.aliases
    ensures !AcksMatchContents(Run(sys, w, [Poll(1)]))
  {
    RunSnoc(sys, w, [], Poll(1));
    assert [] + [Poll(1)] == [Poll(1)];
    assert Run(sys, w, [Poll(1)]).senders[1] == Sender(m, Acked(s), true);
  }

  /** `i` times out with its payload parked; `m`, polling for its own, is acknowledged on `i`'s receipt. */
  lemma PollingAcceptsForeignContents(sys: System, m: Intent, i: Intent) returns (steps: seq<Step>)
    requires ConflictsWithMessage(sys, m, i)
    ensures !AcksMatchContents(Run(sys, EMPTY, steps))
  {
    var s := if i.Answer? then i.session else "";
    var gate := if i.Answer? then Accepts else NoGate;
    var a := [Arrive(i), Acquire(0), Check(0), Send(0, s), Abandon(0)];
    var b := [Arrive(m), Acquire(1), Check(1), Send(1, s)];
    var c := [Steer(i.Input(), Task(InputRequired, true)), Start(s, gate, false), Checkpoint(s)];
    TimedOutSendParks(sys, i, s);
    SecondCallPolls(sys, Run(sys, EMPTY, a), m, i, s);
    ParkedIsConsumed(sys, Run(sys, Run(sys, EMPTY, a), b), m, i, s);
    PollIsAnswered(sys, Run(sys, Run(sys, Run(sys, EMPTY, a), b), c), m, i, s);
    RunConcat(sys, EMPTY, a, b);
    RunConcat(sys, EMPTY, a + b, c);
    RunConcat(sys, EMPTY, a + b + c, [Poll(1)]);
    steps := a + b + c + [Poll(1)];
  }

  /** The polling loop does not look at the digest again, so an acknowledgment vouches for the caller's
      contents in every run exactly when no message shares its input with other contents. */
  lemma AcksMatchContentsIffNoConflict(sys: System)
    ensures (forall steps :: AcksMatchContents(Run(sys, EMPTY, steps)))
       <==> (forall m, i :: !ConflictsWithMessage(sys, m, i))
  {
    if m, i :| ConflictsWithMessage(sys, m, i) {
      var steps := PollingAcceptsForeignContents(sys, m, i);
    } else {
      forall steps ensures AcksMatchContents(Run(sys, EMPTY, steps)) {
        AgreeingContentsAreVouched(sys, steps);
      }
    }
  }

  /** Answers do look again: whatever else is in flight, an acknowledged answer is the recorded one, at its session. */
  lemma AnswersMatchAlways(sys: System, steps: seq<Step>, n: nat)
    requires n < |Run(sys, EMPTY, steps).senders|
    requires Run(sys, EMPTY, steps).senders[n].intent.Answer? && Run(sys, EMPTY, steps).senders[n].phase.Acked?
    ensures var w := Run(sys, EMPTY, steps);
            var i := w.senders[n].intent;
            && i.Input() in w.rows && w.rows[i.Input()] == Receipt(i.session, i.Digest())
            && w.senders[n].phase.session == i.session
  {
    EmptyInv(sys);
    RunKeeps(sys, EMPTY, steps);
    assert SenderOk(sys, Run(sys, EMPTY, steps).rows, Run(sys, EMPTY, steps).senders[n]);
  }

  // ---------------------------------------------------------------- the lock

  /** Two calls for one input under one lock both reach the transport only if one of them gave up. */
  lemma SecondSendFollowsAbandon(sys: System, steps: seq<Step>, m: nat, n: nat)
    requires m < |Run(sys, EMPTY, steps).senders| && n < |Run(sys, EMPTY, steps).senders| && m != n
    requires var senders := Run(sys, EMPTY, steps).senders;
             SameLane(senders[m], senders[n]) && senders[m].sent && senders[n].sent
    ensures var senders := Run(sys, EMPTY, steps).senders;
            senders[m].phase.Abandoned? || senders[n].phase.Abandoned?
  {
    EmptyInv(sys);
    RunKeeps(sys, EMPTY, steps);
  }

  // ---------------------------------------------------------------- progress

  /** The steps that give up the running turn and run the queue's head once, as its guard decides. */
  function NextSteps(w: World, name: string): seq<Step>
    requires name in w.sessions && w.sessions[name].queue != []
  {
    var s := w.sessions[name];
    var gate := if !s.queue[0].gated then NoGate else if Admits(w, name, s) then Accepts else Refuses;
    [Crash(name), Start(name, gate, false), Checkpoint(name), Discard(name)]
  }

  /** Those steps take the head off the queue. */
  lemma HeadLeaves(sys: System, w: World, name: string)
    requires Inv(sys, w) && name in w.sessions && w.sessions[name].queue != []
    ensures var w' := Run(sys, w, NextSteps(w, name));
            && Inv(sys, w') && name in w'.sessions && w'.senders == w.senders
            && w'.sessions[name].queue == w.sessions[name].queue[1..]
            && (forall k | k in w.rows :: k in w'.rows && w'.rows[k] == w.rows[k])
  {
    var steps := NextSteps(w, name);
    RunKeeps(sys, w, steps);
    var crashed := Apply(sys, w, steps[0]);
    RunOfFour(sys, w, steps);
    StepKeeps(sys, w, steps[0]);
    HeadStarts(sys, crashed, name, steps[1].gate);
    TurnEnds(sys, Apply(sys, crashed, steps[1]), name);
  }

  /** The head's turn ends in consumption, in skipping, or in a conflict. */
  lemma HeadStarts(sys: System, w: World, name: string, gate: Gate)
    requires Inv(sys, w) && CanStart(w, name, gate) && !gate.Throws?
    ensures var w' := Apply(sys, w, Start(name, gate, false));
            && name in w'.sessions && w'.sessions[name].queue == w.sessions[name].queue && w'.sessions[name].turn.Some?
            && w'.senders == w.senders
            && (var o := w'.sessions[name].turn.value.outcome;
                o.Failed? ==> o.failure == ConflictingReplay || o.failure == ConflictingReceipt)
            && (forall k | k in w.rows :: k in w'.rows && w'.rows[k] == w.rows[k])
  {
    assert SessionInv(sys, w.rows, name, w.sessions[name]);
    StartOpensTask(sys, w, name, gate, false);
    WillingTurn(name, w.sessions[name], w.rows, gate);
  }

  /** Without a throwing gate, a session with an address and a workspace can only fail on a conflict. */
  lemma WillingTurn(name: string, s: Session, rows: map<Key, Receipt>, gate: Gate)
    requires s.queue != [] && s.workspace != "" && s.channel.token.Some? && !gate.Throws?
    ensures var o := Deliver(name, Some(s.workspace), s.channel, rows, ToPayload(s.queue[0]), gate).0;
            o.Failed? ==> o.failure == ConflictingReplay || o.failure == ConflictingReceipt
  {
  }

  lemma RunOfFour(sys: System, w: World, steps: seq<Step>)
    requires |steps| == 4
    ensures Run(sys, w, steps) == Apply(sys, Apply(sys, Apply(sys, Apply(sys, w, steps[0]), steps[1]), steps[2]), steps[3])
  {
    RunSnoc(sys, w, [], steps[0]);
    RunSnoc(sys, w, [steps[0]], steps[1]);
    RunSnoc(sys, w, [steps[0], steps[1]], steps[2]);
    RunSnoc(sys, w, [steps[0], steps[1], steps[2]], steps[3]);
    assert [steps[0], steps[1], steps[2]] + [steps[3]] == steps;
    assert [] + [steps[0]] == [steps[0]];
  }

  /** A turn that consumed or skipped is checkpointed; one that met a conflict is discarded. */
  lemma TurnEnds(sys: System, w: World, name: string)
    requires name in w.sessions && w.sessions[name].queue != [] && w.sessions[name].turn.Some?
    requires var o := w.sessions[name].turn.value.outcome;
             o.Failed? ==> o.failure == ConflictingReplay || o.failure == ConflictingReceipt
    ensures var w' := Apply(sys, Apply(sys, w, Checkpoint(name)), Discard(name));
            && w'.rows == w.rows && w'.senders == w.senders
            && name in w'.sessions && w'.sessions[name].queue == w.sessions[name].queue[1..]
  {
  }

  /** From any reachable state, an input whose receipt is stored can be driven to a checkpoint by its own session. */
  lemma {:induction false} RecordedInputCanBeCheckpointed(sys: System, w: World, key: Key) returns (steps: seq<Step>)
    requires Inv(sys, w) && key in w.rows && !WithdrawableAnswer(sys, key, w.rows[key].digest)
    ensures var w' := Run(sys, w, steps);
            && Inv(sys, w') && w'.senders == w.senders
            && key in w'.rows && w'.rows[key] == w.rows[key]
            && w.rows[key].session in w'.sessions
            && key.input in w'.sessions[w.rows[key].session].channel.receipts
    decreases if w.rows[key].session in w.sessions then |w.sessions[w.rows[key].session].queue| else 0
  {
    var name := w.rows[key].session;
    assert Kept(w.rows, w.sessions, key);
    if key.input in w.sessions[name].channel.receipts {
      steps := [];
    } else {
      HeadLeaves(sys, w, name);
      var first := NextSteps(w, name);
      var rest := RecordedInputCanBeCheckpointed(sys, Run(sys, w, first), key);
      RunConcat(sys, w, first, rest);
      steps := first + rest;
    }
  }
}
