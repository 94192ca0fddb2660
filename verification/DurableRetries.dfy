/** What a call is answered: retried, in conflict, or made for the first time
    (agent/lib/durable-delivery.ts:99-189). */
module DurableRetries {
  import opened Wrappers
  import opened DurableDelivery
  import opened DurableRuns
  import opened DurableGuarantees

  // ---------------------------------------------------------------- refused calls

  /** A call is refused only for a receipt that is not its own: other contents, or an answer at another session. */
  lemma RefusedForForeignReceipt(sys: System, steps: seq<Step>, n: nat)
    requires n < |Run(sys, EMPTY, steps).senders| && Run(sys, EMPTY, steps).senders[n].phase.Conflicted?
    ensures var w := Run(sys, EMPTY, steps);
            var i := w.senders[n].intent;
            && i.Input() in w.rows
            && (w.rows[i.Input()].digest != i.Digest() || (i.Answer? && w.rows[i.Input()].session != i.session))
  {
    EmptyInv(sys);
    RunKeeps(sys, EMPTY, steps);
    assert SenderOk(sys, Run(sys, EMPTY, steps).rows, Run(sys, EMPTY, steps).senders[n]);
  }

  // ---------------------------------------------------------------- what an acknowledgment waits for

  /** A running turn only adds aliases. */
  ghost predicate TurnsGrow(sessions: map<string, Session>) {
    forall name | name in sessions && sessions[name].turn.Some? ::
      sessions[name].channel.aliases <= sessions[name].turn.value.channel.aliases
  }

  ghost predicate AliasesGrow(a: map<string, Session>, b: map<string, Session>) {
    forall name | name in a :: name in b && a[name].channel.aliases <= b[name].channel.aliases
  }

  lemma StepGrowsAliases(sys: System, w: World, step: Step)
    requires TurnsGrow(w.sessions)
    ensures TurnsGrow(Apply(sys, w, step).sessions) && AliasesGrow(w.sessions, Apply(sys, w, step).sessions)
  {
    match step
    case Start(name, gate, more) =>
      if CanStart(w, name, gate) {
        DeliveryGrowsAliases(name, w.sessions[name], w.rows, gate);
      }
    case Send(n, target) =>
      if CanSend(w, n, target) {
        SendFrame(sys, w, n, target);
      }
    case Checkpoint(_) | Crash(_) | Discard(_) => EndOfTurnFrame(sys, w, step);
    case Arrive(_) | Acquire(_) | Check(_) | Poll(_) | Abandon(_) => SenderStepFrame(sys, w, step);
    case _ =>
  }

  lemma DeliveryGrowsAliases(name: string, s: Session, rows: map<Key, Receipt>, gate: Gate)
    requires s.queue != []
    ensures s.channel.aliases <= Deliver(name, Some(s.workspace), s.channel, rows, ToPayload(s.queue[0]), gate).1.aliases
  {
  }

  /** Whoever was acknowledged a message can resolve the session it was told. */
  ghost predicate Resolvable(w: World, s: Sender) {
    s.phase.Acked? && s.intent.Message? ==>
      s.phase.session in w.sessions && SessionAlias(s.phase.session) in w.sessions[s.phase.session].channel.aliases
  }

  lemma StepKeepsResolvable(sys: System, w: World, step: Step, n: nat)
    requires n < |Apply(sys, w, step).senders| && AliasesGrow(w.sessions, Apply(sys, w, step).sessions)
    requires n < |w.senders| ==> Resolvable(w, w.senders[n])
    ensures Resolvable(Apply(sys, w, step), Apply(sys, w, step).senders[n])
  {
    if step.Poll? && step.n < |w.senders| {
      AckChanges(w, step.n);
      if step.n == n {
        AckResolves(w, n);
      }
    } else if !step.Poll? {
      OnlyPollsAcknowledgeMessages(sys, w, step, n);
    }
  }

  lemma OnlyPollsAcknowledgeMessages(sys: System, w: World, step: Step, n: nat)
    requires n < |Apply(sys, w, step).senders| && !step.Poll?
    ensures var s' := Apply(sys, w, step).senders[n];
            s'.phase.Acked? && s'.intent.Message? ==> n < |w.senders| && w.senders[n] == s'
  {
  }

  lemma AckResolves(w: World, n: nat)
    requires n < |w.senders| && Resolvable(w, w.senders[n])
    ensures Ack(w, n).sessions == w.sessions && n < |Ack(w, n).senders| && Resolvable(Ack(w, n), Ack(w, n).senders[n])
  {
  }

  /** No message is acknowledged before its session can be found under its alias, in any run. */
  lemma {:induction false} AcknowledgedMessagesResolve(sys: System, w: World, steps: seq<Step>)
    requires TurnsGrow(w.sessions) && forall n | 0 <= n < |w.senders| :: Resolvable(w, w.senders[n])
    ensures var w' := Run(sys, w, steps);
            TurnsGrow(w'.sessions) && forall n | 0 <= n < |w'.senders| :: Resolvable(w', w'.senders[n])
    decreases |steps|
  {
    if steps != [] {
      var x := Apply(sys, w, steps[0]);
      StepGrowsAliases(sys, w, steps[0]);
      forall n | 0 <= n < |x.senders| ensures Resolvable(x, x.senders[n]) {
        StepKeepsResolvable(sys, w, steps[0], n);
      }
      AcknowledgedMessagesResolve(sys, x, steps[1..]);
    }
  }

  /** In every reachable state, an answer is only taken while its question is open to the user; the task then goes to work,
      or waits on for its other questions. */
  lemma AnswersAreTakenWhileAsked(sys: System, w: World, step: Step, key: Key)
    requires Inv(sys, w) && key !in w.rows
    requires var w' := Apply(sys, w, step); key in w'.rows && AnswerDigest(w'.rows[key].digest)
    ensures key in w.tasks && w.tasks[key] == Task(InputRequired, true)
    ensures var w' := Apply(sys, w, step);
            step.Start? && key in w'.tasks && w'.tasks[key] == Task(if step.more then InputRequired else Working, true)
  {
    if !step.Start? {
      RowsStay(sys, w, step);
    } else if CanStart(w, step.session, step.gate) {
      StartOpensTask(sys, w, step.session, step.gate, step.more);
      var s := w.sessions[step.session];
      assert FromIntent(sys, s.workspace, s.queue[0]);
      var i :| i in sys.intents && i.Input() == Key(s.workspace, s.queue[0].id) && i.Digest() == s.queue[0].digest
               && i.Answer? == s.queue[0].gated;
      DigestTellsKind(i);
      assert step.gate.Accepts?;
    }
  }

  // ---------------------------------------------------------------- retried calls

  /** A call that finds its own receipt, and has not been refused or sent anything. */
  ghost predicate Retries(w: World, n: nat) {
    && n < |w.senders|
    && var s := w.senders[n];
    && !s.sent && s.intent.Input() in w.rows && OwnReceipt(s.intent, w.rows[s.intent.Input()])
    && (s.phase.Waiting? || s.phase.Locked? || s.phase.Polling? || s.phase.Abandoned?
        || s.phase == Acked(w.rows[s.intent.Input()].session))
  }

  lemma StartKeepsRetry(sys: System, w: World, step: Step, n: nat)
    requires Retries(w, n) && step.Start?
    ensures Retries(Apply(sys, w, step), n) && Apply(sys, w, step).senders == w.senders
    ensures var key := w.senders[n].intent.Input(); Apply(sys, w, step).rows[key] == w.rows[key]
  {
  }

  lemma StepKeepsRetry(sys: System, w: World, step: Step, n: nat)
    requires Retries(w, n)
    ensures var w' := Apply(sys, w, step);
            && Retries(w', n) && w'.senders[n].intent == w.senders[n].intent
            && w'.rows[w.senders[n].intent.Input()] == w.rows[w.senders[n].intent.Input()]
  {
    if step.Start? {
      StartKeepsRetry(sys, w, step, n);
    } else {
      RowsStay(sys, w, step);
      var moved := StepMovesOneSender(sys, w, step);
      if step.Poll? && step.n == n {
        AckChanges(w, n);
      }
    }
  }

  /** Whatever else happens, a retry sends nothing and is not refused: it waits, polls, gives up, or is acknowledged at
      the session its receipt names. */
  lemma {:induction false} RetryNeverSends(sys: System, w: World, steps: seq<Step>, n: nat)
    requires Retries(w, n)
    ensures var w' := Run(sys, w, steps);
            && Retries(w', n) && w'.senders[n].intent == w.senders[n].intent
            && w'.rows[w.senders[n].intent.Input()] == w.rows[w.senders[n].intent.Input()]
    decreases |steps|
  {
    if steps != [] {
      StepKeepsRetry(sys, w, steps[0], n);
      RetryNeverSends(sys, Apply(sys, w, steps[0]), steps[1..], n);
    }
  }

  lemma HolderGivesUp(sys: System, w: World, m: nat, name: string)
    requires OneHolder(w.senders) && m < |w.senders| && w.senders[m].HoldsLock() && w.senders[m].intent.LockName() == name
    ensures var w' := Apply(sys, w, Abandon(m));
            && w'.rows == w.rows && w'.sessions == w.sessions && LockFree(w'.senders, name)
            && |w'.senders| == |w.senders| && forall k | 0 <= k < |w.senders| && k != m :: w'.senders[k] == w.senders[k]
  {
    var w' := Apply(sys, w, Abandon(m));
    forall k | 0 <= k < |w'.senders| && w'.senders[k].HoldsLock() ensures w'.senders[k].intent.LockName() != name {
      assert k != m;
    }
  }

  lemma FreeLockIsTaken(sys: System, w: World, n: nat)
    requires n < |w.senders| && w.senders[n].phase.Waiting? && LockFree(w.senders, w.senders[n].intent.LockName())
    ensures Apply(sys, w, Acquire(n)) == w.(senders := w.senders[n := w.senders[n].(phase := Locked)])
  {
  }

  /** If whoever holds the lock times out, a waiting call gets it. */
  lemma LockIsFreed(sys: System, w: World, n: nat) returns (steps: seq<Step>)
    requires Inv(sys, w) && n < |w.senders| && w.senders[n].phase.Waiting?
    ensures var w' := Run(sys, w, steps);
            && Inv(sys, w') && w'.rows == w.rows && w'.sessions == w.sessions && n < |w'.senders|
            && w'.senders[n] == w.senders[n].(phase := Locked)
  {
    var name := w.senders[n].intent.LockName();
    if LockFree(w.senders, name) {
      steps := [Acquire(n)];
      RunSnoc(sys, w, [], Acquire(n));
      assert [] + steps == steps;
      FreeLockIsTaken(sys, w, n);
    } else {
      var m :| 0 <= m < |w.senders| && w.senders[m].HoldsLock() && w.senders[m].intent.LockName() == name;
      HolderGivesUp(sys, w, m, name);
      RunSnoc(sys, w, [], Abandon(m));
      assert [] + [Abandon(m)] == [Abandon(m)];
      FreeLockIsTaken(sys, Apply(sys, w, Abandon(m)), n);
      RunSnoc(sys, w, [Abandon(m)], Acquire(n));
      steps := [Abandon(m)] + [Acquire(n)];
    }
    RunKeeps(sys, w, steps);
  }

  /** From every reachable state, a call that has not looked yet and whose input is recorded is answered without sending:
      acknowledged at the receipt's session if the receipt is its own, refused if not. */
  lemma RecordedCallIsAnswered(sys: System, w: World, n: nat) returns (steps: seq<Step>)
    requires Inv(sys, w) && n < |w.senders| && (w.senders[n].phase.Waiting? || w.senders[n].phase.Locked?)
    requires w.senders[n].intent.Input() in w.rows
    ensures var i := w.senders[n].intent;
            var r := w.rows[i.Input()];
            var w' := Run(sys, w, steps);
            n < |w'.senders| && w'.senders[n] == Sender(i, if OwnReceipt(i, r) then Acked(r.session) else Conflicted, false)
  {
    if w.senders[n].phase.Waiting? {
      var first := LockIsFreed(sys, w, n);
      var rest := LockedCallIsAnswered(sys, Run(sys, w, first), n);
      RunConcat(sys, w, first, rest);
      steps := first + rest;
    } else {
      steps := LockedCallIsAnswered(sys, w, n);
    }
  }

  lemma LockedCallIsAnswered(sys: System, w: World, n: nat) returns (steps: seq<Step>)
    requires Inv(sys, w) && n < |w.senders| && w.senders[n].phase.Locked?
    requires w.senders[n].intent.Input() in w.rows
    ensures var i := w.senders[n].intent;
            var r := w.rows[i.Input()];
            var w' := Run(sys, w, steps);
            n < |w'.senders| && w'.senders[n] == Sender(i, if OwnReceipt(i, r) then Acked(r.session) else Conflicted, false)
  {
    var i := w.senders[n].intent;
    assert SenderOk(sys, w.rows, w.senders[n]);
    if i.Message? && OwnReceipt(i, w.rows[i.Input()]) {
      MessageIsNoAnswer(sys, i, w.rows[i.Input()]);
      var first := RecordedInputCanBeCheckpointed(sys, w, i.Input());
      CheckpointedIsAcknowledged(sys, Run(sys, w, first), n);
      RunConcat(sys, w, first, [Check(n), Poll(n)]);
      steps := first + [Check(n), Poll(n)];
    } else {
      steps := [Check(n)];
      RunSnoc(sys, w, [], Check(n));
      assert [] + [Check(n)] == steps;
    }
  }

  lemma MessageIsNoAnswer(sys: System, i: Intent, r: Receipt)
    requires i.Message? && OwnReceipt(i, r)
    ensures !WithdrawableAnswer(sys, i.Input(), r.digest)
  {
    DigestTellsKind(i);
    forall j | j in sys.intents && j.Answer? && j.Input() == i.Input() ensures j.Digest() != r.digest {
      DigestTellsKind(j);
    }
  }

  /** Once its input is checkpointed, the session's alias is visible, and a retried message is acknowledged. */
  lemma CheckpointedIsAcknowledged(sys: System, w: World, n: nat)
    requires Inv(sys, w) && n < |w.senders| && w.senders[n].phase.Locked? && w.senders[n].intent.Message?
    requires var i := w.senders[n].intent;
             && i.Input() in w.rows && OwnReceipt(i, w.rows[i.Input()]) && w.rows[i.Input()].session in w.sessions
             && i.id in w.sessions[w.rows[i.Input()].session].channel.receipts
    ensures var i := w.senders[n].intent;
            var w' := Run(sys, w, [Check(n), Poll(n)]);
            n < |w'.senders| && w'.senders[n] == Sender(i, Acked(w.rows[i.Input()].session), false)
  {
    var name := w.rows[w.senders[n].intent.Input()].session;
    assert SenderOk(sys, w.rows, w.senders[n]);
    RunSnoc(sys, w, [], Check(n));
    assert [] + [Check(n)] == [Check(n)];
    RunKeeps(sys, w, [Check(n)]);
    PollIsAcknowledged(sys, Run(sys, w, [Check(n)]), n, name);
    RunConcat(sys, w, [Check(n)], [Poll(n)]);
    assert [Check(n)] + [Poll(n)] == [Check(n), Poll(n)];
  }

  // ---------------------------------------------------------------- first calls

  /** Taking the head off the queue settles its input, if that was open, for this session, and no other input. */
  lemma HeadIsSettled(sys: System, w: World, name: string)
    requires Inv(sys, w) && name in w.sessions && w.sessions[name].queue != []
    ensures var w' := Run(sys, w, NextSteps(w, name));
            var e := w.sessions[name].queue[0];
            var own := Key(w.sessions[name].workspace, e.id);
            && name in w'.sessions && w'.sessions[name].workspace == w.sessions[name].workspace
            && (forall key | key !in w.rows && key in w'.rows :: key == own)
            && (own !in w.rows && own in w'.rows ==>
                  w'.rows[own].session == name && e.id in w'.sessions[name].channel.receipts)
            && (own !in w.rows && !e.gated ==> own in w'.rows)
  {
    var steps := NextSteps(w, name);
    var crashed := Apply(sys, w, steps[0]);
    RunOfFour(sys, w, steps);
    StepKeeps(sys, w, steps[0]);
    assert SessionInv(sys, crashed.rows, name, crashed.sessions[name]);
    HeadIsDelivered(sys, crashed, name, steps[1].gate);
  }

  lemma HeadIsDelivered(sys: System, w: World, name: string, gate: Gate)
    requires name in w.sessions && SessionInv(sys, w.rows, name, w.sessions[name]) && QueuesOk(sys, w.sessions)
    requires CanStart(w, name, gate) && !gate.Throws?
    ensures var started := Apply(sys, w, Start(name, gate, false));
            var w' := Apply(sys, Apply(sys, started, Checkpoint(name)), Discard(name));
            var e := w.sessions[name].queue[0];
            var own := Key(w.sessions[name].workspace, e.id);
            && name in w'.sessions && w'.sessions[name].workspace == w.sessions[name].workspace
            && (forall key | key !in w.rows && key in w'.rows :: key == own)
            && (own !in w.rows && own in w'.rows ==>
                  w'.rows[own].session == name && e.id in w'.sessions[name].channel.receipts)
            && (own !in w.rows && !e.gated ==> own in w'.rows)
  {
  }

  /** A queued payload without a guard, whose input is not recorded anywhere, ends up recorded at its session, by itself
      or by an earlier payload for the same input. */
  lemma {:induction false} QueuedInputIsRecorded(sys: System, w: World, name: string, e: Envelope) returns (steps: seq<Step>)
    requires Inv(sys, w) && name in w.sessions && e in w.sessions[name].queue && !e.gated
    requires Key(w.sessions[name].workspace, e.id) !in w.rows
    ensures var key := Key(w.sessions[name].workspace, e.id);
            var w' := Run(sys, w, steps);
            && Inv(sys, w') && w'.senders == w.senders && key in w'.rows && w'.rows[key].session == name
            && name in w'.sessions && e.id in w'.sessions[name].channel.receipts
    decreases |w.sessions[name].queue|
  {
    var key := Key(w.sessions[name].workspace, e.id);
    var first := NextSteps(w, name);
    var next := Run(sys, w, first);
    HeadLeaves(sys, w, name);
    HeadIsSettled(sys, w, name);
    if key in next.rows {
      steps := first;
    } else {
      var rest := QueuedInputIsRecorded(sys, next, name, e);
      RunConcat(sys, w, first, rest);
      steps := first + rest;
    }
  }

  /** From every reachable state, a message that has not looked yet and whose input is not recorded is sent, consumed by
      any session of its workspace, or a new one, and acknowledged there. */
  lemma FirstMessageIsAcknowledged(sys: System, w: World, n: nat, target: string) returns (steps: seq<Step>)
    requires Inv(sys, w) && n < |w.senders| && (w.senders[n].phase.Waiting? || w.senders[n].phase.Locked?)
    requires w.senders[n].intent.Message? && w.senders[n].intent.Input() !in w.rows
    requires target in w.sessions ==> w.sessions[target].workspace == w.senders[n].intent.workspace
    ensures var w' := Run(sys, w, steps);
            n < |w'.senders| && w'.senders[n] == Sender(w.senders[n].intent, Acked(target), true)
  {
    if w.senders[n].phase.Waiting? {
      var first := LockIsFreed(sys, w, n);
      var rest := LockedMessageIsAcknowledged(sys, Run(sys, w, first), n, target);
      RunConcat(sys, w, first, rest);
      steps := first + rest;
    } else {
      steps := LockedMessageIsAcknowledged(sys, w, n, target);
    }
  }

  lemma LockedMessageIsAcknowledged(sys: System, w: World, n: nat, target: string) returns (steps: seq<Step>)
    requires Inv(sys, w) && n < |w.senders| && w.senders[n].phase.Locked?
    requires w.senders[n].intent.Message? && w.senders[n].intent.Input() !in w.rows
    requires target in w.sessions ==> w.sessions[target].workspace == w.senders[n].intent.workspace
    ensures var w' := Run(sys, w, steps);
            n < |w'.senders| && w'.senders[n] == Sender(w.senders[n].intent, Acked(target), true)
  {
    var i := w.senders[n].intent;
    var send := [Check(n), Send(n, target)];
    var sent := Run(sys, w, send);
    LockedMessageIsSent(sys, w, n, target);
    RunKeeps(sys, w, send);
    var e := Envelope(i.id, i.Digest(), false);
    var consume := QueuedInputIsRecorded(sys, sent, target, e);
    PollIsAcknowledged(sys, Run(sys, sent, consume), n, target);
    RunConcat(sys, w, send, consume);
    RunConcat(sys, w, send + consume, [Poll(n)]);
    steps := send + consume + [Poll(n)];
  }

  /** A queued answer whose input is not recorded anywhere: with its question open whenever it is looked at, it ends up
      recorded at its session, by itself or by an earlier payload for the same input. */
  lemma {:induction false} QueuedAnswerIsRecorded(sys: System, w: World, name: string, e: Envelope) returns (steps: seq<Step>)
    requires Inv(sys, w) && name in w.sessions && e in w.sessions[name].queue
    requires Key(w.sessions[name].workspace, e.id) !in w.rows
    ensures var key := Key(w.sessions[name].workspace, e.id);
            var w' := Run(sys, w, steps);
            && Inv(sys, w') && w'.senders == w.senders && key in w'.rows && w'.rows[key].session == name
    decreases |w.sessions[name].queue|
  {
    var key := Key(w.sessions[name].workspace, e.id);
    var open := [Steer(key, Task(InputRequired, true))];
    var asked := Run(sys, w, open);
    QuestionIsOpened(sys, w, name, key);
    RunKeeps(sys, w, open);
    var next := Run(sys, asked, NextSteps(asked, name));
    HeadLeaves(sys, asked, name);
    HeadIsSettled(sys, asked, name);
    OpenHeadIsRecorded(sys, asked, name);
    RunConcat(sys, w, open, NextSteps(asked, name));
    steps := open + NextSteps(asked, name);
    if key !in next.rows {
      var rest := QueuedAnswerIsRecorded(sys, next, name, e);
      RunConcat(sys, w, steps, rest);
      steps := steps + rest;
    }
  }

  lemma QuestionIsOpened(sys: System, w: World, name: string, key: Key)
    requires key !in w.rows
    ensures var w' := Run(sys, w, [Steer(key, Task(InputRequired, true))]);
            && w'.rows == w.rows && w'.sessions == w.sessions && w'.senders == w.senders
            && key in w'.tasks && w'.tasks[key] == Task(InputRequired, true)
  {
    RunSnoc(sys, w, [], Steer(key, Task(InputRequired, true)));
    assert [] + [Steer(key, Task(InputRequired, true))] == [Steer(key, Task(InputRequired, true))];
  }

  /** A head whose question is open is consumed, if its input is not recorded. */
  lemma OpenHeadIsRecorded(sys: System, w: World, name: string)
    requires Inv(sys, w) && name in w.sessions && w.sessions[name].queue != []
    ensures var own := Key(w.sessions[name].workspace, w.sessions[name].queue[0].id);
            own !in w.rows && own in w.tasks && w.tasks[own] == Task(InputRequired, true) ==>
              own in Run(sys, w, NextSteps(w, name)).rows
  {
    var steps := NextSteps(w, name);
    RunOfFour(sys, w, steps);
    StepKeeps(sys, w, steps[0]);
    var crashed := Apply(sys, w, steps[0]);
    assert SessionInv(sys, crashed.rows, name, crashed.sessions[name]);
    TurnEndsKeepRows(sys, Apply(sys, crashed, steps[1]), name);
  }

  lemma TurnEndsKeepRows(sys: System, w: World, name: string)
    ensures Apply(sys, Apply(sys, w, Checkpoint(name)), Discard(name)).rows == w.rows
  {
  }

  /** From every reachable state, an answer that has not looked yet and whose input is not recorded can be sent and
      recorded at its session; it is acknowledged if what was recorded is its own, refused if an earlier answer came first. */
  lemma FirstAnswerIsSettled(sys: System, w: World, n: nat) returns (steps: seq<Step>)
    requires Inv(sys, w) && n < |w.senders| && (w.senders[n].phase.Waiting? || w.senders[n].phase.Locked?)
    requires w.senders[n].intent.Answer? && w.senders[n].intent.Input() !in w.rows
    requires var i := w.senders[n].intent; i.session in w.sessions ==> w.sessions[i.session].workspace == i.workspace
    ensures var i := w.senders[n].intent;
            var w' := Run(sys, w, steps);
            && n < |w'.senders| && i.Input() in w'.rows && w'.rows[i.Input()].session == i.session
            && w'.senders[n] == Sender(i, if OwnReceipt(i, w'.rows[i.Input()]) then Acked(i.session) else Conflicted, true)
  {
    if w.senders[n].phase.Waiting? {
      var first := LockIsFreed(sys, w, n);
      var rest := LockedAnswerIsSettled(sys, Run(sys, w, first), n);
      RunConcat(sys, w, first, rest);
      steps := first + rest;
    } else {
      steps := LockedAnswerIsSettled(sys, w, n);
    }
  }

  lemma LockedAnswerIsSettled(sys: System, w: World, n: nat) returns (steps: seq<Step>)
    requires Inv(sys, w) && n < |w.senders| && w.senders[n].phase.Locked?
    requires w.senders[n].intent.Answer? && w.senders[n].intent.Input() !in w.rows
    requires var i := w.senders[n].intent; i.session in w.sessions ==> w.sessions[i.session].workspace == i.workspace
    ensures var i := w.senders[n].intent;
            var w' := Run(sys, w, steps);
            && n < |w'.senders| && i.Input() in w'.rows && w'.rows[i.Input()].session == i.session
            && w'.senders[n] == Sender(i, if OwnReceipt(i, w'.rows[i.Input()]) then Acked(i.session) else Conflicted, true)
  {
    var i := w.senders[n].intent;
    var send := [Check(n), Send(n, i.session)];
    LockedAnswerIsSent(sys, w, n);
    RunKeeps(sys, w, send);
    var sent := Run(sys, w, send);
    var record := QueuedAnswerIsRecorded(sys, sent, i.session, Envelope(i.id, i.Digest(), true));
    AnswerPollIsSettled(sys, Run(sys, sent, record), n);
    RunConcat(sys, w, send, record);
    RunConcat(sys, w, send + record, [Poll(n)]);
    steps := send + record + [Poll(n)];
  }

  lemma AnswerPollIsSettled(sys: System, w: World, n: nat)
    requires n < |w.senders| && w.senders[n].phase.Polling? && w.senders[n].intent.Answer?
    requires w.senders[n].intent.Input() in w.rows
    ensures var i := w.senders[n].intent;
            var w' := Run(sys, w, [Poll(n)]);
            && w'.rows == w.rows && n < |w'.senders|
            && w'.senders[n] == w.senders[n].(phase := if OwnReceipt(i, w.rows[i.Input()]) then Acked(i.session) else Conflicted)
  {
    RunSnoc(sys, w, [], Poll(n));
    assert [] + [Poll(n)] == [Poll(n)];
  }

  lemma LockedAnswerIsSent(sys: System, w: World, n: nat)
    requires Inv(sys, w) && n < |w.senders| && w.senders[n].phase.Locked?
    requires w.senders[n].intent.Answer? && w.senders[n].intent.Input() !in w.rows
    requires var i := w.senders[n].intent; i.session in w.sessions ==> w.sessions[i.session].workspace == i.workspace
    ensures var i := w.senders[n].intent;
            var w' := Run(sys, w, [Check(n), Send(n, i.session)]);
            && w'.rows == w.rows && n < |w'.senders| && w'.senders[n] == Sender(i, Polling, true)
            && i.session in w'.sessions && w'.sessions[i.session].workspace == i.workspace
            && Envelope(i.id, i.Digest(), true) in w'.sessions[i.session].queue
  {
    var i := w.senders[n].intent;
    RunSnoc(sys, w, [], Check(n));
    assert [] + [Check(n)] == [Check(n)];
    RunSnoc(sys, w, [Check(n)], Send(n, i.session));
    assert [Check(n)] + [Send(n, i.session)] == [Check(n), Send(n, i.session)];
  }

  lemma PollIsAcknowledged(sys: System, w: World, n: nat, name: string)
    requires Inv(sys, w) && n < |w.senders| && w.senders[n].phase.Polling? && w.senders[n].intent.Message?
    requires var i := w.senders[n].intent;
             && i.Input() in w.rows && w.rows[i.Input()].session == name
             && name in w.sessions && i.id in w.sessions[name].channel.receipts
    ensures var w' := Run(sys, w, [Poll(n)]);
            n < |w'.senders| && w'.senders[n] == w.senders[n].(phase := Acked(name))
  {
    assert SessionInv(sys, w.rows, name, w.sessions[name]);
    RunSnoc(sys, w, [], Poll(n));
    assert [] + [Poll(n)] == [Poll(n)];
  }

  lemma LockedMessageIsSent(sys: System, w: World, n: nat, target: string)
    requires Inv(sys, w) && n < |w.senders| && w.senders[n].phase.Locked?
    requires w.senders[n].intent.Message? && w.senders[n].intent.Input() !in w.rows
    requires target in w.sessions ==> w.sessions[target].workspace == w.senders[n].intent.workspace
    ensures var i := w.senders[n].intent;
            var w' := Run(sys, w, [Check(n), Send(n, target)]);
            && w'.rows == w.rows && n < |w'.senders| && w'.senders[n] == Sender(i, Polling, true)
            && target in w'.sessions && w'.sessions[target].workspace == i.workspace
            && Envelope(i.id, i.Digest(), false) in w'.sessions[target].queue
  {
    assert SenderOk(sys, w.rows, w.senders[n]);
    RunSnoc(sys, w, [], Check(n));
    assert [] + [Check(n)] == [Check(n)];
    RunSnoc(sys, w, [Check(n)], Send(n, target));
    assert [Check(n)] + [Send(n, target)] == [Check(n), Send(n, target)];
  }
}
