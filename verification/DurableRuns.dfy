/** Whole runs of durable delivery: senders that retry and time out, sessions that crash
    (agent/lib/durable-delivery.ts:72-189). Every interleaving of the atomic steps below is a run. */
module DurableRuns {
  import opened Wrappers
  import opened DurableDelivery

  /** A call of `sendDurableMessage` or of `respondDurableInput`. */
  datatype Intent =
    | Message(workspace: string, address: string, id: string, contents: string)
    | Answer(workspace: string, session: string, id: string, contents: string)
  {
    /** The two calls hash values of different shapes, so their digests never meet. */
    function Digest(): string { (if Message? then "message:" else "answer:") + contents }

    function Input(): Key { Key(workspace, id) }

    function LockName(): string {
      workspace + ":" + if Message? then address else SessionAlias(session)
    }
  }

  /** A queued payload: its marker and whether its channel consults an `accept` callback. */
  datatype Envelope = Envelope(id: string, digest: string, gated: bool)

  datatype Turn = Turn(outcome: Outcome, channel: Channel)

  /** `channel`, `queue` and `history` are checkpointed; `turn` is lost in a crash. */
  datatype Session = Session(workspace: string, channel: Channel, queue: seq<Envelope>,
                             history: seq<Envelope>, turn: Option<Turn>)

  /** `Late`: timed out, and the lock released, with its send still under way. */
  datatype Phase = Waiting | Locked | Sending | Polling | Acked(session: string) | Conflicted | Abandoned | Late

  datatype Sender = Sender(intent: Intent, phase: Phase, sent: bool)
  {
    predicate HoldsLock() { phase.Locked? || phase.Sending? || phase.Polling? }
  }

  datatype TaskState = InputRequired | Working | OtherState

  /** The task an answer belongs to, as the guard of server/a2a/inputs.ts:116-146 sees it. `permitted` is all it asks
      besides the state: access, the task's context and session, the question's revision, and that no task was begun
      by the same message. */
  datatype Task = Task(state: TaskState, permitted: bool)
  {
    /** A replay of a recorded answer passes. */
    predicate Open() { permitted && !state.OtherState? }
  }

  /** `tasks` holds, for each answer's input, its task. */
  datatype World = World(rows: map<Key, Receipt>, sessions: map<string, Session>, senders: seq<Sender>, tasks: map<Key, Task>)

  /** Which calls may be made, and for which answers the task may end, or its permission be withdrawn, between the
      recording of the answer and the checkpoint of the turn that consumes it. */
  datatype System = System(intents: set<Intent>, withdrawable: set<Key>)

  datatype Step =
    | Arrive(intent: Intent)
    | Acquire(n: nat)
    | Check(n: nat)
    | Send(n: nat, target: string)
    | Poll(n: nat)
    | Abandon(n: nat)
    | Start(session: string, gate: Gate, more: bool)   // `more`: other questions of the task stay open
    | Steer(key: Key, task: Task)                      // anybody else changes a task
    | Checkpoint(session: string)
    | Crash(session: string)
    | Discard(session: string)

  const EMPTY := World(map[], map[], [], map[])

  function ToPayload(e: Envelope): Payload { Payload("", [Marker(e.id, e.digest)]) }

  function SetPhase(w: World, n: nat, phase: Phase): World
    requires n < |w.senders|
  {
    w.(senders := w.senders[n := w.senders[n].(phase := phase)])
  }

  function Enqueue(sessions: map<string, Session>, target: string, i: Intent, e: Envelope): map<string, Session> {
    if target in sessions then
      sessions[target := sessions[target].(queue := sessions[target].queue + [e])]
    else
      var address := if i.Message? then i.address else SessionAlias(target);
      sessions[target := Session(i.workspace, Channel(map[], Some(address), {address}), [e], [], None)]
  }

  predicate CanSend(w: World, n: nat, target: string) {
    && n < |w.senders|
    && (w.senders[n].phase.Sending? || w.senders[n].phase.Late?)
    && (w.senders[n].intent.Answer? ==> target == w.senders[n].intent.session)
    && (target in w.sessions ==> w.sessions[target].workspace == w.senders[n].intent.workspace)
  }

  function Ack(w: World, n: nat): World
    requires n < |w.senders|
  {
    var i := w.senders[n].intent;
    if i.Input() !in w.rows then w
    else
      var r := w.rows[i.Input()];
      if i.Answer? then
        (if r == Receipt(i.session, i.Digest()) then SetPhase(w, n, Acked(i.session)) else SetPhase(w, n, Conflicted))
      else if r.session in w.sessions && SessionAlias(r.session) in w.sessions[r.session].channel.aliases then
        SetPhase(w, n, Acked(r.session))
      else w
  }

  /** The guard of a gated payload at the head of the queue: the question must be open, or be under way for this very
      input, recorded for this session. */
  predicate Admits(w: World, name: string, s: Session)
    requires s.queue != []
  {
    var key := Key(s.workspace, s.queue[0].id);
    && key in w.tasks && w.tasks[key].permitted
    && (w.tasks[key].state.InputRequired?
        || (w.tasks[key].state.Working? && key in w.rows && w.rows[key] == Receipt(name, s.queue[0].digest)))
  }

  /** `accept` runs on gated payloads only, and decides by its guard unless it throws. */
  predicate GateDecides(w: World, name: string, s: Session, gate: Gate)
    requires s.queue != []
  {
    && (gate.NoGate? <==> !s.queue[0].gated)
    && (gate.Accepts? ==> Admits(w, name, s)) && (gate.Refuses? ==> !Admits(w, name, s))
  }

  /** The input's receipt is stored and its session has not checkpointed it. */
  predicate Unsettled(rows: map<Key, Receipt>, sessions: map<string, Session>, key: Key) {
    key in rows && (rows[key].session in sessions ==> key.input !in sessions[rows[key].session].channel.receipts)
  }

  predicate CanStart(w: World, name: string, gate: Gate) {
    && name in w.sessions && w.sessions[name].turn.None? && w.sessions[name].queue != []
    && GateDecides(w, name, w.sessions[name], gate)
  }

  /** Accepting an answer moves its task on, in the transaction that stores the receipt. */
  function Moved(w: World, s: Session, outcome: Outcome, more: bool): map<Key, Task>
    requires s.queue != []
  {
    var key := Key(s.workspace, s.queue[0].id);
    if outcome.Consumed? && s.queue[0].gated && key in w.tasks
    then w.tasks[key := w.tasks[key].(state := if more then InputRequired else Working)]
    else w.tasks
  }

  function Apply(sys: System, w: World, step: Step): World {
    match step
    case Arrive(i) =>
      if i in sys.intents && i.workspace != "" then w.(senders := w.senders + [Sender(i, Waiting, false)]) else w
    case Acquire(n) =>
      if n < |w.senders| && w.senders[n].phase.Waiting?
         && (forall m | 0 <= m < |w.senders| ::
               w.senders[m].HoldsLock() ==> w.senders[m].intent.LockName() != w.senders[n].intent.LockName())
      then SetPhase(w, n, Locked) else w
    case Check(n) =>
      if !(n < |w.senders| && w.senders[n].phase.Locked?) then w
      else
        var i := w.senders[n].intent;
        if i.Input() !in w.rows then SetPhase(w, n, Sending)
        else if i.Answer? then
          SetPhase(w, n, if w.rows[i.Input()] == Receipt(i.session, i.Digest()) then Acked(i.session) else Conflicted)
        else SetPhase(w, n, if w.rows[i.Input()].digest == i.Digest() then Polling else Conflicted)
    case Send(n, target) =>
      if !CanSend(w, n, target) then w
      else
        var i := w.senders[n].intent;
        var next := if w.senders[n].phase.Sending? then Polling else Abandoned;
        w.(senders := w.senders[n := w.senders[n].(phase := next, sent := true)],
           sessions := Enqueue(w.sessions, target, i, Envelope(i.id, i.Digest(), i.Answer?)))
    case Poll(n) =>
      if n < |w.senders| && w.senders[n].phase.Polling? then Ack(w, n) else w
    case Abandon(n) =>
      if n < |w.senders| && (w.senders[n].phase.Waiting? || w.senders[n].HoldsLock())
      then SetPhase(w, n, if w.senders[n].phase.Sending? then Late else Abandoned) else w
    case Start(name, gate, more) =>
      if CanStart(w, name, gate) then
        var s := w.sessions[name];
        var (outcome, channel, rows) :=
          Deliver(name, Some(s.workspace), s.channel, w.rows, ToPayload(s.queue[0]), gate);
        w.(rows := rows, sessions := w.sessions[name := s.(turn := Some(Turn(outcome, channel)))],
           tasks := Moved(w, s, outcome, more))
      else w
    case Steer(key, task) =>
      if key in sys.withdrawable || task.Open() || !Unsettled(w.rows, w.sessions, key) then w.(tasks := w.tasks[key := task])
      else w
    case Checkpoint(name) =>
      if name in w.sessions && w.sessions[name].turn.Some? && w.sessions[name].queue != []
         && !w.sessions[name].turn.value.outcome.Failed?
      then
        var s := w.sessions[name];
        var turn := s.turn.value;
        var done := if turn.outcome.Consumed? then s.history + [s.queue[0]] else s.history;
        w.(sessions := w.sessions[name :=
             s.(channel := turn.channel, queue := s.queue[1..], history := done, turn := None)])
      else w
    case Crash(name) =>
      if name in w.sessions then w.(sessions := w.sessions[name := w.sessions[name].(turn := None)]) else w
    case Discard(name) =>
      if name in w.sessions && w.sessions[name].turn.Some? && w.sessions[name].queue != []
         && (w.sessions[name].turn.value.outcome == Failed(ConflictingReplay)
             || w.sessions[name].turn.value.outcome == Failed(ConflictingReceipt))
      then w.(sessions := w.sessions[name := w.sessions[name].(queue := w.sessions[name].queue[1..], turn := None)])
      else w
  }

  function Run(sys: System, w: World, steps: seq<Step>): World
    decreases |steps|
  {
    if steps == [] then w else Run(sys, Apply(sys, w, steps[0]), steps[1..])
  }

  lemma RunStarts(sys: System, w: World, steps: seq<Step>, next: World, rest: seq<Step>)
    requires steps != [] && next == Apply(sys, w, steps[0]) && rest == steps[1..]
    ensures Run(sys, w, steps) == Run(sys, next, rest)
  {
  }

  lemma ConcatTail<T>(a: seq<T>, b: seq<T>)
    requires a != []
    ensures (a + b)[0] == a[0] && (a + b)[1..] == a[1..] + b
  {
  }

  lemma {:induction false} RunConcat(sys: System, w: World, a: seq<Step>, b: seq<Step>)
    ensures Run(sys, w, a + b) == Run(sys, Run(sys, w, a), b)
    decreases |a|
  {
    if a == [] {
      assert a + b == b;
    } else {
      var next := Apply(sys, w, a[0]);
      RunConcat(sys, next, a[1..], b);
      ConcatTail(a, b);
      RunStarts(sys, w, a + b, next, a[1..] + b);
      RunStarts(sys, w, a, next, a[1..]);
    }
  }

  lemma {:induction false} RunSnoc(sys: System, w: World, steps: seq<Step>, last: Step)
    ensures Run(sys, w, steps + [last]) == Apply(sys, Run(sys, w, steps), last)
    decreases |steps|
  {
    if steps != [] {
      RunSnoc(sys, Apply(sys, w, steps[0]), steps[1..], last);
      assert (steps + [last])[1..] == steps[1..] + [last];
    }
  }

  // ---------------------------------------------------------------- what holds in every reachable state

  ghost predicate Recorded(rows: map<Key, Receipt>, name: string, s: Session) {
    forall id | id in s.channel.receipts ::
      Key(s.workspace, id) in rows && rows[Key(s.workspace, id)] == Receipt(name, s.channel.receipts[id])
  }

  ghost predicate HistoryMatches(s: Session) {
    && (forall i | 0 <= i < |s.history| ::
          s.history[i].id in s.channel.receipts && s.channel.receipts[s.history[i].id] == s.history[i].digest)
    && (forall i, j | 0 <= i < j < |s.history| :: s.history[i].id != s.history[j].id)
    && (forall id | id in s.channel.receipts :: exists i | 0 <= i < |s.history| :: s.history[i].id == id)
  }

  /** The running turn's payload is still the queue's head, and its effect is the one `Deliver` had. */
  ghost predicate TurnMatches(sys: System, rows: map<Key, Receipt>, name: string, s: Session) {
    s.turn.Some? ==>
      && s.queue != []
      && var e := s.queue[0];
      var key := Key(s.workspace, e.id);
      var t := s.turn.value;
      match t.outcome
      case Consumed(_) =>
        && e.id !in s.channel.receipts
        && t.channel.token.Some? && SessionAlias(name) in t.channel.aliases
        && t.channel.receipts == s.channel.receipts[e.id := e.digest]
        && key in rows && rows[key] == Receipt(name, e.digest)
      case Skipped =>
        && t.channel == s.channel
        && (e.id in s.channel.receipts
            || (key in rows && rows[key] == Receipt(name, e.digest) ==> e.gated && key in sys.withdrawable))
      case Failed(_) =>
        (t.outcome == Failed(ConflictingReplay) ==> e.id in s.channel.receipts)
        && (t.outcome == Failed(ConflictingReceipt) ==> key in rows && rows[key] != Receipt(name, e.digest))
      case PassedThrough(_) => false
  }

  ghost predicate SessionInv(sys: System, rows: map<Key, Receipt>, name: string, s: Session) {
    && s.workspace != "" && s.channel.token.Some?
    && (s.channel.receipts != map[] ==> SessionAlias(name) in s.channel.aliases)
    && Recorded(rows, name, s)
    && HistoryMatches(s)
    && TurnMatches(sys, rows, name, s)
  }

  /** A queued payload came from one of the calls. */
  ghost predicate FromIntent(sys: System, workspace: string, e: Envelope) {
    exists i | i in sys.intents :: i.Input() == Key(workspace, e.id) && i.Digest() == e.digest && i.Answer? == e.gated
  }

  ghost predicate Waits(s: Session, id: string, digest: string) {
    exists e | e in s.queue :: e.id == id && e.digest == digest
  }

  /** The receipt's input is checkpointed at the session the receipt names, or still queued there. */
  ghost predicate Kept(rows: map<Key, Receipt>, sessions: map<string, Session>, key: Key)
    requires key in rows
  {
    var r := rows[key];
    && r.session in sessions
    && sessions[r.session].workspace == key.workspace
    && (key.input in sessions[r.session].channel.receipts || Waits(sessions[r.session], key.input, r.digest))
  }

  /** What was recorded is an answer whose task may be withdrawn. */
  ghost predicate WithdrawableAnswer(sys: System, key: Key, digest: string) {
    key in sys.withdrawable && exists i | i in sys.intents :: i.Answer? && i.Input() == key && i.Digest() == digest
  }

  ghost predicate SessionsOk(sys: System, rows: map<Key, Receipt>, sessions: map<string, Session>) {
    forall name | name in sessions :: SessionInv(sys, rows, name, sessions[name])
  }

  ghost predicate QueuesOk(sys: System, sessions: map<string, Session>) {
    forall name, e | name in sessions && e in sessions[name].queue :: FromIntent(sys, sessions[name].workspace, e)
  }

  ghost predicate RowsKept(sys: System, rows: map<Key, Receipt>, sessions: map<string, Session>) {
    forall key | key in rows :: Kept(rows, sessions, key) || WithdrawableAnswer(sys, key, rows[key].digest)
  }

  ghost predicate RowsIntended(sys: System, rows: map<Key, Receipt>) {
    forall key | key in rows :: exists i | i in sys.intents :: i.Input() == key && i.Digest() == rows[key].digest
  }

  predicate AnswerDigest(digest: string) { "answer:" <= digest }

  /** The task of a recorded answer that is not yet checkpointed stays open, unless it may be withdrawn. */
  ghost predicate TasksOk(sys: System, rows: map<Key, Receipt>, sessions: map<string, Session>, tasks: map<Key, Task>) {
    forall key | Unsettled(rows, sessions, key) && AnswerDigest(rows[key].digest) && key !in sys.withdrawable ::
      key in tasks && tasks[key].Open()
  }

  /** The receipt records this very call. */
  predicate OwnReceipt(i: Intent, r: Receipt) { r.digest == i.Digest() && (i.Answer? ==> r.session == i.session) }

  ghost predicate SenderOk(sys: System, rows: map<Key, Receipt>, s: Sender) {
    var key := s.intent.Input();
    && s.intent in sys.intents && s.intent.workspace != ""
    && (s.phase.Acked? ==>
          key in rows && rows[key].session == s.phase.session
          && (s.intent.Answer? ==> rows[key] == Receipt(s.intent.session, s.intent.Digest())))
    && (s.phase.Conflicted? ==> key in rows && !OwnReceipt(s.intent, rows[key]))
    && (s.phase.Polling? && !s.sent ==> key in rows && OwnReceipt(s.intent, rows[key]))
    && (s.sent ==> s.phase.Polling? || s.phase.Acked? || s.phase.Conflicted? || s.phase.Abandoned?)
  }

  ghost predicate SendersOk(sys: System, rows: map<Key, Receipt>, senders: seq<Sender>) {
    forall n | 0 <= n < |senders| :: SenderOk(sys, rows, senders[n])
  }

  ghost predicate SameLane(a: Sender, b: Sender) {
    a.intent.LockName() == b.intent.LockName() && a.intent.Input() == b.intent.Input()
  }

  /** The lock: at most one holder per name. */
  ghost predicate OneHolder(senders: seq<Sender>) {
    forall m, n | 0 <= m < |senders| && 0 <= n < |senders| && m != n ::
      senders[m].HoldsLock() && senders[n].HoldsLock() ==>
        senders[m].intent.LockName() != senders[n].intent.LockName()
  }

  /** A second send in one lane, or the intention to make it, follows only an abandoned first one. */
  ghost predicate ResendsAfterAbandon(senders: seq<Sender>) {
    forall m, n | 0 <= m < |senders| && 0 <= n < |senders| && m != n ::
      senders[n].sent && SameLane(senders[m], senders[n]) && (senders[m].phase.Sending? || senders[m].sent) ==>
        senders[n].phase.Abandoned? || (senders[m].sent && senders[m].phase.Abandoned?)
  }

  ghost predicate Inv(sys: System, w: World) {
    && SessionsOk(sys, w.rows, w.sessions)
    && QueuesOk(sys, w.sessions)
    && RowsKept(sys, w.rows, w.sessions)
    && RowsIntended(sys, w.rows)
    && TasksOk(sys, w.rows, w.sessions, w.tasks)
    && SendersOk(sys, w.rows, w.senders)
    && OneHolder(w.senders)
    && ResendsAfterAbandon(w.senders)
  }

  lemma EmptyInv(sys: System)
    ensures Inv(sys, EMPTY)
  {
  }

  lemma SendersKeep(sys: System, w: World, step: Step)
    requires SendersOk(sys, w.rows, w.senders)
    requires !step.Start?
    ensures SendersOk(sys, Apply(sys, w, step).rows, Apply(sys, w, step).senders)
  {
    var w' := Apply(sys, w, step);
    RowsStay(sys, w, step);
    forall n | 0 <= n < |w'.senders| ensures SenderOk(sys, w.rows, w'.senders[n]) {
      if n < |w.senders| {
        assert SenderOk(sys, w.rows, w.senders[n]);
      }
      SenderKeeps(sys, w, step, n);
    }
  }

  lemma RowsStay(sys: System, w: World, step: Step)
    requires !step.Start?
    ensures Apply(sys, w, step).rows == w.rows
  {
  }

  lemma SenderKeeps(sys: System, w: World, step: Step, n: nat)
    requires n < |Apply(sys, w, step).senders| && !step.Start?
    requires n < |w.senders| ==> SenderOk(sys, w.rows, w.senders[n])
    ensures SenderOk(sys, w.rows, Apply(sys, w, step).senders[n])
  {
    if step.Poll? && step.n < |w.senders| {
      AckChanges(w, step.n);
    }
  }

  /** A poll changes its own sender's phase only, to an acknowledgment on the stored row or to a conflict. */
  lemma AckChanges(w: World, n: nat)
    requires n < |w.senders|
    ensures var w' := Ack(w, n);
            var a := w.senders[n];
            && w'.rows == w.rows && w'.sessions == w.sessions && w'.tasks == w.tasks && |w'.senders| == |w.senders|
            && (forall m | 0 <= m < |w.senders| && m != n :: w'.senders[m] == w.senders[m])
            && var b := w'.senders[n];
            && (b == a || (b == a.(phase := b.phase) && a.intent.Input() in w.rows
                           && ((b.phase.Conflicted? && !OwnReceipt(a.intent, w.rows[a.intent.Input()]))
                               || (b.phase == Acked(w.rows[a.intent.Input()].session)
                                   && (a.intent.Answer? ==> w.rows[a.intent.Input()] == Receipt(a.intent.session, a.intent.Digest()))))))
  {
  }

  /** How one sender can change: it gains the lock only when nobody has it, and sends only from `Sending`, or late. */
  ghost predicate SenderMoves(rows: map<Key, Receipt>, senders: seq<Sender>, a: Sender, b: Sender) {
    && b.intent == a.intent
    && (b.HoldsLock() ==> a.HoldsLock() || LockFree(senders, a.intent.LockName()))
    && (a.sent ==> b.sent) && (b.sent ==> a.sent || a.phase.Sending? || (a.phase.Late? && b.phase.Abandoned?))
    && (b.phase.Sending? ==> a.phase.Sending? || (a.phase.Locked? && a.intent.Input() !in rows))
    && (a.phase.Abandoned? ==> b == a)
  }

  ghost predicate LockFree(senders: seq<Sender>, name: string) {
    forall m | 0 <= m < |senders| :: senders[m].HoldsLock() ==> senders[m].intent.LockName() != name
  }

  /** At most the n-th sender changes; a new one waits and has sent nothing. */
  ghost predicate SendersMove(rows: map<Key, Receipt>, a: seq<Sender>, b: seq<Sender>, n: nat) {
    && |a| <= |b|
    && (forall m | 0 <= m < |a| && m != n :: b[m] == a[m])
    && (n < |a| ==> SenderMoves(rows, a, a[n], b[n]))
    && (forall m | |a| <= m < |b| :: b[m].phase.Waiting? && !b[m].sent)
  }

  lemma OneMoves(rows: map<Key, Receipt>, a: seq<Sender>, n: nat, phase: Phase)
    requires n < |a| && SenderMoves(rows, a, a[n], a[n].(phase := phase))
    ensures SendersMove(rows, a, a[n := a[n].(phase := phase)], n)
  {
  }

  lemma LockStepMoves(sys: System, w: World, step: Step)
    requires step.Acquire? || step.Check? || step.Abandon?
    ensures SendersMove(w.rows, w.senders, Apply(sys, w, step).senders, step.n)
  {
    if step.n < |w.senders| {
      OneMoves(w.rows, w.senders, step.n, Apply(sys, w, step).senders[step.n].phase);
    }
  }

  lemma StepMovesOneSender(sys: System, w: World, step: Step) returns (n: nat)
    ensures SendersMove(w.rows, w.senders, Apply(sys, w, step).senders, n)
  {
    if step.Acquire? || step.Check? || step.Abandon? {
      LockStepMoves(sys, w, step);
      return step.n;
    }
    if step.Poll? && step.n < |w.senders| {
      AckChanges(w, step.n);
    }
    n := if step.Send? || step.Poll? then step.n else |w.senders|;
  }

  lemma HoldersKeep(rows: map<Key, Receipt>, a: seq<Sender>, b: seq<Sender>, n: nat)
    requires SendersMove(rows, a, b, n) && OneHolder(a)
    ensures OneHolder(b)
  {
  }

  lemma ResendsKeep(sys: System, rows: map<Key, Receipt>, a: seq<Sender>, b: seq<Sender>, n: nat)
    requires SendersMove(rows, a, b, n) && SendersOk(sys, rows, a) && OneHolder(a) && ResendsAfterAbandon(a)
    ensures ResendsAfterAbandon(b)
  {
    forall i, j | 0 <= i < |b| && 0 <= j < |b| && i != j && b[j].sent && SameLane(b[i], b[j])
                  && (b[i].phase.Sending? || b[i].sent)
      ensures b[j].phase.Abandoned? || (b[i].sent && b[i].phase.Abandoned?)
    {
      assert i < |a| && j < |a|;
      assert SameLane(a[i], a[j]) && SameLane(a[j], a[i]);
      assert SenderOk(sys, rows, a[i]) && SenderOk(sys, rows, a[j]);
    }
  }

  /** Steps of a sender other than `Send` touch neither the rows nor the sessions. */
  lemma SenderStepFrame(sys: System, w: World, step: Step)
    requires step.Arrive? || step.Acquire? || step.Check? || step.Poll? || step.Abandon?
    ensures Apply(sys, w, step).rows == w.rows && Apply(sys, w, step).sessions == w.sessions
    ensures Apply(sys, w, step).tasks == w.tasks
  {
  }

  /** Sessions that only gain receipts leave the recorded answers' tasks as they should be. */
  lemma ReceiptsKeepTasks(sys: System, rows: map<Key, Receipt>, a: map<string, Session>, b: map<string, Session>,
                          tasks: map<Key, Task>)
    requires TasksOk(sys, rows, a, tasks)
    requires forall name | name in a :: name in b && a[name].channel.receipts.Keys <= b[name].channel.receipts.Keys
    ensures TasksOk(sys, rows, b, tasks)
  {
    forall key | Unsettled(rows, b, key) && AnswerDigest(rows[key].digest) && key !in sys.withdrawable
      ensures key in tasks && tasks[key].Open()
    {
      assert Unsettled(rows, a, key);
    }
  }

  lemma SteerKeepsTasks(sys: System, w: World, key: Key, task: Task)
    requires TasksOk(sys, w.rows, w.sessions, w.tasks)
    ensures var w' := Apply(sys, w, Steer(key, task)); TasksOk(sys, w'.rows, w'.sessions, w'.tasks)
  {
  }

  /** The answer a start records leaves its task open. */
  lemma StartOpensTask(sys: System, w: World, name: string, gate: Gate, more: bool)
    requires CanStart(w, name, gate) && QueuesOk(sys, w.sessions)
    ensures var s := w.sessions[name];
            var own := Key(s.workspace, s.queue[0].id);
            var w' := Apply(sys, w, Start(name, gate, more));
            && (w'.rows == w.rows || (own !in w.rows && w'.rows == w.rows[own := Receipt(name, s.queue[0].digest)]))
            && (w'.rows != w.rows && AnswerDigest(s.queue[0].digest) ==> own in w'.tasks && w'.tasks[own].Open())
            && (forall key | key in w.tasks && w.tasks[key].Open() :: key in w'.tasks && w'.tasks[key].Open())
  {
    var s := w.sessions[name];
    var e := s.queue[0];
    assert FromIntent(sys, s.workspace, e);
    var i :| i in sys.intents && i.Input() == Key(s.workspace, e.id) && i.Digest() == e.digest && i.Answer? == e.gated;
    DigestTellsKind(i);
  }

  lemma StartKeepsTasks(sys: System, w: World, name: string, gate: Gate, more: bool)
    requires CanStart(w, name, gate) && QueuesOk(sys, w.sessions) && TasksOk(sys, w.rows, w.sessions, w.tasks)
    ensures var w' := Apply(sys, w, Start(name, gate, more)); TasksOk(sys, w'.rows, w'.sessions, w'.tasks)
  {
    var w' := Apply(sys, w, Start(name, gate, more));
    StartOpensTask(sys, w, name, gate, more);
    StartKeepsReceipts(sys, w, name, gate, more);
    forall key | Unsettled(w'.rows, w'.sessions, key) && AnswerDigest(w'.rows[key].digest) && key !in sys.withdrawable
      ensures key in w'.tasks && w'.tasks[key].Open()
    {
      if key in w.rows {
        assert Unsettled(w.rows, w.sessions, key);
      }
    }
  }

  lemma StartKeepsReceipts(sys: System, w: World, name: string, gate: Gate, more: bool)
    ensures var w' := Apply(sys, w, Start(name, gate, more));
            forall n | n in w.sessions :: n in w'.sessions && w'.sessions[n] == w.sessions[n].(turn := w'.sessions[n].turn)
  {
  }

  lemma EnqueueKeeps(sys: System, rows: map<Key, Receipt>, sessions: map<string, Session>, target: string, i: Intent)
    requires SessionsOk(sys, rows, sessions) && QueuesOk(sys, sessions) && RowsKept(sys, rows, sessions)
    requires i in sys.intents && i.workspace != ""
    requires target in sessions ==> sessions[target].workspace == i.workspace
    ensures var sessions' := Enqueue(sessions, target, i, Envelope(i.id, i.Digest(), i.Answer?));
            SessionsOk(sys, rows, sessions') && QueuesOk(sys, sessions') && RowsKept(sys, rows, sessions')
  {
    var e := Envelope(i.id, i.Digest(), i.Answer?);
    var sessions' := Enqueue(sessions, target, i, e);
    assert FromIntent(sys, i.workspace, e);
    forall name | name in sessions' ensures SessionInv(sys, rows, name, sessions'[name]) {
      if name in sessions {
        assert SessionInv(sys, rows, name, sessions[name]);
      }
    }
    forall key | key in rows ensures Kept(rows, sessions', key) || WithdrawableAnswer(sys, key, rows[key].digest) {
      if Kept(rows, sessions, key) && Waits(sessions[rows[key].session], key.input, rows[key].digest) {
        var f :| f in sessions[rows[key].session].queue && f.id == key.input && f.digest == rows[key].digest;
        assert f in sessions'[rows[key].session].queue;
      }
    }
  }

  /** A row stored for one session leaves what every other session relies on untouched. */
  lemma OtherSessionKeeps(sys: System, rows: map<Key, Receipt>, key: Key, r: Receipt, name: string, s: Session)
    requires SessionInv(sys, rows, name, s)
    requires r.session != name && key !in rows
    ensures SessionInv(sys, rows[key := r], name, s)
  {
  }

  /** A gate refuses an input recorded here and not yet consumed only if its task may be withdrawn. */
  predicate GateAllowed(sys: System, rows: map<Key, Receipt>, name: string, s: Session, gate: Gate)
    requires s.queue != []
  {
    var e := s.queue[0];
    var key := Key(s.workspace, e.id);
    && (gate.NoGate? <==> !e.gated)
    && (gate.Refuses? && e.id !in s.channel.receipts && key in rows && rows[key] == Receipt(name, e.digest) ==>
          key in sys.withdrawable)
  }

  lemma DigestTellsKind(i: Intent)
    ensures AnswerDigest(i.Digest()) <==> i.Answer?
  {
    assert i.Digest()[0] == if i.Message? then 'm' else 'a';
  }

  lemma GuardIsAllowed(sys: System, w: World, name: string, gate: Gate)
    requires CanStart(w, name, gate) && QueuesOk(sys, w.sessions) && TasksOk(sys, w.rows, w.sessions, w.tasks)
    ensures GateAllowed(sys, w.rows, name, w.sessions[name], gate)
  {
    var s := w.sessions[name];
    var e := s.queue[0];
    var key := Key(s.workspace, e.id);
    if gate.Refuses? && e.id !in s.channel.receipts && key in w.rows && w.rows[key] == Receipt(name, e.digest) {
      assert FromIntent(sys, s.workspace, e);
      var i :| i in sys.intents && i.Input() == key && i.Digest() == e.digest && i.Answer? == e.gated;
      DigestTellsKind(i);
      assert Unsettled(w.rows, w.sessions, key);
    }
  }

  /** What one delivery does to the session it runs in. */
  lemma StartedSession(sys: System, w: World, name: string, s: Session, gate: Gate)
    requires SessionInv(sys, w.rows, name, s) && s.turn.None? && s.queue != [] && GateAllowed(sys, w.rows, name, s, gate)
    ensures var (outcome, channel, rows) :=
              Deliver(name, Some(s.workspace), s.channel, w.rows, ToPayload(s.queue[0]), gate);
            && SessionInv(sys, rows, name, s.(turn := Some(Turn(outcome, channel))))
            && (rows == w.rows
                || (Key(s.workspace, s.queue[0].id) !in w.rows
                    && rows == w.rows[Key(s.workspace, s.queue[0].id) := Receipt(name, s.queue[0].digest)]))
  {
  }

  lemma StartKeepsSessions(sys: System, w: World, name: string, gate: Gate, more: bool)
    requires SessionsOk(sys, w.rows, w.sessions) && QueuesOk(sys, w.sessions) && CanStart(w, name, gate)
    requires GateAllowed(sys, w.rows, name, w.sessions[name], gate)
    ensures var w' := Apply(sys, w, Start(name, gate, more));
            SessionsOk(sys, w'.rows, w'.sessions) && QueuesOk(sys, w'.sessions)
  {
    var w' := Apply(sys, w, Start(name, gate, more));
    var s := w.sessions[name];
    StartedSession(sys, w, name, s, gate);
    forall other | other in w'.sessions ensures SessionInv(sys, w'.rows, other, w'.sessions[other]) {
      if other != name {
        assert SessionInv(sys, w.rows, other, w.sessions[other]);
        if w'.rows != w.rows {
          OtherSessionKeeps(sys, w.rows, Key(s.workspace, s.queue[0].id), Receipt(name, s.queue[0].digest),
                            other, w.sessions[other]);
        }
      }
    }
  }

  lemma StartKeepsRows(sys: System, w: World, name: string, gate: Gate, more: bool)
    requires Inv(sys, w) && CanStart(w, name, gate) && GateAllowed(sys, w.rows, name, w.sessions[name], gate)
    ensures var w' := Apply(sys, w, Start(name, gate, more));
            && RowsKept(sys, w'.rows, w'.sessions) && RowsIntended(sys, w'.rows)
            && SendersOk(sys, w'.rows, w'.senders)
  {
    var w' := Apply(sys, w, Start(name, gate, more));
    StartFrame(sys, w, name, gate, more);
    StartKeepsIntended(sys, w, name, gate, more);
    NewRowsKept(sys, w, w', name);
    SendersOkGrows(sys, w.rows, w'.rows, w.senders);
  }

  /** What a start leaves alone, and the one row it may add. */
  ghost predicate StartFrames(w: World, w': World, name: string)
    requires name in w.sessions && w.sessions[name].queue != []
  {
    var s := w.sessions[name];
    var own := Key(s.workspace, s.queue[0].id);
    && w'.senders == w.senders
    && (w'.rows == w.rows || (own !in w.rows && w'.rows == w.rows[own := Receipt(name, s.queue[0].digest)]))
    && (forall n | n in w.sessions :: n in w'.sessions && w'.sessions[n] == w.sessions[n].(turn := w'.sessions[n].turn))
  }

  lemma StartFrame(sys: System, w: World, name: string, gate: Gate, more: bool)
    requires CanStart(w, name, gate) && QueuesOk(sys, w.sessions)
    ensures StartFrames(w, Apply(sys, w, Start(name, gate, more)), name)
  {
    StartOpensTask(sys, w, name, gate, more);
    StartKeepsReceipts(sys, w, name, gate, more);
  }

  lemma NewRowsKept(sys: System, w: World, w': World, name: string)
    requires name in w.sessions && w.sessions[name].queue != [] && StartFrames(w, w', name)
    requires RowsKept(sys, w.rows, w.sessions)
    ensures RowsKept(sys, w'.rows, w'.sessions)
  {
    forall key | key in w'.rows ensures Kept(w'.rows, w'.sessions, key) || WithdrawableAnswer(sys, key, w'.rows[key].digest) {
      if key in w.rows {
        KeptStays(sys, w, w', key);
      } else {
        HeadWaits(w, w', name);
      }
    }
  }

  lemma KeptStays(sys: System, w: World, w': World, key: Key)
    requires RowsKept(sys, w.rows, w.sessions) && key in w.rows && key in w'.rows && w'.rows[key] == w.rows[key]
    requires forall n | n in w.sessions :: n in w'.sessions && w'.sessions[n] == w.sessions[n].(turn := w'.sessions[n].turn)
    ensures Kept(w'.rows, w'.sessions, key) || WithdrawableAnswer(sys, key, w'.rows[key].digest)
  {
    assert Kept(w.rows, w.sessions, key) || WithdrawableAnswer(sys, key, w.rows[key].digest);
  }

  lemma HeadWaits(w: World, w': World, name: string)
    requires name in w.sessions && name in w'.sessions && w.sessions[name].queue != []
    requires w'.sessions[name] == w.sessions[name].(turn := w'.sessions[name].turn)
    requires var s := w.sessions[name]; var own := Key(s.workspace, s.queue[0].id);
             own in w'.rows && w'.rows[own] == Receipt(name, s.queue[0].digest)
    ensures Kept(w'.rows, w'.sessions, Key(w.sessions[name].workspace, w.sessions[name].queue[0].id))
  {
    var s := w.sessions[name];
    assert s.queue[0] in w'.sessions[name].queue;
    assert Waits(w'.sessions[name], s.queue[0].id, s.queue[0].digest);
  }

  lemma StartKeepsIntended(sys: System, w: World, name: string, gate: Gate, more: bool)
    requires QueuesOk(sys, w.sessions) && RowsIntended(sys, w.rows) && CanStart(w, name, gate)
    ensures RowsIntended(sys, Apply(sys, w, Start(name, gate, more)).rows)
  {
    var s := w.sessions[name];
    assert FromIntent(sys, s.workspace, s.queue[0]);
    StartOpensTask(sys, w, name, gate, more);
  }

  /** Rows are only added, so what was acknowledged on one stands. */
  lemma SendersOkGrows(sys: System, rows: map<Key, Receipt>, more: map<Key, Receipt>, senders: seq<Sender>)
    requires SendersOk(sys, rows, senders) && forall key | key in rows :: key in more && more[key] == rows[key]
    ensures SendersOk(sys, more, senders)
  {
    forall n | 0 <= n < |senders| ensures SenderOk(sys, more, senders[n]) {
      assert SenderOk(sys, rows, senders[n]);
    }
  }

  lemma EndedSessionInv(sys: System, rows: map<Key, Receipt>, w: World, step: Step)
    requires step.Checkpoint? || step.Crash? || step.Discard?
    requires step.session in w.sessions && SessionInv(sys, rows, step.session, w.sessions[step.session])
    ensures SessionInv(sys, rows, step.session, Apply(sys, w, step).sessions[step.session])
  {
    var s := w.sessions[step.session];
    if step.Checkpoint? && s.turn.Some? && s.queue != [] && s.turn.value.outcome.Consumed? {
      HistoryExtends(s, s.queue[0]);
    }
  }

  /** Ending a turn: the rows stay and at most the queue's head goes, once nothing more is owed for it. */
  lemma EndedSession(sys: System, rows: map<Key, Receipt>, w: World, step: Step)
    requires step.Checkpoint? || step.Crash? || step.Discard?
    requires step.session in w.sessions && SessionInv(sys, rows, step.session, w.sessions[step.session])
    ensures var s, s' := w.sessions[step.session], Apply(sys, w, step).sessions[step.session];
            && SessionInv(sys, rows, step.session, s')
            && s'.workspace == s.workspace
            && (forall id | id in s.channel.receipts ::
                  id in s'.channel.receipts && s'.channel.receipts[id] == s.channel.receipts[id])
            && (forall e | e in s.queue ::
                  || e in s'.queue || e.id in s'.channel.receipts
                  || (Key(s.workspace, e.id) in rows && rows[Key(s.workspace, e.id)] == Receipt(step.session, e.digest)
                      ==> e.gated && Key(s.workspace, e.id) in sys.withdrawable))
  {
    var s, s' := w.sessions[step.session], Apply(sys, w, step).sessions[step.session];
    EndedSessionInv(sys, rows, w, step);
    forall e | e in s.queue && e !in s'.queue ensures e == s.queue[0] {
      assert s'.queue == s.queue[1..];
    }
  }

  lemma HistoryExtends(s: Session, e: Envelope)
    requires HistoryMatches(s) && e.id !in s.channel.receipts
    ensures HistoryMatches(s.(history := s.history + [e],
                              channel := s.channel.(receipts := s.channel.receipts[e.id := e.digest])))
  {
    var history := s.history + [e];
    var receipts := s.channel.receipts[e.id := e.digest];
    forall id | id in receipts ensures exists i | 0 <= i < |history| :: history[i].id == id {
      if id == e.id {
        assert history[|s.history|].id == id;
      } else {
        var i :| 0 <= i < |s.history| && s.history[i].id == id;
        assert history[i].id == id;
      }
    }
  }

  /** The end of a turn changes its own session only. */
  lemma EndOfTurnFrame(sys: System, w: World, step: Step)
    requires step.Checkpoint? || step.Crash? || step.Discard?
    ensures var w' := Apply(sys, w, step);
            && w'.rows == w.rows && w'.senders == w.senders && w'.tasks == w.tasks
            && w'.sessions == if step.session in w.sessions
                              then w.sessions[step.session := w'.sessions[step.session]] else w.sessions
  {
  }

  lemma EndOfTurnKeepsSessions(sys: System, w: World, step: Step)
    requires SessionsOk(sys, w.rows, w.sessions) && QueuesOk(sys, w.sessions)
    requires step.Checkpoint? || step.Crash? || step.Discard?
    ensures var w' := Apply(sys, w, step); SessionsOk(sys, w'.rows, w'.sessions) && QueuesOk(sys, w'.sessions)
  {
    EndOfTurnFrame(sys, w, step);
    if step.session in w.sessions {
      EndedSession(sys, w.rows, w, step);
      QueueShrinks(sys, w, step);
    }
  }

  lemma QueueShrinks(sys: System, w: World, step: Step)
    requires step.Checkpoint? || step.Crash? || step.Discard?
    requires step.session in w.sessions
    ensures var s' := Apply(sys, w, step).sessions[step.session];
            s'.workspace == w.sessions[step.session].workspace
            && forall e | e in s'.queue :: e in w.sessions[step.session].queue
  {
  }

  lemma EndOfTurnKeepsRows(sys: System, w: World, step: Step)
    requires SessionsOk(sys, w.rows, w.sessions) && QueuesOk(sys, w.sessions) && RowsKept(sys, w.rows, w.sessions)
    requires step.Checkpoint? || step.Crash? || step.Discard?
    ensures RowsKept(sys, w.rows, Apply(sys, w, step).sessions)
  {
    EndOfTurnFrame(sys, w, step);
    if step.session in w.sessions {
      EndedSession(sys, w.rows, w, step);
      forall key | key in w.rows ensures Kept(w.rows, Apply(sys, w, step).sessions, key) || WithdrawableAnswer(sys, key, w.rows[key].digest) {
        if Kept(w.rows, w.sessions, key) {
          EndOfTurnKeepsRow(sys, w, step, key);
        }
      }
    }
  }

  lemma EndOfTurnKeepsRow(sys: System, w: World, step: Step, key: Key)
    requires SessionsOk(sys, w.rows, w.sessions) && QueuesOk(sys, w.sessions)
    requires step.Checkpoint? || step.Crash? || step.Discard?
    requires step.session in w.sessions && key in w.rows && Kept(w.rows, w.sessions, key)
    ensures Kept(w.rows, Apply(sys, w, step).sessions, key) || WithdrawableAnswer(sys, key, w.rows[key].digest)
  {
    var name := step.session;
    var s := w.sessions[name];
    EndOfTurnFrame(sys, w, step);
    EndedSession(sys, w.rows, w, step);
    if w.rows[key].session == name && Waits(s, key.input, w.rows[key].digest) {
      var e :| e in s.queue && e.id == key.input && e.digest == w.rows[key].digest;
      assert FromIntent(sys, s.workspace, e);
      assert Key(s.workspace, e.id) == key;
    }
  }

  lemma EndOfTurnKeeps(sys: System, w: World, step: Step)
    requires Inv(sys, w) && (step.Checkpoint? || step.Crash? || step.Discard?)
    ensures var w' := Apply(sys, w, step);
            && w'.rows == w.rows && SessionsOk(sys, w'.rows, w'.sessions) && QueuesOk(sys, w'.sessions)
            && RowsKept(sys, w'.rows, w'.sessions) && TasksOk(sys, w'.rows, w'.sessions, w'.tasks)
            && SendersOk(sys, w'.rows, w'.senders)
  {
    SendersKeep(sys, w, step);
    EndOfTurnFrame(sys, w, step);
    EndOfTurnKeepsSessions(sys, w, step);
    EndOfTurnKeepsRows(sys, w, step);
    if step.session in w.sessions {
      EndedSession(sys, w.rows, w, step);
    }
    ReceiptsKeepTasks(sys, w.rows, w.sessions, Apply(sys, w, step).sessions, w.tasks);
  }

  lemma StartKeeps(sys: System, w: World, name: string, gate: Gate, more: bool)
    requires Inv(sys, w)
    ensures var w' := Apply(sys, w, Start(name, gate, more));
            && SessionsOk(sys, w'.rows, w'.sessions) && QueuesOk(sys, w'.sessions)
            && RowsKept(sys, w'.rows, w'.sessions) && RowsIntended(sys, w'.rows)
            && TasksOk(sys, w'.rows, w'.sessions, w'.tasks) && SendersOk(sys, w'.rows, w'.senders)
  {
    if CanStart(w, name, gate) {
      GuardIsAllowed(sys, w, name, gate);
      StartKeepsSessions(sys, w, name, gate, more);
      StartKeepsRows(sys, w, name, gate, more);
      StartKeepsTasks(sys, w, name, gate, more);
    }
  }

  lemma SendFrame(sys: System, w: World, n: nat, target: string)
    requires CanSend(w, n, target)
    ensures var w' := Apply(sys, w, Send(n, target));
            var i := w.senders[n].intent;
            && w'.rows == w.rows && w'.tasks == w.tasks
            && w'.sessions == Enqueue(w.sessions, target, i, Envelope(i.id, i.Digest(), i.Answer?))
  {
  }

  lemma EnqueueKeepsReceipts(sessions: map<string, Session>, target: string, i: Intent, e: Envelope)
    ensures forall name | name in sessions ::
              name in Enqueue(sessions, target, i, e)
              && Enqueue(sessions, target, i, e)[name].channel == sessions[name].channel
  {
  }

  lemma SendKeeps(sys: System, w: World, n: nat, target: string)
    requires SessionsOk(sys, w.rows, w.sessions) && QueuesOk(sys, w.sessions) && RowsKept(sys, w.rows, w.sessions)
    requires TasksOk(sys, w.rows, w.sessions, w.tasks) && SendersOk(sys, w.rows, w.senders)
    ensures var w' := Apply(sys, w, Send(n, target));
            && w'.rows == w.rows && SessionsOk(sys, w'.rows, w'.sessions) && QueuesOk(sys, w'.sessions)
            && RowsKept(sys, w'.rows, w'.sessions) && TasksOk(sys, w'.rows, w'.sessions, w'.tasks)
            && SendersOk(sys, w'.rows, w'.senders)
  {
    SendersKeep(sys, w, Send(n, target));
    if CanSend(w, n, target) {
      var i := w.senders[n].intent;
      var e := Envelope(i.id, i.Digest(), i.Answer?);
      assert SenderOk(sys, w.rows, w.senders[n]);
      SendFrame(sys, w, n, target);
      EnqueueKeeps(sys, w.rows, w.sessions, target, i);
      EnqueueKeepsReceipts(w.sessions, target, i, e);
      ReceiptsKeepTasks(sys, w.rows, w.sessions, Enqueue(w.sessions, target, i, e), w.tasks);
    }
  }

  lemma StepKeeps(sys: System, w: World, step: Step)
    requires Inv(sys, w)
    ensures Inv(sys, Apply(sys, w, step))
  {
    var moved := StepMovesOneSender(sys, w, step);
    HoldersKeep(w.rows, w.senders, Apply(sys, w, step).senders, moved);
    ResendsKeep(sys, w.rows, w.senders, Apply(sys, w, step).senders, moved);
    match step {
      case Start(name, gate, more) => StartKeeps(sys, w, name, gate, more);
      case Send(n, target) => SendKeeps(sys, w, n, target);
      case Steer(key, task) => SendersKeep(sys, w, step); SteerKeepsTasks(sys, w, key, task);
      case Checkpoint(_) => EndOfTurnKeeps(sys, w, step);
      case Crash(_) => EndOfTurnKeeps(sys, w, step);
      case Discard(_) => EndOfTurnKeeps(sys, w, step);
      case _ => SendersKeep(sys, w, step); SenderStepFrame(sys, w, step);
    }
  }

  lemma {:induction false} RunKeeps(sys: System, w: World, steps: seq<Step>)
    requires Inv(sys, w)
    ensures Inv(sys, Run(sys, w, steps))
    decreases |steps|
  {
    if steps != [] {
      StepKeeps(sys, w, steps[0]);
      RunKeeps(sys, Apply(sys, w, steps[0]), steps[1..]);
    }
  }
}
