/** When a finalizer of an image reservation succeeds, whoever else is at work
    (db/services/browser-images.ts:81-145). */
module BrowserImageRaces {
  import opened Wrappers
  import opened BrowserImages

  // ---------------------------------------------------------------- candidates are one call's own

  ghost predicate TrackOk(w: World, f: Finalizer, c: Id) {
    && c in w.payloads && Sniff(f.bytes).Some?
    && (!f.phase.Registered? ==> c in w.uploads)
    && (f.phase.Vouched? ==> w.payloads[c].verified)
  }

  ghost predicate RacersOk(w: World) {
    && (forall k | k in w.finalizers && InProgress(w.finalizers[k].phase) ::
          TrackOk(w, w.finalizers[k], w.finalizers[k].phase.candidate))
    && (forall j, k | j in w.finalizers && k in w.finalizers && j != k
                      && InProgress(w.finalizers[j].phase) && InProgress(w.finalizers[k].phase) ::
          w.finalizers[j].phase.candidate != w.finalizers[k].phase.candidate)
  }

  /** Payloads are not forgotten, and neither are uploads and verifications. */
  ghost predicate Grows(w: World, x: World) {
    && w.uploads <= x.uploads
    && forall c | c in w.payloads :: c in x.payloads && (w.payloads[c].verified ==> x.payloads[c].verified)
  }

  lemma FinalizerStepGrows(h: Hash, w: World, call: Id, s: Step)
    requires call in w.finalizers
    ensures Grows(w, FinalizerStep(h, w, call, s))
  {
  }

  lemma StepGrows(h: Hash, w: World, s: Step)
    ensures Grows(w, Apply(h, w, s))
  {
    match s
    case OpenWrite(_) | ReadBack(_) | Vouch(_) | Finish(_) | Abandon(_) =>
      if s.call in w.finalizers {
        FinalizerStepGrows(h, w, s.call, s);
      }
    case _ =>
  }

  /** From `w` to `x` a finalizer has moved on with its candidate, or stopped. */
  ghost predicate TrackKept(w: World, x: World, call: Id) {
    && call in w.finalizers && call in x.finalizers
    && (InProgress(x.finalizers[call].phase) ==>
          && InProgress(w.finalizers[call].phase)
          && x.finalizers[call].phase.candidate == w.finalizers[call].phase.candidate
          && TrackOk(x, x.finalizers[call], x.finalizers[call].phase.candidate))
  }

  lemma FinishKeepsTrack(h: Hash, w: World, call: Id)
    requires call in w.finalizers && w.finalizers[call].phase.Vouched?
    ensures TrackKept(w, FinishStep(h, w, call), call)
  {
  }

  lemma OwnTrackKeeps(h: Hash, w: World, call: Id, s: Step)
    requires call in w.finalizers
    requires InProgress(w.finalizers[call].phase) ==> TrackOk(w, w.finalizers[call], w.finalizers[call].phase.candidate)
    ensures TrackKept(w, FinalizerStep(h, w, call, s), call)
  {
    if s.Finish? && w.finalizers[call].phase.Vouched? {
      FinishKeepsTrack(h, w, call);
    }
  }

  lemma FinalizerStepKeepsRacers(h: Hash, w: World, call: Id, s: Step)
    requires RacersOk(w) && call in w.finalizers
    ensures RacersOk(FinalizerStep(h, w, call, s))
  {
    FinalizerStepFrame(h, w, call, s);
    FinalizerStepGrows(h, w, call, s);
    OwnTrackKeeps(h, w, call, s);
  }

  /** A new call registers a candidate nobody has. */
  lemma BeginKeepsRacers(h: Hash, w: World, call: Id, scope: Scope, artifact: Id, bytes: Bytes, filename: string,
                         sourceKind: SourceKind, candidate: Id)
    requires RacersOk(w)
    ensures RacersOk(BeginStep(h, w, call, scope, artifact, bytes, filename, sourceKind, candidate))
  {
  }

  lemma OthersKeepFinalizers(h: Hash, w: World, s: Step)
    requires s.Reserve? || s.Land? || s.WindowCloses? || s.Quarantine? || s.Collect? || s.Join? || s.Leave?
    ensures Apply(h, w, s).finalizers == w.finalizers
  {
  }

  lemma StepKeepsRacers(h: Hash, w: World, s: Step)
    requires RacersOk(w)
    ensures RacersOk(Apply(h, w, s))
  {
    match s
    case OpenWrite(_) | ReadBack(_) | Vouch(_) | Finish(_) | Abandon(_) =>
      if s.call in w.finalizers {
        FinalizerStepKeepsRacers(h, w, s.call, s);
      }
    case Begin(call, scope, artifact, bytes, filename, sourceKind, candidate) =>
      BeginKeepsRacers(h, w, call, scope, artifact, bytes, filename, sourceKind, candidate);
    case _ =>
      OthersKeepFinalizers(h, w, s);
      StepGrows(h, w, s);
  }

  lemma {:induction false} RunKeepsRacers(h: Hash, w: World, steps: seq<Step>)
    requires RacersOk(w)
    ensures RacersOk(Run(h, w, steps))
    decreases |steps|
  {
    if steps != [] {
      StepKeepsRacers(h, w, steps[0]);
      RunKeepsRacers(h, Apply(h, w, steps[0]), steps[1..]);
    }
  }

  lemma ReachableRacers(h: Hash, w: World)
    requires Reachable(h, w)
    ensures Inv(h, w) && RacersOk(w)
  {
    ReachableInv(h, w);
    var steps :| w == Run(h, EMPTY, steps);
    RunKeepsRacers(h, EMPTY, steps);
  }

  // ---------------------------------------------------------------- on the way to a result

  /** The phase after `k` of the steps of `Undisturbed`. */
  function PhaseAt(k: nat, c: Id): Phase
    requires 1 <= k <= 5
  {
    match k
    case 1 => Registered(c)
    case 4 => Confirmed(c)
    case 5 => Vouched(c)
    case _ => Writing(c)
  }

  /** The candidate has come so far and can go on. */
  ghost predicate CandidateReady(h: Hash, w: World, f: Finalizer, c: Id, k: nat) {
    && Writable(h, w, f, c)
    && (k >= 2 ==> c in w.uploads) && (k >= 3 ==> c in w.store)
  }

  /** After `k` of its steps a finalizer holds its result already, or all it needs to get one. */
  ghost predicate OnCourse(h: Hash, w: World, call: Id, f: Finalizer, c: Id, k: nat) {
    && k <= 6 && w.Reserved(f.artifact, f.scope) && Sniff(f.bytes).Some?
    && if k == 0 then call !in w.finalizers && c !in w.payloads && |f.bytes| <= MAX_BYTES
       else
         && call in w.finalizers && w.finalizers[call] == f.(phase := w.finalizers[call].phase)
         && (w.finalizers[call].phase.Done?
             || (k <= 5 && w.finalizers[call].phase == PhaseAt(k, c)
                 && ((k == 5 && w.Ready(f.artifact)) || CandidateReady(h, w, f, c, k))))
  }

  /** What is up to the finalizer itself, and what would end its window or its membership. */
  predicate Mine(s: Step, call: Id, f: Finalizer, c: Id) {
    match s
    case Begin(other, _, _, _, _, _, candidate) => other == call || candidate == c
    case OpenWrite(other) => other == call
    case ReadBack(other) => other == call
    case Vouch(other) => other == call
    case Finish(other) => other == call
    case Abandon(other) => other == call
    case Land(candidate) => candidate == c
    case WindowCloses(candidate) => candidate == c
    case Leave(scope) => scope == f.scope
    case _ => false
  }

  function MineOf(steps: seq<Step>, call: Id, f: Finalizer, c: Id): seq<Step> {
    if steps == [] then []
    else (if Mine(steps[0], call, f, c) then [steps[0]] else []) + MineOf(steps[1..], call, f, c)
  }

  /** What a finalizer on course relies on is as it was, or further on. */
  ghost predicate Spares(w: World, x: World, call: Id, f: Finalizer, c: Id) {
    && (w.Reserved(f.artifact, f.scope) ==> x.Reserved(f.artifact, f.scope))
    && (w.Ready(f.artifact) && w.Reserved(f.artifact, f.scope) ==> x.Ready(f.artifact))
    && (call in x.finalizers <==> call in w.finalizers) && (call in w.finalizers ==> x.finalizers[call] == w.finalizers[call])
    && (c in x.payloads <==> c in w.payloads)
    && (c in w.payloads && w.payloads[c].stage == Pending && w.payloads[c].open ==>
          x.payloads[c] == w.payloads[c].(retired := x.payloads[c].retired) && (c in w.store ==> c in x.store))
    && w.uploads <= x.uploads
  }

  lemma SparedStaysOnCourse(h: Hash, w: World, x: World, call: Id, f: Finalizer, c: Id, k: nat)
    requires OnCourse(h, w, call, f, c, k) && Spares(w, x, call, f, c)
    ensures OnCourse(h, x, call, f, c, k)
  {
  }

  lemma PublishSpares(h: Hash, w: World, g: Finalizer, d: Id, call: Id, f: Finalizer, c: Id)
    requires g.artifact in w.artifacts && d in w.payloads && Sniff(g.bytes).Some? && d != c
    ensures Spares(w, Publish(h, w, g, d), call, f, c)
  {
  }

  lemma AdvanceSpares(w: World, rival: Id, phase: Phase, call: Id, f: Finalizer, c: Id)
    requires rival in w.finalizers && rival != call
    ensures Spares(w, Advance(w, rival, phase), call, f, c)
  {
  }

  lemma SparesIsTransitive(w: World, x: World, y: World, call: Id, f: Finalizer, c: Id)
    requires Spares(w, x, call, f, c) && Spares(x, y, call, f, c)
    ensures Spares(w, y, call, f, c)
  {
  }

  lemma RivalFinishSpares(h: Hash, w: World, rival: Id, call: Id, f: Finalizer, c: Id)
    requires rival in w.finalizers && rival != call && w.finalizers[rival].phase.Vouched?
    requires w.finalizers[rival].phase.candidate != c
    ensures Spares(w, FinishStep(h, w, rival), call, f, c)
  {
    var g := w.finalizers[rival];
    var d := g.phase.candidate;
    var x := FinishStep(h, w, rival);
    AdvanceSpares(w, rival, x.finalizers[rival].phase, call, f, c);
    if x != Advance(w, rival, x.finalizers[rival].phase) {
      PublishSpares(h, w, g, d, call, f, c);
      AdvanceSpares(Publish(h, w, g, d), rival, x.finalizers[rival].phase, call, f, c);
      SparesIsTransitive(w, Publish(h, w, g, d), x, call, f, c);
    }
  }

  lemma RivalVouchSpares(h: Hash, w: World, rival: Id, call: Id, f: Finalizer, c: Id)
    requires rival in w.finalizers && rival != call && w.finalizers[rival].phase.Confirmed?
    requires w.finalizers[rival].phase.candidate != c
    ensures Spares(w, FinalizerStep(h, w, rival, Vouch(rival)), call, f, c)
  {
  }

  /** Another finalizer's step, its candidate being another. */
  lemma RivalSpares(h: Hash, w: World, rival: Id, s: Step, call: Id, f: Finalizer, c: Id)
    requires rival in w.finalizers && rival != call
    requires InProgress(w.finalizers[rival].phase) ==> w.finalizers[rival].phase.candidate != c
    ensures Spares(w, FinalizerStep(h, w, rival, s), call, f, c)
  {
    if s.Finish? && w.finalizers[rival].phase.Vouched? {
      RivalFinishSpares(h, w, rival, call, f, c);
    } else if s.Vouch? && w.finalizers[rival].phase.Confirmed? {
      RivalVouchSpares(h, w, rival, call, f, c);
    } else {
      RivalMovesOn(h, w, rival, s);
      var x := FinalizerStep(h, w, rival, s);
      AdvanceSpares(w, rival, x.finalizers[rival].phase, call, f, c);
    }
  }

  /** Short of vouching and finishing, a step changes the finalizer's phase, and may begin an upload. */
  lemma RivalMovesOn(h: Hash, w: World, rival: Id, s: Step)
    requires rival in w.finalizers
    requires !(s.Finish? && w.finalizers[rival].phase.Vouched?) && !(s.Vouch? && w.finalizers[rival].phase.Confirmed?)
    ensures var x := FinalizerStep(h, w, rival, s);
            && rival in x.finalizers && w.uploads <= x.uploads
            && x == Advance(w, rival, x.finalizers[rival].phase).(uploads := x.uploads)
  {
  }

  /** A pending payload in its window belongs to nobody's row, and the collector passes it by. */
  lemma PendingIsNotCollectable(h: Hash, w: World, c: Id)
    requires Inv(h, w) && c in w.payloads && w.payloads[c].stage == Pending && w.payloads[c].open
    ensures !Collectable(w, c)
  {
  }

  lemma CollectorSpares(h: Hash, w: World, s: Step, call: Id, f: Finalizer, c: Id)
    requires s.Quarantine? || s.Collect?
    requires c in w.payloads && w.payloads[c].stage == Pending && w.payloads[c].open ==> !Collectable(w, c)
    ensures Spares(w, Apply(h, w, s), call, f, c)
  {
  }

  /** Leaving takes the rows of its own scope. */
  lemma LeaveSparesRow(w: World, scope: Scope, f: Finalizer)
    requires scope != f.scope && w.Reserved(f.artifact, f.scope)
    ensures var x := LeaveStep(w, scope);
            x.Reserved(f.artifact, f.scope) && x.artifacts[f.artifact] == w.artifacts[f.artifact]
  {
  }

  lemma LeaveSpares(h: Hash, w: World, scope: Scope, call: Id, f: Finalizer, c: Id)
    requires Inv(h, w) && scope != f.scope
    ensures Spares(w, LeaveStep(w, scope), call, f, c)
  {
    if w.Reserved(f.artifact, f.scope) {
      LeaveSparesRow(w, scope, f);
    }
    if c in w.payloads {
      LeaveChanges(h, w, scope, c);
    }
  }

  lemma RivalBeginSpares(h: Hash, w: World, s: Step, call: Id, f: Finalizer, c: Id)
    requires s.Begin? && !Mine(s, call, f, c)
    ensures Spares(w, Apply(h, w, s), call, f, c)
  {
  }

  lemma EasyStepSpares(h: Hash, w: World, s: Step, call: Id, f: Finalizer, c: Id)
    requires s.Reserve? || s.Land? || s.WindowCloses? || s.Join?
    requires !Mine(s, call, f, c)
    ensures Spares(w, Apply(h, w, s), call, f, c)
  {
  }

  lemma OtherStepKeepsCourse(h: Hash, w: World, s: Step, call: Id, f: Finalizer, c: Id, k: nat)
    requires Inv(h, w) && RacersOk(w) && OnCourse(h, w, call, f, c, k) && !Mine(s, call, f, c)
    ensures OnCourse(h, Apply(h, w, s), call, f, c, k)
  {
    if Works(s) {
      WorkIsAFinalizerStep(h, w, s);
      if s.call in w.finalizers {
        RivalKeepsCourse(h, w, s.call, s, call, f, c, k);
      }
    } else {
      StrangerSpares(h, w, s, call, f, c);
      SparedStaysOnCourse(h, w, Apply(h, w, s), call, f, c, k);
    }
  }

  /** The steps of a finalizer at work. */
  predicate Works(s: Step) { s.OpenWrite? || s.ReadBack? || s.Vouch? || s.Finish? || s.Abandon? }

  lemma WorkIsAFinalizerStep(h: Hash, w: World, s: Step)
    requires Works(s)
    ensures Apply(h, w, s) == if s.call in w.finalizers then FinalizerStep(h, w, s.call, s) else w
  {
  }

  /** Everybody but the finalizers already at work. */
  lemma StrangerSpares(h: Hash, w: World, s: Step, call: Id, f: Finalizer, c: Id)
    requires Inv(h, w) && !Mine(s, call, f, c)
    requires !Works(s)
    ensures Spares(w, Apply(h, w, s), call, f, c)
  {
    match s {
      case Quarantine(_) | Collect(_, _, _) =>
        if c in w.payloads && w.payloads[c].stage == Pending && w.payloads[c].open {
          PendingIsNotCollectable(h, w, c);
        }
        CollectorSpares(h, w, s, call, f, c);
      case Leave(scope) => LeaveSpares(h, w, scope, call, f, c);
      case Begin(_, _, _, _, _, _, _) => RivalBeginSpares(h, w, s, call, f, c);
      case _ => EasyStepSpares(h, w, s, call, f, c);
    }
  }

  lemma RivalKeepsCourse(h: Hash, w: World, rival: Id, s: Step, call: Id, f: Finalizer, c: Id, k: nat)
    requires RacersOk(w) && OnCourse(h, w, call, f, c, k) && rival in w.finalizers && rival != call
    ensures OnCourse(h, FinalizerStep(h, w, rival, s), call, f, c, k)
  {
    if InProgress(w.finalizers[rival].phase) && w.finalizers[rival].phase.candidate == c {
      RivalHasAnotherCandidate(h, w, rival, s, call, f, c, k);
    } else {
      RivalSpares(h, w, rival, s, call, f, c);
      SparedStaysOnCourse(h, w, FinalizerStep(h, w, rival, s), call, f, c, k);
    }
  }

  /** Only a finalizer that has its result already shares its candidate's name with anybody. */
  lemma RivalHasAnotherCandidate(h: Hash, w: World, rival: Id, s: Step, call: Id, f: Finalizer, c: Id, k: nat)
    requires RacersOk(w) && OnCourse(h, w, call, f, c, k) && rival in w.finalizers && rival != call
    requires InProgress(w.finalizers[rival].phase) && w.finalizers[rival].phase.candidate == c
    ensures OnCourse(h, FinalizerStep(h, w, rival, s), call, f, c, k)
  {
    assert TrackOk(w, w.finalizers[rival], c);
    assert k > 0 && w.finalizers[call].phase.Done?;
    FinalizerStepFrame(h, w, rival, s);
    RivalKeepsRows(h, w, rival, s);
  }

  lemma RivalKeepsRows(h: Hash, w: World, rival: Id, s: Step)
    requires rival in w.finalizers
    ensures var x := FinalizerStep(h, w, rival, s);
            && x.members == w.members
            && forall id | id in w.artifacts :: id in x.artifacts && x.artifacts[id].scope == w.artifacts[id].scope
  {
    if s.Finish? && w.finalizers[rival].phase.Vouched? {
      FinishKeepsRows(h, w, rival);
    } else if !(s.Vouch? && w.finalizers[rival].phase.Confirmed?) {
      RivalMovesOn(h, w, rival, s);
    }
  }

  lemma FinishKeepsRows(h: Hash, w: World, rival: Id)
    requires rival in w.finalizers && w.finalizers[rival].phase.Vouched?
    ensures var x := FinishStep(h, w, rival);
            && x.members == w.members
            && forall id | id in w.artifacts :: id in x.artifacts && x.artifacts[id].scope == w.artifacts[id].scope
  {
  }

  // ---------------------------------------------------------------- the finalizer's own steps

  lemma BeginAdvances(h: Hash, w: World, call: Id, f: Finalizer, c: Id)
    requires OnCourse(h, w, call, f, c, 0)
    ensures OnCourse(h, Apply(h, w, Undisturbed(call, f, c)[0]), call, f, c, 1)
  {
  }

  lemma OpenAdvances(h: Hash, w: World, call: Id, f: Finalizer, c: Id)
    requires OnCourse(h, w, call, f, c, 1)
    ensures OnCourse(h, Apply(h, w, OpenWrite(call)), call, f, c, 2)
  {
  }

  lemma LandAdvances(h: Hash, w: World, call: Id, f: Finalizer, c: Id)
    requires CoordinatesOk(h, w) && OnCourse(h, w, call, f, c, 2)
    ensures OnCourse(h, Apply(h, w, Land(c)), call, f, c, 3)
  {
  }

  lemma ReadBackAdvances(h: Hash, w: World, call: Id, f: Finalizer, c: Id)
    requires CoordinatesOk(h, w) && FinalizersOk(w) && OnCourse(h, w, call, f, c, 3)
    ensures OnCourse(h, Apply(h, w, ReadBack(call)), call, f, c, 4)
  {
    if w.finalizers[call].phase.Writing? {
      assert CandidateOk(w, w.finalizers[call], c);
    }
  }

  lemma VouchAdvances(h: Hash, w: World, call: Id, f: Finalizer, c: Id)
    requires OnCourse(h, w, call, f, c, 4)
    ensures OnCourse(h, Apply(h, w, Vouch(call)), call, f, c, 5)
  {
    if w.finalizers[call].phase.Confirmed? {
      assert Writable(h, w, w.finalizers[call], c);
      var x := Advance(w.(payloads := w.payloads[c := w.payloads[c].(verified := true)]), call, Vouched(c));
      assert Apply(h, w, Vouch(call)) == x;
      assert CandidateReady(h, x, f, c, 5);
    }
  }

  lemma FinishAdvances(h: Hash, w: World, call: Id, f: Finalizer, c: Id)
    requires StagesOk(w) && RacersOk(w) && OnCourse(h, w, call, f, c, 5)
    ensures OnCourse(h, Apply(h, w, Finish(call)), call, f, c, 6)
  {
    if w.finalizers[call].phase.Vouched? && !w.Ready(f.artifact) {
      assert TrackOk(w, w.finalizers[call], c) && Writable(h, w, w.finalizers[call], c);
      var published := Publish(h, w, w.finalizers[call], c);
      assert Apply(h, w, Finish(call)) == Advance(published, call, Done(published.Image(f.artifact)));
    }
  }

  lemma OwnSteps(call: Id, f: Finalizer, c: Id)
    ensures var own := Undisturbed(call, f, c);
            && |own| == 6 && own[1] == OpenWrite(call) && own[2] == Land(c) && own[3] == ReadBack(call)
            && own[4] == Vouch(call) && own[5] == Finish(call)
  {
  }

  /** The next own step, whatever the others have done in between. */
  lemma OwnStepAdvances(h: Hash, w: World, call: Id, f: Finalizer, c: Id, k: nat)
    requires Inv(h, w) && RacersOk(w) && k < 6 && OnCourse(h, w, call, f, c, k)
    ensures OnCourse(h, Apply(h, w, Undisturbed(call, f, c)[k]), call, f, c, k + 1)
  {
    OwnSteps(call, f, c);
    match k {
      case 0 => BeginAdvances(h, w, call, f, c);
      case 1 => OpenAdvances(h, w, call, f, c);
      case 2 => LandAdvances(h, w, call, f, c);
      case 3 => ReadBackAdvances(h, w, call, f, c);
      case 4 => VouchAdvances(h, w, call, f, c);
      case 5 => FinishAdvances(h, w, call, f, c);
    }
  }

  /** The first step is the next own one, or somebody else's. */
  lemma NextMine(steps: seq<Step>, call: Id, f: Finalizer, c: Id, k: nat)
    requires steps != [] && k <= 6 && MineOf(steps, call, f, c) == Undisturbed(call, f, c)[k..]
    ensures if Mine(steps[0], call, f, c)
            then k < 6 && steps[0] == Undisturbed(call, f, c)[k] && MineOf(steps[1..], call, f, c) == Undisturbed(call, f, c)[k + 1..]
            else MineOf(steps[1..], call, f, c) == Undisturbed(call, f, c)[k..]
  {
    var own := Undisturbed(call, f, c);
    if Mine(steps[0], call, f, c) {
      assert MineOf(steps, call, f, c)[0] == steps[0];
      assert MineOf(steps[1..], call, f, c) == MineOf(steps, call, f, c)[1..];
      assert own[k..][1..] == own[k + 1..];
    } else {
      assert MineOf(steps, call, f, c) == MineOf(steps[1..], call, f, c);
    }
  }

  lemma StepOnCourse(h: Hash, w: World, s: Step, x: World, call: Id, f: Finalizer, c: Id, k: nat)
    requires Inv(h, w) && RacersOk(w) && OnCourse(h, w, call, f, c, k) && x == Apply(h, w, s)
    requires Mine(s, call, f, c) ==> k < 6 && s == Undisturbed(call, f, c)[k]
    ensures Inv(h, x) && RacersOk(x) && OnCourse(h, x, call, f, c, if Mine(s, call, f, c) then k + 1 else k)
  {
    StepKeeps(h, w, s);
    StepKeepsRacers(h, w, s);
    if Mine(s, call, f, c) {
      OwnStepAdvances(h, w, call, f, c, k);
    } else {
      OtherStepKeepsCourse(h, w, s, call, f, c, k);
    }
  }

  lemma {:induction false} StaysOnCourse(h: Hash, w: World, call: Id, f: Finalizer, c: Id, k: nat, steps: seq<Step>)
    requires Inv(h, w) && RacersOk(w) && OnCourse(h, w, call, f, c, k)
    requires k <= 6 && MineOf(steps, call, f, c) == Undisturbed(call, f, c)[k..]
    ensures OnCourse(h, Run(h, w, steps), call, f, c, 6)
    decreases |steps|
  {
    if steps != [] {
      var x := Apply(h, w, steps[0]);
      NextMine(steps, call, f, c, k);
      StepOnCourse(h, w, steps[0], x, call, f, c, k);
      StaysOnCourse(h, x, call, f, c, if Mine(steps[0], call, f, c) then k + 1 else k, steps[1..]);
    }
  }

  // ---------------------------------------------------------------- main results

  /** The finalizer has returned the image its row holds. */
  ghost predicate Returns(w: World, call: Id, artifact: Id) {
    && w.Ready(artifact) && call in w.finalizers && w.finalizers[call].artifact == artifact
    && w.finalizers[call].phase == Done(w.Image(artifact))
  }

  /** A finalizer that takes its steps in order, from the first or from wherever it is, returns its row's image, whatever
      anybody else does in between - other finalizers, readers, the collector - short of ending its window or membership. */
  lemma FinalizerReturnsItsRow(h: Hash, w: World, call: Id, f: Finalizer, c: Id, k: nat, steps: seq<Step>)
    requires Reachable(h, w) && OnCourse(h, w, call, f, c, k)
    requires k <= 6 && MineOf(steps, call, f, c) == Undisturbed(call, f, c)[k..]
    ensures Returns(Run(h, w, steps), call, f.artifact)
  {
    ReachableRacers(h, w);
    StaysOnCourse(h, w, call, f, c, k, steps);
    RunKeeps(h, w, steps);
    var x := Run(h, w, steps);
    assert ResultOk(x, x.finalizers[call]) && f.artifact !in x.deleted;
  }

  /** How many of its steps a finalizer has behind it. */
  function StepsTaken(phase: Phase): nat {
    match phase
    case Registered(_) => 1
    case Writing(_) => 2
    case Confirmed(_) => 4
    case Vouched(_) => 5
    case _ => 6
  }

  /** In a reachable state a finalizer is on course as long as its reservation stands and its candidate can be written,
      or only the last step is left and the row is ready. */
  lemma WritableIsOnCourse(h: Hash, w: World, call: Id)
    requires Reachable(h, w) && call in w.finalizers && InProgress(w.finalizers[call].phase)
    requires var f := w.finalizers[call];
             && w.Reserved(f.artifact, f.scope)
             && (Writable(h, w, f, f.phase.candidate) || (f.phase.Vouched? && w.Ready(f.artifact)))
    ensures var f := w.finalizers[call];
            OnCourse(h, w, call, f, f.phase.candidate, StepsTaken(f.phase))
  {
    ReachableRacers(h, w);
    var f := w.finalizers[call];
    assert CandidateOk(w, f, f.phase.candidate);
  }

  /** Its remaining steps alone bring such a finalizer to the row's image. */
  lemma RemainingStepsReturn(h: Hash, w: World, call: Id)
    requires Reachable(h, w) && call in w.finalizers && InProgress(w.finalizers[call].phase)
    requires var f := w.finalizers[call];
             && w.Reserved(f.artifact, f.scope)
             && (Writable(h, w, f, f.phase.candidate) || (f.phase.Vouched? && w.Ready(f.artifact)))
    ensures var f := w.finalizers[call];
            var rest := Undisturbed(call, f, f.phase.candidate)[StepsTaken(f.phase)..];
            Returns(Run(h, w, rest), call, f.artifact)
  {
    var f := w.finalizers[call];
    var c, k := f.phase.candidate, StepsTaken(f.phase);
    WritableIsOnCourse(h, w, call);
    OwnStepsAreMine(call, f, c, k);
    FinalizerReturnsItsRow(h, w, call, f, c, k, Undisturbed(call, f, c)[k..]);
  }

  lemma {:induction false} OwnStepsAreMine(call: Id, f: Finalizer, c: Id, k: nat)
    requires k <= 6
    ensures MineOf(Undisturbed(call, f, c)[k..], call, f, c) == Undisturbed(call, f, c)[k..]
    decreases 6 - k
  {
    if k < 6 {
      assert Undisturbed(call, f, c)[k..][1..] == Undisturbed(call, f, c)[k + 1..];
      OwnStepsAreMine(call, f, c, k + 1);
    }
  }

  /** Two finalizers of one reservation that both run through, interleaved with each other and with anything else, both
      return the same image: the loser gets the winner's. */
  lemma RacersReturnTheSameImage(h: Hash, w: World, j: Id, f: Finalizer, c: Id, k: Id, g: Finalizer, d: Id, steps: seq<Step>)
    requires Reachable(h, w) && f.artifact == g.artifact
    requires OnCourse(h, w, j, f, c, 0) && OnCourse(h, w, k, g, d, 0)
    requires MineOf(steps, j, f, c) == Undisturbed(j, f, c) && MineOf(steps, k, g, d) == Undisturbed(k, g, d)
    ensures var x := Run(h, w, steps);
            && Returns(x, j, f.artifact) && Returns(x, k, f.artifact)
            && x.finalizers[j].phase.image == x.finalizers[k].phase.image
  {
    assert Undisturbed(j, f, c)[0..] == Undisturbed(j, f, c) && Undisturbed(k, g, d)[0..] == Undisturbed(k, g, d);
    FinalizerReturnsItsRow(h, w, j, f, c, 0, steps);
    FinalizerReturnsItsRow(h, w, k, g, d, 0, steps);
  }

  /** A payload no row points at, once its window has passed or the collector has begun on it, can be removed, and
      nothing else with it. */
  lemma UnreferencedIsCollected(h: Hash, w: World, c: Id)
    requires Reachable(h, w) && Collectable(w, c)
    ensures var x := Run(h, w, [Quarantine(c), Collect(c, true, true)]);
            && c in x.payloads && x.payloads[c].stage == Deleted && x.payloads[c].retired && c !in x.store
            && x.artifacts == w.artifacts && x.finalizers == w.finalizers && x.store == w.store - {c}
  {
    var s := [Quarantine(c), Collect(c, true, true)];
    var quarantined := Apply(h, w, s[0]);
    assert Collectable(quarantined, c) && quarantined.payloads[c].retired;
    assert s[1..] == [s[1]] && s[1..][1..] == [];
    assert Run(h, w, s) == Run(h, quarantined, s[1..]) == Run(h, Apply(h, quarantined, s[1]), s[1..][1..]);
  }

  /** What the collector has taken no row ever points at again, late uploads or not. */
  lemma {:induction false} DeletedIsNeverAdopted(h: Hash, w: World, c: Id, steps: seq<Step>)
    requires Inv(h, w) && c in w.payloads && w.payloads[c].stage in {Deleting, Deleted}
    ensures var x := Run(h, w, steps); c in x.payloads && x.payloads[c].stage in {Deleting, Deleted} && !x.Referenced(c)
    decreases |steps|
  {
    if steps == [] {
      UnadoptedIsUnreferenced(h, w, c);
    } else {
      StepKeeps(h, w, steps[0]);
      DeletionIsFinal(h, w, c, steps[0]);
      DeletedIsNeverAdopted(h, Apply(h, w, steps[0]), c, steps[1..]);
    }
  }

  lemma UnadoptedIsUnreferenced(h: Hash, w: World, c: Id)
    requires Inv(h, w) && c in w.payloads && w.payloads[c].stage in {Deleting, Deleted}
    ensures !w.Referenced(c)
  {
    forall id | id in w.artifacts && w.artifacts[id].manifest.Some? ensures w.artifacts[id].manifest.value.payload != c {
      assert PointerOk(w, id);
    }
  }

  lemma FinalizerStepLeavesDeleted(h: Hash, w: World, call: Id, s: Step, c: Id)
    requires call in w.finalizers && c in w.payloads && w.payloads[c].stage in {Deleting, Deleted}
    ensures var x := FinalizerStep(h, w, call, s); c in x.payloads && x.payloads[c].stage == w.payloads[c].stage
  {
    if s.Finish? && w.finalizers[call].phase.Vouched? {
      FinishLeavesDeleted(h, w, call, c);
    } else if !(s.Vouch? && w.finalizers[call].phase.Confirmed?) {
      RivalMovesOn(h, w, call, s);
    }
  }

  lemma FinishLeavesDeleted(h: Hash, w: World, call: Id, c: Id)
    requires call in w.finalizers && w.finalizers[call].phase.Vouched?
    requires c in w.payloads && w.payloads[c].stage in {Deleting, Deleted}
    ensures var x := FinishStep(h, w, call); c in x.payloads && x.payloads[c].stage == w.payloads[c].stage
  {
  }

  lemma DeletionIsFinal(h: Hash, w: World, c: Id, s: Step)
    requires c in w.payloads && w.payloads[c].stage in {Deleting, Deleted}
    ensures var x := Apply(h, w, s); c in x.payloads && x.payloads[c].stage in {Deleting, Deleted}
  {
    match s
    case OpenWrite(_) | ReadBack(_) | Vouch(_) | Finish(_) | Abandon(_) =>
      if s.call in w.finalizers {
        FinalizerStepLeavesDeleted(h, w, s.call, s, c);
      }
    case _ =>
  }

  /** When a member leaves, the payload of a ready row goes with the row: retired, and up for collection. */
  lemma LeavingRetiresThePayload(h: Hash, w: World, id: Id)
    requires Reachable(h, w) && w.Ready(id)
    ensures var c := w.artifacts[id].manifest.value.payload;
            var x := Apply(h, w, Leave(w.artifacts[id].scope));
            id !in x.artifacts && id in x.deleted && c in x.payloads && x.payloads[c].retired && Collectable(x, c)
  {
    ReachablePointers(h, w);
    LeavingCollects(w, id);
  }

  lemma ReachablePointers(h: Hash, w: World)
    requires Reachable(h, w)
    ensures PointersOk(w)
  {
    ReachableInv(h, w);
  }

  lemma LeavingCollects(w: World, id: Id)
    requires PointersOk(w) && w.Ready(id)
    ensures var c := w.artifacts[id].manifest.value.payload;
            var x := LeaveStep(w, w.artifacts[id].scope);
            id !in x.artifacts && id in x.deleted && c in x.payloads && x.payloads[c].retired && Collectable(x, c)
  {
    AdoptedIsRetired(w, id);
    LeavingUnpoints(w, id);
  }

  lemma AdoptedIsRetired(w: World, id: Id)
    requires PointersOk(w) && w.Ready(id)
    ensures var c := w.artifacts[id].manifest.value.payload;
            var x := LeaveStep(w, w.artifacts[id].scope);
            c in x.payloads && x.payloads[c].retired && x.payloads[c].stage == Adopted
  {
    assert PointerOk(w, id);
    LeavingUnpoints(w, id);
    LeavingRetires(w, w.artifacts[id].scope, w.artifacts[id].manifest.value.payload);
  }

  lemma LeavingUnpoints(w: World, id: Id)
    requires PointersOk(w) && w.Ready(id)
    ensures var x := LeaveStep(w, w.artifacts[id].scope);
            id !in x.artifacts && id in x.deleted && !x.Referenced(w.artifacts[id].manifest.value.payload)
  {
    var c := w.artifacts[id].manifest.value.payload;
    var x := LeaveStep(w, w.artifacts[id].scope);
    assert PointerOk(w, id);
    forall other | other in x.artifacts && x.artifacts[other].manifest.Some? ensures x.artifacts[other].manifest.value.payload != c {
      assert x.artifacts[other] == w.artifacts[other] && PointerOk(w, other);
    }
  }

  lemma LeavingRetires(w: World, scope: Scope, c: Id)
    requires c in w.payloads && w.payloads[c].stage == Adopted && w.Referenced(c) && !LeaveStep(w, scope).Referenced(c)
    ensures var x := LeaveStep(w, scope); c in x.payloads && x.payloads[c] == w.payloads[c].(retired := true)
  {
    var left := map id | id in w.artifacts && w.artifacts[id].scope != scope :: w.artifacts[id];
    assert LeaveStep(w, scope).Referenced(c) == w.(artifacts := left).Referenced(c);
  }

  /** Nothing leaves the store but what no row points at and an earlier step retired. */
  lemma OnlyRetiredIsRemoved(h: Hash, w: World, s: Step, c: Id)
    requires c in w.store && c !in Apply(h, w, s).store
    ensures c in w.payloads && w.payloads[c].retired && !w.Referenced(c)
  {
    if Works(s) {
      WorkIsAFinalizerStep(h, w, s);
      if s.call in w.finalizers {
        WorkKeepsStore(h, w, s.call, s);
      }
    }
  }

  lemma WorkKeepsStore(h: Hash, w: World, call: Id, s: Step)
    requires call in w.finalizers
    ensures FinalizerStep(h, w, call, s).store == w.store
  {
    if !(s.Finish? && w.finalizers[call].phase.Vouched?) && !(s.Vouch? && w.finalizers[call].phase.Confirmed?) {
      RivalMovesOn(h, w, call, s);
    }
  }

  // ---------------------------------------------------------------- sizes

  /** Only bytes of a known media type and size are ever registered. */
  ghost predicate SentIsFit(w: World) {
    forall c | c in w.sent :: Sniff(w.sent[c]).Some? && |w.sent[c]| <= MAX_BYTES
  }

  lemma StepKeepsSentFit(h: Hash, w: World, s: Step)
    requires SentIsFit(w)
    ensures SentIsFit(Apply(h, w, s))
  {
    if Works(s) {
      WorkIsAFinalizerStep(h, w, s);
      if s.call in w.finalizers {
        FinalizerStepFrame(h, w, s.call, s);
      }
    } else if !s.Begin? {
      OthersKeepSent(h, w, s);
    }
  }

  lemma {:induction false} RunKeepsSentFit(h: Hash, w: World, steps: seq<Step>)
    requires SentIsFit(w)
    ensures SentIsFit(Run(h, w, steps))
    decreases |steps|
  {
    if steps != [] {
      StepKeepsSentFit(h, w, steps[0]);
      RunKeepsSentFit(h, Apply(h, w, steps[0]), steps[1..]);
    }
  }

  /** No image over the limit is ever published, nor one that is no image. */
  lemma PublishedImagesAreFit(h: Hash, w: World, id: Id)
    requires Reachable(h, w) && w.Ready(id)
    ensures var c := w.artifacts[id].manifest.value.payload;
            && w.Image(id).byteSize <= MAX_BYTES
            && c in w.sent && Sniff(w.sent[c]) == Some(w.Image(id).mediaType) && |w.sent[c]| == w.Image(id).byteSize
  {
    ReachableInv(h, w);
    var steps :| w == Run(h, EMPTY, steps);
    RunKeepsSentFit(h, EMPTY, steps);
    assert PointerOk(w, id);
  }

  // ---------------------------------------------------------------- media types

  /** No bytes bear two signatures, so the order in which they are looked for is immaterial. */
  lemma SniffIsBySignature(bytes: Bytes)
    ensures Sniff(bytes) == Some(Png) <==> PNG <= bytes
    ensures Sniff(bytes) == Some(Jpeg) <==> JPEG <= bytes
    ensures Sniff(bytes) == Some(Gif) <==> GIF87A <= bytes || GIF89A <= bytes
    ensures Sniff(bytes) == Some(Webp) <==> RIFF <= bytes && |bytes| >= 12 && bytes[8..12] == WEBP
  {
    if |bytes| >= 3 {
      assert PNG[0] == 0x89 && JPEG[0] == 0xff && GIF87A[0] == GIF89A[0] == 0x47 && RIFF[0] == 0x52;
    }
    if |bytes| >= 12 {
      assert bytes[8..][..4] == bytes[8..12];
      assert WEBP <= bytes[8..] <==> bytes[8..12] == WEBP;
    }
  }

  predicate StillOpen(w: World, c: Id) { c in w.payloads && w.payloads[c].stage == Pending && w.payloads[c].open }

  /** The last step fails exactly if the reservation or the membership is gone, or the row is still pending and the
      candidate's window has passed or the candidate was collected; otherwise it returns the row's image. */
  lemma FinishFailsExactlyWhen(h: Hash, w: World, call: Id)
    requires Reachable(h, w) && call in w.finalizers && w.finalizers[call].phase.Vouched?
    ensures var f := w.finalizers[call];
            var x := Apply(h, w, Finish(call));
            && call in x.finalizers
            && (x.finalizers[call].phase.Failed?
                <==> !w.Reserved(f.artifact, f.scope) || (!w.Ready(f.artifact) && !StillOpen(w, f.phase.candidate)))
            && (!x.finalizers[call].phase.Failed? ==> Returns(x, call, f.artifact))
            && (w.Ready(f.artifact) && !x.finalizers[call].phase.Failed? ==> x.Image(f.artifact) == w.Image(f.artifact))
  {
    ReachableRacers(h, w);
    var f := w.finalizers[call];
    assert CandidateOk(w, f, f.phase.candidate);
  }
}
