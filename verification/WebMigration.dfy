/** Draining the web fleet before a schema migration, and starting or retiring machines around it
    (infrastructure/web-cutover.ts, infrastructure/migrations.ts). */
module WebMigration {
  import opened Wrappers

  type Id = string

  datatype State = Created | Starting | Started | Stopping | Stopped | Suspended | Replacing | FailedState

  datatype Restart = No | OnFailure | Always | Unset

  datatype Mount = Mount(path: string, volume: string)

  datatype Config = Config(services: nat, restart: Restart, mounts: seq<Mount>, image: string, migratedImage: Option<string>)

  /** `alive`: the machine's "alive" check passes. */
  datatype Machine = Machine(state: State, instance: Option<string>, config: Option<Config>, alive: bool)

  type Fleet = map<Id, Machine>

  const ATTEMPTS: nat := 125

  const AUTH_PATH := "/root/.eve/auth"

  predicate IsStopped(m: Machine) { m.state in {Stopped, Suspended, Created} }

  predicate Drained(m: Machine) { m.config.Some? && m.config.value.services == 0 && m.config.value.restart == No }

  predicate Quiet(m: Machine) { IsStopped(m) && Drained(m) }

  predicate AllStopped(f: Fleet) { forall id | id in f :: IsStopped(f[id]) }

  predicate AllQuiet(f: Fleet) { forall id | id in f :: Quiet(f[id]) }

  /** The retained machine is there with its volume. */
  predicate Retains(f: Fleet, retained: (Id, string)) { retained.0 in f && MountsVolume(f[retained.0], retained.1) }

  predicate MountsVolume(m: Machine, volume: string) { m.config.Some? && Mount(AUTH_PATH, volume) in m.config.value.mounts }

  /** What the platform does by itself: configuration is kept, nothing is added, and a stopped machine
      starts only through a service or a restart policy other than "no". */
  ghost predicate PlatformStep(a: Fleet, b: Fleet) {
    b.Keys <= a.Keys
    && forall id | id in b :: b[id].config == a[id].config && (IsStopped(a[id]) && !IsStopped(b[id]) ==> !Drained(a[id]))
  }

  /** The second listing asks for exactly what keeps the fleet stopped from then on. */
  lemma QuietIffStaysStopped(a: Fleet)
    ensures AllQuiet(a) <==> forall b | PlatformStep(a, b) :: AllStopped(b)
  {
    if AllQuiet(a) {
      forall b | PlatformStep(a, b) ensures AllStopped(b) {
        forall id | id in b ensures IsStopped(b[id]) {
          assert Quiet(a[id]);
        }
      }
    } else {
      var id :| id in a && !Quiet(a[id]);
      var b := a[id := a[id].(state := Started)];
      assert PlatformStep(a, b) && !IsStopped(b[id]);
    }
  }

  lemma QuietStaysQuiet(a: Fleet, b: Fleet)
    requires AllQuiet(a) && PlatformStep(a, b)
    ensures AllQuiet(b)
  {
    forall id | id in b ensures Quiet(b[id]) {
      assert Quiet(a[id]);
    }
  }

  // ---------------------------------------------------------------- commands

  datatype Command = Update(id: Id) | Stop(id: Id) | Start(id: Id) | CreateMigration | DeleteMigration

  datatype Snapshot = Snapshot(fleet: Fleet, migrating: bool)

  predicate Targets(commands: seq<Command>, id: Id) { forall c | c in commands :: c == Update(id) || c == Stop(id) }

  predicate StopsOnly(commands: seq<Command>) { forall c | c in commands :: c.Update? || c.Stop? }

  /** At most one of each command, for this machine. */
  lemma StopLog(before: seq<Command>, drained: seq<Command>, after: seq<Command>, id: Id)
    requires drained == before || drained == before + [Update(id)]
    requires after == drained || after == drained + [Stop(id)]
    ensures before <= after && Targets(after[|before|..], id) && (after != drained ==> Stop(id) in after[|before|..])
  {
    var sent := after[|before|..];
    assert sent == (if drained == before then [] else [Update(id)]) + (if after == drained then [] else [Stop(id)]);
  }

  lemma StopsContinue(a: seq<Command>, b: seq<Command>, c: seq<Command>, id: Id)
    requires a <= b <= c && StopsOnly(b[|a|..]) && Targets(c[|b|..], id)
    ensures a <= c && StopsOnly(c[|a|..])
  {
    assert c[|a|..] == b[|a|..] + c[|b|..];
  }

  datatype Reason = SecretsChanged | BackupFailed | DrainFailed | CreateFailed | StartFailed | MigrationFailed | TimedOut
                  | GrantsFailed | InventoryFailed | RemovalFailed

  /** What a migration hears besides the fleet: exit codes of the backup, the grants and the inventory check, whether the
      migration machine was created, started and removed, and at each attempt the migration's exit code, once written. */
  datatype Answers = Answers(backup: int, created: bool, started: bool, report: nat -> Option<int>,
                             grants: int, inventory: int, removed: bool)

  /** What the attempts from this one on find first. */
  function FirstReport(report: nat -> Option<int>, attempt: nat): Option<int>
    requires attempt <= ATTEMPTS
    decreases ATTEMPTS - attempt
  {
    if attempt == ATTEMPTS then None
    else if report(attempt).Some? then report(attempt)
    else FirstReport(report, attempt + 1)
  }

  lemma {:induction false} FirstReportIsFirst(report: nat -> Option<int>, attempt: nat)
    requires attempt <= ATTEMPTS
    ensures FirstReport(report, attempt) == None <==> forall k | attempt <= k < ATTEMPTS :: report(k) == None
    ensures forall code :: FirstReport(report, attempt) == Some(code) <==>
              exists k | attempt <= k < ATTEMPTS :: report(k) == Some(code) && forall j | attempt <= j < k :: report(j) == None
    decreases ATTEMPTS - attempt
  {
    if attempt < ATTEMPTS {
      FirstReportIsFirst(report, attempt + 1);
      if report(attempt) == None {
        forall code ensures FirstReport(report, attempt) == Some(code) <==>
          exists k | attempt <= k < ATTEMPTS :: report(k) == Some(code) && forall j | attempt <= j < k :: report(j) == None
        {
          if k :| attempt + 1 <= k < ATTEMPTS && report(k) == Some(code) && forall j | attempt + 1 <= j < k :: report(j) == None {
            assert forall j | attempt <= j < k :: report(j) == None;
          }
        }
      }
    }
  }

  /** A machine that can be drained and stopped as it is: not on its way between states. */
  predicate Stoppable(m: Machine) {
    m.config.Some? && m.instance.Some? && (IsStopped(m) || m.state in {Started, FailedState})
  }

  /** The machine after that. */
  function StoppedWeb(m: Machine): Machine
    requires m.config.Some?
  {
    m.(config := Some(m.config.value.(services := 0, restart := No)), state := if IsStopped(m) then m.state else Stopped)
  }

  /** The commands that takes. */
  function StopCommands(id: Id, m: Machine): seq<Command> {
    (if Drained(m) then [] else [Update(id)]) + (if IsStopped(m) then [] else [Stop(id)])
  }

  /** The fleet once `done` are stopped. */
  function StoppedFleet(f: Fleet, done: set<Id>): Fleet
    requires forall id | id in f && id in done :: f[id].config.Some?
  {
    map id | id in f :: if id in done then StoppedWeb(f[id]) else f[id]
  }

  lemma OneMoreStopped(f: Fleet, done: set<Id>, id: Id)
    requires id in f && id !in done && f[id].config.Some? && forall k | k in f && k in done :: f[k].config.Some?
    ensures StoppedFleet(f, done)[id := StoppedWeb(f[id])] == StoppedFleet(f, done + {id})
  {
  }

  predicate AllStoppable(f: Fleet) { forall id | id in f :: Stoppable(f[id]) }

  datatype Outcome = Verified | Refused(reason: Reason)

  /** The web app's machines, the migration machine beside the database, and every command sent.
      `settled` starts at the second listing: from there on only the platform acts on the fleet. */
  class Operator {
    var fleet: Fleet
    var migrating: bool
    var log: seq<Command>
    var settled: bool
    var trail: seq<Snapshot>
    const still: bool   // every request is answered and carried out, and nobody else acts on the fleet

    /** At no moment does a migration machine exist beside a web machine that is not stopped. */
    ghost predicate Safe()
      reads this
    {
      && (forall s | s in trail :: s.migrating ==> AllStopped(s.fleet))
      && (migrating ==> settled) && (settled ==> AllQuiet(fleet))
    }

    constructor (fleet: Fleet, still: bool)
      ensures this.still == still
      ensures Safe() && this.fleet == fleet && !migrating && !settled && log == [] && trail == []
    {
      this.fleet, migrating, settled, log, trail, this.still := fleet, false, false, [], [], still;
    }

    /** Time passes: before the second listing anybody may do anything to the fleet. */
    method Drift()
      requires Safe()
      modifies this`fleet, this`trail
      ensures Safe() && trail == old(trail) + [Snapshot(fleet, migrating)]
      ensures settled ==> PlatformStep(old(fleet), fleet)
      ensures still ==> fleet == old(fleet)
    {
      var next: Fleet := *;
      if still {
        next := fleet;
      }
      if settled {
        var others := map id | id in fleet && id in next
            && next[id].config == fleet[id].config
            && (IsStopped(fleet[id]) && !IsStopped(next[id]) ==> !Drained(fleet[id])) :: next[id];
        QuietStaysQuiet(fleet, others);
        fleet := others;
      } else {
        fleet := next;
      }
      trail := trail + [Snapshot(fleet, migrating)];
    }

    method Get(id: Id) returns (m: Option<Machine>)
      requires Safe()
      modifies this`fleet, this`trail
      ensures Safe() && old(trail) < trail && trail[|trail| - 1] == Snapshot(fleet, migrating)
      ensures settled ==> PlatformStep(old(fleet), fleet)
      ensures m.Some? ==> id in fleet && fleet[id] == m.value
      ensures still ==> fleet == old(fleet) && m == if id in fleet then Some(fleet[id]) else None
    {
      Drift();
      var answered: bool := *;
      answered := answered || still;
      m := if answered && id in fleet then Some(fleet[id]) else None;
    }

    // -------------------------------------------------------------- stopWebMachine, lines 22-74

    /** The machine was seen without services and restart policy, and from then on seen stopped: at once, or, told to
        stop, when the platform reported it. */
    ghost predicate DrainSeen(from: nat, id: Id, stopSent: bool)
      reads this
    {
      exists j, k | from <= j <= k < |trail| :: DrainedThenStopped(trail[j].fleet, trail[k].fleet, id) && (j == k || stopSent)
    }

    method StopWebMachine(id: Id) returns (ok: bool)
      requires Safe() && !settled
      modifies this`fleet, this`trail, this`log
      ensures Safe() && old(trail) <= trail
      ensures old(log) <= log && Targets(log[|old(log)|..], id)
      ensures ok ==> DrainSeen(|old(trail)|, id, Stop(id) in log[|old(log)|..])
      ensures still ==> (ok <==> id in old(fleet) && Stoppable(old(fleet)[id]))
      ensures still && ok ==> fleet == old(fleet)[id := StoppedWeb(old(fleet)[id])]
                              && log == old(log) + StopCommands(id, old(fleet)[id])
    {
      var current := Drain(id);
      if current.None? {
        return false;
      }
      ghost var seen, drained := |trail| - 1, log;
      ghost var stopped;
      ok, stopped := Halt(id);
      StopLog(old(log), drained, log, id);
      assert ok ==> DrainedThenStopped(trail[seen].fleet, trail[stopped].fleet, id);
    }

    /** Lines 61-72: a drained machine is told to stop unless it has. `stopped` is when it was seen stopped. */
    method Halt(id: Id) returns (ok: bool, ghost stopped: nat)
      requires Safe() && !settled && id in fleet
      requires trail != [] && trail[|trail| - 1] == Snapshot(fleet, migrating)
      modifies this`fleet, this`trail, this`log
      ensures Safe() && old(trail) <= trail && log == old(log) + if IsStopped(old(fleet)[id]) then [] else [Stop(id)]
      ensures ok ==> |old(trail)| - 1 <= stopped < |trail| && id in trail[stopped].fleet && IsStopped(trail[stopped].fleet[id])
      ensures ok ==> (stopped == |old(trail)| - 1 <==> IsStopped(old(fleet)[id]))
      ensures still ==> ok && fleet == if IsStopped(old(fleet)[id]) then old(fleet)
                                       else old(fleet)[id := old(fleet)[id].(state := Stopped)]
    {
      if IsStopped(fleet[id]) {
        return true, |trail| - 1;
      }
      log := log + [Stop(id)];
      ok := WaitStopped(id);
      stopped := |trail| - 1;
    }

    /** Lines 26-60: services and restart policy are taken away, and the machine is seen without them. */
    method Drain(id: Id) returns (current: Option<Machine>)
      requires Safe() && !settled
      modifies this`fleet, this`trail, this`log
      ensures Safe() && old(trail) <= trail
      ensures log == old(log) || log == old(log) + [Update(id)]
      ensures current.Some? ==> |old(trail)| < |trail| && trail[|trail| - 1] == Snapshot(fleet, migrating)
                                && id in fleet && fleet[id] == current.value && Drained(current.value)
      ensures still ==> (current.Some? <==> id in old(fleet) && Stoppable(old(fleet)[id]))
      ensures still && current.Some? ==>
                && fleet == old(fleet)[id := old(fleet)[id].(config := Some(old(fleet)[id].config.value.(services := 0, restart := No)))]
                && log == old(log) + if Drained(old(fleet)[id]) then [] else [Update(id)]
    {
      var machine := Get(id);
      if machine.None? || machine.value.config.None? || machine.value.instance.None? {
        return None;
      }
      if machine.value.config.value.services > 0 || machine.value.config.value.restart != No {
        var ok := Configure(id, machine.value.instance.value, machine.value.config.value);
        if !ok {
          return None;
        }
      }
      current := AwaitDrained(id);
    }

    /** The stop may fail, and so may waiting for the platform to report it. */
    method WaitStopped(id: Id) returns (ok: bool)
      requires Safe() && !settled
      modifies this`fleet, this`trail
      ensures still && id in old(fleet) ==> ok && fleet == old(fleet)[id := old(fleet)[id].(state := Stopped)]
      ensures Safe() && old(trail) < trail && (ok ==> id in trail[|trail| - 1].fleet && trail[|trail| - 1].fleet[id].state == Stopped)
    {
      Drift();
      if still && id in fleet {
        fleet := fleet[id := fleet[id].(state := Stopped)];
        trail := trail + [Snapshot(fleet, migrating)];
      }
      ok := *;
      ok := (ok || still) && id in fleet && fleet[id].state == Stopped;
    }

    /** The update is refused when the version has moved on. */
    method Configure(id: Id, version: string, config: Config) returns (ok: bool)
      requires Safe() && !settled
      modifies this`fleet, this`trail, this`log
      ensures Safe() && old(trail) <= trail && log == old(log) + [Update(id)]
      ensures ok ==> id in fleet && Drained(fleet[id]) && fleet[id].config == Some(config.(services := 0, restart := No))
      ensures still && id in old(fleet) && old(fleet)[id].instance == Some(version) ==>
                ok && fleet == old(fleet)[id := old(fleet)[id].(config := Some(config.(services := 0, restart := No)))]
    {
      log := log + [Update(id)];
      Drift();
      ok := *;
      ok := (ok || still) && id in fleet && fleet[id].instance == Some(version);
      if ok {
        fleet := fleet[id := fleet[id].(config := Some(config.(services := 0, restart := No)))];
        trail := trail + [Snapshot(fleet, migrating)];
      }
    }

    method AwaitDrained(id: Id) returns (m: Option<Machine>)
      requires Safe()
      modifies this`fleet, this`trail
      ensures Safe() && old(trail) <= trail
      ensures m.Some? ==> |old(trail)| < |trail| && trail[|trail| - 1] == Snapshot(fleet, migrating)
                          && id in fleet && fleet[id] == m.value
                          && Drained(m.value) && (IsStopped(m.value) || m.value.state in {Started, FailedState})
      ensures still ==> fleet == old(fleet)
      ensures still && id in fleet && Drained(fleet[id]) && (IsStopped(fleet[id]) || fleet[id].state in {Started, FailedState}) ==>
                m == Some(fleet[id])
    {
      for attempt := 0 to 25
        invariant Safe() && old(trail) <= trail
        invariant still ==> fleet == old(fleet)
        invariant still && attempt > 0 ==>
                    !(id in fleet && Drained(fleet[id]) && (IsStopped(fleet[id]) || fleet[id].state in {Started, FailedState}))
      {
        m := Get(id);
        if m.Some? && Drained(m.value) && (IsStopped(m.value) || m.value.state in {Started, FailedState}) {
          return;
        }
      }
      m := None;
    }

    // -------------------------------------------------------------- quiesceWebForMigration, lines 76-112

    method List() returns (listed: Fleet, ok: bool)
      requires Safe() && !settled
      modifies this`fleet, this`trail
      ensures Safe() && old(trail) < trail && listed == fleet == trail[|old(trail)|].fleet
      ensures still ==> ok && fleet == old(fleet)
    {
      Drift();
      listed := fleet;
      ok := *;
      ok := ok || still;
    }

    method Quiesce(retained: Option<(Id, string)>) returns (ok: bool)
      requires Safe() && !settled
      modifies this
      ensures Safe() && old(trail) <= trail && migrating == old(migrating)
      ensures old(log) <= log && StopsOnly(log[|old(log)|..])
      ensures ok == settled
      ensures ok && retained.Some? ==> exists k | |old(trail)| <= k < |trail| :: Retains(trail[k].fleet, retained.value)
      ensures still ==> (ok <==> AllStoppable(old(fleet)) && (retained.Some? ==> Retains(old(fleet), retained.value)))
      ensures still && ok ==> fleet == StoppedFleet(old(fleet), old(fleet).Keys)
    {
      var machines;
      machines, ok := List();
      ghost var listed := |old(trail)|;
      if !ok {
        return;
      }
      if retained.Some? && !Retains(machines, retained.value) {
        return false;
      }
      if exists id | id in machines :: machines[id].instance.None? || machines[id].config.None? {
        return false;
      }
      ghost var before := trail;
      ok := DrainAll(machines.Keys);
      if !ok {
        return;
      }
      assert trail[listed] == before[listed];
      var current;
      current, ok := List();
      if !ok || exists id | id in current :: id !in machines || !Quiet(current[id]) {
        return false;
      }
      settled := true;
    }

    /** Of the fleet that was, these are stopped, and the others are as they were. */
    ghost predicate Stopping(was: Fleet, done: set<Id>)
      reads this
    {
      (forall id | id in was && id in done :: Stoppable(was[id])) && fleet == StoppedFleet(was, done)
    }

    method StopNext(id: Id, ghost was: Fleet, ghost ids: set<Id>, ghost done: set<Id>) returns (ok: bool)
      requires Safe() && !settled && id in ids && id !in done
      requires still && ids == was.Keys ==> Stopping(was, done)
      modifies this`fleet, this`trail, this`log
      ensures Safe() && old(trail) <= trail && old(log) <= log && Targets(log[|old(log)|..], id)
      ensures still && ids == was.Keys ==> (ok <==> Stoppable(was[id])) && (ok ==> Stopping(was, done + {id}))
    {
      ok := StopWebMachine(id);
      if ok && still && ids == was.Keys {
        OneMoreStopped(was, done, id);
      }
    }

    method DrainAll(ids: set<Id>) returns (ok: bool)
      requires Safe() && !settled
      modifies this`fleet, this`trail, this`log
      ensures Safe() && old(trail) <= trail && old(log) <= log && StopsOnly(log[|old(log)|..])
      ensures still && ids == old(fleet).Keys ==>
                (ok <==> AllStoppable(old(fleet))) && (ok ==> fleet == StoppedFleet(old(fleet), ids))
    {
      var rest := ids;
      ok := true;
      while rest != {}
        invariant Safe() && old(trail) <= trail && rest <= ids && ok
        invariant still && ids == old(fleet).Keys ==> Stopping(old(fleet), ids - rest)
        invariant old(log) <= log && StopsOnly(log[|old(log)|..])
        decreases |rest|
      {
        var id :| id in rest;
        ghost var before := log;
        ok := StopNext(id, old(fleet), ids, ids - rest);
        assert ids - (rest - {id}) == (ids - rest) + {id};
        rest := rest - {id};
        StopsContinue(old(log), before, log, id);
        if !ok {
          return;
        }
      }
    }

    // -------------------------------------------------------------- migrateApplication

    /** migrations.ts lines 30-192. `secretsUnchanged` is the digest comparison before anything is stopped. */
    method Migrate(secretsUnchanged: bool, retained: Option<(Id, string)>, answers: Answers)
        returns (outcome: Outcome, ghost drain: seq<Command>, ghost rest: seq<Command>)
      requires Safe() && !settled && !migrating
      modifies this
      ensures Safe() && old(trail) <= trail
      ensures outcome == Refused(SecretsChanged) <==> !secretsUnchanged
      ensures outcome == Refused(BackupFailed) <==> secretsUnchanged && answers.backup != 0
      ensures !secretsUnchanged || answers.backup != 0 ==> log == old(log) && !settled
      ensures outcome == Refused(DrainFailed) <==> secretsUnchanged && answers.backup == 0 && !settled
      ensures settled ==> Judges(outcome, answers)
      ensures still && secretsUnchanged && answers.backup == 0 ==>
                (settled <==> AllStoppable(old(fleet)) && (retained.Some? ==> Retains(old(fleet), retained.value)))
      ensures outcome == Verified ==> !migrating
      ensures settled ==> AllQuiet(fleet)
      ensures log == old(log) + drain + rest && StopsOnly(drain)
      ensures rest == if !settled then [] else if answers.created then [CreateMigration, DeleteMigration] else [CreateMigration]
    {
      drain, rest := [], [];
      if !secretsUnchanged {
        outcome := Refused(SecretsChanged);
        return;
      }
      Drift();
      if answers.backup != 0 {
        outcome := Refused(BackupFailed);
        return;
      }
      outcome, drain, rest := Cutover(retained, answers);
    }

    /** The drain, and then the isolated migration. */
    method Cutover(retained: Option<(Id, string)>, answers: Answers)
        returns (outcome: Outcome, ghost drain: seq<Command>, ghost rest: seq<Command>)
      requires Safe() && !settled && !migrating
      modifies this
      ensures Safe() && old(trail) <= trail
      ensures if settled then Judges(outcome, answers) else outcome == Refused(DrainFailed)
      ensures still ==> (settled <==> AllStoppable(old(fleet)) && (retained.Some? ==> Retains(old(fleet), retained.value)))
      ensures outcome == Verified ==> !migrating
      ensures log == old(log) + drain + rest && StopsOnly(drain)
      ensures rest == if !settled then [] else if answers.created then [CreateMigration, DeleteMigration] else [CreateMigration]
    {
      rest := [];
      var quiet := Quiesce(retained);
      drain := log[|old(log)|..];
      if !quiet {
        outcome := Refused(DrainFailed);
        return;
      }
      ghost var drained := log;
      outcome := Isolated(answers);
      rest := log[|drained|..];
    }

    /** Lines 89-190: the migration machine is removed again on every way out; success is not reported unless it is. */
    method Isolated(answers: Answers) returns (outcome: Outcome)
      requires Safe() && settled
      modifies this
      ensures Safe() && settled && old(trail) <= trail
      ensures log == old(log) + if answers.created then [CreateMigration, DeleteMigration] else [CreateMigration]
      ensures Judges(outcome, answers) && (answers.created && answers.removed ==> !migrating)
    {
      log := log + [CreateMigration];
      migrating := *;              // an unanswered request may still have created it
      migrating := migrating || answers.created;
      Drift();
      if !answers.created {
        return Refused(CreateFailed);
      }
      outcome := Watch(answers);
      log := log + [DeleteMigration];
      migrating := migrating && !answers.removed;
      Drift();
      if outcome.Verified? && !answers.removed {
        outcome := Refused(RemovalFailed);
      }
    }

    method Watch(answers: Answers) returns (outcome: Outcome)
      requires Safe() && settled && answers.created
      modifies this`fleet, this`trail
      ensures Safe() && old(trail) <= trail
      ensures Judges(outcome, answers.(removed := true))
    {
      Drift();
      if !answers.started {
        return Refused(StartFailed);
      }
      var verified := false;
      for attempt := 0 to ATTEMPTS
        invariant Safe() && old(trail) <= trail && !verified
        invariant FirstReport(answers.report, 0) == FirstReport(answers.report, attempt)
      {
        Drift();
        if answers.report(attempt).Some? {
          if answers.report(attempt).value != 0 {
            return Refused(MigrationFailed);
          }
          verified := true;
          break;
        }
      }
      if !verified {
        return Refused(TimedOut);
      }
      Drift();
      if answers.grants != 0 {
        return Refused(GrantsFailed);
      }
      Drift();
      outcome := if answers.inventory == 0 then Verified else Refused(InventoryFailed);
    }

    // -------------------------------------------------------------- starting and retiring

    ghost predicate ReadySeen(from: nat, id: Id, release: string, volume: string)
      reads this
    {
      exists k | from <= k < |trail| :: id in trail[k].fleet && Ready(trail[k].fleet[id], release, volume)
    }

    /** Lines 177-207. */
    method RetireLegacy(replacement: Id, legacy: Id, release: string, volume: string) returns (ok: bool)
      requires Safe() && !settled
      modifies this`fleet, this`trail, this`log
      ensures Safe() && old(trail) <= trail && old(log) <= log && Targets(log[|old(log)|..], legacy)
      ensures log != old(log) || ok ==> replacement != legacy && ReadySeen(|old(trail)|, replacement, release, volume)
      ensures ok ==> DrainSeen(|old(trail)|, legacy, Stop(legacy) in log[|old(log)|..])
      ensures still ==> (ok <==> && replacement != legacy
                                 && replacement in old(fleet) && Ready(old(fleet)[replacement], release, volume)
                                 && legacy in old(fleet) && Stoppable(old(fleet)[legacy]))
      ensures still && ok ==> fleet == old(fleet)[legacy := StoppedWeb(old(fleet)[legacy])]
                              && log == old(log) + StopCommands(legacy, old(fleet)[legacy])
    {
      if replacement == legacy {
        return false;
      }
      var ready := AwaitReady(replacement, release, volume);
      if !ready {
        return false;
      }
      ghost var seen :| |old(trail)| <= seen < |trail| && replacement in trail[seen].fleet
                        && Ready(trail[seen].fleet[replacement], release, volume);
      ghost var before := trail;
      ok := StopWebMachine(legacy);
      assert trail[seen] == before[seen];
    }

    method AwaitReady(id: Id, release: string, volume: string) returns (ready: bool)
      requires Safe()
      modifies this`fleet, this`trail
      ensures Safe() && old(trail) <= trail && (ready ==> ReadySeen(|old(trail)|, id, release, volume))
      ensures still ==> fleet == old(fleet) && (ready <==> id in fleet && Ready(fleet[id], release, volume))
    {
      for attempt := 0 to 25
        invariant Safe() && old(trail) <= trail
        invariant still ==> fleet == old(fleet) && (attempt > 0 ==> !(id in fleet && Ready(fleet[id], release, volume)))
      {
        var m := Get(id);
        if m.Some? && Ready(m.value, release, volume) {
          return true;
        }
      }
      ready := false;
    }

    /** Lines 114-166: only the migrated image on its own volume is started. */
    method StartMigrated(id: Id, release: string, volume: string) returns (ok: bool)
      requires Safe() && !settled
      modifies this`fleet, this`trail, this`log
      ensures Safe() && old(trail) <= trail && (log == old(log) || log == old(log) + [Start(id)])
      ensures log != old(log) || ok ==>
                exists k | |old(trail)| <= k < |trail| :: id in trail[k].fleet && Migrated(trail[k].fleet[id], release, volume)
      ensures ok ==> id in fleet && fleet[id].state == Started && fleet[id].alive
      ensures still ==> (ok <==> id in old(fleet) && Startable(old(fleet)[id], release, volume))
      ensures still && ok ==> fleet == old(fleet)[id := old(fleet)[id].(state := Started, alive := true)]
                              && log == old(log) + if old(fleet)[id].state == Started then [] else [Start(id)]
    {
      var current := AwaitUpdated(id);
      if current.None? || !Migrated(current.value, release, volume) {
        return false;
      }
      ghost var seen := |trail| - 1;
      assert id in trail[seen].fleet && trail[seen].fleet[id] == current.value;
      if current.value.state != Started {
        log := log + [Start(id)];
        ok := *;
        if !ok && !still {
          return;
        }
      }
      ghost var before := trail;
      ok := WaitStarted(id);
      if ok {
        ok := AwaitAlive(id);
      }
      assert trail[seen] == before[seen];
    }

    /** A started machine comes up alive on a still platform. */
    method WaitStarted(id: Id) returns (ok: bool)
      requires Safe() && !settled
      modifies this`fleet, this`trail
      ensures Safe() && old(trail) <= trail
      ensures still && id in old(fleet) ==>
                ok && fleet == if old(fleet)[id].state == Started then old(fleet)
                               else old(fleet)[id := old(fleet)[id].(state := Started, alive := true)]
    {
      Drift();
      if still && id in fleet && fleet[id].state != Started {
        fleet := fleet[id := fleet[id].(state := Started, alive := true)];
        trail := trail + [Snapshot(fleet, migrating)];
      }
      ok := *;
      ok := ok || still;
    }

    method AwaitAlive(id: Id) returns (ok: bool)
      requires Safe() && !settled
      modifies this`fleet, this`trail
      ensures Safe() && old(trail) <= trail
      ensures ok ==> id in fleet && fleet[id].state == Started && fleet[id].alive
      ensures still ==> fleet == old(fleet) && (ok <==> id in fleet && fleet[id].state == Started && fleet[id].alive)
    {
      for attempt := 0 to 25
        invariant Safe() && old(trail) <= trail
        invariant still ==> fleet == old(fleet)
                            && (attempt > 0 ==> !(id in fleet && fleet[id].state == Started && fleet[id].alive))
      {
        var m := Get(id);
        if m.Some? && m.value.state == Started && m.value.alive {
          return true;
        }
      }
      ok := false;
    }

    method AwaitUpdated(id: Id) returns (m: Option<Machine>)
      requires Safe()
      modifies this`fleet, this`trail
      ensures Safe() && old(trail) <= trail
      ensures m.Some? ==> |old(trail)| < |trail| && trail[|trail| - 1] == Snapshot(fleet, migrating)
                          && id in fleet && fleet[id] == m.value && (IsStopped(m.value) || m.value.state == Started)
      ensures still ==> fleet == old(fleet) && (m.Some? <==> id in fleet && (IsStopped(fleet[id]) || fleet[id].state == Started))
    {
      for attempt := 0 to 25
        invariant Safe() && old(trail) <= trail
        invariant still ==> fleet == old(fleet)
                            && (attempt > 0 ==> !(id in fleet && (IsStopped(fleet[id]) || fleet[id].state == Started)))
      {
        m := Get(id);
        if m.Some? && (IsStopped(m.value) || m.value.state == Started) {
          return;
        }
      }
      m := None;
    }
  }

  /** A migration on a still platform is verified exactly if nothing stood in its way. */
  method StillMigration(fleet: Fleet, secretsUnchanged: bool, retained: Option<(Id, string)>, answers: Answers)
      returns (outcome: Outcome)
    ensures outcome == Verified <==>
              && secretsUnchanged && answers.backup == 0
              && AllStoppable(fleet) && (retained.Some? ==> Retains(fleet, retained.value))
              && answers.created && answers.started && FirstReport(answers.report, 0) == Some(0)
              && answers.grants == 0 && answers.inventory == 0 && answers.removed
  {
    var operator := new Operator(fleet, true);
    ghost var drain, rest;
    outcome, drain, rest := operator.Migrate(secretsUnchanged, retained, answers);
  }

  predicate Startable(m: Machine, release: string, volume: string) {
    Migrated(m, release, volume) && (IsStopped(m) || (m.state == Started && m.alive))
  }

  /** How an isolated migration ends, from the creation of its machine on: verified exactly if everything went well,
      and otherwise for the first thing that did not. */
  predicate Judges(outcome: Outcome, a: Answers) {
    var exit := FirstReport(a.report, 0);
    && (outcome == Verified <==>
          a.created && a.started && exit == Some(0) && a.grants == 0 && a.inventory == 0 && a.removed)
    && (outcome == Refused(CreateFailed) <==> !a.created)
    && (outcome == Refused(StartFailed) <==> a.created && !a.started)
    && (outcome == Refused(TimedOut) <==> a.created && a.started && exit == None)
    && (outcome == Refused(MigrationFailed) <==> a.created && a.started && exit.Some? && exit.value != 0)
    && (outcome == Refused(GrantsFailed) <==> a.created && a.started && exit == Some(0) && a.grants != 0)
    && (outcome == Refused(InventoryFailed) <==>
          a.created && a.started && exit == Some(0) && a.grants == 0 && a.inventory != 0)
    && (outcome == Refused(RemovalFailed) <==>
          a.created && a.started && exit == Some(0) && a.grants == 0 && a.inventory == 0 && !a.removed)
  }

  predicate DrainedThenStopped(a: Fleet, b: Fleet, id: Id) {
    id in a && Drained(a[id]) && id in b && IsStopped(b[id])
  }

  predicate Migrated(m: Machine, release: string, volume: string) {
    m.config.Some? && m.config.value.image == release && m.config.value.migratedImage == Some(release) && MountsVolume(m, volume)
  }

  predicate Ready(m: Machine, release: string, volume: string) {
    m.state == Started && m.config.Some? && m.config.value.migratedImage == Some(release) && MountsVolume(m, volume) && m.alive
  }
}
