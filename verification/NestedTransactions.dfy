/** Nested transactions over one connection's savepoints (db/queries.ts), against what they mean. */
module NestedTransactions {
  import opened Wrappers

  /** A committed or pending database is the writes applied to it so far, in order. */
  type Write = nat
  type Db = seq<Write>

  datatype Code = End | Then(first: Action, rest: Code)

  /** What code does. `Throw` is any failure of its own, cancellation and an elapsed deadline included. */
  datatype Action =
    | Insert(write: Write)
    | BadStatement                       // the database rejects it
    | Throw
    | Try(body: Code)                    // swallows whatever its body throws
    | Transaction(outermost: bool, body: Code)

  // ---------------------------------------------------------------- what nested transactions mean

  /** `poisoned`: a statement has failed in the innermost open transaction. */
  datatype Outcome = Outcome(kept: Db, poisoned: bool, threw: bool)

  /** `Promised` keeps the writes of every transaction that returned; `Actual` knows that COMMIT of a
      poisoned transaction rolls back and reports no error. */
  datatype Rule = Promised | Actual

  function Meaning(rule: Rule, code: Code, inside: bool, poisoned: bool): Outcome {
    match code
    case End => Outcome([], poisoned, false)
    case Then(first, rest) =>
      var a := ActionMeaning(rule, first, inside, poisoned);
      if a.threw then a
      else
        var b := Meaning(rule, rest, inside, a.poisoned);
        b.(kept := a.kept + b.kept)
  }

  function ActionMeaning(rule: Rule, action: Action, inside: bool, poisoned: bool): Outcome {
    match action
    case Insert(w) => if poisoned then Outcome([], poisoned, true) else Outcome([w], false, false)
    case BadStatement => Outcome([], inside, true)
    case Throw => Outcome([], poisoned, true)
    case Try(body) => Meaning(rule, body, inside, poisoned).(threw := false)
    case Transaction(outermost, body) =>
      if inside && (outermost || poisoned) then Outcome([], poisoned, true)
      else
        var r := Meaning(rule, body, true, false);
        var failed := r.threw || (r.poisoned && inside);
        var rolledBack := failed || (r.poisoned && rule == Actual);
        Outcome(if rolledBack then [] else r.kept, false, failed)
  }

  // ---------------------------------------------------------------- the promise

  datatype Enclosing = Enclosing(outermost: bool, returned: bool)

  /** A write that was carried out, with the transactions around it, the widest first. */
  datatype Attempt = Attempt(write: Write, around: seq<Enclosing>)
  {
    predicate EveryOneReturned() { forall e | e in around :: e.returned }
  }

  function Attempts(code: Code, inside: bool, poisoned: bool): seq<Attempt> {
    match code
    case End => []
    case Then(first, rest) =>
      var a := ActionMeaning(Actual, first, inside, poisoned);
      ActionAttempts(first, inside, poisoned) + if a.threw then [] else Attempts(rest, inside, a.poisoned)
  }

  function ActionAttempts(action: Action, inside: bool, poisoned: bool): seq<Attempt> {
    match action
    case Insert(w) => if poisoned then [] else [Attempt(w, [])]
    case BadStatement => []
    case Throw => []
    case Try(body) => Attempts(body, inside, poisoned)
    case Transaction(outermost, body) =>
      if inside && (outermost || poisoned) then []
      else Wrap(Attempts(body, true, false),
                Enclosing(outermost, !ActionMeaning(Actual, action, inside, poisoned).threw))
  }

  function Wrap(attempts: seq<Attempt>, e: Enclosing): (r: seq<Attempt>)
    ensures |r| == |attempts|
    ensures forall i | 0 <= i < |r| :: r[i] == Attempt(attempts[i].write, [e] + attempts[i].around)
  {
    if attempts == [] then []
    else [Attempt(attempts[0].write, [e] + attempts[0].around)] + Wrap(attempts[1..], e)
  }

  /** The writes whose every enclosing transaction returned. */
  function Survivors(attempts: seq<Attempt>): Db {
    if attempts == [] then []
    else (if attempts[0].EveryOneReturned() then [attempts[0].write] else []) + Survivors(attempts[1..])
  }

  // ---------------------------------------------------------------- the condition, read off the code

  /** Nothing but attempts that swallow what they throw: all that a transaction gets past after a failed statement. */
  predicate OnlyTries(code: Code) { code.End? || (code.first.Try? && OnlyTries(code.rest)) }

  /** Starting afresh, the code reaches a statement the database rejects, outside any transaction of its own. */
  predicate Fails(code: Code) {
    match code
    case End => false
    case Then(Insert(_), rest) => Fails(rest)
    case Then(BadStatement, _) => true
    case Then(Throw, _) => false
    case Then(Try(body), rest) => Fails(body) || Fails(rest)
    case Then(Transaction(outermost, body), rest) => !outermost && Completes(body) && !Fails(body) && Fails(rest)
  }

  /** Starting afresh inside a transaction, the code ends without throwing. */
  predicate Completes(code: Code) {
    match code
    case End => true
    case Then(Insert(_), rest) => Completes(rest)
    case Then(BadStatement, _) => false
    case Then(Throw, _) => false
    case Then(Try(body), rest) => if Fails(body) then OnlyTries(rest) else Completes(rest)
    case Then(Transaction(outermost, body), rest) => !outermost && Completes(body) && !Fails(body) && Completes(rest)
  }

  /** Past actions that end cleanly comes an attempt around a failing statement, and after it only attempts. */
  predicate Swallows(code: Code) {
    match code
    case End => false
    case Then(Insert(_), rest) => Swallows(rest)
    case Then(BadStatement, _) => false
    case Then(Throw, _) => false
    case Then(Try(body), rest) => if Fails(body) then OnlyTries(rest) else Swallows(rest)
    case Then(Transaction(outermost, body), rest) => !outermost && Completes(body) && !Fails(body) && Swallows(rest)
  }

  /** Starting afresh inside a transaction, a write is carried out that every transaction nested in the code keeps. */
  predicate Writes(code: Code) {
    match code
    case End => false
    case Then(Insert(_), _) => true
    case Then(BadStatement, _) => false
    case Then(Throw, _) => false
    case Then(Try(body), rest) => Writes(body) || (!Fails(body) && Writes(rest))
    case Then(Transaction(outermost, body), rest) =>
      !outermost && Completes(body) && !Fails(body) && (Writes(body) || Writes(rest))
  }

  /** Outside any transaction, the code reaches one that writes and swallows a failed statement. */
  predicate SwallowsWrites(code: Code) {
    match code
    case End => false
    case Then(Insert(_), rest) => SwallowsWrites(rest)
    case Then(BadStatement, _) => false
    case Then(Throw, _) => false
    case Then(Try(body), rest) => SwallowsWrites(body) || SwallowsWrites(rest)
    case Then(Transaction(_, body), rest) => (Swallows(body) && Writes(body)) || (Completes(body) && SwallowsWrites(rest))
  }

  /** To swallow a failed statement is to reach one and complete all the same. */
  lemma {:induction false} SwallowsMeans(code: Code)
    ensures Swallows(code) <==> Fails(code) && Completes(code)
    decreases code
  {
    if code.Then? {
      SwallowsMeans(code.rest);
      OnlyTriesComplete(code.rest);
    }
  }

  lemma {:induction false} OnlyTriesComplete(code: Code)
    ensures OnlyTries(code) ==> Completes(code)
    decreases code
  {
    if code.Then? {
      OnlyTriesComplete(code.rest);
    }
  }

  /** From a poisoned state only attempts get through, and nothing is kept. */
  lemma {:induction false} PoisonedMeaning(rule: Rule, code: Code)
    ensures var r := Meaning(rule, code, true, true); r.poisoned && r.kept == [] && (r.threw <==> !OnlyTries(code))
    decreases code
  {
    if code.Then? {
      if code.first.Try? {
        PoisonedMeaning(rule, code.first.body);
      }
      PoisonedMeaning(rule, code.rest);
    }
  }

  /** Inside a transaction the predicates say what the code does. */
  lemma {:induction false} InsideMeaning(rule: Rule, code: Code)
    ensures var r := Meaning(rule, code, true, false);
            (r.poisoned <==> Fails(code)) && (r.threw <==> !Completes(code)) && (r.kept != [] <==> Writes(code))
    decreases code
  {
    if code.Then? {
      match code.first {
        case Try(body) =>
          InsideMeaning(rule, body);
          PoisonedMeaning(rule, code.rest);
        case Transaction(_, body) => InsideMeaning(rule, body);
        case _ =>
      }
      InsideMeaning(rule, code.rest);
    }
  }

  /** Outside, it keeps less than promised exactly when a transaction with writes swallows a failed statement. */
  lemma {:induction false} OutsideMeaning(code: Code)
    ensures var p := Meaning(Promised, code, false, false);
            var a := Meaning(Actual, code, false, false);
            && !a.poisoned && a.threw == p.threw && !p.poisoned && |a.kept| <= |p.kept|
            && (SwallowsWrites(code) <==> |a.kept| < |p.kept|) && (!SwallowsWrites(code) ==> a == p)
    decreases code
  {
    if code.Then? {
      match code.first {
        case Try(body) => OutsideMeaning(body);
        case Transaction(_, body) =>
          InsideMeaning(Promised, body);
          InsideMeaning(Actual, body);
          SameControl(body, true, false);
          SwallowsMeans(body);
        case _ =>
      }
      OutsideMeaning(code.rest);
    }
  }

  lemma {:induction false} SurvivorsConcat(a: seq<Attempt>, b: seq<Attempt>)
    ensures Survivors(a + b) == Survivors(a) + Survivors(b)
  {
    if a == [] {
      assert a + b == b;
    } else {
      assert (a + b)[0] == a[0] && (a + b)[1..] == a[1..] + b;
      SurvivorsConcat(a[1..], b);
      assert Survivors(a + b) == (if a[0].EveryOneReturned() then [a[0].write] else []) + Survivors(a[1..] + b);
    }
  }

  lemma {:induction false} SurvivorsWrapped(attempts: seq<Attempt>, e: Enclosing)
    ensures Survivors(Wrap(attempts, e)) == if e.returned then Survivors(attempts) else []
  {
    if attempts != [] {
      var first := Wrap(attempts, e)[0];
      assert first.around[0] == e;
      assert forall x | x in attempts[0].around :: x in first.around;
      assert forall x | x in first.around :: x == e || x in attempts[0].around;
      SurvivorsWrapped(attempts[1..], e);
    }
  }

  lemma {:induction false} SameControl(code: Code, inside: bool, poisoned: bool)
    ensures var p := Meaning(Promised, code, inside, poisoned);
            var a := Meaning(Actual, code, inside, poisoned);
            && p.threw == a.threw && p.poisoned == a.poisoned
            && (inside ==> p == a)
    decreases code
  {
    if code.Then? {
      SameActionControl(code.first, inside, poisoned);
      SameControl(code.rest, inside, ActionMeaning(Actual, code.first, inside, poisoned).poisoned);
    }
  }

  lemma {:induction false} SameActionControl(action: Action, inside: bool, poisoned: bool)
    ensures var p := ActionMeaning(Promised, action, inside, poisoned);
            var a := ActionMeaning(Actual, action, inside, poisoned);
            && p.threw == a.threw && p.poisoned == a.poisoned
            && (inside ==> p == a)
    decreases action
  {
    match action
    case Try(body) => SameControl(body, inside, poisoned);
    case Transaction(_, body) => SameControl(body, true, false);
    case _ =>
  }

  /** The promise: what is kept are exactly the writes whose every enclosing transaction returned. */
  lemma {:induction false} PromisedKeepsSurvivors(code: Code, inside: bool, poisoned: bool)
    ensures Meaning(Promised, code, inside, poisoned).kept == Survivors(Attempts(code, inside, poisoned))
    decreases code
  {
    if code.Then? {
      var a := ActionMeaning(Actual, code.first, inside, poisoned);
      SameActionControl(code.first, inside, poisoned);
      PromisedActionKeepsSurvivors(code.first, inside, poisoned);
      PromisedKeepsSurvivors(code.rest, inside, a.poisoned);
      SurvivorsConcat(ActionAttempts(code.first, inside, poisoned),
                      if a.threw then [] else Attempts(code.rest, inside, a.poisoned));
    }
  }

  lemma {:induction false} PromisedActionKeepsSurvivors(action: Action, inside: bool, poisoned: bool)
    ensures ActionMeaning(Promised, action, inside, poisoned).kept == Survivors(ActionAttempts(action, inside, poisoned))
    decreases action
  {
    match action
    case Insert(w) => assert poisoned || Attempt(w, []).EveryOneReturned();
    case Try(body) => PromisedKeepsSurvivors(body, inside, poisoned);
    case Transaction(outermost, body) =>
      if !(inside && (outermost || poisoned)) {
        PromisedKeepsSurvivors(body, true, false);
        SameActionControl(action, inside, poisoned);
        SurvivorsWrapped(Attempts(body, true, false),
                         Enclosing(outermost, !ActionMeaning(Actual, action, inside, poisoned).threw));
      }
    case _ =>
  }

  /** Code keeps exactly the writes whose every enclosing transaction returned, if and only if it reaches no
      outer transaction that writes and swallows a failed statement. */
  lemma KeptAsPromisedIffNoneSwallowed(code: Code)
    ensures Meaning(Actual, code, false, false).kept == Survivors(Attempts(code, false, false)) <==> !SwallowsWrites(code)
  {
    PromisedKeepsSurvivors(code, false, false);
    OutsideMeaning(code);
  }

  /** For one outer call: it loses its writes exactly when its body writes, and swallows a failed statement. */
  lemma OuterCallLosesIff(outermost: bool, body: Code)
    ensures var call := Then(Transaction(outermost, body), End);
            Meaning(Actual, call, false, false).kept != Survivors(Attempts(call, false, false)) <==> Swallows(body) && Writes(body)
  {
    KeptAsPromisedIffNoneSwallowed(Then(Transaction(outermost, body), End));
  }

  /** Inside a transaction the promise is always kept: a nested one fails instead. */
  lemma NestedAlwaysKeepsPromise(code: Code, poisoned: bool)
    ensures Meaning(Actual, code, true, poisoned).kept == Survivors(Attempts(code, true, poisoned))
  {
    PromisedKeepsSurvivors(code, true, poisoned);
    SameControl(code, true, poisoned);
  }

  /** A transaction that returns, a write that is gone. */
  lemma SwallowedFailureDropsWrites()
    ensures var code := Then(Transaction(true, Then(Insert(7), Then(Try(Then(BadStatement, End)), End))), End);
            var r := Meaning(Actual, code, false, false);
            !r.threw && r.kept == [] && Survivors(Attempts(code, false, false)) == [7]
  {
    var swallowed := Try(Then(BadStatement, End));
    var body := Then(Insert(7), Then(swallowed, End));
    var code := Then(Transaction(true, body), End);
    assert Meaning(Actual, Then(BadStatement, End), true, false) == Outcome([], true, true);
    assert ActionMeaning(Actual, swallowed, true, false) == Outcome([], true, false);
    assert Meaning(Actual, Then(swallowed, End), true, false) == Outcome([], true, false);
    assert Meaning(Actual, body, true, false) == Outcome([7], true, false);
    assert Meaning(Promised, Then(BadStatement, End), true, false) == Outcome([], true, true);
    assert Meaning(Promised, Then(swallowed, End), true, false) == Outcome([], true, false);
    assert Meaning(Promised, body, true, false) == Outcome([7], true, false);
    PromisedKeepsSurvivors(code, false, false);
  }

  /** No write is ever carried out with an `outermost` transaction inside another one. */
  lemma {:induction false} OutermostIsWidest(code: Code, inside: bool, poisoned: bool, x: Attempt, k: nat)
    requires x in Attempts(code, inside, poisoned) && k < |x.around| && x.around[k].outermost
    ensures k == 0 && !inside
    decreases code
  {
    var a := ActionMeaning(Actual, code.first, inside, poisoned);
    if x in ActionAttempts(code.first, inside, poisoned) {
      OutermostActionIsWidest(code.first, inside, poisoned, x, k);
    } else {
      OutermostIsWidest(code.rest, inside, a.poisoned, x, k);
    }
  }

  lemma {:induction false} OutermostActionIsWidest(action: Action, inside: bool, poisoned: bool, x: Attempt, k: nat)
    requires x in ActionAttempts(action, inside, poisoned) && k < |x.around| && x.around[k].outermost
    ensures k == 0 && !inside
    decreases action
  {
    if action.Try? {
      OutermostIsWidest(action.body, inside, poisoned, x, k);
    } else if action.Transaction? && k > 0 {
      var inner := Attempts(action.body, true, false);
      var i :| 0 <= i < |inner| && x == Wrap(inner, x.around[0])[i];
      OutermostIsWidest(action.body, true, false, inner[i], k - 1);
    }
  }

  // ---------------------------------------------------------------- the connection

  datatype Savepoint = Savepoint(name: nat, db: Db)

  /** The newest savepoint of a name. */
  function Newest(saves: seq<Savepoint>, name: nat): (k: int)
    ensures -1 <= k < |saves|
    ensures k >= 0 ==> saves[k].name == name
    ensures forall j | k < j < |saves| :: saves[j].name != name
  {
    if saves == [] then -1
    else if saves[|saves| - 1].name == name then |saves| - 1
    else Newest(saves[..|saves| - 1], name)
  }

  class Connection {
    var committed: Db
    var open: bool
    var current: Db
    var aborted: bool
    var saves: seq<Savepoint>
    var active: Option<nat>    // the stored transaction: its nesting index

    ghost predicate Valid()
      reads this
    {
      (active.Some? <==> open) && (!open ==> !aborted)
    }

    constructor ()
      ensures Valid() && !open && committed == [] && active == None
    {
      committed, open, current, aborted, saves, active := [], false, [], false, [], None;
    }

    /** One statement: outside a transaction it commits by itself, in an aborted one it is refused. */
    method Statement(action: Action) returns (threw: bool)
      requires Valid() && (action.Insert? || action.BadStatement?)
      modifies this
      ensures Valid() && active == old(active) && open == old(open) && saves == old(saves)
      ensures var r := ActionMeaning(Actual, action, open, old(aborted));
              && threw == r.threw && aborted == r.poisoned
              && (if open then current == old(current) + r.kept && committed == old(committed)
                  else committed == old(committed) + r.kept)
    {
      if aborted {
        return true;
      }
      if action.BadStatement? {
        aborted := open;
        return true;
      }
      if open {
        current := current + [action.write];
      } else {
        committed := committed + [action.write];
      }
      threw := false;
    }

    method Begin()
      requires Valid() && !open
      modifies this
      ensures open && !aborted && current == committed && committed == old(committed) && saves == []
      ensures active == old(active)
    {
      open, aborted, current, saves := true, false, committed, [];
    }

    /** COMMIT: an aborted transaction is rolled back, and no error is raised. */
    method Commit()
      requires open
      modifies this
      ensures !open && !aborted && active == old(active)
      ensures committed == if old(aborted) then old(committed) else old(current)
    {
      committed := if aborted then committed else current;
      open, aborted := false, false;
    }

    method Rollback()
      requires open
      modifies this
      ensures !open && !aborted && committed == old(committed) && active == old(active)
    {
      open, aborted := false, false;
    }

    method Save(name: nat) returns (threw: bool)
      requires open
      modifies this`saves
      ensures threw == aborted
      ensures saves == if aborted then old(saves) else old(saves) + [Savepoint(name, current)]
    {
      threw := aborted;
      if !aborted {
        saves := saves + [Savepoint(name, current)];
      }
    }

    /** RELEASE discards the newest savepoint of that name and everything after it. */
    method Release(name: nat) returns (threw: bool)
      requires open
      modifies this
      ensures open && committed == old(committed) && current == old(current) && active == old(active)
      ensures threw == (old(aborted) || Newest(old(saves), name) < 0)
      ensures if threw then aborted && saves == old(saves) else !aborted && saves == old(saves)[..Newest(old(saves), name)]
    {
      var k := Newest(saves, name);
      threw := aborted || k < 0;
      aborted := threw;
      if !threw {
        saves := saves[..k];
      }
    }

    /** ROLLBACK TO keeps the savepoint itself. */
    method RollbackTo(name: nat)
      requires open && Newest(saves, name) >= 0
      modifies this
      ensures open && committed == old(committed) && active == old(active)
      ensures var k := Newest(old(saves), name); !aborted && current == old(saves)[k].db && saves == old(saves)[..k + 1]
    {
      var k := Newest(saves, name);
      current, saves, aborted := saves[k].db, saves[..k + 1], false;
    }

    /** Savepoints of failed siblings pile up, but only under names of deeper transactions. */
    static predicate Leftover(before: seq<Savepoint>, after: seq<Savepoint>, depth: nat) {
      before <= after && forall k | |before| <= k < |after| :: after[k].name > depth
    }

    /** What running code does to the connection, wherever it runs. */
    twostate predicate Did(r: Outcome, threw: bool)
      reads this
    {
      && Valid() && active == old(active) && open == old(open)
      && threw == r.threw && aborted == r.poisoned
      && (if open
          then current == old(current) + r.kept && committed == old(committed) && Leftover(old(saves), saves, active.value)
          else committed == old(committed) + r.kept)
    }

    method Run(code: Code) returns (threw: bool)
      requires Valid()
      modifies this
      ensures Did(Meaning(Actual, code, open, old(aborted)), threw)
      decreases code, 0
    {
      match code
      case End => threw := false;
      case Then(first, rest) =>
        threw := Perform(first);
        if !threw {
          threw := Run(rest);
        }
    }

    method Perform(action: Action) returns (threw: bool)
      requires Valid()
      modifies this
      ensures Did(ActionMeaning(Actual, action, open, old(aborted)), threw)
      decreases action, 0
    {
      match action
      case Insert(_) => threw := Statement(action);
      case BadStatement => threw := Statement(action);
      case Throw => threw := true;
      case Try(body) =>
        var _ := Run(body);
        threw := false;
      case Transaction(outermost, body) =>
        if outermost && active.Some? {
          threw := true;   // TransactionBoundaryError
        } else if active.Some? {
          threw := Nested(body);
        } else {
          threw := Outer(body);
        }
    }

    method Outer(body: Code) returns (threw: bool)
      requires Valid() && active == None
      modifies this
      ensures Did(ActionMeaning(Actual, Transaction(false, body), open, old(aborted)), threw)
      decreases body, 1
    {
      Begin();
      active := Some(0);
      threw := Run(body);
      active := None;
      if threw {
        Rollback();
      } else {
        Commit();
      }
    }

    method Nested(body: Code) returns (threw: bool)
      requires Valid() && active.Some?
      modifies this
      ensures Did(ActionMeaning(Actual, Transaction(false, body), open, old(aborted)), threw)
      decreases body, 1
    {
      var depth := active.value;
      threw := Save(depth + 1);
      if threw {
        return;
      }
      ghost var mine := saves;
      active := Some(depth + 1);
      threw := Run(body);
      active := Some(depth);
      assert mine == old(saves) + [Savepoint(depth + 1, old(current))] && Leftover(mine, saves, depth + 1);
      assert saves[|old(saves)|] == mine[|old(saves)|];
      assert Newest(saves, depth + 1) == |old(saves)|;
      if !threw {
        threw := Release(depth + 1);
      }
      if threw {
        RollbackTo(depth + 1);
      }
    }
  }

  /** A whole program on a fresh connection. */
  method Execute(code: Code) returns (db: Db, threw: bool)
    ensures db == Survivors(Attempts(code, false, false)) <==> !SwallowsWrites(code)
    ensures db == Meaning(Actual, code, false, false).kept && threw == Meaning(Actual, code, false, false).threw
  {
    var connection := new Connection();
    threw := connection.Run(code);
    db := connection.committed;
    KeptAsPromisedIffNoneSwallowed(code);
  }
}
