/** The subagent index of a conversation and the key its subscriptions hang on (app/_lib/subagent-sessions.ts). */
module SubagentSessions {
  import opened Wrappers
  import opened TaskNotices

  datatype Call = Call(callId: string, child: string, name: string, toolName: string)

  datatype Completion = Completion(callId: string, output: string, taskId: Option<string>)

  datatype Action = SubagentCall(callId: string, description: string) | RemoteAgentCall(callId: string, description: string)
                  | OtherAction

  /** A received message is `background` when its kind says that a background task sent it. */
  datatype Event =
    | SubagentCalled(call: Call)
    | SubagentCompleted(completion: Completion)
    | ActionsRequested(actions: seq<Action>)
    | MessageReceived(background: bool, message: string)
    | Other

  datatype Session = Session(call: Call, completion: Option<Completion>, task: Option<string>, terminal: Option<Status>)

  // ---------------------------------------------------------------- what a session holds, read off the log

  function LastCompletion(events: seq<Event>, callId: string): Option<Completion> {
    if events == [] then None
    else
      var e := events[|events| - 1];
      if e.SubagentCompleted? && e.completion.callId == callId then Some(e.completion)
      else LastCompletion(events[..|events| - 1], callId)
  }

  predicate Names(a: Action, callId: string) { !a.OtherAction? && a.callId == callId }

  function LastDescription(actions: seq<Action>, callId: string): Option<string> {
    if actions == [] then None
    else if Names(actions[|actions| - 1], callId) then Some(actions[|actions| - 1].description)
    else LastDescription(actions[..|actions| - 1], callId)
  }

  function LastTask(events: seq<Event>, callId: string): Option<string> {
    if events == [] then None
    else
      var e := events[|events| - 1];
      if e.ActionsRequested? && LastDescription(e.actions, callId).Some? then LastDescription(e.actions, callId)
      else LastTask(events[..|events| - 1], callId)
  }

  function NoticeOf(e: Event): Option<(string, Status)> {
    if e.MessageReceived? && e.background then Notification(e.message) else None
  }

  function LastStatus(events: seq<Event>, taskId: string): Option<Status> {
    if events == [] then None
    else
      var e := events[|events| - 1];
      var n := NoticeOf(e);
      if n.Some? && n.value.0 == taskId then Some(n.value.1) else LastStatus(events[..|events| - 1], taskId)
  }

  function Described(events: seq<Event>, call: Call): Session {
    var completion := LastCompletion(events, call.callId);
    Session(call, completion, LastTask(events, call.callId),
            if completion.Some? && completion.value.taskId.Some? && completion.value.taskId.value != ""
            then LastStatus(events, completion.value.taskId.value) else None)
  }

  /** The last call of its child among the first `n` events. */
  predicate LastCallOf(events: seq<Event>, n: nat, i: nat)
    requires n <= |events|
  {
    && i < n && events[i].SubagentCalled?
    && forall j | i < j < n :: events[j].SubagentCalled? ==> events[j].call.child != events[i].call.child
  }

  /** One session for each child ever called, newest last call first, described by the whole log. */
  ghost predicate Index(events: seq<Event>, sessions: seq<Session>) {
    exists at: seq<nat> :: IndexAt(events, sessions, at)
  }

  ghost predicate IndexAt(events: seq<Event>, sessions: seq<Session>, at: seq<nat>) {
    && |at| == |sessions|
    && (forall k | 0 <= k < |at| :: LastCallOf(events, |events|, at[k]) && sessions[k] == Described(events, events[at[k]].call))
    && (forall j, k | 0 <= j < k < |at| :: at[j] > at[k])
    && (forall i | LastCallOf(events, |events|, i) :: i in at)
  }

  /** An index has distinct children, and every child that was ever called is in it. */
  lemma IndexIsOnePerChild(events: seq<Event>, sessions: seq<Session>)
    requires Index(events, sessions)
    ensures forall j, k | 0 <= j < k < |sessions| :: sessions[j].call.child != sessions[k].call.child
    ensures forall i | 0 <= i < |events| && events[i].SubagentCalled? ::
              exists k | 0 <= k < |sessions| :: sessions[k].call.child == events[i].call.child
  {
    var at :| IndexAt(events, sessions, at);
    forall i | 0 <= i < |events| && events[i].SubagentCalled?
      ensures exists k | 0 <= k < |sessions| :: sessions[k].call.child == events[i].call.child
    {
      var last := LastCallExists(events, i);
      assert last in at;
      var k :| 0 <= k < |at| && at[k] == last;
      assert sessions[k].call.child == events[i].call.child;
    }
  }

  lemma {:induction false} LastCallExists(events: seq<Event>, i: nat) returns (last: nat)
    requires i < |events| && events[i].SubagentCalled?
    ensures LastCallOf(events, |events|, last) && events[last].call.child == events[i].call.child
    decreases |events| - i
  {
    if j :| i < j < |events| && events[j].SubagentCalled? && events[j].call.child == events[i].call.child {
      last := LastCallExists(events, j);
    } else {
      last := i;
    }
  }

  /** The log determines the index. */
  lemma IndexIsUnique(events: seq<Event>, a: seq<Session>, b: seq<Session>)
    requires Index(events, a) && Index(events, b)
    ensures a == b
  {
    var x :| IndexAt(events, a, x);
    var y :| IndexAt(events, b, y);
    SameDescending(x, y);
  }

  lemma {:induction false} SameDescending(x: seq<nat>, y: seq<nat>)
    requires forall j, k | 0 <= j < k < |x| :: x[j] > x[k]
    requires forall j, k | 0 <= j < k < |y| :: y[j] > y[k]
    requires forall i :: i in x <==> i in y
    ensures x == y
    decreases |x|
  {
    assert y != [] ==> y[0] in x;
    if x != [] {
      assert x[0] in y && y != [];
      assert y[0] in x;
      assert x[0] == y[0];
      forall i ensures i in x[1..] <==> i in y[1..] {
        assert i in x <==> i == x[0] || i in x[1..];
        assert i in y <==> i == y[0] || i in y[1..];
      }
      SameDescending(x[1..], y[1..]);
    }
  }

  // ---------------------------------------------------------------- collectSubagentSessions

  function Lookup<V>(m: map<string, V>, key: string): Option<V> {
    if key in m then Some(m[key]) else None
  }

  /** Lines 35-42. */
  method AddTasks(tasks: map<string, string>, actions: seq<Action>) returns (more: map<string, string>)
    ensures forall id :: Lookup(more, id) ==
              if LastDescription(actions, id).Some? then LastDescription(actions, id) else Lookup(tasks, id)
  {
    more := tasks;
    for i := 0 to |actions|
      invariant forall id :: Lookup(more, id) ==
                  if LastDescription(actions[..i], id).Some? then LastDescription(actions[..i], id) else Lookup(tasks, id)
    {
      assert actions[..i + 1][..i] == actions[..i];
      if !actions[i].OtherAction? {
        more := more[actions[i].callId := actions[i].description];
      }
    }
    assert actions[..|actions|] == actions;
  }

  /** Lines 24-44. */
  method Gather(events: seq<Event>) returns (completions: map<string, Completion>, tasks: map<string, string>)
    ensures forall id :: Lookup(completions, id) == LastCompletion(events, id) && Lookup(tasks, id) == LastTask(events, id)
  {
    completions, tasks := map[], map[];
    for i := 0 to |events|
      invariant forall id :: Lookup(completions, id) == LastCompletion(events[..i], id)
      invariant forall id :: Lookup(tasks, id) == LastTask(events[..i], id)
    {
      assert events[..i + 1][..i] == events[..i];
      var e := events[i];
      if e.SubagentCompleted? {
        completions := completions[e.completion.callId := e.completion];
      } else if e.ActionsRequested? {
        tasks := AddTasks(tasks, e.actions);
      }
    }
    assert events[..|events|] == events;
  }

  /** Lines 64-88. */
  method TerminalTaskStatuses(events: seq<Event>) returns (statuses: map<string, Status>)
    ensures forall id :: Lookup(statuses, id) == LastStatus(events, id)
  {
    statuses := map[];
    for i := 0 to |events|
      invariant forall id :: Lookup(statuses, id) == LastStatus(events[..i], id)
    {
      assert events[..i + 1][..i] == events[..i];
      var n := NoticeOf(events[i]);
      if n.Some? {
        statuses := statuses[n.value.0 := n.value.1];
      }
    }
    assert events[..|events|] == events;
  }

  /** Where a child stands in the insertion-ordered map. */
  function Position(sessions: seq<Session>, child: string): (p: int)
    ensures -1 <= p < |sessions|
    ensures p < 0 ==> forall k | 0 <= k < |sessions| :: sessions[k].call.child != child
    ensures p >= 0 ==> sessions[p].call.child == child
  {
    if sessions == [] then -1
    else if sessions[|sessions| - 1].call.child == child then |sessions| - 1
    else Position(sessions[..|sessions| - 1], child)
  }

  /** The insertion-ordered map: its sessions were built from the calls at these places. */
  ghost predicate BuiltFrom(events: seq<Event>, sessions: seq<Session>, at: seq<nat>) {
    && |at| == |sessions|
    && forall k | 0 <= k < |at| :: at[k] < |events| && events[at[k]] == SubagentCalled(sessions[k].call)
  }

  /** A later event that calls another child, or nobody, leaves a last call the last. */
  lemma LastCallStep(events: seq<Event>, n: nat, i: nat)
    requires n < |events| && i != n
    ensures LastCallOf(events, n + 1, i)
       <==> LastCallOf(events, n, i) && (events[n].SubagentCalled? ==> events[n].call.child != events[i].call.child)
  {
  }

  lemma OneLast(events: seq<Event>, n: nat, i: nat, j: nat)
    requires n <= |events| && LastCallOf(events, n, i) && LastCallOf(events, n, j)
    requires events[i].call.child == events[j].call.child
    ensures i == j
  {
  }

  function Dropped<T>(s: seq<T>, p: int): seq<T>
    requires -1 <= p < |s|
  {
    if p < 0 then s else s[..p] + s[p + 1..]
  }

  lemma DroppedFacts<T>(s: seq<T>, p: int)
    requires -1 <= p < |s|
    ensures |Dropped(s, p)| == if p < 0 then |s| else |s| - 1
    ensures forall k | 0 <= k < |Dropped(s, p)| :: Dropped(s, p)[k] == s[if p < 0 || k < p then k else k + 1]
    ensures forall k | 0 <= k < |s| && k != p :: s[k] in Dropped(s, p)
  {
    forall k | 0 <= k < |s| && k != p ensures s[k] in Dropped(s, p) {
      assert Dropped(s, p)[if p < 0 || k < p then k else k - 1] == s[k];
    }
  }

  /** Where the child now called stands among the places, if it does. */
  predicate StandsAt(events: seq<Event>, at: seq<nat>, child: string, p: int) {
    && -1 <= p < |at| && (forall k | 0 <= k < |at| :: at[k] < |events| && events[at[k]].SubagentCalled?)
    && (p >= 0 ==> events[at[p]].call.child == child)
    && (p < 0 ==> forall k | 0 <= k < |at| :: events[at[k]].call.child != child)
  }

  lemma InDropped(s: seq<nat>, p: int, i: nat)
    requires -1 <= p < |s| && forall j, k | 0 <= j < k < |s| :: s[j] < s[k]
    ensures i in Dropped(s, p) <==> i in s && (p >= 0 ==> i != s[p])
  {
    DroppedFacts(s, p);
    if i in Dropped(s, p) {
      var k :| 0 <= k < |Dropped(s, p)| && Dropped(s, p)[k] == i;
      assert s[if p < 0 || k < p then k else k + 1] == i;
    }
  }

  /** The place of the child's call among these, the last one if there are several. */
  function PlaceOf(events: seq<Event>, at: seq<nat>, child: string): (p: int)
    ensures -1 <= p < |at|
  {
    if at == [] then -1
    else
      var i := at[|at| - 1];
      if i < |events| && events[i].SubagentCalled? && events[i].call.child == child then |at| - 1
      else PlaceOf(events, at[..|at| - 1], child)
  }

  lemma {:induction false} PlaceStands(events: seq<Event>, at: seq<nat>, child: string)
    requires forall k | 0 <= k < |at| :: at[k] < |events| && events[at[k]].SubagentCalled?
    ensures StandsAt(events, at, child, PlaceOf(events, at, child))
    decreases |at|
  {
    if at != [] {
      PlaceStands(events, at[..|at| - 1], child);
    }
  }

  lemma {:induction false} PositionIsPlace(events: seq<Event>, sessions: seq<Session>, at: seq<nat>, child: string)
    requires BuiltFrom(events, sessions, at)
    ensures Position(sessions, child) == PlaceOf(events, at, child)
    decreases |at|
  {
    if at != [] {
      PositionIsPlace(events, sessions[..|at| - 1], at[..|at| - 1], child);
    }
  }

  /** The places as deleting and setting leave them. */
  function Places(events: seq<Event>, n: nat): seq<nat>
    requires n <= |events|
  {
    if n == 0 then []
    else
      var before := Places(events, n - 1);
      if events[n - 1].SubagentCalled? then Dropped(before, PlaceOf(events, before, events[n - 1].call.child)) + [n - 1]
      else before
  }

  /** Places are calls, in ascending order. */
  predicate Ascend(events: seq<Event>, n: nat, at: seq<nat>) {
    && (forall k | 0 <= k < |at| :: at[k] < n && at[k] < |events| && events[at[k]].SubagentCalled?)
    && (forall j, k | 0 <= j < k < |at| :: at[j] < at[k])
  }

  lemma DroppedAscend(events: seq<Event>, n: nat, at: seq<nat>, p: int)
    requires n < |events| && events[n].SubagentCalled? && Ascend(events, n, at) && -1 <= p < |at|
    ensures Ascend(events, n + 1, Dropped(at, p) + [n])
  {
    DroppedFacts(at, p);
  }

  lemma {:induction false} PlacesAscend(events: seq<Event>, n: nat)
    requires n <= |events|
    ensures Ascend(events, n, Places(events, n))
  {
    if n > 0 {
      var before := Places(events, n - 1);
      PlacesAscend(events, n - 1);
      if events[n - 1].SubagentCalled? {
        DroppedAscend(events, n - 1, before, PlaceOf(events, before, events[n - 1].call.child));
      }
    }
  }

  /** The place dropped is the one where the child now called stands. */
  lemma PlaceIsTheChilds(events: seq<Event>, n: nat, at: seq<nat>, child: string, i: nat)
    requires n <= |events| && Ascend(events, n, at) && i in at && LastCallOf(events, n, i)
    requires forall k | 0 <= k < |at| :: LastCallOf(events, n, at[k])
    ensures var p := PlaceOf(events, at, child); events[i].call.child == child <==> p >= 0 && i == at[p]
  {
    var p := PlaceOf(events, at, child);
    PlaceStands(events, at, child);
    var k :| 0 <= k < |at| && at[k] == i;
    if events[i].call.child == child && p >= 0 {
      OneLast(events, n, i, at[p]);
    }
  }

  lemma LastCallsMove(events: seq<Event>, n: nat, at: seq<nat>, i: nat)
    requires n < |events| && events[n].SubagentCalled? && Ascend(events, n, at)
    requires (forall k | 0 <= k < |at| :: LastCallOf(events, n, at[k])) && (i in at <==> LastCallOf(events, n, i))
    ensures i in Dropped(at, PlaceOf(events, at, events[n].call.child)) + [n] <==> LastCallOf(events, n + 1, i)
  {
    var child := events[n].call.child;
    var p := PlaceOf(events, at, child);
    var kept := Dropped(at, p);
    InDropped(at, p, i);
    if i != n {
      LastCallStep(events, n, i);
      assert i in kept + [n] <==> i in kept;
      if i in at {
        PlaceIsTheChilds(events, n, at, child, i);
      }
    } else {
      assert (kept + [n])[|kept|] == n;
    }
  }

  /** The places are exactly those of the last calls. */
  lemma {:induction false} PlacesAreLastCalls(events: seq<Event>, n: nat, i: nat)
    requires n <= |events|
    ensures i in Places(events, n) <==> LastCallOf(events, n, i)
  {
    if n > 0 {
      var before := Places(events, n - 1);
      PlacesAreLastCalls(events, n - 1, i);
      if events[n - 1].SubagentCalled? {
        PlacesAscend(events, n - 1);
        forall k | 0 <= k < |before| ensures LastCallOf(events, n - 1, before[k]) {
          assert before[k] in before;
          PlacesAreLastCalls(events, n - 1, before[k]);
        }
        LastCallsMove(events, n - 1, before, i);
        assert Places(events, n) == Dropped(before, PlaceOf(events, before, events[n - 1].call.child)) + [n - 1];
      } else if i != n - 1 {
        LastCallStep(events, n - 1, i);
      }
    }
  }

  lemma BuiltFromMoves(events: seq<Event>, n: nat, sessions: seq<Session>, at: seq<nat>, p: int, session: Session)
    requires n < |events| && BuiltFrom(events, sessions, at) && -1 <= p < |at| && events[n] == SubagentCalled(session.call)
    ensures BuiltFrom(events, Dropped(sessions, p) + [session], Dropped(at, p) + [n])
  {
    DroppedFacts(sessions, p);
    DroppedFacts(at, p);
  }

  function SessionOf(call: Call, completions: map<string, Completion>, tasks: map<string, string>,
                     terminal: map<string, Status>): Session
  {
    var completion := Lookup(completions, call.callId);
    Session(call, completion, Lookup(tasks, call.callId),
            if completion.Some? && completion.value.taskId.Some? && completion.value.taskId.value != ""
            then Lookup(terminal, completion.value.taskId.value) else None)
  }

  ghost predicate AllDescribed(events: seq<Event>, sessions: seq<Session>) {
    forall k | 0 <= k < |sessions| :: sessions[k] == Described(events, sessions[k].call)
  }

  lemma AllDescribedMoves(events: seq<Event>, sessions: seq<Session>, p: int, session: Session)
    requires AllDescribed(events, sessions) && -1 <= p < |sessions| && session == Described(events, session.call)
    ensures AllDescribed(events, Dropped(sessions, p) + [session])
  {
    DroppedFacts(sessions, p);
  }

  /** What the second loop has built after the first `n` events. */
  ghost predicate Indexed(events: seq<Event>, n: nat, entries: seq<Session>) {
    n <= |events| && BuiltFrom(events, entries, Places(events, n)) && AllDescribed(events, entries)
  }

  lemma IndexedMoves(events: seq<Event>, n: nat, entries: seq<Session>, session: Session)
    requires n < |events| && Indexed(events, n, entries)
    requires events[n] == SubagentCalled(session.call) && session == Described(events, session.call)
    ensures Indexed(events, n + 1, Dropped(entries, Position(entries, session.call.child)) + [session])
  {
    var at, p := Places(events, n), Position(entries, session.call.child);
    PositionIsPlace(events, entries, at, session.call.child);
    BuiltFromMoves(events, n, entries, at, p, session);
    AllDescribedMoves(events, entries, p, session);
  }

  lemma IndexedStays(events: seq<Event>, n: nat, entries: seq<Session>)
    requires n < |events| && Indexed(events, n, entries) && !events[n].SubagentCalled?
    ensures Indexed(events, n + 1, entries)
  {
    assert Places(events, n + 1) == Places(events, n);
  }

  /** The map's entries after the first `n` events, each described by the whole log. */
  function Entries(events: seq<Event>, n: nat): seq<Session>
    requires n <= |events|
  {
    if n == 0 then []
    else
      var before := Entries(events, n - 1);
      if events[n - 1].SubagentCalled? then
        Dropped(before, Position(before, events[n - 1].call.child)) + [Described(events, events[n - 1].call)]
      else before
  }

  lemma {:induction false} EntriesAreIndexed(events: seq<Event>, n: nat)
    requires n <= |events|
    ensures Indexed(events, n, Entries(events, n))
  {
    if n > 0 {
      EntriesAreIndexed(events, n - 1);
      if events[n - 1].SubagentCalled? {
        IndexedMoves(events, n - 1, Entries(events, n - 1), Described(events, events[n - 1].call));
      } else {
        IndexedStays(events, n - 1, Entries(events, n - 1));
      }
    }
  }

  ghost predicate Gathered(events: seq<Event>, completions: map<string, Completion>, tasks: map<string, string>,
                           terminal: map<string, Status>)
  {
    && (forall id :: Lookup(completions, id) == LastCompletion(events, id))
    && (forall id :: Lookup(tasks, id) == LastTask(events, id))
    && (forall id :: Lookup(terminal, id) == LastStatus(events, id))
  }

  lemma SessionIsDescribed(events: seq<Event>, completions: map<string, Completion>, tasks: map<string, string>,
                           terminal: map<string, Status>, call: Call)
    requires Gathered(events, completions, tasks, terminal)
    ensures SessionOf(call, completions, tasks, terminal) == Described(events, call)
  {
  }

  /** Lines 46-59. */
  method Order(events: seq<Event>, completions: map<string, Completion>, tasks: map<string, string>,
               terminal: map<string, Status>) returns (entries: seq<Session>)
    requires Gathered(events, completions, tasks, terminal)
    ensures entries == Entries(events, |events|)
  {
    entries := [];
    for i := 0 to |events|
      invariant entries == Entries(events, i)
    {
      if events[i].SubagentCalled? {
        var session := SessionOf(events[i].call, completions, tasks, terminal);
        SessionIsDescribed(events, completions, tasks, terminal, events[i].call);
        entries := Dropped(entries, Position(entries, events[i].call.child)) + [session];
      }
    }
  }

  function Reversed<T>(s: seq<T>): seq<T> { seq(|s|, k requires 0 <= k < |s| => s[|s| - 1 - k]) }

  lemma ReversedFacts<T>(s: seq<T>)
    ensures |Reversed(s)| == |s| && (forall x | x in s :: x in Reversed(s))
  {
    forall x | x in s ensures x in Reversed(s) {
      var k :| 0 <= k < |s| && s[k] == x;
      assert Reversed(s)[|s| - 1 - k] == x;
    }
  }

  lemma ReversedIsIndex(events: seq<Event>, entries: seq<Session>)
    requires Indexed(events, |events|, entries)
    ensures Index(events, Reversed(entries))
  {
    var at := Places(events, |events|);
    PlacesAscend(events, |events|);
    forall i: nat ensures i in at <==> LastCallOf(events, |events|, i) {
      PlacesAreLastCalls(events, |events|, i);
    }
    LastCallsReversed(events, at, entries);
  }

  lemma LastCallsReversed(events: seq<Event>, at: seq<nat>, entries: seq<Session>)
    requires Ascend(events, |events|, at) && (forall i :: i in at <==> LastCallOf(events, |events|, i)) && BuiltFrom(events, entries, at) && AllDescribed(events, entries)
    ensures Index(events, Reversed(entries))
  {
    var back, sessions := Reversed(at), Reversed(entries);
    forall k | 0 <= k < |back|
      ensures LastCallOf(events, |events|, back[k]) && sessions[k] == Described(events, events[back[k]].call)
    {
      ReversedAt(at, k);
      ReversedAt(entries, k);
      assert at[|at| - 1 - k] in at;
    }
    forall j, k | 0 <= j < k < |back| ensures back[j] > back[k] {
      ReversedAt(at, j);
      ReversedAt(at, k);
    }
    ReversedFacts(at);
    assert IndexAt(events, sessions, back);
  }

  lemma ReversedAt<T>(s: seq<T>, k: nat)
    requires k < |s|
    ensures Reversed(s)[k] == s[|s| - 1 - k]
  {
  }

  /** Lines 21-62: the index of the log, which IndexIsUnique says there is only one of. */
  method CollectSubagentSessions(events: seq<Event>) returns (sessions: seq<Session>)
    ensures Index(events, sessions)
  {
    var completions, tasks := Gather(events);
    var terminal := TerminalTaskStatuses(events);
    var entries := Order(events, completions, tasks, terminal);
    sessions := Reversed(entries);
    EntriesAreIndexed(events, |events|);
    ReversedIsIndex(events, entries);
  }

  // ---------------------------------------------------------------- getSubagentSubscriptionKey

  type Byte = b: int | 0 <= b < 256

  function Utf8(c: char): (bytes: seq<Byte>)
    ensures |bytes| > 0
    ensures |bytes| == if bytes[0] < 0x80 then 1 else if bytes[0] < 0xE0 then 2 else if bytes[0] < 0xF0 then 3 else 4
  {
    var n := c as int;
    if n < 0x80 then [n]
    else if n < 0x800 then [0xC0 + n / 64, 0x80 + n % 64]
    else if n < 0x10000 then [0xE0 + n / 4096, 0x80 + n / 64 % 64, 0x80 + n % 64]
    else [0xF0 + n / 262144, 0x80 + n / 4096 % 64, 0x80 + n / 64 % 64, 0x80 + n % 64]
  }

  function CodePoint(bytes: seq<Byte>): int {
    match |bytes|
    case 1 => bytes[0]
    case 2 => (bytes[0] as int - 0xC0) * 64 + (bytes[1] as int - 0x80)
    case 3 => (bytes[0] as int - 0xE0) * 4096 + (bytes[1] as int - 0x80) * 64 + (bytes[2] as int - 0x80)
    case 4 => (bytes[0] as int - 0xF0) * 262144 + (bytes[1] as int - 0x80) * 4096 + (bytes[2] as int - 0x80) * 64
              + (bytes[3] as int - 0x80)
    case _ => 0
  }

  lemma DivisionNests(n: nat)
    ensures n == n / 64 * 64 + n % 64
    ensures n / 64 == n / 4096 * 64 + n / 64 % 64
    ensures n / 4096 == n / 262144 * 64 + n / 4096 % 64
  {
  }

  lemma Utf8ReadsBack(c: char)
    ensures CodePoint(Utf8(c)) == c as int
  {
    DivisionNests(c as int);
  }

  lemma Utf8IsPrefixFree(c: char, d: char)
    requires Utf8(c) <= Utf8(d)
    ensures c == d
  {
    assert Utf8(c)[0] == Utf8(d)[0];
    assert Utf8(c) == Utf8(d);
    Utf8ReadsBack(c);
    Utf8ReadsBack(d);
  }

  const HEX := "0123456789ABCDEF"

  function Percent(bytes: seq<Byte>): (s: string)
    ensures |s| == 3 * |bytes|
    ensures forall i | 0 <= i < |bytes| :: s[3 * i] == '%' && s[3 * i + 1] == HEX[bytes[i] / 16] && s[3 * i + 2] == HEX[bytes[i] % 16]
    ensures forall c | c in s :: c == '%' || c in HEX
  {
    if bytes == [] then "" else ['%', HEX[bytes[0] / 16], HEX[bytes[0] % 16]] + Percent(bytes[1..])
  }

  predicate Unreserved(c: char) {
    'A' <= c <= 'Z' || 'a' <= c <= 'z' || '0' <= c <= '9' || c in {'-', '_', '.', '!', '~', '*', '\'', '(', ')'}
  }

  function EncodeChar(c: char): (s: string)
    ensures |s| > 0
  {
    if Unreserved(c) then [c] else Percent(Utf8(c))
  }

  function EncodeURIComponent(s: string): string {
    if s == "" then "" else EncodeChar(s[0]) + EncodeURIComponent(s[1..])
  }

  lemma HexIsInjective(m: nat, n: nat)
    requires m < 16 && n < 16 && HEX[m] == HEX[n]
    ensures m == n
  {
  }

  lemma EncodedBytesAgree(c: char, d: char)
    requires Percent(Utf8(c)) <= Percent(Utf8(d))
    ensures Utf8(c) <= Utf8(d)
  {
    var a, b := Utf8(c), Utf8(d);
    var s, t := Percent(a), Percent(b);
    forall i | 0 <= i < |a| ensures a[i] == b[i] {
      assert s[3 * i + 1] == t[3 * i + 1] && s[3 * i + 2] == t[3 * i + 2];
      HexIsInjective(a[i] / 16, b[i] / 16);
      HexIsInjective(a[i] % 16, b[i] % 16);
    }
  }

  lemma EncodedCharsAgree(c: char, d: char)
    requires EncodeChar(c) <= EncodeChar(d)
    ensures c == d
  {
    var a, b := EncodeChar(c), EncodeChar(d);
    assert a[0] == b[0];
    if !Unreserved(c) && !Unreserved(d) {
      EncodedBytesAgree(c, d);
      Utf8IsPrefixFree(c, d);
    }
  }

  lemma CommonPrefix(a: string, b: string, x: string, y: string)
    requires a + x == b + y
    ensures a <= b || b <= a
    ensures a == b ==> x == y
  {
    var s := a + x;
    assert s[..|a|] == a && s[..|b|] == b && s[|a|..] == x && s[|b|..] == y;
    assert forall i | 0 <= i < |a| && i < |b| :: a[i] == s[i] == b[i];
  }

  lemma EncodeCharIsPrefixFree(c: char, d: char, x: string, y: string)
    requires EncodeChar(c) + x == EncodeChar(d) + y
    ensures c == d && x == y
  {
    CommonPrefix(EncodeChar(c), EncodeChar(d), x, y);
    if EncodeChar(c) <= EncodeChar(d) {
      EncodedCharsAgree(c, d);
    } else {
      EncodedCharsAgree(d, c);
    }
  }

  lemma {:induction false} EncodeIsInjective(s: string, t: string)
    requires EncodeURIComponent(s) == EncodeURIComponent(t)
    ensures s == t
  {
    if s != "" && t != "" {
      EncodedStep(s, t);
      EncodeIsInjective(s[1..], t[1..]);
    }
  }

  lemma EncodedStep(s: string, t: string)
    requires s != "" && t != "" && EncodeURIComponent(s) == EncodeURIComponent(t)
    ensures EncodeURIComponent(s[1..]) == EncodeURIComponent(t[1..])
    ensures s[1..] == t[1..] ==> s == t
  {
    EncodeCharIsPrefixFree(s[0], t[0], EncodeURIComponent(s[1..]), EncodeURIComponent(t[1..]));
    assert s == [s[0]] + s[1..] && t == [t[0]] + t[1..];
  }

  lemma {:induction false} EncodeHasNoSeparator(s: string)
    ensures ':' !in EncodeURIComponent(s) && '\n' !in EncodeURIComponent(s)
  {
    if s != "" {
      EncodeHasNoSeparator(s[1..]);
      assert ':' !in HEX && '\n' !in HEX;
    }
  }

  lemma SplitsOnce(a: string, b: string, x: string, y: string, sep: char)
    requires sep !in a && sep !in b && a + [sep] + x == b + [sep] + y
    ensures a == b && x == y
  {
    var s := a + [sep] + x;
    assert s[|a|] == sep && s[|b|] == sep;
    assert forall i | 0 <= i < |a| :: s[i] == a[i];
    assert forall i | 0 <= i < |b| :: s[i] == b[i];
    assert |a| == |b|;
    assert a == s[..|a|] && x == s[|a| + 1..];
    assert b == s[..|b|] && y == s[|b| + 1..];
  }

  function SessionKey(child: string, call: string): string {
    EncodeURIComponent(child) + ":" + EncodeURIComponent(call)
  }

  function SubscriptionKey(pairs: seq<(string, string)>): string {
    if pairs == [] then ""
    else if |pairs| == 1 then SessionKey(pairs[0].0, pairs[0].1)
    else SessionKey(pairs[0].0, pairs[0].1) + "\n" + SubscriptionKey(pairs[1..])
  }

  lemma SessionKeyFacts(p: (string, string), q: (string, string))
    ensures '\n' !in SessionKey(p.0, p.1) && SessionKey(p.0, p.1) != ""
    ensures SessionKey(p.0, p.1) == SessionKey(q.0, q.1) ==> p == q
  {
    EncodeHasNoSeparator(p.0);
    EncodeHasNoSeparator(p.1);
    EncodeHasNoSeparator(q.0);
    if SessionKey(p.0, p.1) == SessionKey(q.0, q.1) {
      SplitsOnce(EncodeURIComponent(p.0), EncodeURIComponent(q.0), EncodeURIComponent(p.1), EncodeURIComponent(q.1), ':');
      EncodeIsInjective(p.0, q.0);
      EncodeIsInjective(p.1, q.1);
    }
  }

  lemma KeyShape(ps: seq<(string, string)>)
    ensures ps == [] <==> SubscriptionKey(ps) == ""
    ensures '\n' in SubscriptionKey(ps) <==> |ps| > 1
  {
    if ps != [] {
      SessionKeyFacts(ps[0], ps[0]);
      var a := SessionKey(ps[0].0, ps[0].1);
      assert |ps| > 1 ==> SubscriptionKey(ps)[|a|] == '\n';
    }
  }

  /** Two lists of sessions share a key exactly when they are the same (child, call) pairs in the same order. */
  lemma {:induction false} SubscriptionKeyIsInjective(ps: seq<(string, string)>, qs: seq<(string, string)>)
    ensures SubscriptionKey(ps) == SubscriptionKey(qs) <==> ps == qs
    decreases |ps|
  {
    KeyShape(ps);
    KeyShape(qs);
    if SubscriptionKey(ps) == SubscriptionKey(qs) && ps != [] {
      KeyHeads(ps, qs);
      SubscriptionKeyIsInjective(ps[1..], qs[1..]);
      assert ps == [ps[0]] + ps[1..] && qs == [qs[0]] + qs[1..];
    }
  }

  /** Equal keys start with the same pair and go on equally. */
  lemma KeyHeads(ps: seq<(string, string)>, qs: seq<(string, string)>)
    requires ps != [] && qs != [] && SubscriptionKey(ps) == SubscriptionKey(qs)
    ensures ps[0] == qs[0] && SubscriptionKey(ps[1..]) == SubscriptionKey(qs[1..])
  {
    KeyShape(ps);
    KeyShape(qs);
    SessionKeyFacts(ps[0], qs[0]);
    SessionKeyFacts(qs[0], ps[0]);
    if |ps| > 1 {
      SplitsOnce(SessionKey(ps[0].0, ps[0].1), SessionKey(qs[0].0, qs[0].1),
                 SubscriptionKey(ps[1..]), SubscriptionKey(qs[1..]), '\n');
    }
  }
}
