/** Deciding from the session's event stream whether an answer still belongs to its source turn
    (agent/lib/channel-response.ts:74-128). */
module ResponseTurn {
  import opened Wrappers

  datatype Event =
    | TurnStarted(turn: string)
    | MessageReceived(turn: string, text: string)
    | TurnClosed(turn: string)   // completed, cancelled or failed
    | Other

  datatype Source = Source(turn: string, text: string)

  datatype StreamError = Aborted | EndedBeforeTail

  /** The last turn to start is the source's. */
  ghost predicate LastStarted(events: seq<Event>, turn: string) {
    exists i :: 0 <= i < |events| && events[i] == TurnStarted(turn)
                && forall j :: i < j < |events| ==> !events[j].TurnStarted?
  }

  ghost predicate IsMessage(e: Event, turn: string) { e.MessageReceived? && e.turn == turn }

  /** Exactly one message belongs to the source turn, and its text is the source's. */
  ghost predicate OneExactMessage(events: seq<Event>, source: Source) {
    exists i :: 0 <= i < |events| && events[i] == MessageReceived(source.turn, source.text)
                && forall j :: 0 <= j < |events| && j != i ==> !IsMessage(events[j], source.turn)
  }

  ghost predicate NeverClosed(events: seq<Event>, turn: string) {
    forall i :: 0 <= i < |events| ==> events[i] != TurnClosed(turn)
  }

  /** The source turn is the current one, is open, and was opened by exactly the source message. */
  ghost predicate Live(events: seq<Event>, source: Source) {
    LastStarted(events, source.turn) && OneExactMessage(events, source) && NeverClosed(events, source.turn)
  }

  ghost predicate NoMessage(events: seq<Event>, turn: string) {
    forall i :: 0 <= i < |events| ==> !IsMessage(events[i], turn)
  }

  ghost predicate TwoMessages(events: seq<Event>, turn: string) {
    exists i, j :: 0 <= i < j < |events| && IsMessage(events[i], turn) && IsMessage(events[j], turn)
  }

  /** The counter tells no message, one, and more apart; with one, the flag tells whether its text is exact. */
  ghost predicate Counted(events: seq<Event>, source: Source, matching: nat, exact: bool) {
    && (matching == 0 <==> NoMessage(events, source.turn))
    && (matching >= 2 <==> TwoMessages(events, source.turn))
    && (matching == 1 ==> exists i :: 0 <= i < |events| && IsMessage(events[i], source.turn)
                                      && (exact <==> events[i].text == source.text))
  }

  lemma CountOne(events: seq<Event>, source: Source, matching: nat, exact: bool, e: Event)
    requires Counted(events, source, matching, exact)
    ensures if IsMessage(e, source.turn)
            then Counted(events + [e], source, matching + 1, e.text == source.text)
            else Counted(events + [e], source, matching, exact)
  {
    var more := events + [e];
    assert forall i :: 0 <= i < |events| ==> more[i] == events[i];
    assert more[|events|] == e;
    if IsMessage(e, source.turn) {
      assert !NoMessage(more, source.turn);
      if matching >= 1 {
        var i :| 0 <= i < |events| && IsMessage(events[i], source.turn);
        assert IsMessage(more[i], source.turn) && IsMessage(more[|events|], source.turn);
      }
    } else if matching >= 2 {
      var i, j :| 0 <= i < j < |events| && IsMessage(events[i], source.turn) && IsMessage(events[j], source.turn);
      assert IsMessage(more[i], source.turn) && IsMessage(more[j], source.turn);
    } else if matching == 1 {
      var i :| 0 <= i < |events| && IsMessage(events[i], source.turn) && (exact <==> events[i].text == source.text);
      assert IsMessage(more[i], source.turn);
    }
  }

  lemma CountedOnce(events: seq<Event>, source: Source, matching: nat, exact: bool)
    requires Counted(events, source, matching, exact)
    ensures matching == 1 && exact <==> OneExactMessage(events, source)
  {
    if matching == 1 && exact {
      var i :| 0 <= i < |events| && IsMessage(events[i], source.turn) && events[i].text == source.text;
      assert !TwoMessages(events, source.turn);
    }
    if OneExactMessage(events, source) {
      var i :| 0 <= i < |events| && events[i] == MessageReceived(source.turn, source.text)
               && forall j :: 0 <= j < |events| && j != i ==> !IsMessage(events[j], source.turn);
      assert IsMessage(events[i], source.turn);
    }
  }

  /** `abortedAt` is the number of the first abort check that sees the signal aborted; checks precede
      each read and the final decision. */
  method ReadTurnStream(events: seq<Event>, tail: nat, source: Source, abortedAt: Option<nat>)
    returns (r: Result<bool, StreamError>)
    ensures r.Ok? <==> tail < |events| && (abortedAt.Some? ==> tail + 1 < abortedAt.value)
    ensures r == Err(Aborted) <==> abortedAt.Some? && abortedAt.value <= tail + 1 && abortedAt.value <= |events|
    ensures r.Ok? ==> (r.value <==> Live(events[..tail + 1], source))
  {
    var active: Option<string> := None;
    var matching := 0;
    var exact := false;
    var closed := false;
    for index := 0 to tail + 1
      invariant index <= |events|
      invariant abortedAt.Some? ==> index <= abortedAt.value
      invariant active == Some(source.turn) <==> LastStarted(events[..index], source.turn)
      invariant Counted(events[..index], source, matching, exact)
      invariant closed <==> !NeverClosed(events[..index], source.turn)
    {
      if abortedAt == Some(index) {
        return Err(Aborted);
      }
      if index >= |events| {
        return Err(EndedBeforeTail);
      }
      var event := events[index];
      assert events[..index + 1] == events[..index] + [event];
      CountOne(events[..index], source, matching, exact, event);
      LastStartedExtends(events[..index], event, source.turn);
      ClosedExtends(events[..index], event, source.turn);
      if event.TurnStarted? {
        active := Some(event.turn);
      }
      if event.MessageReceived? && event.turn == source.turn {
        matching := matching + 1;
        exact := event.text == source.text;
      }
      if event.TurnClosed? && event.turn == source.turn {
        closed := true;
      }
    }
    if abortedAt == Some(tail + 1) {
      return Err(Aborted);
    }
    CountedOnce(events[..tail + 1], source, matching, exact);
    r := Ok(active == Some(source.turn) && matching == 1 && exact && !closed);
  }

  lemma LastStartedExtends(events: seq<Event>, e: Event, turn: string)
    ensures LastStarted(events + [e], turn) <==> if e.TurnStarted? then e.turn == turn else LastStarted(events, turn)
  {
    var more := events + [e];
    assert forall i :: 0 <= i < |events| ==> more[i] == events[i];
    assert more[|events|] == e;
    if !e.TurnStarted? && LastStarted(events, turn) {
      var i :| 0 <= i < |events| && events[i] == TurnStarted(turn)
               && forall j :: i < j < |events| ==> !events[j].TurnStarted?;
      assert more[i] == TurnStarted(turn);
    }
    if !e.TurnStarted? && LastStarted(more, turn) {
      var i :| 0 <= i < |more| && more[i] == TurnStarted(turn)
               && forall j :: i < j < |more| ==> !more[j].TurnStarted?;
      assert events[i] == TurnStarted(turn);
      assert forall j :: i < j < |events| ==> events[j] == more[j];
    }
  }

  lemma ClosedExtends(events: seq<Event>, e: Event, turn: string)
    ensures NeverClosed(events + [e], turn) <==> NeverClosed(events, turn) && e != TurnClosed(turn)
  {
    var more := events + [e];
    assert forall i :: 0 <= i < |events| ==> more[i] == events[i];
    assert more[|events|] == e;
  }

  /** A closing event or a second message of the source turn settles the answer for every extension. */
  lemma ClosedOrRepeatedNeverLives(seen: seq<Event>, later: seq<Event>, source: Source)
    requires !NeverClosed(seen, source.turn) || TwoMessages(seen, source.turn)
    ensures !Live(seen + later, source)
  {
    var all := seen + later;
    assert forall i :: 0 <= i < |seen| ==> all[i] == seen[i];
    if TwoMessages(seen, source.turn) {
      var i, j :| 0 <= i < j < |seen| && IsMessage(seen[i], source.turn) && IsMessage(seen[j], source.turn);
      assert IsMessage(all[i], source.turn) && IsMessage(all[j], source.turn);
    } else {
      var i :| 0 <= i < |seen| && seen[i] == TurnClosed(source.turn);
      assert all[i] == TurnClosed(source.turn);
    }
  }

  /** A live turn stops being live at exactly three kinds of event. */
  lemma LiveEndsExactlyWhen(seen: seq<Event>, e: Event, source: Source)
    requires Live(seen, source)
    ensures !Live(seen + [e], source) <==>
            || (e.TurnStarted? && e.turn != source.turn) || IsMessage(e, source.turn) || e == TurnClosed(source.turn)
  {
    var more := seen + [e];
    LastStartedExtends(seen, e, source.turn);
    ClosedExtends(seen, e, source.turn);
    assert forall i :: 0 <= i < |seen| ==> more[i] == seen[i];
    assert more[|seen|] == e;
    var i :| 0 <= i < |seen| && seen[i] == MessageReceived(source.turn, source.text)
             && forall j :: 0 <= j < |seen| && j != i ==> !IsMessage(seen[j], source.turn);
    assert more[i] == MessageReceived(source.turn, source.text);
  }
}
