/** The Matrix channel's per-turn record and what a settled turn publishes
    (agent/channels/matrix.ts, server/matrix/delivery.ts). */
module MatrixTurn {
  import opened Wrappers

  datatype Turn = Turn(sequence: nat, id: string)

  function Decimal(n: nat): (s: string)
    ensures |s| > 0 && forall c | c in s :: '0' <= c <= '9'
  {
    if n < 10 then ["0123456789"[n]] else Decimal(n / 10) + ["0123456789"[n % 10]]
  }

  function Key(turn: Turn): string { Decimal(turn.sequence) + ":" + turn.id }

  lemma {:induction false} DecimalIsInjective(m: nat, n: nat)
    requires Decimal(m) == Decimal(n)
    ensures m == n
    decreases m + n
  {
    var a, b := Decimal(m), Decimal(n);
    assert a[|a| - 1] == b[|b| - 1] && a[..|a| - 1] == b[..|b| - 1];
    assert m % 10 == n % 10;
    if m >= 10 && n >= 10 {
      assert a[..|a| - 1] == Decimal(m / 10) && b[..|b| - 1] == Decimal(n / 10);
      DecimalIsInjective(m / 10, n / 10);
    }
  }

  /** No digit is a colon, so the key tells both parts apart. */
  lemma KeyIsInjective(s: Turn, t: Turn)
    ensures Key(s) == Key(t) <==> s == t
  {
    if Key(s) == Key(t) {
      var a, b := Decimal(s.sequence), Decimal(t.sequence);
      assert Key(s)[|a|] == ':' && Key(t)[|b|] == ':';
      assert forall i | 0 <= i < |a| :: a[i] in a && Key(s)[i] == a[i];
      assert forall i | 0 <= i < |b| :: b[i] in b && Key(t)[i] == b[i];
      assert |a| == |b|;
      assert a == Key(s)[..|a|] == Key(t)[..|b|] == b;
      DecimalIsInjective(s.sequence, t.sequence);
      assert s.id == Key(s)[|a| + 1..] == t.id;
    }
  }

  // ---------------------------------------------------------------- the record and its handlers

  datatype Response = Response(key: string, text: string, delivered: bool, onlyReactionResults: bool, awaitingInput: bool)

  /** What publishing a tool result delivered natively. */
  datatype Native = Nothing | Message | Reaction

  /** `event` is the authenticated delivery, if the session has one; `fault` says that settling it in the
      database fails for a reason other than lost access. */
  datatype Event =
    | Started(turn: Turn)
    | ActionResult(turn: Turn, native: Native)
    | InputRequested(turn: Turn, published: bool)
    | MessageCompleted(turn: Turn, message: string)
    | Completed(turn: Turn, event: Option<string>, fault: bool)
    | Failed(turn: Turn, event: Option<string>, emptyModel: bool, fault: bool)
    | Cancelled(turn: Turn)
    | SessionFailed(event: Option<string>, fault: bool)

  datatype Effect = Silent | Finish(event: string, text: string) | Complete(event: string)

  const APOLOGY := "Não consegui concluir esta tarefa. Mencione Zoen para tentar novamente."
  const DONE_MARKER := "DELIVERY_COMPLETE"

  predicate Space(c: char) {
    '\t' <= c <= '\r' || c == ' ' || c == '\U{00a0}' || c == '\U{1680}' || '\U{2000}' <= c <= '\U{200a}'
    || c in {'\U{2028}', '\U{2029}', '\U{202f}', '\U{205f}', '\U{3000}', '\U{feff}'}
  }

  function Trim(s: string): string
    decreases |s|
  {
    if s == "" then ""
    else if Space(s[0]) then Trim(s[1..])
    else if Space(s[|s| - 1]) then Trim(s[..|s| - 1])
    else s
  }

  predicate Blank(s: string) { forall c | c in s :: Space(c) }

  /** Trimming takes the white space off both ends, and nothing else. */
  lemma {:induction false} TrimTakesTheEnds(s: string) returns (front: string, back: string)
    ensures s == front + Trim(s) + back && Blank(front) && Blank(back)
    ensures Trim(s) != "" ==> !Space(Trim(s)[0]) && !Space(Trim(s)[|Trim(s)| - 1])
    decreases |s|
  {
    front, back := "", "";
    if s != "" {
      if Space(s[0]) {
        front, back := TrimTakesTheEnds(s[1..]);
        SplitsAgain(s[0], front, Trim(s), back);
        assert s == [s[0]] + s[1..];
        front := [s[0]] + front;
      } else if Space(s[|s| - 1]) {
        front, back := TrimTakesTheEnds(s[..|s| - 1]);
        SplitsAgain(s[|s| - 1], front, Trim(s), back);
        assert s == s[..|s| - 1] + [s[|s| - 1]];
        back := back + [s[|s| - 1]];
      }
    }
  }

  lemma SplitsAgain(c: char, front: string, middle: string, back: string)
    requires Space(c) && Blank(front) && Blank(back)
    ensures [c] + (front + middle + back) == ([c] + front) + middle + back && Blank([c] + front)
    ensures (front + middle + back) + [c] == front + middle + (back + [c]) && Blank(back + [c])
  {
  }

  function Fresh(turn: Turn): Response { Response(Key(turn), "", false, true, false) }

  /** Lines 40-55: the record of this turn, a fresh one in place of any other turn's. */
  function View(r: Option<Response>, turn: Turn): Response {
    if r.Some? && r.value.key == Key(turn) then r.value else Fresh(turn)
  }

  function After(r: Option<Response>, e: Event): Option<Response> {
    match e
    case Started(t) => Some(View(r, t))
    case ActionResult(t, native) =>
      var v := View(r, t);
      Some(v.(delivered := v.delivered || native != Nothing, onlyReactionResults := v.onlyReactionResults && native == Reaction))
    case InputRequested(t, published) => if published then Some(View(r, t).(awaitingInput := true)) else r
    case MessageCompleted(t, message) => if message != "" then Some(View(r, t).(text := message)) else r
    case Completed(t, event, fault) =>
      if View(r, t).awaitingInput || (event.Some? && !fault) then None else Some(View(r, t))
    case Failed(t, event, _, fault) => if event.None? then r else if fault then Some(View(r, t)) else None
    case Cancelled(t) => if r.Some? && r.value.key == Key(t) then None else r
    case SessionFailed(event, fault) => if event.Some? && !fault then None else r
  }

  function Issued(r: Option<Response>, e: Event): Effect {
    match e
    case Completed(t, Some(id), _) =>
      var v := View(r, t);
      var message := Trim(v.text);
      if v.awaitingInput then Silent
      else if v.delivered || message == DONE_MARKER || message == "" then Complete(id)
      else Finish(id, message)
    case Failed(t, Some(id), emptyModel, _) =>
      var v := View(r, t);
      if v.delivered && v.onlyReactionResults && !v.awaitingInput && emptyModel then Complete(id) else Finish(id, APOLOGY)
    case SessionFailed(Some(id), _) => Finish(id, APOLOGY)
    case _ => Silent
  }

  class MatrixChannel {
    var response: Option<Response>

    constructor ()
      ensures response == None
    {
      response := None;
    }

    method MatrixTurnResponse(turn: Turn)
      modifies this
      ensures response == Some(View(old(response), turn))
    {
      if response.None? || response.value.key != Key(turn) {
        response := Some(Response(Key(turn), "", false, true, false));
      }
    }

    method OnActionResult(turn: Turn, native: Native)
      modifies this
      ensures response == After(old(response), ActionResult(turn, native))
    {
      MatrixTurnResponse(turn);
      if native != Nothing {
        response := Some(response.value.(delivered := true));
      }
      if response.value.onlyReactionResults {
        response := Some(response.value.(onlyReactionResults := native == Reaction));
      }
    }

    method OnInputRequested(turn: Turn, published: bool)
      modifies this
      ensures response == After(old(response), InputRequested(turn, published))
    {
      if published {
        MatrixTurnResponse(turn);
        response := Some(response.value.(awaitingInput := true));
      }
    }

    method OnMessageCompleted(turn: Turn, message: string)
      modifies this
      ensures response == After(old(response), MessageCompleted(turn, message))
    {
      if message != "" {
        MatrixTurnResponse(turn);
        response := Some(response.value.(text := message));
      }
    }

    method OnTurnCompleted(turn: Turn, event: Option<string>, fault: bool) returns (effect: Effect)
      modifies this
      ensures response == After(old(response), Completed(turn, event, fault))
      ensures effect == Issued(old(response), Completed(turn, event, fault))
    {
      MatrixTurnResponse(turn);
      if response.value.awaitingInput {
        response := None;
        return Silent;
      }
      if event.None? {
        return Silent;
      }
      var message := Trim(response.value.text);
      if response.value.delivered || message == DONE_MARKER || message == "" {
        effect := Complete(event.value);
      } else {
        effect := Finish(event.value, message);
      }
      if !fault {
        response := None;
      }
    }

    method OnTurnFailed(turn: Turn, event: Option<string>, emptyModel: bool, fault: bool) returns (effect: Effect)
      modifies this
      ensures response == After(old(response), Failed(turn, event, emptyModel, fault))
      ensures effect == Issued(old(response), Failed(turn, event, emptyModel, fault))
    {
      if event.None? {
        return Silent;
      }
      MatrixTurnResponse(turn);
      var r := response.value;
      if r.delivered && r.onlyReactionResults && !r.awaitingInput && emptyModel {
        effect := Complete(event.value);
      } else {
        effect := Finish(event.value, APOLOGY);
      }
      if !fault && response.Some? && response.value.key == Key(turn) {
        response := None;
      }
    }

    method OnTurnCancelled(turn: Turn)
      modifies this
      ensures response == After(old(response), Cancelled(turn))
    {
      if response.Some? && response.value.key == Key(turn) {
        response := None;
      }
    }

    method OnSessionFailed(event: Option<string>, fault: bool) returns (effect: Effect)
      modifies this
      ensures response == After(old(response), SessionFailed(event, fault))
      ensures effect == Issued(old(response), SessionFailed(event, fault))
    {
      if event.None? {
        return Silent;
      }
      effect := Finish(event.value, APOLOGY);
      if !fault {
        response := None;
      }
    }
  }

  // ---------------------------------------------------------------- what the record knows

  function Fold(es: seq<Event>): Option<Response> {
    if es == [] then None else After(Fold(es[..|es| - 1]), es[|es| - 1])
  }

  /** An event that leaves something in the record of its own turn. */
  predicate Records(e: Event, t: Turn) {
    (e.ActionResult? && e.turn == t) || (e.InputRequested? && e.turn == t && e.published)
    || (e.MessageCompleted? && e.turn == t && e.message != "")
  }

  /** An event that replaces whatever record there is by its own turn's. */
  predicate Opens(e: Event, t: Turn) {
    Records(e, t) || (e.Started? && e.turn == t) || (e.Completed? && e.turn == t) || (e.Failed? && e.turn == t && e.event.Some?)
  }

  predicate AwaitsInput(own: seq<Event>) { exists e | e in own :: e.InputRequested? }

  predicate HasDelivery(own: seq<Event>) { exists e | e in own :: e.ActionResult? && e.native != Nothing }

  predicate OnlyReactions(own: seq<Event>) { forall e | e in own && e.ActionResult? :: e.native == Reaction }

  function LastText(own: seq<Event>): string {
    if own == [] then ""
    else if own[|own| - 1].MessageCompleted? then own[|own| - 1].message
    else LastText(own[..|own| - 1])
  }

  /** An event after which a turn starts from nothing: another turn's, its own settling, a session failure. */
  predicate Resets(own: seq<Event>, e: Event, t: Turn) {
    if e.SessionFailed? then e.event.Some? && !e.fault
    else if e.turn != t then Opens(e, e.turn)
    else
      || e.Cancelled?
      || (e.Completed? && ((e.event.Some? && !e.fault) || AwaitsInput(own)))
      || (e.Failed? && e.event.Some? && !e.fault)
  }

  /** A turn's own recorded events since it last started from nothing. */
  function Own(es: seq<Event>, t: Turn): seq<Event> {
    if es == [] then []
    else
      var before := Own(es[..|es| - 1], t);
      var e := es[|es| - 1];
      if Resets(before, e, t) then [] else if Records(e, t) then before + [e] else before
  }

  function Summary(own: seq<Event>, t: Turn): Response {
    Response(Key(t), LastText(own), HasDelivery(own), OnlyReactions(own), AwaitsInput(own))
  }

  /** What one event does to the summary a turn sees. */
  lemma ViewGrows(response: Option<Response>, own: seq<Event>, e: Event, t: Turn)
    requires View(response, t) == Summary(own, t)
    requires forall x | x in own :: Records(x, t)
    ensures View(After(response, e), t)
         == Summary(if Resets(own, e, t) then [] else if Records(e, t) then own + [e] else own, t)
  {
    if !e.SessionFailed? {
      KeyIsInjective(e.turn, t);
    }
    if Records(e, t) {
      SummaryGrows(own, e, t);
    }
  }

  /** The record a turn sees is the summary of its own recorded events, and of no other turn's. */
  lemma {:induction false} ViewIsOwnSummary(es: seq<Event>, t: Turn)
    ensures View(Fold(es), t) == Summary(Own(es, t), t)
    ensures forall e | e in Own(es, t) :: Records(e, t)
    decreases |es|
  {
    if es != [] {
      var before := es[..|es| - 1];
      var e := es[|es| - 1];
      ViewIsOwnSummary(before, t);
      ViewGrows(Fold(before), Own(before, t), e, t);
    }
  }

  lemma SummaryGrows(own: seq<Event>, e: Event, t: Turn)
    ensures LastText(own + [e]) == if e.MessageCompleted? then e.message else LastText(own)
    ensures HasDelivery(own + [e]) <==> HasDelivery(own) || (e.ActionResult? && e.native != Nothing)
    ensures OnlyReactions(own + [e]) <==> OnlyReactions(own) && (e.ActionResult? ==> e.native == Reaction)
    ensures AwaitsInput(own + [e]) <==> AwaitsInput(own) || e.InputRequested?
  {
    var more := own + [e];
    assert more[..|own|] == own;
    assert e in more && forall x | x in own :: x in more;
    assert forall x | x in more :: x in own || x == e;
  }

  /** Fallback text is this turn's own last text, and no delivery of this turn is on record. */
  lemma FallbackIsOwnTextWithoutDelivery(es: seq<Event>, t: Turn, id: string, fault: bool)
    ensures var own := Own(es, t);
            var effect := Issued(Fold(es), Completed(t, Some(id), fault));
            && (effect == Silent <==> AwaitsInput(own))
            && (effect.Finish? ==> effect == Finish(id, Trim(LastText(own))) && !HasDelivery(own) && effect.text != "")
            && (effect.Complete? ==> HasDelivery(own) || Trim(LastText(own)) in {DONE_MARKER, ""})
  {
    ViewIsOwnSummary(es, t);
  }

  /** The other way round: what a completed turn's record amounts to decides what it issues. */
  lemma CompletedTurnIssues(es: seq<Event>, t: Turn, id: string, fault: bool)
    ensures var own := Own(es, t);
            var effect := Issued(Fold(es), Completed(t, Some(id), fault));
            && (effect == Complete(id) <==> !AwaitsInput(own) && (HasDelivery(own) || Trim(LastText(own)) in {DONE_MARKER, ""}))
            && (effect == Finish(id, Trim(LastText(own)))
                <==> !AwaitsInput(own) && !HasDelivery(own) && Trim(LastText(own)) !in {DONE_MARKER, ""})
  {
    ViewIsOwnSummary(es, t);
  }

  /** The turn reacted, its other tool calls were reactions too, and nothing waits for input. */
  predicate OnlyReacted(own: seq<Event>) {
    && (exists e | e in own :: e.ActionResult?)
    && (forall e | e in own :: (e.ActionResult? ==> e.native == Reaction) && !e.InputRequested?)
  }

  /** A failed turn apologizes, unless all it did was to react and the model had nothing to add; then it just completes. */
  lemma FailedTurnApologizesUnlessItReacted(es: seq<Event>, t: Turn, id: string, emptyModel: bool, fault: bool)
    ensures Issued(Fold(es), SessionFailed(Some(id), fault)) == Finish(id, APOLOGY)
    ensures var effect := Issued(Fold(es), Failed(t, Some(id), emptyModel, fault));
            && (effect == Complete(id) <==> emptyModel && OnlyReacted(Own(es, t)))
            && (effect == Finish(id, APOLOGY) <==> !(emptyModel && OnlyReacted(Own(es, t))))
  {
    ViewIsOwnSummary(es, t);
  }

  predicate DeliveredAt(es: seq<Event>, i: nat, t: Turn)
    requires i < |es|
  {
    es[i].ActionResult? && es[i].turn == t && es[i].native != Nothing
  }

  predicate Undisturbed(es: seq<Event>, i: nat, t: Turn) {
    forall j | i < j < |es| :: !Resets(Own(es[..j], t), es[j], t)
  }

  lemma PrefixOwn(es: seq<Event>, n: nat, j: nat, t: Turn)
    requires j < n <= |es|
    ensures Own(es[..n][..j], t) == Own(es[..j], t) && es[..n][j] == es[j]
  {
    assert es[..n][..j] == es[..j];
  }

  lemma UndisturbedBefore(es: seq<Event>, n: nat, i: nat, t: Turn)
    requires i < n <= |es| && Undisturbed(es, i, t)
    ensures Undisturbed(es[..n], i, t)
  {
    forall j | i < j < n ensures !Resets(Own(es[..n][..j], t), es[..n][j], t) {
      PrefixOwn(es, n, j, t);
    }
  }

  lemma UndisturbedAfter(es: seq<Event>, i: nat, t: Turn)
    requires i < |es| - 1 && Undisturbed(es[..|es| - 1], i, t)
    requires !Resets(Own(es[..|es| - 1], t), es[|es| - 1], t)
    ensures Undisturbed(es, i, t)
  {
    forall j | i < j < |es| ensures !Resets(Own(es[..j], t), es[j], t) {
      if j < |es| - 1 {
        PrefixOwn(es, |es| - 1, j, t);
      }
    }
  }

  lemma {:induction false} RememberedIsUndisturbed(es: seq<Event>, t: Turn) returns (i: nat)
    requires HasDelivery(Own(es, t))
    ensures i < |es| && DeliveredAt(es, i, t) && Undisturbed(es, i, t)
    decreases |es|
  {
    var n := |es| - 1;
    var own, e := Own(es[..n], t), es[n];
    if Records(e, t) {
      SummaryGrows(own, e, t);
    }
    if DeliveredAt(es, n, t) {
      i := n;
    } else {
      i := RememberedIsUndisturbed(es[..n], t);
      UndisturbedAfter(es, i, t);
    }
  }

  lemma {:induction false} UndisturbedIsRemembered(es: seq<Event>, t: Turn, i: nat)
    requires i < |es| && DeliveredAt(es, i, t) && Undisturbed(es, i, t)
    ensures HasDelivery(Own(es, t))
    decreases |es|
  {
    var n := |es| - 1;
    var own, e := Own(es[..n], t), es[n];
    if Records(e, t) {
      SummaryGrows(own, e, t);
    }
    if i < n {
      UndisturbedBefore(es, n, i, t);
      UndisturbedIsRemembered(es[..n], t, i);
    }
  }

  /** A native delivery is remembered exactly as long as nothing resets its turn. */
  lemma DeliveryIsRememberedIffUndisturbed(es: seq<Event>, t: Turn)
    ensures HasDelivery(Own(es, t)) <==> exists i: nat | i < |es| :: DeliveredAt(es, i, t) && Undisturbed(es, i, t)
  {
    if HasDelivery(Own(es, t)) {
      var _ := RememberedIsUndisturbed(es, t);
    }
    if i: nat :| i < |es| && DeliveredAt(es, i, t) && Undisturbed(es, i, t) {
      UndisturbedIsRemembered(es, t, i);
    }
  }

  /** So fallback text follows a native delivery of the same turn exactly when every such delivery was
      followed by a reset. */
  lemma FallbackAfterDeliveryIff(es: seq<Event>, t: Turn, id: string)
    requires Trim(LastText(Own(es, t))) !in {DONE_MARKER, ""} && !AwaitsInput(Own(es, t))
    ensures Issued(Fold(es), Completed(t, Some(id), false)).Finish?
            <==> forall i: nat | i < |es| && DeliveredAt(es, i, t) :: !Undisturbed(es, i, t)
  {
    ViewIsOwnSummary(es, t);
    DeliveryIsRememberedIffUndisturbed(es, t);
  }

  /** This turn's own events, short of completing, failing or being cancelled. */
  predicate StillRunning(e: Event, t: Turn) {
    (e.Started? || e.ActionResult? || e.InputRequested? || e.MessageCompleted?) && e.turn == t
  }

  lemma RunningIsUndisturbed(es: seq<Event>, i: nat, t: Turn)
    requires i < |es| && forall j | i < j < |es| :: StillRunning(es[j], t)
    ensures Undisturbed(es, i, t)
  {
  }

  /** As long as a turn only runs on after its native delivery - no parking, no settling of its own, no other
      turn - its completion publishes no fallback text. */
  lemma RunningTurnPublishesNoFallback(es: seq<Event>, i: nat, t: Turn, id: string, fault: bool)
    requires i < |es| && DeliveredAt(es, i, t) && forall j | i < j < |es| :: StillRunning(es[j], t)
    ensures !Issued(Fold(es), Completed(t, Some(id), fault)).Finish?
  {
    RunningIsUndisturbed(es, i, t);
    UndisturbedIsRemembered(es, t, i);
    FallbackIsOwnTextWithoutDelivery(es, t, id, fault);
  }

  /** A turn that parks on input after its native delivery: parking drops the record, so the text of the resumed
      turn is published although no other turn came between. */
  lemma ParkedTurnForgetsDelivery(t: Turn, id: string)
    ensures var es := [Started(t), ActionResult(t, Message), InputRequested(t, true), Completed(t, Some(id), false),
                       Started(t), MessageCompleted(t, "done")];
            DeliveredAt(es, 1, t) && Issued(Fold(es), Completed(t, Some(id), false)) == Finish(id, "done")
  {
    var es := [Started(t), ActionResult(t, Message), InputRequested(t, true), Completed(t, Some(id), false),
               Started(t), MessageCompleted(t, "done")];
    FoldSnoc(es, 5);
    FoldSnoc(es, 4);
    ParkingClears(Fold(es[..3]), t, id);
    FoldSnoc(es, 3);
    FoldSnoc(es, 2);
    assert Trim("done") == "done";
  }

  lemma FoldSnoc(es: seq<Event>, n: nat)
    requires n < |es|
    ensures Fold(es[..n + 1]) == After(Fold(es[..n]), es[n])
    ensures es[..|es|] == es
  {
    assert es[..n + 1][..n] == es[..n];
  }

  lemma ParkingClears(r: Option<Response>, t: Turn, id: string)
    ensures After(r, Completed(t, Some(id), false)) == None
  {
  }

  /** Two turns whose events interleave: the first one's message was delivered, and its fallback is published too. */
  lemma InterleavedTurnForgetsDelivery(a: Turn, b: Turn, id: string)
    requires a != b
    ensures var es := [Started(a), ActionResult(a, Message), Started(b), MessageCompleted(a, "done")];
            DeliveredAt(es, 1, a) && Issued(Fold(es), Completed(a, Some(id), false)) == Finish(id, "done")
  {
    var es := [Started(a), ActionResult(a, Message), Started(b), MessageCompleted(a, "done")];
    KeyIsInjective(a, b);
    assert es[..3] == [Started(a), ActionResult(a, Message), Started(b)];
    assert es[..3][..2] == [Started(a), ActionResult(a, Message)];
    assert Fold(es[..3]).Some? && Fold(es[..3]).value == Fresh(b);
    assert Fold(es) == Some(Fresh(a).(text := "done"));
    assert Trim("done") == "done";
  }

  // ---------------------------------------------------------------- what the handlers issue for one delivery

  datatype Row = Pending(bound: bool) | Dispatched(bound: bool) | AnswerReady(output: string)
               | Settled(published: Option<string>) | Suppressed
  {
    predicate Open(bound: bool) { (Pending? || Dispatched?) && this.bound == bound }
  }

  /** `bound`: a session owns the row. A post whose transaction does not commit is made and not recorded. */
  datatype RowStep =
    | Bind
    | Dispatch
    | FinishRow(text: string)
    | CompleteRow
    | Publish(recorded: bool)
    | Notice(text: string, recorded: bool)   // a fixed notice for a reply that entered no session
    | Acknowledge(resolved: bool)            // a reply whose answer entered another session
    | Suppress

  /** The row steps an event of the session makes the handlers take for a delivery. */
  function StepsFor(e: Effect, id: string): seq<RowStep> {
    match e
    case Finish(event, text) => if event == id then [FinishRow(text)] else []
    case Complete(event) => if event == id then [CompleteRow] else []
    case Silent => []
  }

  function Issues(es: seq<Event>, id: string): seq<RowStep> {
    if es == [] then []
    else
      var n := |es| - 1;
      Issues(es[..n], id) + StepsFor(Issued(Fold(es[..n]), es[n]), id)
  }

  /** An event that settles the delivery: a failed session, a failed turn, or a turn completed while it awaits nothing. */
  predicate SettlesAt(es: seq<Event>, i: nat, id: string)
    requires i < |es|
  {
    match es[i]
    case SessionFailed(event, _) => event == Some(id)
    case Failed(_, event, _, _) => event == Some(id)
    case Completed(t, event, _) => event == Some(id) && !AwaitsInput(Own(es[..i], t))
    case _ => false
  }

  function SettlingEvents(es: seq<Event>, id: string): seq<nat> {
    if es == [] then []
    else
      var n := |es| - 1;
      SettlingEvents(es[..n], id) + if SettlesAt(es, n, id) then [n] else []
  }

  lemma IssuesAtSettlingEvents(es: seq<Event>, i: nat, id: string)
    requires i < |es|
    ensures |StepsFor(Issued(Fold(es[..i]), es[i]), id)| == if SettlesAt(es, i, id) then 1 else 0
  {
    match es[i]
    case Completed(t, _, _) => ViewIsOwnSummary(es[..i], t);
    case _ =>
  }

  /** The handlers issue for a delivery exactly once per settling event, so at most once if and only if at most one
      such event comes. */
  lemma {:induction false} IssuesOncePerSettlingEvent(es: seq<Event>, id: string)
    ensures |Issues(es, id)| == |SettlingEvents(es, id)|
    decreases |es|
  {
    if es != [] {
      IssuesOncePerSettlingEvent(es[..|es| - 1], id);
      IssuesAtSettlingEvents(es, |es| - 1, id);
    }
  }

  lemma {:induction false} SettlingEventsAre(es: seq<Event>, id: string)
    ensures forall i: nat :: i in SettlingEvents(es, id) <==> i < |es| && SettlesAt(es, i, id)
    ensures forall j, k | 0 <= j < k < |SettlingEvents(es, id)| :: SettlingEvents(es, id)[j] < SettlingEvents(es, id)[k]
    decreases |es|
  {
    if es != [] {
      var n := |es| - 1;
      SettlingEventsAre(es[..n], id);
      forall i: nat | i < n ensures SettlesAt(es[..n], i, id) <==> SettlesAt(es, i, id) {
        assert es[..n][..i] == es[..i] && es[..n][i] == es[i];
      }
      var before := SettlingEvents(es[..n], id);
      assert forall k | 0 <= k < |before| :: before[k] in before;
    }
  }

  lemma IssuesAtMostOnceIff(es: seq<Event>, id: string)
    ensures |Issues(es, id)| <= 1
       <==> forall i: nat, j: nat | i < j < |es| :: !(SettlesAt(es, i, id) && SettlesAt(es, j, id))
  {
    var at := SettlingEvents(es, id);
    IssuesOncePerSettlingEvent(es, id);
    SettlingEventsAre(es, id);
    if |at| >= 2 {
      assert at[0] in at && at[1] in at && at[0] < at[1];
      assert SettlesAt(es, at[0], id) && SettlesAt(es, at[1], id);
    }
    if i: nat, j: nat :| i < j < |es| && SettlesAt(es, i, id) && SettlesAt(es, j, id) {
      assert i in at && j in at;
    }
  }

  /** A turn that completes and then fails makes the handlers issue twice. */
  lemma CompletedThenFailedIssuesTwice(t: Turn, id: string)
    ensures |Issues([Completed(t, Some(id), false), Failed(t, Some(id), false, false)], id)| == 2
  {
    var es := [Completed(t, Some(id), false), Failed(t, Some(id), false, false)];
    assert es[..1] == [es[0]] && es[..1][..0] == [] && es[..0] == [];
    IssuesAtSettlingEvents(es, 0, id);
    IssuesAtSettlingEvents(es, 1, id);
    assert Issues(es[..1], id) == [] + StepsFor(Issued(Fold([]), es[0]), id);
  }

  // ---------------------------------------------------------------- the delivery row

  function Slice(text: string): string { if |text| > 32000 then text[..32000] else text }

  function RowAfter(row: Row, s: RowStep): Row {
    match s
    case Bind => if row.Open(false) then row.(bound := true) else row
    case Dispatch => if row.Pending? && row.bound then Dispatched(true) else row
    case FinishRow(text) => if row.Open(true) then AnswerReady(Slice(text)) else row
    case CompleteRow => if row.Open(true) then Settled(None) else row
    case Publish(recorded) => if row.AnswerReady? && recorded then Settled(Some(row.output)) else row
    case Notice(text, recorded) => if row.Open(false) && recorded then Settled(Some(text)) else row
    case Acknowledge(resolved) => if !row.Open(false) then row else if resolved then Settled(None) else Dispatched(false)
    case Suppress => if row.Settled? then row else Suppressed
  }

  function Posted(row: Row, s: RowStep): seq<string> {
    if s.Publish? && row.AnswerReady? then [row.output]
    else if s.Notice? && row.Open(false) then [s.text]
    else []
  }

  /** The texts posted to the room, in order; all of them carry one transaction id. */
  function Posts(row: Row, steps: seq<RowStep>): seq<string>
    decreases |steps|
  {
    if steps == [] then [] else Posted(row, steps[0]) + Posts(RowAfter(row, steps[0]), steps[1..])
  }

  /** How many of the steps settled the row: gave it its answer or completed it. */
  function Settlements(row: Row, steps: seq<RowStep>): nat
    decreases |steps|
  {
    if steps == [] then 0
    else (if RowIsOpen(row) && (RowAfter(row, steps[0]).AnswerReady? || RowAfter(row, steps[0]).Settled?) then 1 else 0)
         + Settlements(RowAfter(row, steps[0]), steps[1..])
  }

  predicate RowIsOpen(row: Row) { row.Pending? || row.Dispatched? }

  predicate NoticesRecorded(steps: seq<RowStep>) { forall s | s in steps :: s.Notice? ==> s.recorded }

  predicate Agree(posts: seq<string>) { forall i, j | 0 <= i < j < |posts| :: posts[i] == posts[j] }

  /** Of all the steps that would settle a delivery at most one takes effect. */
  lemma {:induction false} SettledAtMostOnce(row: Row, steps: seq<RowStep>)
    ensures Settlements(row, steps) <= if RowIsOpen(row) then 1 else 0
    decreases |steps|
  {
    if steps != [] {
      SettledAtMostOnce(RowAfter(row, steps[0]), steps[1..]);
    }
  }

  /** A step that settles a row bound to a session. */
  predicate SettlesBound(s: RowStep) { s.FinishRow? || s.CompleteRow? }

  /** A row bound to a session is settled exactly by the first answer or completion that comes before it is suppressed. */
  lemma {:induction false} BoundRowIsSettledIff(row: Row, steps: seq<RowStep>)
    requires RowIsOpen(row) && row.bound
    ensures Settlements(row, steps) == 1
       <==> exists i | 0 <= i < |steps| :: SettlesBound(steps[i]) && forall j | 0 <= j < i :: !steps[j].Suppress?
    decreases |steps|
  {
    if steps != [] && !SettlesBound(steps[0]) && !steps[0].Suppress? {
      var rest := steps[1..];
      BoundRowIsSettledIff(RowAfter(row, steps[0]), rest);
      if i :| 0 <= i < |steps| && SettlesBound(steps[i]) && forall j | 0 <= j < i :: !steps[j].Suppress? {
        assert SettlesBound(rest[i - 1]) && forall j | 0 <= j < i - 1 :: rest[j] == steps[j + 1];
      }
      if i :| 0 <= i < |rest| && SettlesBound(rest[i]) && forall j | 0 <= j < i :: !rest[j].Suppress? {
        assert SettlesBound(steps[i + 1]) && forall j | 0 < j < i + 1 :: steps[j] == rest[j - 1];
      }
    } else if steps != [] {
      SettledAtMostOnce(RowAfter(row, steps[0]), steps[1..]);
    }
  }

  /** A row no session has taken over is settled exactly by the first recorded notice or resolved reply that comes before
      it is bound or suppressed. */
  lemma {:induction false} UnboundRowIsSettledIff(row: Row, steps: seq<RowStep>)
    requires RowIsOpen(row) && !row.bound && forall s | s in steps :: !s.Bind?
    ensures Settlements(row, steps) == 1
       <==> exists i | 0 <= i < |steps| :: SettlesUnbound(steps[i]) && forall j | 0 <= j < i :: !steps[j].Suppress?
    decreases |steps|
  {
    if steps != [] && !SettlesUnbound(steps[0]) && !steps[0].Suppress? {
      var rest := steps[1..];
      assert steps[0] in steps && forall s | s in rest :: s in steps;
      UnboundRowIsSettledIff(RowAfter(row, steps[0]), rest);
      if i :| 0 <= i < |steps| && SettlesUnbound(steps[i]) && forall j | 0 <= j < i :: !steps[j].Suppress? {
        assert SettlesUnbound(rest[i - 1]) && forall j | 0 <= j < i - 1 :: rest[j] == steps[j + 1];
      }
      if i :| 0 <= i < |rest| && SettlesUnbound(rest[i]) && forall j | 0 <= j < i :: !rest[j].Suppress? {
        assert SettlesUnbound(steps[i + 1]) && forall j | 0 < j < i + 1 :: steps[j] == rest[j - 1];
      }
    } else if steps != [] {
      SettledAtMostOnce(RowAfter(row, steps[0]), steps[1..]);
    }
  }

  predicate SettlesUnbound(s: RowStep) { (s.Notice? && s.recorded) || (s.Acknowledge? && s.resolved) }

  function RowRun(row: Row, steps: seq<RowStep>): Row
    decreases |steps|
  {
    if steps == [] then row else RowRun(RowAfter(row, steps[0]), steps[1..])
  }

  /** While a bound row is open it stays bound, and is dispatched exactly if it was or has been since. */
  lemma {:induction false} OpenBoundRowIsDispatchedIff(row: Row, steps: seq<RowStep>)
    requires RowIsOpen(row) && row.bound && RowIsOpen(RowRun(row, steps))
    ensures var end := RowRun(row, steps); end.bound && (end.Dispatched? <==> row.Dispatched? || Dispatch in steps)
    decreases |steps|
  {
    if steps != [] {
      if !RowIsOpen(RowAfter(row, steps[0])) {
        ClosedRowStaysClosed(RowAfter(row, steps[0]), steps[1..]);
      }
      OpenBoundRowIsDispatchedIff(RowAfter(row, steps[0]), steps[1..]);
      assert Dispatch in steps <==> steps[0] == Dispatch || Dispatch in steps[1..];
    }
  }

  lemma {:induction false} ClosedRowStaysClosed(row: Row, steps: seq<RowStep>)
    requires !RowIsOpen(row)
    ensures !RowIsOpen(RowRun(row, steps))
    decreases |steps|
  {
    if steps != [] {
      ClosedRowStaysClosed(RowAfter(row, steps[0]), steps[1..]);
    }
  }

  /** The answer such a row is settled with is what every later post carries. */
  lemma BoundRowPostsItsAnswer(row: Row, text: string, steps: seq<RowStep>)
    requires RowIsOpen(row) && row.bound
    ensures forall p | p in Posts(row, [FinishRow(text)] + steps) ::
              p <= text && |p| <= 32000 && (|text| <= 32000 ==> p == text)
    ensures Posts(row, [FinishRow(text), Publish(true)]) == [Slice(text)]
  {
    assert ([FinishRow(text)] + steps)[1..] == steps;
    ClosedRowPosts(AnswerReady(Slice(text)), steps);
    assert [FinishRow(text), Publish(true)][1..] == [Publish(true)];
    assert Posts(AnswerReady(Slice(text)), [Publish(true)]) == [Slice(text)];
  }

  lemma {:induction false} ClosedRowPosts(row: Row, steps: seq<RowStep>)
    requires !RowIsOpen(row)
    ensures forall p | p in Posts(row, steps) :: row.AnswerReady? && p == row.output
    decreases |steps|
  {
    if steps != [] {
      ClosedRowPosts(RowAfter(row, steps[0]), steps[1..]);
    }
  }

  /** Every post of a delivery carries the same text, as long as no notice is posted without being recorded. */
  lemma {:induction false} RecordedPostsAgree(row: Row, steps: seq<RowStep>)
    requires NoticesRecorded(steps)
    ensures Agree(Posts(row, steps))
    decreases |steps|
  {
    if steps != [] {
      var next := RowAfter(row, steps[0]);
      var posts := Posts(next, steps[1..]);
      assert steps[0] in steps && forall s | s in steps[1..] :: s in steps;
      RecordedPostsAgree(next, steps[1..]);
      if !RowIsOpen(next) {
        ClosedRowPosts(next, steps[1..]);
        assert forall i | 0 <= i < |posts| :: posts[i] in posts;
      }
    }
  }

  /** A notice that is posted and not recorded, before a session takes the delivery over and answers it. */
  lemma LostNoticeDisagrees(notice: string, answer: string)
    requires Slice(answer) != notice
    ensures var steps := [Notice(notice, false), Bind, FinishRow(answer), Publish(true)];
            Posts(Pending(false), steps) == [notice, Slice(answer)]
  {
    var steps := [Notice(notice, false), Bind, FinishRow(answer), Publish(true)];
    assert steps[1..] == [Bind, FinishRow(answer), Publish(true)];
    assert steps[1..][1..] == [FinishRow(answer), Publish(true)];
    assert steps[1..][1..][1..] == [Publish(true)];
    assert Posts(AnswerReady(Slice(answer)), [Publish(true)]) == [Slice(answer)];
    assert Posts(Pending(true), [FinishRow(answer), Publish(true)]) == [Slice(answer)];
    assert Posts(Pending(false), [Bind, FinishRow(answer), Publish(true)]) == [Slice(answer)];
  }

  /** The texts of the notices that were posted, and not recorded, while the row was open. */
  function LostNotices(row: Row, steps: seq<RowStep>): seq<string>
    decreases |steps|
  {
    if steps == [] || !RowIsOpen(row) then []
    else
      (if steps[0].Notice? && !steps[0].recorded then Posted(row, steps[0]) else [])
      + LostNotices(RowAfter(row, steps[0]), steps[1..])
  }

  /** All other posts: of the recorded notice or the answer that settled the row. */
  function SettledPosts(row: Row, steps: seq<RowStep>): seq<string>
    decreases |steps|
  {
    if steps == [] then []
    else
      (if RowIsOpen(row) && steps[0].Notice? && !steps[0].recorded then [] else Posted(row, steps[0]))
      + SettledPosts(RowAfter(row, steps[0]), steps[1..])
  }

  lemma {:induction false} PostsSplit(row: Row, steps: seq<RowStep>)
    ensures Posts(row, steps) == LostNotices(row, steps) + SettledPosts(row, steps)
    decreases |steps|
  {
    if steps != [] {
      var next := RowAfter(row, steps[0]);
      var lost, settled := LostNotices(next, steps[1..]), SettledPosts(next, steps[1..]);
      PostsSplit(next, steps[1..]);
      if RowIsOpen(row) && steps[0].Notice? && !steps[0].recorded {
        assert Posted(row, steps[0]) + (lost + settled) == (Posted(row, steps[0]) + lost) + settled;
      } else {
        assert Posted(row, steps[0]) == [] || lost == [];
      }
    }
  }

  lemma {:induction false} SettledPostsAgree(row: Row, steps: seq<RowStep>)
    ensures Agree(SettledPosts(row, steps))
    ensures !RowIsOpen(row) ==> SettledPosts(row, steps) == Posts(row, steps)
    decreases |steps|
  {
    if steps != [] {
      var next := RowAfter(row, steps[0]);
      SettledPostsAgree(next, steps[1..]);
      if !RowIsOpen(next) {
        ClosedRowPosts(next, steps[1..]);
        var posts := SettledPosts(next, steps[1..]);
        assert forall i | 0 <= i < |posts| :: posts[i] in posts;
      }
    }
  }

  /** All posts of a delivery agree exactly when the notices posted without being recorded, while the row was open, all
      say the same, and say what the row was settled with if that was posted too. */
  lemma PostsAgreeIff(row: Row, steps: seq<RowStep>)
    ensures Agree(Posts(row, steps))
       <==> Agree(LostNotices(row, steps))
            && forall x, p | x in LostNotices(row, steps) && p in SettledPosts(row, steps) :: x == p
  {
    PostsSplit(row, steps);
    SettledPostsAgree(row, steps);
    AgreeConcat(LostNotices(row, steps), SettledPosts(row, steps));
  }

  lemma AgreeConcat(a: seq<string>, b: seq<string>)
    ensures Agree(a + b) <==> Agree(a) && Agree(b) && forall x, y | x in a && y in b :: x == y
  {
    var all := a + b;
    assert forall i | 0 <= i < |a| :: all[i] == a[i];
    assert forall j | 0 <= j < |b| :: all[|a| + j] == b[j];
    if Agree(all) {
      forall x, y | x in a && y in b ensures x == y {
        var i :| 0 <= i < |a| && a[i] == x;
        var j :| 0 <= j < |b| && b[j] == y;
        assert all[i] == all[|a| + j];
      }
      forall i, j | 0 <= i < j < |b| ensures b[i] == b[j] {
        assert all[|a| + i] == all[|a| + j];
      }
    }
    if Agree(a) && Agree(b) && forall x, y | x in a && y in b :: x == y {
      forall i, j | 0 <= i < j < |all| ensures all[i] == all[j] {
        assert i < |a| ==> all[i] in a;
        assert j >= |a| ==> all[j] in b;
      }
    }
  }

  /** Whatever else happens to the row, an answer posted for it is one the handlers issued: cut to size, the
      apology or the text of a turn. */
  lemma {:induction false} PostedAnswersWereIssued(es: seq<Event>, id: string, row: Row, steps: seq<RowStep>, p: string)
    requires RowIsOpen(row) && p in Posts(row, steps)
    requires forall s | s in steps && s.FinishRow? :: s in Issues(es, id)
    ensures (exists s | s in Issues(es, id) :: s.FinishRow? && p == Slice(s.text)) || exists s | s in steps :: s.Notice? && p == s.text
    decreases |steps|
  {
    var next := RowAfter(row, steps[0]);
    assert steps[0] in steps && forall s | s in steps[1..] :: s in steps;
    if p !in Posted(row, steps[0]) {
      if RowIsOpen(next) {
        PostedAnswersWereIssued(es, id, next, steps[1..], p);
      } else {
        ClosedRowPosts(next, steps[1..]);
      }
    }
  }
}
