/** One consumption of one payload by the session that owns it
    (agent/lib/durable-delivery.ts, server/messaging/native-receipts.ts). */
module DurableDelivery {
  import opened Wrappers

  datatype Key = Key(workspace: string, input: string)

  datatype Receipt = Receipt(session: string, digest: string)

  /** A context entry: a well-formed delivery marker, a marker whose JSON does not parse, or user text. */
  datatype Context = Marker(id: string, digest: string) | BadMarker | Note(text: string)

  datatype Payload = Payload(message: string, context: seq<Context>)

  /** What the optional `accept` callback does for this call. */
  datatype Gate = NoGate | Accepts | Refuses | Throws

  datatype Failure = InvalidMarker | ConflictingReplay | GateFailed | NoAddress | NoWorkspace | ConflictingReceipt

  /** `Skipped` is the source's `undefined`: nothing is handed to the turn. */
  datatype Outcome = Consumed(payload: Payload) | PassedThrough(payload: Payload) | Skipped | Failed(failure: Failure)

  datatype Channel = Channel(receipts: map<string, string>, token: Option<string>, aliases: set<string>)

  /** INSERT ... ON CONFLICT: an absent key is stored, an identical row is kept, anything else stores nothing. */
  function Record(rows: map<Key, Receipt>, key: Key, receipt: Receipt): Option<map<Key, Receipt>> {
    if key !in rows then Some(rows[key := receipt])
    else if rows[key] == receipt then Some(rows)
    else None
  }

  function SessionAlias(session: string): string { "session:" + session }

  /** Both the address the token held and the next one resolve to the session afterwards. */
  function Alias(c: Channel, next: string): Channel {
    match c.token
    case None => c
    case Some(current) => c.(token := Some(next), aliases := c.aliases + {current, next})
  }

  function Deliver(session: string, workspace: Option<string>, c: Channel, rows: map<Key, Receipt>,
                   payload: Payload, gate: Gate): (Outcome, Channel, map<Key, Receipt>)
  {
    if payload.context == [] || payload.context[0].Note? then
      (if gate.NoGate? then PassedThrough(payload) else Skipped, c, rows)
    else if payload.context[0].BadMarker? then (Failed(InvalidMarker), c, rows)
    else
      var Marker(id, digest) := payload.context[0];
      if id in c.receipts then
        (if c.receipts[id] != digest then Failed(ConflictingReplay) else Skipped, c, rows)
      else if gate.Throws? then (Failed(GateFailed), c, rows)
      else if gate.Refuses? then (Skipped, c, rows)
      else if c.token.None? then (Failed(NoAddress), c, rows)
      else if workspace.None? || workspace.value == "" then (Failed(NoWorkspace), c, rows)
      else match Record(rows, Key(workspace.value, id), Receipt(session, digest))
        case None => (Failed(ConflictingReceipt), c, rows)
        case Some(stored) =>
          var recorded := c.(receipts := c.receipts[id := digest]);
          (Consumed(payload.(context := payload.context[1..])),
           Alias(Alias(recorded, SessionAlias(session)), c.token.value),
           stored)
  }

  class NativeReceipts {
    var rows: map<Key, Receipt>

    constructor ()
      ensures rows == map[]
    {
      rows := map[];
    }

    /** server/messaging/native-receipts.ts:14-23. A row, once stored, is never replaced. */
    method RecordNative(key: Key, receipt: Receipt) returns (stored: bool)
      modifies this
      ensures stored <==> old(key !in rows || rows[key] == receipt)
      ensures rows == if stored then old(rows)[key := receipt] else old(rows)
      ensures forall k | k in old(rows) :: k in rows && rows[k] == old(rows)[k]
    {
      if key in rows && rows[key] != receipt {
        return false;
      }
      rows := rows[key := receipt];
      stored := true;
    }
  }

  /** The live channel of one session: its delivery state and its continuation. */
  class LiveChannel {
    const session: string
    const workspace: Option<string>
    var receipts: map<string, string>
    var token: Option<string>
    var aliases: set<string>

    function Value(): Channel
      reads this
    {
      Channel(receipts, token, aliases)
    }

    constructor (session: string, workspace: Option<string>, address: Option<string>)
      ensures this.session == session && this.workspace == workspace
      ensures Value() == Channel(map[], address, if address.Some? then {address.value} else {})
    {
      this.session, this.workspace := session, workspace;
      receipts, token := map[], address;
      aliases := if address.Some? then {address.value} else {};
    }

    method Rename(next: string)
      modifies this`token, this`aliases
      ensures Value() == Alias(old(Value()), next)
    {
      if token.Some? {
        aliases := aliases + {token.value, next};
        token := Some(next);
      }
    }

    /** agent/lib/durable-delivery.ts:39-70, branch by branch. */
    method DeliverOnce(table: NativeReceipts, payload: Payload, gate: Gate) returns (outcome: Outcome)
      modifies this, table
      ensures (outcome, Value(), table.rows)
           == Deliver(session, workspace, old(Value()), old(table.rows), payload, gate)
    {
      if payload.context == [] || payload.context[0].Note? {
        return if gate.NoGate? then PassedThrough(payload) else Skipped;
      }
      if payload.context[0].BadMarker? {
        return Failed(InvalidMarker);
      }
      var id, digest := payload.context[0].id, payload.context[0].digest;
      if id in receipts {
        return if receipts[id] != digest then Failed(ConflictingReplay) else Skipped;
      }
      if gate.Throws? {
        return Failed(GateFailed);
      }
      if gate.Refuses? {
        return Skipped;
      }
      if token.None? {
        return Failed(NoAddress);
      }
      if workspace.None? || workspace.value == "" {
        return Failed(NoWorkspace);
      }
      var stored := table.RecordNative(Key(workspace.value, id), Receipt(session, digest));
      if !stored {
        return Failed(ConflictingReceipt);
      }
      receipts := receipts[id := digest];
      var address := token.value;
      Rename(SessionAlias(session));
      Rename(address);
      assert table.rows == Record(old(table.rows), Key(workspace.value, id), Receipt(session, digest)).value;
      outcome := Consumed(payload.(context := payload.context[1..]));
    }
  }

  /** A payload as both callers send it, its marker first: lines 108-116 and 168-174. */
  function Marked(id: string, digest: string, payload: Payload): Payload {
    payload.(context := [Marker(id, digest)] + payload.context)
  }

  predicate Storable(rows: map<Key, Receipt>, key: Key, r: Receipt) { key in rows ==> rows[key] == r }

  /** What was sent arrives without its marker, whatever else its context holds, exactly if the session has not consumed
      it, lets it in, has an address and a workspace, and no other receipt is stored for it. A replay is skipped if the
      contents are those of the first delivery, and fails if not. */
  lemma MarkedPayloadArrives(session: string, workspace: Option<string>, c: Channel, rows: map<Key, Receipt>,
                             id: string, digest: string, payload: Payload, gate: Gate)
    ensures var (outcome, c', rows') := Deliver(session, workspace, c, rows, Marked(id, digest, payload), gate);
            var here := workspace.Some? && workspace.value != "" && c.token.Some?;
            && (outcome.Consumed? || outcome.PassedThrough? ==> outcome == Consumed(payload))
            && (outcome == Consumed(payload)
                <==> id !in c.receipts && (gate.NoGate? || gate.Accepts?) && here
                     && Storable(rows, Key(workspace.value, id), Receipt(session, digest)))
            && (outcome == Failed(ConflictingReplay) <==> id in c.receipts && c.receipts[id] != digest)
            && (outcome == Skipped <==> if id in c.receipts then c.receipts[id] == digest else gate.Refuses?)
            && (outcome == Failed(GateFailed) <==> id !in c.receipts && gate.Throws?)
            && (outcome == Failed(NoAddress) <==> id !in c.receipts && (gate.NoGate? || gate.Accepts?) && c.token.None?)
            && (outcome == Failed(NoWorkspace) <==>
                  id !in c.receipts && (gate.NoGate? || gate.Accepts?) && c.token.Some? && !here)
            && (outcome == Failed(ConflictingReceipt) <==>
                  id !in c.receipts && (gate.NoGate? || gate.Accepts?) && here
                  && !Storable(rows, Key(workspace.value, id), Receipt(session, digest)))
            && (!outcome.Consumed? ==> c' == c && rows' == rows)
  {
    assert Marked(id, digest, payload).context[1..] == payload.context;
  }

  /** Payloads without a readable marker change nothing: they pass as they are on a channel without a gate, and are dropped
      by one with a gate; a marker that cannot be read fails. */
  lemma UnmarkedPayloadsPass(session: string, workspace: Option<string>, c: Channel, rows: map<Key, Receipt>, payload: Payload, gate: Gate)
    requires payload.context != [] ==> !payload.context[0].Marker?
    ensures var (outcome, c', rows') := Deliver(session, workspace, c, rows, payload, gate);
            && c' == c && rows' == rows
            && (outcome == Failed(InvalidMarker) <==> payload.context != [] && payload.context[0].BadMarker?)
            && (outcome == PassedThrough(payload) || outcome == Skipped || outcome == Failed(InvalidMarker))
            && (outcome == PassedThrough(payload) ==> gate == NoGate) && (outcome == Skipped ==> gate != NoGate)
  {
  }

  /** Every delivery of a list of payloads to one session, with the gate each meets. */
  function DeliverAll(session: string, workspace: Option<string>, c: Channel, rows: map<Key, Receipt>,
                      work: seq<(Payload, Gate)>): (Channel, map<Key, Receipt>)
    decreases work
  {
    if work == [] then (c, rows)
    else
      var (_, c', rows') := Deliver(session, workspace, c, rows, work[0].0, work[0].1);
      DeliverAll(session, workspace, c', rows', work[1..])
  }

  /** However long the conversation, the session keeps its address and gains at most one alias. */
  lemma {:induction false} AliasesStayBounded(session: string, workspace: Option<string>, c: Channel,
                                              rows: map<Key, Receipt>, work: seq<(Payload, Gate)>)
    requires c.token.Some? && c.token.value in c.aliases
    ensures var (c', _) := DeliverAll(session, workspace, c, rows, work);
            c'.token == c.token && c.aliases <= c'.aliases <= c.aliases + {SessionAlias(session)}
    decreases work
  {
    if work != [] {
      var (_, c1, rows1) := Deliver(session, workspace, c, rows, work[0].0, work[0].1);
      AliasesStayBounded(session, workspace, c1, rows1, work[1..]);
    }
  }

  /** Receipts only accumulate, in the session and in SQL, and the session's own agree with SQL. */
  lemma {:induction false} ReceiptsOnlyGrow(session: string, workspace: Option<string>, c: Channel,
                                            rows: map<Key, Receipt>, work: seq<(Payload, Gate)>)
    requires workspace.Some? && workspace.value != ""
    requires forall id | id in c.receipts ::
               Key(workspace.value, id) in rows && rows[Key(workspace.value, id)] == Receipt(session, c.receipts[id])
    ensures var (c', rows') := DeliverAll(session, workspace, c, rows, work);
            && (forall id | id in c.receipts :: id in c'.receipts && c'.receipts[id] == c.receipts[id])
            && (forall k | k in rows :: k in rows' && rows'[k] == rows[k])
            && (forall id | id in c'.receipts ::
                  Key(workspace.value, id) in rows'
                  && rows'[Key(workspace.value, id)] == Receipt(session, c'.receipts[id]))
    decreases work
  {
    if work != [] {
      var (_, c1, rows1) := Deliver(session, workspace, c, rows, work[0].0, work[0].1);
      ReceiptsOnlyGrow(session, workspace, c1, rows1, work[1..]);
    }
  }
}
