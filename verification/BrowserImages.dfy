/** Publication of a browser image by racing finalizers (db/services/browser-images.ts), over the
    payload intents of server/payloads/publication.ts and the collector of server/payloads/collection.ts.
    Every transaction is one step: the rows it reads are locked until it commits. */
module BrowserImages {
  import opened Wrappers

  type Id = nat
  type Byte = b: int | 0 <= b < 256
  type Bytes = seq<Byte>
  type Hash = Bytes -> string

  const MAX_BYTES: nat := 8 * 1024 * 1024

  datatype Scope = Scope(workspace: string, user: string)

  datatype MediaType = Gif | Jpeg | Png | Webp

  datatype SourceKind = Element | FullPage | ImageResource | Viewport

  const PNG: Bytes := [0x89, 0x50, 0x4e, 0x47, 0x0d, 0x0a, 0x1a, 0x0a]
  const JPEG: Bytes := [0xff, 0xd8, 0xff]
  const GIF87A: Bytes := [0x47, 0x49, 0x46, 0x38, 0x37, 0x61]
  const GIF89A: Bytes := [0x47, 0x49, 0x46, 0x38, 0x39, 0x61]
  const RIFF: Bytes := [0x52, 0x49, 0x46, 0x46]
  const WEBP: Bytes := [0x57, 0x45, 0x42, 0x50]

  function Sniff(bytes: Bytes): Option<MediaType> {
    if PNG <= bytes then Some(Png)
    else if JPEG <= bytes then Some(Jpeg)
    else if GIF87A <= bytes || GIF89A <= bytes then Some(Gif)
    else if |bytes| >= 12 && RIFF <= bytes && WEBP <= bytes[8..] then Some(Webp)
    else None
  }

  /** The columns that are null until an image is ready. */
  datatype Manifest = Manifest(filename: string, mediaType: MediaType, sourceKind: SourceKind, byteSize: nat,
                               contentHash: string, payload: Id)

  datatype Input = Input(browserSession: string, rootSession: string, workerSession: string, title: string,
                         sourceKind: SourceKind, key: string)

  datatype Artifact = Artifact(scope: Scope, input: Input, manifest: Option<Manifest>)

  datatype Stage = Pending | Adopted | Deleting | Deleted

  /** A payload_object row; `open` says its write window has not passed, `adopted` that adopted_at is set. */
  datatype Payload = Payload(scope: Scope, artifact: Id, hash: string, length: nat, stage: Stage,
                             open: bool, verified: bool, adopted: bool, retired: bool)

  datatype Reference = Reference(byteSize: nat, filename: string, id: Id, title: string, mediaType: MediaType)

  datatype Phase =
    | Registered(candidate: Id)
    | Writing(candidate: Id)
    | Confirmed(candidate: Id)    // the stored object was read back and matched
    | Vouched(candidate: Id)      // verified_at is set
    | Done(image: Reference)
    | Failed

  datatype Finalizer = Finalizer(scope: Scope, artifact: Id, bytes: Bytes, filename: string,
                                 sourceKind: SourceKind, phase: Phase)

  /** `deleted` are ids of artifacts whose row is gone; `sent` is what each candidate was registered for. */
  datatype World = World(
    members: set<Scope>,
    artifacts: map<Id, Artifact>,
    deleted: set<Id>,
    payloads: map<Id, Payload>,
    sent: map<Id, Bytes>,
    uploads: set<Id>,
    store: map<Id, Bytes>,
    finalizers: map<Id, Finalizer>)
  {
    predicate Ready(id: Id) { id in artifacts && artifacts[id].manifest.Some? }

    predicate Reserved(id: Id, scope: Scope) { id in artifacts && artifacts[id].scope == scope && scope in members }

    function Image(id: Id): Reference
      requires Ready(id)
    {
      var row := artifacts[id];
      var m := row.manifest.value;
      Reference(m.byteSize, m.filename, id, row.input.title, m.mediaType)
    }

    predicate Referenced(candidate: Id) {
      exists id | id in artifacts :: artifacts[id].manifest.Some? && artifacts[id].manifest.value.payload == candidate
    }
  }

  const EMPTY: World := World({}, map[], {}, map[], map[], {}, map[], map[])

  datatype Step =
    | Reserve(id: Id, scope: Scope, input: Input)
    | Begin(call: Id, scope: Scope, artifact: Id, bytes: Bytes, filename: string, sourceKind: SourceKind, candidate: Id)
    | OpenWrite(call: Id)
    | ReadBack(call: Id)
    | Vouch(call: Id)
    | Finish(call: Id)
    | Abandon(call: Id)
    | Land(candidate: Id)               // an upload reaches the store, however late
    | WindowCloses(candidate: Id)
    | Quarantine(candidate: Id)
    | Collect(candidate: Id, removed: bool, acknowledged: bool)
    | Join(scope: Scope)
    | Leave(scope: Scope)

  function Advance(w: World, call: Id, phase: Phase): World
    requires call in w.finalizers
  {
    w.(finalizers := w.finalizers[call := w.finalizers[call].(phase := phase)])
  }

  /** The unique index on (workspace, idempotency key) decides whether the insert happens. */
  ghost function ReserveStep(w: World, id: Id, scope: Scope, input: Input): World {
    if scope !in w.members || id in w.artifacts || id in w.deleted || KeyTaken(w, scope.workspace, input.key) then w
    else w.(artifacts := w.artifacts[id := Artifact(scope, input, None)])
  }

  ghost predicate KeyTaken(w: World, workspace: string, key: string) {
    exists id | id in w.artifacts :: w.artifacts[id].scope.workspace == workspace && w.artifacts[id].input.key == key
  }

  /** Lines 95-124: the first transaction. */
  function BeginStep(h: Hash, w: World, call: Id, scope: Scope, artifact: Id, bytes: Bytes, filename: string,
                     sourceKind: SourceKind, candidate: Id): World
  {
    if call in w.finalizers || candidate in w.payloads || Sniff(bytes).None? || |bytes| > MAX_BYTES
       || !w.Reserved(artifact, scope) then w
    else
      var f := Finalizer(scope, artifact, bytes, filename, sourceKind, Failed);
      if w.Ready(artifact) then
        w.(finalizers := w.finalizers[call := f.(phase := Done(w.Image(artifact)))])
      else
        w.(finalizers := w.finalizers[call := f.(phase := Registered(candidate))],
           payloads := w.payloads[candidate :=
             Payload(scope, artifact, h(bytes), |bytes|, Pending, true, false, false, false)],
           sent := w.sent[candidate := bytes])
  }

  /** Both checks of a candidate around its upload: publication.ts lines 75-84 and 102-109. */
  predicate Writable(h: Hash, w: World, f: Finalizer, candidate: Id) {
    && candidate in w.payloads
    && var p := w.payloads[candidate];
       p.stage == Pending && p.open && p.scope == f.scope && p.artifact == f.artifact
       && p.hash == h(f.bytes) && p.length == |f.bytes|
  }

  /** adoptPayload and the UPDATE that points the row at its payload. */
  function Publish(h: Hash, w: World, f: Finalizer, c: Id): World
    requires f.artifact in w.artifacts && c in w.payloads && Sniff(f.bytes).Some?
  {
    var m := Manifest(f.filename, Sniff(f.bytes).value, f.sourceKind, |f.bytes|, h(f.bytes), c);
    w.(artifacts := w.artifacts[f.artifact := w.artifacts[f.artifact].(manifest := Some(m))],
       payloads := w.payloads[c := w.payloads[c].(stage := Adopted, adopted := true)])
  }

  /** Lines 126-140: the last transaction, with the pointer guard of migration 0113. */
  function FinishStep(h: Hash, w: World, call: Id): World
    requires call in w.finalizers && w.finalizers[call].phase.Vouched?
  {
    var f := w.finalizers[call];
    var c := f.phase.candidate;
    if !w.Reserved(f.artifact, f.scope) then Advance(w, call, Failed)
    else if w.Ready(f.artifact) then Advance(w, call, Done(w.Image(f.artifact)))
    else if !Writable(h, w, f, c) || !w.payloads[c].verified || w.payloads[c].retired || Sniff(f.bytes).None? then
      Advance(w, call, Failed)
    else
      var published := Publish(h, w, f, c);
      Advance(published, call, Done(published.Image(f.artifact)))
  }

  function FinalizerStep(h: Hash, w: World, call: Id, s: Step): World
    requires call in w.finalizers
  {
    var f := w.finalizers[call];
    match s
    case OpenWrite(_) =>
      if !f.phase.Registered? then w
      else if Writable(h, w, f, f.phase.candidate) then
        Advance(w, call, Writing(f.phase.candidate)).(uploads := w.uploads + {f.phase.candidate})
      else Advance(w, call, Failed)
    case ReadBack(_) =>
      if !f.phase.Writing? then w
      else
        var c := f.phase.candidate;
        if c in w.store && |w.store[c]| == |f.bytes| && h(w.store[c]) == h(f.bytes) then Advance(w, call, Confirmed(c))
        else Advance(w, call, Failed)
    case Vouch(_) =>
      if !f.phase.Confirmed? then w
      else
        var c := f.phase.candidate;
        if Writable(h, w, f, c) then
          Advance(w.(payloads := w.payloads[c := w.payloads[c].(verified := true)]), call, Vouched(c))
        else Advance(w, call, Failed)
    case Finish(_) => if f.phase.Vouched? then FinishStep(h, w, call) else w
    case Abandon(_) => if f.phase.Done? then w else Advance(w, call, Failed)
    case _ => w
  }

  /** Deleting a membership deletes its artifacts, and the trigger retires the payloads they pointed at. */
  ghost function LeaveStep(w: World, scope: Scope): World {
    var left := map id | id in w.artifacts && w.artifacts[id].scope != scope :: w.artifacts[id];
    var after := w.(artifacts := left);
    w.(members := w.members - {scope},
       artifacts := left,
       deleted := w.deleted + (w.artifacts.Keys - left.Keys),
       payloads := map c | c in w.payloads ::
         if w.Referenced(c) && !after.Referenced(c) && w.payloads[c].stage == Adopted
         then w.payloads[c].(retired := true) else w.payloads[c])
  }

  /** Any step of anybody; a step that is not enabled changes nothing. */
  ghost function Apply(h: Hash, w: World, s: Step): World {
    match s
    case Reserve(id, scope, input) => ReserveStep(w, id, scope, input)
    case Begin(call, scope, artifact, bytes, filename, sourceKind, candidate) =>
      BeginStep(h, w, call, scope, artifact, bytes, filename, sourceKind, candidate)
    case Land(c) => if c in w.uploads && c in w.sent && c !in w.store then w.(store := w.store[c := w.sent[c]]) else w
    case WindowCloses(c) =>
      if c in w.payloads then w.(payloads := w.payloads[c := w.payloads[c].(open := false)]) else w
    case Quarantine(c) =>
      if Collectable(w, c) && !w.payloads[c].retired then
        w.(payloads := w.payloads[c := w.payloads[c].(stage := Deleting, retired := true)])
      else w
    case Collect(c, removed, acknowledged) =>
      if Collectable(w, c) && w.payloads[c].retired then
        w.(payloads := w.payloads[c := w.payloads[c].(stage := if removed && acknowledged then Deleted else Deleting)],
           store := if removed then w.store - {c} else w.store)
      else w
    case Join(scope) => w.(members := w.members + {scope})
    case Leave(scope) => LeaveStep(w, scope)
    case _ => if s.call in w.finalizers then FinalizerStep(h, w, s.call, s) else w
  }

  /** collection.ts lines 39-43. */
  ghost predicate Collectable(w: World, c: Id) {
    c in w.payloads && !w.Referenced(c) && (w.payloads[c].stage != Pending || !w.payloads[c].open)
  }

  ghost function Run(h: Hash, w: World, steps: seq<Step>): World
    decreases |steps|
  {
    if steps == [] then w else Run(h, Apply(h, w, steps[0]), steps[1..])
  }

  // ---------------------------------------------------------------- what every reachable state keeps

  /** Coordinates are those of the registered bytes, and the store holds nothing else under that key. */
  ghost predicate CoordinatesOk(h: Hash, w: World) {
    && w.sent.Keys == w.payloads.Keys && w.uploads <= w.payloads.Keys
    && (forall c | c in w.payloads :: w.payloads[c].hash == h(w.sent[c]) && w.payloads[c].length == |w.sent[c]|)
    && (forall c | c in w.store :: c in w.sent && w.store[c] == w.sent[c])
  }

  ghost predicate CandidateOk(w: World, f: Finalizer, c: Id) {
    && c in w.payloads && c in w.sent && w.sent[c] == f.bytes && w.payloads[c].scope == f.scope && w.payloads[c].artifact == f.artifact
    && ((f.phase.Confirmed? || f.phase.Vouched?) && w.payloads[c].stage == Pending ==> c in w.store)
  }

  predicate InProgress(p: Phase) { p.Registered? || p.Writing? || p.Confirmed? || p.Vouched? }

  ghost predicate FinalizersOk(w: World) {
    && w.sent.Keys == w.payloads.Keys
    && forall k | k in w.finalizers && InProgress(w.finalizers[k].phase) ::
         CandidateOk(w, w.finalizers[k], w.finalizers[k].phase.candidate)
  }

  /** A verified payload that was not handed to the collector is in the store. */
  ghost predicate VerifiedAreStored(w: World) {
    forall c | c in w.payloads && w.payloads[c].verified && w.payloads[c].stage in {Pending, Adopted} :: c in w.store
  }

  ghost predicate StagesOk(w: World) {
    forall c | c in w.payloads :: var p := w.payloads[c];
      && (p.stage == Pending ==> !p.retired && !p.adopted)
      && (p.stage == Adopted ==> p.adopted && p.verified)
  }

  ghost predicate PointerOk(w: World, id: Id)
    requires id in w.artifacts
  {
    var row := w.artifacts[id];
    row.manifest.Some? ==>
      var m := row.manifest.value;
      m.payload in w.payloads && m.payload in w.sent
      && var p := w.payloads[m.payload];
         p.stage == Adopted && !p.retired && p.scope == row.scope && p.artifact == id
         && p.hash == m.contentHash && p.length == m.byteSize && Sniff(w.sent[m.payload]) == Some(m.mediaType)
  }

  ghost predicate PointersOk(w: World) { forall id | id in w.artifacts :: PointerOk(w, id) }

  /** A payload that was ever adopted is the one its artifact points at, as long as that row exists. */
  ghost predicate AdoptedOk(w: World) {
    forall c | c in w.payloads && w.payloads[c].adopted :: var id := w.payloads[c].artifact;
      id in w.deleted || (w.Ready(id) && w.artifacts[id].manifest.value.payload == c)
  }

  ghost predicate OneAdopted(w: World) {
    forall c, d | c in w.payloads && d in w.payloads && w.payloads[c].adopted && w.payloads[d].adopted
                  && w.payloads[c].artifact == w.payloads[d].artifact :: c == d
  }

  ghost predicate IdsOk(w: World) {
    && w.deleted !! w.artifacts.Keys
    && (forall id | id in w.artifacts :: w.artifacts[id].scope in w.members)
    && (forall c | c in w.payloads :: var id := w.payloads[c].artifact; id in w.artifacts || id in w.deleted)
    && (forall k | k in w.finalizers :: var id := w.finalizers[k].artifact; id in w.artifacts || id in w.deleted)
  }

  ghost predicate ResultOk(w: World, f: Finalizer) {
    f.phase.Done? ==> f.artifact in w.deleted || (w.Ready(f.artifact) && w.Image(f.artifact) == f.phase.image)
  }

  ghost predicate ResultsOk(w: World) { forall k | k in w.finalizers :: ResultOk(w, w.finalizers[k]) }

  ghost predicate ResultsAgree(w: World) {
    forall j, k | j in w.finalizers && k in w.finalizers && w.finalizers[j].phase.Done? && w.finalizers[k].phase.Done?
                  && w.finalizers[j].artifact == w.finalizers[k].artifact ::
      w.finalizers[j].phase.image == w.finalizers[k].phase.image
  }

  ghost predicate KeysUnique(w: World) {
    forall i, j | i in w.artifacts && j in w.artifacts
                  && w.artifacts[i].scope.workspace == w.artifacts[j].scope.workspace
                  && w.artifacts[i].input.key == w.artifacts[j].input.key :: i == j
  }

  ghost predicate Inv(h: Hash, w: World) {
    && CoordinatesOk(h, w) && FinalizersOk(w) && VerifiedAreStored(w) && StagesOk(w) && PointersOk(w)
    && AdoptedOk(w) && OneAdopted(w) && IdsOk(w) && ResultsOk(w) && ResultsAgree(w) && KeysUnique(w)
  }

  /** Everything but what finalizers rely on and return. */
  ghost predicate RestOk(h: Hash, w: World) {
    CoordinatesOk(h, w) && VerifiedAreStored(w) && StagesOk(w) && PointersOk(w) && AdoptedOk(w) && OneAdopted(w) && KeysUnique(w)
  }

  lemma RestKept(h: Hash, w: World, x: World)
    requires RestOk(h, w) && x == w.(finalizers := x.finalizers, uploads := x.uploads) && x.uploads <= w.payloads.Keys
    ensures RestOk(h, x)
  {
    forall id | id in x.artifacts ensures PointerOk(x, id) {
      assert PointerOk(w, id);
    }
  }

  /** A finalizer moves on without a result. */
  lemma AdvanceKeeps(h: Hash, w: World, call: Id, phase: Phase, uploads: set<Id>)
    requires Inv(h, w) && call in w.finalizers && !phase.Done? && uploads <= w.payloads.Keys
    requires InProgress(phase) ==> CandidateOk(w, w.finalizers[call].(phase := phase), phase.candidate)
    ensures Inv(h, Advance(w, call, phase).(uploads := uploads))
  {
    RestKept(h, w, Advance(w, call, phase).(uploads := uploads));
  }

  lemma ReturnKeepsResults(h: Hash, w: World, call: Id)
    requires Inv(h, w) && call in w.finalizers && w.Ready(w.finalizers[call].artifact)
    ensures var x := Advance(w, call, Done(w.Image(w.finalizers[call].artifact))); ResultsOk(x) && ResultsAgree(x)
  {
    assert w.finalizers[call].artifact !in w.deleted;
  }

  /** A finalizer returns the image the row holds now. */
  lemma ReturnKeeps(h: Hash, w: World, call: Id)
    requires Inv(h, w) && call in w.finalizers && w.Ready(w.finalizers[call].artifact)
    ensures Inv(h, Advance(w, call, Done(w.Image(w.finalizers[call].artifact))))
  {
    RestKept(h, w, Advance(w, call, Done(w.Image(w.finalizers[call].artifact))));
    ReturnKeepsResults(h, w, call);
  }

  /** What may happen to a payload row short of its adoption. */
  ghost predicate Moves(w: World, c: Id, q: Payload, store: map<Id, Bytes>)
    requires c in w.payloads
  {
    var p := w.payloads[c];
    && q == p.(stage := q.stage, open := q.open, verified := q.verified, retired := q.retired)
    && (p.verified ==> q.verified)
    && ((q.stage == p.stage && q.retired == p.retired) || (!w.Referenced(c) && q.stage in {Deleting, Deleted}))
    && (q.verified && !p.verified && q.stage == Pending ==> c in store)
    && (forall d | d != c :: d in store <==> d in w.store)
    && (forall d | d in store :: d in w.store && store[d] == w.store[d])
    && (q.stage in {Pending, Adopted} ==> store == w.store)
  }

  lemma MoveKeepsCoordinates(h: Hash, w: World, c: Id, q: Payload, store: map<Id, Bytes>)
    requires Inv(h, w) && c in w.payloads && Moves(w, c, q, store)
    ensures CoordinatesOk(h, w.(payloads := w.payloads[c := q], store := store))
  {
  }

  lemma MoveKeepsFinalizers(h: Hash, w: World, c: Id, q: Payload, store: map<Id, Bytes>)
    requires Inv(h, w) && c in w.payloads && Moves(w, c, q, store)
    ensures FinalizersOk(w.(payloads := w.payloads[c := q], store := store))
  {
  }

  lemma MoveKeepsStages(h: Hash, w: World, c: Id, q: Payload, store: map<Id, Bytes>)
    requires Inv(h, w) && c in w.payloads && Moves(w, c, q, store)
    ensures var x := w.(payloads := w.payloads[c := q], store := store); VerifiedAreStored(x) && StagesOk(x)
  {
  }

  lemma MoveKeepsPointers(h: Hash, w: World, c: Id, q: Payload, store: map<Id, Bytes>)
    requires Inv(h, w) && c in w.payloads && Moves(w, c, q, store)
    ensures PointersOk(w.(payloads := w.payloads[c := q], store := store))
  {
    var x := w.(payloads := w.payloads[c := q], store := store);
    forall id | id in x.artifacts ensures PointerOk(x, id) {
      assert PointerOk(w, id);
    }
  }

  lemma MoveKeepsAdoption(h: Hash, w: World, c: Id, q: Payload, store: map<Id, Bytes>)
    requires Inv(h, w) && c in w.payloads && Moves(w, c, q, store)
    ensures var x := w.(payloads := w.payloads[c := q], store := store); AdoptedOk(x) && OneAdopted(x) && IdsOk(x)
  {
  }

  lemma MoveKeepsResults(h: Hash, w: World, c: Id, q: Payload, store: map<Id, Bytes>)
    requires Inv(h, w) && c in w.payloads && Moves(w, c, q, store)
    ensures var x := w.(payloads := w.payloads[c := q], store := store); ResultsOk(x) && ResultsAgree(x) && KeysUnique(x)
  {
  }

  lemma PayloadMoveKeeps(h: Hash, w: World, c: Id, q: Payload, store: map<Id, Bytes>)
    requires Inv(h, w) && c in w.payloads && Moves(w, c, q, store)
    ensures Inv(h, w.(payloads := w.payloads[c := q], store := store))
  {
    MoveKeepsCoordinates(h, w, c, q, store);
    MoveKeepsFinalizers(h, w, c, q, store);
    MoveKeepsStages(h, w, c, q, store);
    MoveKeepsPointers(h, w, c, q, store);
    MoveKeepsAdoption(h, w, c, q, store);
    MoveKeepsResults(h, w, c, q, store);
  }

  // ---------------------------------------------------------------- adoption

  ghost predicate CanPublish(h: Hash, w: World, f: Finalizer, c: Id) {
    && w.Reserved(f.artifact, f.scope) && !w.Ready(f.artifact) && Writable(h, w, f, c) && w.payloads[c].verified
    && !w.payloads[c].retired && Sniff(f.bytes).Some? && c in w.sent && w.sent[c] == f.bytes
  }

  lemma PublishKeepsRows(h: Hash, w: World, f: Finalizer, c: Id)
    requires CoordinatesOk(h, w) && VerifiedAreStored(w) && StagesOk(w) && CanPublish(h, w, f, c)
    ensures var x := Publish(h, w, f, c); CoordinatesOk(h, x) && VerifiedAreStored(x) && StagesOk(x)
  {
  }

  lemma PublishKeepsFinalizers(h: Hash, w: World, f: Finalizer, c: Id)
    requires FinalizersOk(w) && IdsOk(w) && CanPublish(h, w, f, c)
    ensures var x := Publish(h, w, f, c); FinalizersOk(x) && IdsOk(x)
  {
  }

  lemma PublishKeepsPointers(h: Hash, w: World, f: Finalizer, c: Id)
    requires Inv(h, w) && CanPublish(h, w, f, c)
    ensures PointersOk(Publish(h, w, f, c))
  {
    var x := Publish(h, w, f, c);
    forall id | id in x.artifacts ensures PointerOk(x, id) {
      assert PointerOk(w, id);
    }
  }

  lemma PublishKeepsAdoption(h: Hash, w: World, f: Finalizer, c: Id)
    requires AdoptedOk(w) && OneAdopted(w) && IdsOk(w) && CanPublish(h, w, f, c)
    ensures var x := Publish(h, w, f, c); AdoptedOk(x) && OneAdopted(x)
  {
    NoneAdoptedYet(w, f.artifact);
    PublishKeepsAdopted(h, w, f, c);
    var x := Publish(h, w, f, c);
    assert forall d | d in x.payloads && d != c :: x.payloads[d] == w.payloads[d];
  }

  /** A pending row has no adopted payload. */
  lemma NoneAdoptedYet(w: World, id: Id)
    requires AdoptedOk(w) && id in w.artifacts && id !in w.deleted && !w.Ready(id)
    ensures forall c | c in w.payloads && w.payloads[c].adopted :: w.payloads[c].artifact != id
  {
  }

  lemma PublishKeepsAdopted(h: Hash, w: World, f: Finalizer, c: Id)
    requires AdoptedOk(w) && CanPublish(h, w, f, c)
    ensures AdoptedOk(Publish(h, w, f, c))
  {
    var x := Publish(h, w, f, c);
    forall d | d in x.payloads && x.payloads[d].adopted
      ensures var id := x.payloads[d].artifact; id in x.deleted || (x.Ready(id) && x.artifacts[id].manifest.value.payload == d)
    {
      if d != c {
        assert x.payloads[d] == w.payloads[d];
      }
    }
  }

  lemma PublishKeepsResults(h: Hash, w: World, f: Finalizer, c: Id)
    requires Inv(h, w) && CanPublish(h, w, f, c)
    ensures var x := Publish(h, w, f, c); ResultsOk(x) && ResultsAgree(x) && KeysUnique(x)
  {
  }

  lemma FinishKeeps(h: Hash, w: World, call: Id)
    requires Inv(h, w) && call in w.finalizers && w.finalizers[call].phase.Vouched?
    ensures Inv(h, FinishStep(h, w, call))
  {
    var f := w.finalizers[call];
    var c := f.phase.candidate;
    if !w.Reserved(f.artifact, f.scope) {
      AdvanceKeeps(h, w, call, Failed, w.uploads);
    } else if w.Ready(f.artifact) {
      ReturnKeeps(h, w, call);
    } else if CanPublish(h, w, f, c) {
      PublishKeepsRows(h, w, f, c);
      PublishKeepsFinalizers(h, w, f, c);
      PublishKeepsPointers(h, w, f, c);
      PublishKeepsAdoption(h, w, f, c);
      PublishKeepsResults(h, w, f, c);
      ReturnKeeps(h, Publish(h, w, f, c), call);
    } else {
      AdvanceKeeps(h, w, call, Failed, w.uploads);
    }
  }

  lemma FinalizerStepKeeps(h: Hash, w: World, call: Id, s: Step)
    requires Inv(h, w) && call in w.finalizers
    ensures Inv(h, FinalizerStep(h, w, call, s))
  {
    var f := w.finalizers[call];
    if s.Finish? && f.phase.Vouched? {
      FinishKeeps(h, w, call);
    } else if s.Vouch? && f.phase.Confirmed? {
      VouchKeeps(h, w, call);
    } else if s.OpenWrite? && f.phase.Registered? {
      OpenKeeps(h, w, call);
    } else if s.ReadBack? && f.phase.Writing? {
      ReadBackKeeps(h, w, call);
    } else if !f.phase.Done? {
      AdvanceKeeps(h, w, call, Failed, w.uploads);
    }
  }

  lemma OpenKeeps(h: Hash, w: World, call: Id)
    requires Inv(h, w) && call in w.finalizers && w.finalizers[call].phase.Registered?
    ensures Inv(h, FinalizerStep(h, w, call, OpenWrite(call)))
  {
    var c := w.finalizers[call].phase.candidate;
    AdvanceKeeps(h, w, call, Failed, w.uploads);
    AdvanceKeeps(h, w, call, Writing(c), w.uploads + {c});
  }

  lemma ReadBackKeeps(h: Hash, w: World, call: Id)
    requires Inv(h, w) && call in w.finalizers && w.finalizers[call].phase.Writing?
    ensures Inv(h, FinalizerStep(h, w, call, ReadBack(call)))
  {
    var c := w.finalizers[call].phase.candidate;
    AdvanceKeeps(h, w, call, Failed, w.uploads);
    if c in w.store {
      AdvanceKeeps(h, w, call, Confirmed(c), w.uploads);
    }
  }

  lemma VouchKeeps(h: Hash, w: World, call: Id)
    requires Inv(h, w) && call in w.finalizers && w.finalizers[call].phase.Confirmed?
    ensures Inv(h, FinalizerStep(h, w, call, Vouch(call)))
  {
    var f := w.finalizers[call];
    var c := f.phase.candidate;
    if Writable(h, w, f, c) {
      var q := w.payloads[c].(verified := true);
      PayloadMoveKeeps(h, w, c, q, w.store);
      AdvanceKeeps(h, w.(payloads := w.payloads[c := q]), call, Vouched(c), w.uploads);
    } else {
      AdvanceKeeps(h, w, call, Failed, w.uploads);
    }
  }

  // ---------------------------------------------------------------- the other steps

  lemma ReserveKeepsRows(h: Hash, w: World, id: Id, scope: Scope, input: Input)
    requires Inv(h, w) && scope in w.members && id !in w.artifacts && id !in w.deleted
    ensures var x := w.(artifacts := w.artifacts[id := Artifact(scope, input, None)]);
            CoordinatesOk(h, x) && FinalizersOk(x) && VerifiedAreStored(x) && StagesOk(x) && AdoptedOk(x) && OneAdopted(x)
  {
  }

  lemma ReserveKeepsPointers(h: Hash, w: World, id: Id, scope: Scope, input: Input)
    requires Inv(h, w) && scope in w.members && id !in w.artifacts && id !in w.deleted
    ensures var x := w.(artifacts := w.artifacts[id := Artifact(scope, input, None)]); PointersOk(x) && IdsOk(x)
  {
    var x := w.(artifacts := w.artifacts[id := Artifact(scope, input, None)]);
    forall k | k in x.artifacts ensures PointerOk(x, k) {
      assert k in w.artifacts ==> PointerOk(w, k);
    }
  }

  lemma ReserveKeepsResults(h: Hash, w: World, id: Id, scope: Scope, input: Input)
    requires Inv(h, w) && scope in w.members && id !in w.artifacts && id !in w.deleted
    ensures var x := w.(artifacts := w.artifacts[id := Artifact(scope, input, None)]); ResultsOk(x) && ResultsAgree(x)
  {
  }

  lemma ReserveKeepsKeys(w: World, id: Id, scope: Scope, input: Input)
    requires KeysUnique(w) && !KeyTaken(w, scope.workspace, input.key)
    ensures KeysUnique(w.(artifacts := w.artifacts[id := Artifact(scope, input, None)]))
  {
  }

  lemma ReserveKeeps(h: Hash, w: World, id: Id, scope: Scope, input: Input)
    requires Inv(h, w)
    ensures Inv(h, ReserveStep(w, id, scope, input))
  {
    if scope in w.members && id !in w.artifacts && id !in w.deleted && !KeyTaken(w, scope.workspace, input.key) {
      ReserveKeepsRows(h, w, id, scope, input);
      ReserveKeepsPointers(h, w, id, scope, input);
      ReserveKeepsResults(h, w, id, scope, input);
      ReserveKeepsKeys(w, id, scope, input);
    }
  }

  lemma StartKeepsResults(h: Hash, w: World, call: Id, f: Finalizer)
    requires Inv(h, w) && call !in w.finalizers && f.artifact in w.artifacts
    requires f.phase.Done? ==> w.Ready(f.artifact) && f.phase.image == w.Image(f.artifact)
    ensures var x := w.(finalizers := w.finalizers[call := f]); ResultsOk(x) && ResultsAgree(x)
  {
    assert f.artifact !in w.deleted;
  }

  /** A new finalizer whose candidate, if it has one, is already registered. */
  lemma StartKeeps(h: Hash, w: World, call: Id, f: Finalizer)
    requires Inv(h, w) && call !in w.finalizers && f.artifact in w.artifacts
    requires f.phase.Done? ==> w.Ready(f.artifact) && f.phase.image == w.Image(f.artifact)
    requires InProgress(f.phase) ==> f.phase.Registered? && CandidateOk(w, f, f.phase.candidate)
    ensures Inv(h, w.(finalizers := w.finalizers[call := f]))
  {
    var x := w.(finalizers := w.finalizers[call := f]);
    StartKeepsResults(h, w, call, f);
    RestKept(h, w, x);
    assert FinalizersOk(x);
  }

  lemma RegisterKeepsRows(h: Hash, w: World, c: Id, p: Payload, bytes: Bytes)
    requires Inv(h, w) && c !in w.payloads && p.artifact in w.artifacts
    requires p == Payload(p.scope, p.artifact, h(bytes), |bytes|, Pending, true, false, false, false)
    ensures var x := w.(payloads := w.payloads[c := p], sent := w.sent[c := bytes]);
            CoordinatesOk(h, x) && VerifiedAreStored(x) && StagesOk(x)
  {
  }

  lemma RegisterKeepsFinalizers(h: Hash, w: World, c: Id, p: Payload, bytes: Bytes)
    requires Inv(h, w) && c !in w.payloads && p.artifact in w.artifacts
    ensures var x := w.(payloads := w.payloads[c := p], sent := w.sent[c := bytes]); FinalizersOk(x) && IdsOk(x)
  {
  }

  lemma RegisterKeeps(h: Hash, w: World, c: Id, p: Payload, bytes: Bytes)
    requires Inv(h, w) && c !in w.payloads && p.artifact in w.artifacts
    requires p == Payload(p.scope, p.artifact, h(bytes), |bytes|, Pending, true, false, false, false)
    ensures Inv(h, w.(payloads := w.payloads[c := p], sent := w.sent[c := bytes]))
  {
    var x := w.(payloads := w.payloads[c := p], sent := w.sent[c := bytes]);
    RegisterKeepsRows(h, w, c, p, bytes);
    RegisterKeepsFinalizers(h, w, c, p, bytes);
    forall k | k in x.artifacts ensures PointerOk(x, k) {
      assert PointerOk(w, k);
    }
  }

  lemma BeginKeeps(h: Hash, w: World, call: Id, scope: Scope, artifact: Id, bytes: Bytes, filename: string,
                   sourceKind: SourceKind, candidate: Id)
    requires Inv(h, w)
    ensures Inv(h, BeginStep(h, w, call, scope, artifact, bytes, filename, sourceKind, candidate))
  {
    var f := Finalizer(scope, artifact, bytes, filename, sourceKind, Failed);
    if call !in w.finalizers && candidate !in w.payloads && w.Reserved(artifact, scope) {
      if w.Ready(artifact) {
        StartKeeps(h, w, call, f.(phase := Done(w.Image(artifact))));
      } else {
        var p := Payload(scope, artifact, h(bytes), |bytes|, Pending, true, false, false, false);
        RegisterKeeps(h, w, candidate, p, bytes);
        StartKeeps(h, w.(payloads := w.payloads[candidate := p], sent := w.sent[candidate := bytes]), call,
                   f.(phase := Registered(candidate)));
      }
    }
  }

  lemma LandKeepsRows(h: Hash, w: World, c: Id)
    requires Inv(h, w) && c in w.sent && c !in w.store
    ensures var x := w.(store := w.store[c := w.sent[c]]);
            CoordinatesOk(h, x) && FinalizersOk(x) && VerifiedAreStored(x) && StagesOk(x) && PointersOk(x)
  {
    var x := w.(store := w.store[c := w.sent[c]]);
    forall id | id in x.artifacts ensures PointerOk(x, id) {
      assert PointerOk(w, id);
    }
  }

  lemma LandKeepsResults(h: Hash, w: World, c: Id)
    requires Inv(h, w) && c in w.sent && c !in w.store
    ensures var x := w.(store := w.store[c := w.sent[c]]);
            AdoptedOk(x) && OneAdopted(x) && IdsOk(x) && ResultsOk(x) && ResultsAgree(x) && KeysUnique(x)
  {
  }

  lemma LandKeeps(h: Hash, w: World, c: Id)
    requires Inv(h, w)
    ensures Inv(h, Apply(h, w, Land(c)))
  {
    if c in w.uploads && c in w.sent && c !in w.store {
      LandKeepsRows(h, w, c);
      LandKeepsResults(h, w, c);
    }
  }

  /** Leaving retires exactly the payloads of the rows that go, so the remaining pointers stand. */
  lemma LeaveChanges(h: Hash, w: World, scope: Scope, c: Id)
    requires Inv(h, w) && c in w.payloads
    ensures var x := LeaveStep(w, scope);
            c in x.payloads && x.payloads[c] == w.payloads[c].(retired := x.payloads[c].retired)
            && (w.payloads[c].retired ==> x.payloads[c].retired)
            && (x.payloads[c].retired ==> w.payloads[c].retired || w.payloads[c].stage == Adopted)
            && (x.Referenced(c) ==> x.payloads[c].retired == w.payloads[c].retired)
  {
    var left := map id | id in w.artifacts && w.artifacts[id].scope != scope :: w.artifacts[id];
    var after := w.(artifacts := left);
    var x := LeaveStep(w, scope);
    assert x.Referenced(c) == after.Referenced(c);
  }

  lemma LeaveKeepsRows(h: Hash, w: World, scope: Scope)
    requires Inv(h, w)
    ensures var x := LeaveStep(w, scope); CoordinatesOk(h, x) && VerifiedAreStored(x) && StagesOk(x)
  {
    var x := LeaveStep(w, scope);
    forall c | c in w.payloads
      ensures c in x.payloads && x.payloads[c] == w.payloads[c].(retired := x.payloads[c].retired)
              && (x.payloads[c].retired ==> w.payloads[c].retired || w.payloads[c].stage == Adopted)
    {
      LeaveChanges(h, w, scope, c);
    }
  }

  lemma LeaveKeepsFinalizers(h: Hash, w: World, scope: Scope)
    requires Inv(h, w)
    ensures FinalizersOk(LeaveStep(w, scope))
  {
    var x := LeaveStep(w, scope);
    forall k | k in x.finalizers && InProgress(x.finalizers[k].phase)
      ensures CandidateOk(x, x.finalizers[k], x.finalizers[k].phase.candidate)
    {
      LeaveChanges(h, w, scope, x.finalizers[k].phase.candidate);
    }
  }

  lemma LeaveKeepsPointers(h: Hash, w: World, scope: Scope)
    requires Inv(h, w)
    ensures PointersOk(LeaveStep(w, scope))
  {
    var x := LeaveStep(w, scope);
    forall id | id in x.artifacts ensures PointerOk(x, id) {
      assert id in w.artifacts && x.artifacts[id] == w.artifacts[id] && PointerOk(w, id);
      if x.artifacts[id].manifest.Some? {
        LeaveChanges(h, w, scope, x.artifacts[id].manifest.value.payload);
      }
    }
  }

  lemma LeaveKeepsAdoption(h: Hash, w: World, scope: Scope)
    requires Inv(h, w)
    ensures var x := LeaveStep(w, scope); AdoptedOk(x) && OneAdopted(x)
  {
  }

  lemma LeaveKeepsIds(h: Hash, w: World, scope: Scope)
    requires Inv(h, w)
    ensures IdsOk(LeaveStep(w, scope))
  {
  }

  lemma LeaveKeepsResults(h: Hash, w: World, scope: Scope)
    requires Inv(h, w)
    ensures var x := LeaveStep(w, scope); ResultsOk(x) && ResultsAgree(x) && KeysUnique(x)
  {
  }

  lemma LeaveKeeps(h: Hash, w: World, scope: Scope)
    requires Inv(h, w)
    ensures Inv(h, LeaveStep(w, scope))
  {
    LeaveKeepsRows(h, w, scope);
    LeaveKeepsFinalizers(h, w, scope);
    LeaveKeepsPointers(h, w, scope);
    LeaveKeepsAdoption(h, w, scope);
    LeaveKeepsIds(h, w, scope);
    LeaveKeepsResults(h, w, scope);
  }

  lemma WindowKeeps(h: Hash, w: World, c: Id)
    requires Inv(h, w)
    ensures Inv(h, Apply(h, w, WindowCloses(c)))
  {
    if c in w.payloads {
      PayloadMoveKeeps(h, w, c, w.payloads[c].(open := false), w.store);
    }
  }

  lemma QuarantineKeeps(h: Hash, w: World, c: Id)
    requires Inv(h, w)
    ensures Inv(h, Apply(h, w, Quarantine(c)))
  {
    if Collectable(w, c) {
      PayloadMoveKeeps(h, w, c, w.payloads[c].(stage := Deleting, retired := true), w.store);
    }
  }

  lemma CollectKeeps(h: Hash, w: World, c: Id, removed: bool, acknowledged: bool)
    requires Inv(h, w)
    ensures Inv(h, Apply(h, w, Collect(c, removed, acknowledged)))
  {
    if Collectable(w, c) {
      PayloadMoveKeeps(h, w, c, w.payloads[c].(stage := if removed && acknowledged then Deleted else Deleting),
                       if removed then w.store - {c} else w.store);
    }
  }

  lemma JoinKeeps(h: Hash, w: World, scope: Scope)
    requires Inv(h, w)
    ensures Inv(h, Apply(h, w, Join(scope)))
  {
    var x := Apply(h, w, Join(scope));
    forall id | id in x.artifacts ensures PointerOk(x, id) {
      assert PointerOk(w, id);
    }
  }

  lemma StepKeeps(h: Hash, w: World, s: Step)
    requires Inv(h, w)
    ensures Inv(h, Apply(h, w, s))
  {
    match s
    case Reserve(id, scope, input) => ReserveKeeps(h, w, id, scope, input);
    case Begin(call, scope, artifact, bytes, filename, sourceKind, candidate) =>
      BeginKeeps(h, w, call, scope, artifact, bytes, filename, sourceKind, candidate);
    case Land(c) => LandKeeps(h, w, c);
    case WindowCloses(c) => WindowKeeps(h, w, c);
    case Quarantine(c) => QuarantineKeeps(h, w, c);
    case Collect(c, removed, acknowledged) => CollectKeeps(h, w, c, removed, acknowledged);
    case Join(scope) => JoinKeeps(h, w, scope);
    case Leave(scope) => LeaveKeeps(h, w, scope);
    case _ =>
      if s.call in w.finalizers {
        FinalizerStepKeeps(h, w, s.call, s);
      }
  }

  lemma RunKeeps(h: Hash, w: World, steps: seq<Step>)
    requires Inv(h, w)
    ensures Inv(h, Run(h, w, steps))
    decreases |steps|
  {
    if steps != [] {
      StepKeeps(h, w, steps[0]);
      RunKeeps(h, Apply(h, w, steps[0]), steps[1..]);
    }
  }

  // ---------------------------------------------------------------- what never changes

  ghost predicate Frozen(w: World, x: World) {
    && w.deleted <= x.deleted
    && (forall c | c in w.sent :: c in x.sent && x.sent[c] == w.sent[c])
    && (forall id | id in w.artifacts :: RowFrozen(w, x, id))
    && (forall k | k in w.finalizers && w.finalizers[k].phase.Done? :: k in x.finalizers && x.finalizers[k] == w.finalizers[k])
  }

  /** A row keeps its coordinates for good, and its manifest once it has one. */
  predicate RowFrozen(w: World, x: World, id: Id)
    requires id in w.artifacts
  {
    id in x.deleted
    || (id in x.artifacts && x.artifacts[id] == w.artifacts[id].(manifest := x.artifacts[id].manifest)
        && (w.Ready(id) ==> x.artifacts[id] == w.artifacts[id]))
  }

  lemma FinalizerStepFreezesRow(h: Hash, w: World, call: Id, s: Step, id: Id)
    requires call in w.finalizers && id in w.artifacts
    ensures RowFrozen(w, FinalizerStep(h, w, call, s), id)
  {
  }

  lemma StepFreezesRow(h: Hash, w: World, s: Step, id: Id)
    requires id in w.artifacts
    ensures RowFrozen(w, Apply(h, w, s), id)
  {
    match s
    case OpenWrite(_) | ReadBack(_) | Vouch(_) | Finish(_) | Abandon(_) =>
      if s.call in w.finalizers {
        FinalizerStepFreezesRow(h, w, s.call, s, id);
      }
    case _ =>
  }

  lemma FinishStepFrame(h: Hash, w: World, call: Id)
    requires call in w.finalizers && w.finalizers[call].phase.Vouched?
    ensures var x := FinishStep(h, w, call);
            x.sent == w.sent && x.deleted == w.deleted && x.finalizers == w.finalizers[call := x.finalizers[call]]
  {
  }

  /** A finalizer's own steps touch no other finalizer, and none that has returned. */
  lemma FinalizerStepFrame(h: Hash, w: World, call: Id, s: Step)
    requires call in w.finalizers
    ensures var x := FinalizerStep(h, w, call, s);
            && x.sent == w.sent && x.deleted == w.deleted
            && call in x.finalizers && x.finalizers == w.finalizers[call := x.finalizers[call]]
            && (w.finalizers[call].phase.Done? ==> x == w)
  {
    if w.finalizers[call].phase.Vouched? {
      FinishStepFrame(h, w, call);
    }
  }

  lemma StepKeepsResult(h: Hash, w: World, s: Step, k: Id)
    requires k in w.finalizers && w.finalizers[k].phase.Done?
    ensures var x := Apply(h, w, s); k in x.finalizers && x.finalizers[k] == w.finalizers[k]
  {
    match s
    case OpenWrite(_) | ReadBack(_) | Vouch(_) | Finish(_) | Abandon(_) =>
      if s.call in w.finalizers {
        FinalizerStepFrame(h, w, s.call, s);
      }
    case _ =>
  }

  /** Only registering a candidate touches what was sent. */
  lemma OthersKeepSent(h: Hash, w: World, s: Step)
    requires s.Reserve? || s.Land? || s.WindowCloses? || s.Quarantine? || s.Collect? || s.Join? || s.Leave?
    ensures Apply(h, w, s).sent == w.sent
  {
  }

  lemma StepKeepsSent(h: Hash, w: World, s: Step, c: Id)
    requires CoordinatesOk(h, w) && c in w.sent
    ensures var x := Apply(h, w, s); c in x.sent && x.sent[c] == w.sent[c]
  {
    match s
    case Begin(_, _, _, _, _, _, _) =>
    case OpenWrite(_) | ReadBack(_) | Vouch(_) | Finish(_) | Abandon(_) =>
      if s.call in w.finalizers {
        FinalizerStepFrame(h, w, s.call, s);
      }
    case _ => OthersKeepSent(h, w, s);
  }

  lemma DeletionsStay(h: Hash, w: World, s: Step)
    ensures w.deleted <= Apply(h, w, s).deleted
  {
  }

  lemma StepFreezes(h: Hash, w: World, s: Step)
    requires Inv(h, w)
    ensures Frozen(w, Apply(h, w, s))
  {
    DeletionsStay(h, w, s);
    forall c | c in w.sent ensures var x := Apply(h, w, s); c in x.sent && x.sent[c] == w.sent[c] {
      StepKeepsSent(h, w, s, c);
    }
    forall id | id in w.artifacts ensures RowFrozen(w, Apply(h, w, s), id) {
      StepFreezesRow(h, w, s, id);
    }
    forall k | k in w.finalizers && w.finalizers[k].phase.Done?
      ensures var x := Apply(h, w, s); k in x.finalizers && x.finalizers[k] == w.finalizers[k]
    {
      StepKeepsResult(h, w, s, k);
    }
  }

  lemma RunFreezes(h: Hash, w: World, steps: seq<Step>)
    requires Inv(h, w)
    ensures Frozen(w, Run(h, w, steps))
    decreases |steps|
  {
    if steps != [] {
      var x := Apply(h, w, steps[0]);
      StepFreezes(h, w, steps[0]);
      StepKeeps(h, w, steps[0]);
      RunFreezes(h, x, steps[1..]);
      RunKeeps(h, x, steps[1..]);
      FrozenIsTransitive(w, x, Run(h, x, steps[1..]));
    }
  }

  lemma FrozenIsTransitive(w: World, x: World, y: World)
    requires Frozen(w, x) && Frozen(x, y)
    ensures Frozen(w, y)
  {
  }

  // ---------------------------------------------------------------- main results

  ghost predicate Reachable(h: Hash, w: World) { exists steps :: w == Run(h, EMPTY, steps) }

  lemma ReachableInv(h: Hash, w: World)
    requires Reachable(h, w)
    ensures Inv(h, w)
  {
    var steps :| w == Run(h, EMPTY, steps);
    RunKeeps(h, EMPTY, steps);
  }

  /** However many finalizers race, one payload is ever adopted for an artifact, and a ready row points at it. */
  lemma OnePayloadIsEverAdopted(h: Hash, w: World, id: Id)
    requires Reachable(h, w)
    ensures forall c, d | c in w.payloads && d in w.payloads && w.payloads[c].adopted && w.payloads[d].adopted
                          && w.payloads[c].artifact == id == w.payloads[d].artifact :: c == d
    ensures id in w.artifacts ==>
              forall c | c in w.payloads && w.payloads[c].artifact == id ::
                w.payloads[c].adopted <==> w.Ready(id) && w.artifacts[id].manifest.value.payload == c
    ensures w.Ready(id) ==> w.artifacts[id].manifest.value.payload in w.payloads
  {
    ReachableInv(h, w);
    if w.Ready(id) {
      assert PointerOk(w, id);
    }
  }

  /** Every successful call for an artifact returns the same image, whenever it returns. */
  lemma FinalizersReturnTheSameImage(h: Hash, w: World, more: seq<Step>, j: Id, k: Id)
    requires Reachable(h, w) && j in w.finalizers && w.finalizers[j].phase.Done?
    requires var x := Run(h, w, more);
             k in x.finalizers && x.finalizers[k].phase.Done? && x.finalizers[k].artifact == w.finalizers[j].artifact
    ensures Run(h, w, more).finalizers[k].phase.image == w.finalizers[j].phase.image
  {
    ReachableInv(h, w);
    RunFreezes(h, w, more);
    RunKeeps(h, w, more);
    assert ResultsAgree(Run(h, w, more));
  }

  datatype Reader = Member(scope: Scope) | Account(user: string)

  datatype Read = NotFound | Broken | Image(image: Reference, bytes: Bytes)

  function ReaderScope(w: World, reader: Reader, id: Id): Option<Scope> {
    match reader
    case Member(scope) => Some(scope)
    case Account(user) =>
      if w.Ready(id) && w.artifacts[id].scope.user == user then Some(w.artifacts[id].scope) else None
  }

  predicate Entitled(w: World, reader: Reader, id: Id, root: Option<string>) {
    && w.Ready(id) && w.artifacts[id].scope in w.members
    && ReaderScope(w, reader, id) == Some(w.artifacts[id].scope)
    && (root.Some? ==> w.artifacts[id].input.rootSession == root.value)
  }

  /** Lines 148-212, with readPayload and readVerified; Broken is any PayloadError. */
  function ReadReady(h: Hash, w: World, reader: Reader, id: Id, root: Option<string>): Read {
    var scope := ReaderScope(w, reader, id);
    if scope.None? || scope.value !in w.members then NotFound
    else if !w.Ready(id) || w.artifacts[id].scope != scope.value then NotFound
    else if root.Some? && w.artifacts[id].input.rootSession != root.value then NotFound
    else
      var m := w.artifacts[id].manifest.value;
      if m.payload !in w.payloads then Broken
      else
        var p := w.payloads[m.payload];
        if p.stage != Adopted || p.scope != scope.value || p.artifact != id then Broken
        else if m.payload !in w.store then Broken
        else
          var bytes := w.store[m.payload];
          if |bytes| != p.length || h(bytes) != p.hash then Broken
          else if |bytes| != m.byteSize || h(bytes) != m.contentHash || Sniff(bytes) != Some(m.mediaType) then Broken
          else Image(w.Image(id), bytes)
  }

  /** In a reachable state no read is broken: an entitled reader gets the image, anybody else nothing. */
  lemma ReadsNeverBreak(h: Hash, w: World, reader: Reader, id: Id, root: Option<string>)
    requires Reachable(h, w)
    ensures var r := ReadReady(h, w, reader, id, root);
            && !r.Broken?
            && (r.Image? <==> Entitled(w, reader, id, root))
            && (r.Image? ==> w.Ready(id) && r.image == w.Image(id) && r.image.byteSize == |r.bytes|
                             && Sniff(r.bytes) == Some(r.image.mediaType)
                             && h(r.bytes) == w.artifacts[id].manifest.value.contentHash)
  {
    ReachableInv(h, w);
    if w.Ready(id) {
      assert PointerOk(w, id);
    }
  }

  /** The image a finalizer offers for the row it found. */
  function Offered(w: World, f: Finalizer): Reference
    requires f.artifact in w.artifacts && Sniff(f.bytes).Some?
  {
    Reference(|f.bytes|, f.filename, f.artifact, w.artifacts[f.artifact].input.title, Sniff(f.bytes).value)
  }

  predicate Publishes(h: Hash, w: World, call: Id) {
    && call in w.finalizers && w.finalizers[call].phase.Vouched? && !w.Ready(w.finalizers[call].artifact)
    && FinishStep(h, w, call).Ready(w.finalizers[call].artifact)
  }

  lemma PublicationStoresTheOffer(h: Hash, w: World, call: Id)
    requires Inv(h, w) && Publishes(h, w, call)
    ensures var f := w.finalizers[call];
            var x := FinishStep(h, w, call);
            && f.artifact in w.artifacts && Sniff(f.bytes).Some? && x.Image(f.artifact) == Offered(w, f)
            && x.artifacts[f.artifact].manifest.value.sourceKind == f.sourceKind
            && x.artifacts[f.artifact].manifest.value.payload in x.sent
            && x.sent[x.artifacts[f.artifact].manifest.value.payload] == f.bytes
  {
    var f := w.finalizers[call];
    assert CandidateOk(w, f, f.phase.candidate);
  }

  lemma ReadGivesWhatWasSent(h: Hash, w: World, reader: Reader, id: Id, root: Option<string>)
    requires Inv(h, w) && Entitled(w, reader, id, root)
    ensures w.artifacts[id].manifest.value.payload in w.sent
    ensures ReadReady(h, w, reader, id, root) == Image(w.Image(id), w.sent[w.artifacts[id].manifest.value.payload])
  {
    assert PointerOk(w, id);
  }

  /** From the moment one finalizer publishes, every read of the row gives exactly what that call was given. */
  lemma PublishedBytesAreWhatIsRead(h: Hash, w: World, call: Id, more: seq<Step>, reader: Reader, root: Option<string>)
    requires Reachable(h, w) && Publishes(h, w, call)
    requires Entitled(Run(h, FinishStep(h, w, call), more), reader, w.finalizers[call].artifact, root)
    ensures var f := w.finalizers[call];
            f.artifact in w.artifacts && Sniff(f.bytes).Some?
            && ReadReady(h, Run(h, FinishStep(h, w, call), more), reader, f.artifact, root) == Image(Offered(w, f), f.bytes)
            && Run(h, FinishStep(h, w, call), more).artifacts[f.artifact].manifest.value.sourceKind == f.sourceKind
  {
    ReachableInv(h, w);
    var id := w.finalizers[call].artifact;
    var x := FinishStep(h, w, call);
    PublicationStoresTheOffer(h, w, call);
    FinishKeeps(h, w, call);
    ImageStays(h, x, more, id);
    RunKeeps(h, x, more);
    ReadGivesWhatWasSent(h, Run(h, x, more), reader, id, root);
  }

  lemma ImageStays(h: Hash, x: World, more: seq<Step>, id: Id)
    requires Inv(h, x) && x.Ready(id) && Run(h, x, more).Ready(id)
    ensures var y := Run(h, x, more);
            var c := x.artifacts[id].manifest.value.payload;
            y.artifacts[id] == x.artifacts[id] && y.Image(id) == x.Image(id) && (c in x.sent ==> c in y.sent && y.sent[c] == x.sent[c])
  {
    RunFreezes(h, x, more);
    RunKeeps(h, x, more);
    assert RowFrozen(x, Run(h, x, more), id);
  }

  /** What a finalizer does when nothing disturbs it. */
  function Undisturbed(call: Id, f: Finalizer, candidate: Id): seq<Step> {
    [Begin(call, f.scope, f.artifact, f.bytes, f.filename, f.sourceKind, candidate),
     OpenWrite(call), Land(candidate), ReadBack(call), Vouch(call), Finish(call)]
  }

  /** The finalizer has reached a phase, and nobody else has touched its artifact or its candidate. */
  ghost predicate OnTrack(h: Hash, start: World, w: World, call: Id, f: Finalizer, c: Id, phase: Phase) {
    && call in w.finalizers && w.finalizers[call] == f.(phase := phase)
    && w.artifacts == start.artifacts && w.members == start.members
    && Writable(h, w, f, c) && !w.payloads[c].retired && c in w.sent && w.sent[c] == f.bytes
  }

  lemma UploadLeaves(h: Hash, w: World, call: Id, f: Finalizer, c: Id)
    requires CoordinatesOk(h, w) && w.Reserved(f.artifact, f.scope) && !w.Ready(f.artifact)
    requires call !in w.finalizers && c !in w.payloads && Sniff(f.bytes).Some? && |f.bytes| <= MAX_BYTES
    ensures var begun := Apply(h, w, Begin(call, f.scope, f.artifact, f.bytes, f.filename, f.sourceKind, c));
            var x := Apply(h, begun, OpenWrite(call));
            OnTrack(h, w, x, call, f, c, Writing(c)) && c in x.uploads && c !in x.store
  {
    var begun := Apply(h, w, Begin(call, f.scope, f.artifact, f.bytes, f.filename, f.sourceKind, c));
    assert OnTrack(h, w, begun, call, f, c, Registered(c)) && begun.store == w.store;
  }

  lemma UploadIsVouched(h: Hash, start: World, w: World, call: Id, f: Finalizer, c: Id)
    requires OnTrack(h, start, w, call, f, c, Writing(c)) && c in w.uploads && c !in w.store
    ensures var x := Apply(h, Apply(h, Apply(h, w, Land(c)), ReadBack(call)), Vouch(call));
            OnTrack(h, start, x, call, f, c, Vouched(c)) && x.payloads[c].verified
  {
    var landed := Apply(h, w, Land(c));
    assert OnTrack(h, start, landed, call, f, c, Writing(c)) && landed.store[c] == f.bytes;
    var confirmed := Apply(h, landed, ReadBack(call));
    assert OnTrack(h, start, confirmed, call, f, c, Confirmed(c));
  }

  /** An undisturbed finalizer of a pending reservation publishes its image and returns it. */
  lemma UndisturbedFinalizerPublishes(h: Hash, w: World, call: Id, f: Finalizer, c: Id)
    requires Reachable(h, w) && w.Reserved(f.artifact, f.scope) && !w.Ready(f.artifact)
    requires call !in w.finalizers && c !in w.payloads && Sniff(f.bytes).Some? && |f.bytes| <= MAX_BYTES
    ensures var x := Run(h, w, Undisturbed(call, f, c));
            && x.Ready(f.artifact) && x.Image(f.artifact) == Offered(w, f)
            && call in x.finalizers && x.finalizers[call].phase == Done(Offered(w, f))
  {
    ReachableInv(h, w);
    var s := Undisturbed(call, f, c);
    RunOfSix(h, w, s);
    UploadLeaves(h, w, call, f, c);
    var writing := Apply(h, Apply(h, w, s[0]), s[1]);
    UploadIsVouched(h, w, writing, call, f, c);
    VouchedPublishes(h, w, Apply(h, Apply(h, Apply(h, writing, s[2]), s[3]), s[4]), call, f, c);
  }

  lemma VouchedPublishes(h: Hash, start: World, w: World, call: Id, f: Finalizer, c: Id)
    requires OnTrack(h, start, w, call, f, c, Vouched(c)) && w.payloads[c].verified
    requires start.Reserved(f.artifact, f.scope) && !start.Ready(f.artifact) && Sniff(f.bytes).Some?
    ensures var x := Apply(h, w, Finish(call));
            && x.Ready(f.artifact) && x.Image(f.artifact) == Offered(start, f)
            && call in x.finalizers && x.finalizers[call].phase == Done(Offered(start, f))
  {
  }

  lemma RunOfSix(h: Hash, w: World, s: seq<Step>)
    requires |s| == 6
    ensures Run(h, w, s)
         == Apply(h, Apply(h, Apply(h, Apply(h, Apply(h, Apply(h, w, s[0]), s[1]), s[2]), s[3]), s[4]), s[5])
  {
    var a := Apply(h, Apply(h, w, s[0]), s[1]);
    var b := Apply(h, Apply(h, a, s[2]), s[3]);
    assert Run(h, w, s) == Run(h, Apply(h, w, s[0]), s[1..]) == Run(h, a, s[1..][1..]);
    assert s[1..][1..] == s[2..] && s[2..][1..][1..] == s[4..] && s[4..][1..][1..] == [];
    assert Run(h, a, s[2..]) == Run(h, Apply(h, a, s[2]), s[2..][1..]) == Run(h, b, s[2..][1..][1..]);
    assert Run(h, b, s[4..]) == Run(h, Apply(h, b, s[4]), s[4..][1..]);
  }

  // ---------------------------------------------------------------- reservations

  datatype Reservation = Denied | NotStored | KeyInUse | AlreadyReady(image: Reference) | StillPending(id: Id)

  ghost predicate Holds(w: World, id: Id, scope: Scope, key: string) {
    id in w.artifacts && w.artifacts[id].scope == scope && w.artifacts[id].input.key == key
  }

  /** What the call returns once its insert, if any, has been made: lines 64-79 and 223-243. */
  ghost function ReservationOf(w: World, scope: Scope, input: Input): Reservation {
    if scope !in w.members then Denied
    else if id :| Holds(w, id, scope, input.key) then
      var row := w.artifacts[id];
      if row.input != input.(sourceKind := row.input.sourceKind) then KeyInUse
      else if w.Ready(id) then AlreadyReady(w.Image(id))
      else StillPending(id)
    else NotStored
  }

  ghost predicate Reserves(w: World, id: Id, scope: Scope, input: Input) {
    id !in w.artifacts && id in ReserveStep(w, id, scope, input).artifacts
  }

  lemma HolderIsUnique(w: World, id: Id, scope: Scope, input: Input)
    requires KeysUnique(w) && Holds(w, id, scope, input.key)
    ensures forall again :: ReserveStep(w, again, scope, input) == w
    ensures ReservationOf(w, scope, input) ==
              if scope !in w.members then Denied
              else if w.artifacts[id].input != input.(sourceKind := w.artifacts[id].input.sourceKind) then KeyInUse
              else if w.Ready(id) then AlreadyReady(w.Image(id)) else StillPending(id)
  {
    assert KeyTaken(w, scope.workspace, input.key);
    assert forall k | Holds(w, k, scope, input.key) :: k == id;
  }

  /** A repeated reservation answers for the row the first one made, whatever happened in between. */
  lemma ReservationsAreIdempotent(h: Hash, w: World, id: Id, scope: Scope, input: Input, more: seq<Step>,
                                  again: Id, kind: SourceKind)
    requires Reachable(h, w) && Reserves(w, id, scope, input)
    requires id !in Run(h, ReserveStep(w, id, scope, input), more).deleted
    ensures ReservationOf(ReserveStep(w, id, scope, input), scope, input) == StillPending(id)
    ensures var y := Run(h, ReserveStep(w, id, scope, input), more);
            var retry := input.(sourceKind := kind);
            ReserveStep(y, again, scope, retry) == y
            && ReservationOf(y, scope, retry) == if y.Ready(id) then AlreadyReady(y.Image(id)) else StillPending(id)
  {
    ReachableInv(h, w);
    var x := ReserveStep(w, id, scope, input);
    ReserveKeeps(h, w, id, scope, input);
    HolderIsUnique(x, id, scope, input);
    RunFreezes(h, x, more);
    RunKeeps(h, x, more);
    var y := Run(h, x, more);
    assert RowFrozen(x, y, id);
    HolderIsUnique(y, id, scope, input.(sourceKind := kind));
  }

  ghost predicate SomebodyElses(w: World, scope: Scope, key: string) {
    exists k | k in w.artifacts ::
      w.artifacts[k].scope.workspace == scope.workspace && w.artifacts[k].scope.user != scope.user && w.artifacts[k].input.key == key
  }

  ghost predicate UsedOtherwise(w: World, scope: Scope, input: Input) {
    exists k | Holds(w, k, scope, input.key) :: w.artifacts[k].input != input.(sourceKind := w.artifacts[k].input.sourceKind)
  }

  /** The call, with its fresh id, fails exactly when the caller is no member, the key is somebody else's in this
      workspace, or the key was used for another screenshot. */
  lemma ReservationFailsExactlyWhen(h: Hash, w: World, id: Id, scope: Scope, input: Input)
    requires Reachable(h, w) && id !in w.artifacts && id !in w.deleted
    ensures var r := ReservationOf(ReserveStep(w, id, scope, input), scope, input);
            && (r == Denied <==> scope !in w.members)
            && (r == NotStored <==> scope in w.members && SomebodyElses(w, scope, input.key))
            && (r == KeyInUse <==> scope in w.members && UsedOtherwise(w, scope, input))
  {
    ReachableInv(h, w);
    if scope in w.members {
      MembersReservation(h, w, id, scope, input);
    }
  }

  lemma MembersReservation(h: Hash, w: World, id: Id, scope: Scope, input: Input)
    requires Inv(h, w) && scope in w.members && id !in w.artifacts && id !in w.deleted
    ensures var r := ReservationOf(ReserveStep(w, id, scope, input), scope, input);
            && r != Denied && (r == NotStored <==> SomebodyElses(w, scope, input.key))
            && (r == KeyInUse <==> UsedOtherwise(w, scope, input))
  {
    if k :| Holds(w, k, scope, input.key) {
      HolderIsUnique(w, k, scope, input);
      assert forall j | Holds(w, j, scope, input.key) :: j == k;
    } else if KeyTaken(w, scope.workspace, input.key) {
      var k :| k in w.artifacts && w.artifacts[k].scope.workspace == scope.workspace && w.artifacts[k].input.key == input.key;
      assert !Holds(w, k, scope, input.key);
      assert ReservationOf(w, scope, input) == NotStored;
    } else {
      ReserveKeeps(h, w, id, scope, input);
      HolderIsUnique(ReserveStep(w, id, scope, input), id, scope, input);
    }
  }
}
