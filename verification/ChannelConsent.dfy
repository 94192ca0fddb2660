/** Validating a decision against the pending request and its confirmed delivery
    (agent/lib/channel-consent.ts:108-291). */
module ChannelConsent {
  import opened Wrappers
  import opened ConsentRevision

  datatype Intent = Approve | Cancel | Correct | Clarify | Conversation

  datatype Reference = Reference(requestId: string, revision: string)

  /** What the model produced, before decoding. */
  datatype Candidate = Unreadable | Candidate(intent: Intent, references: seq<Reference>)

  datatype Source = Source(messageId: string, identityId: string, sessionId: string, text: string, occurredAt: real)

  /** `body` is the whole request, the value its revision is computed from. */
  datatype Request = Request(requestId: string, toolApproval: bool, options: seq<string>, body: Json)

  /** `deliveredAt` is absent when the number is not finite. */
  datatype Delivery = Delivery(receiptId: string, requestId: string, revision: string, identityId: string,
                               sessionId: string, deliveredAt: Option<real>, text: string, providerIds: seq<string>)

  datatype Snapshot = Snapshot(identityId: string, sessionId: string, pending: seq<Request>,
                               deliveries: seq<Delivery>, consumed: seq<string>)

  datatype Interpretation = Interpretation(messageId: string, text: string, candidate: Candidate)

  datatype Rejection =
    | InvalidCandidate | InvalidSource | SourceMismatch | ScopeMismatch | ReplayedSource
    | AmbiguousReference | StaleRequest | StaleRevision | UnsupportedRequest
    | MissingDelivery | AmbiguousDelivery | DeliveryNotBeforeSource

  datatype Binding = Binding(source: Source, requestId: string, revision: string, receiptId: string, providerIds: seq<string>)

  datatype Decision =
    | Rejected(reason: Rejection)
    | NonAction(intent: Intent)
    | Validated(intent: Intent, binding: Binding, optionId: string)

  /** The hash and the key order a deployment uses. */
  datatype Hashing = Hashing(digest: string -> string, collation: Collation)
  {
    function Revision(body: Json): string { digest(Serialized(body, collation)) }
  }

  // ---------------------------------------------------------------- field checks

  predicate Space(c: char) {
    var n := c as int;
    9 <= n <= 13 || n == 0x20 || n == 0xA0 || n == 0x1680 || 0x2000 <= n <= 0x200A
    || n == 0x2028 || n == 0x2029 || n == 0x202F || n == 0x205F || n == 0x3000 || n == 0xFEFF
  }

  predicate Blank(s: string) { forall i | 0 <= i < |s| :: Space(s[i]) }

  predicate Identifier(s: string) { 1 <= |s| <= 256 && !Space(s[0]) && !Space(s[|s| - 1]) }

  predicate RevisionText(s: string) { |s| == 64 && forall i | 0 <= i < 64 :: '0' <= s[i] <= '9' || 'a' <= s[i] <= 'f' }

  predicate ReferenceOk(r: Reference) { Identifier(r.requestId) && RevisionText(r.revision) }

  predicate CandidateOk(c: Candidate) {
    c.Candidate? && |c.references| <= 16 && forall i | 0 <= i < |c.references| :: ReferenceOk(c.references[i])
  }

  predicate SourceOk(s: Source) {
    && Identifier(s.messageId) && Identifier(s.identityId) && Identifier(s.sessionId)
    && 1 <= |s.text| <= 16384 && !Blank(s.text) && s.occurredAt >= 0.0
  }

  predicate Distinct(s: seq<string>) { forall i, j | 0 <= i < j < |s| :: s[i] != s[j] }

  predicate DeliveryOk(d: Delivery) {
    && Identifier(d.receiptId) && ReferenceOk(Reference(d.requestId, d.revision))
    && Identifier(d.identityId) && Identifier(d.sessionId)
    && d.deliveredAt.Some? && d.deliveredAt.value >= 0.0
    && 1 <= |d.text| <= 16384 && !Blank(d.text)
    && 1 <= |d.providerIds| <= 16 && (forall i | 0 <= i < |d.providerIds| :: Identifier(d.providerIds[i]))
    && Distinct(d.providerIds) && d.receiptId in d.providerIds
  }

  // ---------------------------------------------------------------- the decision, branch by branch

  function Filter<T>(s: seq<T>, p: T -> bool): seq<T> {
    if s == [] then [] else (if p(s[0]) then [s[0]] else []) + Filter(s[1..], p)
  }

  function ValidateSource(source: Source, interpretation: Interpretation, snapshot: Snapshot): Option<Rejection> {
    if !SourceOk(source) then Some(InvalidSource)
    else if source.messageId != interpretation.messageId || source.text != interpretation.text then Some(SourceMismatch)
    else if source.identityId != snapshot.identityId || source.sessionId != snapshot.sessionId then Some(ScopeMismatch)
    else if source.messageId in snapshot.consumed then Some(ReplayedSource)
    else None
  }

  predicate DeliversTo(source: Source, target: Reference, d: Delivery) {
    && d.requestId == target.requestId && d.revision == target.revision
    && d.identityId == source.identityId && d.sessionId == source.sessionId
  }

  function ResolveDelivery(source: Source, target: Reference, deliveries: seq<Delivery>): Result<Delivery, Rejection> {
    var found := Filter(deliveries, (d: Delivery) => DeliversTo(source, target, d));
    if found == [] then Err(MissingDelivery)
    else if |found| != 1 then Err(AmbiguousDelivery)
    else if found[0].deliveredAt.None? || found[0].deliveredAt.value >= source.occurredAt then Err(DeliveryNotBeforeSource)
    else if !DeliveryOk(found[0]) then Err(MissingDelivery)
    else Ok(found[0])
  }

  function OptionFor(intent: Intent): string { if intent.Approve? then "approve" else "cancel" }

  function Validate(h: Hashing, source: Source, interpretation: Interpretation, snapshot: Snapshot): Decision {
    var bad := ValidateSource(source, interpretation, snapshot);
    if bad.Some? then Rejected(bad.value)
    else if !CandidateOk(interpretation.candidate) then Rejected(InvalidCandidate)
    else
      var Candidate(intent, references) := interpretation.candidate;
      if intent.Clarify? || intent.Conversation? then
        if references == [] then NonAction(intent) else Rejected(InvalidCandidate)
      else if |references| != 1 then Rejected(AmbiguousReference)
      else
        var target := references[0];
        var matches := Filter(snapshot.pending, (r: Request) => r.requestId == target.requestId);
        if matches == [] then Rejected(StaleRequest)
        else if |matches| != 1 then Rejected(AmbiguousReference)
        else
          var request := matches[0];
          if h.Revision(request.body) != target.revision then Rejected(StaleRevision)
          else if !request.toolApproval || |Filter(request.options, (o: string) => o == OptionFor(intent))| != 1
          then Rejected(UnsupportedRequest)
          else match ResolveDelivery(source, target, snapshot.deliveries)
            case Err(e) => Rejected(e)
            case Ok(d) =>
              Validated(intent, Binding(source, request.requestId, target.revision, d.receiptId, d.providerIds), OptionFor(intent))
  }

  // ---------------------------------------------------------------- exactly when it validates

  /** `x` is the one element of `s` that satisfies `p`. */
  ghost predicate Only<T>(s: seq<T>, p: T -> bool, x: T) {
    exists i | 0 <= i < |s| :: s[i] == x && p(x) && forall j | 0 <= j < |s| && j != i :: !p(s[j])
  }

  lemma {:induction false} FilterEmpty<T>(s: seq<T>, p: T -> bool)
    ensures Filter(s, p) == [] <==> forall i | 0 <= i < |s| :: !p(s[i])
  {
    if s != [] {
      FilterEmpty(s[1..], p);
      assert forall i | 0 < i < |s| :: s[i] == s[1..][i - 1];
    }
  }

  lemma {:induction false} FilterOne<T>(s: seq<T>, p: T -> bool, x: T)
    ensures Filter(s, p) == [x] <==> Only(s, p, x)
  {
    if s != [] {
      var rest := s[1..];
      assert forall i | 0 < i < |s| :: s[i] == rest[i - 1];
      FilterOne(rest, p, x);
      FilterEmpty(rest, p);
      if p(s[0]) {
        assert Filter(s, p) == [x] <==> s[0] == x && Filter(rest, p) == [];
        assert Only(s, p, x) <==> s[0] == x && Filter(rest, p) == [];
      } else {
        assert Filter(s, p) == Filter(rest, p);
        OnlySkips(s, p, x);
      }
    }
  }

  lemma OnlyIsUnique<T>(s: seq<T>, p: T -> bool, x: T, y: T)
    requires Only(s, p, x) && y in s && p(y)
    ensures x == y
  {
  }

  lemma OnlySkips<T>(s: seq<T>, p: T -> bool, x: T)
    requires s != [] && !p(s[0])
    ensures Only(s, p, x) <==> Only(s[1..], p, x)
  {
    var rest := s[1..];
    if Only(s, p, x) {
      var i :| 0 <= i < |s| && s[i] == x && p(x) && forall j | 0 <= j < |s| && j != i :: !p(s[j]);
      assert rest[i - 1] == x;
      assert forall j | 0 <= j < |rest| && j != i - 1 :: rest[j] == s[j + 1];
    }
    if Only(rest, p, x) {
      var i :| 0 <= i < |rest| && rest[i] == x && p(x) && forall j | 0 <= j < |rest| && j != i :: !p(rest[j]);
      assert s[i + 1] == x;
      assert forall j | 0 < j < |s| && j != i + 1 :: s[j] == rest[j - 1];
    }
  }

  /** The source is well formed, is the one interpreted, is in scope, and was not used before. */
  predicate Trusted(source: Source, interpretation: Interpretation, snapshot: Snapshot) {
    && SourceOk(source)
    && source.messageId == interpretation.messageId && source.text == interpretation.text
    && source.identityId == snapshot.identityId && source.sessionId == snapshot.sessionId
    && source.messageId !in snapshot.consumed
  }

  predicate Before(d: Delivery, source: Source) { d.deliveredAt.Some? && d.deliveredAt.value < source.occurredAt }

  /** Everything a validated decision stands for, stated without the order of the checks. */
  ghost predicate Consented(h: Hashing, source: Source, interpretation: Interpretation, snapshot: Snapshot,
                            intent: Intent, target: Reference, request: Request, d: Delivery)
  {
    && Trusted(source, interpretation, snapshot)
    // one reference to one pending approval, at its present revision, offering the option once
    && (intent.Approve? || intent.Cancel? || intent.Correct?)
    && interpretation.candidate == Candidate(intent, [target]) && ReferenceOk(target)
    && Only(snapshot.pending, (r: Request) => r.requestId == target.requestId, request)
    && h.Revision(request.body) == target.revision
    && request.toolApproval && Only(request.options, (o: string) => o == OptionFor(intent), OptionFor(intent))
    // shown once to this identity in this session, whole, and before it spoke
    && Only(snapshot.deliveries, (e: Delivery) => DeliversTo(source, target, e), d)
    && DeliveryOk(d) && Before(d, source)
  }

  lemma SingletonFilter<T>(s: seq<T>, p: T -> bool)
    ensures |Filter(s, p)| == 1 <==> exists x :: Only(s, p, x)
  {
    if |Filter(s, p)| == 1 {
      assert Filter(s, p) == [Filter(s, p)[0]];
      FilterOne(s, p, Filter(s, p)[0]);
    }
    if x :| Only(s, p, x) {
      FilterOne(s, p, x);
    }
  }

  /** A consented decision validates, with the binding and option it should have. */
  lemma ConsentedValidates(h: Hashing, source: Source, interpretation: Interpretation, snapshot: Snapshot,
                           intent: Intent, target: Reference, request: Request, d: Delivery)
    requires Consented(h, source, interpretation, snapshot, intent, target, request, d)
    ensures Validate(h, source, interpretation, snapshot)
         == Validated(intent, Binding(source, target.requestId, target.revision, d.receiptId, d.providerIds),
                      if intent.Approve? then "approve" else "cancel")
  {
    FilterOne(snapshot.pending, (r: Request) => r.requestId == target.requestId, request);
    FilterOne(request.options, (o: string) => o == OptionFor(intent), OptionFor(intent));
    FilterOne(snapshot.deliveries, (e: Delivery) => DeliversTo(source, target, e), d);
  }

  /** Whatever validates was consented to. */
  lemma ValidatedWasConsented(h: Hashing, source: Source, interpretation: Interpretation, snapshot: Snapshot)
    returns (target: Reference, request: Request, d: Delivery)
    requires Validate(h, source, interpretation, snapshot).Validated?
    ensures Consented(h, source, interpretation, snapshot, Validate(h, source, interpretation, snapshot).intent, target, request, d)
  {
    var intent := interpretation.candidate.intent;
    target := interpretation.candidate.references[0];
    assert interpretation.candidate.references == [target];
    var matches := Filter(snapshot.pending, (r: Request) => r.requestId == target.requestId);
    request := matches[0];
    assert matches == [request];
    FilterOne(snapshot.pending, (r: Request) => r.requestId == target.requestId, request);
    var p := (o: string) => o == OptionFor(intent);
    SingletonFilter(request.options, p);
    var o :| Only(request.options, p, o);
    assert o == OptionFor(intent);
    var found := Filter(snapshot.deliveries, (e: Delivery) => DeliversTo(source, target, e));
    d := found[0];
    assert found == [d];
    FilterOne(snapshot.deliveries, (e: Delivery) => DeliversTo(source, target, e), d);
  }

  lemma ValidatedIffConsented(h: Hashing, source: Source, interpretation: Interpretation, snapshot: Snapshot)
    ensures Validate(h, source, interpretation, snapshot).Validated?
       <==> exists intent, target, request, d :: Consented(h, source, interpretation, snapshot, intent, target, request, d)
  {
    if Validate(h, source, interpretation, snapshot).Validated? {
      var target, request, d := ValidatedWasConsented(h, source, interpretation, snapshot);
    }
    if intent, target, request, d :| Consented(h, source, interpretation, snapshot, intent, target, request, d) {
      ConsentedValidates(h, source, interpretation, snapshot, intent, target, request, d);
    }
  }

  // ---------------------------------------------------------------- why it does not

  predicate Talk(intent: Intent) { intent.Clarify? || intent.Conversation? }

  /** A readable decision to act on requests. */
  predicate Acts(c: Candidate) { CandidateOk(c) && !Talk(c.intent) }

  predicate NamesOnly(c: Candidate, target: Reference) { Acts(c) && c.references == [target] }

  function ForTarget(target: Reference): Request -> bool { (r: Request) => r.requestId == target.requestId }

  ghost predicate Repeated<T>(s: seq<T>, p: T -> bool) { exists i, j :: 0 <= i < j < |s| && p(s[i]) && p(s[j]) }

  /** The one pending request the decision is about. */
  ghost predicate About(source: Source, interpretation: Interpretation, snapshot: Snapshot, target: Reference, request: Request) {
    && Trusted(source, interpretation, snapshot) && NamesOnly(interpretation.candidate, target)
    && Only(snapshot.pending, ForTarget(target), request)
  }

  /** It is at the revision consented to, and an approval that offers the option once. */
  ghost predicate Current(h: Hashing, source: Source, interpretation: Interpretation, snapshot: Snapshot,
                          target: Reference, request: Request)
  {
    About(source, interpretation, snapshot, target, request) && h.Revision(request.body) == target.revision
  }

  ghost predicate Offers(request: Request, option: string) {
    request.toolApproval && Only(request.options, (o: string) => o == option, option)
  }

  ghost predicate Deliverable(h: Hashing, source: Source, interpretation: Interpretation, snapshot: Snapshot,
                              target: Reference, request: Request)
  {
    Current(h, source, interpretation, snapshot, target, request)
    && Offers(request, OptionFor(interpretation.candidate.intent))
  }

  lemma FilterRepeated<T>(s: seq<T>, p: T -> bool)
    ensures |Filter(s, p)| > 1 <==> Repeated(s, p)
  {
    FilterEmpty(s, p);
    SingletonFilter(s, p);
    if |Filter(s, p)| > 1 {
      var i :| 0 <= i < |s| && p(s[i]);
      assert !Only(s, p, s[i]);
      var j :| 0 <= j < |s| && j != i && p(s[j]);
      assert if i < j then p(s[i]) && p(s[j]) else p(s[j]) && p(s[i]);
    }
  }

  /** A source that cannot be trusted is rejected for the first thing wrong with it, before anything else is looked at. */
  lemma SourceReasons(h: Hashing, source: Source, interpretation: Interpretation, snapshot: Snapshot)
    ensures var v := Validate(h, source, interpretation, snapshot);
            var own := source.messageId == interpretation.messageId && source.text == interpretation.text;
            var scoped := source.identityId == snapshot.identityId && source.sessionId == snapshot.sessionId;
            && (v == Rejected(InvalidSource) <==> !SourceOk(source))
            && (v == Rejected(SourceMismatch) <==> SourceOk(source) && !own)
            && (v == Rejected(ScopeMismatch) <==> SourceOk(source) && own && !scoped)
            && (v == Rejected(ReplayedSource) <==> SourceOk(source) && own && scoped && source.messageId in snapshot.consumed)
  {
  }

  /** Talk without references asks for nothing; talk with references, and what cannot be read, is invalid. */
  lemma CandidateReasons(h: Hashing, source: Source, interpretation: Interpretation, snapshot: Snapshot)
    ensures var v := Validate(h, source, interpretation, snapshot);
            var c := interpretation.candidate;
            && (forall intent :: v == NonAction(intent) <==>
                  Trusted(source, interpretation, snapshot) && CandidateOk(c) && c == Candidate(intent, []) && Talk(intent))
            && (v == Rejected(InvalidCandidate) <==>
                  Trusted(source, interpretation, snapshot) && (!CandidateOk(c) || (Talk(c.intent) && c.references != [])))
  {
  }

  /** What the decision names must be one request, and a pending one. */
  lemma ReferenceReasons(h: Hashing, source: Source, interpretation: Interpretation, snapshot: Snapshot)
    ensures var v := Validate(h, source, interpretation, snapshot);
            var c := interpretation.candidate;
            var trusted := Trusted(source, interpretation, snapshot);
            && (v == Rejected(StaleRequest) <==>
                  trusted && Acts(c) && |c.references| == 1
                  && forall i | 0 <= i < |snapshot.pending| :: !ForTarget(c.references[0])(snapshot.pending[i]))
            && (v == Rejected(AmbiguousReference) <==>
                  trusted && Acts(c) && (|c.references| != 1 || Repeated(snapshot.pending, ForTarget(c.references[0]))))
  {
    var c := interpretation.candidate;
    if Trusted(source, interpretation, snapshot) && Acts(c) && |c.references| == 1 {
      SamePending(snapshot.pending, c.references[0]);
      FilterEmpty(snapshot.pending, ForTarget(c.references[0]));
      FilterRepeated(snapshot.pending, ForTarget(c.references[0]));
    }
  }

  /** The request must be at the revision consented to, and an approval that offers the option once. */
  lemma RequestReasons(h: Hashing, source: Source, interpretation: Interpretation, snapshot: Snapshot)
    ensures var v := Validate(h, source, interpretation, snapshot);
            && (v == Rejected(StaleRevision) <==>
                  exists target, request :: About(source, interpretation, snapshot, target, request)
                                            && h.Revision(request.body) != target.revision)
            && (v == Rejected(UnsupportedRequest) <==>
                  exists target, request :: Current(h, source, interpretation, snapshot, target, request)
                                            && !Offers(request, OptionFor(interpretation.candidate.intent)))
  {
    var v := Validate(h, source, interpretation, snapshot);
    if v == Rejected(StaleRevision) || v == Rejected(UnsupportedRequest) {
      var target := interpretation.candidate.references[0];
      assert interpretation.candidate.references == [target];
      SamePending(snapshot.pending, target);
      var matches := Filter(snapshot.pending, ForTarget(target));
      assert matches == [matches[0]];
      FilterOne(snapshot.pending, ForTarget(target), matches[0]);
      assert About(source, interpretation, snapshot, target, matches[0]);
      OffersOnce(matches[0], OptionFor(interpretation.candidate.intent));
      assert v == Rejected(UnsupportedRequest) ==> Current(h, source, interpretation, snapshot, target, matches[0]);
    }
    if target, request :| About(source, interpretation, snapshot, target, request) {
      AboutDecides(h, source, interpretation, snapshot, target, request);
      assert forall t, r | Current(h, source, interpretation, snapshot, t, r) :: About(source, interpretation, snapshot, t, r);
    }
  }

  lemma AboutDecides(h: Hashing, source: Source, interpretation: Interpretation, snapshot: Snapshot, target: Reference, request: Request)
    requires About(source, interpretation, snapshot, target, request)
    ensures var v := Validate(h, source, interpretation, snapshot);
            && (v == Rejected(StaleRevision) <==> h.Revision(request.body) != target.revision)
            && (v == Rejected(UnsupportedRequest) <==>
                  h.Revision(request.body) == target.revision && !Offers(request, OptionFor(interpretation.candidate.intent)))
    ensures forall t, r | About(source, interpretation, snapshot, t, r) :: t == target && r == request
  {
    SamePending(snapshot.pending, target);
    FilterOne(snapshot.pending, ForTarget(target), request);
    OffersOnce(request, OptionFor(interpretation.candidate.intent));
    OnlyOne(snapshot.pending, ForTarget(target), request);
    forall t, r | About(source, interpretation, snapshot, t, r) ensures t == target && r == request {
      assert interpretation.candidate.references == [t] && interpretation.candidate.references == [target];
      assert [t][0] == t && [target][0] == target;
    }
  }

  lemma SamePending(pending: seq<Request>, target: Reference)
    ensures Filter(pending, ForTarget(target)) == Filter(pending, (r: Request) => r.requestId == target.requestId)
  {
    if pending != [] {
      SamePending(pending[1..], target);
    }
  }

  lemma OffersOnce(request: Request, option: string)
    ensures Offers(request, option) <==> request.toolApproval && |Filter(request.options, (o: string) => o == option)| == 1
  {
    var p := (o: string) => o == option;
    SingletonFilter(request.options, p);
    if o :| Only(request.options, p, o) {
      assert o == option;
    }
  }

  lemma OnlyOne<T>(s: seq<T>, p: T -> bool, x: T)
    requires Only(s, p, x)
    ensures forall y :: Only(s, p, y) <==> y == x
  {
  }

  /** The one delivery of that revision to this identity and session must be whole and precede the source. */
  lemma DeliveryReasons(h: Hashing, source: Source, interpretation: Interpretation, snapshot: Snapshot,
                        target: Reference, request: Request)
    requires Deliverable(h, source, interpretation, snapshot, target, request)
    ensures var v := Validate(h, source, interpretation, snapshot);
            var p := (d: Delivery) => DeliversTo(source, target, d);
            && (v == Rejected(MissingDelivery) <==>
                  (forall i | 0 <= i < |snapshot.deliveries| :: !p(snapshot.deliveries[i]))
                  || exists d :: Only(snapshot.deliveries, p, d) && Before(d, source) && !DeliveryOk(d))
            && (v == Rejected(AmbiguousDelivery) <==> Repeated(snapshot.deliveries, p))
            && (v == Rejected(DeliveryNotBeforeSource) <==> exists d :: Only(snapshot.deliveries, p, d) && !Before(d, source))
            && (v.Validated? <==> exists d :: Only(snapshot.deliveries, p, d) && Before(d, source) && DeliveryOk(d))
  {
    var p := (d: Delivery) => DeliversTo(source, target, d);
    SamePending(snapshot.pending, target);
    FilterOne(snapshot.pending, ForTarget(target), request);
    OffersOnce(request, OptionFor(interpretation.candidate.intent));
    FilterEmpty(snapshot.deliveries, p);
    FilterRepeated(snapshot.deliveries, p);
    SingletonFilter(snapshot.deliveries, p);
    if d :| Only(snapshot.deliveries, p, d) {
      FilterOne(snapshot.deliveries, p, d);
      OnlyOne(snapshot.deliveries, p, d);
    }
  }

  // ---------------------------------------------------------------- what consent binds

  /** Consent given to one body never validates for a request that now differs in more than key order,
      as long as the hash tells their texts apart. */
  lemma ConsentBindsContent(h: Hashing, source: Source, interpretation: Interpretation, snapshot: Snapshot,
                            shown: Json, request: Request)
    requires Validate(h, source, interpretation, snapshot).Validated?
    requires request in snapshot.pending && request.requestId == Validate(h, source, interpretation, snapshot).binding.requestId
    requires Validate(h, source, interpretation, snapshot).binding.revision == h.Revision(shown)
    requires Valid(shown) && Valid(request.body)
    requires h.Revision(shown) == h.Revision(request.body) ==>
               Serialized(shown, h.collation) == Serialized(request.body, h.collation)
    ensures SameUpToKeyOrder(shown, request.body)
  {
    var target, matched, d := ValidatedWasConsented(h, source, interpretation, snapshot);
    ConsentedValidates(h, source, interpretation, snapshot, interpretation.candidate.intent, target, matched, d);
    OnlyIsUnique(snapshot.pending, (r: Request) => r.requestId == target.requestId, matched, request);
    SerializedDistinguishes(shown, request.body, h.collation);
  }

  ghost predicate SameRequest(a: Request, b: Request) {
    && a.requestId == b.requestId && a.toolApproval == b.toolApproval && a.options == b.options
    && Valid(a.body) && Valid(b.body) && SameUpToKeyOrder(a.body, b.body)
  }

  /** Requests listed alike up to key order are filtered to requests listed alike. */
  lemma {:induction false} FilterSameRequests(a: seq<Request>, b: seq<Request>, id: string)
    requires |a| == |b| && forall i | 0 <= i < |a| :: SameRequest(a[i], b[i])
    ensures var p := (r: Request) => r.requestId == id;
            |Filter(a, p)| == |Filter(b, p)| && forall i | 0 <= i < |Filter(a, p)| :: SameRequest(Filter(a, p)[i], Filter(b, p)[i])
  {
    if a != [] {
      FilterSameRequests(a[1..], b[1..], id);
      assert SameRequest(a[0], b[0]);
    }
  }

  predicate Names(c: Candidate, id: string) { c.Candidate? && exists r | r in c.references :: r.requestId == id }

  lemma {:induction false} FilteredAreMembers<T>(s: seq<T>, p: T -> bool)
    ensures forall x | x in Filter(s, p) :: x in s && p(x)
  {
    if s != [] {
      FilteredAreMembers(s[1..], p);
    }
  }

  /** Reordering object keys anywhere in the pending requests changes no decision about a request without tied keys. */
  lemma KeyOrderChangesNoDecision(h: Hashing, source: Source, interpretation: Interpretation, snapshot: Snapshot, pending: seq<Request>)
    requires forall r | r in snapshot.pending && Names(interpretation.candidate, r.requestId) :: Untied(r.body, h.collation)
    requires |pending| == |snapshot.pending| && forall i | 0 <= i < |pending| :: SameRequest(snapshot.pending[i], pending[i])
    ensures Validate(h, source, interpretation, snapshot.(pending := pending)) == Validate(h, source, interpretation, snapshot)
  {
    if interpretation.candidate.Candidate? && |interpretation.candidate.references| == 1 {
      var id := interpretation.candidate.references[0].requestId;
      FilterSameRequests(snapshot.pending, pending, id);
      var p := (r: Request) => r.requestId == id;
      if |Filter(pending, p)| == 1 {
        var a, b := Filter(snapshot.pending, p)[0], Filter(pending, p)[0];
        assert SameRequest(a, b) && a in Filter(snapshot.pending, p);
        FilteredAreMembers(snapshot.pending, p);
        assert interpretation.candidate.references[0] in interpretation.candidate.references;
        SerializedIffSameUpToKeyOrder(a.body, b.body, h.collation);
      }
    }
  }
}
