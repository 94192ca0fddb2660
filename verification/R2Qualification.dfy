/** The persisted manifest of one bucket qualification: budgets and write-ahead object tracking that
    must hold wherever the process dies (scripts/qualify-r2.ts). */
module R2Qualification {
  import opened Wrappers

  const MAX_BYTES: nat := 1024 * 1024
  const CLEANUP_RESERVE: nat := 9
  const PAYLOAD_BYTES: nat := 4096

  datatype Name = Immutable | WrongDigest | DiscardedReceipt

  datatype State = Pending | Deleted

  datatype Entry = Entry(name: Name, state: State)

  datatype Phase = Running | Passed | Failed

  datatype Manifest = Manifest(maxRequests: nat, requests: nat, putBytes: nat, phase: Phase, objects: seq<Entry>)
  {
    predicate Tracks(name: Name) { Lists(objects, name) }
  }

  predicate Lists(objects: seq<Entry>, name: Name) { exists e | e in objects :: e.name == name }

  /** Whose metadata an object carries: this run's, or anything else. */
  datatype Owner = Ours | Foreign

  /** What survives a crash: the manifest on disk, the bucket, uploads still in flight, and what went over the wire. */
  datatype Snapshot = Snapshot(disk: Manifest, bucket: map<Name, Owner>, flying: set<Name>, wire: nat, wireBytes: nat)
  {
    /** The run's object exists, or an upload of it may still land. */
    predicate MayExist(name: Name) { name in flying || (name in bucket && bucket[name] == Ours) }
  }

  /** No new upload, nothing of ours that was not in flight, and nothing gone. */
  ghost predicate Aside(a: Snapshot, b: Snapshot) {
    && b.flying <= a.flying && b.wire == a.wire && b.wireBytes == a.wireBytes && b.disk == a.disk
    && (forall name | b.MayExist(name) :: a.MayExist(name))
    && (forall name | name in a.bucket :: name in b.bucket && b.bucket[name] == a.bucket[name])
  }

  predicate AllDeleted(objects: seq<Entry>) { forall e | e in objects :: e.state == Deleted }

  predicate DistinctNames(objects: seq<Entry>) {
    forall i, j | 0 <= i < j < |objects| :: objects[i].name != objects[j].name
  }

  /** What `load` insists on: lines 170-179. */
  predicate Loadable(m: Manifest) {
    15 <= m.maxRequests <= 100 && m.requests <= m.maxRequests && m.putBytes <= MAX_BYTES && DistinctNames(m.objects)
  }

  /** Every object that can exist is recorded as pending, and nothing was sent that is not accounted for. */
  ghost predicate CrashSafe(s: Snapshot) {
    && Loadable(s.disk)
    && (forall name | s.MayExist(name) :: Entry(name, Pending) in s.disk.objects)
    && s.wire <= s.disk.requests
    && s.wireBytes <= s.disk.putBytes
  }

  /** What never goes back: a deletion record, somebody else's object, a spent request or byte. */
  ghost predicate Later(a: Snapshot, b: Snapshot) {
    && a.disk.maxRequests == b.disk.maxRequests
    && a.disk.requests <= b.disk.requests && a.disk.putBytes <= b.disk.putBytes
    && a.wire <= b.wire && a.wireBytes <= b.wireBytes
    && (forall name | Entry(name, Deleted) in a.disk.objects :: Entry(name, Deleted) in b.disk.objects)
    && (forall name | name in a.bucket && a.bucket[name] == Foreign :: name in b.bucket && b.bucket[name] == Foreign)
  }

  /** Once the manifest says everything is deleted, nothing of the run exists and nothing can still appear. */
  lemma AllDeletedMeansNoneExists(s: Snapshot)
    requires CrashSafe(s) && AllDeleted(s.disk.objects)
    ensures s.flying == {} && forall name | name in s.bucket :: s.bucket[name] == Foreign
  {
    forall name ensures !s.MayExist(name) {
      assert Entry(name, Pending).state != Deleted;
    }
    if s.flying != {} {
      var name :| name in s.flying;
      assert s.MayExist(name);
    }
    forall name | name in s.bucket ensures s.bucket[name] == Foreign {
      assert !s.MayExist(name);
    }
  }

  /** At most three objects, so a cleanup pass of at most three requests each fits the reserve. */
  lemma AtMostThree(objects: seq<Entry>)
    requires DistinctNames(objects)
    ensures 3 * |objects| <= CLEANUP_RESERVE
  {
    if |objects| >= 3 {
      var a, b, c, last := objects[0].name, objects[1].name, objects[2].name, objects[|objects| - 1].name;
      assert a != b && a != c && b != c;
      assert last == a || last == b || last == c;
    }
  }

  datatype Reply = Granted | NoBudget | NoBytes | Late | NotSaved

  datatype Head = Absent | Found(owner: Owner) | HeadFailed

  datatype PutReply = Stored | AlreadyThere | PutFailed

  /** The requests other than uploads and HEADs of objects. */
  datatype Probe = ManagedDomain | CustomDomains | DeniedRecord | BucketHead | DeniedHead
                 | ObjectRead(name: Name) | MissingRead | ShortRead | AnonymousRead

  /** `Good`: as a client would want it; `Corrupt`: bytes and digest do not fit; `Other`: anything else, or nothing. */
  datatype Answer = Good | NotFound | Forbidden | Corrupt | TooLarge | Other

  /** One request that left, and what came back. */
  datatype Exchange = Upload(name: Name, reply: PutReply) | Look(name: Name, head: Head) | Ask(probe: Probe, answer: Answer)

  /** What the run insists on. */
  datatype Demand = Store(name: Name) | Refuse(name: Name) | Find(name: Name) | Try(probe: Probe)

  /** Domains must be disabled, the other bucket out of reach, a missing object missing, too long a body cut off, a wrong
      digest noticed, and an anonymous reader turned away. */
  predicate Right(probe: Probe, answer: Answer) {
    match probe
    case DeniedHead => answer.Forbidden? || answer.NotFound?
    case MissingRead => answer.NotFound?
    case ShortRead => answer.TooLarge?
    case AnonymousRead => answer.Forbidden?
    case ObjectRead(name) => if name.WrongDigest? then answer.Corrupt? else answer.Good?
    case _ => answer.Good?
  }

  function RightAnswer(probe: Probe): (answer: Answer)
    ensures Right(probe, answer)
  {
    match probe
    case DeniedHead => Forbidden
    case MissingRead => NotFound
    case ShortRead => TooLarge
    case AnonymousRead => Forbidden
    case ObjectRead(name) => if name.WrongDigest? then Corrupt else Good
    case _ => Good
  }

  predicate Meets(d: Demand, x: Exchange) {
    match d
    case Store(name) => x == Upload(name, Stored)
    case Refuse(name) => x == Upload(name, AlreadyThere)
    case Find(name) => x.Look? && x.name == name && x.head.Found?
    case Try(probe) => x.Ask? && x.probe == probe && Right(probe, x.answer)
  }

  /** Demand by demand, stopping at the first that is not met; `ok` exactly if all were made and met. */
  predicate Follows(plan: seq<Demand>, log: seq<Exchange>, ok: bool) {
    if plan == [] then log == [] && ok
    else if log == [] then !ok
    else if !Meets(plan[0], log[0]) then |log| == 1 && !ok
    else Follows(plan[1..], log[1..], ok)
  }

  lemma {:induction false} PassingLog(plan: seq<Demand>, log: seq<Exchange>)
    ensures Follows(plan, log, true) <==> |log| == |plan| && forall k | 0 <= k < |log| :: Meets(plan[k], log[k])
  {
    if plan != [] && log != [] {
      PassingLog(plan[1..], log[1..]);
      assert forall k | 0 < k < |log| && |log| == |plan| :: plan[k] == plan[1..][k - 1] && log[k] == log[1..][k - 1];
      assert |log| == |plan| ==>
        forall k | 0 <= k < |log| - 1 :: plan[1..][k] == plan[k + 1] && log[1..][k] == log[k + 1];
    }
  }

  lemma {:induction false} FollowsThen(p: seq<Demand>, d: seq<Exchange>, q: seq<Demand>, e: seq<Exchange>, ok: bool)
    requires Follows(p, d, true) && Follows(q, e, ok)
    ensures Follows(p + q, d + e, ok)
  {
    if p == [] {
      assert p + q == q && d + e == e;
    } else {
      FollowsThen(p[1..], d[1..], q, e, ok);
      assert (p + q)[1..] == p[1..] + q && (d + e)[1..] == d[1..] + e;
    }
  }

  lemma {:induction false} FollowsStops(p: seq<Demand>, d: seq<Exchange>, q: seq<Demand>)
    requires Follows(p, d, false)
    ensures Follows(p + q, d, false)
  {
    if d != [] && Meets(p[0], d[0]) {
      FollowsStops(p[1..], d[1..], q);
      assert (p + q)[1..] == p[1..] + q;
    }
  }

  /** The log has grown by what follows the plan. */
  predicate Done(before: seq<Exchange>, after: seq<Exchange>, plan: seq<Demand>, ok: bool) {
    before <= after && Follows(plan, after[|before|..], ok)
  }

  lemma DoneOne(before: seq<Exchange>, x: Exchange, d: Demand)
    ensures Done(before, before + [x], [d], Meets(d, x))
  {
    assert (before + [x])[|before|..] == [x] && [x][1..] == [] && [d][1..] == [];
  }

  lemma DoneNone(before: seq<Exchange>, d: Demand)
    ensures Done(before, before, [d], false)
  {
    assert before[|before|..] == [];
  }

  lemma DoneThen(a: seq<Exchange>, b: seq<Exchange>, c: seq<Exchange>, p: seq<Demand>, q: seq<Demand>, ok: bool)
    requires Done(a, b, p, true) && Done(b, c, q, ok)
    ensures Done(a, c, p + q, ok)
  {
    FollowsThen(p, b[|a|..], q, c[|b|..], ok);
    assert c[|a|..] == b[|a|..] + c[|b|..];
  }

  lemma DoneStops(a: seq<Exchange>, b: seq<Exchange>, p: seq<Demand>, q: seq<Demand>)
    requires Done(a, b, p, false)
    ensures Done(a, b, p + q, false)
  {
    FollowsStops(p, b[|a|..], q);
  }

  function Tries(probes: seq<Probe>): seq<Demand> { seq(|probes|, k requires 0 <= k < |probes| => Try(probes[k])) }

  function StoredPlan(name: Name): seq<Demand> { [Store(name), Find(name), Try(ObjectRead(name))] }

  function KeptPlan(name: Name): seq<Demand> { [Refuse(name), Refuse(name), Try(ObjectRead(name))] }

  const SETTINGS: seq<Probe> := [ManagedDomain, CustomDomains]

  const OTHERS_PLAN: seq<Demand> :=
    [Store(WrongDigest), Try(ObjectRead(WrongDigest)),
     Store(DiscardedReceipt), Find(DiscardedReceipt), Try(ObjectRead(DiscardedReceipt)), Refuse(DiscardedReceipt)]

  const LIMITS_PLAN: seq<Demand> :=
    [Store(Immutable), Find(Immutable), Try(ObjectRead(Immutable)),
     Refuse(Immutable), Refuse(Immutable), Try(ObjectRead(Immutable)), Try(MissingRead), Try(ShortRead)]

  const OBJECTS_PLAN: seq<Demand> := LIMITS_PLAN + OTHERS_PLAN

  /** Everything a run demands, in order: lines 402-506. */
  function Plan(cloudflare: bool): seq<Demand> {
    if cloudflare then
      [Try(ManagedDomain), Try(CustomDomains), Try(DeniedRecord), Try(BucketHead), Try(DeniedHead)]
      + OBJECTS_PLAN + [Try(AnonymousRead), Try(ManagedDomain), Try(CustomDomains)]
    else
      [Try(BucketHead)] + OBJECTS_PLAN + [Try(AnonymousRead)]
  }

  function Uploads(log: seq<Exchange>): seq<(Name, PutReply)> {
    if log == [] then []
    else (if log[0].Upload? then [(log[0].name, log[0].reply)] else []) + Uploads(log[1..])
  }

  /** The uploads a plan demands, with their answers. */
  function PlannedUploads(plan: seq<Demand>): seq<(Name, PutReply)> {
    if plan == [] then []
    else
      (match plan[0]
       case Store(name) => [(name, Stored)]
       case Refuse(name) => [(name, AlreadyThere)]
       case _ => [])
      + PlannedUploads(plan[1..])
  }

  /** A passing run uploaded what was planned, and the bucket did with it what was planned. */
  lemma {:induction false} UploadsAsPlanned(plan: seq<Demand>, log: seq<Exchange>)
    requires Follows(plan, log, true)
    ensures Uploads(log) == PlannedUploads(plan)
  {
    if plan != [] {
      UploadsAsPlanned(plan[1..], log[1..]);
    }
  }

  predicate Quiet(plan: seq<Demand>) { forall d | d in plan :: d.Try? || d.Find? }

  lemma {:induction false} QuietPlansUploadNothing(plan: seq<Demand>, rest: seq<Demand>)
    requires Quiet(plan)
    ensures PlannedUploads(plan + rest) == PlannedUploads(rest)
  {
    if plan == [] {
      assert plan + rest == rest;
    } else {
      assert plan[0] in plan && (plan + rest)[1..] == plan[1..] + rest;
      QuietPlansUploadNothing(plan[1..], rest);
    }
  }

  lemma UploadThen(d: Demand, quiet: seq<Demand>, rest: seq<Demand>)
    requires (d.Store? || d.Refuse?) && Quiet(quiet)
    ensures PlannedUploads([d] + quiet + rest) == [(d.name, if d.Store? then Stored else AlreadyThere)] + PlannedUploads(rest)
  {
    assert ([d] + quiet + rest)[1..] == quiet + rest;
    QuietPlansUploadNothing(quiet, rest);
  }

  lemma OtherUploads(rest: seq<Demand>)
    ensures PlannedUploads(OTHERS_PLAN + rest)
         == [(WrongDigest, Stored), (DiscardedReceipt, Stored), (DiscardedReceipt, AlreadyThere)] + PlannedUploads(rest)
  {
    var last := [Refuse(DiscardedReceipt)] + rest;
    var receipt := [Store(DiscardedReceipt)] + [Find(DiscardedReceipt), Try(ObjectRead(DiscardedReceipt))] + last;
    UploadThen(Refuse(DiscardedReceipt), [], rest);
    assert [Refuse(DiscardedReceipt)] + [] + rest == last;
    UploadThen(Store(DiscardedReceipt), [Find(DiscardedReceipt), Try(ObjectRead(DiscardedReceipt))], last);
    UploadThen(Store(WrongDigest), [Try(ObjectRead(WrongDigest))], receipt);
    assert OTHERS_PLAN + rest == [Store(WrongDigest)] + [Try(ObjectRead(WrongDigest))] + receipt;
  }

  lemma ObjectUploads(rest: seq<Demand>)
    ensures PlannedUploads(LIMITS_PLAN + rest)
         == [(Immutable, Stored), (Immutable, AlreadyThere), (Immutable, AlreadyThere)] + PlannedUploads(rest)
  {
    var again := [Refuse(Immutable)] + [Try(ObjectRead(Immutable)), Try(MissingRead), Try(ShortRead)] + rest;
    var denied := [Refuse(Immutable)] + again;
    UploadThen(Refuse(Immutable), [Try(ObjectRead(Immutable)), Try(MissingRead), Try(ShortRead)], rest);
    UploadThen(Refuse(Immutable), [], again);
    assert [Refuse(Immutable)] + [] + again == denied;
    UploadThen(Store(Immutable), [Find(Immutable), Try(ObjectRead(Immutable))], denied);
    assert LIMITS_PLAN + rest == [Store(Immutable)] + [Find(Immutable), Try(ObjectRead(Immutable))] + denied;
  }

  /** The uploads of a passing run, and what the bucket did with them. */
  lemma PassingUploads(cloudflare: bool, log: seq<Exchange>)
    requires Follows(Plan(cloudflare), log, true)
    ensures Uploads(log) == [(Immutable, Stored), (Immutable, AlreadyThere), (Immutable, AlreadyThere),
                             (WrongDigest, Stored), (DiscardedReceipt, Stored), (DiscardedReceipt, AlreadyThere)]
  {
    var front := if cloudflare then Tries(SETTINGS + [DeniedRecord, BucketHead, DeniedHead]) else Tries([BucketHead]);
    var back := Tries([AnonymousRead] + if cloudflare then SETTINGS else []);
    assert Plan(cloudflare) == front + (LIMITS_PLAN + (OTHERS_PLAN + back));
    UploadsAsPlanned(Plan(cloudflare), log);
    PlannedInThreeParts(front, back);
  }

  lemma PlannedInThreeParts(front: seq<Demand>, back: seq<Demand>)
    requires Quiet(front) && Quiet(back)
    ensures PlannedUploads(front + (LIMITS_PLAN + (OTHERS_PLAN + back)))
         == [(Immutable, Stored), (Immutable, AlreadyThere), (Immutable, AlreadyThere),
             (WrongDigest, Stored), (DiscardedReceipt, Stored), (DiscardedReceipt, AlreadyThere)]
  {
    QuietPlansUploadNothing(front, LIMITS_PLAN + (OTHERS_PLAN + back));
    ObjectUploads(OTHERS_PLAN + back);
    OtherUploads(back);
    QuietPlansUploadNothing(back, []);
    assert back + [] == back;
  }

  /** Every request of the process that left, but for deletions, with its answer. */
  class Transcript {
    ghost var log: seq<Exchange>

    constructor ()
      ensures log == []
    {
      log := [];
    }
  }

  /** One process working on one manifest, together with the outside it acts on.
      `trail` lists every state a crash could have left, oldest first. */
  class Qualification {
    var mem: Manifest
    var disk: Manifest
    var bucket: map<Name, Owner>
    var flying: set<Name>
    var wire: nat
    var wireBytes: nat
    var cleaning: bool
    var exhausted: bool   // a cleanup request was refused for lack of request budget
    var trail: seq<Snapshot>
    const transcript: Transcript
    const reliable: bool  // every save and request is answered in time, as it should be, and nobody else writes under the run's keys

    predicate NoForeign()
      reads this
    {
      forall name | name in bucket :: bucket[name] == Ours
    }

    /** Nothing is under way or in doubt, and no more was written than one payload a request. */
    predicate Calm()
      reads this
    {
      reliable && flying == {} && NoForeign() && disk == mem && mem.putBytes <= PAYLOAD_BYTES * mem.requests
    }

    /** Before cleanup, `n` more requests are within the budget. */
    predicate Room(n: nat)
      reads this
    {
      mem.requests + n <= mem.maxRequests - CLEANUP_RESERVE
    }

    function Now(): Snapshot
      reads this
    {
      Snapshot(disk, bucket, flying, wire, wireBytes)
    }

    ghost predicate TrailOk()
      reads this
    {
      && |trail| > 0 && trail[|trail| - 1] == Now()
      && Sound(trail)
    }

    /** Memory runs ahead of disk, never behind, and calls an object deleted only when it is gone. */
    ghost predicate MemoryOk()
      reads this
    {
      && Loadable(mem)
      && mem.maxRequests == disk.maxRequests && disk.requests <= mem.requests && disk.putBytes <= mem.putBytes
      && (forall e | e in disk.objects :: mem.Tracks(e.name))
      && (forall name | Entry(name, Deleted) in disk.objects :: Entry(name, Deleted) in mem.objects)
      && (forall name | Entry(name, Deleted) in mem.objects :: !Now().MayExist(name))
      && (!cleaning ==> forall e | e in mem.objects :: e.state == Pending)
    }

    ghost predicate Valid()
      reads this
    {
      TrailOk() && MemoryOk()
    }

    /** A fresh run: an empty manifest is saved before anything else (lines 218-236). */
    constructor Fresh(maxRequests: nat, reliable: bool)
      requires 15 <= maxRequests <= 100
      ensures fresh(transcript) && this.reliable == reliable && mem == disk && mem.putBytes == 0
      ensures Valid() && !cleaning && !exhausted && mem.maxRequests == maxRequests && mem.requests == 0
      ensures trail == [Snapshot(Manifest(maxRequests, 0, 0, Running, []), map[], {}, 0, 0)]
    {
      var m := Manifest(maxRequests, 0, 0, Running, []);
      mem, disk, bucket, flying, wire, wireBytes := m, m, map[], {}, 0, 0;
      cleaning, exhausted, this.reliable := false, false, reliable;
      transcript := new Transcript();
      trail := [Snapshot(m, map[], {}, 0, 0)];
    }

    /** A later `cleanup` command loads whatever a crash left. */
    constructor Resume(s: Snapshot, reliable: bool)
      requires CrashSafe(s)
      ensures fresh(transcript) && this.reliable == reliable && Now() == s && mem == s.disk
      ensures Valid() && cleaning && !exhausted && trail == [s]
    {
      mem, disk, bucket, flying, wire, wireBytes := s.disk, s.disk, s.bucket, s.flying, s.wire, s.wireBytes;
      cleaning, exhausted, this.reliable := true, false, reliable;
      transcript := new Transcript();
      trail := [s];
      new;
      forall e | e in disk.objects ensures mem.Tracks(e.name) {
      }
      forall name | Entry(name, Deleted) in mem.objects ensures !Now().MayExist(name) {
        if Now().MayExist(name) {
          DistinctEntries(mem.objects, Entry(name, Deleted), Entry(name, Pending));
        }
      }
    }

    /** Appends the present state to the trail. */
    ghost predicate CanObserve()
      reads this
    {
      && |trail| > 0
      && Sound(trail)
      && CrashSafe(Now()) && Later(trail[|trail| - 1], Now())
    }

    method Observe()
      requires CanObserve() && MemoryOk()
      modifies this`trail
      ensures Valid() && trail == old(trail) + [Now()]
    {
      forall i | 0 <= i < |trail| ensures Later(trail[i], Now()) {
        LaterIsTransitive(trail[i], trail[|trail| - 1], Now());
      }
      trail := trail + [Now()];
    }

    /** Lines 137-153: the rename makes the whole manifest durable, or none of it. */
    method Save() returns (ok: bool)
      requires Valid()
      modifies this`disk, this`trail
      ensures Valid() && old(trail) <= trail
      ensures if ok then disk == mem else disk == old(disk) && trail == old(trail)
      ensures reliable ==> ok
    {
      ok := *;
      ok := ok || reliable;
      if ok {
        forall name | Now().MayExist(name) ensures Entry(name, Pending) in mem.objects {
          assert Entry(name, Pending) in disk.objects;
          var e :| e in mem.objects && e.name == name;
          assert e.state == Deleted ==> e == Entry(name, Deleted);
        }
        disk := mem;
        Observe();
      }
    }

    /** Lines 238-252. */
    method Reserve(bytes: nat) returns (r: Reply)
      requires Valid()
      modifies this`mem, this`disk, this`exhausted, this`trail
      ensures Valid() && old(trail) <= trail
      ensures mem.objects == old(mem.objects) && mem.phase == old(mem.phase)
      ensures r == Granted ==> disk == mem && wire < disk.requests && wireBytes + bytes <= disk.putBytes
      ensures r == Granted ==> mem.requests == old(mem.requests) + 1 && mem.putBytes == old(mem.putBytes) + bytes
                               && mem.requests <= mem.maxRequests - (if cleaning then 0 else CLEANUP_RESERVE)
      ensures mem.requests <= old(mem.requests) + 1 && (r == NoBudget || r == NoBytes || r == Late ==> mem == old(mem) && disk == old(disk))
      ensures mem.requests > old(mem.requests) ==> mem.requests <= mem.maxRequests - (if cleaning then 0 else CLEANUP_RESERVE)
      ensures r == NoBudget <==> old(mem.requests) >= mem.maxRequests - (if cleaning then 0 else CLEANUP_RESERVE)
      ensures exhausted == (old(exhausted) || (cleaning && r == NoBudget))
      ensures r == NoBytes ==> old(mem.putBytes) + bytes > MAX_BYTES
      ensures reliable ==> r == Granted || r == NoBudget || r == NoBytes
    {
      if !(mem.requests < mem.maxRequests - (if cleaning then 0 else CLEANUP_RESERVE)) {
        exhausted := exhausted || cleaning;
        return NoBudget;
      }
      if !(mem.putBytes + bytes <= MAX_BYTES) {
        return NoBytes;
      }
      var late: bool := *;
      if late && !reliable {
        return Late;
      }
      mem := mem.(requests := mem.requests + 1, putBytes := mem.putBytes + bytes);
      var ok := Save();
      r := if ok then Granted else NotSaved;
    }

    /** Between any two of our actions: uploads in flight land or vanish, and others create objects of their own. */
    method Elsewhere()
      requires Valid()
      modifies this`bucket, this`flying, this`trail
      ensures Valid() && old(trail) <= trail && Aside(old(Now()), Now())
      ensures reliable && old(NoForeign()) ==> NoForeign()
      ensures reliable ==> bucket.Keys <= old(bucket.Keys) + old(flying) <= bucket.Keys + flying
    {
      var steps: nat :| 0 <= steps;
      for i := 0 to steps
        invariant Valid() && old(trail) <= trail && Aside(old(Now()), Now())
        invariant reliable && old(NoForeign()) ==> NoForeign()
        invariant reliable ==> bucket.Keys <= old(bucket.Keys) + old(flying) <= bucket.Keys + flying
      {
        var name: Name := *;
        if name in flying {
          Settle(name);
        } else if name !in bucket && !reliable {
          Create(name);
        }
      }
    }

    method Create(name: Name)
      requires Valid() && name !in bucket
      modifies this`bucket, this`trail
      ensures Valid() && old(trail) <= trail && Aside(old(Now()), Now())
    {
      bucket := bucket[name := Foreign];
      Observe();
    }

    /** Whatever upload of this object was in flight has landed by now, or never will. */
    method Settle(name: Name)
      requires Valid()
      modifies this`flying, this`bucket, this`trail
      ensures Valid() && old(trail) <= trail && name !in flying && Aside(old(Now()), Now())
      ensures (old(NoForeign()) ==> NoForeign()) && flying == old(flying) - {name}
      ensures reliable ==> bucket.Keys == old(bucket.Keys) + (old(flying) * {name})
    {
      if name in flying {
        flying := flying - {name};
        var landed: bool := *;
        if (landed || reliable) && name !in bucket {
          bucket := bucket[name := Ours];
        }
        Observe();
      }
    }

    /** One request leaves the process. */
    method Wire(bytes: nat)
      requires Valid() && wire < disk.requests && wireBytes + bytes <= disk.putBytes
      modifies this`wire, this`wireBytes, this`trail
      ensures Valid() && old(trail) <= trail && wire == old(wire) + 1 && wireBytes == old(wireBytes) + bytes
    {
      wire, wireBytes := wire + 1, wireBytes + bytes;
      Observe();
    }

    /** Any other request: bucket heads, control reads, object reads, the anonymous read. */
    method Read(probe: Probe) returns (ok: bool)
      requires Valid() && !cleaning
      modifies this, transcript
      ensures Done(old(transcript.log), transcript.log, [Try(probe)], ok)
      ensures Valid() && old(trail) <= trail && !cleaning && exhausted == old(exhausted)
      ensures mem.objects == old(mem.objects) && mem.maxRequests == old(mem.maxRequests)
      ensures old(mem.requests) <= mem.maxRequests - CLEANUP_RESERVE ==> mem.requests <= mem.maxRequests - CLEANUP_RESERVE
      ensures ok ==> mem.requests == old(mem.requests) + 1
      ensures old(Calm()) ==> Calm() && bucket.Keys == old(bucket.Keys) && (ok <==> old(Room(1)))
    {
      var answer := Consult(probe);
      DoneNone(old(transcript.log), Try(probe));
      if answer.None? {
        return false;
      }
      DoneOne(old(transcript.log), Ask(probe, answer.value), Try(probe));
      ok := Right(probe, answer.value);
    }

    /** A request leaves, and time passes. */
    method Roundtrip() returns (sent: bool)
      requires Valid() && !cleaning
      modifies this
      ensures Valid() && old(trail) <= trail && !cleaning && exhausted == old(exhausted)
      ensures mem.objects == old(mem.objects) && mem.maxRequests == old(mem.maxRequests)
      ensures old(mem.requests) <= mem.maxRequests - CLEANUP_RESERVE ==> mem.requests <= mem.maxRequests - CLEANUP_RESERVE
      ensures sent ==> mem.requests == old(mem.requests) + 1
      ensures old(Calm()) ==> Calm() && bucket.Keys == old(bucket.Keys) && (sent <==> old(Room(1)))
    {
      var r := Reserve(0);
      sent := r == Granted;
      if sent {
        Wire(0);
        Elsewhere();
      }
    }

    /** The answer, if the request could be made. */
    method Consult(probe: Probe) returns (answer: Option<Answer>)
      requires Valid() && !cleaning
      modifies this, transcript
      ensures transcript.log == if answer.Some? then old(transcript.log) + [Ask(probe, answer.value)] else old(transcript.log)
      ensures Valid() && old(trail) <= trail && !cleaning && exhausted == old(exhausted)
      ensures mem.objects == old(mem.objects) && mem.maxRequests == old(mem.maxRequests)
      ensures old(mem.requests) <= mem.maxRequests - CLEANUP_RESERVE ==> mem.requests <= mem.maxRequests - CLEANUP_RESERVE
      ensures answer.Some? ==> mem.requests == old(mem.requests) + 1
      ensures old(Calm()) ==> Calm() && bucket.Keys == old(bucket.Keys)
                              && (answer.Some? <==> old(Room(1))) && (answer.Some? ==> Right(probe, answer.value))
    {
      var sent := Roundtrip();
      if !sent {
        return None;
      }
      var given: Answer := *;
      if reliable {
        given := RightAnswer(probe);
      }
      transcript.log := transcript.log + [Ask(probe, given)];
      answer := Some(given);
    }

    /** Lines 287-308: the object is recorded, durably, before its first upload can leave. */
    method Put(name: Name) returns (r: PutReply)
      requires Valid() && !cleaning
      modifies this, transcript
      ensures transcript.log == old(transcript.log) + [Upload(name, r)] || (r == PutFailed && transcript.log == old(transcript.log))
      ensures Valid() && old(trail) <= trail && !cleaning && exhausted == old(exhausted)
      ensures mem.maxRequests == old(mem.maxRequests)
      ensures old(mem.requests) <= mem.maxRequests - CLEANUP_RESERVE ==> mem.requests <= mem.maxRequests - CLEANUP_RESERVE
      ensures r != PutFailed ==> mem.requests == old(mem.requests) + 1
      ensures old(Calm()) ==> Calm() && (r != PutFailed <==> old(Room(1)))
      ensures old(Calm()) && r != PutFailed ==>
                bucket.Keys == old(bucket.Keys) + {name} && (r == Stored <==> name !in old(bucket))
    {
      var ok := Track(name);
      if !ok {
        return PutFailed;
      }
      var granted := Reserve(PAYLOAD_BYTES);
      if granted != Granted {
        return PutFailed;
      }
      r := Send(name);
    }

    /** The conditional upload and its answer: If-None-Match lets it store only where nothing is. */
    method Send(name: Name) returns (r: PutReply)
      requires Valid() && Entry(name, Pending) in mem.objects && mem == disk
      requires wire < disk.requests && wireBytes + PAYLOAD_BYTES <= disk.putBytes
      modifies this`wire, this`wireBytes, this`bucket, this`flying, this`trail, transcript
      ensures transcript.log == old(transcript.log) + [Upload(name, r)]
      ensures Valid() && old(trail) <= trail
      ensures old(Calm()) ==> Calm() && bucket.Keys == old(bucket.Keys) + {name}
                              && r == if name in old(bucket) then AlreadyThere else Stored
    {
      ghost var before := bucket.Keys;
      var there := name in bucket;
      Depart(name);
      Elsewhere();
      if reliable {
        Settle(name);
        r := if there then AlreadyThere else Stored;
      } else {
        r := *;
        if name in flying {
          r := PutFailed;   // aborted or unanswered: the upload may still land
        }
      }
      transcript.log := transcript.log + [Upload(name, r)];
    }

    /** Lines 288-291: recorded in memory, then on disk, unless already recorded. */
    method Track(name: Name) returns (ok: bool)
      requires Valid() && !cleaning
      modifies this`mem, this`disk, this`trail
      ensures Valid() && old(trail) <= trail
      ensures mem == old(mem).(objects := mem.objects) && mem.objects == Tracked(old(mem.objects), name)
      ensures old(Calm()) ==> ok && Calm()
    {
      if mem.Tracks(name) {
        return true;
      }
      TrackedEntries(mem.objects, name);
      mem := mem.(objects := mem.objects + [Entry(name, Pending)]);
      ok := Save();
    }

    /** The upload leaves: from here on the object may appear at any time. */
    method Depart(name: Name)
      requires Valid() && Entry(name, Pending) in mem.objects && mem == disk
      requires wire < disk.requests && wireBytes + PAYLOAD_BYTES <= disk.putBytes
      modifies this`wire, this`wireBytes, this`flying, this`trail
      ensures Valid() && old(trail) <= trail && flying == old(flying) + {name}
      ensures wire == old(wire) + 1 && wireBytes == old(wireBytes) + PAYLOAD_BYTES
    {
      Wire(PAYLOAD_BYTES);
      PendingIsNotDeleted(mem.objects, name);
      flying := flying + {name};
      Observe();
    }

    /** Lines 279-286. An answer means no earlier upload of this object lands afterwards. */
    method HeadObject(name: Name) returns (h: Head)
      requires Valid()
      modifies this, transcript
      ensures transcript.log == old(transcript.log) + [Look(name, h)] || (h == HeadFailed && transcript.log == old(transcript.log))
      ensures Valid() && old(trail) <= trail && cleaning == old(cleaning)
      ensures mem.objects == old(mem.objects) && mem.maxRequests == old(mem.maxRequests) && mem.phase == old(mem.phase)
      ensures mem.requests <= old(mem.requests) + 1
      ensures !cleaning && old(mem.requests) <= mem.maxRequests - CLEANUP_RESERVE ==> mem.requests <= mem.maxRequests - CLEANUP_RESERVE
      ensures h != HeadFailed ==> name !in flying && mem.requests == old(mem.requests) + 1
      ensures h == Absent ==> name !in bucket
      ensures h.Found? ==> name in bucket && bucket[name] == h.owner
      ensures exhausted ==> old(exhausted) || (cleaning && old(mem.requests) >= mem.maxRequests)
      ensures !cleaning ==> exhausted == old(exhausted)
      ensures reliable && cleaning && old(mem.requests) < mem.maxRequests ==> h != HeadFailed
      ensures reliable && old(NoForeign()) ==> NoForeign()
      ensures reliable && old(NoForeign() && !Now().MayExist(name)) ==> h == Absent || h == HeadFailed
      ensures reliable && old(disk == mem) ==> disk == mem
      ensures old(Calm()) && !cleaning ==> Calm() && bucket.Keys == old(bucket.Keys)
                                           && (h != HeadFailed <==> old(Room(1))) && (h.Found? <==> old(Room(1) && name in bucket))
    {
      var r := Reserve(0);
      if r != Granted {
        return HeadFailed;
      }
      Wire(0);
      h := HeadAnswer(name);
    }

    /** What a HEAD that has left brings back, if it is answered. */
    method HeadAnswer(name: Name) returns (h: Head)
      requires Valid()
      modifies this`bucket, this`flying, this`trail, transcript
      ensures transcript.log == old(transcript.log) + [Look(name, h)]
      ensures Valid() && old(trail) <= trail && Aside(old(Now()), Now())
      ensures h != HeadFailed ==> name !in flying
      ensures h == Absent ==> name !in bucket
      ensures h.Found? ==> name in bucket && bucket[name] == h.owner
      ensures h == Found(Ours) ==> old(Now().MayExist(name))
      ensures old(Calm()) ==> Calm() && bucket.Keys == old(bucket.Keys)
      ensures reliable ==> h != HeadFailed && (old(NoForeign()) ==> NoForeign())
    {
      Elsewhere();
      var answered: bool := *;
      h := HeadFailed;
      if answered || reliable {
        Settle(name);
        assert name in bucket && bucket[name] == Ours ==> Now().MayExist(name);
        h := if name in bucket then Found(bucket[name]) else Absent;
      }
      transcript.log := transcript.log + [Look(name, h)];
    }

    /** A DELETE whose request may fail with or without effect. */
    method DeleteObject(name: Name) returns (ok: bool)
      requires Valid() && cleaning && name in bucket && bucket[name] == Ours && name !in flying
      modifies this, transcript
      ensures old(transcript.log) <= transcript.log
      ensures Valid() && old(trail) <= trail && cleaning
      ensures mem.objects == old(mem.objects) && mem.maxRequests == old(mem.maxRequests) && mem.phase == old(mem.phase)
      ensures mem.requests <= old(mem.requests) + 1
      ensures exhausted ==> old(exhausted) || old(mem.requests) >= mem.maxRequests
      ensures reliable && old(mem.requests) < mem.maxRequests ==> ok && !Now().MayExist(name)
      ensures reliable && old(disk == mem) ==> disk == mem
      ensures reliable && old(NoForeign()) ==> NoForeign()
    {
      var r := Reserve(0);
      if r != Granted {
        return false;
      }
      Wire(0);
      ok := Removal(name);
    }

    /** What a DELETE that has left does, and whether it is answered. */
    method Removal(name: Name) returns (ok: bool)
      requires Valid() && name in bucket && bucket[name] == Ours && name !in flying
      modifies this`bucket, this`flying, this`trail
      ensures Valid() && old(trail) <= trail
      ensures reliable ==> ok && !Now().MayExist(name) && (old(NoForeign()) ==> NoForeign())
    {
      Elsewhere();
      var removed: bool := *;
      if removed || reliable {
        Remove(name);
      }
      ok := *;
      ok := ok || reliable;
    }

    method Remove(name: Name)
      requires Valid() && name in bucket && bucket[name] == Ours && name !in flying
      modifies this`bucket, this`trail
      ensures Valid() && old(trail) <= trail && bucket == old(bucket) - {name}
    {
      bucket := bucket - {name};
      Observe();
    }

    /** Lines 365-398: one pass over the recorded objects; a failure leaves its object for a later cleanup. */
    method Clean()
      requires Valid() && !exhausted
      modifies this, transcript
      ensures old(transcript.log) <= transcript.log
      ensures Valid() && old(trail) <= trail && cleaning
      ensures mem.maxRequests == old(mem.maxRequests) && mem.phase == old(mem.phase)
      ensures old(mem.requests) <= mem.maxRequests - CLEANUP_RESERVE ==> !exhausted
      ensures Marks(old(mem.objects), mem.objects) && SeenGone(old(mem.objects), mem.objects, transcript.log)
      ensures reliable && old(NoForeign()) && old(mem.requests) <= mem.maxRequests - CLEANUP_RESERVE && old(disk == mem) ==>
                disk == mem && AllDeleted(disk.objects)
    {
      cleaning := true;
      AtMostThree(mem.objects);
      ghost var start := mem.requests;
      ghost var objects := mem.objects;
      ghost var answered := reliable && NoForeign() && start <= mem.maxRequests - CLEANUP_RESERVE && disk == mem;
      var i := 0;
      while i < |mem.objects|
        invariant Valid() && old(trail) <= trail && cleaning && mem.maxRequests == old(mem.maxRequests)
        invariant mem.phase == old(mem.phase)
        invariant 0 <= i <= |mem.objects| == |objects|
        invariant mem.requests <= start + 3 * i
        invariant start <= mem.maxRequests - CLEANUP_RESERVE ==> !exhausted
        invariant Marks(objects, mem.objects) && old(transcript.log) <= transcript.log && SeenGone(objects, mem.objects, transcript.log)
        invariant answered ==> Cleared(i)
      {
        ghost var before, logged := mem.objects, transcript.log;
        CleanOne(i);
        MarksAreTransitive(objects, before, mem.objects);
        SeenGoneIsTransitive(objects, before, mem.objects, logged, transcript.log);
        i := i + 1;
      }
    }

    /** The first `i` objects are deleted, on disk as in memory. */
    predicate Cleared(i: nat)
      reads this
    {
      NoForeign() && disk == mem && forall k | 0 <= k < i && k < |mem.objects| :: mem.objects[k].state == Deleted
    }

    /** Lines 368-396 for one object. */
    method CleanOne(i: nat)
      requires Valid() && cleaning && i < |mem.objects|
      modifies this, transcript
      ensures old(transcript.log) <= transcript.log
      ensures Valid() && old(trail) <= trail && cleaning && mem.maxRequests == old(mem.maxRequests) && mem.phase == old(mem.phase)
      ensures mem.requests <= old(mem.requests) + 3
      ensures exhausted ==> old(exhausted) || old(mem.requests) + 2 >= mem.maxRequests
      ensures Marks(old(mem.objects), mem.objects)
      ensures SeenGone(old(mem.objects), mem.objects, transcript.log)
      ensures reliable && old(NoForeign()) ==> NoForeign()
      ensures reliable && old(disk == mem) ==> disk == mem
      ensures reliable && old(Cleared(i)) && old(mem.requests) + 3 <= mem.maxRequests ==> Cleared(i + 1)
    {
      if mem.objects[i].state == Pending {
        var gone := RemoveOne(mem.objects[i].name);
        if gone {
          MarkDeleted(i);
        }
      }
    }

    /** Lines 370-391 for one object: true only when a HEAD has just answered 404. */
    method RemoveOne(name: Name) returns (gone: bool)
      requires Valid() && cleaning
      modifies this, transcript
      ensures old(transcript.log) <= transcript.log
      ensures Valid() && old(trail) <= trail && cleaning
      ensures mem.objects == old(mem.objects) && mem.maxRequests == old(mem.maxRequests) && mem.phase == old(mem.phase)
      ensures mem.requests <= old(mem.requests) + 3
      ensures exhausted ==> old(exhausted) || old(mem.requests) + 2 >= mem.maxRequests
      ensures gone ==> !Now().MayExist(name) && transcript.log != [] && transcript.log[|transcript.log| - 1] == Look(name, Absent)
      ensures reliable && old(disk == mem) ==> disk == mem
      ensures reliable && old(NoForeign()) ==> NoForeign()
      ensures reliable && old(NoForeign()) && old(mem.requests) + 3 <= mem.maxRequests ==> gone
    {
      var existing := HeadObject(name);
      match existing {
        case HeadFailed => gone := false;
        case Absent => gone := true;
        case Found(Foreign) => gone := false;
        case Found(Ours) =>
          var ok := DeleteObject(name);
          if !ok {
            return false;
          }
          var after := HeadObject(name);
          gone := after == Absent;
      }
    }

    method MarkDeleted(i: nat)
      requires Valid() && cleaning && i < |mem.objects| && !Now().MayExist(mem.objects[i].name)
      modifies this`mem, this`disk, this`trail
      ensures Valid() && old(trail) <= trail && (reliable ==> disk == mem)
      ensures mem == old(mem).(objects := old(mem.objects)[i := Entry(old(mem.objects)[i].name, Deleted)])
    {
      var marked := mem.objects[i := Entry(mem.objects[i].name, Deleted)];
      MarkedEntries(mem.objects, i);
      mem := mem.(objects := marked);
      var _ := Save();
    }

    /** Lines 402-506, request by request; false as soon as one fails or answers what it should not. */
    method Script(cloudflare: bool) returns (ok: bool)
      requires Valid() && !cleaning && mem.requests <= mem.maxRequests - CLEANUP_RESERVE
      modifies this, transcript
      ensures Done(old(transcript.log), transcript.log, Plan(cloudflare), ok)
      ensures Valid() && old(trail) <= trail && !cleaning && exhausted == old(exhausted)
      ensures mem.maxRequests == old(mem.maxRequests) && mem.requests <= mem.maxRequests - CLEANUP_RESERVE
      ensures ok ==> mem.requests == old(mem.requests) + (if cloudflare then 22 else 16)
      ensures old(Calm() && bucket.Keys == {}) ==> Calm() && (ok <==> old(Room(if cloudflare then 22 else 16)))
    {
      var front := if cloudflare then SETTINGS + [DeniedRecord, BucketHead, DeniedHead] else [BucketHead];
      var back := [AnonymousRead] + if cloudflare then SETTINGS else [];
      assert Plan(cloudflare) == Tries(front) + OBJECTS_PLAN + Tries(back);
      ok := Opening(front);
      if !ok {
        DoneStops(old(transcript.log), transcript.log, Tries(front) + OBJECTS_PLAN, Tries(back));
        return;
      }
      ghost var tried := transcript.log;
      ok := Reads(back);
      DoneThen(old(transcript.log), tried, transcript.log, Tries(front) + OBJECTS_PLAN, Tries(back), ok);
    }

    /** Up to the anonymous read. */
    method Opening(front: seq<Probe>) returns (ok: bool)
      requires Valid() && !cleaning && mem.requests <= mem.maxRequests - CLEANUP_RESERVE
      modifies this, transcript
      ensures Done(old(transcript.log), transcript.log, Tries(front) + OBJECTS_PLAN, ok)
      ensures Valid() && old(trail) <= trail && !cleaning && exhausted == old(exhausted)
      ensures mem.maxRequests == old(mem.maxRequests) && mem.requests <= mem.maxRequests - CLEANUP_RESERVE
      ensures ok ==> mem.requests == old(mem.requests) + |front| + 14
      ensures old(Calm()) ==> Calm() && (old(bucket.Keys) == {} ==> (ok <==> old(Room(|front| + 14))))
    {
      ok := Reads(front);
      if !ok {
        DoneStops(old(transcript.log), transcript.log, Tries(front), OBJECTS_PLAN);
        return;
      }
      ghost var fronted := transcript.log;
      ok := Objects();
      DoneThen(old(transcript.log), fronted, transcript.log, Tries(front), OBJECTS_PLAN, ok);
    }

    /** Lines 432-479. */
    method Objects() returns (ok: bool)
      requires Valid() && !cleaning && mem.requests <= mem.maxRequests - CLEANUP_RESERVE
      modifies this, transcript
      ensures Done(old(transcript.log), transcript.log, OBJECTS_PLAN, ok)
      ensures Valid() && old(trail) <= trail && !cleaning && exhausted == old(exhausted)
      ensures mem.maxRequests == old(mem.maxRequests) && mem.requests <= mem.maxRequests - CLEANUP_RESERVE
      ensures ok ==> mem.requests == old(mem.requests) + 14
      ensures old(Calm()) ==> Calm() && (old(bucket.Keys) == {} ==> (ok <==> old(Room(14))))
    {
      assert OBJECTS_PLAN == LIMITS_PLAN + OTHERS_PLAN;
      ok := CheckLimits();
      if !ok {
        DoneStops(old(transcript.log), transcript.log, LIMITS_PLAN, OTHERS_PLAN);
        return;
      }
      ghost var limited := transcript.log;
      ok := CheckOthers();
      DoneThen(old(transcript.log), limited, transcript.log, LIMITS_PLAN, OTHERS_PLAN, ok);
    }

    /** Lines 432-459. */
    method CheckLimits() returns (ok: bool)
      requires Valid() && !cleaning && mem.requests <= mem.maxRequests - CLEANUP_RESERVE
      modifies this, transcript
      ensures Done(old(transcript.log), transcript.log, LIMITS_PLAN, ok)
      ensures Valid() && old(trail) <= trail && !cleaning && exhausted == old(exhausted)
      ensures mem.maxRequests == old(mem.maxRequests) && mem.requests <= mem.maxRequests - CLEANUP_RESERVE
      ensures ok ==> mem.requests == old(mem.requests) + 8
      ensures old(Calm()) ==> Calm() && (ok ==> bucket.Keys == old(bucket.Keys) + {Immutable})
                              && (Immutable !in old(bucket.Keys) ==> (ok <==> old(Room(8))))
    {
      var limits := [MissingRead, ShortRead];
      assert LIMITS_PLAN == (StoredPlan(Immutable) + KeptPlan(Immutable)) + Tries(limits);
      ok := CheckImmutable();
      if !ok {
        DoneStops(old(transcript.log), transcript.log, StoredPlan(Immutable) + KeptPlan(Immutable), Tries(limits));
        return;
      }
      ghost var immutable := transcript.log;
      ok := Reads(limits);
      DoneThen(old(transcript.log), immutable, transcript.log, StoredPlan(Immutable) + KeptPlan(Immutable), Tries(limits), ok);
    }

    /** Lines 460-479. */
    method CheckOthers() returns (ok: bool)
      requires Valid() && !cleaning && mem.requests <= mem.maxRequests - CLEANUP_RESERVE
      modifies this, transcript
      ensures Done(old(transcript.log), transcript.log, OTHERS_PLAN, ok)
      ensures Valid() && old(trail) <= trail && !cleaning && exhausted == old(exhausted)
      ensures mem.maxRequests == old(mem.maxRequests) && mem.requests <= mem.maxRequests - CLEANUP_RESERVE
      ensures ok ==> mem.requests == old(mem.requests) + 6
      ensures old(Calm()) ==> Calm() && (old(bucket.Keys) == {Immutable} ==> (ok <==> old(Room(6))))
    {
      assert OTHERS_PLAN == [Store(WrongDigest), Try(ObjectRead(WrongDigest))]
                            + (StoredPlan(DiscardedReceipt) + [Refuse(DiscardedReceipt)]);
      ok := PutAndRead(WrongDigest);
      if !ok {
        DoneStops(old(transcript.log), transcript.log, [Store(WrongDigest), Try(ObjectRead(WrongDigest))], StoredPlan(DiscardedReceipt) + [Refuse(DiscardedReceipt)]);
        return;
      }
      ghost var wrong := transcript.log;
      ok := CheckRetry();
      DoneThen(old(transcript.log), wrong, transcript.log, [Store(WrongDigest), Try(ObjectRead(WrongDigest))], StoredPlan(DiscardedReceipt) + [Refuse(DiscardedReceipt)], ok);
    }

    /** Lines 432-437. */
    method CheckImmutable() returns (ok: bool)
      requires Valid() && !cleaning && mem.requests <= mem.maxRequests - CLEANUP_RESERVE
      modifies this, transcript
      ensures Done(old(transcript.log), transcript.log, StoredPlan(Immutable) + KeptPlan(Immutable), ok)
      ensures Valid() && old(trail) <= trail && !cleaning && exhausted == old(exhausted)
      ensures mem.maxRequests == old(mem.maxRequests) && mem.requests <= mem.maxRequests - CLEANUP_RESERVE
      ensures ok ==> mem.requests == old(mem.requests) + 6
      ensures old(Calm()) ==> Calm() && (ok ==> bucket.Keys == old(bucket.Keys) + {Immutable})
                              && (Immutable !in old(bucket.Keys) ==> (ok <==> old(Room(6))))
    {
      ok := CheckStored(Immutable);
      if !ok {
        DoneStops(old(transcript.log), transcript.log, StoredPlan(Immutable), KeptPlan(Immutable));
        return;
      }
      ghost var stored := transcript.log;
      ok := CheckKept(Immutable);
      DoneThen(old(transcript.log), stored, transcript.log, StoredPlan(Immutable), KeptPlan(Immutable), ok);
    }

    /** Lines 432-434, and 475-477. */
    method CheckStored(name: Name) returns (ok: bool)
      requires Valid() && !cleaning && mem.requests <= mem.maxRequests - CLEANUP_RESERVE
      modifies this, transcript
      ensures Done(old(transcript.log), transcript.log, StoredPlan(name), ok)
      ensures Valid() && old(trail) <= trail && !cleaning && exhausted == old(exhausted)
      ensures mem.maxRequests == old(mem.maxRequests) && mem.requests <= mem.maxRequests - CLEANUP_RESERVE
      ensures ok ==> mem.requests == old(mem.requests) + 3
      ensures old(Calm()) ==> Calm() && (ok ==> bucket.Keys == old(bucket.Keys) + {name})
                              && (name !in old(bucket.Keys) ==> (ok <==> old(Room(3))))
    {
      assert StoredPlan(name) == [Store(name), Find(name)] + [Try(ObjectRead(name))];
      ok := PutAndHead(name);
      if !ok {
        DoneStops(old(transcript.log), transcript.log, [Store(name), Find(name)], [Try(ObjectRead(name))]);
        return;
      }
      ghost var found := transcript.log;
      ok := Read(ObjectRead(name));
      DoneThen(old(transcript.log), found, transcript.log, [Store(name), Find(name)], [Try(ObjectRead(name))], ok);
    }

    /** Lines 435-437: neither the same bytes nor others replace the object. */
    method CheckKept(name: Name) returns (ok: bool)
      requires Valid() && !cleaning && mem.requests <= mem.maxRequests - CLEANUP_RESERVE
      modifies this, transcript
      ensures Done(old(transcript.log), transcript.log, KeptPlan(name), ok)
      ensures Valid() && old(trail) <= trail && !cleaning && exhausted == old(exhausted)
      ensures mem.maxRequests == old(mem.maxRequests) && mem.requests <= mem.maxRequests - CLEANUP_RESERVE
      ensures ok ==> mem.requests == old(mem.requests) + 3
      ensures old(Calm()) ==> Calm() && (ok ==> bucket.Keys == old(bucket.Keys) + {name})
                              && (name in old(bucket.Keys) ==> (ok <==> old(Room(3))))
    {
      assert KeptPlan(name) == [Refuse(name), Refuse(name)] + [Try(ObjectRead(name))];
      ok := DeniedTwice(name);
      if !ok {
        DoneStops(old(transcript.log), transcript.log, [Refuse(name), Refuse(name)], [Try(ObjectRead(name))]);
        return;
      }
      ghost var twice := transcript.log;
      ok := Read(ObjectRead(name));
      DoneThen(old(transcript.log), twice, transcript.log, [Refuse(name), Refuse(name)], [Try(ObjectRead(name))], ok);
    }

    method DeniedTwice(name: Name) returns (ok: bool)
      requires Valid() && !cleaning && mem.requests <= mem.maxRequests - CLEANUP_RESERVE
      modifies this, transcript
      ensures Done(old(transcript.log), transcript.log, [Refuse(name), Refuse(name)], ok)
      ensures Valid() && old(trail) <= trail && !cleaning && exhausted == old(exhausted)
      ensures mem.maxRequests == old(mem.maxRequests) && mem.requests <= mem.maxRequests - CLEANUP_RESERVE
      ensures ok ==> mem.requests == old(mem.requests) + 2
      ensures old(Calm()) ==> Calm() && (ok ==> bucket.Keys == old(bucket.Keys) + {name})
                              && (name in old(bucket.Keys) ==> (ok <==> old(Room(2))))
    {
      assert [Refuse(name), Refuse(name)] == [Refuse(name)] + [Refuse(name)];
      ok := Denied(name);
      if !ok {
        DoneStops(old(transcript.log), transcript.log, [Refuse(name)], [Refuse(name)]);
        return;
      }
      ghost var once := transcript.log;
      ok := Denied(name);
      DoneThen(old(transcript.log), once, transcript.log, [Refuse(name)], [Refuse(name)], ok);
    }

    /** Lines 475-478: the first acknowledgement is discarded, then the object is found by its key. */
    method CheckRetry() returns (ok: bool)
      requires Valid() && !cleaning && mem.requests <= mem.maxRequests - CLEANUP_RESERVE
      modifies this, transcript
      ensures Done(old(transcript.log), transcript.log, StoredPlan(DiscardedReceipt) + [Refuse(DiscardedReceipt)], ok)
      ensures Valid() && old(trail) <= trail && !cleaning && exhausted == old(exhausted)
      ensures mem.maxRequests == old(mem.maxRequests) && mem.requests <= mem.maxRequests - CLEANUP_RESERVE
      ensures ok ==> mem.requests == old(mem.requests) + 4
      ensures old(Calm()) ==> Calm() && (ok ==> bucket.Keys == old(bucket.Keys) + {DiscardedReceipt})
                              && (DiscardedReceipt !in old(bucket.Keys) ==> (ok <==> old(Room(4))))
    {
      ok := CheckStored(DiscardedReceipt);
      if !ok {
        DoneStops(old(transcript.log), transcript.log, StoredPlan(DiscardedReceipt), [Refuse(DiscardedReceipt)]);
        return;
      }
      ghost var stored := transcript.log;
      ok := Denied(DiscardedReceipt);
      DoneThen(old(transcript.log), stored, transcript.log, StoredPlan(DiscardedReceipt), [Refuse(DiscardedReceipt)], ok);
    }

    method PutAndHead(name: Name) returns (ok: bool)
      requires Valid() && !cleaning && mem.requests <= mem.maxRequests - CLEANUP_RESERVE
      modifies this, transcript
      ensures Done(old(transcript.log), transcript.log, [Store(name), Find(name)], ok)
      ensures Valid() && old(trail) <= trail && !cleaning && exhausted == old(exhausted)
      ensures mem.maxRequests == old(mem.maxRequests) && mem.requests <= mem.maxRequests - CLEANUP_RESERVE
      ensures ok ==> mem.requests == old(mem.requests) + 2
      ensures old(Calm()) ==> Calm() && (ok ==> bucket.Keys == old(bucket.Keys) + {name})
                              && (name !in old(bucket.Keys) ==> (ok <==> old(Room(2))))
    {
      ok := Stores(name);
      if !ok {
        DoneStops(old(transcript.log), transcript.log, [Store(name)], [Find(name)]);
        return;
      }
      ghost var stored := transcript.log;
      var h := HeadObject(name);
      DoneNone(stored, Find(name));
      DoneOne(stored, Look(name, h), Find(name));
      ok := h.Found?;
      DoneThen(old(transcript.log), stored, transcript.log, [Store(name)], [Find(name)], ok);
    }

    method PutAndRead(name: Name) returns (ok: bool)
      requires Valid() && !cleaning && mem.requests <= mem.maxRequests - CLEANUP_RESERVE
      modifies this, transcript
      ensures Done(old(transcript.log), transcript.log, [Store(name), Try(ObjectRead(name))], ok)
      ensures Valid() && old(trail) <= trail && !cleaning && exhausted == old(exhausted)
      ensures mem.maxRequests == old(mem.maxRequests) && mem.requests <= mem.maxRequests - CLEANUP_RESERVE
      ensures ok ==> mem.requests == old(mem.requests) + 2
      ensures old(Calm()) ==> Calm() && (ok ==> bucket.Keys == old(bucket.Keys) + {name})
                              && (name !in old(bucket.Keys) ==> (ok <==> old(Room(2))))
    {
      ok := Stores(name);
      if !ok {
        DoneStops(old(transcript.log), transcript.log, [Store(name)], [Try(ObjectRead(name))]);
        return;
      }
      ghost var stored := transcript.log;
      ok := Read(ObjectRead(name));
      DoneThen(old(transcript.log), stored, transcript.log, [Store(name)], [Try(ObjectRead(name))], ok);
    }

    /** An upload that has to be stored. */
    method Stores(name: Name) returns (ok: bool)
      requires Valid() && !cleaning && mem.requests <= mem.maxRequests - CLEANUP_RESERVE
      modifies this, transcript
      ensures Done(old(transcript.log), transcript.log, [Store(name)], ok)
      ensures Valid() && old(trail) <= trail && !cleaning && exhausted == old(exhausted)
      ensures mem.maxRequests == old(mem.maxRequests) && mem.requests <= mem.maxRequests - CLEANUP_RESERVE
      ensures ok ==> mem.requests == old(mem.requests) + 1
      ensures old(Calm()) ==> Calm() && (ok ==> bucket.Keys == old(bucket.Keys) + {name})
                              && (name !in old(bucket.Keys) ==> (ok <==> old(Room(1))))
    {
      var p := Put(name);
      DoneNone(old(transcript.log), Store(name));
      DoneOne(old(transcript.log), Upload(name, p), Store(name));
      ok := p == Stored;
    }

    /** An upload that has to be refused because the object exists. */
    method Denied(name: Name) returns (ok: bool)
      requires Valid() && !cleaning && mem.requests <= mem.maxRequests - CLEANUP_RESERVE
      modifies this, transcript
      ensures Done(old(transcript.log), transcript.log, [Refuse(name)], ok)
      ensures Valid() && old(trail) <= trail && !cleaning && exhausted == old(exhausted)
      ensures mem.maxRequests == old(mem.maxRequests) && mem.requests <= mem.maxRequests - CLEANUP_RESERVE
      ensures ok ==> mem.requests == old(mem.requests) + 1
      ensures old(Calm()) ==> Calm() && (ok ==> bucket.Keys == old(bucket.Keys) + {name})
                              && (name in old(bucket.Keys) ==> (ok <==> old(Room(1))))
    {
      var p := Put(name);
      DoneNone(old(transcript.log), Refuse(name));
      DoneOne(old(transcript.log), Upload(name, p), Refuse(name));
      ok := p == AlreadyThere;
    }

    method Reads(probes: seq<Probe>) returns (ok: bool)
      requires Valid() && !cleaning && mem.requests <= mem.maxRequests - CLEANUP_RESERVE
      modifies this, transcript
      ensures Done(old(transcript.log), transcript.log, Tries(probes), ok)
      ensures Valid() && old(trail) <= trail && !cleaning && exhausted == old(exhausted)
      ensures mem.maxRequests == old(mem.maxRequests) && mem.requests <= mem.maxRequests - CLEANUP_RESERVE
      ensures ok ==> mem.requests == old(mem.requests) + |probes|
      ensures old(Calm()) ==> Calm() && bucket.Keys == old(bucket.Keys) && (ok <==> old(Room(|probes|)))
    {
      ok := true;
      for i := 0 to |probes|
        invariant Done(old(transcript.log), transcript.log, Tries(probes[..i]), true)
        invariant Valid() && old(trail) <= trail && !cleaning && exhausted == old(exhausted)
        invariant mem.maxRequests == old(mem.maxRequests) && mem.requests <= mem.maxRequests - CLEANUP_RESERVE
        invariant ok && mem.requests == old(mem.requests) + i
        invariant old(Calm()) ==> Calm() && bucket.Keys == old(bucket.Keys)
      {
        ghost var before := transcript.log;
        assert Tries(probes) == Tries(probes[..i]) + Tries(probes[i..]);
        assert Tries(probes[..i + 1]) == Tries(probes[..i]) + [Try(probes[i])];
        ok := Read(probes[i]);
        DoneThen(old(transcript.log), before, transcript.log, Tries(probes[..i]), [Try(probes[i])], ok);
        if !ok {
          assert Tries(probes) == Tries(probes[..i + 1]) + Tries(probes[i + 1..]);
          DoneStops(old(transcript.log), transcript.log, Tries(probes[..i + 1]), Tries(probes[i + 1..]));
          return;
        }
      }
      assert probes[..|probes|] == probes;
    }

    method SetPhase(phase: Phase) returns (ok: bool)
      requires Valid()
      modifies this`mem, this`disk, this`trail
      ensures Valid() && old(trail) <= trail && mem == old(mem).(phase := phase)
      ensures old(Calm()) ==> ok && Calm()
    {
      mem := mem.(phase := phase);
      ok := Save();
    }

    /** The `run` command. Cleanup always follows, and never lacks request budget. */
    method Run(cloudflare: bool) returns (passed: bool, ghost answers: seq<Exchange>)
      requires Valid() && !cleaning && !exhausted && mem.requests == 0
      modifies this, transcript
      ensures Valid() && old(trail) <= trail
      ensures !exhausted && mem.maxRequests == old(mem.maxRequests)
      ensures passed ==> forall name :: !Now().MayExist(name)
      ensures old(transcript.log) + answers <= transcript.log
      ensures Follows(Plan(cloudflare), answers, true) || (!passed && Follows(Plan(cloudflare), answers, false))
      ensures passed <==> mem.phase == Passed && AllDeleted(mem.objects)
      ensures passed ==> forall e | e in mem.objects :: Look(e.name, Absent) in transcript.log
      ensures passed ==> Uploads(answers) == [(Immutable, Stored), (Immutable, AlreadyThere), (Immutable, AlreadyThere),
                           (WrongDigest, Stored), (DiscardedReceipt, Stored), (DiscardedReceipt, AlreadyThere)]
      ensures passed ==> mem.maxRequests >= if cloudflare then 31 else 25
      ensures old(Calm() && bucket.Keys == {}) ==> (passed <==> mem.maxRequests >= if cloudflare then 31 else 25)
    {
      var ok;
      ok, answers := Perform(cloudflare);
      if ok {
        PassingUploads(cloudflare, answers);
      }
      ghost var calm := Calm();
      ghost var objects := mem.objects;
      Clean();
      passed := Verdict();
      assert forall k | 0 <= k < |objects| :: objects[k] in objects;
      assert calm ==> (passed <==> ok);
    }

    /** The script and its result, on record before cleanup begins. */
    method Perform(cloudflare: bool) returns (ok: bool, ghost answers: seq<Exchange>)
      requires Valid() && !cleaning && mem.requests <= mem.maxRequests - CLEANUP_RESERVE
      modifies this, transcript
      ensures Valid() && old(trail) <= trail && !cleaning && exhausted == old(exhausted)
      ensures mem.maxRequests == old(mem.maxRequests) && mem.requests <= mem.maxRequests - CLEANUP_RESERVE
      ensures transcript.log == old(transcript.log) + answers
      ensures Follows(Plan(cloudflare), answers, true) || (!ok && Follows(Plan(cloudflare), answers, false))
      ensures mem.phase == if ok then Passed else Failed
      ensures ok ==> mem.requests == old(mem.requests) + if cloudflare then 22 else 16
      ensures old(Calm() && bucket.Keys == {}) ==> Calm() && (ok <==> old(Room(if cloudflare then 22 else 16)))
    {
      ok := Script(cloudflare);
      answers := transcript.log[|old(transcript.log)|..];
      if ok {
        ok := SetPhase(Passed);
      }
      if !ok {
        var _ := SetPhase(Failed);
      }
    }

    /** Lines 521-529: an interrupted run does not pass, nor does one that left an object behind. */
    method Verdict() returns (passed: bool)
      requires Valid()
      modifies this`mem, this`disk, this`trail
      ensures Valid() && old(trail) <= trail && mem == old(mem).(phase := mem.phase)
      ensures mem.phase == Failed || mem.phase == old(mem.phase)
      ensures passed <==> mem.phase == Passed && AllDeleted(mem.objects)
      ensures passed ==> forall name :: !Now().MayExist(name)
      ensures reliable ==> mem.phase == old(mem.phase)
    {
      var interrupted: bool := *;
      interrupted := interrupted && !reliable;
      if interrupted {
        var _ := SetPhase(Failed);
      }
      passed := mem.phase == Passed && forall i | 0 <= i < |mem.objects| :: mem.objects[i].state == Deleted;
      if passed {
        NothingLeft();
      }
    }

    lemma NothingLeft()
      requires Valid() && AllDeleted(mem.objects)
      ensures forall name :: !Now().MayExist(name)
    {
      forall name ensures !Now().MayExist(name) {
        if Entry(name, Pending) in disk.objects {
          var e :| e in mem.objects && e.name == name;
          assert e == Entry(name, Deleted);
        }
      }
    }
  }

  // ---------------------------------------------------------------- facts about entries

  lemma LaterIsTransitive(a: Snapshot, b: Snapshot, c: Snapshot)
    requires Later(a, b) && Later(b, c)
    ensures Later(a, c)
  {
  }

  lemma DistinctEntries(objects: seq<Entry>, a: Entry, b: Entry)
    requires DistinctNames(objects) && a in objects && b in objects && a.name == b.name
    ensures a == b
  {
  }

  /** The same objects, some of them deleted since. */
  ghost predicate Marks(a: seq<Entry>, b: seq<Entry>) {
    |a| == |b| && forall k | 0 <= k < |a| :: b[k].name == a[k].name && (a[k].state == Deleted ==> b[k].state == Deleted)
  }

  /** Whatever was marked since was seen to be gone. */
  ghost predicate SeenGone(a: seq<Entry>, b: seq<Entry>, log: seq<Exchange>) {
    |a| == |b| && forall k | 0 <= k < |a| && a[k].state == Pending && b[k].state == Deleted :: Look(b[k].name, Absent) in log
  }

  lemma SeenGoneIsTransitive(a: seq<Entry>, b: seq<Entry>, c: seq<Entry>, log: seq<Exchange>, more: seq<Exchange>)
    requires SeenGone(a, b, log) && SeenGone(b, c, more) && log <= more && Marks(b, c)
    ensures SeenGone(a, c, more)
  {
    forall k | 0 <= k < |a| && a[k].state == Pending && c[k].state == Deleted ensures Look(c[k].name, Absent) in more {
      if b[k].state == Deleted {
        var i :| 0 <= i < |log| && log[i] == Look(b[k].name, Absent);
        assert more[i] == log[i];
      }
    }
  }

  lemma MarksAreTransitive(a: seq<Entry>, b: seq<Entry>, c: seq<Entry>)
    requires Marks(a, b) && Marks(b, c)
    ensures Marks(a, c)
  {
  }

  function Tracked(objects: seq<Entry>, name: Name): seq<Entry> {
    if Lists(objects, name) then objects else objects + [Entry(name, Pending)]
  }

  lemma TrackedEntries(objects: seq<Entry>, name: Name)
    requires DistinctNames(objects)
    ensures var tracked := Tracked(objects, name);
            && DistinctNames(tracked)
            && (forall e | e in objects :: e in tracked)
            && (forall e | e in tracked :: e in objects || e == Entry(name, Pending))
            && ((forall e | e in objects :: e.state == Pending) ==> Entry(name, Pending) in tracked)
  {
    var tracked := Tracked(objects, name);
    if tracked != objects {
      assert tracked == objects + [Entry(name, Pending)];
      assert tracked[|objects|] == Entry(name, Pending);
      forall i, j | 0 <= i < j < |tracked| ensures tracked[i].name != tracked[j].name {
        if j == |objects| {
          assert objects[i] in objects;
        }
      }
    } else if forall e | e in objects :: e.state == Pending {
      var e :| e in objects && e.name == name;
      assert e == Entry(name, Pending);
    }
  }

  lemma PendingIsNotDeleted(objects: seq<Entry>, name: Name)
    requires DistinctNames(objects) && Entry(name, Pending) in objects
    ensures Entry(name, Deleted) !in objects
  {
    if Entry(name, Deleted) in objects {
      DistinctEntries(objects, Entry(name, Pending), Entry(name, Deleted));
    }
  }

  lemma MarkedEntries(objects: seq<Entry>, i: nat)
    requires i < |objects| && DistinctNames(objects)
    ensures var marked := objects[i := Entry(objects[i].name, Deleted)];
            && DistinctNames(marked)
            && (forall name | Entry(name, Deleted) in objects :: Entry(name, Deleted) in marked)
            && (forall name | Entry(name, Deleted) in marked :: Entry(name, Deleted) in objects || name == objects[i].name)
            && (forall name | Lists(objects, name) :: Lists(marked, name))
  {
    var marked := objects[i := Entry(objects[i].name, Deleted)];
    forall e | e in objects
      ensures Lists(marked, e.name) && (e.state == Deleted ==> e in marked)
    {
      var k :| 0 <= k < |objects| && objects[k] == e;
      assert marked[k] in marked && marked[k].name == e.name;
    }
  }

  // ---------------------------------------------------------------- a run and any number of later cleanups

  /** A history of what each crash would have left: safe throughout, and nothing ever goes back. */
  ghost predicate Sound(history: seq<Snapshot>) {
    && (forall i | 0 <= i < |history| :: CrashSafe(history[i]))
    && (forall i, j | 0 <= i <= j < |history| :: Later(history[i], history[j]))
  }

  /** A command that starts from the last state continues the history. */
  lemma SoundContinues(history: seq<Snapshot>, trail: seq<Snapshot>, dies: nat)
    requires Sound(history) && Sound(trail) && dies < |trail|
    requires history != [] && trail[0] == history[|history| - 1]
    ensures Sound(history + trail[..dies + 1])
  {
    var all := history + trail[..dies + 1];
    forall i, j | 0 <= i <= j < |all| ensures Later(all[i], all[j]) {
      if i < |history| <= j {
        LaterIsTransitive(history[i], trail[0], trail[j - |history|]);
      }
    }
  }

  /** A run whose requests are all answered as they should be, on a bucket that holds none of its keys. */
  method AnsweredRun(maxRequests: nat, cloudflare: bool) returns (passed: bool)
    requires 15 <= maxRequests <= 100
    ensures passed <==> maxRequests >= if cloudflare then 31 else 25
  {
    var run := new Qualification.Fresh(maxRequests, true);
    assert run.trail[0] == run.Now();
    ghost var answers;
    passed, answers := run.Run(cloudflare);
  }

  /** A run dies at any point, and each of `cleanups` later commands dies at any point; `history` holds every
      state in between. */
  method Lifetime(maxRequests: nat, cloudflare: bool, cleanups: nat) returns (history: seq<Snapshot>)
    requires 15 <= maxRequests <= 100
    ensures history != [] && Sound(history) && history[0] == Snapshot(Manifest(maxRequests, 0, 0, Running, []), map[], {}, 0, 0)
    ensures forall s | s in history ::
              s.wire <= s.disk.requests <= maxRequests && s.wireBytes <= s.disk.putBytes <= MAX_BYTES
  {
    var first := new Qualification.Fresh(maxRequests, false);
    var start := first.trail;
    ghost var answers;
    var passed;
    passed, answers := first.Run(cloudflare);
    assert start <= first.trail && first.trail[0] == start[0];
    var dies: nat :| dies < |first.trail|;
    history := first.trail[..dies + 1];
    for n := 0 to cleanups
      invariant history != [] && Sound(history)
      invariant history[0] == Snapshot(Manifest(maxRequests, 0, 0, Running, []), map[], {}, 0, 0)
    {
      var end := history[|history| - 1];
      var next := new Qualification.Resume(end, false);
      next.Clean();
      assert next.trail[0] == end;
      dies :| dies < |next.trail|;
      SoundContinues(history, next.trail, dies);
      history := history + next.trail[..dies + 1];
    }
    assert forall i | 0 <= i < |history| :: Later(history[0], history[i]);
  }
}
