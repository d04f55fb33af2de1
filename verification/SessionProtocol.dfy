/** Every caller of the session cache at once: looks, single-flight mints, re-mints after a
    rejection, external forgets, capacity changes and network switches, interleaved at the grain of
    the locks the crate takes. One action is one lock-protected region (or one outcome of the
    network), and callers are unbounded in number. */
module SessionProtocol {
  import opened Common
  import opened RecencyList

  /** A minted session: which mint produced it and which network client that mint used. */
  datatype Session = Session(serial: nat, client: nat)

  /** What a caller of the single-flight section will take from the cache instead of minting. */
  datatype Want = Anything | NewerThan(stamp: nat)

  predicate Satisfies(want: Want, minted: nat) {
    want.NewerThan? ==> minted > want.stamp
  }

  /** The SDK's typed errors, as far as the rejection rule tells them apart. */
  datatype Error = Authentication | Server(status: nat) | OtherError

  /** Errors that a new session could cure: the homeserver turned this one down. */
  predicate Rejected(error: Error) {
    match error
    case Authentication => true
    case Server(status) => status == 401 || status == 403
    case OtherError => false
  }

  datatype Outcome = Succeeded | FailedWith(error: Error)

  predicate Refusal(outcome: Outcome) {
    outcome.FailedWith? && Rejected(outcome.error)
  }

  /** One run of a caller's operation, and the mint stamp of the session it ran on. */
  datatype Attempt = Attempt(stamp: nat, outcome: Outcome)

  /** What single-flight answers: a session with its stamp, or the typed error of a failed import. */
  datatype Answer = Got(session: Session, stamp: nat) | ImportFailed(error: Error)

  /** What a caller is told went wrong: its import, or its operation. */
  datatype Failure = ImportFailure(error: Error) | OpFailure(error: Error)

  function FailureOf(answer: Answer): Option<Failure> {
    if answer.ImportFailed? then Some(ImportFailure(answer.error)) else None
  }

  datatype Job = SessionFor | Refresh | WithSession

  datatype Phase =
    | Entering                                    // the job's own first look is next
    | FastLook                                    // get_or_mint's look before single-flight
    | Joining                                     // about to clone the secret's lock
    | Queued(lock: nat)                           // cloned, waiting for the lock
    | Holding(lock: nat)                          // locked, the look under the lock is next
    | Stale(lock: nat)                            // nothing newer cached: forget it before minting
    | Importing(lock: nat)                        // about to read the network client
    | Minting(lock: nat, session: Session)        // round trip in flight
    | Storing(lock: nat, session: Session)        // round trip succeeded, not remembered yet
    | BodyDone(lock: nat, answer: Answer)         // still locked
    | Released(lock: nat, answer: Answer)         // unlocked, reference count not checked yet
    | Dropping(lock: nat, answer: Answer)         // checked, own clone not dropped yet
    | Running(session: Session, stamp: nat, warm: bool)
    | Finished(answer: Answer, failure: Option<Failure>)

  predicate HasClone(p: Phase) {
    p.Queued? || InBody(p) || p.Released? || p.Dropping?
  }

  /** Between locking and unlocking the secret's lock. */
  predicate InBody(p: Phase) {
    p.Holding? || p.Stale? || p.Importing? || p.Minting? || p.Storing? || p.BodyDone?
  }

  /** Between cloning the lock and checking its reference count. */
  predicate Registered(p: Phase) {
    p.Queued? || InBody(p) || p.Released?
  }

  /** From the decision to mint until the result is remembered. */
  predicate MintUnderway(p: Phase) {
    p.Importing? || p.Minting? || p.Storing?
  }

  datatype Caller = Caller(secret: Secret, job: Job, want: Want, phase: Phase, attempts: seq<Attempt>)

  datatype State = State(
    cache: Cache<Session>,
    locks: map<Secret, nat>,
    nextLock: nat,
    callers: map<nat, Caller>,
    client: nat,
    switching: bool,      // a switch holds the client's mutex and has not cleared the cache yet
    nextSerial: nat)

  datatype Action =
    | Arrive(c: nat, secret: Secret, job: Job)
    | Look(c: nat)
    | Join(c: nat)
    | Acquire(c: nat)
    | Purge(c: nat)
    | Import(c: nat)
    | Mint(c: nat, outcome: Outcome)
    | Store(c: nat)
    | Release(c: nat)
    | Reclaim(c: nat)
    | DropClone(c: nat)
    | Operate(c: nat, outcome: Outcome)
    | Forget(secret: Secret)
    | SetCapacity(capacity: nat)
    | SwitchSet
    | SwitchClear

  function Initial(capacity: nat): State {
    State(Cache(AtLeastOne(capacity), 0, []), map[], 0, map[], 0, false, 0)
  }

  function CloneHolders(s: State, lock: nat): set<nat> {
    set c | c in s.callers && HasClone(s.callers[c].phase) && s.callers[c].phase.lock == lock
  }

  function MapHolders(s: State, lock: nat): set<Secret> {
    set k | k in s.locks && s.locks[k] == lock
  }

  /** The reference count of a lock: the map's references and the callers' clones. */
  function StrongCount(s: State, lock: nat): nat {
    |CloneHolders(s, lock)| + |MapHolders(s, lock)|
  }

  predicate LockFree(s: State, lock: nat) {
    forall d :: d in s.callers && InBody(s.callers[d].phase) ==> s.callers[d].phase.lock != lock
  }

  predicate Enabled(s: State, a: Action) {
    match a
    case Arrive(c, _, _) => c !in s.callers
    case Look(c) =>
      && c in s.callers
      && (s.callers[c].phase.Entering? || s.callers[c].phase.FastLook? || s.callers[c].phase.Holding?)
    case Join(c) => c in s.callers && s.callers[c].phase.Joining?
    case Acquire(c) => c in s.callers && s.callers[c].phase.Queued? && LockFree(s, s.callers[c].phase.lock)
    case Purge(c) => c in s.callers && s.callers[c].phase.Stale?
    case Import(c) => c in s.callers && s.callers[c].phase.Importing? && !s.switching
    case Mint(c, _) => c in s.callers && s.callers[c].phase.Minting?
    case Store(c) => c in s.callers && s.callers[c].phase.Storing? && 1 <= s.cache.capacity
    case Release(c) => c in s.callers && s.callers[c].phase.BodyDone?
    case Reclaim(c) => c in s.callers && s.callers[c].phase.Released?
    case DropClone(c) => c in s.callers && s.callers[c].phase.Dropping?
    case Operate(c, _) => c in s.callers && s.callers[c].phase.Running?
    case Forget(_) => true
    case SetCapacity(_) => true
    case SwitchSet => !s.switching
    case SwitchClear => s.switching
  }

  /** A caller with its single-flight (or fast-path) answer in hand. */
  function Deliver(k: Caller, answer: Answer): Caller {
    if k.job.WithSession? && answer.Got? then k.(phase := Running(answer.session, answer.stamp, false))
    else k.(phase := Finished(answer, FailureOf(answer)))
  }

  /** One look at the cache: the first look of a job, the fast path, or the look under the lock. */
  function Looked(cache: Cache<Session>, k: Caller): Caller
    requires k.phase.Entering? || k.phase.FastLook? || k.phase.Holding?
  {
    var hit := Has(cache, k.secret);
    if k.phase.Holding? then
      if hit && Satisfies(k.want, SlotOf(cache, k.secret).minted)
      then k.(phase := BodyDone(k.phase.lock, Got(SlotOf(cache, k.secret).value, SlotOf(cache, k.secret).minted)))
      else if k.want.Anything? then k.(phase := Importing(k.phase.lock))
      else k.(phase := Stale(k.phase.lock))
    else if k.phase.FastLook? then
      if hit then Deliver(k, Got(SlotOf(cache, k.secret).value, SlotOf(cache, k.secret).minted))
      else k.(phase := Joining, want := Anything)
    else if k.job.Refresh?
    then k.(phase := Joining, want := NewerThan(if hit then SlotOf(cache, k.secret).minted else 0))
    else if k.job.WithSession? && hit
    then k.(phase := Running(SlotOf(cache, k.secret).value, SlotOf(cache, k.secret).minted, true))
    else k.(phase := FastLook)
  }

  /** The operation ran: a rejection of a cached session asks for one minted later, once. */
  function Operated(k: Caller, outcome: Outcome): Caller
    requires k.phase.Running?
  {
    var k' := k.(attempts := k.attempts + [Attempt(k.phase.stamp, outcome)]);
    if k.phase.warm && Refusal(outcome) then k'.(phase := Joining, want := NewerThan(k.phase.stamp))
    else
      k'.(phase := Finished(Got(k.phase.session, k.phase.stamp),
                            if outcome.FailedWith? then Some(OpFailure(outcome.error)) else None))
  }

  function With(s: State, c: nat, k: Caller): State {
    s.(callers := s.callers[c := k])
  }

  function Joined(s: State, c: nat): State
    requires c in s.callers
  {
    var k := s.callers[c];
    if k.secret in s.locks then With(s, c, k.(phase := Queued(s.locks[k.secret])))
    else With(s.(locks := s.locks[k.secret := s.nextLock], nextLock := s.nextLock + 1),
              c, k.(phase := Queued(s.nextLock)))
  }

  /** The map's entry goes when the count says the map and this caller hold the only references. */
  function Reclaimed(s: State, c: nat): State
    requires c in s.callers && s.callers[c].phase.Released?
  {
    var k := s.callers[c];
    var s' := With(s, c, k.(phase := Dropping(k.phase.lock, k.phase.answer)));
    if StrongCount(s, k.phase.lock) == 2 then s'.(locks := s.locks - {k.secret}) else s'
  }

  function Stored(s: State, c: nat): State
    requires c in s.callers && s.callers[c].phase.Storing? && 1 <= s.cache.capacity
  {
    var k := s.callers[c];
    var session := k.phase.session;
    var cache := Put(s.cache, k.secret, session);
    With(s, c, k.(phase := BodyDone(k.phase.lock, Got(session, cache.clock)))).(cache := cache)
  }

  function Apply(s: State, a: Action): State
    requires Enabled(s, a)
  {
    match a
    case Arrive(c, secret, job) =>
      With(s, c, Caller(secret, job, Anything, if job.SessionFor? then FastLook else Entering, []))
    case Look(c) =>
      With(s, c, Looked(s.cache, s.callers[c])).(cache := Touch(s.cache, s.callers[c].secret))
    case Join(c) => Joined(s, c)
    case Acquire(c) => With(s, c, s.callers[c].(phase := Holding(s.callers[c].phase.lock)))
    case Purge(c) =>
      With(s, c, s.callers[c].(phase := Importing(s.callers[c].phase.lock)))
      .(cache := Drop(s.cache, s.callers[c].secret))
    case Import(c) =>
      With(s, c, s.callers[c].(phase := Minting(s.callers[c].phase.lock, Session(s.nextSerial, s.client))))
      .(nextSerial := s.nextSerial + 1)
    case Mint(c, outcome) =>
      var k := s.callers[c];
      With(s, c, k.(phase := if outcome.Succeeded? then Storing(k.phase.lock, k.phase.session)
                             else BodyDone(k.phase.lock, ImportFailed(outcome.error))))
    case Store(c) => Stored(s, c)
    case Release(c) =>
      With(s, c, s.callers[c].(phase := Released(s.callers[c].phase.lock, s.callers[c].phase.answer)))
    case Reclaim(c) => Reclaimed(s, c)
    case DropClone(c) => With(s, c, Deliver(s.callers[c], s.callers[c].phase.answer))
    case Operate(c, outcome) => With(s, c, Operated(s.callers[c], outcome))
    case Forget(secret) => s.(cache := Drop(s.cache, secret))
    case SetCapacity(capacity) => s.(cache := Resize(s.cache, capacity))
    case SwitchSet => s.(client := s.client + 1, switching := true)
    case SwitchClear => s.(cache := Wipe(s.cache), switching := false)
  }

  // ----- Invariants -----

  predicate LocksOk(s: State) {
    && (forall k :: k in s.locks ==> s.locks[k] < s.nextLock)
    && (forall k, l :: k in s.locks && l in s.locks && s.locks[k] == s.locks[l] ==> k == l)
  }

  /** A caller between its clone and its count check shares the lock the map has for its secret. */
  predicate SharesLock(s: State, k: Caller) {
    && (Registered(k.phase) ==> k.secret in s.locks && s.locks[k.secret] == k.phase.lock)
    && (HasClone(k.phase) ==> k.phase.lock < s.nextLock)
  }

  predicate Exclusive(s: State) {
    forall c, d ::
      (&& c in s.callers && d in s.callers
       && InBody(s.callers[c].phase) && InBody(s.callers[d].phase)
       && s.callers[c].phase.lock == s.callers[d].phase.lock) ==> c == d
  }

  /** While a mint is under way nothing is cached for its secret, and a caller about to forget its
      secret has nothing cached that it would have taken. */
  predicate Vacant(s: State, k: Caller) {
    && (MintUnderway(k.phase) ==> !Has(s.cache, k.secret))
    && (k.phase.Stale? && Has(s.cache, k.secret) ==> !Satisfies(k.want, SlotOf(s.cache, k.secret).minted))
  }

  predicate AnswerOk(s: State, want: Want, answer: Answer) {
    answer.Got? ==> answer.stamp <= s.cache.clock && Satisfies(want, answer.stamp)
  }

  /** Stamps a caller knows were issued, and the answer it carries satisfies what it asked for. */
  predicate Fresh(s: State, k: Caller) {
    && (k.want.NewerThan? ==> k.want.stamp <= s.cache.clock)
    && (k.phase.BodyDone? || k.phase.Released? || k.phase.Dropping? ==> AnswerOk(s, k.want, k.phase.answer))
    && (k.phase.Running? ==> k.phase.stamp <= s.cache.clock)
    && (k.phase.Minting? || k.phase.Storing? ==> k.phase.session.client <= s.client)
  }

  predicate FirstRefused(attempts: seq<Attempt>) {
    |attempts| == 1 && Refusal(attempts[0].outcome)
  }

  /** At most two runs, the second only after a rejection and on a session stamped later. */
  predicate RetryContract(attempts: seq<Attempt>) {
    && |attempts| <= 2
    && (|attempts| == 2 ==> Refusal(attempts[0].outcome) && attempts[1].stamp > attempts[0].stamp)
  }

  predicate Disciplined(k: Caller) {
    match k.phase
    case Entering => k.attempts == []
    case FastLook => k.attempts == []
    case Running(_, stamp, warm) =>
      k.attempts == [] || (!warm && FirstRefused(k.attempts) && stamp > k.attempts[0].stamp)
    case Finished(_, _) => RetryContract(k.attempts)
    case _ =>
      k.attempts == [] || (FirstRefused(k.attempts) && k.want == NewerThan(k.attempts[0].stamp))
  }

  predicate CallerOk(s: State, k: Caller) {
    SharesLock(s, k) && Vacant(s, k) && Fresh(s, k) && Disciplined(k)
  }

  ghost predicate Inv(s: State) {
    && WellFormed(s.cache)
    && LocksOk(s)
    && Exclusive(s)
    && (forall c :: c in s.callers ==> CallerOk(s, s.callers[c]))
  }

  // ----- Every step keeps the invariant -----

  /** `cache'` holds for `secret` at most what `cache` held, and its clock is no earlier. */
  predicate NoMoreThan(cache: Cache<Session>, cache': Cache<Session>, secret: Secret) {
    && cache.clock <= cache'.clock
    && (Has(cache', secret) ==> Has(cache, secret) && SlotOf(cache', secret) == SlotOf(cache, secret))
  }

  /** A caller that does not move stays in order when its lock stays and its secret gains nothing. */
  lemma Undisturbed(s: State, s': State, k: Caller)
    requires CallerOk(s, k)
    requires s.nextLock <= s'.nextLock && s.client <= s'.client
    requires Registered(k.phase) ==> k.secret in s'.locks && s'.locks[k.secret] == s.locks[k.secret]
    requires s.cache.clock <= s'.cache.clock
    requires MintUnderway(k.phase) || k.phase.Stale? ==> NoMoreThan(s.cache, s'.cache, k.secret)
    ensures CallerOk(s', k)
  {
  }

  /** One caller moves; the rest is as before. */
  lemma OneMoves(s: State, s': State, c: nat, k: Caller)
    requires Inv(s) && s'.callers == s.callers[c := k]
    requires WellFormed(s'.cache) && LocksOk(s') && CallerOk(s', k)
    requires InBody(k.phase) ==> forall d :: d in s.callers && d != c && InBody(s.callers[d].phase) ==>
                                   s.callers[d].phase.lock != k.phase.lock
    requires forall d :: d in s.callers && d != c ==> CallerOk(s', s.callers[d])
    ensures Inv(s')
  {
    hide CallerOk, LocksOk;
  }

  predicate CallerOnly(a: Action) {
    a.Arrive? || a.Acquire? || a.Import? || a.Mint? || a.Release? || a.DropClone? || a.Operate?
  }

  /** The caller an action moves, after the move. */
  function Moved(s: State, a: Action): Caller
    requires Enabled(s, a) && CallerOnly(a)
  {
    Apply(s, a).callers[a.c]
  }

  lemma MovedDisciplined(s: State, a: Action)
    requires Enabled(s, a) && CallerOnly(a)
    requires !a.Arrive? ==> CallerOk(s, s.callers[a.c])
    ensures Disciplined(Moved(s, a))
  {
    hide SharesLock, Vacant;
    if !a.Arrive? {
      var k := s.callers[a.c];
      assert Disciplined(k) && Fresh(s, k);
      if a.Operate? { assert k.phase.Running?; }
    }
  }

  lemma MovedCallerOk(s: State, a: Action)
    requires Enabled(s, a) && CallerOnly(a)
    requires !a.Arrive? ==> CallerOk(s, s.callers[a.c])
    ensures CallerOk(Apply(s, a), Moved(s, a))
  {
    MovedDisciplined(s, a);
    hide Disciplined;
  }

  lemma CallerOnlyKeepsInv(s: State, a: Action)
    requires Inv(s) && Enabled(s, a) && CallerOnly(a)
    ensures Inv(Apply(s, a))
  {
    var s' := Apply(s, a);
    var k := s'.callers[a.c];
    MovedCallerOk(s, a);
    assert s'.callers == s.callers[a.c := k] && s'.cache == s.cache && s'.locks == s.locks && s'.nextLock == s.nextLock;
    forall d | d in s.callers && d != a.c
      ensures CallerOk(s', s.callers[d])
    {
      hide CallerOk;
      Undisturbed(s, s', s.callers[d]);
    }
    hide CallerOk;
    OneMoves(s, s', a.c, k);
  }

  lemma TouchGainsNothing(cache: Cache<Session>, secret: Secret)
    requires WellFormed(cache)
    ensures WellFormed(Touch(cache, secret))
    ensures forall other :: NoMoreThan(cache, Touch(cache, secret), other)
  {
    TouchKeepsWellFormed(cache, secret);
    forall other ensures NoMoreThan(cache, Touch(cache, secret), other) {
      TouchBySecret(cache, secret, other);
    }
  }

  lemma DropGainsNothing(cache: Cache<Session>, secret: Secret)
    requires WellFormed(cache)
    ensures WellFormed(Drop(cache, secret)) && !Has(Drop(cache, secret), secret)
    ensures forall other :: NoMoreThan(cache, Drop(cache, secret), other)
  {
    DropKeepsWellFormed(cache, secret);
    forall other ensures NoMoreThan(cache, Drop(cache, secret), other) {
      DropBySecret(cache, secret, other);
    }
  }

  lemma ResizeGainsNothing(cache: Cache<Session>, capacity: nat)
    requires WellFormed(cache)
    ensures WellFormed(Resize(cache, capacity))
    ensures forall other :: NoMoreThan(cache, Resize(cache, capacity), other)
  {
    forall other ensures WellFormed(Resize(cache, capacity)) && NoMoreThan(cache, Resize(cache, capacity), other) {
      ResizeBySecret(cache, capacity, other);
    }
    ResizeBySecret(cache, capacity, Secret(""));
  }

  /** The caller a look moves, under the cache the look leaves. */
  lemma LookedOk(s: State, k: Caller, s': State)
    requires WellFormed(s.cache) && CallerOk(s, k)
    requires k.phase.Entering? || k.phase.FastLook? || k.phase.Holding?
    requires s'.locks == s.locks && s'.nextLock == s.nextLock && s'.client == s.client
    requires s'.cache.clock == s.cache.clock + 1
    requires NoMoreThan(s.cache, s'.cache, k.secret)
    ensures CallerOk(s', Looked(s.cache, k))
  {
    if Has(s.cache, k.secret) {
      var i := IndexOf(s.cache.slots, k.secret);
      assert SlotOf(s.cache, k.secret) == s.cache.slots[i];
    }
  }

  lemma LookKeepsInv(s: State, a: Action)
    requires Inv(s) && Enabled(s, a) && a.Look?
    ensures Inv(Apply(s, a))
  {
    var s' := Apply(s, a);
    var k := s.callers[a.c];
    TouchGainsNothing(s.cache, k.secret);
    assert NoMoreThan(s.cache, s'.cache, k.secret);
    LookedOk(s, k, s');
    forall d | d in s.callers && d != a.c
      ensures CallerOk(s', s.callers[d])
    {
      hide CallerOk, NoMoreThan;
      assert NoMoreThan(s.cache, s'.cache, s.callers[d].secret);
      Undisturbed(s, s', s.callers[d]);
    }
    hide CallerOk, NoMoreThan;
    OneMoves(s, s', a.c, Looked(s.cache, k));
  }

  lemma JoinKeepsInv(s: State, a: Action)
    requires Inv(s) && Enabled(s, a) && a.Join?
    ensures Inv(Apply(s, a))
  {
    var s' := Apply(s, a);
    var k := s.callers[a.c];
    assert CallerOk(s, k);
    var k' := k.(phase := Queued(if k.secret in s.locks then s.locks[k.secret] else s.nextLock));
    assert s'.callers == s.callers[a.c := k'] && s'.cache == s.cache;
    forall d | d in s.callers && d != a.c
      ensures CallerOk(s', s.callers[d])
    {
      assert CallerOk(s, s.callers[d]);
      Undisturbed(s, s', s.callers[d]);
    }
    hide WellFormed;
    assert CallerOk(s', k');
    OneMoves(s, s', a.c, k');
  }

  lemma PurgeKeepsInv(s: State, a: Action)
    requires Inv(s) && Enabled(s, a) && a.Purge?
    ensures Inv(Apply(s, a))
  {
    var s' := Apply(s, a);
    var k := s.callers[a.c];
    DropGainsNothing(s.cache, k.secret);
    assert CallerOk(s, k);
    var k' := k.(phase := Importing(k.phase.lock));
    assert CallerOk(s', k');
    forall d | d in s.callers && d != a.c
      ensures CallerOk(s', s.callers[d])
    {
      hide CallerOk, NoMoreThan;
      assert NoMoreThan(s.cache, s'.cache, s.callers[d].secret);
      Undisturbed(s, s', s.callers[d]);
    }
    hide CallerOk, NoMoreThan;
    OneMoves(s, s', a.c, k');
  }

  /** Under one secret's lock there is one caller: whoever else is in a body has another secret. */
  lemma BodiesDiffer(s: State, c: nat, d: nat)
    requires Inv(s) && c in s.callers && d in s.callers && c != d
    requires InBody(s.callers[c].phase) && InBody(s.callers[d].phase)
    ensures s.callers[c].secret != s.callers[d].secret
  {
    assert CallerOk(s, s.callers[c]) && CallerOk(s, s.callers[d]);
  }

  lemma StoreKeepsInv(s: State, a: Action)
    requires Inv(s) && Enabled(s, a) && a.Store?
    ensures Inv(Apply(s, a))
  {
    var s' := Apply(s, a);
    var k := s.callers[a.c];
    PutKeepsWellFormed(s.cache, k.secret, k.phase.session);
    assert CallerOk(s, k);
    var k' := s'.callers[a.c];
    assert CallerOk(s', k');
    forall d | d in s.callers && d != a.c
      ensures CallerOk(s', s.callers[d])
    {
      hide CallerOk, WellFormed;
      if InBody(s.callers[d].phase) {
        BodiesDiffer(s, a.c, d);
        PutBySecret(s.cache, k.secret, k.phase.session, s.callers[d].secret);
      }
      Undisturbed(s, s', s.callers[d]);
    }
    hide CallerOk;
    OneMoves(s, s', a.c, k');
  }

  /** The count is two only when no other caller holds a clone. */
  lemma TwoMeansAlone(s: State, c: nat, d: nat)
    requires c in s.callers && HasClone(s.callers[c].phase)
    requires d in s.callers && HasClone(s.callers[d].phase)
    requires s.callers[c].phase.lock == s.callers[d].phase.lock && c != d
    requires s.callers[c].secret in s.locks && s.locks[s.callers[c].secret] == s.callers[c].phase.lock
    ensures StrongCount(s, s.callers[c].phase.lock) > 2
  {
    var lock := s.callers[c].phase.lock;
    assert {c, d} <= CloneHolders(s, lock);
    SubsetSize({c, d}, CloneHolders(s, lock));
    assert s.callers[c].secret in MapHolders(s, lock);
    SubsetSize({s.callers[c].secret}, MapHolders(s, lock));
  }

  /** A lock leaves the map only when no other caller is between its clone and its count check. */
  lemma RemovedWhenAlone(s: State, c: nat, d: nat)
    requires Inv(s) && c in s.callers && s.callers[c].phase.Released?
    requires StrongCount(s, s.callers[c].phase.lock) == 2
    requires d in s.callers && d != c && Registered(s.callers[d].phase)
    ensures s.callers[d].secret != s.callers[c].secret
  {
    assert CallerOk(s, s.callers[c]) && CallerOk(s, s.callers[d]);
    if s.callers[d].secret == s.callers[c].secret {
      TwoMeansAlone(s, c, d);
    }
  }

  lemma ReclaimKeepsInv(s: State, a: Action)
    requires Inv(s) && Enabled(s, a) && a.Reclaim?
    ensures Inv(Apply(s, a))
  {
    hide StrongCount;
    var s' := Apply(s, a);
    var k := s.callers[a.c];
    assert CallerOk(s, k);
    var k' := k.(phase := Dropping(k.phase.lock, k.phase.answer));
    assert CallerOk(s', k');
    forall d | d in s.callers && d != a.c
      ensures CallerOk(s', s.callers[d])
    {
      assert CallerOk(s, s.callers[d]);
      if StrongCount(s, k.phase.lock) == 2 && Registered(s.callers[d].phase) {
        RemovedWhenAlone(s, a.c, d);
      }
      Undisturbed(s, s', s.callers[d]);
    }
    hide CallerOk, WellFormed;
    OneMoves(s, s', a.c, k');
  }

  predicate External(a: Action) {
    a.Forget? || a.SetCapacity? || a.SwitchSet? || a.SwitchClear?
  }

  lemma ExternalGainsNothing(s: State, a: Action)
    requires WellFormed(s.cache) && Enabled(s, a) && External(a)
    ensures WellFormed(Apply(s, a).cache)
    ensures forall secret :: NoMoreThan(s.cache, Apply(s, a).cache, secret)
  {
    match a
    case Forget(secret) => DropGainsNothing(s.cache, secret);
    case SetCapacity(capacity) => ResizeGainsNothing(s.cache, capacity);
    case _ =>
  }

  lemma ExternalKeepsInv(s: State, a: Action)
    requires Inv(s) && Enabled(s, a) && External(a)
    ensures Inv(Apply(s, a))
  {
    var s' := Apply(s, a);
    ExternalGainsNothing(s, a);
    forall d | d in s'.callers
      ensures CallerOk(s', s'.callers[d])
    {
      hide CallerOk;
      assert NoMoreThan(s.cache, s'.cache, s.callers[d].secret);
      Undisturbed(s, s', s.callers[d]);
    }
  }

  lemma StepKeepsInv(s: State, a: Action)
    requires Inv(s) && Enabled(s, a)
    ensures Inv(Apply(s, a))
  {
    hide Inv, Apply, Enabled;
    if CallerOnly(a) { CallerOnlyKeepsInv(s, a); }
    else if External(a) { ExternalKeepsInv(s, a); }
    else if a.Look? { LookKeepsInv(s, a); }
    else if a.Join? { JoinKeepsInv(s, a); }
    else if a.Purge? { PurgeKeepsInv(s, a); }
    else if a.Store? { StoreKeepsInv(s, a); }
    else { ReclaimKeepsInv(s, a); }
  }

  // ----- One caller's step -----

  predicate Moves(a: Action, c: nat) {
    match a
    case Arrive(d, _, _) => d == c
    case Look(d) => d == c
    case Join(d) => d == c
    case Acquire(d) => d == c
    case Purge(d) => d == c
    case Import(d) => d == c
    case Mint(d, _) => d == c
    case Store(d) => d == c
    case Release(d) => d == c
    case Reclaim(d) => d == c
    case DropClone(d) => d == c
    case Operate(d, _) => d == c
    case _ => false
  }

  /** The caller `k` becomes `k'` by its own step `a`, at a cache of this content. */
  predicate Becomes(k: Caller, k': Caller, a: Action, cache: Cache<Session>) {
    match a
    case Look(_) => (k.phase.Entering? || k.phase.FastLook? || k.phase.Holding?) && k' == Looked(cache, k)
    case Join(_) => k.phase.Joining? && k'.phase.Queued? && k' == k.(phase := k'.phase)
    case Acquire(_) => k.phase.Queued? && k' == k.(phase := Holding(k.phase.lock))
    case Purge(_) => k.phase.Stale? && k' == k.(phase := Importing(k.phase.lock))
    case Import(_) => k.phase.Importing? && k'.phase.Minting? && k' == k.(phase := k'.phase)
    case Mint(_, outcome) =>
      && k.phase.Minting?
      && k' == k.(phase := if outcome.Succeeded? then Storing(k.phase.lock, k.phase.session)
                           else BodyDone(k.phase.lock, ImportFailed(outcome.error)))
    case Store(_) =>
      k.phase.Storing? && k' == k.(phase := BodyDone(k.phase.lock, Got(k.phase.session, cache.clock + 1)))
    case Release(_) => k.phase.BodyDone? && k' == k.(phase := Released(k.phase.lock, k.phase.answer))
    case Reclaim(_) => k.phase.Released? && k' == k.(phase := Dropping(k.phase.lock, k.phase.answer))
    case DropClone(_) => k.phase.Dropping? && k' == Deliver(k, k.phase.answer)
    case Operate(_, outcome) => k.phase.Running? && k' == Operated(k, outcome)
    case _ => false
  }

  /** A caller arrives, stands, or takes its own step. */
  lemma CallerStep(s: State, a: Action, c: nat)
    requires Enabled(s, a)
    ensures c in s.callers ==> c in Apply(s, a).callers
    ensures c in s.callers && !Moves(a, c) ==> Apply(s, a).callers[c] == s.callers[c]
    ensures c in s.callers && Moves(a, c) ==> Becomes(s.callers[c], Apply(s, a).callers[c], a, s.cache)
    ensures c !in s.callers && c in Apply(s, a).callers ==>
              && a.Arrive? && a.c == c
              && Apply(s, a).callers[c]
                 == Caller(a.secret, a.job, Anything, if a.job.SessionFor? then FastLook else Entering, [])
  {
    hide StrongCount, Looked, Operated, Touch, Drop, Wipe, Resize;
  }
}
