/** What holds in every run of the session protocol, from an empty cache of any capacity, for any
    number of callers and any interleaving. */
module SessionRuns {
  import opened Common
  import opened RecencyList
  import opened SessionProtocol

  type Run = Trace<State, Action>

  ghost predicate StepAt(r: Run, i: nat)
    requires i < |r.acts| < |r.states|
  {
    Enabled(r.states[i], r.acts[i]) && r.states[i + 1] == Apply(r.states[i], r.acts[i])
  }

  ghost predicate Valid(r: Run) {
    && |r.states| == |r.acts| + 1
    && r.states[0] == Initial(r.states[0].cache.capacity)
    && forall i :: 0 <= i < |r.acts| ==> StepAt(r, i)
  }

  /** Step `i` of the run is the action `a`. */
  ghost predicate Does(r: Run, i: nat, a: Action) {
    i < |r.acts| < |r.states| && r.acts[i] == a && StepAt(r, i)
  }

  lemma {:induction false} RunInv(r: Run, i: nat)
    requires Valid(r) && i < |r.states|
    ensures Inv(r.states[i])
    decreases i
  {
    if i > 0 {
      RunInv(r, i - 1);
      assert StepAt(r, i - 1);
      StepKeepsInv(r.states[i - 1], r.acts[i - 1]);
    }
  }

  /** The step that led to state `i`. */
  lemma StepTo(r: Run, i: nat)
    requires Valid(r) && 0 < i < |r.states|
    ensures i - 1 < |r.acts| && Inv(r.states[i - 1])
    ensures Enabled(r.states[i - 1], r.acts[i - 1]) && r.states[i] == Apply(r.states[i - 1], r.acts[i - 1])
  {
    assert StepAt(r, i - 1);
    RunInv(r, i - 1);
  }

  /** No two callers are ever inside the single-flight body of one secret, so no two mint it. */
  lemma OneMintPerSecret(r: Run, i: nat, c: nat, d: nat)
    requires Valid(r) && i < |r.states|
    requires c in r.states[i].callers && d in r.states[i].callers && c != d
    requires InBody(r.states[i].callers[c].phase) && InBody(r.states[i].callers[d].phase)
    ensures r.states[i].callers[c].secret != r.states[i].callers[d].secret
  {
    RunInv(r, i);
    BodiesDiffer(r.states[i], c, d);
  }

  /** Callers of one secret that have cloned a lock and not yet checked its count share one lock,
      which is the one the map has. */
  lemma LiveCallersShareTheLock(r: Run, i: nat, c: nat, d: nat)
    requires Valid(r) && i < |r.states|
    requires c in r.states[i].callers && d in r.states[i].callers
    requires Registered(r.states[i].callers[c].phase) && Registered(r.states[i].callers[d].phase)
    requires r.states[i].callers[c].secret == r.states[i].callers[d].secret
    ensures r.states[i].callers[c].secret in r.states[i].locks
    ensures r.states[i].callers[c].phase.lock == r.states[i].callers[d].phase.lock
         == r.states[i].locks[r.states[i].callers[c].secret]
  {
    RunInv(r, i);
    assert CallerOk(r.states[i], r.states[i].callers[c]) && CallerOk(r.states[i], r.states[i].callers[d]);
  }

  /** From the decision to mint until the result is remembered, nothing is cached for the secret. */
  lemma NothingCachedDuringAMint(r: Run, i: nat, c: nat)
    requires Valid(r) && i < |r.states|
    requires c in r.states[i].callers && MintUnderway(r.states[i].callers[c].phase)
    ensures !Has(r.states[i].cache, r.states[i].callers[c].secret)
  {
    RunInv(r, i);
    assert CallerOk(r.states[i], r.states[i].callers[c]);
  }

  /** What single-flight hands out satisfies what its caller asked for: after a re-mint, a session
      stamped later than the one that failed. */
  lemma RemintIsNewer(r: Run, i: nat, c: nat)
    requires Valid(r) && Does(r, i, DropClone(c))
    requires r.states[i].callers[c].phase.answer.Got?
    ensures Satisfies(r.states[i].callers[c].want, r.states[i].callers[c].phase.answer.stamp)
  {
    RunInv(r, i);
    assert CallerOk(r.states[i], r.states[i].callers[c]);
  }

  /** An operation runs at most twice, the second time only after a rejection and on a session
      stamped later than the rejected one. */
  lemma AtMostOneRetry(r: Run, i: nat, c: nat)
    requires Valid(r) && i < |r.states| && c in r.states[i].callers
    ensures RetryContract(r.states[i].callers[c].attempts)
  {
    RunInv(r, i);
    assert CallerOk(r.states[i], r.states[i].callers[c]);
  }

  // ----- Mints of one secret are separated -----

  predicate HasFor(cache: Cache<Session>, secret: Secret, want: Want) {
    Has(cache, secret) && Satisfies(want, SlotOf(cache, secret).minted)
  }

  /** The removals of a cached session: a forget of its secret, a clear, a capacity its place in the
      list is beyond, another secret's mint into a full cache of which it is the least recently used,
      or a re-mint by a caller that saw it fail. */
  predicate Removes(s: State, a: Action, secret: Secret) {
    && Has(s.cache, secret)
    && match a
       case Forget(forgotten) => forgotten == secret
       case SetCapacity(capacity) => IndexOf(s.cache.slots, secret) >= AtLeastOne(capacity)
       case SwitchClear => true
       case Store(c) => c in s.callers && s.callers[c].secret != secret && NextToGo(s.cache, secret)
       case Purge(c) => && c in s.callers && s.callers[c].secret == secret
                        && !Satisfies(s.callers[c].want, SlotOf(s.cache, secret).minted)
       case _ => false
  }

  /** A step keeps a cached slot as it is, or it is one of the removals: exactly these remove. */
  lemma SlotFate(s: State, a: Action, secret: Secret)
    requires Inv(s) && Enabled(s, a) && Has(s.cache, secret)
    ensures Has(Apply(s, a).cache, secret) ==> SlotOf(Apply(s, a).cache, secret) == SlotOf(s.cache, secret)
    ensures !Has(Apply(s, a).cache, secret) <==> Removes(s, a, secret)
  {
    match a
    case Look(c) => TouchBySecret(s.cache, s.callers[c].secret, secret);
    case Purge(c) =>
      assert CallerOk(s, s.callers[c]);
      DropBySecret(s.cache, s.callers[c].secret, secret);
    case Store(c) =>
      assert CallerOk(s, s.callers[c]);
      PutBySecret(s.cache, s.callers[c].secret, s.callers[c].phase.session, secret);
      PutEvicts(s.cache, s.callers[c].secret, s.callers[c].phase.session, secret);
    case Forget(forgotten) => DropBySecret(s.cache, forgotten, secret);
    case SetCapacity(capacity) => ResizeBySecret(s.cache, capacity, secret);
    case _ =>
  }

  /** Step `k` takes away a cached session of `secret` that would have satisfied `want`. */
  ghost predicate LostAt(r: Run, k: nat, secret: Secret, want: Want)
    requires Valid(r) && k < |r.acts|
  {
    HasFor(r.states[k].cache, secret, want) && !Has(r.states[k + 1].cache, secret)
  }

  lemma {:induction false} KeptUnlessRemoved(r: Run, secret: Secret, want: Want, i: nat, j: nat)
    requires Valid(r) && i <= j < |r.states| && HasFor(r.states[i].cache, secret, want)
    requires forall k :: i <= k < j ==> !LostAt(r, k, secret, want)
    ensures HasFor(r.states[j].cache, secret, want)
    ensures SlotOf(r.states[j].cache, secret) == SlotOf(r.states[i].cache, secret)
    decreases j
  {
    if i < j {
      KeptUnlessRemoved(r, secret, want, i, j - 1);
      assert !LostAt(r, j - 1, secret, want);
      StepTo(r, j);
      SlotFate(r.states[j - 1], r.acts[j - 1], secret);
    }
  }

  /** Two mints of one secret: if the first one's session would have satisfied the second caller,
      then in between it (or a session that also would have) was cached and is gone one step later,
      by one of the removals; and where a re-mint removed it, that was by a caller whose own stale
      stamp was not below the removed one's. */
  lemma MintsAreSeparated(r: Run, i: nat, j: nat, c: nat, d: nat) returns (k: nat)
    requires Valid(r) && i < j && Does(r, i, Store(c)) && Does(r, j, Import(d))
    requires r.states[i].callers[c].secret == r.states[j].callers[d].secret
    requires Satisfies(r.states[j].callers[d].want, r.states[i].cache.clock + 1)
    ensures i < k < j
    ensures LostAt(r, k, r.states[i].callers[c].secret, r.states[j].callers[d].want)
    ensures Removes(r.states[k], r.acts[k], r.states[i].callers[c].secret)
    ensures r.acts[k].Purge? ==>
              var stale := r.states[k].callers[r.acts[k].c].want;
              stale.NewerThan? && stale.stamp >= SlotOf(r.states[k].cache, r.states[i].callers[c].secret).minted
  {
    var secret := r.states[i].callers[c].secret;
    var want := r.states[j].callers[d].want;
    hide Apply, Enabled, SlotOf, Has, Removes;
    StoredIsCached(r, i, c);
    NothingCachedDuringAMint(r, j, d);
    if forall k :: i + 1 <= k < j ==> !LostAt(r, k, secret, want) {
      KeptUnlessRemoved(r, secret, want, i + 1, j);
      assert false;
    }
    k :| i + 1 <= k < j && LostAt(r, k, secret, want);
    LossIsARemoval(r, k, secret, want);
  }

  lemma LossIsARemoval(r: Run, k: nat, secret: Secret, want: Want)
    requires Valid(r) && k < |r.acts| && LostAt(r, k, secret, want)
    ensures Removes(r.states[k], r.acts[k], secret)
    ensures r.acts[k].Purge? ==>
              && r.acts[k].c in r.states[k].callers
              && var stale := r.states[k].callers[r.acts[k].c].want;
                 stale.NewerThan? && stale.stamp >= SlotOf(r.states[k].cache, secret).minted
  {
    StepTo(r, k + 1);
    hide Apply, Enabled, Inv;
    SlotFate(r.states[k], r.acts[k], secret);
  }

  lemma StoredIsCached(r: Run, i: nat, c: nat)
    requires Valid(r) && Does(r, i, Store(c))
    ensures c in r.states[i].callers
    ensures var s := r.states[i];
            && Has(r.states[i + 1].cache, s.callers[c].secret)
            && SlotOf(r.states[i + 1].cache, s.callers[c].secret)
               == Slot(s.callers[c].secret, s.callers[c].phase.session, s.cache.clock + 1)
  {
    RunInv(r, i);
    var k := r.states[i].callers[c];
    PutBySecret(r.states[i].cache, k.secret, k.phase.session, k.secret);
  }

  /** A caller that looks under the lock after another's mint takes that session instead of minting,
      unless the session was removed in between. */
  lemma LaterCallersReuse(r: Run, i: nat, j: nat, c: nat, d: nat)
    requires Valid(r) && i < j && Does(r, i, Store(c)) && Does(r, j, Look(d)) && r.states[j].callers[d].phase.Holding?
    requires r.states[i].callers[c].secret == r.states[j].callers[d].secret
    requires Satisfies(r.states[j].callers[d].want, r.states[i].cache.clock + 1)
    requires forall k :: i < k < j ==> !LostAt(r, k, r.states[i].callers[c].secret, r.states[j].callers[d].want)
    ensures r.states[j + 1].callers[d].phase ==
              BodyDone(r.states[j].callers[d].phase.lock,
                       Got(r.states[i].callers[c].phase.session, r.states[i].cache.clock + 1))
  {
    hide Apply, Enabled, SlotOf, Has, LostAt;
    StoredIsCached(r, i, c);
    LookUnderLock(r, j, d);
    KeptUnlessRemoved(r, r.states[i].callers[c].secret, r.states[j].callers[d].want, i + 1, j);
  }

  /** The look under the lock answers from the cache whenever what is cached satisfies the caller. */
  lemma LookUnderLock(r: Run, j: nat, d: nat)
    requires Valid(r) && Does(r, j, Look(d)) && r.states[j].callers[d].phase.Holding?
    ensures d in r.states[j].callers
    ensures var s, k := r.states[j], r.states[j].callers[d];
            HasFor(s.cache, k.secret, k.want) ==>
              r.states[j + 1].callers[d].phase ==
                BodyDone(k.phase.lock, Got(SlotOf(s.cache, k.secret).value, SlotOf(s.cache, k.secret).minted))
  {
  }

  /** On the way from the look under the lock to the mint. */
  predicate AboutToMint(p: Phase) {
    p.Stale? || p.Importing?
  }

  /** `d` looked under its secret's lock at `i`, found nothing it would take, and has been about to
      mint ever since, up to `m`. */
  ghost predicate UnsatisfiedSince(r: Run, d: nat, i: nat, m: nat) {
    && m < |r.states| && Does(r, i, Look(d)) && d in r.states[i].callers && r.states[i].callers[d].phase.Holding?
    && !HasFor(r.states[i].cache, r.states[i].callers[d].secret, r.states[i].callers[d].want)
    && forall k :: i < k <= m ==> d in r.states[k].callers && AboutToMint(r.states[k].callers[d].phase)
  }

  lemma StepIntoMint(s: State, a: Action, d: nat)
    requires Enabled(s, a) && d in Apply(s, a).callers && AboutToMint(Apply(s, a).callers[d].phase)
    ensures d in s.callers
    ensures AboutToMint(s.callers[d].phase)
         || (&& a == Look(d) && s.callers[d].phase.Holding?
             && !HasFor(s.cache, s.callers[d].secret, s.callers[d].want))
  {
    hide Apply, Enabled;
    CallerStep(s, a, d);
  }

  /** Whoever is about to mint looked under its secret's lock and found nothing it would take. */
  lemma {:induction false} MintsFollowAnUnsatisfiedLook(r: Run, m: nat, d: nat) returns (i: nat)
    requires Valid(r) && m < |r.states| && d in r.states[m].callers && AboutToMint(r.states[m].callers[d].phase)
    ensures i < m && UnsatisfiedSince(r, d, i, m)
    decreases m
  {
    assert m > 0;
    StepTo(r, m);
    StepIntoMint(r.states[m - 1], r.acts[m - 1], d);
    hide Apply, Enabled, Inv;
    if AboutToMint(r.states[m - 1].callers[d].phase) {
      i := MintsFollowAnUnsatisfiedLook(r, m - 1, d);
    } else {
      i := m - 1;
      assert StepAt(r, i);
    }
  }

  /** From that look until the mint's result is remembered, nothing the caller would have taken is
      cached for its secret. */
  lemma NothingWantedDuringAMint(r: Run, m: nat, d: nat)
    requires Valid(r) && m < |r.states| && d in r.states[m].callers
    requires AboutToMint(r.states[m].callers[d].phase) || MintUnderway(r.states[m].callers[d].phase)
    ensures !HasFor(r.states[m].cache, r.states[m].callers[d].secret, r.states[m].callers[d].want)
  {
    RunInv(r, m);
    assert CallerOk(r.states[m], r.states[m].callers[d]);
  }

  // ----- Network switches -----

  predicate InFlight(p: Phase) {
    p.Minting? || p.Storing?
  }

  ghost predicate InFlightWith(s: State, c: nat, session: Session) {
    c in s.callers && InFlight(s.callers[c].phase) && s.callers[c].phase.session == session
  }

  /** A mint in flight was begun by an import that read the client it is using, and has been in
      flight ever since. */
  lemma {:induction false} MintBegan(r: Run, m: nat, c: nat) returns (i: nat)
    requires Valid(r) && m < |r.states| && c in r.states[m].callers && InFlight(r.states[m].callers[c].phase)
    ensures i < m && Does(r, i, Import(c))
    ensures r.states[m].callers[c].phase.session == Session(r.states[i].nextSerial, r.states[i].client)
    ensures forall k :: i < k <= m ==> InFlightWith(r.states[k], c, r.states[m].callers[c].phase.session)
    decreases m
  {
    assert m > 0;
    StepTo(r, m);
    var s, a := r.states[m - 1], r.acts[m - 1];
    if a == Import(c) {
      i := m - 1;
    } else {
      StepIntoFlight(s, a, c);
      hide Apply, Enabled, Inv;
      i := MintBegan(r, m - 1, c);
    }
  }

  lemma StepIntoFlight(s: State, a: Action, c: nat)
    requires Enabled(s, a) && a != Import(c)
    requires c in Apply(s, a).callers && InFlight(Apply(s, a).callers[c].phase)
    ensures c in s.callers && InFlight(s.callers[c].phase)
    ensures s.callers[c].phase.session == Apply(s, a).callers[c].phase.session
  {
    hide Apply, Enabled;
    CallerStep(s, a, c);
  }

  /** The client changes only when a switch sets it. */
  lemma {:induction false} ClientChangesBySwitch(r: Run, i: nat, j: nat) returns (k: nat)
    requires Valid(r) && i <= j < |r.states| && r.states[i].client < r.states[j].client
    ensures i <= k < j && Does(r, k, SwitchSet)
    decreases j
  {
    StepTo(r, j);
    if r.acts[j - 1] == SwitchSet {
      k := j - 1;
    } else {
      assert r.states[j - 1].client == r.states[j].client;
      k := ClientChangesBySwitch(r, i, j - 1);
    }
  }

  /** A switch that has set the client and not cleared the cache yet is still under way. */
  lemma {:induction false} SwitchStaysOpen(r: Run, k: nat, m: nat)
    requires Valid(r) && k < m < |r.states| && Does(r, k, SwitchSet)
    requires forall j :: k < j < m ==> r.acts[j] != SwitchClear
    ensures r.states[m].switching
    decreases m
  {
    StepTo(r, m);
    if k + 1 < m { SwitchStaysOpen(r, k, m - 1); }
  }

  /** The cached slot of `secret` at `m` is what caller `c` stored at `j`. */
  ghost predicate FromStore(r: Run, c: nat, j: nat, m: nat, secret: Secret) {
    && Does(r, j, Store(c)) && c in r.states[j].callers && r.states[j].callers[c].secret == secret
    && r.states[j].callers[c].phase.Storing?
    && m < |r.states| && Has(r.states[m].cache, secret)
    && SlotOf(r.states[m].cache, secret)
       == Slot(secret, r.states[j].callers[c].phase.session, r.states[j].cache.clock + 1)
  }

  /** Whatever is cached was put there by the mint of a caller, has been cached ever since, and no
      switch has cleared the cache. */
  lemma {:induction false} CachedByStore(r: Run, m: nat, secret: Secret) returns (c: nat, j: nat)
    requires Valid(r) && m < |r.states| && Has(r.states[m].cache, secret)
    ensures j < m && forall k :: j < k <= m ==> FromStore(r, c, j, k, secret)
    ensures FromStore(r, c, j, m, secret) && forall k :: j <= k < m ==> r.acts[k] != SwitchClear
    decreases m
  {
    hide *;
    CachedStep(r, m, secret);
    if r.acts[m - 1].Store? && FromStore(r, r.acts[m - 1].c, m - 1, m, secret) {
      c, j := r.acts[m - 1].c, m - 1;
    } else {
      c, j := CachedByStore(r, m - 1, secret);
      SameSlotFromStore(r, c, j, m, secret);
    }
  }

  lemma CachedStep(r: Run, m: nat, secret: Secret)
    requires Valid(r) && m < |r.states| && Has(r.states[m].cache, secret)
    ensures 0 < m && m - 1 < |r.acts| && |r.states| == |r.acts| + 1 && r.acts[m - 1] != SwitchClear
    ensures || (r.acts[m - 1].Store? && FromStore(r, r.acts[m - 1].c, m - 1, m, secret))
            || (&& Has(r.states[m - 1].cache, secret)
                && SlotOf(r.states[m - 1].cache, secret) == SlotOf(r.states[m].cache, secret))
  {
    assert m > 0;
    StepTo(r, m);
    var s, a := r.states[m - 1], r.acts[m - 1];
    hide Apply, Inv, SlotOf;
    if a.Store? && s.callers[a.c].secret == secret {
      assert StepAt(r, m - 1);
      StoredIsCached(r, m - 1, a.c);
    } else {
      SlotCameFrom(s, a, secret);
    }
  }

  lemma SameSlotFromStore(r: Run, c: nat, j: nat, m: nat, secret: Secret)
    requires 0 < m < |r.states| && FromStore(r, c, j, m - 1, secret) && Has(r.states[m].cache, secret)
    requires SlotOf(r.states[m - 1].cache, secret) == SlotOf(r.states[m].cache, secret)
    ensures FromStore(r, c, j, m, secret)
  {
    hide SlotOf, Has;
  }

  lemma SlotCameFrom(s: State, a: Action, secret: Secret)
    requires Inv(s) && Enabled(s, a) && Has(Apply(s, a).cache, secret)
    requires !(a.Store? && s.callers[a.c].secret == secret)
    ensures Has(s.cache, secret) && SlotOf(s.cache, secret) == SlotOf(Apply(s, a).cache, secret) && a != SwitchClear
  {
    hide Inv, Apply;
    NewSlotsAreStored(s, a, secret);
    SlotFate(s, a, secret);
  }

  lemma {:induction false} ClockOnlyGrows(r: Run, i: nat, j: nat)
    requires Valid(r) && i <= j < |r.states|
    ensures r.states[i].cache.clock <= r.states[j].cache.clock
    decreases j
  {
    if i < j {
      ClockOnlyGrows(r, i, j - 1);
      StepTo(r, j);
    }
  }

  /** Nothing cached before a switch survives it: what is cached after it was minted after it. */
  lemma NoneSurvivesASwitch(r: Run, k: nat, m: nat, secret: Secret)
    requires Valid(r) && k < m < |r.states| && Does(r, k, SwitchClear) && Has(r.states[m].cache, secret)
    ensures SlotOf(r.states[m].cache, secret).minted > r.states[k].cache.clock
  {
    var c, j := CachedByStore(r, m, secret);
    ClockOnlyGrows(r, k, j);
  }

  ghost predicate SwitchedBetween(r: Run, i: nat, j: nat) {
    exists k, e :: i < k < e < j && Does(r, k, SwitchSet) && Does(r, e, SwitchClear)
  }

  /** Where a cached session comes from: an import at `i` and a store at `j` of one caller. The mint
      was in flight at every switch finished since its import; and once switches are over, the session
      is of an older client exactly when a switch was set and cleared between the two. */
  lemma OldSessionsWereInFlight(r: Run, m: nat, secret: Secret) returns (c: nat, i: nat, j: nat)
    requires Valid(r) && m < |r.states| && Has(r.states[m].cache, secret)
    ensures i < j < m && Does(r, i, Import(c)) && Does(r, j, Store(c))
    ensures SlotOf(r.states[m].cache, secret).value == Session(r.states[i].nextSerial, r.states[i].client)
    ensures forall k :: i < k < m && r.acts[k] == SwitchClear ==>
              k < j && InFlightWith(r.states[k], c, SlotOf(r.states[m].cache, secret).value)
    ensures !r.states[m].switching ==>
              (SlotOf(r.states[m].cache, secret).value.client != r.states[m].client <==> SwitchedBetween(r, i, j))
  {
    c, j := CachedByStore(r, m, secret);
    i := MintBegan(r, j, c);
    if !r.states[m].switching && r.states[i].client != r.states[m].client {
      SwitchInBetween(r, i, j, m);
    }
    if SwitchedBetween(r, i, j) {
      SwitchMovesOn(r, i, j, m);
    }
  }

  lemma SwitchMovesOn(r: Run, i: nat, j: nat, m: nat)
    requires Valid(r) && j < m < |r.states| && SwitchedBetween(r, i, j)
    ensures r.states[i].client < r.states[m].client
  {
    var k, e :| i < k < e < j && Does(r, k, SwitchSet) && Does(r, e, SwitchClear);
    ClientOnlyGrows(r, i, k);
    ClientOnlyGrows(r, k + 1, m);
  }

  lemma SwitchInBetween(r: Run, i: nat, j: nat, m: nat)
    requires Valid(r) && i < j < m < |r.states| && !r.states[m].switching && r.states[i].client != r.states[m].client
    requires r.acts[i] != SwitchSet && forall k :: j <= k < m ==> r.acts[k] != SwitchClear
    ensures SwitchedBetween(r, i, j)
  {
    hide Apply, Enabled;
    ClientOnlyGrows(r, i, m);
    var k := ClientChangesBySwitch(r, i, m);
    if forall e :: k < e < m ==> r.acts[e] != SwitchClear {
      SwitchStaysOpen(r, k, m);
      assert false;
    }
    var e :| k < e < m && r.acts[e] == SwitchClear;
    assert StepAt(r, e);
    assert Does(r, e, SwitchClear);
  }

  lemma {:induction false} ClientOnlyGrows(r: Run, i: nat, j: nat)
    requires Valid(r) && i <= j < |r.states|
    ensures r.states[i].client <= r.states[j].client
    decreases j
  {
    if i < j {
      ClientOnlyGrows(r, i, j - 1);
      StepTo(r, j);
    }
  }

  /** Every cached session and every mint in flight belongs to the current client. */
  predicate Clean(s: State) {
    && !s.switching
    && (forall i :: 0 <= i < |s.cache.slots| ==> s.cache.slots[i].value.client == s.client)
    && (forall c :: c in s.callers && InFlight(s.callers[c].phase) ==> s.callers[c].phase.session.client == s.client)
  }

  lemma SlotsBySecret(s: State, secret: Secret)
    requires Clean(s) && Has(s.cache, secret)
    ensures SlotOf(s.cache, secret).value.client == s.client
  {
    assert SlotOf(s.cache, secret) == s.cache.slots[IndexOf(s.cache.slots, secret)];
  }

  lemma CleanCacheStep(s: State, a: Action, i: nat)
    requires Inv(s) && Enabled(s, a) && Clean(s) && a != SwitchSet
    requires i < |Apply(s, a).cache.slots|
    ensures Apply(s, a).cache.slots[i].value.client == s.client
  {
    var s' := Apply(s, a);
    var secret := s'.cache.slots[i].secret;
    StepKeepsInv(s, a);
    FoundIsOnly(s'.cache, secret, i);
    hide CallerOk;
    if a.Store? && s.callers[a.c].secret == secret {
      PutBySecret(s.cache, secret, s.callers[a.c].phase.session, secret);
    } else {
      SlotCameFrom(s, a, secret);
      SlotsBySecret(s, secret);
    }
  }

  lemma NewSlotsAreStored(s: State, a: Action, secret: Secret)
    requires Inv(s) && Enabled(s, a) && Has(Apply(s, a).cache, secret)
    requires !(a.Store? && s.callers[a.c].secret == secret)
    ensures Has(s.cache, secret)
  {
    match a
    case Look(c) => TouchBySecret(s.cache, s.callers[c].secret, secret);
    case Purge(c) => DropBySecret(s.cache, s.callers[c].secret, secret);
    case Store(c) => PutBySecret(s.cache, s.callers[c].secret, s.callers[c].phase.session, secret);
    case Forget(forgotten) => DropBySecret(s.cache, forgotten, secret);
    case SetCapacity(capacity) => ResizeBySecret(s.cache, capacity, secret);
    case _ =>
  }

  lemma CleanFlightStep(s: State, a: Action, c: nat)
    requires Enabled(s, a) && Clean(s) && a != SwitchSet
    requires c in Apply(s, a).callers && InFlight(Apply(s, a).callers[c].phase)
    ensures Apply(s, a).callers[c].phase.session.client == s.client
  {
    if a != Import(c) { StepIntoFlight(s, a, c); }
  }

  lemma SameClient(s: State, a: Action)
    requires Enabled(s, a) && a != SwitchSet
    ensures Apply(s, a).client == s.client && (!s.switching ==> !Apply(s, a).switching)
  {
  }

  lemma CleanStep(s: State, a: Action)
    requires Inv(s) && Enabled(s, a) && Clean(s) && a != SwitchSet
    ensures Clean(Apply(s, a))
  {
    var s' := Apply(s, a);
    assert s'.client == s.client && !s'.switching by { SameClient(s, a); }
    hide Inv, Apply, Enabled;
    forall i | 0 <= i < |s'.cache.slots|
      ensures s'.cache.slots[i].value.client == s'.client
    {
      CleanCacheStep(s, a, i);
    }
    forall c | c in s'.callers && InFlight(s'.callers[c].phase)
      ensures s'.callers[c].phase.session.client == s'.client
    {
      CleanFlightStep(s, a, c);
    }
  }

  /** A switch that finishes with no older mint in flight leaves a clean cache ... */
  lemma QuietSwitchIsClean(s: State)
    requires s.switching && forall c :: c in s.callers ==> !InFlight(s.callers[c].phase)
    ensures Clean(Apply(s, SwitchClear))
  {
  }

  /** ... and it stays clean in every later state until the next switch. */
  lemma {:induction false} CleanUntilNextSwitch(r: Run, i: nat, j: nat)
    requires Valid(r) && i <= j < |r.states| && Clean(r.states[i])
    requires forall k :: i <= k < j ==> r.acts[k] != SwitchSet
    ensures Clean(r.states[j])
    decreases j
  {
    if i < j {
      CleanUntilNextSwitch(r, i, j - 1);
      StepTo(r, j);
      CleanStep(r.states[j - 1], r.acts[j - 1]);
    }
  }

  /** After a switch that found no mint in flight, every cached session belongs to the current client
      in every later state until the next switch. */
  lemma CleanAfterAQuietSwitch(r: Run, i: nat, j: nat, secret: Secret)
    requires Valid(r) && i < j < |r.states| && Does(r, i, SwitchClear)
    requires forall c :: c in r.states[i].callers ==> !InFlight(r.states[i].callers[c].phase)
    requires forall k :: i < k < j ==> r.acts[k] != SwitchSet
    ensures Has(r.states[j].cache, secret) ==> SlotOf(r.states[j].cache, secret).value.client == r.states[j].client
  {
    QuietSwitchIsClean(r.states[i]);
    CleanUntilNextSwitch(r, i + 1, j);
    if Has(r.states[j].cache, secret) { SlotsBySecret(r.states[j], secret); }
  }

  // ----- A mint in flight across a switch -----

  const SECRET := Secret("s")

  const LATE := [
    Arrive(0, SECRET, SessionFor), Look(0), Join(0), Acquire(0), Look(0), Import(0),
    SwitchSet, SwitchClear, Mint(0, Succeeded), Store(0)]

  function LatePhase(i: nat): Phase {
    if i <= 1 then FastLook else if i == 2 then Joining else if i == 3 then Queued(0) else if i == 4 then Holding(0)
    else if i == 5 then Importing(0) else if i <= 8 then Minting(0, Session(0, 0))
    else if i == 9 then Storing(0, Session(0, 0)) else BodyDone(0, Got(Session(0, 0), 3))
  }

  function LateState(i: nat): State {
    var clock := if i < 2 then 0 else if i < 5 then 1 else if i < 10 then 2 else 3;
    State(Cache(4, clock, if i < 10 then [] else [Slot(SECRET, Session(0, 0), 3)]),
          if i < 3 then map[] else map[SECRET := 0], if i < 3 then 0 else 1,
          if i == 0 then map[] else map[0 := Caller(SECRET, SessionFor, Anything, LatePhase(i), [])],
          if i < 7 then 0 else 1, i == 7, if i < 6 then 0 else 1)
  }

  lemma LateStep(i: nat)
    requires i < 10
    ensures Enabled(LateState(i), LATE[i]) && Apply(LateState(i), LATE[i]) == LateState(i + 1)
  {
  }

  /** A switch does not stop a mint in flight: its session, of the client before, is cached after. */
  lemma AnOldSessionCanBeCached() returns (r: Run)
    ensures Valid(r) && |r.acts| == 10 && Does(r, 7, SwitchClear) && !r.states[10].switching
    ensures r.states[10].cache.slots == [Slot(SECRET, Session(0, 0), 3)] && r.states[10].client == 1
  {
    r := Trace(seq(11, i requires i >= 0 => LateState(i)), LATE);
    forall i | 0 <= i < |r.acts|
      ensures StepAt(r, i)
    {
      LateStep(i);
    }
    assert StepAt(r, 7);
  }
}
