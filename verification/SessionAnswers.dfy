/** Where the sessions come from that callers are given, and when an operation is tried again: stated
    over the steps of a run, not over what callers ask for. */
module SessionAnswers {
  import opened Common
  import opened RecencyList
  import opened SessionProtocol
  import opened SessionRuns

  // ----- Where answers come from -----

  /** The session a caller has been given, with its stamp. */
  function Given(p: Phase): Option<(Session, nat)> {
    match p
    case BodyDone(_, Got(session, stamp)) => Some((session, stamp))
    case Released(_, Got(session, stamp)) => Some((session, stamp))
    case Dropping(_, Got(session, stamp)) => Some((session, stamp))
    case Running(session, stamp, _) => Some((session, stamp))
    case Finished(Got(session, stamp), _) => Some((session, stamp))
    case _ => None
  }

  predicate GivenTo(s: State, c: nat, x: (Session, nat)) {
    c in s.callers && Given(s.callers[c].phase) == Some(x)
  }

  /** The step gives `x` to `c`: from the cache at a look, or from its own mint. */
  predicate Gives(s: State, a: Action, c: nat, x: (Session, nat)) {
    && c in s.callers
    && (|| (&& a == Look(c) && Has(s.cache, s.callers[c].secret)
            && x == (SlotOf(s.cache, s.callers[c].secret).value, SlotOf(s.cache, s.callers[c].secret).minted))
        || (a == Store(c) && s.callers[c].phase.Storing? && x == (s.callers[c].phase.session, s.cache.clock + 1)))
  }

  lemma GivenStep(s: State, a: Action, c: nat, x: (Session, nat))
    requires Enabled(s, a) && GivenTo(Apply(s, a), c, x)
    ensures c in s.callers && s.callers[c].secret == Apply(s, a).callers[c].secret
    ensures s.callers[c].job == Apply(s, a).callers[c].job
    ensures GivenTo(s, c, x) || Gives(s, a, c, x)
  {
    hide Apply, Enabled;
    CallerStep(s, a, c);
  }

  lemma {:induction false} GivenAt(r: Run, i: nat, c: nat, x: (Session, nat)) returns (m: nat)
    requires Valid(r) && i < |r.states| && GivenTo(r.states[i], c, x)
    ensures m < i && Gives(r.states[m], r.acts[m], c, x) && GivenTo(r.states[m + 1], c, x)
    ensures forall k :: m < k <= i ==> GivenTo(r.states[k], c, x)
    ensures r.states[m].callers[c].secret == r.states[i].callers[c].secret
    ensures r.states[m].callers[c].job == r.states[i].callers[c].job
    decreases i
  {
    assert i > 0;
    StepTo(r, i);
    GivenStep(r.states[i - 1], r.acts[i - 1], c, x);
    hide Apply, Enabled, Inv, Gives, GivenTo;
    if Gives(r.states[i - 1], r.acts[i - 1], c, x) { m := i - 1; } else { m := GivenAt(r, i - 1, c, x); }
  }

  /** Caller `d` stored `x` for `secret` at step `j`. */
  ghost predicate StoredAt(r: Run, d: nat, j: nat, secret: Secret, x: (Session, nat)) {
    && Does(r, j, Store(d)) && d in r.states[j].callers && r.states[j].callers[d].secret == secret
    && r.states[j].callers[d].phase.Storing?
    && x == (r.states[j].callers[d].phase.session, r.states[j].cache.clock + 1)
  }

  /** What a step gives was stored no later than that step; from the cache, it has been cached since. */
  lemma GivenFromStore(r: Run, m: nat, c: nat, x: (Session, nat)) returns (d: nat, j: nat)
    requires Valid(r) && m < |r.acts| && Gives(r.states[m], r.acts[m], c, x)
    ensures j <= m && StoredAt(r, d, j, r.states[m].callers[c].secret, x)
    ensures r.acts[m] == Store(c) ==> j == m
    ensures r.acts[m] == Look(c) ==>
              j < m && forall k :: j < k <= m ==> FromStore(r, d, j, k, r.states[m].callers[c].secret)
  {
    assert StepAt(r, m);
    hide Apply, Enabled;
    if r.acts[m] == Store(c) {
      d, j := c, m;
    } else {
      d, j := CachedByStore(r, m, r.states[m].callers[c].secret);
    }
  }

  /** Nobody is given a session that some caller's mint of its secret did not store, under its stamp. */
  lemma EveryAnswerWasStored(r: Run, i: nat, c: nat, x: (Session, nat)) returns (d: nat, j: nat)
    requires Valid(r) && i < |r.states| && GivenTo(r.states[i], c, x)
    ensures j < i && StoredAt(r, d, j, r.states[i].callers[c].secret, x)
  {
    var m := GivenAt(r, i, c, x);
    d, j := GivenFromStore(r, m, c, x);
  }

  // ----- First looks -----

  /** `c` takes its first look of a refresh or an operation. */
  ghost predicate FirstLook(r: Run, l: nat, c: nat) {
    Does(r, l, Look(c)) && c in r.states[l].callers && r.states[l].callers[c].phase.Entering?
  }

  /** The stamp a look sees for a secret, 0 for none. */
  function Seen(cache: Cache<Session>, secret: Secret): nat {
    if Has(cache, secret) then SlotOf(cache, secret).minted else 0
  }

  predicate InSingleFlight(p: Phase) {
    p.Joining? || HasClone(p)
  }

  /** A refresh after its first look. */
  predicate Refreshing(k: Caller, seen: nat) {
    k.job.Refresh? && (InSingleFlight(k.phase) || k.phase.Finished?) && k.want == NewerThan(seen)
  }

  lemma RefreshStep(s: State, a: Action, c: nat)
    requires Enabled(s, a) && c in Apply(s, a).callers
    requires Apply(s, a).callers[c].job.Refresh? && !Apply(s, a).callers[c].phase.Entering?
    ensures c in s.callers && s.callers[c].secret == Apply(s, a).callers[c].secret && s.callers[c].job.Refresh?
    ensures s.callers[c].phase.Entering? ==>
              a == Look(c) && Refreshing(Apply(s, a).callers[c], Seen(s.cache, s.callers[c].secret))
    ensures forall seen :: Refreshing(s.callers[c], seen) ==> Refreshing(Apply(s, a).callers[c], seen)
  {
    hide Apply, Enabled;
    CallerStep(s, a, c);
  }

  lemma {:induction false} RefreshLook(r: Run, i: nat, c: nat) returns (l: nat)
    requires Valid(r) && i < |r.states| && c in r.states[i].callers
    requires r.states[i].callers[c].job.Refresh? && !r.states[i].callers[c].phase.Entering?
    ensures l < i && FirstLook(r, l, c) && r.states[l].callers[c].secret == r.states[i].callers[c].secret
    ensures Refreshing(r.states[i].callers[c], Seen(r.states[l].cache, r.states[l].callers[c].secret))
    decreases i
  {
    assert i > 0;
    StepTo(r, i);
    RefreshStep(r.states[i - 1], r.acts[i - 1], c);
    hide Apply, Enabled, Inv, Refreshing, Seen;
    if r.states[i - 1].callers[c].phase.Entering? {
      l := i - 1;
      assert StepAt(r, l);
    } else {
      l := RefreshLook(r, i - 1, c);
    }
  }

  /** What was cached at `l` has another stamp than what a store before `l` left cached until `m`. */
  lemma StoredAfterLook(r: Run, l: nat, m: nat, d: nat, j: nat, secret: Secret, minted: nat)
    requires Valid(r) && l < m && j < m < |r.states| && l < |r.acts| && !r.acts[l].Store?
    requires forall k :: j < k <= m ==> FromStore(r, d, j, k, secret)
    requires FromStore(r, d, j, m, secret) && SlotOf(r.states[m].cache, secret).minted == minted
    requires minted > Seen(r.states[l].cache, secret)
    ensures l < j
  {
    assert j < l ==> FromStore(r, d, j, l, secret);
  }

  lemma LookAnswers(s: State, c: nat, x: (Session, nat))
    requires Enabled(s, Look(c)) && GivenTo(Apply(s, Look(c)), c, x) && !GivenTo(s, c, x)
    requires s.callers[c].want.NewerThan? && s.callers[c].phase.Holding?
    ensures Has(s.cache, s.callers[c].secret) && SlotOf(s.cache, s.callers[c].secret).minted == x.1
    ensures x.1 > s.callers[c].want.stamp
  {
    hide Apply, Enabled;
    CallerStep(s, Look(c), c);
  }

  /** A refresh answers a session that some caller's mint stored after the refresh's first look: newer
      than whatever that look saw. */
  lemma RefreshIsFresh(r: Run, i: nat, c: nat, x: (Session, nat)) returns (l: nat, d: nat, j: nat)
    requires Valid(r) && i < |r.states| && GivenTo(r.states[i], c, x) && r.states[i].callers[c].job.Refresh?
    ensures l < j < i && FirstLook(r, l, c) && StoredAt(r, d, j, r.states[i].callers[c].secret, x)
    ensures Has(r.states[l].cache, r.states[i].callers[c].secret) ==>
              x.1 > SlotOf(r.states[l].cache, r.states[i].callers[c].secret).minted
  {
    var m := GivenAt(r, i, c, x);
    assert r.states[m].callers[c].job.Refresh?;
    d, j := GivenFromStore(r, m, c, x);
    l := RefreshAnswersLate(r, m, c, x, d, j);
    StampsFollow(r, l, j, r.states[i].callers[c].secret);
  }

  lemma RefreshAnswersLate(r: Run, m: nat, c: nat, x: (Session, nat), d: nat, j: nat) returns (l: nat)
    requires Valid(r) && m < |r.acts| && Gives(r.states[m], r.acts[m], c, x) && GivenTo(r.states[m + 1], c, x)
    requires r.states[m].callers[c].job.Refresh? && StoredAt(r, d, j, r.states[m].callers[c].secret, x)
    requires r.acts[m] == Store(c) ==> j == m
    requires r.acts[m] == Look(c) ==>
               j < m && forall k :: j < k <= m ==> FromStore(r, d, j, k, r.states[m].callers[c].secret)
    ensures l < j && FirstLook(r, l, c) && r.states[l].callers[c].secret == r.states[m].callers[c].secret
  {
    hide Apply, Inv, FromStore;
    assert StepAt(r, m);
    NotAtFirstLook(r.states[m], r.acts[m], c, x);
    l := RefreshLook(r, m, c);
    if r.acts[m] == Look(c) {
      LookAnswers(r.states[m], c, x);
      FromStoreIs(r, d, j, m, x);
      StoredAfterLook(r, l, m, d, j, r.states[m].callers[c].secret, x.1);
    }
  }

  lemma NotAtFirstLook(s: State, a: Action, c: nat, x: (Session, nat))
    requires Enabled(s, a) && Gives(s, a, c, x) && GivenTo(Apply(s, a), c, x) && s.callers[c].job.Refresh?
    ensures !s.callers[c].phase.Entering?
  {
    hide Apply, Enabled;
    CallerStep(s, a, c);
  }

  lemma StampsFollow(r: Run, l: nat, j: nat, secret: Secret)
    requires Valid(r) && l < j < |r.states|
    ensures Has(r.states[l].cache, secret) ==> SlotOf(r.states[l].cache, secret).minted < r.states[j].cache.clock + 1
  {
    RunInv(r, l);
    ClockOnlyGrows(r, l, j);
    var s := r.states[l];
    if Has(s.cache, secret) { assert SlotOf(s.cache, secret) == s.cache.slots[IndexOf(s.cache.slots, secret)]; }
  }

  // ----- When an operation is tried again -----

  /** The errors that a new session could cure, one by one. */
  predicate IsRejection(outcome: Outcome) {
    || outcome == FailedWith(Authentication)
    || outcome == FailedWith(Server(401))
    || outcome == FailedWith(Server(403))
  }

  predicate Operates(a: Action, c: nat) {
    a.Operate? && a.c == c
  }

  ghost predicate NeverOperated(r: Run, i: nat, c: nat)
    requires i <= |r.acts|
  {
    forall k :: 0 <= k < i ==> !Operates(r.acts[k], c)
  }

  /** On the session its first look found, before its first run. */
  predicate OnCached(k: Caller, cache: Cache<Session>) {
    && Has(cache, k.secret)
    && k.phase == Running(SlotOf(cache, k.secret).value, SlotOf(cache, k.secret).minted, true)
  }

  /** An operation after its first look at `cache`: on the session found there; or, that one rejected,
      after a newer one; or, with nothing found, after any. Never again on a session it would retry. */
  predicate Operating(k: Caller, cache: Cache<Session>) {
    && k.job.WithSession?
    && (|| OnCached(k, cache)
        || k.phase.Finished?
        || (&& (k.phase.FastLook? || InSingleFlight(k.phase) || (k.phase.Running? && !k.phase.warm))
            && (k.phase.FastLook? ==> !Has(cache, k.secret))
            && k.want == if Has(cache, k.secret) then NewerThan(SlotOf(cache, k.secret).minted) else Anything))
  }

  lemma OperatingBegins(s: State, a: Action, c: nat)
    requires Enabled(s, a) && c in Apply(s, a).callers && Apply(s, a).callers[c].job.WithSession?
    requires !Apply(s, a).callers[c].phase.Entering?
    requires c in s.callers ==> s.callers[c].phase.Entering? && s.callers[c].want.Anything?
    ensures a == Look(c) && c in s.callers && s.callers[c].secret == Apply(s, a).callers[c].secret
    ensures Operating(Apply(s, a).callers[c], s.cache)
    ensures OnCached(Apply(s, a).callers[c], s.cache) <==> Has(s.cache, s.callers[c].secret)
  {
    hide Apply, Enabled;
    CallerStep(s, a, c);
  }

  ghost predicate GoesOn(s: State, a: Action, c: nat, cache: Cache<Session>)
    requires Enabled(s, a) && c in s.callers
  {
    && c in Apply(s, a).callers && Operating(Apply(s, a).callers[c], cache)
    && Apply(s, a).callers[c].secret == s.callers[c].secret
    && (OnCached(Apply(s, a).callers[c], cache) <==> OnCached(s.callers[c], cache) && !Operates(a, c))
  }

  lemma OperatingLooks(s: State, c: nat, cache: Cache<Session>)
    requires Enabled(s, Look(c)) && c in s.callers && Operating(s.callers[c], cache)
    ensures GoesOn(s, Look(c), c, cache)
  {
    hide Apply, Enabled;
    CallerStep(s, Look(c), c);
  }

  lemma OperatingRuns(s: State, c: nat, outcome: Outcome, cache: Cache<Session>)
    requires Enabled(s, Operate(c, outcome)) && c in s.callers && Operating(s.callers[c], cache)
    ensures GoesOn(s, Operate(c, outcome), c, cache)
  {
    hide Apply, Enabled;
    CallerStep(s, Operate(c, outcome), c);
  }

  lemma OperatingStands(s: State, a: Action, c: nat, cache: Cache<Session>)
    requires Enabled(s, a) && c in s.callers && Operating(s.callers[c], cache)
    requires c in Apply(s, a).callers && Apply(s, a).callers[c] == s.callers[c] && !Operates(a, c)
    ensures GoesOn(s, a, c, cache)
  {
    hide Apply, Enabled, Operating, OnCached;
  }

  lemma OperatingMoves(s: State, a: Action, c: nat, cache: Cache<Session>)
    requires Enabled(s, a) && c in s.callers && Operating(s.callers[c], cache)
    requires Moves(a, c) && !a.Look? && !a.Operate?
    ensures GoesOn(s, a, c, cache)
  {
    hide Apply, Enabled;
    CallerStep(s, a, c);
    hide Has, SlotOf, Looked;
  }

  lemma OperatingGoesOn(s: State, a: Action, c: nat, cache: Cache<Session>)
    requires Enabled(s, a) && c in s.callers && Operating(s.callers[c], cache)
    ensures GoesOn(s, a, c, cache)
  {
    hide Apply, Enabled, Operating, GoesOn;
    if !Moves(a, c) {
      CallerStep(s, a, c);
      OperatingStands(s, a, c, cache);
    } else if a.Look? {
      OperatingLooks(s, c, cache);
    } else if a.Operate? {
      OperatingRuns(s, c, a.outcome, cache);
    } else {
      OperatingMoves(s, a, c, cache);
    }
  }

  lemma WaitsWithoutWant(s: State, a: Action, c: nat)
    requires Enabled(s, a) && c in Apply(s, a).callers && Apply(s, a).callers[c].phase.Entering?
    requires c in s.callers ==> (s.callers[c].phase.Entering? ==> s.callers[c].want.Anything?)
    ensures Apply(s, a).callers[c].want.Anything? && !Operates(a, c)
    ensures c in s.callers ==> s.callers[c].phase.Entering?
  {
    hide Apply, Enabled;
    CallerStep(s, a, c);
  }

  lemma {:induction false} EntersWithoutWant(r: Run, i: nat, c: nat)
    requires Valid(r) && i < |r.states| && c in r.states[i].callers && r.states[i].callers[c].phase.Entering?
    ensures r.states[i].callers[c].want.Anything? && NeverOperated(r, i, c)
    decreases i
  {
    assert i > 0;
    StepTo(r, i);
    hide Apply, Inv;
    var s, a := r.states[i - 1], r.acts[i - 1];
    EntersBefore(s, a, c);
    if c in s.callers { EntersWithoutWant(r, i - 1, c); } else { NotYetHere(r, i - 1, c); }
    WaitsWithoutWant(s, a, c);
  }

  lemma EntersBefore(s: State, a: Action, c: nat)
    requires Enabled(s, a) && c in Apply(s, a).callers && Apply(s, a).callers[c].phase.Entering?
    ensures c in s.callers ==> s.callers[c].phase.Entering?
  {
    hide Apply, Enabled;
    CallerStep(s, a, c);
  }

  /** A caller that has not arrived has operated on nothing. */
  lemma {:induction false} NotYetHere(r: Run, i: nat, c: nat)
    requires Valid(r) && i < |r.states| && c !in r.states[i].callers
    ensures NeverOperated(r, i, c)
    decreases i
  {
    if i > 0 {
      StepTo(r, i);
      NotYetHere(r, i - 1, c);
    }
  }

  /** Whoever is past its first look has one, and is on the session it found there exactly until its
      first run. */
  lemma {:induction false} OperationLook(r: Run, i: nat, c: nat) returns (l: nat)
    requires Valid(r) && i < |r.states| && c in r.states[i].callers
    requires r.states[i].callers[c].job.WithSession? && !r.states[i].callers[c].phase.Entering?
    ensures l < i && FirstLook(r, l, c) && r.states[l].callers[c].secret == r.states[i].callers[c].secret
    ensures Operating(r.states[i].callers[c], r.states[l].cache)
    ensures OnCached(r.states[i].callers[c], r.states[l].cache)
            <==> Has(r.states[l].cache, r.states[i].callers[c].secret) && NeverOperated(r, i, c)
    decreases i
  {
    assert i > 0;
    StepTo(r, i);
    var s, a := r.states[i - 1], r.acts[i - 1];
    if c in s.callers && !s.callers[c].phase.Entering? {
      WasOperating(s, a, c);
      hide Apply, Enabled, Inv, Operating, OnCached;
      l := OperationLook(r, i - 1, c);
      OperatingGoesOn(s, a, c, r.states[l].cache);
    } else {
      hide Apply, Inv, Operating, OnCached;
      if c in s.callers { EntersWithoutWant(r, i - 1, c); }
      OperatingBegins(s, a, c);
      l := i - 1;
      assert StepAt(r, l);
    }
  }

  lemma WasOperating(s: State, a: Action, c: nat)
    requires Enabled(s, a) && c in s.callers && c in Apply(s, a).callers
    ensures s.callers[c].job == Apply(s, a).callers[c].job
  {
    hide Apply, Enabled;
    CallerStep(s, a, c);
  }

  lemma OperateStep(s: State, c: nat, outcome: Outcome, cache: Cache<Session>)
    requires Enabled(s, Operate(c, outcome)) && c in s.callers && Operating(s.callers[c], cache)
    ensures c in Apply(s, Operate(c, outcome)).callers
    ensures Apply(s, Operate(c, outcome)).callers[c].phase.Joining? <==>
              OnCached(s.callers[c], cache) && IsRejection(outcome)
    ensures !Apply(s, Operate(c, outcome)).callers[c].phase.Joining? ==>
              Apply(s, Operate(c, outcome)).callers[c].phase.Finished?
  {
    hide Apply, Enabled;
    CallerStep(s, Operate(c, outcome), c);
  }

  /** Only callers of with_session run operations. */
  lemma {:induction false} RunsAreOperations(r: Run, i: nat, c: nat)
    requires Valid(r) && i < |r.states| && c in r.states[i].callers && r.states[i].callers[c].phase.Running?
    ensures r.states[i].callers[c].job.WithSession?
    decreases i
  {
    assert i > 0;
    StepTo(r, i);
    RunStep(r.states[i - 1], r.acts[i - 1], c);
    hide Apply, Enabled, Inv;
    if !r.states[i].callers[c].job.WithSession? { RunsAreOperations(r, i - 1, c); }
  }

  lemma RunStep(s: State, a: Action, c: nat)
    requires Enabled(s, a) && c in Apply(s, a).callers && Apply(s, a).callers[c].phase.Running?
    ensures c in s.callers && s.callers[c].job == Apply(s, a).callers[c].job
    ensures s.callers[c].phase.Running? || s.callers[c].job.WithSession?
  {
    hide Apply, Enabled;
    CallerStep(s, a, c);
  }

  /** An operation is tried again exactly when it was its first run, on a session that the caller's
      first look found cached, and the homeserver turned that session down with an authentication
      error, a 401 or a 403; otherwise the caller is done with that run. */
  lemma RetriedExactly(r: Run, i: nat, c: nat, outcome: Outcome) returns (l: nat)
    requires Valid(r) && Does(r, i, Operate(c, outcome))
    ensures l < i && FirstLook(r, l, c) && c in r.states[i].callers && c in r.states[i + 1].callers
    ensures r.states[i + 1].callers[c].phase.Joining? <==>
              && NeverOperated(r, i, c) && Has(r.states[l].cache, r.states[i].callers[c].secret)
              && IsRejection(outcome)
    ensures !r.states[i + 1].callers[c].phase.Joining? ==> r.states[i + 1].callers[c].phase.Finished?
  {
    assert StepAt(r, i);
    RunsAreOperations(r, i, c);
    l := OperationLook(r, i, c);
    OperateStep(r.states[i], c, outcome, r.states[l].cache);
  }

  /** Not told anything yet: on its way to a session, or to run on one. */
  predicate Undecided(p: Phase) {
    (InSingleFlight(p) && !(HasAnswer(p) && p.answer.ImportFailed?)) || p.Running?
  }

  predicate HasAnswer(p: Phase) {
    p.BodyDone? || p.Released? || p.Dropping?
  }

  lemma UndecidedStep(s: State, a: Action, c: nat)
    requires Enabled(s, a) && c in s.callers && s.callers[c].job.WithSession? && Undecided(s.callers[c].phase)
    requires !Operates(a, c) && !(a.Mint? && a.c == c)
    ensures c in Apply(s, a).callers && Undecided(Apply(s, a).callers[c].phase)
    ensures Apply(s, a).callers[c].job == s.callers[c].job
  {
    hide Apply, Enabled;
    CallerStep(s, a, c);
  }

  /** A run that is tried again does not end the caller: it ends with another run, or with the failure
      of its own import. */
  lemma {:induction false} RetryIsDecided(r: Run, i: nat, j: nat, c: nat)
    requires Valid(r) && i <= j < |r.states| && c in r.states[i].callers
    requires r.states[i].callers[c].job.WithSession? && r.states[i].callers[c].phase.Joining?
    requires forall k :: i <= k < j ==> !Operates(r.acts[k], c) && !(r.acts[k].Mint? && r.acts[k].c == c)
    ensures c in r.states[j].callers && r.states[j].callers[c].job.WithSession?
    ensures Undecided(r.states[j].callers[c].phase) && !r.states[j].callers[c].phase.Finished?
    decreases j
  {
    if i < j {
      RetryIsDecided(r, i, j - 1, c);
      StepTo(r, j);
      hide Apply, Enabled, Inv, Undecided;
      UndecidedStep(r.states[j - 1], r.acts[j - 1], c);
    }
  }

  lemma {:induction false} OperatingUntil(r: Run, i: nat, j: nat, c: nat, cache: Cache<Session>)
    requires Valid(r) && i < j < |r.states| && c in r.states[i].callers && Operating(r.states[i].callers[c], cache)
    requires Operates(r.acts[i], c)
    ensures c in r.states[j].callers && Operating(r.states[j].callers[c], cache)
    ensures r.states[j].callers[c].secret == r.states[i].callers[c].secret && !OnCached(r.states[j].callers[c], cache)
    decreases j
  {
    hide Apply, Enabled, Inv, Operating, OnCached;
    StepTo(r, j);
    if i + 1 < j { OperatingUntil(r, i, j - 1, c, cache); }
    OperatingGoesOn(r.states[j - 1], r.acts[j - 1], c, cache);
  }

  lemma {:induction false} FinishedForGood(r: Run, i: nat, j: nat, c: nat)
    requires Valid(r) && i <= j < |r.states| && c in r.states[i].callers && r.states[i].callers[c].phase.Finished?
    ensures c in r.states[j].callers && r.states[j].callers[c].phase == r.states[i].callers[c].phase
    decreases j
  {
    hide Apply, Enabled, Inv;
    if i < j {
      FinishedForGood(r, i, j - 1, c);
      StepTo(r, j);
      CallerStep(r.states[j - 1], r.acts[j - 1], c);
    }
  }

  ghost predicate Runs(r: Run, i: nat, c: nat) {
    && i < |r.acts| < |r.states| && Operates(r.acts[i], c)
    && c in r.states[i].callers && r.states[i].callers[c].phase.Running?
  }

  /** A first run that another follows was on the session the caller's first look found. */
  lemma FirstRunWasCached(r: Run, i: nat, j: nat, c: nat) returns (l: nat)
    requires Valid(r) && i < j && Runs(r, i, c) && Runs(r, j, c)
    ensures l < i && FirstLook(r, l, c) && OnCached(r.states[i].callers[c], r.states[l].cache)
    ensures c in r.states[i + 1].callers && r.states[i + 1].callers[c].phase.Joining? && i + 1 < j
    ensures IsRejection(r.acts[i].outcome)
    ensures forall m :: i < m <= j ==>
              && c in r.states[m].callers && Operating(r.states[m].callers[c], r.states[l].cache)
              && r.states[m].callers[c].secret == r.states[i].callers[c].secret
              && !OnCached(r.states[m].callers[c], r.states[l].cache)
  {
    hide Apply, Enabled, Inv, Operating, OnCached;
    RunsAreOperations(r, i, c);
    l := OperationLook(r, i, c);
    RunLeadsOn(r, i, j, c, l);
    forall m | i < m <= j
      ensures c in r.states[m].callers && Operating(r.states[m].callers[c], r.states[l].cache)
      ensures r.states[m].callers[c].secret == r.states[i].callers[c].secret
      ensures !OnCached(r.states[m].callers[c], r.states[l].cache)
    {
      OperatingUntil(r, i, m, c, r.states[l].cache);
    }
  }

  lemma RunLeadsOn(r: Run, i: nat, j: nat, c: nat, l: nat)
    requires Valid(r) && i < j && Runs(r, i, c) && Runs(r, j, c) && l < i
    requires Operating(r.states[i].callers[c], r.states[l].cache)
    ensures c in r.states[i + 1].callers && r.states[i + 1].callers[c].phase.Joining? && i + 1 < j
    ensures OnCached(r.states[i].callers[c], r.states[l].cache) && IsRejection(r.acts[i].outcome)
  {
    hide Apply, Enabled, Inv, Operating, OnCached;
    StepTo(r, i + 1);
    OperateStep(r.states[i], c, r.acts[i].outcome, r.states[l].cache);
    if r.states[i + 1].callers[c].phase.Finished? { FinishedForGood(r, i + 1, j, c); }
  }

  lemma FromStoreIs(r: Run, d: nat, k: nat, m: nat, y: (Session, nat))
    requires Valid(r) && k < m < |r.states| && d in r.states[k].callers
    requires StoredAt(r, d, k, r.states[k].callers[d].secret, y)
    requires FromStore(r, d, k, m, r.states[k].callers[d].secret)
    ensures Has(r.states[m].cache, r.states[k].callers[d].secret)
    ensures SlotOf(r.states[m].cache, r.states[k].callers[d].secret).minted == y.1
  {
    hide Apply, Enabled;
  }

  /** What a caller tries again with was stored after its first look. */
  lemma RetryAnswersLate(r: Run, l: nat, m: nat, c: nat, y: (Session, nat)) returns (d: nat, k: nat)
    requires Valid(r) && l < m < |r.acts| && FirstLook(r, l, c)
    requires Gives(r.states[m], r.acts[m], c, y) && GivenTo(r.states[m + 1], c, y)
    requires Operating(r.states[m].callers[c], r.states[l].cache)
    requires !OnCached(r.states[m].callers[c], r.states[l].cache)
    requires Has(r.states[l].cache, r.states[m].callers[c].secret)
    ensures l < k && StoredAt(r, d, k, r.states[m].callers[c].secret, y)
  {
    hide Apply, Inv, FromStore;
    d, k := GivenFromStore(r, m, c, y);
    assert StepAt(r, m);
    if r.acts[m] == Look(c) {
      LookAnswers(r.states[m], c, y);
      FromStoreIs(r, d, k, m, y);
      StoredAfterLook(r, l, m, d, k, r.states[m].callers[c].secret, y.1);
    }
  }

  /** Two runs of one operation: the first was on the session the caller's first look found, stored
      before that look, and was turned down; the second on one stored after it, under a later stamp. */
  lemma SecondRunIsNewer(r: Run, i: nat, j: nat, c: nat, x: (Session, nat), y: (Session, nat))
      returns (l: nat, d: nat, k: nat, d': nat, k': nat)
    requires Valid(r) && i < j && Runs(r, i, c) && Runs(r, j, c)
    requires GivenTo(r.states[i], c, x) && GivenTo(r.states[j], c, y)
    ensures FirstLook(r, l, c) && k < l < k' && IsRejection(r.acts[i].outcome)
    ensures StoredAt(r, d, k, r.states[i].callers[c].secret, x) && StoredAt(r, d', k', r.states[i].callers[c].secret, y)
    ensures x.1 < y.1
  {
    var secret := r.states[i].callers[c].secret;
    l := FirstRunWasCached(r, i, j, c);
    d, k := CachedByStore(r, l, secret);
    var m := GivenAt(r, j, c, y);
    assert m > i by { assert !GivenTo(r.states[i + 1], c, y); }
    d', k' := RetryAnswersLate(r, l, m, c, y);
    StampsFollow(r, l, k', secret);
  }

  // ----- Who shares a mint -----

  /** `d` looks in the cache before it joins a single-flight. */
  ghost predicate OuterLook(r: Run, l: nat, d: nat) {
    && Does(r, l, Look(d)) && d in r.states[l].callers
    && (r.states[l].callers[d].phase.Entering? || r.states[l].callers[d].phase.FastLook?)
  }

  /** A caller that has looked when the clock stood at `clock`: it asks for nothing stamped later. */
  predicate AsksSince(k: Caller, clock: nat) {
    && !k.phase.Entering?
    && (k.want.NewerThan? ==> k.want.stamp <= clock)
    && (k.phase.Running? && k.phase.warm ==> k.phase.stamp <= clock)
  }

  lemma AsksStep(s: State, a: Action, d: nat, clock: nat)
    requires Enabled(s, a) && d in s.callers && AsksSince(s.callers[d], clock)
    ensures d in Apply(s, a).callers && AsksSince(Apply(s, a).callers[d], clock)
    ensures Apply(s, a).callers[d].secret == s.callers[d].secret
  {
    hide Apply, Enabled;
    CallerStep(s, a, d);
  }

  lemma AsksAfterLook(r: Run, l: nat, d: nat)
    requires Valid(r) && OuterLook(r, l, d)
    ensures d in r.states[l + 1].callers && AsksSince(r.states[l + 1].callers[d], r.states[l].cache.clock)
    ensures r.states[l + 1].callers[d].secret == r.states[l].callers[d].secret
  {
    RunInv(r, l);
    var s, k := r.states[l], r.states[l].callers[d];
    assert CallerOk(s, k);
    if Has(s.cache, k.secret) { assert SlotOf(s.cache, k.secret) == s.cache.slots[IndexOf(s.cache.slots, k.secret)]; }
  }

  lemma {:induction false} AsksForNothingLater(r: Run, l: nat, j: nat, d: nat)
    requires Valid(r) && OuterLook(r, l, d) && l < j < |r.states|
    ensures d in r.states[j].callers && AsksSince(r.states[j].callers[d], r.states[l].cache.clock)
    ensures r.states[j].callers[d].secret == r.states[l].callers[d].secret
    decreases j
  {
    if l + 1 < j {
      AsksForNothingLater(r, l, j - 1, d);
      StepTo(r, j);
      hide Apply, Enabled, Inv, AsksSince;
      AsksStep(r.states[j - 1], r.acts[j - 1], d, r.states[l].cache.clock);
    } else {
      AsksAfterLook(r, l, d);
    }
  }

  lemma SatisfiedByStore(r: Run, l: nat, i: nat, j: nat, d: nat)
    requires Valid(r) && OuterLook(r, l, d) && l < i < j < |r.states|
    ensures d in r.states[j].callers && Satisfies(r.states[j].callers[d].want, r.states[i].cache.clock + 1)
  {
    AsksForNothingLater(r, l, j, d);
    ClockOnlyGrows(r, l, i);
  }

  /** Step `k` takes what is cached for `secret` out of the cache. */
  ghost predicate TakenOut(r: Run, k: nat, secret: Secret)
    requires k + 1 < |r.states|
  {
    Has(r.states[k].cache, secret) && !Has(r.states[k + 1].cache, secret)
  }

  /** Whatever its job: a caller that looked before another's mint was stored, and looks under the lock
      after, takes that session, unless a step in between took it out of the cache. */
  lemma ConcurrentCallersShare(r: Run, l: nat, i: nat, j: nat, c: nat, d: nat)
    requires Valid(r) && OuterLook(r, l, d) && l < i < j && Does(r, i, Store(c)) && Does(r, j, Look(d))
    requires r.states[j].callers[d].phase.Holding? && r.states[i].callers[c].secret == r.states[l].callers[d].secret
    requires forall k :: i < k < j ==> !TakenOut(r, k, r.states[l].callers[d].secret)
    ensures GivenTo(r.states[j + 1], d, (r.states[i].callers[c].phase.session, r.states[i].cache.clock + 1))
  {
    hide Apply, Enabled;
    AsksForNothingLater(r, l, j, d);
    SatisfiedByStore(r, l, i, j, d);
    AsksForNothingLater(r, l, j + 1, d);
    StoredIsCached(r, i, c);
    forall k | i < k < j ensures !LostAt(r, k, r.states[i].callers[c].secret, r.states[j].callers[d].want) {
      assert !TakenOut(r, k, r.states[l].callers[d].secret);
    }
    LaterCallersReuse(r, i, j, c, d);
  }

  /** And if it goes on to mint all the same, such a step did. */
  lemma ConcurrentMintsAreSeparated(r: Run, l: nat, i: nat, j: nat, c: nat, d: nat) returns (k: nat)
    requires Valid(r) && OuterLook(r, l, d) && l < i < j && Does(r, i, Store(c)) && Does(r, j, Import(d))
    requires c in r.states[i].callers && r.states[i].callers[c].secret == r.states[l].callers[d].secret
    ensures i < k < j && TakenOut(r, k, r.states[l].callers[d].secret)
    ensures Removes(r.states[k], r.acts[k], r.states[l].callers[d].secret)
  {
    hide Apply, Enabled;
    AsksForNothingLater(r, l, j, d);
    SatisfiedByStore(r, l, i, j, d);
    k := MintsAreSeparated(r, i, j, c, d);
  }

  /** A caller of session_for whose look finds its secret cached is done, with that session. */
  lemma {:induction false} WarmCallersMintNothing(r: Run, l: nat, i: nat, c: nat)
    requires Valid(r) && OuterLook(r, l, c) && l < i < |r.states| && r.states[l].callers[c].job.SessionFor?
    requires r.states[l].callers[c].phase.FastLook? && Has(r.states[l].cache, r.states[l].callers[c].secret)
    ensures var slot := SlotOf(r.states[l].cache, r.states[l].callers[c].secret);
            c in r.states[i].callers && r.states[i].callers[c].phase == Finished(Got(slot.value, slot.minted), None)
  {
    hide Apply, Enabled, Inv;
    StepTo(r, l + 1);
    CallerStep(r.states[l], Look(c), c);
    FinishedForGood(r, l + 1, i, c);
  }
}
