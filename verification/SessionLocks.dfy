/** When the map of mint locks gives its entries back. */
module SessionLocks {
  import opened Common
  import opened RecencyList
  import opened SessionProtocol
  import opened SessionRuns

  /** Whoever checks a lock's count drops its own clone at once, before anyone else moves. */
  ghost predicate Prompt(r: Run) {
    forall i :: 0 <= i < |r.acts| - 1 && r.acts[i].Reclaim? ==> r.acts[i + 1] == DropClone(r.acts[i].c)
  }

  ghost predicate Wanted(s: State, secret: Secret) {
    exists c :: c in s.callers && Registered(s.callers[c].phase) && s.callers[c].secret == secret
  }

  /** Every lock in the map is one some caller still uses, and no caller is between its check and its
      drop. */
  ghost predicate Tidy(s: State) {
    && (forall c :: c in s.callers ==> !s.callers[c].phase.Dropping?)
    && (forall k :: k in s.locks ==> Wanted(s, k))
  }

  lemma StaysWanted(s: State, a: Action, secret: Secret)
    requires Enabled(s, a) && !a.Reclaim? && Wanted(s, secret)
    ensures Wanted(Apply(s, a), secret)
  {
    var c :| c in s.callers && Registered(s.callers[c].phase) && s.callers[c].secret == secret;
    assert c in Apply(s, a).callers;
    assert Registered(Apply(s, a).callers[c].phase) && Apply(s, a).callers[c].secret == secret;
  }

  lemma TidyStep(s: State, a: Action)
    requires Enabled(s, a) && Tidy(s) && !a.Reclaim?
    ensures Tidy(Apply(s, a))
  {
    var s' := Apply(s, a);
    forall k | k in s'.locks
      ensures Wanted(s', k)
    {
      if k in s.locks {
        StaysWanted(s, a, k);
      } else {
        assert s'.callers[a.c].secret == k && Registered(s'.callers[a.c].phase);
      }
    }
  }

  /** A lock that stays in the map after a check has another caller. */
  lemma StaysForAnother(s: State, c: nat) returns (d: nat)
    requires Inv(s) && Tidy(s) && c in s.callers && s.callers[c].phase.Released?
    requires StrongCount(s, s.callers[c].phase.lock) != 2
    ensures d != c && d in s.callers && Registered(s.callers[d].phase) && s.callers[d].secret == s.callers[c].secret
  {
    var k := s.callers[c];
    var lock := k.phase.lock;
    assert CallerOk(s, k);
    var holders := CloneHolders(s, lock);
    assert MapHolders(s, lock) == {k.secret};
    assert c in holders;
    assert |holders - {c}| == |holders| - 1 != 0;
    d :| d in holders - {c};
    assert CallerOk(s, s.callers[d]);
  }

  lemma PromptReclaimIsTidy(s: State, c: nat)
    requires Inv(s) && Tidy(s) && Enabled(s, Reclaim(c))
    ensures Enabled(Apply(s, Reclaim(c)), DropClone(c))
    ensures Tidy(Apply(Apply(s, Reclaim(c)), DropClone(c)))
  {
    hide StrongCount, Inv;
    var s1 := Apply(s, Reclaim(c));
    var s2 := Apply(s1, DropClone(c));
    forall k | k in s2.locks
      ensures Wanted(s2, k)
    {
      var d: nat;
      if k == s.callers[c].secret {
        d := StaysForAnother(s, c);
      } else {
        d :| d in s.callers && Registered(s.callers[d].phase) && s.callers[d].secret == k;
      }
      assert d != c && s2.callers[d] == s.callers[d];
    }
  }

  lemma {:induction false} PromptRunsAreTidy(r: Run, i: nat)
    requires Valid(r) && Prompt(r) && i < |r.states| && (i == 0 || !r.acts[i - 1].Reclaim?)
    ensures Tidy(r.states[i])
    decreases i, 0
  {
    if i > 0 {
      StepTo(r, i);
      if i > 1 && r.acts[i - 2].Reclaim? {
        StepTo(r, i - 1);
        assert r.acts[i - 1] == DropClone(r.acts[i - 2].c);
        PromptRunsAreTidyBefore(r, i - 2);
        PromptReclaimIsTidy(r.states[i - 2], r.acts[i - 2].c);
      } else {
        PromptRunsAreTidy(r, i - 1);
        TidyStep(r.states[i - 1], r.acts[i - 1]);
      }
    }
  }

  /** A check never follows a check, so the state before one is tidy too. */
  lemma {:induction false} PromptRunsAreTidyBefore(r: Run, i: nat)
    requires Valid(r) && Prompt(r) && i < |r.acts| && r.acts[i].Reclaim?
    ensures Tidy(r.states[i])
    decreases i, 1
  {
    assert i == 0 || !r.acts[i - 1].Reclaim?;
    PromptRunsAreTidy(r, i);
  }

  /** With check and drop as one step, the map holds a lock exactly for the secrets that some caller
      is between its clone and its check for. */
  lemma LocksAreExactlyTheWanted(r: Run, i: nat, secret: Secret)
    requires Valid(r) && Prompt(r) && i < |r.states| && (i == 0 || !r.acts[i - 1].Reclaim?)
    ensures secret in r.states[i].locks <==> Wanted(r.states[i], secret)
  {
    PromptRunsAreTidy(r, i);
    RunInv(r, i);
    if Wanted(r.states[i], secret) {
      var s := r.states[i];
      var c :| c in s.callers && Registered(s.callers[c].phase) && s.callers[c].secret == secret;
      assert CallerOk(s, s.callers[c]);
    }
  }

  // ----- Without that, an entry can be left behind -----

  /** Besides `c`, its lock has only callers that have checked the count and not yet dropped. */
  ghost predicate OnlyDroppersBeside(s: State, c: nat)
    requires c in s.callers && HasClone(s.callers[c].phase)
  {
    var others := CloneHolders(s, s.callers[c].phase.lock) - {c};
    others != {} && forall d :: d in others ==> s.callers[d].phase.Dropping?
  }

  lemma CountedBeside(s: State, c: nat)
    requires Inv(s) && c in s.callers && s.callers[c].phase.Released?
    ensures StrongCount(s, s.callers[c].phase.lock) == 2 <==> CloneHolders(s, s.callers[c].phase.lock) == {c}
  {
    var lock := s.callers[c].phase.lock;
    var holders := CloneHolders(s, lock);
    assert CallerOk(s, s.callers[c]);
    assert MapHolders(s, lock) == {s.callers[c].secret};
    assert c in holders && |holders - {c}| == |holders| - 1;
    if |holders| == 1 { assert holders - {c} == {}; }
  }

  /** A lock is left behind by exactly one kind of step: the count check of its last user, made while
      another caller is between its own check and its drop. */
  lemma LeftBehindExactly(s: State, a: Action, secret: Secret)
    requires Inv(s) && Enabled(s, a) && (secret in s.locks ==> Wanted(s, secret))
    ensures secret in Apply(s, a).locks && !Wanted(Apply(s, a), secret)
            <==> a.Reclaim? && s.callers[a.c].secret == secret && OnlyDroppersBeside(s, a.c)
  {
    var s' := Apply(s, a);
    if !a.Reclaim? {
      if secret in s.locks { StaysWanted(s, a, secret); }
      else if secret in s'.locks { assert s'.callers[a.c].secret == secret && Registered(s'.callers[a.c].phase); }
    } else if s.callers[a.c].secret != secret {
      if Wanted(s, secret) {
        var d :| d in s.callers && Registered(s.callers[d].phase) && s.callers[d].secret == secret;
        assert s'.callers[d] == s.callers[d];
      }
    } else {
      LeftBehindByCheck(s, a.c);
    }
  }

  /** The other users of a lock are its other holders that have not checked the count. */
  lemma UserBeside(s: State, c: nat, d: nat)
    requires Inv(s) && c in s.callers && s.callers[c].phase.Released? && d in s.callers && d != c
    ensures Registered(s.callers[d].phase) && s.callers[d].secret == s.callers[c].secret
            <==> d in CloneHolders(s, s.callers[c].phase.lock) && !s.callers[d].phase.Dropping?
  {
    assert CallerOk(s, s.callers[c]) && CallerOk(s, s.callers[d]);
  }

  lemma LeftBehindByCheck(s: State, c: nat)
    requires Inv(s) && Enabled(s, Reclaim(c))
    ensures var s' := Apply(s, Reclaim(c));
            s.callers[c].secret in s'.locks && !Wanted(s', s.callers[c].secret) <==> OnlyDroppersBeside(s, c)
  {
    var secret, lock := s.callers[c].secret, s.callers[c].phase.lock;
    var s' := Apply(s, Reclaim(c));
    CountedBeside(s, c);
    assert CallerOk(s, s.callers[c]);
    assert secret in s'.locks <==> CloneHolders(s, lock) != {c};
    assert s'.callers == s.callers[c := s'.callers[c]] && s'.callers[c].phase.Dropping?;
    var others := CloneHolders(s, lock) - {c};
    assert c in CloneHolders(s, lock);
    assert others == {} <==> CloneHolders(s, lock) == {c};
    forall d | d in s.callers && d != c
      ensures Registered(s'.callers[d].phase) && s'.callers[d].secret == secret
              <==> d in others && !s.callers[d].phase.Dropping?
    {
      UserBeside(s, c, d);
    }
    hide Inv, Apply, StrongCount, CallerOk;
  }

  ghost predicate Unused(s: State, secret: Secret) {
    secret in s.locks && !Wanted(s, secret)
  }

  /** Step `k` is a check of the lock of `secret` whose only company is callers about to drop. */
  ghost predicate LeavesBehind(r: Run, k: nat, secret: Secret) {
    && k < |r.acts| < |r.states| && StepAt(r, k)
    && r.acts[k].Reclaim? && r.acts[k].c in r.states[k].callers
    && HasClone(r.states[k].callers[r.acts[k].c].phase)
    && r.states[k].callers[r.acts[k].c].secret == secret && OnlyDroppersBeside(r.states[k], r.acts[k].c)
  }

  predicate JoinsFor(s: State, a: Action, secret: Secret) {
    a.Join? && a.c in s.callers && s.callers[a.c].secret == secret
  }

  ghost predicate NoJoins(r: Run, i: nat, j: nat, secret: Secret)
    requires j <= |r.acts| < |r.states|
  {
    forall k :: i <= k < j ==> !JoinsFor(r.states[k], r.acts[k], secret)
  }

  lemma StepIntoUse(s: State, a: Action, c: nat)
    requires Enabled(s, a) && c in Apply(s, a).callers && Registered(Apply(s, a).callers[c].phase)
    ensures c in s.callers && s.callers[c].secret == Apply(s, a).callers[c].secret
    ensures Registered(s.callers[c].phase) || a == Join(c)
  {
    hide Apply, Enabled;
    CallerStep(s, a, c);
  }

  lemma UnusedStaysInMap(s: State, a: Action, secret: Secret)
    requires Enabled(s, a) && Unused(s, secret)
    ensures secret in Apply(s, a).locks
  {
    hide StrongCount;
  }

  /** An unused lock is taken up again by a join of its secret and by nothing else. */
  lemma UnusedStays(s: State, a: Action, secret: Secret)
    requires Enabled(s, a) && Unused(s, secret)
    ensures Unused(Apply(s, a), secret) <==> !JoinsFor(s, a, secret)
  {
    UnusedStaysInMap(s, a, secret);
    if JoinsFor(s, a, secret) {
      JoinIsUse(s, a);
    } else {
      hide Apply, Enabled;
      forall c | c in Apply(s, a).callers && Registered(Apply(s, a).callers[c].phase)
        ensures Apply(s, a).callers[c].secret != secret
      {
        StepIntoUse(s, a, c);
      }
    }
  }

  lemma JoinIsUse(s: State, a: Action)
    requires Enabled(s, a) && a.Join?
    ensures Wanted(Apply(s, a), s.callers[a.c].secret)
  {
    assert Registered(Apply(s, a).callers[a.c].phase);
  }

  lemma {:induction false} UnusedWithoutJoins(r: Run, i: nat, j: nat, secret: Secret)
    requires Valid(r) && i <= j < |r.states| && Unused(r.states[i], secret) && NoJoins(r, i, j, secret)
    ensures Unused(r.states[j], secret)
    decreases j
  {
    if i < j {
      UnusedWithoutJoins(r, i, j - 1, secret);
      StepTo(r, j);
      hide Apply, Enabled, Inv, Unused, JoinsFor;
      UnusedStays(r.states[j - 1], r.acts[j - 1], secret);
    }
  }

  lemma {:induction false} UnusedSince(r: Run, i: nat, secret: Secret) returns (k: nat)
    requires Valid(r) && i < |r.states| && Unused(r.states[i], secret)
    ensures k < i && LeavesBehind(r, k, secret) && NoJoins(r, k + 1, i, secret)
    decreases i
  {
    assert i > 0;
    StepTo(r, i);
    var s, a := r.states[i - 1], r.acts[i - 1];
    if Unused(s, secret) {
      k := UnusedSince(r, i - 1, secret);
      UnusedStays(s, a, secret);
    } else {
      LeftBehindExactly(s, a, secret);
      k := i - 1;
    }
  }

  /** In any run: a lock stands in the map unused exactly when some check left it behind and no caller
      of its secret has joined since. */
  lemma UnusedExactly(r: Run, i: nat, secret: Secret)
    requires Valid(r) && i < |r.states|
    ensures Unused(r.states[i], secret)
            <==> exists k: nat :: k < i && LeavesBehind(r, k, secret) && NoJoins(r, k + 1, i, secret)
  {
    hide Unused, LeavesBehind, NoJoins;
    if Unused(r.states[i], secret) {
      var k := UnusedSince(r, i, secret);
    }
    if k: nat :| k < i && LeavesBehind(r, k, secret) && NoJoins(r, k + 1, i, secret) {
      LeavesItUnused(r, k, secret);
      UnusedWithoutJoins(r, k + 1, i, secret);
    }
  }

  lemma LeavesItUnused(r: Run, k: nat, secret: Secret)
    requires Valid(r) && LeavesBehind(r, k, secret)
    ensures Unused(r.states[k + 1], secret)
  {
    hide Apply, Inv;
    RunInv(r, k);
    LeftBehindByCheck(r.states[k], r.acts[k].c);
  }

  const FAILED := ImportFailed(OtherError)

  /** Two callers whose imports fail, each checking the count before the other has dropped. */
  const OVERLAP := [
    Arrive(0, SECRET, SessionFor), Arrive(1, SECRET, SessionFor), Look(0), Look(1), Join(0), Join(1),
    Acquire(0), Look(0), Import(0), Mint(0, FailedWith(OtherError)), Release(0),
    Acquire(1), Look(1), Import(1), Mint(1, FailedWith(OtherError)), Release(1),
    Reclaim(0), Reclaim(1), DropClone(0), DropClone(1)]

  function FirstPhase(i: nat): Phase {
    if i < 3 then FastLook else if i < 5 then Joining else if i < 7 then Queued(0) else if i == 7 then Holding(0)
    else if i == 8 then Importing(0) else if i == 9 then Minting(0, Session(0, 0))
    else if i == 10 then BodyDone(0, FAILED) else if i < 17 then Released(0, FAILED)
    else if i < 19 then Dropping(0, FAILED) else Finished(FAILED, FailureOf(FAILED))
  }

  function SecondPhase(i: nat): Phase {
    if i < 4 then FastLook else if i < 6 then Joining else if i < 12 then Queued(0) else if i == 12 then Holding(0)
    else if i == 13 then Importing(0) else if i == 14 then Minting(0, Session(1, 0))
    else if i == 15 then BodyDone(0, FAILED) else if i < 18 then Released(0, FAILED)
    else if i < 20 then Dropping(0, FAILED) else Finished(FAILED, FailureOf(FAILED))
  }

  function OverlapState(i: nat): State {
    var clock := if i < 3 then 0 else if i < 4 then 1 else if i < 8 then 2 else if i < 13 then 3 else 4;
    var first := Caller(SECRET, SessionFor, Anything, FirstPhase(i), []);
    var second := Caller(SECRET, SessionFor, Anything, SecondPhase(i), []);
    var callers := if i == 0 then map[] else if i == 1 then map[0 := first] else map[0 := first, 1 := second];
    State(Cache(4, clock, []), if i < 5 then map[] else map[SECRET := 0], if i < 5 then 0 else 1, callers, 0, false,
          if i < 9 then 0 else if i < 14 then 1 else 2)
  }

  lemma OverlapStepsJoin(i: nat)
    requires i < 8
    ensures Enabled(OverlapState(i), OVERLAP[i]) && Apply(OverlapState(i), OVERLAP[i]) == OverlapState(i + 1)
  {
  }

  lemma OverlapStepsMint(i: nat)
    requires 8 <= i < 16
    ensures Enabled(OverlapState(i), OVERLAP[i]) && Apply(OverlapState(i), OVERLAP[i]) == OverlapState(i + 1)
  {
  }

  lemma OverlapStepsLeave(i: nat)
    requires 16 <= i < 20
    ensures Enabled(OverlapState(i), OVERLAP[i]) && Apply(OverlapState(i), OVERLAP[i]) == OverlapState(i + 1)
  {
    var s := OverlapState(i);
    if i < 18 {
      assert CloneHolders(s, 0) == {0, 1};
      assert MapHolders(s, 0) == {SECRET};
    }
  }

  /** The map does not always shrink back: a lock can stay with no caller left that has a clone. */
  lemma ALockCanBeLeftBehind() returns (r: Run)
    ensures Valid(r) && |r.acts| == 20
    ensures SECRET in r.states[20].locks && CloneHolders(r.states[20], r.states[20].locks[SECRET]) == {}
  {
    r := Trace(seq(21, i requires i >= 0 => OverlapState(i)), OVERLAP);
    forall i | 0 <= i < |r.acts|
      ensures StepAt(r, i)
    {
      if i < 8 { OverlapStepsJoin(i); } else if i < 16 { OverlapStepsMint(i); } else { OverlapStepsLeave(i); }
    }
  }
}
