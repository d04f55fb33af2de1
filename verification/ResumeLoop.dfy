/** The loop that keeps one pending sign-in alive by rejoining its relay channel, with its backoff,
    outage and window arithmetic. Times are milliseconds since the flow started. */
module ResumeLoop {
  import opened Common

  const QUICK_FAILURE: nat := 5_000
  const MAX_OUTAGE: nat := 90_000
  const MAX_BACKOFF: nat := 8_000
  const RESUME_WINDOW: nat := 170_000

  /** The wait grows with the number of listeners in a row that died soon after they started. */
  function Backoff(quickFailures: nat): (delay: nat)
    ensures 1_000 <= delay <= MAX_BACKOFF
  {
    assert PowerOfTwo(3) == 8 && PowerOfTwo(2) == 4;
    Min(1_000 * PowerOfTwo(Min(quickFailures, 3)), MAX_BACKOFF)
  }

  /** The wait before a restore, while the outage and the flow's age still allow one. */
  function ResumeDelay(quickFailures: nat, outage: nat, sinceStart: nat): Option<nat> {
    if outage >= MAX_OUTAGE || sinceStart >= RESUME_WINDOW then None else Some(Backoff(quickFailures))
  }

  /** What the loop carries from one listener to the next. */
  datatype Loop = Loop(listeningSince: nat, quickFailures: nat, outageSince: Option<nat>)

  const FRESH := Loop(0, 0, None)

  /** The counters once a listener has died at `now` ... */
  function Counted(l: Loop, now: nat): Loop {
    if now - l.listeningSince < QUICK_FAILURE
    then Loop(l.listeningSince, l.quickFailures + 1,
              if l.outageSince.Some? then l.outageSince else Some(l.listeningSince))
    else Loop(l.listeningSince, 0, None)
  }

  function Outage(l: Loop, now: nat): nat {
    match l.outageSince
    case None => 0
    case Some(since) => if now < since then 0 else now - since
  }

  /** ... and the loop after the restore that follows, or None when it gives up instead. */
  function Resumed(l: Loop, now: nat): Option<Loop> {
    var c := Counted(l, now);
    match ResumeDelay(c.quickFailures, Outage(c, now), now)
    case None => None
    case Some(delay) => Some(c.(listeningSince := now + delay))
  }

  /** One restore: when it began, and the quick failures counted before it. */
  datatype Restore = Restore(at: nat, quickFailures: nat)

  /** The restores of a loop whose listeners die one after the other, each after one of `waits`. */
  function Restores(l: Loop, waits: seq<nat>): seq<Restore>
    decreases |waits|
  {
    if waits == [] then []
    else match Resumed(l, l.listeningSince + waits[0])
      case None => []
      case Some(next) => [Restore(next.listeningSince, next.quickFailures)] + Restores(next, waits[1..])
  }

  /** Where the loop stands once it has restored after each of `waits`. */
  function Reached(l: Loop, waits: seq<nat>): Option<Loop>
    decreases |waits|
  {
    if waits == [] then Some(l)
    else match Resumed(l, l.listeningSince + waits[0])
      case None => None
      case Some(next) => Reached(next, waits[1..])
  }

  lemma {:induction false} OneMoreWait(l: Loop, waits: seq<nat>, w: nat)
    requires Reached(l, waits).Some?
    ensures var m := Reached(l, waits).value;
            && Reached(l, waits + [w]) == Resumed(m, m.listeningSince + w)
            && Restores(l, waits + [w]) == Restores(l, waits) + Restores(m, [w])
    decreases |waits|
  {
    hide Resumed;
    if waits == [] {
      assert [] + [w] == [w];
    } else {
      var next := Resumed(l, l.listeningSince + waits[0]).value;
      OneMoreWait(next, waits[1..], w);
      assert (waits + [w])[1..] == waits[1..] + [w];
    }
  }

  lemma StartOfLoop()
    ensures Restores(FRESH, []) == [] && Reached(FRESH, []) == Some(FRESH)
  {
  }

  lemma OneWait(l: Loop, w: nat)
    ensures Restores(l, [w]) ==
              match Resumed(l, l.listeningSince + w)
              case None => []
              case Some(next) => [Restore(next.listeningSince, next.quickFailures)]
  {
    hide Resumed;
    assert [w][1..] == [];
  }

  /** What a wait on the listener, and the world around it, come to. */
  datatype Wait = Wait(lasts: nat, result: Result)
  datatype Result = Approved | RelayFailed(wantedBefore: bool, wantedAfter: bool, restores: bool) | FailedOtherwise

  datatype Ending = GotSession | Reported | Superseded | RestoreFailed

  /** A relay failure of a flow that no newer one replaces, before its delay or after. */
  predicate WantedThroughout(result: Result) {
    result.RelayFailed? && result.wantedBefore && result.wantedAfter
  }

  predicate ListensAgain(result: Result) {
    result.RelayFailed? && result.restores
  }

  /** The loop. It ends for every way the waits turn out, with the restores of the loop above, and
      it forgets the saved state on every exit but the one where a newer flow has replaced it. It
      restores only a flow still wanted before and after the delay, and reports a relay failure of a
      wanted flow only where the arithmetic gives up. */
  method AwaitWith(resumable: bool, wait: nat -> Wait)
      returns (restores: seq<Restore>, ending: Ending, forgot: bool, ghost waits: seq<nat>)
    ensures restores == Restores(FRESH, waits) && |waits| == |restores|
    ensures forall i :: 0 <= i < |waits| ==> waits[i] == wait(i).lasts
    ensures !resumable ==> restores == [] && !forgot
    ensures resumable ==> (forgot <==> !ending.Superseded?)
    ensures forall i :: 0 <= i < |waits| ==> WantedThroughout(wait(i).result)
    ensures forall i :: 0 <= i < |waits| - 1 ==> ListensAgain(wait(i).result)
    ensures ending.RestoreFailed? <==> waits != [] && !ListensAgain(wait(|waits| - 1).result)
    ensures !ending.RestoreFailed? ==> (ending.GotSession? <==> wait(|waits|).result.Approved?)
    ensures ending.Superseded? ==>
              && wait(|waits|).result.RelayFailed? && wait(|waits|).result.wantedBefore
              && !wait(|waits|).result.wantedAfter && Reached(FRESH, waits + [wait(|waits|).lasts]).Some?
    ensures ending.Reported? && resumable && WantedThroughout(wait(|waits|).result) ==>
              Reached(FRESH, waits + [wait(|waits|).lasts]).None?
  {
    hide Backoff, Restores, Reached;
    assert Restores(FRESH, []) == [] && Reached(FRESH, []) == Some(FRESH) by { StartOfLoop(); }
    var l, i := FRESH, 0;
    restores, waits := [], [];
    while true
      invariant |restores| == |waits| == i
      invariant forall k :: 0 <= k < i ==>
                  waits[k] == wait(k).lasts && ListensAgain(wait(k).result) && WantedThroughout(wait(k).result)
      invariant Restores(FRESH, waits) == restores && Reached(FRESH, waits) == Some(l)
      invariant i > 0 ==> resumable && l.listeningSince < RESUME_WINDOW + MAX_BACKOFF
      decreases RESUME_WINDOW + MAX_BACKOFF - l.listeningSince
    {
      var w := wait(i);
      var now := l.listeningSince + w.lasts;
      if w.result.Approved? {
        return restores, GotSession, resumable, waits;
      }
      if !resumable {
        return restores, Reported, false, waits;
      }
      if !w.result.RelayFailed? || !w.result.wantedBefore {
        return restores, Reported, true, waits;
      }
      var quick, outageSince := l.quickFailures, l.outageSince;
      if now - l.listeningSince < QUICK_FAILURE {
        if outageSince.None? { outageSince := Some(l.listeningSince); }
        quick := quick + 1;
      } else {
        outageSince := None;
        quick := 0;
      }
      var outage := Outage(Loop(l.listeningSince, quick, outageSince), now);
      var delay := ResumeDelay(quick, outage, now);
      if delay.None? {
        assert Resumed(l, now).None?;
        OneMoreWait(FRESH, waits, w.lasts);
        return restores, Reported, true, waits;
      }
      now := now + delay.value;
      assert Resumed(l, l.listeningSince + w.lasts) == Some(Loop(now, quick, outageSince));
      OneMoreWait(FRESH, waits, w.lasts);
      OneWait(l, w.lasts);
      if !w.result.wantedAfter {
        return restores, Superseded, false, waits;
      }
      restores := restores + [Restore(now, quick)];
      waits := waits + [w.lasts];
      l := Loop(now, quick, outageSince);
      i := i + 1;
      // A restore that produced no listener was begun all the same, so it is counted.
      if !w.result.restores {
        return restores, RestoreFailed, true, waits;
      }
    }
  }

  // ----- The arithmetic, in figures -----

  /** How many of the first `n` listeners, counted back from the last of them, died within five
      seconds one after the other. */
  function QuickInARow(waits: seq<nat>, n: nat): nat
    requires n <= |waits|
  {
    if n == 0 || waits[n - 1] >= 5_000 then 0 else 1 + QuickInARow(waits, n - 1)
  }

  /** When listener `i` started: with the flow, or at the restore before it. */
  function Since(waits: seq<nat>, i: nat): nat
    requires i <= |Restores(FRESH, waits)|
  {
    if i == 0 then 0 else Restores(FRESH, waits)[i - 1].at
  }

  function Seconds(quick: nat): nat {
    if quick == 0 then 1_000 else if quick == 1 then 2_000 else if quick == 2 then 4_000 else 8_000
  }

  lemma {:induction false} QuickIsShort(waits: seq<nat>, n: nat)
    requires n <= |waits|
    ensures QuickInARow(waits, n) <= n
  {
    if n > 0 { QuickIsShort(waits, n - 1); }
  }

  lemma {:induction false} QuickPrefix(waits: seq<nat>, w: nat, n: nat)
    requires n <= |waits|
    ensures QuickInARow(waits + [w], n) == QuickInARow(waits, n)
  {
    if n > 0 { QuickPrefix(waits, w, n - 1); }
  }

  lemma {:induction false} ReachedBefore(l: Loop, waits: seq<nat>, w: nat)
    requires Reached(l, waits + [w]).Some?
    ensures Reached(l, waits).Some?
    decreases |waits|
  {
    hide Resumed;
    if waits != [] {
      assert (waits + [w])[1..] == waits[1..] + [w];
      ReachedBefore(Resumed(l, l.listeningSince + waits[0]).value, waits[1..], w);
    }
  }

  /** Where the loop stands is what the waits so far make it: its listener started at the last restore,
      its quick failures are those in a row at the end, and an outage is as old as the first of them. */
  ghost predicate StandsAt(l: Loop, waits: seq<nat>) {
    && |Restores(FRESH, waits)| == |waits| && QuickInARow(waits, |waits|) <= |waits|
    && l.listeningSince == Since(waits, |waits|)
    && l.quickFailures == QuickInARow(waits, |waits|)
    && l.outageSince == if l.quickFailures == 0 then None else Some(Since(waits, |waits| - l.quickFailures))
  }

  /** What one more wait does, from where the loop stands. */
  lemma NextStands(l: Loop, waits: seq<nat>, w: nat)
    requires Reached(FRESH, waits) == Some(l) && StandsAt(l, waits)
    ensures var died, quick := l.listeningSince + w, QuickInARow(waits + [w], |waits| + 1);
            && quick <= |waits| + 1
            && match Reached(FRESH, waits + [w])
               case None => died >= 170_000 || (w < 5_000 && died - Since(waits, |waits| + 1 - quick) >= 90_000)
               case Some(next) =>
                 && !(died >= 170_000 || (w < 5_000 && died - Since(waits, |waits| + 1 - quick) >= 90_000))
                 && StandsAt(next, waits + [w])
                 && Restores(FRESH, waits + [w]) == Restores(FRESH, waits) + [Restore(died + Seconds(quick), quick)]
  {
    hide Reached, Restores, Backoff;
    OneMoreWait(FRESH, waits, w);
    OneWait(l, w);
    QuickPrefix(waits, w, |waits|);
    BackoffValues(QuickInARow(waits + [w], |waits| + 1));
    QuickIsShort(waits, |waits|);
  }

  lemma {:induction false} LoopStands(waits: seq<nat>)
    requires Reached(FRESH, waits).Some?
    ensures StandsAt(Reached(FRESH, waits).value, waits)
    decreases |waits|
  {
    if waits == [] {
      StartOfLoop();
    } else {
      hide Reached, Restores;
      var n := |waits| - 1;
      assert waits == waits[..n] + [waits[n]];
      ReachedBefore(FRESH, waits[..n], waits[n]);
      LoopStands(waits[..n]);
      NextStands(Reached(FRESH, waits[..n]).value, waits[..n], waits[n]);
    }
  }

  /** After listeners that lived for `waits`, one that lives for `w` is given up on exactly when the
      flow is 170 seconds old, or when it died within five seconds and the listeners that did so one
      after the other up to it began 90 seconds ago. Otherwise its restore comes 1, 2, 4 or 8 seconds
      after its death, by their number. */
  lemma GivesUpExactly(waits: seq<nat>, w: nat)
    requires Reached(FRESH, waits).Some?
    ensures |Restores(FRESH, waits)| == |waits| && QuickInARow(waits + [w], |waits| + 1) <= |waits| + 1
    ensures var died, quick := Since(waits, |waits|) + w, QuickInARow(waits + [w], |waits| + 1);
            && (Reached(FRESH, waits + [w]).None?
                <==> died >= 170_000 || (w < 5_000 && died - Since(waits, |waits| + 1 - quick) >= 90_000))
            && (Reached(FRESH, waits + [w]).Some? ==>
                  Restores(FRESH, waits + [w]) == Restores(FRESH, waits) + [Restore(died + Seconds(quick), quick)])
  {
    hide Reached, Restores;
    LoopStands(waits);
    NextStands(Reached(FRESH, waits).value, waits, w);
  }

  // ----- Bounds -----

  /** A sum of the backoffs 1 to `q`: how long a run of `q` quick failures has lasted at least. */
  function QuickRun(q: nat): nat {
    if q == 0 then 0 else QuickRun(q - 1) + Backoff(q)
  }

  lemma BackoffValues(q: nat)
    ensures Backoff(q) == if q == 0 then 1_000 else if q == 1 then 2_000 else if q == 2 then 4_000 else 8_000
  {
    assert PowerOfTwo(1) == 2 && PowerOfTwo(2) == 4 && PowerOfTwo(3) == 8;
  }

  lemma {:induction false} QuickRunValues(q: nat)
    ensures q >= 2 ==> QuickRun(q) == 8_000 * q - 10_000
    ensures QuickRun(1) == 2_000 && QuickRun(0) == 0
  {
    BackoffValues(q);
    BackoffValues(1);
    BackoffValues(2);
    if q > 2 {
      QuickRunValues(q - 1);
    }
  }

  /** After `n` restores: four seconds have gone by for each of them, less two when the last
      listener before died quickly; and a run of quick failures has lasted as long as its backoffs. */
  predicate Paced(l: Loop, n: nat) {
    && l.listeningSince >= 4_000 * n - (if l.quickFailures == 0 then 0 else 2_000)
    && (l.quickFailures == 0 <==> l.outageSince.None?)
    && (l.outageSince.Some? ==> l.outageSince.value + QuickRun(l.quickFailures) <= l.listeningSince)
    && l.listeningSince < RESUME_WINDOW + MAX_BACKOFF
    && l.quickFailures <= 13
  }

  lemma RestoreKeepsPace(l: Loop, now: nat, n: nat)
    requires Paced(l, n) && l.listeningSince <= now
    ensures Resumed(l, now).Some? ==> n < 43 && Paced(Resumed(l, now).value, n + 1)
  {
    BackoffValues(Counted(l, now).quickFailures);
    QuickRunValues(l.quickFailures);
    QuickRunValues(l.quickFailures + 1);
  }

  lemma {:induction false} RestoresArePaced(l: Loop, waits: seq<nat>, n: nat)
    requires Paced(l, n) && n <= 43
    ensures n + |Restores(l, waits)| <= 43
    ensures forall i :: 0 <= i < |Restores(l, waits)| ==>
              Restores(l, waits)[i].at < 178_000 && Restores(l, waits)[i].quickFailures <= 13
    decreases |waits|
  {
    if waits != [] {
      var now := l.listeningSince + waits[0];
      RestoreKeepsPace(l, now, n);
      if Resumed(l, now).Some? {
        RestoresArePaced(Resumed(l, now).value, waits[1..], n + 1);
      }
    }
  }

  /** However long each listener lives: every restore begins less than 178 seconds after the flow
      started, no run of quick failures counts more than 13, and there are at most 43 restores. */
  lemma RestoreBounds(waits: seq<nat>)
    ensures |Restores(FRESH, waits)| <= 43
    ensures forall i :: 0 <= i < |Restores(FRESH, waits)| ==>
              Restores(FRESH, waits)[i].at < 178_000 && Restores(FRESH, waits)[i].quickFailures <= 13
  {
    RestoresArePaced(FRESH, waits, 0);
  }

  lemma RestoreCount(l: Loop, waits: seq<nat>)
    requires waits != []
    ensures |Restores(l, waits)| ==
              match Resumed(l, l.listeningSince + waits[0])
              case None => 0
              case Some(next) => 1 + |Restores(next, waits[1..])|
  {
    hide Resumed;
  }

  /** The worst rhythm: two listeners that die at once, then one that lives five seconds. */
  function Rhythm(cycles: nat): seq<nat> {
    if cycles == 0 then [0, 0] else [0, 0, QUICK_FAILURE] + Rhythm(cycles - 1)
  }

  /** One cycle of the rhythm: three restores in twelve seconds. */
  lemma RhythmCycle(t: nat, rest: seq<nat>)
    requires t + 12_000 <= RESUME_WINDOW
    ensures |Restores(Loop(t, 0, None), [0, 0, QUICK_FAILURE] + rest)|
         == 3 + |Restores(Loop(t + 12_000, 0, None), rest)|
  {
    hide Backoff;
    BackoffValues(0);
    BackoffValues(1);
    BackoffValues(2);
    var w := [0, 0, QUICK_FAILURE] + rest;
    assert w[1..] == [0, QUICK_FAILURE] + rest;
    assert w[1..][1..] == [QUICK_FAILURE] + rest;
    assert w[1..][1..][1..] == rest;
    var l0 := Loop(t, 0, None);
    var l1 := Loop(t + 2_000, 1, Some(t));
    var l2 := Loop(t + 6_000, 2, Some(t));
    var l3 := Loop(t + 12_000, 0, None);
    assert Resumed(l0, t) == Some(l1);
    assert Resumed(l1, t + 2_000) == Some(l2);
    assert Resumed(l2, t + 11_000) == Some(l3);
    hide Resumed, Restores;
    RestoreCount(l0, w);
    RestoreCount(l1, w[1..]);
    RestoreCount(l2, w[1..][1..]);
  }

  lemma {:induction false} RhythmCounts(cycles: nat)
    requires cycles <= 14
    ensures |Restores(Loop(12_000 * (14 - cycles), 0, None), Rhythm(cycles))| == 3 * cycles + 1
  {
    if cycles == 0 {
      BackoffValues(1);
      var l1 := Resumed(Loop(168_000, 0, None), 168_000).value;
      assert l1 == Loop(170_000, 1, Some(168_000));
      assert Resumed(l1, 170_000).None?;
      assert [0, 0][1..] == [0];
    } else {
      RhythmCycle(12_000 * (14 - cycles), Rhythm(cycles - 1));
      RhythmCounts(cycles - 1);
    }
  }

  /** The bound of 43 is reached. */
  lemma FortyThreeIsReached()
    ensures |Restores(FRESH, Rhythm(14))| == 43
  {
    RhythmCounts(14);
  }

  function Zeros(n: nat): seq<nat> {
    if n == 0 then [] else [0] + Zeros(n - 1)
  }

  lemma ZerosTail(n: nat)
    ensures Zeros(n + 1) != [] && Zeros(n + 1)[0] == 0 && Zeros(n + 1)[1..] == Zeros(n)
  {
  }

  lemma QuickRunStep(q: nat)
    requires q <= 13
    ensures Resumed(Loop(QuickRun(q), q, if q == 0 then None else Some(0)), QuickRun(q)) ==
              if q < 13 then Some(Loop(QuickRun(q + 1), q + 1, Some(0))) else None
  {
    hide QuickRun, Backoff;
    QuickRunValues(q);
    QuickRunValues(q + 1);
    BackoffValues(q + 1);
  }

  /** Listeners that all die at once get thirteen restores and no more. */
  lemma {:induction false} QuickRunCounts(q: nat)
    requires q <= 13
    ensures |Restores(Loop(QuickRun(q), q, if q == 0 then None else Some(0)), Zeros(14 - q))| == 13 - q
    decreases 14 - q
  {
    hide *;
    var l := Loop(QuickRun(q), q, if q == 0 then None else Some(0));
    QuickRunStep(q);
    ZerosTail(13 - q);
    RestoreCount(l, Zeros(14 - q));
    if q < 13 {
      QuickRunCounts(q + 1);
    }
  }
}
