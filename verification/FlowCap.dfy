/** How many flows the registry can hold: the cap on live flows under racing starts, and the bound
    of twice the cap on what a sweep leaves behind. */
module FlowCap {
  import opened Common
  import opened FlowRegistry
  import opened FlowProtocol
  import opened FlowRuns

  /** Starts use these limits, and stamp their flow at most `delay` before inserting it. */
  predicate LimitedStart(s: State, a: Action, ttl: nat, maxFlows: nat, delay: nat) {
    a.Start? ==> a.ttl == ttl && a.maxFlows == maxFlows && s.now - a.started <= delay
  }

  ghost predicate Limited(r: Run, ttl: nat, maxFlows: nat, delay: nat)
    requires Valid(r)
  {
    forall i :: 0 <= i < |r.acts| ==> LimitedStart(r.states[i], r.acts[i], ttl, maxFlows, delay)
  }

  /** Entries whose flow started within `length` after `from`. */
  function Window(flows: Flows, from: int, length: int): set<nat> {
    set id | id in flows && from <= flows[id].started <= from + length
  }

  predicate SameStarts(flows: Flows, flows': Flows) {
    forall id :: id in flows' ==> id in flows && flows'[id].started == flows[id].started
  }

  /** Every step but a start only removes entries or leaves them with their start. */
  lemma OnlyStartsAdd(s: State, a: Action)
    requires Enabled(s, a)
    ensures s.now <= Apply(s, a).now
    ensures !a.Start? ==> SameStarts(s.flows, Apply(s, a).flows)
  {
  }

  lemma CapStep(s: State, a: Action, ttl: nat, maxFlows: nat, delay: nat)
    requires Enabled(s, a) && LimitedStart(s, a, ttl, maxFlows, delay)
    requires |Live(s.flows, s.now, ttl)| <= maxFlows
    ensures |Live(Apply(s, a).flows, Apply(s, a).now, ttl)| <= maxFlows
  {
    var s' := Apply(s, a);
    OnlyStartsAdd(s, a);
    var before, after := Live(s.flows, s.now, ttl), Live(s'.flows, s'.now, ttl);
    if a.Start? {
      SubsetSize(after, before + {a.id});
    } else {
      SubsetSize(after, before);
    }
  }

  /** Racing starts never put more live flows in the map than the cap allows, however long each of
      them took between its stamp and its insert. */
  lemma {:induction false} CapHolds(r: Run, ttl: nat, maxFlows: nat, delay: nat, i: nat)
    requires Valid(r) && Limited(r, ttl, maxFlows, delay) && i < |r.states|
    ensures |Live(r.states[i].flows, r.states[i].now, ttl)| <= maxFlows
    ensures |set id | id in r.states[i].flows && r.states[i].now - r.states[i].flows[id].started <= ttl| <= maxFlows
    decreases i
  {
    if i == 0 {
      assert Live(r.states[0].flows, r.states[0].now, ttl) == {};
    } else {
      CapHolds(r, ttl, maxFlows, delay, i - 1);
      StepTo(r, i);
      assert LimitedStart(r.states[i - 1], r.acts[i - 1], ttl, maxFlows, delay);
      CapStep(r.states[i - 1], r.acts[i - 1], ttl, maxFlows, delay);
    }
    assert Live(r.states[i].flows, r.states[i].now, ttl)
        == set id | id in r.states[i].flows && r.states[i].now - r.states[i].flows[id].started <= ttl;
  }

  predicate NoneFromTheFuture(s: State) {
    forall id :: id in s.flows ==> s.flows[id].started <= s.now
  }

  lemma WindowStep(s: State, a: Action, ttl: nat, maxFlows: nat, delay: nat, from: int)
    requires Enabled(s, a) && LimitedStart(s, a, ttl, maxFlows, delay) && NoneFromTheFuture(s)
    requires |Window(s.flows, from, ttl - delay)| <= maxFlows
    ensures |Window(Apply(s, a).flows, from, ttl - delay)| <= maxFlows
    ensures NoneFromTheFuture(Apply(s, a))
  {
    var s' := Apply(s, a);
    OnlyStartsAdd(s, a);
    var before, after := Window(s.flows, from, ttl - delay), Window(s'.flows, from, ttl - delay);
    if a.Start? && from <= a.started <= from + ttl - delay {
      SubsetSize(before, Live(s.flows, s.now, ttl));
      SubsetSize(after, before + {a.id});
    } else {
      SubsetSize(after, before);
    }
  }

  /** In every state and for every stretch of `ttl - delay`, at most the cap's number of entries
      started within it. */
  lemma {:induction false} WindowHolds(r: Run, ttl: nat, maxFlows: nat, delay: nat, from: int, i: nat)
    requires Valid(r) && Limited(r, ttl, maxFlows, delay) && i < |r.states|
    ensures |Window(r.states[i].flows, from, ttl - delay)| <= maxFlows
    ensures NoneFromTheFuture(r.states[i])
    decreases i
  {
    if i == 0 {
      assert Window(r.states[0].flows, from, ttl - delay) == {};
    } else {
      WindowHolds(r, ttl, maxFlows, delay, from, i - 1);
      StepTo(r, i);
      assert LimitedStart(r.states[i - 1], r.acts[i - 1], ttl, maxFlows, delay);
      WindowStep(r.states[i - 1], r.acts[i - 1], ttl, maxFlows, delay, from);
    }
  }

  // ----- What a sweep leaves -----

  predicate SweepsWith(a: Action, ttl: nat) {
    a == Sweep(ttl) || (a.Take? && a.ttl == ttl)
  }

  lemma AfterASweep(s: State, a: Action, ttl: nat, id: nat)
    requires Enabled(s, a) && SweepsWith(a, ttl) && NoneFromTheFuture(s) && id in Idle(Apply(s, a).flows)
    ensures Apply(s, a).now == s.now && s.now - 2 * ttl <= Apply(s, a).flows[id].started <= s.now
  {
  }

  lemma TwoWindows(flows: Flows, from: int, before: nat, length: nat)
    ensures |Window(flows, from, before + length)|
            <= |Window(flows, from, before - 1)| + |Window(flows, from + before, length)|
  {
    var first, last := Window(flows, from, before - 1), Window(flows, from + before, length);
    SubsetSize(Window(flows, from, before + length), first + last);
    assert |first + last| <= |first| + |last|;
  }

  /** Back-to-back stretches, each with at most `maxFlows` starts in it. */
  lemma {:induction false} ManyWindows(flows: Flows, from: int, length: nat, maxFlows: nat, n: nat)
    requires forall at: int :: |Window(flows, at, length)| <= maxFlows
    ensures |Window(flows, from, n * (length + 1) - 1)| <= n * maxFlows
  {
    if n == 0 {
      assert Window(flows, from, -1) == {};
    } else {
      hide Window;
      ManyWindows(flows, from, length, maxFlows, n - 1);
      var before := (n - 1) * (length + 1);
      TwoWindows(flows, from, before, length);
      assert n * (length + 1) - 1 == before + length;
      assert n * maxFlows == (n - 1) * maxFlows + maxFlows;
    }
  }

  /** What a sweep leaves idle is live or started in the TTL before the live ones. */
  lemma IdleSize(s: State, a: Action, ttl: nat, reach: nat)
    requires Enabled(s, a) && SweepsWith(a, ttl) && NoneFromTheFuture(s) && ttl <= reach
    ensures var flows := Apply(s, a).flows;
            |Idle(flows)| <= |Live(flows, Apply(s, a).now, ttl)| + |Window(flows, Apply(s, a).now - 2 * ttl, reach - 1)|
  {
    var flows, now := Apply(s, a).flows, Apply(s, a).now;
    var live, earlier := Live(flows, now, ttl), Window(flows, now - 2 * ttl, reach - 1);
    forall id | id in Idle(flows) ensures id in live + earlier {
      AfterASweep(s, a, ttl, id);
    }
    SubsetSize(Idle(flows), live + earlier);
    assert |live + earlier| <= |live| + |earlier|;
  }

  /** However late inserts are: when `n` stretches of `ttl - delay` make up a TTL, the flows a sweep
      leaves that no call has in hand number at most `n + 1` times the cap. */
  lemma IdleBound(r: Run, ttl: nat, maxFlows: nat, delay: nat, n: nat, i: nat)
    requires Valid(r) && Limited(r, ttl, maxFlows, delay) && i < |r.acts| && SweepsWith(r.acts[i], ttl)
    requires delay <= ttl && ttl <= n * (ttl - delay + 1)
    ensures |Idle(r.states[i + 1].flows)| <= (n + 1) * maxFlows
  {
    StepTo(r, i + 1);
    hide *;
    var flows, now := r.states[i + 1].flows, r.states[i + 1].now;
    var length := ttl - delay;
    forall at: int ensures |Window(flows, at, length)| <= maxFlows {
      WindowHolds(r, ttl, maxFlows, delay, at, i + 1);
    }
    CapHolds(r, ttl, maxFlows, delay, i + 1);
    WindowHolds(r, ttl, maxFlows, delay, 0, i);
    ManyWindows(flows, now - 2 * ttl, length, maxFlows, n);
    IdleSize(r.states[i], r.acts[i], ttl, n * (length + 1));
    assert (n + 1) * maxFlows == n * maxFlows + maxFlows;
  }

  /** When starts insert within a tick of their stamp, a sweep leaves at most twice the cap. */
  lemma TwiceTheCap(r: Run, ttl: nat, maxFlows: nat, delay: nat, i: nat)
    requires Valid(r) && Limited(r, ttl, maxFlows, delay) && i < |r.acts| && SweepsWith(r.acts[i], ttl)
    requires delay <= 1 || ttl == 0
    ensures |Idle(r.states[i + 1].flows)| <= 2 * maxFlows
  {
    if 1 <= ttl || delay == 0 {
      IdleBound(r, ttl, maxFlows, delay, 1, i);
    } else {
      StepTo(r, i + 1);
      WindowHolds(r, ttl, maxFlows, delay, 0, i);
      CapHolds(r, ttl, maxFlows, delay, i + 1);
      IdleSize(r.states[i], r.acts[i], ttl, 0);
      assert Window(r.states[i + 1].flows, r.states[i + 1].now, -1) == {};
    }
  }

  // ----- Twice the cap needs prompt inserts -----

  /** Flows started one after the other and left alone. */
  function LeftAlone(now: nat, starts: seq<nat>): State {
    State(now,
          map id: nat | id < |starts| :: Entry(Some(Listener(id, Quiet)), true, starts[id]),
          map[],
          map id: nat | id < |starts| :: Channel(starts[id], true, Unposted),
          |starts|, {}, {})
  }

  ghost predicate ReachesAlone(r: Run, ttl: nat, maxFlows: nat, now: nat, starts: seq<nat>) {
    Valid(r) && Limited(r, ttl, maxFlows, 2) && r.states[|r.acts|] == LeftAlone(now, starts)
  }

  function Extended(r: Run, a: Action): Run
    requires |r.states| == |r.acts| + 1 && Enabled(r.states[|r.acts|], a)
  {
    Trace(r.states + [Apply(r.states[|r.acts|], a)], r.acts + [a])
  }

  lemma ExtendedIsValid(r: Run, a: Action, ttl: nat, maxFlows: nat)
    requires Valid(r) && Limited(r, ttl, maxFlows, 2) && Enabled(r.states[|r.acts|], a)
    requires LimitedStart(r.states[|r.acts|], a, ttl, maxFlows, 2)
    ensures Valid(Extended(r, a)) && Limited(Extended(r, a), ttl, maxFlows, 2)
  {
    var e := Extended(r, a);
    forall i | 0 <= i < |e.acts|
      ensures StepAt(e, i) && LimitedStart(e.states[i], e.acts[i], ttl, maxFlows, 2)
    {
      if i < |r.acts| { assert StepAt(r, i) && LimitedStart(r.states[i], r.acts[i], ttl, maxFlows, 2); }
    }
  }

  lemma StartAlone(now: nat, starts: seq<nat>, stamp: nat, ttl: nat, maxFlows: nat)
    requires stamp <= now && |Live(LeftAlone(now, starts).flows, now, ttl)| < maxFlows
    ensures var a := Start(|starts|, stamp, true, ttl, maxFlows);
            Enabled(LeftAlone(now, starts), a) && Apply(LeftAlone(now, starts), a) == LeftAlone(now, starts + [stamp])
    ensures |Live(LeftAlone(now, starts + [stamp]).flows, now, ttl)|
            <= |Live(LeftAlone(now, starts).flows, now, ttl)| + 1
  {
    var s, s' := LeftAlone(now, starts), LeftAlone(now, starts + [stamp]);
    assert s'.flows == s.flows[|starts| := Entry(Some(Listener(|starts|, Quiet)), true, stamp)];
    assert s'.relay == s.relay[|starts| := Channel(stamp, true, Unposted)];
    hide LeftAlone;
    SubsetSize(Live(s'.flows, now, ttl), Live(s.flows, now, ttl) + {|starts|});
  }

  function Times(stamp: nat, n: nat): (s: seq<nat>)
    ensures |s| == n && forall i :: 0 <= i < n ==> s[i] == stamp
  {
    seq(n, _ => stamp)
  }

  /** `n` starts in a row with the same stamp, where the cap has room for them. */
  lemma {:induction false} Batch(r: Run, ttl: nat, maxFlows: nat, now: nat, starts: seq<nat>, stamp: nat, n: nat)
      returns (r': Run)
    requires ReachesAlone(r, ttl, maxFlows, now, starts) && stamp <= now <= stamp + 2
    requires |Live(LeftAlone(now, starts).flows, now, ttl)| + n <= maxFlows
    ensures ReachesAlone(r', ttl, maxFlows, now, starts + Times(stamp, n))
    decreases n
  {
    if n == 0 {
      r' := r;
      assert starts + Times(stamp, 0) == starts;
    } else {
      var a := Start(|starts|, stamp, true, ttl, maxFlows);
      StartAlone(now, starts, stamp, ttl, maxFlows);
      ExtendedIsValid(r, a, ttl, maxFlows);
      hide *;
      r' := Batch(Extended(r, a), ttl, maxFlows, now, starts + [stamp], stamp, n - 1);
      assert starts + [stamp] + Times(stamp, n - 1) == starts + Times(stamp, n);
    }
  }

  predicate AllBy(starts: seq<nat>, time: int) {
    forall i :: 0 <= i < |starts| ==> starts[i] <= time
  }

  /** Once every flow so far has expired there is room for as many as the cap allows. */
  lemma NextBatch(r: Run, ttl: nat, maxFlows: nat, now: nat, starts: seq<nat>, later: nat, stamp: nat)
      returns (r': Run, starts': seq<nat>)
    requires ReachesAlone(r, ttl, maxFlows, now, starts) && now <= later && stamp <= later <= stamp + 2
    requires AllBy(starts, later - ttl - 1) && AllBy(starts, stamp)
    ensures ReachesAlone(r', ttl, maxFlows, later, starts')
    ensures AllBy(starts', stamp) && |starts'| == |starts| + maxFlows
  {
    var a := Tick(later - now);
    ExtendedIsValid(r, a, ttl, maxFlows);
    assert Live(LeftAlone(later, starts).flows, later, ttl) == {};
    r' := Batch(Extended(r, a), ttl, maxFlows, later, starts, stamp, maxFlows);
    starts' := starts + Times(stamp, maxFlows);
  }

  lemma AllByLater(starts: seq<nat>, time: int, later: int)
    requires AllBy(starts, time) && time <= later
    ensures AllBy(starts, later)
  {
  }

  lemma NothingYet(ttl: nat, maxFlows: nat)
    ensures ReachesAlone(Trace([INITIAL], []), ttl, maxFlows, 0, []) && AllBy([], 0 - ttl - 1) && AllBy([], 0)
  {
  }

  /** Starts that stamp their flow two ticks before inserting it break the bound under every TTL and
      every cap: a sweep can leave three times the cap. */
  lemma SlowStartsPassTwiceTheCap(ttl: nat, maxFlows: nat) returns (r: Run, i: nat)
    requires ttl >= 1
    ensures Valid(r) && Limited(r, ttl, maxFlows, 2) && i < |r.acts| && r.acts[i] == Sweep(ttl)
    ensures |Idle(r.states[i + 1].flows)| == 3 * maxFlows
  {
    hide *;
    var starts;
    NothingYet(ttl, maxFlows);
    r, starts := NextBatch(Trace([INITIAL], []), ttl, maxFlows, 0, [], 0, 0);
    AllByLater(starts, 0, ttl - 1);
    r, starts := NextBatch(r, ttl, maxFlows, 0, starts, ttl + 1, ttl - 1);
    AllByLater(starts, ttl - 1, 2 * ttl - 2);
    r, starts := NextBatch(r, ttl, maxFlows, ttl + 1, starts, 2 * ttl, 2 * ttl - 2);
    r, i := SweepAlone(r, ttl, maxFlows, 2 * ttl, starts);
  }

  /** A sweep that finds nothing past collection leaves every flow. */
  lemma SweepAlone(r: Run, ttl: nat, maxFlows: nat, now: nat, starts: seq<nat>) returns (r': Run, i: nat)
    requires ReachesAlone(r, ttl, maxFlows, now, starts) && now <= 2 * ttl
    ensures Valid(r') && Limited(r', ttl, maxFlows, 2) && i < |r'.acts| && r'.acts[i] == Sweep(ttl)
    ensures |Idle(r'.states[i + 1].flows)| == |starts|
  {
    var s, a := LeftAlone(now, starts), Sweep(ttl);
    ExtendedIsValid(r, a, ttl, maxFlows);
    r', i := Extended(r, a), |r.acts|;
    assert Swept(s.flows, now, ttl) == s.flows;
    assert Idle(s.flows) == Below(|starts|);
  }

  function Below(n: nat): (s: set<nat>)
    ensures |s| == n && forall id: nat :: id in s <==> id < n
  {
    if n == 0 then {} else
      var below := Below(n - 1);
      assert n - 1 !in below;
      below + {n - 1}
  }

  ghost predicate TwiceTheCapBoundsSweeps(ttl: nat, maxFlows: nat, delay: nat) {
    forall r: Run, i: nat ::
      Valid(r) && Limited(r, ttl, maxFlows, delay) && i < |r.acts| && SweepsWith(r.acts[i], ttl) ==>
        |Idle(r.states[i + 1].flows)| <= 2 * maxFlows
  }

  /** So twice the cap bounds every sweep exactly when inserts come within a tick of their stamp. */
  lemma TwiceTheCapExactly(ttl: nat, maxFlows: nat, delay: nat)
    requires maxFlows >= 1
    ensures TwiceTheCapBoundsSweeps(ttl, maxFlows, delay) <==> delay <= 1 || ttl == 0
  {
    if delay <= 1 || ttl == 0 {
      forall r: Run, i: nat | Valid(r) && Limited(r, ttl, maxFlows, delay) && i < |r.acts| && SweepsWith(r.acts[i], ttl)
        ensures |Idle(r.states[i + 1].flows)| <= 2 * maxFlows
      {
        TwiceTheCap(r, ttl, maxFlows, delay, i);
      }
    } else {
      var r, i := SlowStartsPassTwiceTheCap(ttl, maxFlows);
      forall k | 0 <= k < |r.acts| ensures LimitedStart(r.states[k], r.acts[k], ttl, maxFlows, delay) {
        assert LimitedStart(r.states[k], r.acts[k], ttl, maxFlows, 2);
      }
    }
  }
}
