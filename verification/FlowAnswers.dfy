/** Why each call on a flow answers what it answers: the step that decides it, both ways. */
module FlowAnswers {
  import opened Common
  import opened FlowRegistry
  import opened FlowProtocol
  import opened FlowRuns

  /** What a call has been decided to answer, if anything. */
  function Told(pc: Pc): Option<Reply> {
    match pc
    case Closing(reply) => Some(reply)
    case Done(reply) => Some(reply)
    case _ => None
  }

  predicate Finds(s: State, a: Action, c: nat, mail: Mail) {
    Looks(a, c) && c in s.calls && s.calls[c].hand.Some? && s.calls[c].hand.value.mail == mail
  }

  /** The step is a take of `id` by `c` while a listener is in another call's hands. */
  predicate FindsBusy(s: State, a: Action, c: nat, kind: Kind) {
    a.Take? && a.c == c && a.kind == kind && a.id in s.flows && s.flows[a.id].listener.None?
  }

  /** The steps that decide each answer. */
  predicate Decides(s: State, a: Action, c: nat, reply: Reply) {
    match reply
    case Approved => Finds(s, a, c, Approval) && a.exchanged
    case ExchangeFailed => Finds(s, a, c, Approval) && !a.exchanged
    case ListenerFailed =>
      Finds(s, a, c, OtherFault) || (Finds(s, a, c, RelayFault) && !s.calls[c].resumable)
    case ExpiredReply => JudgesExpired(s, a, c)
    case Unresumable =>
      a.Restore? && a.c == c && c in s.calls && (!a.ok || s.now - s.calls[c].started > a.ttl)
    case Cancelled =>
      && c in s.calls
      && (a == Notified(c) || (a == GiveBack(c) && s.calls[c].id !in s.flows))
    case Pending =>
      || FindsBusy(s, a, c, Poll)
      || (a == GiveBack(c) && c in s.calls && s.calls[c].id in s.flows)
    case AlreadyAwaited => FindsBusy(s, a, c, Await)
    case NoSuchFlow => a.Take? && a.c == c && a.id !in s.flows
  }

  lemma DecidedBy(s: State, a: Action, c: nat)
    requires Inv(s) && Enabled(s, a) && c in Apply(s, a).calls && Told(Apply(s, a).calls[c].pc).Some?
    ensures var reply := Told(Apply(s, a).calls[c].pc).value;
            Decides(s, a, c, reply) || (c in s.calls && Told(s.calls[c].pc) == Some(reply))
  {
    hide Apply, Enabled, Decides;
    if c !in s.calls { DecidedByTake(s, a, c); }
    else if Inward(a) { DecidedInward(s, a, c); }
    else { DecidedOutward(s, a, c); }
  }

  lemma DecidedInward(s: State, a: Action, c: nat)
    requires Inv(s) && Enabled(s, a) && Inward(a)
    requires c in s.calls && c in Apply(s, a).calls && Told(Apply(s, a).calls[c].pc).Some?
    ensures var reply := Told(Apply(s, a).calls[c].pc).value;
            Decides(s, a, c, reply) || Told(s.calls[c].pc) == Some(reply)
  {
    assert CallOk(s, s.calls[c]);
    hide Inv;
  }

  lemma DecidedOutward(s: State, a: Action, c: nat)
    requires Enabled(s, a) && !Inward(a)
    requires c in s.calls && c in Apply(s, a).calls && Told(Apply(s, a).calls[c].pc).Some?
    ensures var reply := Told(Apply(s, a).calls[c].pc).value;
            Decides(s, a, c, reply) || Told(s.calls[c].pc) == Some(reply)
  {
  }

  lemma DecidedByTake(s: State, a: Action, c: nat)
    requires Enabled(s, a) && c !in s.calls && c in Apply(s, a).calls && Told(Apply(s, a).calls[c].pc).Some?
    ensures Decides(s, a, c, Told(Apply(s, a).calls[c].pc).value)
  {
  }

  lemma DecidesIt(s: State, a: Action, c: nat, reply: Reply)
    requires Inv(s) && Enabled(s, a) && Decides(s, a, c, reply)
    ensures c in Apply(s, a).calls && Told(Apply(s, a).calls[c].pc) == Some(reply)
  {
    if a.Look? { LookTells(s, a, c, reply); } else { OtherTells(s, a, c, reply); }
  }

  lemma LookTells(s: State, a: Action, c: nat, reply: Reply)
    requires Enabled(s, a) && a.Look? && Decides(s, a, c, reply)
    ensures c in Apply(s, a).calls && Told(Apply(s, a).calls[c].pc) == Some(reply)
  {
  }

  lemma OtherTells(s: State, a: Action, c: nat, reply: Reply)
    requires Inv(s) && Enabled(s, a) && !a.Look? && Decides(s, a, c, reply)
    ensures c in Apply(s, a).calls && Told(Apply(s, a).calls[c].pc) == Some(reply)
  {
    hide Inv;
  }

  lemma DecidedOnce(s: State, a: Action, c: nat, reply: Reply)
    requires Enabled(s, a) && c in s.calls && Told(s.calls[c].pc) == Some(reply)
    ensures c in Apply(s, a).calls && Told(Apply(s, a).calls[c].pc) == Some(reply)
  {
    DecidedStays(s, a, c);
    hide Apply, Enabled;
  }

  ghost predicate DecidedAt(r: Run, k: nat, c: nat, reply: Reply) {
    k < |r.acts| < |r.states| && Decides(r.states[k], r.acts[k], c, reply)
  }

  /** A call answers `reply` exactly when a step decided so: an approval in the channel at its look, a
      fault there that cannot be resumed, the clock past the TTL, a restore that failed, a cancel, a
      give-back, or what its take found. */
  lemma {:induction false} AnswersExactly(r: Run, i: nat, c: nat, reply: Reply)
    requires Valid(r) && i < |r.states|
    ensures c in r.states[i].calls && Told(r.states[i].calls[c].pc) == Some(reply)
            <==> exists k: nat :: k < i && DecidedAt(r, k, c, reply)
    decreases i
  {
    if i > 0 {
      hide Apply, Enabled, Inv, Decides;
      AnswersExactly(r, i - 1, c, reply);
      StepTo(r, i);
      var s, a := r.states[i - 1], r.acts[i - 1];
      if c in r.states[i].calls && Told(r.states[i].calls[c].pc) == Some(reply) {
        DecidedBy(s, a, c);
        assert Decides(s, a, c, reply) ==> DecidedAt(r, i - 1, c, reply);
      }
      if k: nat :| k < i && DecidedAt(r, k, c, reply) {
        if k < i - 1 { DecidedOnce(s, a, c, reply); } else { DecidesIt(s, a, c, reply); }
      }
    }
  }

  /** A flow is what its start said: its time, and whether it can be rejoined. */
  lemma {:induction false} AsStarted(r: Run, i: nat, id: nat) returns (k: nat)
    requires Valid(r) && i < |r.states| && id in r.states[i].relay
    ensures k < i && r.acts[k].Start? && r.acts[k].id == id
    ensures r.states[i].relay[id].started == r.acts[k].started && r.states[i].relay[id].resumable == r.acts[k].resumable
    decreases i
  {
    assert i > 0;
    StepTo(r, i);
    var s, a := r.states[i - 1], r.acts[i - 1];
    if id in s.relay { k := AsStarted(r, i - 1, id); } else { k := i - 1; }
  }

  /** And so is what a call has in hand. */
  lemma HeldAsStarted(r: Run, i: nat, c: nat, id: nat) returns (k: nat)
    requires Valid(r) && i < |r.states| && Holds(r.states[i], c, id)
    ensures k < i && r.acts[k].Start? && r.acts[k].id == id
    ensures r.states[i].calls[c].started == r.acts[k].started && r.states[i].calls[c].resumable == r.acts[k].resumable
  {
    RunInv(r, i);
    assert CallOk(r.states[i], r.states[i].calls[c]);
    k := AsStarted(r, i, id);
  }

  /** A flow just started is there to be taken, until it is taken, cancelled, or older than twice the
      TTL. */
  lemma StartedFlowsAreKept(r: Run, ttl: nat, i: nat, j: nat, id: nat)
    requires Valid(r) && FixedTtl(r, ttl) && i < j < |r.states| && r.acts[i].Start? && r.acts[i].id == id
    requires r.states[j].now - r.acts[i].started <= 2 * ttl
    requires forall k :: i < k < j ==> r.acts[k] != Cancel(id) && !(r.acts[k].Take? && r.acts[k].id == id)
    ensures id in Idle(r.states[j].flows) && r.states[j].flows[id].started == r.acts[i].started
  {
    StepTo(r, i + 1);
    IdleFlowKept(r, ttl, i + 1, j, id);
  }

  lemma {:induction false} EndedForGood(r: Run, i: nat, j: nat, c: nat, id: nat)
    requires Valid(r) && i <= j < |r.states| && FlowRuns.Ended(r.states[i], c, id)
    ensures FlowRuns.Ended(r.states[j], c, id)
    decreases j
  {
    if i < j {
      EndedForGood(r, i, j - 1, c, id);
      StepTo(r, j);
      DecidedStays(r.states[j - 1], r.acts[j - 1], c);
    }
  }

  /** Once a call has ended a flow, every later poll or await of it is told there is no such flow. */
  lemma NoSuchFlowAfterwards(r: Run, i: nat, j: nat, c: nat, d: nat, id: nat, kind: Kind, ttl: nat)
    requires Valid(r) && i <= j && i < |r.states|
    requires FlowRuns.Ended(r.states[i], c, id) && Does(r, j, Take(d, id, kind, ttl))
    ensures d in r.states[j + 1].calls && r.states[j + 1].calls[d].pc == Done(NoSuchFlow)
  {
    EndedForGood(r, i, j, c, id);
    EndsOnce(r, j, c, c, id);
  }

  /** While a call has a flow in hand and nobody cancelled it, a poll of it says pending at once and an
      await is refused. */
  lemma BusyIsTold(r: Run, j: nat, c: nat, d: nat, id: nat, kind: Kind, ttl: nat)
    requires Valid(r) && Does(r, j, Take(d, id, kind, ttl)) && Holds(r.states[j], c, id) && id !in r.states[j].cancelled
    ensures d in r.states[j + 1].calls
    ensures r.states[j + 1].calls[d].pc == Done(if kind.Poll? then Pending else AlreadyAwaited)
  {
    RunInv(r, j);
    assert CallOk(r.states[j], r.states[j].calls[c]);
  }

  // ----- Which listener a call has -----

  predicate BeingReplaced(pc: Pc) {
    pc.Broken? || pc.BackingOff? || pc.Restoring?
  }

  lemma ReplacedStep(s: State, a: Action, c: nat)
    requires Enabled(s, a) && c in Apply(s, a).calls && BeingReplaced(Apply(s, a).calls[c].pc)
    ensures c in s.calls && (Finds(s, a, c, RelayFault) || (BeingReplaced(s.calls[c].pc) && !Looks(a, c)))
  {
  }

  /** A listener is replaced only after a look that found it dead of the relay, the last look there
      was. */
  lemma {:induction false} ReplacedAfterRelayFailure(r: Run, i: nat, c: nat) returns (l: nat)
    requires Valid(r) && i < |r.states| && c in r.states[i].calls && BeingReplaced(r.states[i].calls[c].pc)
    ensures l < i && Finds(r.states[l], r.acts[l], c, RelayFault) && NoLooks(r, c, l + 1, i)
    decreases i
  {
    assert i > 0;
    StepTo(r, i);
    ReplacedStep(r.states[i - 1], r.acts[i - 1], c);
    hide Apply, Enabled, Inv, Finds;
    if Finds(r.states[i - 1], r.acts[i - 1], c, RelayFault) {
      l := i - 1;
    } else {
      l := ReplacedAfterRelayFailure(r, i - 1, c);
    }
  }

  predicate HasSerial(s: State, c: nat, serial: nat) {
    c in s.calls && s.calls[c].hand.Some? && s.calls[c].hand.value.serial == serial
  }

  lemma SerialStep(s: State, a: Action, c: nat, serial: nat)
    requires Enabled(s, a) && HasSerial(s, c, serial) && !(a.Restore? && a.c == c)
    requires c in Apply(s, a).calls && Apply(s, a).calls[c].hand.Some?
    ensures HasSerial(Apply(s, a), c, serial)
  {
  }

  lemma HandGone(s: State, a: Action, c: nat)
    requires Inv(s) && Enabled(s, a) && c in s.calls && s.calls[c].hand.None?
    ensures c in Apply(s, a).calls && Apply(s, a).calls[c].hand.None?
  {
    assert CallOk(s, s.calls[c]);
    hide Inv;
  }

  /** Without a restore, a call has the very listener it took. */
  lemma {:induction false} SameListener(r: Run, k: nat, i: nat, c: nat, serial: nat)
    requires Valid(r) && k <= i < |r.states| && HasSerial(r.states[k], c, serial)
    requires forall j :: k <= j < i ==> !(r.acts[j].Restore? && r.acts[j].c == c)
    requires c in r.states[i].calls && r.states[i].calls[c].hand.Some?
    ensures HasSerial(r.states[i], c, serial)
    decreases i
  {
    if k < i {
      StepTo(r, i);
      hide Apply, Enabled, Inv, HasSerial;
      HandBefore(r, k, i, c, serial);
      SameListener(r, k, i - 1, c, serial);
      SerialStep(r.states[i - 1], r.acts[i - 1], c, serial);
    }
  }

  lemma HandBefore(r: Run, k: nat, i: nat, c: nat, serial: nat)
    requires Valid(r) && k < i < |r.states| && HasSerial(r.states[k], c, serial)
    requires c in r.states[i].calls && r.states[i].calls[c].hand.Some?
    ensures c in r.states[i - 1].calls && r.states[i - 1].calls[c].hand.Some?
  {
    CallsStay(r, k, i - 1, c);
    StepTo(r, i);
    hide Apply, Enabled, Inv;
    if r.states[i - 1].calls[c].hand.None? { HandGone(r.states[i - 1], r.acts[i - 1], c); }
  }

  lemma {:induction false} CallsStay(r: Run, i: nat, j: nat, c: nat)
    requires Valid(r) && i <= j < |r.states| && c in r.states[i].calls
    ensures c in r.states[j].calls
    decreases j
  {
    if i < j {
      CallsStay(r, i, j - 1, c);
      StepTo(r, j);
    }
  }

  /** A call that took a flow and gives it back without a restore puts back the listener it took. */
  lemma SameListenerBack(r: Run, k: nat, i: nat, c: nat, id: nat, kind: Kind, ttl: nat)
    requires Valid(r) && k < i && Does(r, k, Take(c, id, kind, ttl)) && Does(r, i, GiveBack(c))
    requires id in r.states[k].flows && r.states[k].flows[id].listener.Some?
    requires forall j :: k < j < i ==> !(r.acts[j].Restore? && r.acts[j].c == c)
    ensures r.states[i].calls[c].hand.Some?
    ensures r.states[i].calls[c].hand.value.serial == r.states[k].flows[id].listener.value.serial
  {
    SameListener(r, k + 1, i, c, r.states[k].flows[id].listener.value.serial);
  }

  // ----- Polls and awaits -----

  predicate Waits(pc: Pc) {
    pc.Sleeping? || pc.BackingOff?
  }

  lemma KindStep(s: State, a: Action, c: nat)
    requires Enabled(s, a) && c in s.calls
    ensures c in Apply(s, a).calls && Apply(s, a).calls[c].kind == s.calls[c].kind
  {
  }

  lemma WaitStep(s: State, a: Action, c: nat)
    requires Enabled(s, a) && c in Apply(s, a).calls
    ensures Apply(s, a).calls[c].kind.Poll? && Waits(Apply(s, a).calls[c].pc) ==> c in s.calls && Waits(s.calls[c].pc)
    ensures Apply(s, a).calls[c].kind.Await? && Apply(s, a).calls[c].pc.Returning? ==>
              c in s.calls && (s.calls[c].pc.Returning? || (a.Judge? && a.c == c && a.timedOut))
  {
  }

  /** A poll never sleeps. */
  lemma {:induction false} PollsDoNotWait(r: Run, i: nat, c: nat)
    requires Valid(r) && i < |r.states| && c in r.states[i].calls && r.states[i].calls[c].kind.Poll?
    ensures !r.states[i].calls[c].pc.Sleeping? && !r.states[i].calls[c].pc.BackingOff?
    decreases i
  {
    assert i > 0;
    StepTo(r, i);
    hide Apply, Enabled, Inv;
    WaitStep(r.states[i - 1], r.acts[i - 1], c);
    if c in r.states[i - 1].calls {
      KindStep(r.states[i - 1], r.acts[i - 1], c);
      PollsDoNotWait(r, i - 1, c);
    }
  }

  /** An await gives its flow back only once its time is up. */
  lemma {:induction false} AwaitsTimeOut(r: Run, i: nat, c: nat) returns (q: nat)
    requires Valid(r) && i < |r.states| && c in r.states[i].calls && r.states[i].calls[c].kind.Await?
    requires r.states[i].calls[c].pc.Returning?
    ensures q < i && r.acts[q].Judge? && r.acts[q].c == c && r.acts[q].timedOut
    decreases i
  {
    assert i > 0;
    StepTo(r, i);
    hide Apply, Enabled, Inv;
    var s, a := r.states[i - 1], r.acts[i - 1];
    WaitStep(s, a, c);
    if a.Judge? && a.c == c && a.timedOut {
      q := i - 1;
    } else {
      KindStep(s, a, c);
      q := AwaitsTimeOut(r, i - 1, c);
    }
  }
}
