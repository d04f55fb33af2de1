/** What holds in every run of the sign-in flow protocol. */
module FlowRuns {
  import opened Common
  import opened FlowRegistry
  import opened FlowProtocol

  type Run = Trace<State, Action>

  ghost predicate StepAt(r: Run, i: nat)
    requires i < |r.acts| < |r.states|
  {
    Enabled(r.states[i], r.acts[i]) && r.states[i + 1] == Apply(r.states[i], r.acts[i])
  }

  ghost predicate Valid(r: Run) {
    && |r.states| == |r.acts| + 1
    && r.states[0] == INITIAL
    && forall i :: 0 <= i < |r.acts| ==> StepAt(r, i)
  }

  /** Step `i` of the run is the action `a`. */
  ghost predicate Does(r: Run, i: nat, a: Action) {
    i < |r.acts| < |r.states| && r.acts[i] == a && StepAt(r, i)
  }

  lemma {:induction false} RunInv(r: Run, i: nat)
    requires Valid(r) && i < |r.states|
    ensures Inv(r.states[i])
    decreases i
  {
    if i > 0 {
      RunInv(r, i - 1);
      assert StepAt(r, i - 1);
      StepKeepsInv(r.states[i - 1], r.acts[i - 1]);
    }
  }

  /** The step that led to state `i`. */
  lemma StepTo(r: Run, i: nat)
    requires Valid(r) && 0 < i < |r.states|
    ensures i - 1 < |r.acts| && Inv(r.states[i - 1])
    ensures Enabled(r.states[i - 1], r.acts[i - 1]) && r.states[i] == Apply(r.states[i - 1], r.acts[i - 1])
  {
    assert StepAt(r, i - 1);
    RunInv(r, i - 1);
  }

  predicate Holds(s: State, c: nat, id: nat) {
    c in s.calls && s.calls[c].id == id && s.calls[c].hand.Some?
  }

  /** A flow's listener is in the map or in one call's hands, never both and never in two. */
  lemma OneHolder(r: Run, i: nat, c: nat, d: nat, id: nat)
    requires Valid(r) && i < |r.states| && Holds(r.states[i], c, id)
    ensures Holds(r.states[i], d, id) ==> c == d
    ensures id !in Idle(r.states[i].flows)
  {
    RunInv(r, i);
    assert CallOk(r.states[i], r.states[i].calls[c]);
  }

  predicate Ended(s: State, c: nat, id: nat) {
    c in s.calls && s.calls[c].id == id && s.calls[c].pc.Done? && Ends(s.calls[c].pc.reply)
  }

  /** At most one call per id ever answers that the flow is over, and after that answer the flow is
      in nobody's hands and not in the map. */
  lemma EndsOnce(r: Run, i: nat, c: nat, d: nat, id: nat)
    requires Valid(r) && i < |r.states| && Ended(r.states[i], c, id)
    ensures Ended(r.states[i], d, id) ==> c == d
    ensures !Holds(r.states[i], d, id) && id !in r.states[i].flows
  {
    RunInv(r, i);
    assert CallOk(r.states[i], r.states[i].calls[c]);
  }

  /** A call that holds a cancelled flow held it when the cancel happened. */
  lemma {:induction false} CancelledWhileHeld(r: Run, i: nat, c: nat, id: nat) returns (k: nat)
    requires Valid(r) && i < |r.states| && Holds(r.states[i], c, id) && id in r.states[i].cancelled
    ensures k < i && Does(r, k, Cancel(id)) && id in r.states[k].flows && Holds(r.states[k], c, id)
    decreases i
  {
    assert i > 0;
    hide *;
    StepTo(r, i);
    var s, a := r.states[i - 1], r.acts[i - 1];
    HeldBefore(s, a, c, id);
    if id in s.cancelled {
      k := CancelledWhileHeld(r, i - 1, c, id);
    } else {
      CancelledByCancel(s, a, id);
      k := i - 1;
    }
  }

  lemma HeldBefore(s: State, a: Action, c: nat, id: nat)
    requires Inv(s) && Enabled(s, a) && Holds(Apply(s, a), c, id) && id in Apply(s, a).cancelled
    ensures Holds(s, c, id)
  {
    assert id in s.flows ==> FlowOk(s, id);
    assert c in s.calls ==> CallOk(s, s.calls[c]);
  }

  lemma CancelledByCancel(s: State, a: Action, id: nat)
    requires Enabled(s, a) && id !in s.cancelled && id in Apply(s, a).cancelled
    ensures a == Cancel(id) && id in s.flows
  {
  }

  /** Giving a listener back fails exactly when a cancel removed the entry while the call held it;
      otherwise the listener is back in its entry and the call says pending. */
  lemma GiveBackFailsIffCancelled(r: Run, i: nat, c: nat)
    requires Valid(r) && Does(r, i, GiveBack(c))
    ensures r.states[i + 1].calls[c].pc == Done(Cancelled) <==>
              exists k :: 0 <= k < i && Does(r, k, Cancel(r.states[i].calls[c].id))
                          && r.states[i].calls[c].id in r.states[k].flows
                          && Holds(r.states[k], c, r.states[i].calls[c].id)
    ensures r.states[i + 1].calls[c].pc != Done(Cancelled) ==>
              && r.states[i + 1].calls[c].pc == Done(Pending) && r.states[i].calls[c].id in r.states[i + 1].flows
              && r.states[i + 1].flows[r.states[i].calls[c].id].listener == r.states[i].calls[c].hand
  {
    RunInv(r, i);
    var s := r.states[i];
    var id := s.calls[c].id;
    assert CallOk(s, s.calls[c]);
    if id in s.cancelled {
      var k := CancelledWhileHeld(r, i, c, id);
    }
    if k :| 0 <= k < i && Does(r, k, Cancel(id)) && id in r.states[k].flows && Holds(r.states[k], c, id) {
      CancelledForGood(r, k + 1, i, id);
    }
  }

  lemma {:induction false} CancelledForGood(r: Run, i: nat, j: nat, id: nat)
    requires Valid(r) && i <= j < |r.states| && id in r.states[i].cancelled
    ensures id in r.states[j].cancelled
    decreases j
  {
    if i < j {
      CancelledForGood(r, i, j - 1, id);
      StepTo(r, j);
    }
  }

  // ----- Where the approval is -----

  datatype Place = AtRelay | LapsedAtRelay | InRegistry | InCall(c: nat) | TakenBy(c: nat) | WithDroppedListener

  predicate At(s: State, id: nat, p: Place) {
    match p
    case AtRelay => id in s.relay && s.relay[id].box.Waiting?
    case LapsedAtRelay => id in s.relay && s.relay[id].box.Lapsed?
    case InRegistry => id in s.flows && HasApproval(s.flows[id].listener)
    case InCall(c) => c in s.calls && s.calls[c].id == id && HasApproval(s.calls[c].hand)
    case TakenBy(c) => c in s.calls && s.calls[c].id == id && TookApproval(s.calls[c])
    case WithDroppedListener => id in s.dropped
  }

  lemma PlacesImplyFetched(s: State, id: nat, p: Place)
    requires Inv(s) && At(s, id, p) && !p.AtRelay? && !p.LapsedAtRelay?
    ensures id in s.relay && s.relay[id].box.Fetched?
  {
    match p
    case InRegistry => assert FlowOk(s, id);
    case InCall(c) => assert CallOk(s, s.calls[c]);
    case TakenBy(c) => assert CallOk(s, s.calls[c]);
    case _ =>
  }

  /** An approval is never in two places. */
  lemma OnePlace(s: State, id: nat, p: Place, q: Place)
    requires Inv(s) && At(s, id, p) && At(s, id, q)
    ensures p == q
  {
    if p.AtRelay? || p.LapsedAtRelay? || q.AtRelay? || q.LapsedAtRelay? {
      hide Inv;
      if !p.AtRelay? && !p.LapsedAtRelay? { PlacesImplyFetched(s, id, p); }
      if !q.AtRelay? && !q.LapsedAtRelay? { PlacesImplyFetched(s, id, q); }
    } else {
      if p.InCall? || p.TakenBy? { assert CallOk(s, s.calls[p.c]) && Occupies(s.calls[p.c]); }
      if q.InCall? || q.TakenBy? { assert CallOk(s, s.calls[q.c]) && Occupies(s.calls[q.c]); }
      if p.InRegistry? || q.InRegistry? { assert FlowOk(s, id); }
    }
  }

  lemma RelocateFromRelay(s: State, a: Action, id: nat, p: Place) returns (q: Place)
    requires Enabled(s, a) && At(s, id, p) && (p.AtRelay? || p.LapsedAtRelay? || p.WithDroppedListener?)
    ensures At(Apply(s, a), id, q)
  {
    if p.AtRelay? && a == Lapse(id) { q := LapsedAtRelay; }
    else if p.AtRelay? && a.Ack? && a.id == id { q := if a.at.InMap? then InRegistry else InCall(a.at.c); }
    else { q := p; }
  }

  lemma RelocateFromRegistry(s: State, a: Action, id: nat) returns (q: Place)
    requires Inv(s) && Enabled(s, a) && At(s, id, InRegistry)
    ensures At(Apply(s, a), id, q)
  {
    if a.Close? || a.GiveBack? {
      assert CallOk(s, s.calls[a.c]);
      assert s.calls[a.c].id != id by { if s.calls[a.c].id == id { IdleUnoccupied(s, id, a.c); } }
    }
    hide Inv, CallOk, FlowOk;
    if a == Cancel(id) { q := WithDroppedListener; }
    else if a.Take? && a.id == id { q := InCall(a.c); }
    else if (a.Take? || a.Sweep?) && Evictable(s.flows[id], s.now, a.ttl) { q := WithDroppedListener; }
    else { q := InRegistry; }
  }

  lemma RelocateFromCall(s: State, a: Action, id: nat, c: nat) returns (q: Place)
    requires Inv(s) && Enabled(s, a) && At(s, id, InCall(c))
    ensures At(Apply(s, a), id, q)
  {
    assert CallOk(s, s.calls[c]);
    hide Inv;
    if a == Close(c) || a == Notified(c) { q := WithDroppedListener; }
    else if a == GiveBack(c) { q := if id in s.flows then InRegistry else WithDroppedListener; }
    else if a.Look? && a.c == c && InChannel(s.calls[c].hand) { q := TakenBy(c); }
    else { q := InCall(c); }
  }

  /** Each step moves an approval to one place or leaves it where it is. */
  lemma Relocate(s: State, a: Action, id: nat, p: Place) returns (q: Place)
    requires Inv(s) && Enabled(s, a) && At(s, id, p)
    ensures At(Apply(s, a), id, q)
  {
    match p
    case InRegistry => q := RelocateFromRegistry(s, a, id);
    case InCall(c) => q := RelocateFromCall(s, a, id, c);
    case TakenBy(c) =>
      assert CallOk(s, s.calls[c]);
      q := p;
    case _ => q := RelocateFromRelay(s, a, id, p);
  }

  /** Once posted, an approval is in exactly one place in every state: at the relay, with the one
      listener of its flow (acked, or in its channel), taken by one call, or gone with a dropped
      listener. */
  lemma {:induction false} ApprovalConserved(r: Run, i: nat, id: nat) returns (p: Place)
    requires Valid(r) && i < |r.states| && id in r.states[i].relay && !r.states[i].relay[id].box.Unposted?
    ensures At(r.states[i], id, p) && forall q :: At(r.states[i], id, q) ==> q == p
    decreases i
  {
    assert i > 0;
    StepTo(r, i);
    var s, a := r.states[i - 1], r.acts[i - 1];
    if id in s.relay && !s.relay[id].box.Unposted? {
      var o := ApprovalConserved(r, i - 1, id);
      p := Relocate(s, a, id, o);
    } else {
      assert a == Post(id);
      p := AtRelay;
    }
    RunInv(r, i);
    hide *;
    forall q | At(r.states[i], id, q) ensures q == p {
      OnePlace(r.states[i], id, p, q);
    }
  }

  // ----- What a call has done since its look -----

  predicate Looks(a: Action, c: nat) {
    a.Look? && a.c == c
  }

  ghost predicate NoLooks(r: Run, c: nat, i: nat, j: nat)
    requires j <= |r.acts|
  {
    forall k :: i <= k < j ==> !Looks(r.acts[k], c)
  }

  predicate PastLook(pc: Pc) {
    pc.Empty? || pc.Broken? || pc.BackingOff? || pc.Restoring? || pc.Closing?
  }

  /** The step is a reading of the clock by `c` that finds its flow past the TTL. */
  predicate JudgesExpired(s: State, a: Action, c: nat) {
    a.Judge? && a.c == c && c in s.calls && s.now - s.calls[c].started > a.ttl
  }

  lemma LookedStep(s: State, a: Action, c: nat)
    requires Enabled(s, a) && c in Apply(s, a).calls && PastLook(Apply(s, a).calls[c].pc)
    ensures c in s.calls && s.calls[c].id == Apply(s, a).calls[c].id && (Looks(a, c) || PastLook(s.calls[c].pc))
  {
  }

  /** A call past its look has looked. */
  lemma {:induction false} LookedBefore(r: Run, i: nat, c: nat) returns (l: nat)
    requires Valid(r) && i < |r.states| && c in r.states[i].calls && PastLook(r.states[i].calls[c].pc)
    ensures l < i && Looks(r.acts[l], c) && NoLooks(r, c, l + 1, i)
    ensures c in r.states[l].calls && r.states[l].calls[c].id == r.states[i].calls[c].id
    decreases i
  {
    assert i > 0;
    StepTo(r, i);
    LookedStep(r.states[i - 1], r.acts[i - 1], c);
    hide Apply, Enabled, Inv;
    if Looks(r.acts[i - 1], c) { l := i - 1; } else { l := LookedBefore(r, i - 1, c); }
  }

  lemma DecidedStays(s: State, a: Action, c: nat)
    requires Enabled(s, a) && c in s.calls && (s.calls[c].pc.Closing? || s.calls[c].pc.Done?)
    ensures c in Apply(s, a).calls && Apply(s, a).calls[c].id == s.calls[c].id
    ensures var pc := Apply(s, a).calls[c].pc;
            pc == s.calls[c].pc || (s.calls[c].pc.Closing? && pc == Done(s.calls[c].pc.reply))
  {
  }

  /** An approval in the channel before a call's look is that call's answer, at any age of the flow:
      the call never says pending or expired after it. */
  lemma {:induction false} LookDecides(r: Run, i: nat, j: nat, c: nat, exchanged: bool)
    requires Valid(r) && i < j < |r.states| && Does(r, i, Look(c, exchanged)) && InChannel(r.states[i].calls[c].hand)
    ensures c in r.states[j].calls
    ensures var answer := if exchanged then Approved else ExchangeFailed;
            r.states[j].calls[c].pc == Closing(answer) || r.states[j].calls[c].pc == Done(answer)
    decreases j
  {
    if i + 1 < j {
      LookDecides(r, i, j - 1, c, exchanged);
      StepTo(r, j);
      DecidedStays(r.states[j - 1], r.acts[j - 1], c);
    }
  }

  // ----- When an approval can be lost -----

  /** A call that answers expired and drops an approval its listener had acked meanwhile. */
  predicate LateArrivalDropped(s: State, a: Action, id: nat) {
    && a.Close? && a.c in s.calls && s.calls[a.c].id == id
    && s.calls[a.c].pc == Closing(ExpiredReply) && HasApproval(s.calls[a.c].hand)
  }

  /** A sweep that finds the approval idle, past the time it is kept for collection. */
  predicate SweptLate(s: State, a: Action, id: nat) {
    && (a.Sweep? || (a.Take? && a.id != id)) && At(s, id, InRegistry)
    && id in s.relay && s.now - s.relay[id].started > 2 * a.ttl
  }

  /** A cancel of an idle flow that has the approval, or the end of a call that holds it for a flow
      cancelled meanwhile. */
  predicate CancelledAway(s: State, a: Action, id: nat) {
    || (a == Cancel(id) && At(s, id, InRegistry))
    || ((a.Notified? || a.GiveBack?) && id in s.cancelled && At(s, id, InCall(a.c)))
  }

  /** The step drops the approval of `id` with its listener. */
  predicate Drops(s: State, a: Action, id: nat)
    requires Enabled(s, a)
  {
    id !in s.dropped && id in Apply(s, a).dropped
  }

  /** An approval is dropped by exactly three kinds of step: a cancel of its flow, a sweep past twice
      the TTL, and an expiry whose listener had acked it with nothing in the channel at the look. */
  lemma DropsAreJustified(s: State, a: Action, id: nat)
    requires Inv(s) && Enabled(s, a)
    ensures Drops(s, a, id) <==> CancelledAway(s, a, id) || SweptLate(s, a, id) || LateArrivalDropped(s, a, id)
  {
    if a.Close? || a.GiveBack? || a.Notified? {
      CallDrops(s, a, id);
    } else {
      RegistryDrops(s, a, id);
    }
  }

  lemma CallDrops(s: State, a: Action, id: nat)
    requires Inv(s) && Enabled(s, a) && (a.Close? || a.GiveBack? || a.Notified?)
    ensures Drops(s, a, id) <==> CancelledAway(s, a, id) || LateArrivalDropped(s, a, id)
  {
    assert CallOk(s, s.calls[a.c]);
  }

  lemma RegistryDrops(s: State, a: Action, id: nat)
    requires Inv(s) && Enabled(s, a) && !(a.Close? || a.GiveBack? || a.Notified?)
    ensures Drops(s, a, id) <==> CancelledAway(s, a, id) || SweptLate(s, a, id)
  {
    if id in s.flows { assert FlowOk(s, id); }
  }

  predicate UsesTtl(a: Action, ttl: nat) {
    match a
    case Start(_, _, _, t, _) => t == ttl
    case Take(_, _, _, t) => t == ttl
    case Judge(_, t, _) => t == ttl
    case Restore(_, _, t) => t == ttl
    case Sweep(t) => t == ttl
    case _ => true
  }

  ghost predicate FixedTtl(r: Run, ttl: nat) {
    forall i :: 0 <= i < |r.acts| ==> UsesTtl(r.acts[i], ttl)
  }

  /** A call about to answer expired has judged its flow so, and has not looked since. */
  lemma ClosingStep(s: State, a: Action, c: nat)
    requires Enabled(s, a) && c in Apply(s, a).calls && Apply(s, a).calls[c].pc == Closing(ExpiredReply)
    ensures c in s.calls && s.calls[c].started == Apply(s, a).calls[c].started && !Looks(a, c)
    ensures s.calls[c].id == Apply(s, a).calls[c].id
    ensures s.calls[c].pc == Closing(ExpiredReply) || JudgesExpired(s, a, c)
    ensures s.now <= Apply(s, a).now
  {
  }

  lemma {:induction false} ClosingWasJudged(r: Run, i: nat, c: nat) returns (q: nat)
    requires Valid(r) && i < |r.states| && c in r.states[i].calls && r.states[i].calls[c].pc == Closing(ExpiredReply)
    ensures q < i && JudgesExpired(r.states[q], r.acts[q], c) && NoLooks(r, c, q, i)
    ensures r.states[q].calls[c].started == r.states[i].calls[c].started && r.states[q].now <= r.states[i].now
    ensures r.states[q].calls[c].id == r.states[i].calls[c].id
    decreases i
  {
    assert i > 0;
    StepTo(r, i);
    ClosingStep(r.states[i - 1], r.acts[i - 1], c);
    hide Apply, Enabled, Inv, JudgesExpired;
    if r.states[i - 1].calls[c].pc == Closing(ExpiredReply) {
      q := ClosingWasJudged(r, i - 1, c);
    } else {
      q := i - 1;
    }
  }

  lemma ClosingIsOld(r: Run, ttl: nat, i: nat, c: nat)
    requires Valid(r) && FixedTtl(r, ttl) && i < |r.states|
    requires c in r.states[i].calls && r.states[i].calls[c].pc == Closing(ExpiredReply)
    ensures r.states[i].now - r.states[i].calls[c].started > ttl
  {
    var q := ClosingWasJudged(r, i, c);
    assert UsesTtl(r.acts[q], ttl);
  }

  lemma HoldersStart(s: State, a: Action, id: nat)
    requires Inv(s) && LateArrivalDropped(s, a, id)
    ensures id in s.relay && s.calls[a.c].started == s.relay[id].started
  {
    assert CallOk(s, s.calls[a.c]);
  }

  ghost predicate DropsAt(r: Run, k: nat, id: nat) {
    k < |r.acts| < |r.states| && StepAt(r, k) && Drops(r.states[k], r.acts[k], id)
  }

  /** With the TTL fixed, the approval of a flow that was never cancelled is lost only after the TTL
      is over; before twice the TTL, only to an answer of expired. */
  lemma {:induction false} NoLossWithinTtl(r: Run, ttl: nat, m: nat, id: nat) returns (k: nat)
    requires Valid(r) && FixedTtl(r, ttl) && m < |r.states|
    requires id in r.states[m].dropped && id !in r.states[m].cancelled
    ensures k < m && DropsAt(r, k, id) && id in r.states[k].relay
    ensures r.states[k].now - r.states[k].relay[id].started > ttl
    ensures r.states[k].now - r.states[k].relay[id].started <= 2 * ttl ==>
              LateArrivalDropped(r.states[k], r.acts[k], id)
    decreases m
  {
    assert m > 0;
    StepTo(r, m);
    var s, a := r.states[m - 1], r.acts[m - 1];
    assert id !in s.cancelled;
    if id in s.dropped {
      k := NoLossWithinTtl(r, ttl, m - 1, id);
    } else {
      k := m - 1;
      assert StepAt(r, k) && UsesTtl(a, ttl);
      DropsAreJustified(s, a, id);
      if LateArrivalDropped(s, a, id) {
        ClosingIsOld(r, ttl, k, a.c);
        HoldersStart(s, a, id);
      }
    }
  }

  lemma {:induction false} DroppedForGood(r: Run, i: nat, j: nat, id: nat)
    requires Valid(r) && i <= j < |r.states| && id in r.states[i].dropped
    ensures id in r.states[j].dropped
    decreases j
  {
    if i < j {
      DroppedForGood(r, i, j - 1, id);
      StepTo(r, j);
    }
  }

  predicate Acks(a: Action, id: nat) {
    a.Ack? && a.id == id
  }

  predicate IsFetched(s: State, id: nat) {
    id in s.relay && s.relay[id].box.Fetched?
  }

  /** The relay has let an approval go exactly when some listener has acked it. */
  lemma {:induction false} FetchedByAck(r: Run, i: nat, id: nat)
    requires Valid(r) && i < |r.states|
    ensures IsFetched(r.states[i], id) <==> exists a :: 0 <= a < i && Acks(r.acts[a], id)
    decreases i
  {
    if i > 0 {
      FetchedByAck(r, i - 1, id);
      StepTo(r, i);
      assert IsFetched(r.states[i], id) <==> IsFetched(r.states[i - 1], id) || Acks(r.acts[i - 1], id);
    }
  }

  /** While a call has a flow's listener and has not decided to hand its approval out, an approval the
      relay has let go is with that listener. */
  lemma FetchedIsInHand(r: Run, i: nat, c: nat)
    requires Valid(r) && i < |r.states| && c in r.states[i].calls && r.states[i].calls[c].hand.Some?
    requires !TookApproval(r.states[i].calls[c])
    ensures IsFetched(r.states[i], r.states[i].calls[c].id) <==> HasApproval(r.states[i].calls[c].hand)
  {
    var s, k := r.states[i], r.states[i].calls[c];
    RunInv(r, i);
    assert CallOk(s, k);
    if IsFetched(s, k.id) {
      var p := ApprovalConserved(r, i, k.id);
      match p
      case InRegistry => OneHolder(r, i, c, c, k.id);
      case InCall(d) => assert d == c by { OneHolder(r, i, c, d, k.id); }
      case TakenBy(d) => OccupantIsOnly(s, c, d);
      case _ =>
    }
  }

  lemma OccupantIsOnly(s: State, c: nat, d: nat)
    requires Inv(s) && c in s.calls && d in s.calls && s.calls[c].id == s.calls[d].id
    requires s.calls[c].hand.Some? && TookApproval(s.calls[d])
    ensures c == d
  {
    assert CallOk(s, s.calls[d]);
    assert Occupies(s.calls[c]) && Occupies(s.calls[d]);
  }

  /** An answer of expired drops the flow's approval exactly when the relay has let it go. */
  lemma ExpiryDropsIffFetched(r: Run, k: nat, c: nat)
    requires Valid(r) && Does(r, k, Close(c)) && c in r.states[k].calls
    requires r.states[k].calls[c].pc == Closing(ExpiredReply)
    ensures Drops(r.states[k], r.acts[k], r.states[k].calls[c].id) <==> IsFetched(r.states[k], r.states[k].calls[c].id)
  {
    RunInv(r, k);
    assert CallOk(r.states[k], r.states[k].calls[c]);
    FetchedIsInHand(r, k, c);
    CallDrops(r.states[k], r.acts[k], r.states[k].calls[c].id);
  }

  predicate Delivers(a: Action, id: nat) {
    a.Deliver? && a.id == id
  }

  /** No listener of `id` stands between its ack and its hand-over. */
  ghost predicate NoneAcked(s: State, id: nat) {
    IsFetched(s, id) && forall at :: !MailAt(s, id, at, Acked)
  }

  lemma DeliverySettles(s: State, a: Action, id: nat)
    requires Inv(s) && Enabled(s, a) && Delivers(a, id)
    ensures NoneAcked(Apply(s, a), id)
  {
    if a.at.InHands? {
      assert CallOk(s, s.calls[a.at.c]);
    } else {
      assert FlowOk(s, id);
      forall c | c in s.calls && s.calls[c].id == id ensures s.calls[c].hand.None? { IdleUnoccupied(s, id, c); }
    }
  }

  lemma SettledStays(s: State, a: Action, id: nat)
    requires Enabled(s, a) && NoneAcked(s, id)
    ensures NoneAcked(Apply(s, a), id)
  {
    assert !MailAt(s, id, InMap, Acked);
    forall c ensures !MailAt(Apply(s, a), id, InHands(c), Acked) { assert !MailAt(s, id, InHands(c), Acked); }
    if a.GiveBack? { assert !MailAt(s, id, InHands(a.c), Acked); }
  }

  lemma {:induction false} SettledSince(r: Run, j: nat, i: nat, id: nat)
    requires Valid(r) && j < i < |r.states| && Delivers(r.acts[j], id)
    ensures NoneAcked(r.states[i], id)
    decreases i
  {
    hide Apply, Enabled, Inv, NoneAcked;
    StepTo(r, i);
    if j + 1 < i {
      SettledSince(r, j, i - 1, id);
      SettledStays(r.states[i - 1], r.acts[i - 1], id);
    } else {
      DeliverySettles(r.states[j], r.acts[j], id);
    }
  }

  ghost predicate NotDelivered(r: Run, id: nat, l: nat)
    requires l <= |r.acts|
  {
    forall j :: 0 <= j < l ==> !Delivers(r.acts[j], id)
  }

  /** The race, as steps of the run: call `c` looks at `l`, before any hand-over of the approval of
      `id`; it reads the clock past the TTL at `q` and answers at `k` without having looked again;
      and by then, at `a`, a listener has acked the approval, before the look or after it. */
  ghost predicate LateArrival(r: Run, ttl: nat, id: nat, c: nat, l: nat, a: nat, q: nat, k: nat) {
    && l < q < k < |r.acts| < |r.states| && a < k
    && Looks(r.acts[l], c) && NotDelivered(r, id, l) && NoLooks(r, c, l + 1, k)
    && Acks(r.acts[a], id)
    && JudgesExpired(r.states[q], r.acts[q], c) && r.acts[q].ttl == ttl && r.states[q].calls[c].id == id
    && Does(r, k, Close(c))
  }

  /** A call that answers expired looked before any hand-over of its flow's approval. */
  lemma LookedTooEarly(r: Run, l: nat, k: nat, c: nat)
    requires Valid(r) && l < k < |r.states| && Looks(r.acts[l], c) && c in r.states[l].calls
    requires c in r.states[k].calls && r.states[k].calls[c].pc == Closing(ExpiredReply)
    ensures NotDelivered(r, r.states[l].calls[c].id, l)
  {
    var id := r.states[l].calls[c].id;
    if j :| 0 <= j < l && Delivers(r.acts[j], id) {
      SettledSince(r, j, l, id);
      assert StepAt(r, l);
      FetchedIsInHand(r, l, c);
      assert !MailAt(r.states[l], id, InHands(c), Acked);
      LookDecides(r, l, k, c, r.acts[l].exchanged);
      assert false;
    }
  }

  lemma LateArrivalHappened(r: Run, ttl: nat, id: nat, k: nat) returns (c: nat, l: nat, a: nat, q: nat)
    requires Valid(r) && FixedTtl(r, ttl) && k < |r.acts| && LateArrivalDropped(r.states[k], r.acts[k], id)
    ensures LateArrival(r, ttl, id, c, l, a, q, k)
  {
    hide Apply, Enabled, Inv;
    c := r.acts[k].c;
    assert StepAt(r, k);
    l := LookedBefore(r, k, c);
    q := ClosingWasJudged(r, k, c);
    assert UsesTtl(r.acts[q], ttl);
    LookedTooEarly(r, l, k, c);
    FetchedIsInHand(r, k, c);
    FetchedByAck(r, k, id);
    a :| 0 <= a < k && Acks(r.acts[a], id);
  }

  /** A call that has judged its flow expired answers that and nothing else. */
  lemma {:induction false} JudgedStays(r: Run, q: nat, k: nat, c: nat)
    requires Valid(r) && q < k < |r.states| && JudgesExpired(r.states[q], r.acts[q], c)
    ensures c in r.states[k].calls && r.states[k].calls[c].id == r.states[q].calls[c].id
    ensures r.states[k].calls[c].pc == Closing(ExpiredReply) || r.states[k].calls[c].pc == Done(ExpiredReply)
    decreases k
  {
    StepTo(r, k);
    if q + 1 < k {
      JudgedStays(r, q, k - 1, c);
      DecidedStays(r.states[k - 1], r.acts[k - 1], c);
    }
  }

  lemma LateArrivalLoses(r: Run, ttl: nat, id: nat, c: nat, l: nat, a: nat, q: nat, k: nat)
    requires Valid(r) && LateArrival(r, ttl, id, c, l, a, q, k)
    ensures id in r.states[k + 1].dropped
  {
    hide Apply, Inv;
    JudgedStays(r, q, k, c);
    FetchedByAck(r, k, id);
    ExpiryDropsIffFetched(r, k, c);
  }

  /** While a flow that was never cancelled is no older than twice the TTL, its approval has been lost
      exactly when a call that looked before any hand-over answered expired after its listener had
      acked. */
  lemma LostExactlyToLateArrivals(r: Run, ttl: nat, m: nat, id: nat)
    requires Valid(r) && FixedTtl(r, ttl) && m < |r.states| && id in r.states[m].relay && id !in r.states[m].cancelled
    requires r.states[m].now - r.states[m].relay[id].started <= 2 * ttl
    ensures id in r.states[m].dropped
            <==> exists c, l, a, q, k: nat :: k < m && LateArrival(r, ttl, id, c, l, a, q, k)
  {
    hide LateArrival, LateArrivalDropped, Drops;
    if id in r.states[m].dropped {
      var k := NoLossWithinTtl(r, ttl, m, id);
      StartIsKept(r, k, m, id);
      var c, l, a, q := LateArrivalHappened(r, ttl, id, k);
    }
    if c, l, a, q, k: nat :| k < m && LateArrival(r, ttl, id, c, l, a, q, k) {
      LateArrivalLoses(r, ttl, id, c, l, a, q, k);
      DroppedForGood(r, k + 1, m, id);
    }
  }

  lemma {:induction false} StartIsKept(r: Run, i: nat, j: nat, id: nat)
    requires Valid(r) && i <= j < |r.states| && id in r.states[i].relay
    ensures id in r.states[j].relay && r.states[j].relay[id].started == r.states[i].relay[id].started
    ensures r.states[i].now <= r.states[j].now
    decreases j
  {
    if i < j {
      StartIsKept(r, i, j - 1, id);
      StepTo(r, j);
    }
  }

  /** An idle flow stays where it is until it is taken, cancelled, or older than twice the TTL. */
  lemma {:induction false} IdleFlowKept(r: Run, ttl: nat, i: nat, j: nat, id: nat)
    requires Valid(r) && FixedTtl(r, ttl) && i <= j < |r.states| && id in Idle(r.states[i].flows)
    requires r.states[j].now - r.states[i].flows[id].started <= 2 * ttl
    requires forall k :: i <= k < j ==> r.acts[k] != Cancel(id) && !(r.acts[k].Take? && r.acts[k].id == id)
    ensures id in Idle(r.states[j].flows) && r.states[j].flows[id].started == r.states[i].flows[id].started
    ensures r.states[j].flows[id].listener.value.serial == r.states[i].flows[id].listener.value.serial
    decreases j
  {
    if i < j {
      StepTo(r, j);
      assert UsesTtl(r.acts[j - 1], ttl);
      assert r.states[j - 1].now <= r.states[j].now;
      IdleFlowKept(r, ttl, i, j - 1, id);
      IdleStep(r.states[j - 1], r.acts[j - 1], ttl, id);
    }
  }

  lemma IdleStep(s: State, a: Action, ttl: nat, id: nat)
    requires Inv(s) && Enabled(s, a) && UsesTtl(a, ttl) && id in Idle(s.flows)
    requires s.now - s.flows[id].started <= 2 * ttl
    requires a != Cancel(id) && !(a.Take? && a.id == id)
    ensures var flows := Apply(s, a).flows;
            && id in Idle(flows) && flows[id].started == s.flows[id].started
            && flows[id].listener.value.serial == s.flows[id].listener.value.serial
  {
    assert FlowOk(s, id);
    if a.Close? || a.GiveBack? {
      assert CallOk(s, s.calls[a.c]);
      assert s.calls[a.c].id != id by { if s.calls[a.c].id == id { IdleUnoccupied(s, id, a.c); } }
    }
  }

  // ----- Two ways to lose an approval that was in time -----

  const TTL := 300_000

  /** A poll looks just before the TTL, the approval is acked and handed over within the TTL, and the
      poll then reads the clock past the TTL. */
  const AFTER_LOOK := [
    Start(0, 0, true, TTL, 64), Tick(TTL - 1), Take(0, 0, Poll, TTL), Look(0, true), Post(0),
    Ack(0, InHands(0)), Deliver(0, InHands(0)), Tick(2), Judge(0, TTL, false), Close(0)]

  /** The approval is acked before the look, and has not been handed over when the poll answers. */
  const BEFORE_LOOK := [
    Start(0, 0, true, TTL, 64), Tick(TTL - 1), Take(0, 0, Poll, TTL), Post(0), Ack(0, InHands(0)),
    Look(0, true), Tick(2), Judge(0, TTL, false), Close(0)]

  /** One flow at 0 held by poll 0, whose listener has come to `mail`. */
  function Held(now: nat, mail: Mail, pc: Pc, box: Box): State {
    State(now, map[0 := Entry(None, true, 0)], map[0 := Call(0, Poll, 0, true, Some(Listener(0, mail)), pc)],
          map[0 := Channel(0, true, box)], 1, {}, {})
  }

  /** What both runs start with and end in. */
  function Idling(now: nat): State {
    State(now, map[0 := Entry(Some(Listener(0, Quiet)), true, 0)], map[],
          map[0 := Channel(0, true, Unposted)], 1, {}, {})
  }

  const LOST := State(TTL + 1, map[], map[0 := Call(0, Poll, 0, true, None, Done(ExpiredReply))],
                      map[0 := Channel(0, true, Fetched)], 1, {}, {0})

  function AfterLookState(i: nat): State {
    if i == 0 then INITIAL else if i == 1 then Idling(0) else if i == 2 then Idling(TTL - 1)
    else if i == 3 then Held(TTL - 1, Quiet, Ready, Unposted)
    else if i == 4 then Held(TTL - 1, Quiet, Empty, Unposted)
    else if i == 5 then Held(TTL - 1, Quiet, Empty, Waiting)
    else if i == 6 then Held(TTL - 1, Acked, Empty, Fetched)
    else if i == 7 then Held(TTL - 1, Approval, Empty, Fetched)
    else if i == 8 then Held(TTL + 1, Approval, Empty, Fetched)
    else if i == 9 then Held(TTL + 1, Approval, Closing(ExpiredReply), Fetched)
    else LOST
  }

  function BeforeLookState(i: nat): State {
    if i == 0 then INITIAL else if i == 1 then Idling(0) else if i == 2 then Idling(TTL - 1)
    else if i == 3 then Held(TTL - 1, Quiet, Ready, Unposted)
    else if i == 4 then Held(TTL - 1, Quiet, Ready, Waiting)
    else if i == 5 then Held(TTL - 1, Acked, Ready, Fetched)
    else if i == 6 then Held(TTL - 1, Acked, Empty, Fetched)
    else if i == 7 then Held(TTL + 1, Acked, Empty, Fetched)
    else if i == 8 then Held(TTL + 1, Acked, Closing(ExpiredReply), Fetched)
    else LOST
  }

  ghost predicate Steps(s: State, a: Action, s': State) {
    Enabled(s, a) && Apply(s, a) == s'
  }

  lemma BothBegin()
    ensures Steps(INITIAL, Start(0, 0, true, TTL, 64), Idling(0))
    ensures Steps(Idling(0), Tick(TTL - 1), Idling(TTL - 1))
  {
    assert Live(INITIAL.flows, 0, TTL) == {};
  }

  lemma BothTake()
    ensures Steps(Idling(TTL - 1), Take(0, 0, Poll, TTL), Held(TTL - 1, Quiet, Ready, Unposted))
  {
    var lent := Held(TTL - 1, Quiet, Ready, Unposted).flows;
    assert Lent(Idling(TTL - 1).flows, 0) == lent;
    assert SweptApprovals(lent, TTL - 1, TTL) == {};
    assert Swept(lent, TTL - 1, TTL) == lent;
  }

  lemma AfterLookSteps(i: nat)
    requires 3 <= i < 10
    ensures Steps(AfterLookState(i), AFTER_LOOK[i], AfterLookState(i + 1))
  {
  }

  lemma BeforeLookSteps(i: nat)
    requires 3 <= i < 9
    ensures Steps(BeforeLookState(i), BEFORE_LOOK[i], BeforeLookState(i + 1))
  {
  }

  /** An approval handed over within the TTL can still be lost to an answer of expired, with no cancel:
      the look and the reading of the clock are two steps. */
  lemma ExpiryCanLoseATimelyApproval() returns (r: Run)
    ensures Valid(r) && FixedTtl(r, TTL) && r.acts == AFTER_LOOK && r.states[10] == LOST
    ensures 0 in r.states[7].calls && InChannel(r.states[7].calls[0].hand)
    ensures 0 in r.states[7].relay && r.states[7].now - r.states[7].relay[0].started <= TTL
  {
    r := Trace(seq(11, i requires i >= 0 => AfterLookState(i)), AFTER_LOOK);
    BothBegin();
    BothTake();
    forall i | 0 <= i < |r.acts|
      ensures StepAt(r, i)
    {
      if i >= 3 { AfterLookSteps(i); }
    }
  }

  /** And one that its listener acked before the look can be lost without ever being handed over. */
  lemma ExpiryCanLoseAnAckedApproval() returns (r: Run)
    ensures Valid(r) && FixedTtl(r, TTL) && r.acts == BEFORE_LOOK && r.states[9] == LOST
    ensures 0 in r.states[5].calls && HasApproval(r.states[5].calls[0].hand) && r.acts[5] == Look(0, true)
    ensures 0 in r.states[5].relay && r.states[5].now - r.states[5].relay[0].started <= TTL
  {
    r := Trace(seq(10, i requires i >= 0 => BeforeLookState(i)), BEFORE_LOOK);
    BothBegin();
    BothTake();
    forall i | 0 <= i < |r.acts|
      ensures StepAt(r, i)
    {
      if i >= 3 { BeforeLookSteps(i); }
    }
  }
}
