/** Every poll, await, cancel and sweep of every sign-in flow at once, with the relay and the
    listeners as the environment. One action is one region under the registry's lock, one look at a
    channel, one clock reading, or one event of the outside world. Calls are unbounded in number.
    The TTL is a parameter of each action that reads it, so a reconfiguration may race anything. */
module FlowProtocol {
  import opened Common
  import opened FlowRegistry

  /** Where a flow's approval is on the relay's side. A listener that receives it deletes it. */
  datatype Box = Unposted | Waiting | Fetched | Lapsed

  /** What is known of an id for good: when its flow started, whether it can be rejoined, and its relay
      inbox. */
  datatype Channel = Channel(started: nat, resumable: bool, box: Box)

  datatype Kind = Poll | Await

  datatype Reply =
    | Pending | Approved | ExpiredReply
    | ExchangeFailed      // "Auth approval failed": the approval arrived, its exchange did not succeed
    | ListenerFailed      // "Auth approval failed": the listener died of something else
    | Unresumable         // the channel could not be rejoined
    | Cancelled | NoSuchFlow | AlreadyAwaited

  /** Replies that end a flow. */
  predicate Ends(r: Reply) {
    r.Approved? || r.ExpiredReply? || r.ExchangeFailed? || r.ListenerFailed? || r.Unresumable?
  }

  datatype Pc =
    | Ready                       // the look at the channel is next
    | Empty                       // nothing to hand out: judge the flow's age next
    | Broken                      // the listener reported a relay failure
    | Sleeping                    // an await between looks
    | BackingOff                  // an await before a restore
    | Restoring
    | Closing(reply: Reply)       // about to remove the entry and answer
    | Returning                   // about to give the listener back
    | Done(reply: Reply)

  datatype Call = Call(id: nat, kind: Kind, started: nat, resumable: bool, hand: Option<Listener>, pc: Pc)

  datatype State = State(
    now: nat,
    flows: Flows,
    calls: map<nat, Call>,
    relay: map<nat, Channel>,     // every id ever started
    nextSerial: nat,
    cancelled: set<nat>,          // ids a cancel removed
    dropped: set<nat>)            // ids whose approval went with a dropped listener

  datatype Holder = InMap | InHands(c: nat)

  datatype Action =
    | Tick(elapsed: nat)
    | Start(id: nat, started: nat, resumable: bool, ttl: nat, maxFlows: nat)
    | Post(id: nat)
    | Lapse(id: nat)
    | Ack(id: nat, at: Holder)          // the listener deletes the approval at the relay ...
    | Deliver(id: nat, at: Holder)      // ... and then hands it to its channel
    | Die(id: nat, at: Holder, ofRelay: bool)
    | Take(c: nat, id: nat, kind: Kind, ttl: nat)
    | Look(c: nat, exchanged: bool)
    | Judge(c: nat, ttl: nat, timedOut: bool)
    | Wake(c: nat)
    | Notified(c: nat)
    | Restore(c: nat, ok: bool, ttl: nat)
    | Close(c: nat)
    | GiveBack(c: nat)
    | Cancel(id: nat)
    | Sweep(ttl: nat)

  const INITIAL := State(0, map[], map[], map[], 0, {}, {})

  /** The listener has the approval, handed over or not. */
  predicate HasApproval(l: Option<Listener>) {
    l.Some? && (l.value.mail.Acked? || l.value.mail.Approval?)
  }

  /** The approval is in the channel, where a look finds it. */
  predicate InChannel(l: Option<Listener>) {
    l.Some? && l.value.mail.Approval?
  }

  /** The holder has the listener of `id`, which has come to `mail`. */
  predicate MailAt(s: State, id: nat, at: Holder, mail: Mail) {
    match at
    case InMap => id in s.flows && s.flows[id].listener.Some? && s.flows[id].listener.value.mail == mail
    case InHands(c) =>
      && c in s.calls && s.calls[c].id == id
      && s.calls[c].hand.Some? && s.calls[c].hand.value.mail == mail
  }

  predicate Enabled(s: State, a: Action) {
    match a
    case Tick(_) => true
    case Start(id, started, _, ttl, maxFlows) =>
      id !in s.relay && started <= s.now && |Live(s.flows, s.now, ttl)| < maxFlows
    case Post(id) => id in s.relay && s.relay[id].box.Unposted?
    case Lapse(id) => id in s.relay && s.relay[id].box.Waiting?
    case Ack(id, at) => id in s.relay && s.relay[id].box.Waiting? && MailAt(s, id, at, Quiet)
    case Deliver(id, at) => MailAt(s, id, at, Acked)
    case Die(id, at, _) => MailAt(s, id, at, Quiet)
    case Take(c, _, _, _) => c !in s.calls
    case Look(c, _) => c in s.calls && s.calls[c].hand.Some? && s.calls[c].pc.Ready?
    case Judge(c, _, _) =>
      && c in s.calls && s.calls[c].hand.Some?
      && (s.calls[c].pc.Empty? || s.calls[c].pc.Broken? || s.calls[c].pc.BackingOff?)
    case Wake(c) => c in s.calls && s.calls[c].pc.Sleeping?
    case Notified(c) =>
      c in s.calls && (s.calls[c].pc.Sleeping? || s.calls[c].pc.BackingOff?) && s.calls[c].id in s.cancelled
    case Restore(c, _, _) => c in s.calls && s.calls[c].hand.Some? && s.calls[c].pc.Restoring?
    case Close(c) => c in s.calls && s.calls[c].pc.Closing?
    case GiveBack(c) => c in s.calls && s.calls[c].hand.Some? && s.calls[c].pc.Returning?
    case Cancel(_) => true
    case Sweep(_) => true
  }

  function Remailed(l: Listener, mail: Mail): Listener {
    l.(mail := mail)
  }

  /** The one look at the channel: an approval there is exchanged at once, whatever the flow's age. One
      acked and not handed over yet reads as pending. */
  function Looked(k: Call, exchanged: bool): Call
    requires k.hand.Some?
  {
    var l := k.hand.value;
    match l.mail
    case Approval =>
      k.(hand := Some(Remailed(l, Spent)), pc := Closing(if exchanged then Approved else ExchangeFailed))
    case RelayFault =>
      k.(hand := Some(Remailed(l, Spent)), pc := if k.resumable then Broken else Closing(ListenerFailed))
    case OtherFault => k.(hand := Some(Remailed(l, Spent)), pc := Closing(ListenerFailed))
    case Quiet => k.(pc := Empty)
    case Acked => k.(pc := Empty)
    case Spent => k.(pc := Empty)
  }

  function Judged(k: Call, now: nat, ttl: nat, timedOut: bool): Call
    requires k.hand.Some? && (k.pc.Empty? || k.pc.Broken? || k.pc.BackingOff?)
  {
    if Expired(k.started, now, ttl) then k.(pc := Closing(ExpiredReply))
    else if k.pc.Empty? then k.(pc := if k.kind.Poll? || timedOut then Returning else Sleeping)
    else k.(pc := if k.kind.Poll? || k.pc.BackingOff? then Restoring else BackingOff)
  }

  function Restored(k: Call, serial: nat, ok: bool, now: nat, ttl: nat): Call
    requires k.hand.Some?
  {
    if !k.resumable || Expired(k.started, now, ttl) || !ok then k.(pc := Closing(Unresumable))
    else k.(hand := Some(Listener(serial, Quiet)), pc := if k.kind.Poll? then Returning else Empty)
  }

  /** Ids whose approval a sweep drops. */
  function SweptApprovals(flows: Flows, now: nat, ttl: nat): set<nat> {
    set id | id in flows && Evictable(flows[id], now, ttl) && HasApproval(flows[id].listener)
  }

  function If(b: bool, id: nat): set<nat> {
    if b then {id} else {}
  }

  function Begun(s: State, id: nat, kind: Kind): Call {
    match TakenFrom(s.flows, id)
    case Flow(l, resumable, started) => Call(id, kind, started, resumable, Some(l), Ready)
    case Busy => Call(id, kind, 0, false, None, Done(if kind.Poll? then Pending else AlreadyAwaited))
    case Unknown => Call(id, kind, 0, false, None, Done(NoSuchFlow))
  }

  function Ended(k: Call, reply: Reply): Call {
    k.(hand := None, pc := Done(reply))
  }

  function Mailed(s: State, id: nat, at: Holder, before: Mail, mail: Mail): State
    requires MailAt(s, id, at, before)
  {
    match at
    case InMap =>
      s.(flows := s.flows[id := s.flows[id].(listener := Some(Remailed(s.flows[id].listener.value, mail)))])
    case InHands(c) =>
      s.(calls := s.calls[c := s.calls[c].(hand := Some(Remailed(s.calls[c].hand.value, mail)))])
  }

  function WithCall(s: State, c: nat, k: Call): State {
    s.(calls := s.calls[c := k])
  }

  function Apply(s: State, a: Action): State
    requires Enabled(s, a)
  {
    match a
    case Tick(elapsed) => s.(now := s.now + elapsed)
    case Start(id, started, resumable, _, _) =>
      s.(flows := s.flows[id := Entry(Some(Listener(s.nextSerial, Quiet)), resumable, started)],
         relay := s.relay[id := Channel(started, resumable, Unposted)], nextSerial := s.nextSerial + 1)
    case Post(id) => s.(relay := s.relay[id := s.relay[id].(box := Waiting)])
    case Lapse(id) => s.(relay := s.relay[id := s.relay[id].(box := Lapsed)])
    case Ack(id, at) => Mailed(s, id, at, Quiet, Acked).(relay := s.relay[id := s.relay[id].(box := Fetched)])
    case Deliver(id, at) => Mailed(s, id, at, Acked, Approval)
    case Die(id, at, ofRelay) => Mailed(s, id, at, Quiet, if ofRelay then RelayFault else OtherFault)
    case Take(c, id, kind, ttl) =>
      WithCall(s, c, Begun(s, id, kind))
      .(flows := Swept(Lent(s.flows, id), s.now, ttl),
        dropped := s.dropped + SweptApprovals(Lent(s.flows, id), s.now, ttl))
    case Look(c, exchanged) => WithCall(s, c, Looked(s.calls[c], exchanged))
    case Judge(c, ttl, timedOut) => WithCall(s, c, Judged(s.calls[c], s.now, ttl, timedOut))
    case Wake(c) => WithCall(s, c, s.calls[c].(pc := Ready))
    case Notified(c) =>
      WithCall(s, c, Ended(s.calls[c], Cancelled))
      .(dropped := s.dropped + If(HasApproval(s.calls[c].hand), s.calls[c].id))
    case Restore(c, ok, ttl) =>
      WithCall(s, c, Restored(s.calls[c], s.nextSerial, ok, s.now, ttl)).(nextSerial := s.nextSerial + 1)
    case Close(c) =>
      WithCall(s, c, Ended(s.calls[c], s.calls[c].pc.reply))
      .(flows := s.flows - {s.calls[c].id},
        dropped := s.dropped + If(HasApproval(s.calls[c].hand), s.calls[c].id))
    case GiveBack(c) =>
      var id := s.calls[c].id;
      WithCall(s, c, Ended(s.calls[c], if id in s.flows then Pending else Cancelled))
      .(flows := Returned(s.flows, id, s.calls[c].hand.value),
        dropped := s.dropped + If(id !in s.flows && HasApproval(s.calls[c].hand), id))
    case Cancel(id) =>
      s.(flows := s.flows - {id},
         cancelled := s.cancelled + If(id in s.flows, id),
         dropped := s.dropped + If(id in s.flows && HasApproval(s.flows[id].listener), id))
    case Sweep(ttl) =>
      s.(flows := Swept(s.flows, s.now, ttl), dropped := s.dropped + SweptApprovals(s.flows, s.now, ttl))
  }

  // ----- Invariants -----

  /** A call that has its flow's listener in hand, or that has ended the flow. */
  predicate Occupies(k: Call) {
    k.hand.Some? || (k.pc.Done? && Ends(k.pc.reply))
  }

  /** A call that took the approval out of a channel. */
  predicate TookApproval(k: Call) {
    (k.pc.Closing? || k.pc.Done?) && (k.pc.reply.Approved? || k.pc.reply.ExchangeFailed?)
  }

  /** What a call may have in hand at each point. */
  predicate Shape(pc: Pc, mail: Mail) {
    match pc
    case Broken => mail.Spent?
    case BackingOff => mail.Spent?
    case Restoring => mail.Spent?
    case Closing(reply) => Ends(reply) && (!reply.ExpiredReply? ==> mail.Spent?)
    case _ => !mail.Spent?
  }

  predicate HandOk(s: State, k: Call)
    requires k.hand.Some?
  {
    && k.id in s.relay && k.started == s.relay[k.id].started && k.resumable == s.relay[k.id].resumable
    && (k.id in s.flows <==> k.id !in s.cancelled)
    && (k.id in s.flows ==> s.flows[k.id].listener.None?)
    && k.id !in s.dropped
    && (HasApproval(k.hand) ==> s.relay[k.id].box.Fetched?)
    && Shape(k.pc, k.hand.value.mail)
    && (k.pc.Broken? || k.pc.BackingOff? || k.pc.Restoring? ==> k.resumable)
  }

  predicate CallOk(s: State, k: Call) {
    && (k.hand.Some? <==> !k.pc.Done?)
    && (k.hand.Some? ==> HandOk(s, k))
    && (Occupies(k) && k.hand.None? ==> k.id in s.relay && k.id !in s.flows)
    && (TookApproval(k) ==> k.id in s.relay && s.relay[k.id].box.Fetched? && k.id !in s.dropped)
  }

  predicate FlowOk(s: State, id: nat)
    requires id in s.flows
  {
    && id in s.relay && id !in s.cancelled && id !in s.dropped
    && s.flows[id].started == s.relay[id].started && s.flows[id].resumable == s.relay[id].resumable
    && (s.flows[id].listener.Some? ==> !s.flows[id].listener.value.mail.Spent?)
    && (HasApproval(s.flows[id].listener) ==> s.relay[id].box.Fetched?)
  }

  /** At most one call per id has its listener in hand or has ended it. */
  predicate SingleOccupant(s: State) {
    forall c, d ::
      (&& c in s.calls && d in s.calls && s.calls[c].id == s.calls[d].id
       && Occupies(s.calls[c]) && Occupies(s.calls[d])) ==> c == d
  }

  predicate HistoryOk(s: State) {
    && s.cancelled <= s.relay.Keys
    && forall id :: id in s.dropped ==> id in s.relay && s.relay[id].box.Fetched?
  }

  ghost predicate Inv(s: State) {
    && SingleOccupant(s)
    && HistoryOk(s)
    && (forall id :: id in s.flows ==> FlowOk(s, id))
    && (forall c :: c in s.calls ==> CallOk(s, s.calls[c]))
  }

  // ----- Every step keeps the invariant -----

  /** A call that neither holds nor ended its flow constrains nothing. */
  lemma BystanderOk(s: State, s': State, k: Call)
    requires CallOk(s, k) && !Occupies(k)
    ensures CallOk(s', k)
  {
  }

  /** A call is untouched when nothing about its own id changes. */
  lemma ElsewhereOk(s: State, s': State, k: Call)
    requires CallOk(s, k)
    requires k.id in s.relay ==> k.id in s'.relay && s'.relay[k.id] == s.relay[k.id]
    requires k.id in s'.flows <==> k.id in s.flows
    requires k.id in s.flows ==> s'.flows[k.id] == s.flows[k.id]
    requires k.id in s'.cancelled <==> k.id in s.cancelled
    requires k.id in s'.dropped <==> k.id in s.dropped
    ensures CallOk(s', k)
  {
  }

  lemma OneCallMoves(s: State, s': State, c: nat, k: Call)
    requires Inv(s) && s'.calls == s.calls[c := k] && CallOk(s', k) && HistoryOk(s')
    requires c in s.calls && k.id == s.calls[c].id && Occupies(s.calls[c])
    requires forall id :: id in s'.flows ==> FlowOk(s', id)
    requires forall d :: d in s.calls && d != c ==> CallOk(s', s.calls[d])
    ensures Inv(s')
  {
    hide CallOk, FlowOk, HistoryOk;
  }

  predicate Inward(a: Action) {
    a.Look? || a.Judge? || a.Wake? || a.Restore?
  }

  lemma InwardCallOk(s: State, a: Action)
    requires Enabled(s, a) && Inward(a) && CallOk(s, s.calls[a.c])
    ensures CallOk(Apply(s, a), Apply(s, a).calls[a.c])
  {
  }

  lemma InwardKeepsInv(s: State, a: Action)
    requires Inv(s) && Enabled(s, a) && Inward(a)
    ensures Inv(Apply(s, a))
  {
    var s' := Apply(s, a);
    assert CallOk(s, s.calls[a.c]);
    InwardCallOk(s, a);
    assert s'.flows == s.flows && s'.relay == s.relay && s'.cancelled == s.cancelled && s'.dropped == s.dropped;
    forall d | d in s.calls && d != a.c
      ensures CallOk(s', s.calls[d])
    {
      hide CallOk;
      ElsewhereOk(s, s', s.calls[d]);
    }
    assert forall id :: id in s.flows ==> FlowOk(s', id);
    assert s'.calls[a.c].id == s.calls[a.c].id;
    hide CallOk, FlowOk;
    OneCallMoves(s, s', a.c, s'.calls[a.c]);
  }

  predicate Ending(a: Action) {
    a.Close? || a.GiveBack? || a.Notified?
  }

  lemma EndingCallsOk(s: State, a: Action, d: nat)
    requires Inv(s) && Enabled(s, a) && Ending(a) && d in s.calls && d != a.c
    ensures CallOk(Apply(s, a), s.calls[d])
  {
    assert CallOk(s, s.calls[a.c]) && CallOk(s, s.calls[d]);
    hide CallOk, FlowOk, HistoryOk;
    assert Occupies(s.calls[a.c]) by { assert CallOk(s, s.calls[a.c]); EndingHasHand(s, a); }
    if s.calls[d].id == s.calls[a.c].id {
      BystanderOk(s, Apply(s, a), s.calls[d]);
    } else {
      ElsewhereOk(s, Apply(s, a), s.calls[d]);
    }
  }

  lemma EndingHasHand(s: State, a: Action)
    requires Enabled(s, a) && Ending(a) && CallOk(s, s.calls[a.c])
    ensures s.calls[a.c].hand.Some? && HandOk(s, s.calls[a.c])
  {
  }

  lemma EndingFlowsOk(s: State, a: Action)
    requires Inv(s) && Enabled(s, a) && Ending(a)
    ensures CallOk(Apply(s, a), Apply(s, a).calls[a.c]) && HistoryOk(Apply(s, a))
    ensures forall id :: id in Apply(s, a).flows ==> FlowOk(Apply(s, a), id)
  {
    var s' := Apply(s, a);
    var k := s.calls[a.c];
    assert CallOk(s, k);
    EndingHasHand(s, a);
    forall id | id in s'.flows
      ensures FlowOk(s', id)
    {
      assert FlowOk(s, id);
    }
  }

  lemma EndingKeepsInv(s: State, a: Action)
    requires Inv(s) && Enabled(s, a) && Ending(a)
    ensures Inv(Apply(s, a))
  {
    var s' := Apply(s, a);
    EndingFlowsOk(s, a);
    assert CallOk(s, s.calls[a.c]);
    EndingHasHand(s, a);
    hide CallOk, FlowOk, HistoryOk;
    forall d | d in s.calls && d != a.c
      ensures CallOk(s', s.calls[d])
    {
      EndingCallsOk(s, a, d);
    }
    assert s'.calls == s.calls[a.c := s'.calls[a.c]];
    OneCallMoves(s, s', a.c, s'.calls[a.c]);
  }

  lemma SweepKeepsInv(s: State, ttl: nat)
    requires Inv(s)
    ensures Inv(Apply(s, Sweep(ttl)))
  {
    var s' := Apply(s, Sweep(ttl));
    forall c | c in s.calls
      ensures CallOk(s', s.calls[c])
    {
      var k := s.calls[c];
      assert CallOk(s, k);
      if Occupies(k) {
        ElsewhereOk(s, s', k);
      }
    }
    forall id | id in s'.flows
      ensures FlowOk(s', id)
    {
      assert FlowOk(s, id);
    }
    assert HistoryOk(s') by {
      forall id | id in SweptApprovals(s.flows, s.now, ttl)
        ensures id in s.relay && s.relay[id].box.Fetched?
      {
        assert FlowOk(s, id);
      }
    }
    hide CallOk, FlowOk, HistoryOk;
  }

  /** A take before its sweep. */
  function LentTo(s: State, c: nat, id: nat, kind: Kind): State {
    WithCall(s, c, Begun(s, id, kind)).(flows := Lent(s.flows, id))
  }

  /** A listener found in the map has no other occupant. */
  lemma IdleUnoccupied(s: State, id: nat, d: nat)
    requires Inv(s) && id in s.flows && s.flows[id].listener.Some?
    requires d in s.calls && s.calls[d].id == id
    ensures !Occupies(s.calls[d])
  {
    assert CallOk(s, s.calls[d]);
  }

  lemma LendKeepsInv(s: State, c: nat, id: nat, kind: Kind)
    requires Inv(s) && c !in s.calls
    ensures Inv(LentTo(s, c, id, kind))
  {
    var s' := LentTo(s, c, id, kind);
    assert id in s.flows ==> FlowOk(s, id);
    assert CallOk(s', s'.calls[c]);
    forall d | d in s.calls
      ensures CallOk(s', s.calls[d])
    {
      hide CallOk, FlowOk;
      if s.calls[d].id == id && id in s.flows && s.flows[id].listener.Some? {
        IdleUnoccupied(s, id, d);
        BystanderOk(s, s', s.calls[d]);
      } else {
        assert id in s.flows && s.flows[id].listener.None? ==> s'.flows[id] == s.flows[id];
        ElsewhereOk(s, s', s.calls[d]);
      }
    }
    forall i | i in s'.flows
      ensures FlowOk(s', i)
    {
      assert FlowOk(s, i);
    }
    assert SingleOccupant(s') by {
      hide CallOk, FlowOk;
      forall d | d in s.calls && s.calls[d].id == id && Occupies(s'.calls[c])
        ensures !Occupies(s.calls[d])
      {
        IdleUnoccupied(s, id, d);
      }
    }
  }

  lemma TakeKeepsInv(s: State, a: Action)
    requires Inv(s) && Enabled(s, a) && a.Take?
    ensures Inv(Apply(s, a))
  {
    hide Inv;
    LendKeepsInv(s, a.c, a.id, a.kind);
    SweepKeepsInv(LentTo(s, a.c, a.id, a.kind), a.ttl);
  }

  predicate Arriving(a: Action) {
    a.Ack? || a.Deliver? || a.Die?
  }

  lemma ArrivingInMapKeepsInv(s: State, a: Action)
    requires Inv(s) && Enabled(s, a) && Arriving(a) && a.at.InMap?
    ensures Inv(Apply(s, a))
  {
    var s' := Apply(s, a);
    assert FlowOk(s, a.id);
    forall d | d in s.calls
      ensures CallOk(s', s.calls[d])
    {
      hide CallOk, FlowOk;
      if s.calls[d].id == a.id {
        IdleUnoccupied(s, a.id, d);
        BystanderOk(s, s', s.calls[d]);
      } else {
        ElsewhereOk(s, s', s.calls[d]);
      }
    }
    forall i | i in s'.flows
      ensures FlowOk(s', i)
    {
      assert FlowOk(s, i);
    }
    hide CallOk, FlowOk;
  }

  lemma ArrivingInHandKeepsInv(s: State, a: Action)
    requires Inv(s) && Enabled(s, a) && Arriving(a) && a.at.InHands?
    ensures Inv(Apply(s, a))
  {
    var s' := Apply(s, a);
    var c := a.at.c;
    assert CallOk(s, s.calls[c]);
    assert CallOk(s', s'.calls[c]);
    forall d | d in s.calls && d != c
      ensures CallOk(s', s.calls[d])
    {
      hide CallOk, FlowOk;
      if s.calls[d].id == a.id {
        BystanderOk(s, s', s.calls[d]);
      } else {
        ElsewhereOk(s, s', s.calls[d]);
      }
    }
    forall i | i in s'.flows
      ensures FlowOk(s', i)
    {
      assert FlowOk(s, i);
    }
    hide CallOk, FlowOk;
    OneCallMoves(s, s', c, s'.calls[c]);
  }

  lemma CancelKeepsInv(s: State, a: Action)
    requires Inv(s) && Enabled(s, a) && a.Cancel?
    ensures Inv(Apply(s, a))
  {
    var s' := Apply(s, a);
    assert a.id in s.flows ==> FlowOk(s, a.id);
    forall d | d in s.calls
      ensures CallOk(s', s.calls[d])
    {
      assert CallOk(s, s.calls[d]);
      if s.calls[d].id != a.id || a.id !in s.flows {
        ElsewhereOk(s, s', s.calls[d]);
      } else if s.flows[a.id].listener.Some? {
        IdleUnoccupied(s, a.id, d);
        BystanderOk(s, s', s.calls[d]);
      }
    }
    forall i | i in s'.flows
      ensures FlowOk(s', i)
    {
      assert FlowOk(s, i);
    }
    hide CallOk, FlowOk;
  }

  predicate Outside(a: Action) {
    a.Tick? || a.Post? || a.Lapse? || a.Start?
  }

  lemma OutsideKeepsInv(s: State, a: Action)
    requires Inv(s) && Enabled(s, a) && Outside(a)
    ensures Inv(Apply(s, a))
  {
    var s' := Apply(s, a);
    forall d | d in s.calls
      ensures CallOk(s', s.calls[d])
    {
      assert CallOk(s, s.calls[d]);
      if !Occupies(s.calls[d]) {
        BystanderOk(s, s', s.calls[d]);
      }
    }
    forall i | i in s'.flows
      ensures FlowOk(s', i)
    {
      if i in s.flows { assert FlowOk(s, i); }
    }
    hide CallOk, FlowOk;
  }

  lemma StepKeepsInv(s: State, a: Action)
    requires Inv(s) && Enabled(s, a)
    ensures Inv(Apply(s, a))
  {
    hide Inv, Apply, Enabled;
    if Inward(a) { InwardKeepsInv(s, a); }
    else if Ending(a) { EndingKeepsInv(s, a); }
    else if Outside(a) { OutsideKeepsInv(s, a); }
    else if a.Take? { TakeKeepsInv(s, a); }
    else if a.Cancel? { CancelKeepsInv(s, a); }
    else if a.Sweep? { SweepKeepsInv(s, a.ttl); }
    else if a.at.InMap? { ArrivingInMapKeepsInv(s, a); }
    else { ArrivingInHandKeepsInv(s, a); }
  }
}
