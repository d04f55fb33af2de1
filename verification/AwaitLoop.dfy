/** The bounded await on one flow: the loop that looks at the channel until a deadline, rejoining the
    relay when the listener dies there. Times are milliseconds; sleeps last at least as asked. The
    contracts are in figures. */
module AwaitLoop {
  import opened Common
  import ResumeLoop

  const AWAIT_POLL_INTERVAL: nat := 200

  datatype Found = Nothing | Session | RelayFailure | OtherFailure

  /** One pass of the loop as the outside world decides it: how long the look takes and what it
      finds, whether a cancel arrives in either sleep, how much longer than asked each lasts, and
      whether a restore succeeds. */
  datatype Pass = Pass(lookLasts: nat, found: Found, cancelledInBackoff: bool, backoffLate: nat, restores: bool,
                       cancelledInSleep: bool, sleepLate: nat)

  datatype Answer = Approved | Expired | Failed | Unresumable | Cancelled | Pending(listener: nat)

  /** One listener replaced: in which pass, when its death was seen, and when the next one started. */
  datatype Restore = Restore(pass: nat, died: nat, at: nat)

  /** When the listener that restore `i` replaced had started. */
  function ListeningSince(restores: seq<Restore>, started: nat, i: nat): nat
    requires i <= |restores|
  {
    if i == 0 then started else restores[i - 1].at
  }

  /** How many listeners in a row, up to a death at `died` after `i` restores, lived less than five
      seconds. */
  function QuickDeaths(restores: seq<Restore>, started: nat, i: nat, died: nat): nat
    requires i <= |restores|
    decreases i
  {
    if died - ListeningSince(restores, started, i) >= 5_000 then 0
    else 1 + if i == 0 then 0 else QuickDeaths(restores, started, i - 1, restores[i - 1].died)
  }

  function Seconds(quickDeaths: nat): nat {
    if quickDeaths == 0 then 1_000 else if quickDeaths == 1 then 2_000 else if quickDeaths == 2 then 4_000 else 8_000
  }

  function AtMost(wanted: nat, now: nat, deadline: nat): nat {
    if now >= deadline then 0 else if wanted < deadline - now then wanted else deadline - now
  }

  /** Restore `i` was made for a death seen by the look of its pass, and came after a wait of 1, 2, 4
      or 8 seconds by the number of quick deaths in a row, cut short by the deadline. */
  ghost predicate RestoreOk(restores: seq<Restore>, looks: seq<nat>, pass: nat -> Pass,
                            started: nat, deadline: nat, i: nat)
    requires i < |restores|
  {
    var x := restores[i];
    && x.pass < |looks| && (i > 0 ==> restores[i - 1].pass < x.pass)
    && pass(x.pass).found.RelayFailure? && pass(x.pass).restores && !pass(x.pass).cancelledInBackoff
    && x.died == looks[x.pass] + pass(x.pass).lookLasts
    && x.at == x.died + AtMost(Seconds(QuickDeaths(restores, started, i, x.died)), x.died, deadline)
               + pass(x.pass).backoffLate
  }

  /** A pass that was not the last: nothing was found, or a relay failure that was restored; nobody
      cancelled; and the next look came 200 ms later, or at the deadline. */
  ghost predicate PassedOn(looks: seq<nat>, restores: seq<Restore>, pass: nat -> Pass, deadline: nat, p: nat)
    requires p + 1 < |looks|
  {
    && !pass(p).cancelledInSleep
    && (|| (pass(p).found.Nothing? && NextLook(looks, pass, deadline, p, looks[p] + pass(p).lookLasts))
        || exists i :: && 0 <= i < |restores| && restores[i].pass == p
                       && NextLook(looks, pass, deadline, p, restores[i].at))
  }

  ghost predicate NextLook(looks: seq<nat>, pass: nat -> Pass, deadline: nat, p: nat, now: nat)
    requires p + 1 < |looks|
  {
    looks[p + 1] == now + AtMost(200, now, deadline) + pass(p).sleepLate
  }

  /** The whole course of the loop so far. */
  ghost predicate Course(looks: seq<nat>, restores: seq<Restore>, pass: nat -> Pass,
                         begin: nat, started: nat, deadline: nat) {
    && (looks != [] ==> looks[0] == begin)
    && (forall i :: 0 <= i < |restores| ==> RestoreOk(restores, looks, pass, started, deadline, i))
    && (forall p :: 0 <= p < |looks| - 1 ==> PassedOn(looks, restores, pass, deadline, p))
  }

  /** What the look of the last pass forces: a session is handed out, a failure that is not the relay's
      or that cannot be resumed is reported, and a relay failure past the TTL or cancelled in its
      backoff ends there. */
  predicate ForcedByLook(answer: Answer, last: Pass, seen: nat, started: nat, ttl: nat, resumable: bool) {
    && (answer.Approved? <==> last.found.Session?)
    && (answer.Failed? <==> last.found.OtherFailure? || (last.found.RelayFailure? && !resumable))
    && (last.found.RelayFailure? && resumable && seen - started > ttl ==> answer.Expired?)
    && (last.found.RelayFailure? && resumable && seen - started <= ttl && last.cancelledInBackoff ==> answer.Cancelled?)
    && (answer.Unresumable? ==> last.found.RelayFailure? && resumable && !last.restores && !last.cancelledInBackoff)
  }

  /** Where the last pass got as far as its own sleep: past the TTL it says expired, past the deadline
      it gives its listener back, and otherwise it was cancelled in that sleep. */
  predicate ForcedAtRest(answer: Answer, last: Pass, end: nat, started: nat, ttl: nat, deadline: nat,
                         entryStays: bool, listener: nat) {
    if end - started > ttl then answer.Expired?
    else if end >= deadline then answer == if entryStays then Pending(listener) else Cancelled
    else last.cancelledInSleep && answer.Cancelled?
  }

  /** Looks take no time and sleeps last as asked. */
  ghost predicate Exact(pass: nat -> Pass, passes: nat) {
    forall i :: 0 <= i < passes ==> pass(i).lookLasts == 0 && pass(i).backoffLate == 0 && pass(i).sleepLate == 0
  }

  predicate RestoredLast(looks: seq<nat>, restores: seq<Restore>) {
    restores != [] && restores[|restores| - 1].pass == |looks| - 1
  }

  /** How many quick deaths in a row the restores so far end in. */
  function QuickSoFar(restores: seq<Restore>, started: nat): nat {
    if restores == [] then 0 else QuickDeaths(restores, started, |restores| - 1, restores[|restores| - 1].died)
  }

  lemma {:induction false} QuickDeathsPrefix(restores: seq<Restore>, x: Restore, started: nat, i: nat, died: nat)
    requires i <= |restores|
    ensures QuickDeaths(restores + [x], started, i, died) == QuickDeaths(restores, started, i, died)
    decreases i
  {
    if i > 0 { QuickDeathsPrefix(restores, x, started, i - 1, restores[i - 1].died); }
  }

  /** One more death is one more in a row, or the end of the row. */
  lemma OneMoreDeath(restores: seq<Restore>, started: nat, died: nat)
    ensures QuickDeaths(restores, started, |restores|, died)
         == if died - ListeningSince(restores, started, |restores|) < 5_000
            then QuickSoFar(restores, started) + 1 else 0
  {
  }

  lemma OneMoreRestore(looks: seq<nat>, restores: seq<Restore>, x: Restore, pass: nat -> Pass,
                       begin: nat, started: nat, deadline: nat)
    requires looks != [] && Course(looks, restores, pass, begin, started, deadline) && !RestoredLast(looks, restores)
    requires x.pass == |looks| - 1 && pass(x.pass).found.RelayFailure? && pass(x.pass).restores
    requires !pass(x.pass).cancelledInBackoff && x.died == looks[x.pass] + pass(x.pass).lookLasts
    requires x.at == x.died + pass(x.pass).backoffLate
             + AtMost(Seconds(QuickDeaths(restores, started, |restores|, x.died)), x.died, deadline)
    ensures Course(looks, restores + [x], pass, begin, started, deadline)
    ensures QuickSoFar(restores + [x], started) == QuickDeaths(restores, started, |restores|, x.died)
    ensures ListeningSince(restores + [x], started, |restores| + 1) == x.at
  {
    var r := restores + [x];
    QuickDeathsPrefix(restores, x, started, |restores|, x.died);
    forall i | 0 <= i < |r| ensures RestoreOk(r, looks, pass, started, deadline, i) {
      if i < |restores| {
        assert RestoreOk(restores, looks, pass, started, deadline, i);
        QuickDeathsPrefix(restores, x, started, i, restores[i].died);
      } else if i > 0 {
        assert RestoreOk(restores, looks, pass, started, deadline, i - 1);
      }
    }
    forall p | 0 <= p < |looks| - 1 ensures PassedOn(looks, r, pass, deadline, p) {
      assert PassedOn(looks, restores, pass, deadline, p);
      if i :| 0 <= i < |restores| && restores[i].pass == p && NextLook(looks, pass, deadline, p, restores[i].at) {
        assert r[i] == restores[i];
      }
    }
  }

  lemma OneMoreLook(looks: seq<nat>, restores: seq<Restore>, pass: nat -> Pass,
                    begin: nat, started: nat, deadline: nat, now: nat)
    requires looks != [] && Course(looks, restores, pass, begin, started, deadline)
    requires !pass(|looks| - 1).cancelledInSleep
    requires || (pass(|looks| - 1).found.Nothing? && now == looks[|looks| - 1] + pass(|looks| - 1).lookLasts)
             || (RestoredLast(looks, restores) && now == restores[|restores| - 1].at)
    ensures var longer := looks + [now + AtMost(200, now, deadline) + pass(|looks| - 1).sleepLate];
            Course(longer, restores, pass, begin, started, deadline) && !RestoredLast(longer, restores)
  {
    var longer := looks + [now + AtMost(200, now, deadline) + pass(|looks| - 1).sleepLate];
    forall i | 0 <= i < |restores| ensures RestoreOk(restores, longer, pass, started, deadline, i) {
      assert RestoreOk(restores, looks, pass, started, deadline, i);
    }
    assert NextLook(longer, pass, deadline, |looks| - 1, now);
    if restores != [] { assert RestoreOk(restores, looks, pass, started, deadline, |restores| - 1); }
    forall p | 0 <= p < |longer| - 1 ensures PassedOn(longer, restores, pass, deadline, p) {
      if p < |looks| - 1 {
        assert PassedOn(looks, restores, pass, deadline, p);
        if i :| 0 <= i < |restores| && restores[i].pass == p && NextLook(looks, pass, deadline, p, restores[i].at) {
          assert NextLook(longer, pass, deadline, p, restores[i].at);
        }
      }
    }
  }

  lemma OneLook(pass: nat -> Pass, begin: nat, started: nat, deadline: nat)
    ensures Course([begin], [], pass, begin, started, deadline)
    ensures ListeningSince([], started, 0) == started && QuickSoFar([], started) == 0
  {
  }

  /** A relay failure seen at `seen`: the wait it takes, in seconds by the quick deaths in a row, and
      whether the loop ends there or goes on with a new listener. */
  method Rejoin(p: Pass, seen: nat, listeningSince: nat, quickDeaths: nat, started: nat, ttl: nat, deadline: nat)
      returns (answer: Option<Answer>, quick: nat, now: nat)
    ensures quick == if seen - listeningSince < 5_000 then quickDeaths + 1 else 0
    ensures if seen - started > ttl then answer == Some(Expired) && now == seen
            else if p.cancelledInBackoff then answer == Some(Cancelled) && now == seen
            else
              && now == seen + AtMost(Seconds(quick), seen, deadline) + p.backoffLate
              && answer == (if now - started > ttl then Some(Expired)
                            else if !p.restores then Some(Unresumable) else None)
    ensures seen <= now && (answer.None? && now < deadline ==> now >= seen + 1_000)
    ensures p.backoffLate == 0 && seen <= deadline ==> now <= deadline
  {
    hide ResumeLoop.Backoff;
    now := seen;
    quick := if now - listeningSince < ResumeLoop.QUICK_FAILURE then quickDeaths + 1 else 0;
    if now - started > ttl { return Some(Expired), quick, now; }
    ResumeLoop.BackoffValues(quick);
    var backoff := Min(ResumeLoop.Backoff(quick), if now < deadline then deadline - now else 0);
    if p.cancelledInBackoff { return Some(Cancelled), quick, now; }
    now := now + backoff + p.backoffLate;
    if now - started > ttl { return Some(Expired), quick, now; }
    if !p.restores { return Some(Unresumable), quick, now; }
    answer := None;
  }

  /** Listeners are numbered: the one taken is 0 and each restore makes the next. `looks` are the times
      of the looks. */
  method AwaitApproval(begin: nat, started: nat, timeout: nat, ttl: nat, resumable: bool,
                       pass: nat -> Pass, entryStays: bool)
      returns (answer: Answer, looks: seq<nat>, restores: seq<Restore>, end: nat)
    requires started <= begin
    ensures 1 <= |looks| <= (timeout + 199) / 200 + 1 && |restores| <= timeout / 1_000 + 1
    ensures Course(looks, restores, pass, begin, started, begin + timeout)
    ensures restores != [] ==> resumable
    ensures ForcedByLook(answer, pass(|looks| - 1), looks[|looks| - 1] + pass(|looks| - 1).lookLasts, started, ttl,
                         resumable)
    ensures pass(|looks| - 1).found.Nothing? || RestoredLast(looks, restores) ==>
              && end == (if RestoredLast(looks, restores) then restores[|restores| - 1].at
                         else looks[|looks| - 1] + pass(|looks| - 1).lookLasts)
              && ForcedAtRest(answer, pass(|looks| - 1), end, started, ttl, begin + timeout, entryStays, |restores|)
    ensures pass(|looks| - 1).found.RelayFailure? && !RestoredLast(looks, restores) ==>
              answer.Failed? || answer.Expired? || answer.Unresumable? || answer.Cancelled?
    ensures answer.Pending? ==> answer.listener == |restores| && entryStays && begin + timeout <= end <= started + ttl
    ensures answer.Expired? ==> end - started > ttl
    ensures Exact(pass, |looks|) ==> end <= begin + timeout
  {
    hide Course, QuickDeaths, QuickSoFar, ListeningSince, Seconds;
    var now, deadline := begin, begin + timeout;
    var listeningSince, quickFailures := started, 0;
    OneLook(pass, begin, started, deadline);
    looks, restores := [begin], [];
    while true
      invariant looks != [] && now == looks[|looks| - 1] && begin <= now && listeningSince <= now
      invariant listeningSince == ListeningSince(restores, started, |restores|)
      invariant quickFailures == QuickSoFar(restores, started)
      invariant now < deadline ==>
                  now >= begin + AWAIT_POLL_INTERVAL * (|looks| - 1) && now >= begin + 1_000 * |restores|
      invariant |looks| > 1 ==> AWAIT_POLL_INTERVAL * (|looks| - 2) < timeout
      invariant restores != [] ==> 1_000 * |restores| < timeout && resumable
      invariant Course(looks, restores, pass, begin, started, deadline) && !RestoredLast(looks, restores)
      invariant Exact(pass, |looks| - 1) ==> now <= deadline
      decreases timeout + AWAIT_POLL_INTERVAL - AWAIT_POLL_INTERVAL * (|looks| - 1)
    {
      var p := pass(|looks| - 1);
      now := now + p.lookLasts;
      match p.found {
        case Session =>
          return Approved, looks, restores, now;
        case Nothing =>
        case RelayFailure =>
          if !resumable { return Failed, looks, restores, now; }
          var seen, over := now, None;
          OneMoreDeath(restores, started, seen);
          over, quickFailures, now := Rejoin(p, seen, listeningSince, quickFailures, started, ttl, deadline);
          if over.Some? { return over.value, looks, restores, now; }
          OneMoreRestore(looks, restores, Restore(|looks| - 1, seen, now), pass, begin, started, deadline);
          restores := restores + [Restore(|looks| - 1, seen, now)];
          listeningSince := now;
        case OtherFailure =>
          return Failed, looks, restores, now;
      }
      if now - started > ttl { return Expired, looks, restores, now; }
      if now >= deadline {
        return if entryStays then Pending(|restores|) else Cancelled, looks, restores, now;
      }
      if p.cancelledInSleep { return Cancelled, looks, restores, now; }
      OneMoreLook(looks, restores, pass, begin, started, deadline, now);
      now := now + Min(AWAIT_POLL_INTERVAL, deadline - now) + p.sleepLate;
      looks := looks + [now];
    }
  }
}
