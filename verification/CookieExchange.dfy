/** Spending a single-use token on a session: resolve the homeserver with retries, then exchange the
    token, retrying only what cannot have consumed it, all inside one budget from the token's
    arrival. Times are milliseconds since that arrival; sleeps are exact. The contracts are in
    figures. */
module CookieExchange {
  import opened Common

  const RESOLVE_ATTEMPTS: nat := 4
  const EXCHANGE_ATTEMPTS: nat := 3
  const BUDGET: nat := 120_000
  const RESOLVE_ATTEMPT_TIMEOUT: nat := 25_000
  const EXCHANGE_TIMEOUT: nat := 30_000

  /** Grants a retry, with its pause, where an attempt is left and the longest course of events from
      here still ends inside the budget. */
  function RetryDelay(attempt: nat, attempts: nat, elapsed: nat, reserve: nat): (delay: Option<nat>)
    requires attempt >= 1
  {
    if attempt >= attempts then None
    else
      var wait := 1_000 * PowerOfTwo(Min(attempt - 1, 3));
      if elapsed + wait + reserve <= BUDGET then Some(wait) else None
  }

  /** The pauses: one second, two, four, and eight from then on. */
  function Pause(attempt: nat): nat {
    if attempt == 1 then 1_000 else if attempt == 2 then 2_000 else if attempt == 3 then 4_000 else 8_000
  }

  /** A retry is granted exactly when an attempt is left and its pause and all that may follow it end
      within two minutes. */
  lemma RetryDelays(attempt: nat, attempts: nat, elapsed: nat, reserve: nat)
    requires attempt >= 1
    ensures RetryDelay(attempt, attempts, elapsed, reserve)
         == if attempt < attempts && elapsed + Pause(attempt) + reserve <= 120_000 then Some(Pause(attempt)) else None
  {
    assert PowerOfTwo(0) == 1 && PowerOfTwo(1) == 2 && PowerOfTwo(2) == 4 && PowerOfTwo(3) == 8;
  }

  datatype Lookup = Found | NoRecord | LookupFailed

  /** How the homeserver answers an exchange. Only a failure to connect is certain not to have
      reached it. */
  datatype Exchanged = Credential | CouldNotConnect | Refused | Lost

  /** The one failure after which the token can be spent again. */
  predicate NeverSent(e: Exchanged) {
    e.CouldNotConnect?
  }

  datatype Outcome = Session | Unresolved | NoHomeserver | ExchangeFailed | ExchangeTimedOut

  /** How long an attempt takes and what it comes to, if its timeout lets it. */
  datatype Answers<T> = Answers(lasts: nat, result: T)

  /** One attempt: when it began, and what it came to, or None where its timeout cut it off. */
  datatype Attempt<T> = Attempt(at: nat, answer: Option<T>)

  /** How long an attempt of this answer goes on under its timeout. */
  function Spent<T>(a: Answers<T>, limit: nat): nat {
    if a.lasts <= limit then a.lasts else limit
  }

  /** The attempts are those of a loop that begins at `begin`, pauses between one and the next, and is
      done with the last at `end`. */
  ghost predicate Paced<T>(tries: seq<Attempt<T>>, begin: nat, end: nat, answers: nat -> Answers<T>, limit: nat) {
    && (forall i :: 0 <= i < |tries| ==>
          tries[i].answer == if answers(i).lasts <= limit then Some(answers(i).result) else None)
    && (tries == [] ==> end == begin)
    && (tries != [] ==> tries[0].at == begin && end == tries[|tries| - 1].at + Spent(answers(|tries| - 1), limit))
    && (forall i :: 1 <= i < |tries| ==>
          tries[i].at == tries[i - 1].at + Spent(answers(i - 1), limit) + Pause(i))
  }

  lemma OneMoreTry<T>(tries: seq<Attempt<T>>, begin: nat, at: nat, answers: nat -> Answers<T>, limit: nat)
    requires |tries| > 0 ==> at >= Pause(|tries|) && Paced(tries, begin, at - Pause(|tries|), answers, limit)
    requires tries == [] ==> at == begin
    ensures var a := answers(|tries|);
            Paced(tries + [Attempt(at, if a.lasts <= limit then Some(a.result) else None)], begin,
                  at + Spent(a, limit), answers, limit)
  {
  }

  /** Up to four lookups, until one finds the homeserver. It gives up only after four, or where the
      next lookup and an exchange after it could pass two minutes. */
  method ResolveWithRetries(lookup: nat -> Answers<Lookup>)
      returns (failure: Option<Outcome>, resolves: seq<Attempt<Lookup>>, now: nat)
    ensures 1 <= |resolves| <= 4 && Paced(resolves, 0, now, lookup, 25_000)
    ensures forall i :: 0 <= i < |resolves| - 1 ==> resolves[i].answer != Some(Found)
    ensures failure == match resolves[|resolves| - 1].answer
                       case None => Some(Unresolved)
                       case Some(Found) => None
                       case Some(NoRecord) => Some(NoHomeserver)
                       case Some(LookupFailed) => Some(Unresolved)
    ensures failure.Some? ==> |resolves| == 4 || now + Pause(|resolves|) + 55_000 > 120_000
    ensures now <= 90_000
  {
    hide RetryDelay, Pause, Paced;
    var attempt := 1;
    now, resolves := 0, [];
    while true
      invariant 1 <= attempt <= 4 && |resolves| == attempt - 1
      invariant forall i :: 0 <= i < |resolves| ==> resolves[i].answer != Some(Found)
      invariant now + RESOLVE_ATTEMPT_TIMEOUT + EXCHANGE_TIMEOUT <= BUDGET
      invariant resolves == [] ==> now == 0
      invariant resolves != [] ==>
                  now >= Pause(|resolves|) && Paced(resolves, 0, now - Pause(|resolves|), lookup, 25_000)
      decreases RESOLVE_ATTEMPTS - attempt
    {
      var a := lookup(attempt - 1);
      OneMoreTry(resolves, 0, now, lookup, 25_000);
      resolves := resolves + [Attempt(now, if a.lasts <= RESOLVE_ATTEMPT_TIMEOUT then Some(a.result) else None)];
      now := now + Min(a.lasts, RESOLVE_ATTEMPT_TIMEOUT);
      if a.lasts <= RESOLVE_ATTEMPT_TIMEOUT && a.result.Found? {
        return None, resolves, now;
      }
      RetryDelays(attempt, RESOLVE_ATTEMPTS, now, RESOLVE_ATTEMPT_TIMEOUT + EXCHANGE_TIMEOUT);
      var delay := RetryDelay(attempt, RESOLVE_ATTEMPTS, now, RESOLVE_ATTEMPT_TIMEOUT + EXCHANGE_TIMEOUT);
      if delay.None? {
        var none := a.lasts <= RESOLVE_ATTEMPT_TIMEOUT && a.result.NoRecord?;
        return Some(if none then NoHomeserver else Unresolved), resolves, now;
      }
      now := now + delay.value;
      attempt := attempt + 1;
    }
  }

  /** The second loop, from the moment a lookup found the homeserver: up to three exchanges, of which
      only one that never left is followed by another. After such a one it gives up only where three
      have been made, or where another could pass two minutes. */
  method SpendWithRetries(begin: nat, spend: nat -> Answers<Exchanged>)
      returns (outcome: Outcome, spends: seq<Attempt<Exchanged>>, now: nat)
    requires begin + EXCHANGE_TIMEOUT <= BUDGET
    ensures 1 <= |spends| <= 3 && Paced(spends, begin, now, spend, 30_000)
    ensures now <= 120_000 && forall i :: 0 <= i < |spends| ==> spends[i].at + 30_000 <= 120_000
    ensures forall i :: 0 <= i < |spends| - 1 ==> spends[i].answer == Some(CouldNotConnect)
    ensures outcome == match spends[|spends| - 1].answer
                       case None => ExchangeTimedOut
                       case Some(answer) => if answer.Credential? then Session else ExchangeFailed
    ensures spends[|spends| - 1].answer == Some(CouldNotConnect) ==>
              |spends| == 3 || now + Pause(|spends|) + 30_000 > 120_000
  {
    hide RetryDelay, Pause, Paced;
    var attempt := 1;
    now, spends := begin, [];
    while true
      invariant 1 <= attempt <= 3 && |spends| == attempt - 1
      invariant forall i :: 0 <= i < |spends| ==>
                  spends[i].answer == Some(CouldNotConnect) && spends[i].at + 30_000 <= 120_000
      invariant now + EXCHANGE_TIMEOUT <= BUDGET
      invariant spends == [] ==> now == begin
      invariant spends != [] ==>
                  now >= Pause(|spends|) && Paced(spends, begin, now - Pause(|spends|), spend, 30_000)
      decreases EXCHANGE_ATTEMPTS - attempt
    {
      var a := spend(attempt - 1);
      OneMoreTry(spends, begin, now, spend, 30_000);
      spends := spends + [Attempt(now, if a.lasts <= EXCHANGE_TIMEOUT then Some(a.result) else None)];
      now := now + Min(a.lasts, EXCHANGE_TIMEOUT);
      if a.lasts > EXCHANGE_TIMEOUT {
        return ExchangeTimedOut, spends, now;
      }
      if a.result.Credential? {
        return Session, spends, now;
      }
      RetryDelays(attempt, EXCHANGE_ATTEMPTS, now, EXCHANGE_TIMEOUT);
      var delay := if NeverSent(a.result) then RetryDelay(attempt, EXCHANGE_ATTEMPTS, now, EXCHANGE_TIMEOUT) else None;
      if delay.None? {
        return ExchangeFailed, spends, now;
      }
      now := now + delay.value;
      attempt := attempt + 1;
    }
  }

  /** Every exit is within two minutes; at most four lookups, then at most three exchanges, none of
      them before a lookup found the homeserver; every exchange but the last certainly left the token
      unspent; and neither loop stops short while it has an attempt and the time for it. */
  method Exchange(lookup: nat -> Answers<Lookup>, spend: nat -> Answers<Exchanged>)
      returns (outcome: Outcome, resolves: seq<Attempt<Lookup>>, spends: seq<Attempt<Exchanged>>, now: nat)
    ensures now <= 120_000
    ensures 1 <= |resolves| <= 4 && |spends| <= 3
    ensures forall i :: 0 <= i < |resolves| - 1 ==> resolves[i].answer != Some(Found)
    ensures spends != [] <==> resolves[|resolves| - 1].answer == Some(Found)
    ensures forall i :: 0 <= i < |spends| - 1 ==> spends[i].answer == Some(CouldNotConnect)
    ensures outcome.Session? <==> spends != [] && spends[|spends| - 1].answer == Some(Credential)
    ensures outcome.ExchangeTimedOut? <==> spends != [] && spends[|spends| - 1].answer == None
    ensures outcome.NoHomeserver? <==> spends == [] && resolves[|resolves| - 1].answer == Some(NoRecord)
    ensures outcome.Unresolved? || outcome.NoHomeserver? <==> spends == []
    ensures if spends == [] then Paced(resolves, 0, now, lookup, 25_000)
            else Paced(resolves, 0, spends[0].at, lookup, 25_000) && Paced(spends, spends[0].at, now, spend, 30_000)
    ensures spends == [] ==> |resolves| == 4 || now + Pause(|resolves|) + 55_000 > 120_000
    ensures spends != [] && spends[|spends| - 1].answer == Some(CouldNotConnect) ==>
              |spends| == 3 || now + Pause(|spends|) + 30_000 > 120_000
  {
    var failure;
    failure, resolves, now := ResolveWithRetries(lookup);
    if failure.Some? {
      return failure.value, resolves, [], now;
    }
    outcome, spends, now := SpendWithRetries(now, spend);
  }
}
