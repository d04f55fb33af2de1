/** The wording of failures on the session path: which of them carry the rejection marker. */
module SessionErrors {
  import opened Common
  import opened SessionProtocol
  import opened SessionRuns
  import SessionAnswers

  const SESSION_REJECTED := "Session rejected"

  predicate StartsWith(message: string, prefix: string) {
    prefix <= message
  }

  function RejectedMessage(error: Error, detail: string): string {
    SESSION_REJECTED + ": the homeserver refused this session as invalid: " + detail
    + if error.Authentication? then " (authentication)" else ""
  }

  /** The two ways a typed error is shown: its own text and its whole chain of causes. */
  datatype Wording = Wording(text: string, chain: string)

  /** The failure of an import, formatted where the typed error still exists. */
  function ImportMessage(error: Error, w: Wording): string {
    if Rejected(error) then RejectedMessage(error, w.text)
    else "Failed to import session: " + w.chain
  }

  function IntoMessage(failure: Failure, w: Wording, verb: string): string {
    match failure
    case ImportFailure(error) => ImportMessage(error, w)
    case OpFailure(error) =>
      if Rejected(error) then RejectedMessage(error, verb + ": " + w.text)
      else verb + ": " + w.chain
  }

  lemma OtherFirstLetter(message: string)
    requires message != [] && message[0] != 'S'
    ensures !StartsWith(message, SESSION_REJECTED)
  {
    assert SESSION_REJECTED[0] == 'S';
  }

  /** The marker holds no colon, so a message that starts with it starts with a verb that does. */
  lemma MarkerInVerb(verb: string, rest: string)
    ensures StartsWith(verb + ": " + rest, SESSION_REJECTED) <==> StartsWith(verb, SESSION_REJECTED)
  {
    var message := verb + ": " + rest;
    assert message[|verb|] == ':' && message[..|verb|] == verb;
    assert forall i :: 0 <= i < |SESSION_REJECTED| ==> SESSION_REJECTED[i] != ':';
  }

  /** The message of a failure carries the marker exactly when its typed error was a rejection of the
      session, or when it is an operation's failure under a verb that carries it already. */
  lemma MarkerIffRejected(failure: Failure, w: Wording, verb: string)
    ensures StartsWith(IntoMessage(failure, w, verb), SESSION_REJECTED)
            <==> Rejected(failure.error) || (failure.OpFailure? && StartsWith(verb, SESSION_REJECTED))
  {
    var message := IntoMessage(failure, w, verb);
    if Rejected(failure.error) {
      assert message[..|SESSION_REJECTED|] == SESSION_REJECTED;
    } else if failure.ImportFailure? {
      OtherFirstLetter(message);
    } else {
      MarkerInVerb(verb, w.chain);
    }
  }

  /** So the marker tells rejections from all other failures under exactly the verbs that do not
      begin with it. */
  lemma MarkerTellsRejections(verb: string)
    ensures (forall failure, w ::
               StartsWith(IntoMessage(failure, w, verb), SESSION_REJECTED) <==> Rejected(failure.error))
            <==> !StartsWith(verb, SESSION_REJECTED)
  {
    forall failure, w ensures StartsWith(IntoMessage(failure, w, verb), SESSION_REJECTED)
      <==> Rejected(failure.error) || (failure.OpFailure? && StartsWith(verb, SESSION_REJECTED))
    {
      MarkerIffRejected(failure, w, verb);
    }
    var other := IntoMessage(OpFailure(OtherError), Wording("", ""), verb);
    assert StartsWith(other, SESSION_REJECTED) <==> StartsWith(verb, SESSION_REJECTED);
  }

  predicate IsAt(message: string, part: string, i: nat) {
    i + |part| <= |message| && message[i..i + |part|] == part
  }

  ghost predicate Contains(message: string, part: string) {
    exists i: nat :: IsAt(message, part, i)
  }

  lemma ContainsMiddle(message: string, before: string, part: string, rest: string)
    requires message == before + part + rest
    ensures Contains(message, part)
  {
    assert IsAt(message, part, |before|);
  }

  lemma PartsOfOperation(head: string, verb: string, text: string, tail: string)
    ensures Contains(head + (verb + ": " + text) + tail, verb)
    ensures Contains(head + (verb + ": " + text) + tail, text)
  {
    var message := head + (verb + ": " + text) + tail;
    ContainsMiddle(message, head, verb, ": " + text + tail);
    ContainsMiddle(message, head + verb + ": ", text, tail);
  }

  /** A message about any other failure keeps the whole chain of its causes. */
  lemma FailureKeepsItsChain(failure: Failure, w: Wording, verb: string)
    requires !Rejected(failure.error)
    ensures Contains(IntoMessage(failure, w, verb), w.chain)
    ensures failure.OpFailure? ==> StartsWith(IntoMessage(failure, w, verb), verb)
  {
    hide Contains;
    var before := if failure.OpFailure? then verb + ": " else "Failed to import session: ";
    ContainsMiddle(IntoMessage(failure, w, verb), before, w.chain, "");
    assert failure.OpFailure? ==> IntoMessage(failure, w, verb)[..|verb|] == verb;
  }

  /** A message about a rejection keeps the error's own text and, for an operation, the caller's verb. */
  lemma RejectionKeepsItsText(failure: Failure, w: Wording, verb: string)
    requires Rejected(failure.error)
    ensures Contains(IntoMessage(failure, w, verb), w.text)
    ensures failure.OpFailure? ==> Contains(IntoMessage(failure, w, verb), verb)
  {
    hide Contains;
    var tail := if failure.error.Authentication? then " (authentication)" else "";
    var head := SESSION_REJECTED + ": the homeserver refused this session as invalid: ";
    if failure.OpFailure? {
      PartsOfOperation(head, verb, w.text, tail);
    } else {
      ContainsMiddle(IntoMessage(failure, w, verb), head, w.text, tail);
    }
  }

  // ----- Over whole runs -----

  /** The steps that give a caller a typed outcome: its import and its operation. */
  predicate Decides(a: Action, c: nat) {
    (a.Mint? || a.Operate?) && a.c == c
  }

  /** What a step's outcome is to the caller, if that is where it ends. */
  function Told(a: Action): Option<Failure> {
    match a
    case Mint(_, FailedWith(error)) => Some(ImportFailure(error))
    case Operate(_, FailedWith(error)) => Some(OpFailure(error))
    case _ => None
  }

  /** Step `k` gave `c` its last typed outcome before state `i`. */
  ghost predicate LastOutcome(r: Run, k: nat, i: nat, c: nat) {
    k < i <= |r.acts| && Decides(r.acts[k], c) && forall j :: k < j < i ==> !Decides(r.acts[j], c)
  }

  /** The failure of an import on its way to the caller, or the one the caller ended with. */
  function Carried(p: Phase): Option<Failure> {
    match p
    case BodyDone(_, answer) => FailureOf(answer)
    case Released(_, answer) => FailureOf(answer)
    case Dropping(_, answer) => FailureOf(answer)
    case Finished(_, failure) => failure
    case _ => None
  }

  lemma CarriedStep(s: State, a: Action, c: nat)
    requires Enabled(s, a) && c in Apply(s, a).callers && Carried(Apply(s, a).callers[c].phase).Some?
    ensures var failure := Carried(Apply(s, a).callers[c].phase);
            || (Decides(a, c) && Told(a) == failure)
            || (!Decides(a, c) && c in s.callers && Carried(s.callers[c].phase) == failure)
  {
    hide Apply, Enabled;
    CallerStep(s, a, c);
  }

  lemma {:induction false} CarriedIsTheLast(r: Run, i: nat, c: nat) returns (k: nat)
    requires Valid(r) && i < |r.states| && c in r.states[i].callers && Carried(r.states[i].callers[c].phase).Some?
    ensures LastOutcome(r, k, i, c) && Told(r.acts[k]) == Carried(r.states[i].callers[c].phase)
    decreases i
  {
    assert i > 0;
    StepTo(r, i);
    CarriedStep(r.states[i - 1], r.acts[i - 1], c);
    hide Apply, Enabled, Inv;
    if Decides(r.acts[i - 1], c) { k := i - 1; } else { k := CarriedIsTheLast(r, i - 1, c); }
  }

  predicate FinishedOperation(s: State, c: nat) {
    c in s.callers && s.callers[c].job.WithSession? && s.callers[c].phase.Finished?
  }

  lemma FinishingStep(s: State, a: Action, c: nat)
    requires Enabled(s, a) && FinishedOperation(Apply(s, a), c)
    ensures var failure := Apply(s, a).callers[c].phase.failure;
            || (Decides(a, c) && Told(a) == failure)
            || (&& !Decides(a, c) && c in s.callers
                && (FinishedOperation(s, c) || failure.Some?)
                && (FinishedOperation(s, c) ==> s.callers[c].phase.failure == failure))
  {
    hide Apply, Enabled;
    CallerStep(s, a, c);
  }

  /** What with_session reports is its last typed outcome: the failure of its last import or of its
      last operation, or success, whatever came before. */
  lemma {:induction false} EndsWithTheLastOutcome(r: Run, i: nat, c: nat) returns (k: nat)
    requires Valid(r) && i < |r.states| && FinishedOperation(r.states[i], c)
    ensures LastOutcome(r, k, i, c) && Told(r.acts[k]) == r.states[i].callers[c].phase.failure
    decreases i
  {
    assert i > 0;
    StepTo(r, i);
    FinishingStep(r.states[i - 1], r.acts[i - 1], c);
    if r.states[i].callers[c].phase.failure.Some? {
      k := CarriedIsTheLast(r, i, c);
    } else if Decides(r.acts[i - 1], c) {
      k := i - 1;
    } else {
      k := EndsWithTheLastOutcome(r, i - 1, c);
    }
  }

  /** In every run, for every sequence of outcomes: a caller of with_session that ends in failure gets
      the marker exactly when the last typed error it met was a rejection (or its operation failed
      under a verb that carries the marker already). */
  lemma MarkerOverRuns(r: Run, i: nat, c: nat, w: Wording, verb: string) returns (k: nat)
    requires Valid(r) && i < |r.states| && FinishedOperation(r.states[i], c)
    requires r.states[i].callers[c].phase.failure.Some?
    ensures LastOutcome(r, k, i, c) && r.acts[k].outcome.FailedWith?
    ensures StartsWith(IntoMessage(r.states[i].callers[c].phase.failure.value, w, verb), SESSION_REJECTED)
            <==> || SessionAnswers.IsRejection(r.acts[k].outcome)
                 || (r.acts[k].Operate? && StartsWith(verb, SESSION_REJECTED))
  {
    k := EndsWithTheLastOutcome(r, i, c);
    MarkerIffRejected(r.states[i].callers[c].phase.failure.value, w, verb);
  }
}
