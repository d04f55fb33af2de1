/** The one saved sign-in and the generation counter that retires loops still running for an earlier
    one. Starting or clearing a sign-in takes two steps, a bump of the counter and a write of the
    slot, and any number of them may overlap with any number of loops. */
module ResumeSlot {
  import opened Common

  /** A resume loop for a generation. */
  datatype Pc = Listening | FirstCheck | Waiting | SecondCheck | Restoring | Forgetting | Exited
  datatype Looper = Looper(generation: nat, pc: Pc)

  datatype State = State(
    generation: nat,
    pending: Option<nat>,
    updates: map<nat, Option<nat>>,   // bumped, not written yet: what each update will write
    loops: map<nat, Looper>)

  datatype Action =
    | BumpToRemember(u: nat, exportable: bool)
    | BumpToClear(u: nat)
    | Write(u: nat)
    | Enter(l: nat)                   // a loop picks up the saved state
    | Approve(l: nat)
    | Break(l: nat, ofRelay: bool)
    | Check(l: nat)
    | Delay(l: nat, givesUp: bool)
    | Restore(l: nat, ok: bool)
    | Forget(l: nat)

  const INITIAL := State(0, None, map[], map[])

  predicate Enabled(s: State, a: Action) {
    match a
    case BumpToRemember(u, _) => u !in s.updates
    case BumpToClear(u) => u !in s.updates
    case Write(u) => u in s.updates
    case Enter(l) => l !in s.loops && s.pending.Some?
    case Approve(l) => l in s.loops && s.loops[l].pc.Listening?
    case Break(l, _) => l in s.loops && s.loops[l].pc.Listening?
    case Check(l) => l in s.loops && (s.loops[l].pc.FirstCheck? || s.loops[l].pc.SecondCheck?)
    case Delay(l, _) => l in s.loops && s.loops[l].pc.Waiting?
    case Restore(l, _) => l in s.loops && s.loops[l].pc.Restoring?
    case Forget(l) => l in s.loops && s.loops[l].pc.Forgetting?
  }

  function Moved(s: State, l: nat, pc: Pc): State
    requires l in s.loops
  {
    s.(loops := s.loops[l := s.loops[l].(pc := pc)])
  }

  function Checked(s: State, l: nat): Pc
    requires l in s.loops
  {
    var current := s.generation == s.loops[l].generation;
    if s.loops[l].pc.FirstCheck? then (if current then Waiting else Forgetting)
    else if current then Restoring else Exited
  }

  function Apply(s: State, a: Action): State
    requires Enabled(s, a)
  {
    match a
    case BumpToRemember(u, exportable) =>
      s.(generation := s.generation + 1, updates := s.updates[u := if exportable then Some(s.generation + 1) else None])
    case BumpToClear(u) => s.(generation := s.generation + 1, updates := s.updates[u := None])
    case Write(u) => s.(pending := s.updates[u], updates := s.updates - {u})
    case Enter(l) => s.(loops := s.loops[l := Looper(s.pending.value, Listening)])
    case Approve(l) => Moved(s, l, Forgetting)
    case Break(l, ofRelay) => Moved(s, l, if ofRelay then FirstCheck else Forgetting)
    case Check(l) => Moved(s, l, Checked(s, l))
    case Delay(l, givesUp) => Moved(s, l, if givesUp then Forgetting else SecondCheck)
    case Restore(l, ok) => Moved(s, l, if ok then Listening else Forgetting)
    case Forget(l) =>
      Moved(s, l, Exited).(pending := if s.pending == Some(s.loops[l].generation) then None else s.pending)
  }

  type Run = Trace<State, Action>

  ghost predicate StepAt(r: Run, i: nat)
    requires i < |r.acts| < |r.states|
  {
    Enabled(r.states[i], r.acts[i]) && r.states[i + 1] == Apply(r.states[i], r.acts[i])
  }

  ghost predicate Valid(r: Run) {
    && |r.states| == |r.acts| + 1
    && r.states[0] == INITIAL
    && forall i :: 0 <= i < |r.acts| ==> StepAt(r, i)
  }

  // ----- A superseded loop -----

  /** A loop's generation never changes, and the counter never goes back. */
  lemma {:induction false} GenerationsOnlyGrow(r: Run, i: nat, j: nat, l: nat)
    requires Valid(r) && i <= j < |r.states|
    ensures r.states[i].generation <= r.states[j].generation
    ensures l in r.states[i].loops ==>
              l in r.states[j].loops && r.states[j].loops[l].generation == r.states[i].loops[l].generation
    decreases j
  {
    if i < j {
      GenerationsOnlyGrow(r, i, j - 1, l);
      assert StepAt(r, j - 1);
    }
  }

  predicate Superseded(s: State, l: nat) {
    l in s.loops && s.loops[l].generation < s.generation
  }

  /** A superseded loop that has checked since then: it forgets its state or is already gone. */
  predicate OnItsWayOut(s: State, l: nat) {
    Superseded(s, l) && (s.loops[l].pc.Forgetting? || s.loops[l].pc.Exited?)
  }

  lemma {:induction false} StaysOut(r: Run, i: nat, j: nat, l: nat)
    requires Valid(r) && i <= j < |r.states| && OnItsWayOut(r.states[i], l)
    ensures OnItsWayOut(r.states[j], l)
    decreases j
  {
    if i < j {
      StaysOut(r, i, j - 1, l);
      assert StepAt(r, j - 1);
    }
  }

  /** Once a newer sign-in has bumped the counter, a loop starts no restore after its next check. */
  lemma NoRestoreAfterCheck(r: Run, i: nat, k: nat, j: nat, l: nat)
    requires Valid(r) && i <= k < j < |r.acts|
    requires Superseded(r.states[i], l) && r.acts[k] == Check(l)
    ensures !r.acts[j].Restore? || r.acts[j].l != l
  {
    GenerationsOnlyGrow(r, i, k, l);
    assert StepAt(r, k) && StepAt(r, j);
    assert OnItsWayOut(r.states[k + 1], l);
    StaysOut(r, k + 1, j, l);
  }

  /** The step is one of loop `l`. */
  predicate ByLoop(a: Action, l: nat) {
    match a
    case BumpToRemember(_, _) => false
    case BumpToClear(_) => false
    case Write(_) => false
    case _ => a.l == l
  }

  /** In any run, a loop's steps leave the slot alone, but for erasing the state of the generation the
      loop has had all along; so a superseded loop never erases the newest flow's. */
  lemma LoopsEraseOnlyTheirOwn(r: Run, i: nat, j: nat, l: nat)
    requires Valid(r) && i <= j < |r.acts| && l in r.states[i].loops && ByLoop(r.acts[j], l)
    ensures r.states[j + 1].pending != r.states[j].pending ==>
              r.states[j].pending == Some(r.states[i].loops[l].generation) && r.states[j + 1].pending == None
    ensures Superseded(r.states[i], l) && r.states[j].pending == Some(r.states[j].generation) ==>
              r.states[j + 1].pending == r.states[j].pending
  {
    GenerationsOnlyGrow(r, i, j, l);
    assert StepAt(r, j);
  }

  /** A loop runs for the generation that was saved when it entered. */
  lemma {:induction false} EnteredFor(r: Run, i: nat, l: nat) returns (k: nat)
    requires Valid(r) && i < |r.states| && l in r.states[i].loops
    ensures k < i && r.acts[k] == Enter(l) && r.states[k].pending == Some(r.states[i].loops[l].generation)
    decreases i
  {
    assert i > 0;
    assert StepAt(r, i - 1);
    if l in r.states[i - 1].loops { k := EnteredFor(r, i - 1, l); } else { k := i - 1; }
  }

  /** Nothing saved, about to be saved or running is of a generation still to come. */
  ghost predicate NoneAhead(s: State) {
    && (s.pending.Some? ==> s.pending.value <= s.generation)
    && (forall u :: u in s.updates && s.updates[u].Some? ==> s.updates[u].value <= s.generation)
    && (forall l :: l in s.loops ==> s.loops[l].generation <= s.generation)
  }

  lemma {:induction false} NeverAhead(r: Run, i: nat)
    requires Valid(r) && i < |r.states|
    ensures NoneAhead(r.states[i])
    decreases i
  {
    if i > 0 {
      NeverAhead(r, i - 1);
      assert StepAt(r, i - 1);
    }
  }

  /** A check sends a loop on its way out exactly when the loop is superseded; otherwise it goes on to
      its wait, or to its restore. */
  lemma ChecksStopTheSuperseded(r: Run, k: nat, l: nat)
    requires Valid(r) && k < |r.acts| && r.acts[k] == Check(l)
    ensures OnItsWayOut(r.states[k + 1], l) <==> Superseded(r.states[k], l)
    ensures !Superseded(r.states[k], l) ==>
              && l in r.states[k + 1].loops
              && (r.states[k + 1].loops[l].pc.Waiting? || r.states[k + 1].loops[l].pc.Restoring?)
  {
    NeverAhead(r, k);
    assert StepAt(r, k);
  }

  // ----- The saved state and the newest generation -----

  /** No update starts while another is between its bump and its write. */
  ghost predicate Serial(r: Run)
    requires Valid(r)
  {
    forall i :: 0 <= i < |r.acts| ==> SerialStep(r.states[i], r.acts[i])
  }

  predicate SerialStep(s: State, a: Action) {
    Bumps(a) ==> s.updates == map[]
  }

  /** Between updates the slot is empty or holds the newest generation, and a loop that is over has
      left nothing of its own behind; during an update everything is one generation older. */
  predicate SlotOk(s: State) {
    && |s.updates| <= 1
    && (s.pending.Some? ==> s.pending.value + |s.updates| == s.generation)
    && (forall u :: u in s.updates && s.updates[u].Some? ==> s.updates[u].value == s.generation)
    && (forall l :: l in s.loops ==> LoopOk(s, s.loops[l]))
  }

  predicate LoopOk(s: State, k: Looper) {
    && k.generation + |s.updates| <= s.generation
    && (k.pc.Exited? && |s.updates| == 0 ==> s.pending != Some(k.generation))
  }

  lemma WriteLeavesNone(s: State, u: nat)
    requires |s.updates| <= 1 && u in s.updates
    ensures |s.updates - {u}| == 0 && |s.updates| == 1
  {
    assert s.updates.Keys == (s.updates - {u}).Keys + {u};
  }

  lemma SerialStepKeepsSlot(s: State, a: Action)
    requires SlotOk(s) && Enabled(s, a) && SerialStep(s, a)
    ensures SlotOk(Apply(s, a))
  {
    var s' := Apply(s, a);
    if a.Write? {
      WriteLeavesNone(s, a.u);
    } else if Bumps(a) {
      assert s'.updates.Keys == {a.u};
    }
    forall l | l in s'.loops
      ensures LoopOk(s', s'.loops[l])
    {
      if l in s.loops { assert LoopOk(s, s.loops[l]); }
    }
  }

  lemma {:induction false} SerialRunKeepsSlot(r: Run, i: nat)
    requires Valid(r) && Serial(r) && i < |r.states|
    ensures SlotOk(r.states[i])
    decreases i
  {
    if i > 0 {
      SerialRunKeepsSlot(r, i - 1);
      assert StepAt(r, i - 1) && SerialStep(r.states[i - 1], r.acts[i - 1]);
      SerialStepKeepsSlot(r.states[i - 1], r.acts[i - 1]);
    }
  }

  /** When updates do not overlap, whatever is saved carries the newest generation between them, and
      no loop that is over has left its own state behind. */
  lemma SavedIsNewest(r: Run, i: nat, l: nat)
    requires Valid(r) && Serial(r) && i < |r.states| && r.states[i].updates == map[]
    ensures r.states[i].pending.Some? ==> r.states[i].pending.value == r.states[i].generation
    ensures l in r.states[i].loops && r.states[i].loops[l].pc.Exited? ==>
              r.states[i].pending != Some(r.states[i].loops[l].generation)
  {
    SerialRunKeepsSlot(r, i);
    assert l in r.states[i].loops ==> LoopOk(r.states[i], r.states[i].loops[l]);
  }

  // ----- When updates overlap -----

  ghost predicate NoWrites(r: Run, i: nat, j: nat)
    requires j <= |r.acts|
  {
    forall k :: i <= k < j ==> !r.acts[k].Write?
  }

  /** What is saved was put there by the last write. */
  lemma {:induction false} SavedByTheLastWrite(r: Run, i: nat) returns (k: nat)
    requires Valid(r) && i < |r.states| && r.states[i].pending.Some?
    ensures k < i && r.acts[k].Write? && NoWrites(r, k + 1, i)
    ensures r.acts[k].u in r.states[k].updates && r.states[k].updates[r.acts[k].u] == r.states[i].pending
    decreases i
  {
    assert i > 0;
    assert StepAt(r, i - 1);
    if r.acts[i - 1].Write? { k := i - 1; } else { k := SavedByTheLastWrite(r, i - 1); }
  }

  /** A bump that no write has followed is an update still under way. */
  lemma {:induction false} BumpsAwaitTheirWrite(r: Run, i: nat, j: nat)
    requires Valid(r) && i <= j < |r.states| && NoWrites(r, i, j)
    ensures r.states[i].generation < r.states[j].generation ==> r.states[j].updates != map[]
    ensures r.states[i].generation <= r.states[j].generation
    decreases j
  {
    if i < j {
      BumpsAwaitTheirWrite(r, i, j - 1);
      assert StepAt(r, j - 1);
      if r.states[j - 1].updates != map[] {
        var u :| u in r.states[j - 1].updates;
        assert u in r.states[j].updates;
      }
    }
  }

  predicate Bumps(a: Action) {
    a.BumpToRemember? || a.BumpToClear?
  }

  ghost predicate NoBumps(r: Run, i: nat, j: nat)
    requires j <= |r.acts|
  {
    forall k :: i <= k < j ==> !Bumps(r.acts[k])
  }

  /** The counter stands still exactly where nobody bumps it. */
  lemma {:induction false} StillIffNoBumps(r: Run, i: nat, j: nat)
    requires Valid(r) && i <= j < |r.states|
    ensures r.states[i].generation <= r.states[j].generation
    ensures r.states[i].generation == r.states[j].generation <==> NoBumps(r, i, j)
    decreases j
  {
    if i < j {
      StillIffNoBumps(r, i, j - 1);
      assert StepAt(r, j - 1);
    }
  }

  /** An update under way was begun by a bump to the generation it will save. */
  lemma {:induction false} UpdateBegan(r: Run, k: nat, u: nat) returns (b: nat)
    requires Valid(r) && k < |r.states| && u in r.states[k].updates && r.states[k].updates[u].Some?
    ensures b < k && r.acts[b] == BumpToRemember(u, true)
    ensures r.states[b + 1].generation == r.states[k].updates[u].value
    decreases k
  {
    assert k > 0;
    assert StepAt(r, k - 1);
    if r.acts[k - 1] == BumpToRemember(u, true) {
      b := k - 1;
    } else {
      b := UpdateBegan(r, k - 1, u);
    }
  }

  /** However updates overlap: between them, what is saved was bumped for at `b` and written at `k`,
      and it carries the newest generation exactly when nobody else bumped the counter in between. */
  lemma SavedIsNewestExactly(r: Run, i: nat) returns (b: nat, k: nat)
    requires Valid(r) && i < |r.states| && r.states[i].updates == map[] && r.states[i].pending.Some?
    ensures b < k < i && r.acts[k].Write? && r.acts[b] == BumpToRemember(r.acts[k].u, true)
    ensures NoWrites(r, k + 1, i) && r.states[b + 1].generation == r.states[i].pending.value
    ensures r.states[i].pending.value == r.states[i].generation <==> NoBumps(r, b + 1, k)
  {
    k := SavedByTheLastWrite(r, i);
    b := UpdateBegan(r, k, r.acts[k].u);
    assert StepAt(r, k);
    BumpsAwaitTheirWrite(r, k + 1, i);
    StillIffNoBumps(r, b + 1, k);
  }

  const OVERLAP := [BumpToRemember(0, true), BumpToRemember(1, true), Write(1), Write(0)]

  function OverlapState(i: nat): State {
    if i == 0 then INITIAL
    else if i == 1 then State(1, None, map[0 := Some(1)], map[])
    else if i == 2 then State(2, None, map[0 := Some(1), 1 := Some(2)], map[])
    else if i == 3 then State(2, Some(2), map[0 := Some(1)], map[])
    else State(2, Some(1), map[], map[])
  }

  /** Two starts that overlap can leave the older one's state saved for good. */
  lemma OverlappingStartsSaveTheOlder() returns (r: Run)
    ensures Valid(r) && r.acts == OVERLAP && r.states[4] == State(2, Some(1), map[], map[])
  {
    r := Trace(seq(5, i requires i >= 0 => OverlapState(i)), OVERLAP);
    forall i | 0 <= i < |r.acts|
      ensures StepAt(r, i)
    {
    }
  }

  // ----- The slot as the crate keeps it, one caller at a time -----

  class Slot {
    var generation: nat
    var pending: Option<nat>

    /** The fields are those of a state of the step system with no update under way. */
    ghost predicate Stands(s: State)
      reads this
    {
      generation == s.generation && pending == s.pending && s.updates == map[] && SlotOk(s)
    }

    constructor ()
      ensures Stands(INITIAL)
    {
      generation, pending := 0, None;
    }

    /** Record a just-started flow; one whose state cannot be exported leaves the slot empty. It is
        the bump and the write of the step system in one, and it supersedes every loop there is. */
    method Remember(exportable: bool, ghost s: State) returns (ghost s': State)
      requires Stands(s)
      modifies this
      ensures s' == Apply(Apply(s, BumpToRemember(0, exportable)), Write(0)) && Stands(s')
      ensures forall l :: l in s'.loops ==> Superseded(s', l)
    {
      RetiresEveryLoop(s, BumpToRemember(0, exportable));
      generation := generation + 1;
      pending := if exportable then Some(generation) else None;
      s' := Apply(Apply(s, BumpToRemember(0, exportable)), Write(0));
    }

    /** A generation is current exactly as long as its loops are not superseded. */
    method IsCurrent(g: nat, ghost s: State) returns (current: bool)
      requires Stands(s)
      ensures forall l :: l in s.loops && s.loops[l].generation == g ==> (current <==> !Superseded(s, l))
    {
      current := generation == g;
      assert forall l :: l in s.loops ==> LoopOk(s, s.loops[l]);
    }

    /** The end of a loop: nothing of its generation is left, and another's state is not touched. */
    method Forget(g: nat, ghost s: State, ghost l: nat) returns (ghost s': State)
      requires Stands(s) && l in s.loops && s.loops[l] == Looper(g, Forgetting)
      modifies this`pending
      ensures s' == Apply(s, Action.Forget(l)) && Stands(s')
      ensures pending != Some(g) && (old(pending) != Some(g) ==> pending == old(pending))
    {
      SerialStepKeepsSlot(s, Action.Forget(l));
      if pending.Some? && pending.value == g {
        pending := None;
      }
      s' := Apply(s, Action.Forget(l));
    }

    /** Nothing is left in the slot, and every loop there is is superseded. */
    method Clear(ghost s: State) returns (ghost s': State)
      requires Stands(s)
      modifies this
      ensures s' == Apply(Apply(s, BumpToClear(0)), Write(0)) && Stands(s') && pending == None
      ensures forall l :: l in s'.loops ==> Superseded(s', l)
    {
      RetiresEveryLoop(s, BumpToClear(0));
      generation := generation + 1;
      pending := None;
      s' := Apply(Apply(s, BumpToClear(0)), Write(0));
    }
  }

  /** An update taken as one step keeps the slot in order and supersedes every loop there is. */
  lemma RetiresEveryLoop(s: State, a: Action)
    requires SlotOk(s) && s.updates == map[] && Bumps(a) && a.u == 0
    ensures Enabled(s, a) && Enabled(Apply(s, a), Write(0))
    ensures var s' := Apply(Apply(s, a), Write(0));
            && SlotOk(s') && s'.updates == map[] && s'.generation == s.generation + 1
            && forall l :: l in s'.loops ==> Superseded(s', l)
  {
    SerialStepKeepsSlot(s, a);
    SerialStepKeepsSlot(Apply(s, a), Write(0));
    assert forall l :: l in s.loops ==> LoopOk(s, s.loops[l]);
    assert Apply(s, a).updates - {0} == map[];
  }
}
