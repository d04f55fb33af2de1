/** The lifetime of a foreign object's Rust pointer under calls and destroys from any number of
    threads: one action is one atomic operation on the counter or the flag, one end of a block, or
    the freeing itself. */
module ForeignObject {
  import opened Common

  const LONG_MAX := 0x7FFF_FFFF_FFFF_FFFF

  datatype Pc =
    | Reading                 // about to read the call counter
    | Comparing(c: int)       // read `c`, about to compare and set
    | InBlock                 // the pointer is in use
    | Destroying              // about to flip the flag
    | Releasing               // flipped it, about to decrement
    | Freeing                 // decremented to zero, about to free
    | Done(threw: bool)

  datatype State = State(counter: int, destroyed: bool, frees: nat, threads: map<nat, Pc>)

  datatype Action =
    | BeginCall(t: nat)
    | BeginDestroy(t: nat)
    | Read(t: nat)
    | CompareAndSet(t: nat)
    | EndBlock(t: nat)        // and the decrement in its finally
    | FlipFlag(t: nat)
    | Decrement(t: nat)
    | Free(t: nat)

  const INITIAL := State(1, false, 0, map[])

  predicate Enabled(s: State, a: Action) {
    match a
    case BeginCall(t) => t !in s.threads
    case BeginDestroy(t) => t !in s.threads
    case Read(t) => t in s.threads && s.threads[t].Reading?
    case CompareAndSet(t) => t in s.threads && s.threads[t].Comparing?
    case EndBlock(t) => t in s.threads && s.threads[t].InBlock?
    case FlipFlag(t) => t in s.threads && s.threads[t].Destroying?
    case Decrement(t) => t in s.threads && s.threads[t].Releasing?
    case Free(t) => t in s.threads && s.threads[t].Freeing?
  }

  function At(s: State, t: nat, pc: Pc): State {
    s.(threads := s.threads[t := pc])
  }

  /** decrementAndGet, and what a thread does with the answer. */
  function Decremented(s: State, t: nat): State {
    At(s, t, if s.counter - 1 == 0 then Freeing else Done(false)).(counter := s.counter - 1)
  }

  function Apply(s: State, a: Action): State
    requires Enabled(s, a)
  {
    match a
    case BeginCall(t) => At(s, t, Reading)
    case BeginDestroy(t) => At(s, t, Destroying)
    case Read(t) => At(s, t, if s.counter == 0 || s.counter == LONG_MAX then Done(true) else Comparing(s.counter))
    case CompareAndSet(t) =>
      if s.counter == s.threads[t].c then At(s, t, InBlock).(counter := s.counter + 1) else At(s, t, Reading)
    case EndBlock(t) => Decremented(s, t)
    case FlipFlag(t) => if s.destroyed then At(s, t, Done(false)) else At(s, t, Releasing).(destroyed := true)
    case Decrement(t) => Decremented(s, t)
    case Free(t) => At(s, t, Done(false)).(frees := s.frees + 1)
  }

  // ----- Counting threads -----

  datatype Kind = Using | Leaving | AboutToFree | Other

  function KindOf(pc: Pc): Kind {
    if pc.InBlock? then Using else if pc.Releasing? then Leaving else if pc.Freeing? then AboutToFree else Other
  }

  function Where(threads: map<nat, Pc>, kind: Kind): set<nat> {
    set t | t in threads && KindOf(threads[t]) == kind
  }

  function Count(threads: map<nat, Pc>, kind: Kind): nat {
    |Where(threads, kind)|
  }

  function One(b: bool): nat {
    if b then 1 else 0
  }

  /** Moving one thread changes the count of its old kind and of its new one by one. */
  lemma CountMoves(threads: map<nat, Pc>, t: nat, pc: Pc, kind: Kind)
    ensures Count(threads[t := pc], kind) ==
              Count(threads, kind) - One(t in threads && KindOf(threads[t]) == kind) + One(KindOf(pc) == kind)
  {
    WhereMoves(threads, t, pc, kind);
    assert t in Where(threads, kind) <==> t in threads && KindOf(threads[t]) == kind;
    hide Where, KindOf;
    SizeWithout(Where(threads, kind), t);
  }

  lemma WhereMoves(threads: map<nat, Pc>, t: nat, pc: Pc, kind: Kind)
    ensures Where(threads[t := pc], kind) ==
              if KindOf(pc) == kind then Where(threads, kind) + {t} else Where(threads, kind) - {t}
  {
  }

  lemma SizeWithout(s: set<nat>, t: nat)
    ensures |s - {t}| == |s| - One(t in s)
    ensures |s + {t}| == |s| - One(t in s) + 1
  {
    if t in s { assert s + {t} == s; }
  }

  lemma CountSome(threads: map<nat, Pc>, t: nat)
    requires t in threads
    ensures Count(threads, KindOf(threads[t])) >= 1
  {
    assert t in Where(threads, KindOf(threads[t]));
  }

  /** The counter counts the blocks running and the one reference `destroy` gives up; the pointer is
      freed, or about to be by one thread, exactly when it has reached zero. */
  predicate Counted(s: State) {
    var using, leaving, freeing := Count(s.threads, Using), Count(s.threads, Leaving), Count(s.threads, AboutToFree);
    && leaving <= 1 && (!s.destroyed ==> leaving == 0)
    && s.counter == using + (if s.destroyed then leaving else 1)
    && s.counter <= LONG_MAX
    && s.frees + freeing == One(s.counter == 0)
  }

  predicate ReadsOk(s: State) {
    forall t :: t in s.threads && s.threads[t].Comparing? ==> 1 <= s.threads[t].c < LONG_MAX
  }

  ghost predicate Inv(s: State) {
    Counted(s) && ReadsOk(s)
  }

  lemma StepKeepsInv(s: State, a: Action)
    requires Inv(s) && Enabled(s, a)
    ensures Inv(Apply(s, a))
  {
    var s' := Apply(s, a);
    var pc := s'.threads[a.t];
    assert s'.threads == s.threads[a.t := pc];
    CountMoves(s.threads, a.t, pc, Using);
    CountMoves(s.threads, a.t, pc, Leaving);
    CountMoves(s.threads, a.t, pc, AboutToFree);
    if a.t in s.threads { CountSome(s.threads, a.t); }
    hide Count;
  }

  type Run = Trace<State, Action>

  ghost predicate StepAt(r: Run, i: nat)
    requires i < |r.acts| < |r.states|
  {
    Enabled(r.states[i], r.acts[i]) && r.states[i + 1] == Apply(r.states[i], r.acts[i])
  }

  ghost predicate Valid(r: Run) {
    && |r.states| == |r.acts| + 1
    && r.states[0] == INITIAL
    && forall i :: 0 <= i < |r.acts| ==> StepAt(r, i)
  }

  lemma {:induction false} RunInv(r: Run, i: nat)
    requires Valid(r) && i < |r.states|
    ensures Inv(r.states[i])
    decreases i
  {
    if i == 0 {
      assert Where(INITIAL.threads, Using) == {} && Where(INITIAL.threads, Leaving) == {};
      assert Where(INITIAL.threads, AboutToFree) == {};
    } else {
      RunInv(r, i - 1);
      assert StepAt(r, i - 1);
      StepKeepsInv(r.states[i - 1], r.acts[i - 1]);
    }
  }

  /** The pointer has been freed, or a thread is about to free it. */
  ghost predicate FreedOrDue(s: State) {
    s.frees > 0 || exists u :: u in s.threads && s.threads[u].Freeing?
  }

  /** The pointer is freed at most once, only after a destroy, and never while a block is running:
      neither when the freeing is due nor ever after it. */
  lemma FreedOnceAndAlone(r: Run, i: nat)
    requires Valid(r) && i < |r.states|
    ensures r.states[i].frees <= 1
    ensures FreedOrDue(r.states[i]) ==> r.states[i].destroyed
    ensures FreedOrDue(r.states[i]) ==> forall t :: t in r.states[i].threads ==> !r.states[i].threads[t].InBlock?
  {
    RunInv(r, i);
    var s := r.states[i];
    if FreedOrDue(s) {
      if s.frees == 0 {
        var u :| u in s.threads && s.threads[u].Freeing?;
        CountSome(s.threads, u);
      }
      forall t | t in s.threads ensures !s.threads[t].InBlock? { CountSome(s.threads, t); }
    }
  }

  /** No block starts once the pointer has been freed. */
  lemma NoBlockAfterFree(r: Run, i: nat, t: nat)
    requires Valid(r) && i < |r.acts| && r.acts[i] == CompareAndSet(t) && r.states[i].frees == 1
    ensures t in r.states[i + 1].threads && !r.states[i + 1].threads[t].InBlock?
  {
    RunInv(r, i);
    assert StepAt(r, i);
  }

  /** Once a destroy has been called and every call and destroy has ended, the pointer has been freed
      exactly once. */
  lemma FreedWhenAllIsDone(r: Run, i: nat)
    requires Valid(r) && i < |r.states| && r.states[i].destroyed
    requires forall t :: t in r.states[i].threads ==> r.states[i].threads[t].Done?
    ensures r.states[i].frees == 1
  {
    RunInv(r, i);
    var s := r.states[i];
    assert Where(s.threads, Using) == {} && Where(s.threads, Leaving) == {} && Where(s.threads, AboutToFree) == {};
  }

  /** The number of blocks running. */
  function Blocks(s: State): nat {
    Count(s.threads, Using)
  }

  /** A call is turned away exactly when the pointer is freed or about to be, or when the counter is
      full; with no destroy and room in the counter it goes on. */
  lemma RefusedExactly(r: Run, i: nat, t: nat)
    requires Valid(r) && i < |r.acts| && r.acts[i] == Read(t)
    ensures t in r.states[i + 1].threads
    ensures r.states[i + 1].threads[t] == Done(true) <==> FreedOrDue(r.states[i]) || r.states[i].counter == LONG_MAX
    ensures !r.states[i].destroyed && Blocks(r.states[i]) + 1 < LONG_MAX ==> r.states[i + 1].threads[t].Comparing?
  {
    RunInv(r, i);
    assert StepAt(r, i);
    var s := r.states[i];
    if u :| u in s.threads && s.threads[u].Freeing? { CountSome(s.threads, u); }
    if Count(s.threads, AboutToFree) > 0 {
      var u :| u in Where(s.threads, AboutToFree);
    }
  }
}
