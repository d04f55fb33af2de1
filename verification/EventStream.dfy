/** Delivering a homeserver's event stream to a foreign listener, and the table of running streams. */
module EventStream {
  import opened Common

  // ----- Delivery -----

  datatype Item = Event(cursor: nat) | Failure(message: string)

  datatype Callback = OnEvent(cursor: nat) | OnError(message: string) | OnComplete

  const THREW := "event listener threw; the stream is stopped"

  /** Did the delivery before the last callback throw? */
  predicate Thrown(calls: seq<Callback>, throws: nat -> bool) {
    |calls| >= 2 && throws(|calls| - 2)
  }

  /** Delivers the stream until it ends, fails, or the listener throws; `throws(i)` says whether the
      i-th callback throws. The callbacks attempted are the events in order, and then one more: an
      error or the completion. */
  method Pump(stream: seq<Item>, throws: nat -> bool) returns (calls: seq<Callback>)
    ensures 1 <= |calls| <= |stream| + 1
    ensures forall i :: 0 <= i < |calls| - 1 ==> stream[i].Event? && calls[i] == OnEvent(stream[i].cursor)
    ensures forall i :: 0 <= i < |calls| - 2 ==> !throws(i)
    ensures |calls| <= |stream| && !Thrown(calls, throws) ==> stream[|calls| - 1].Failure?
    ensures calls[|calls| - 1] ==
              if Thrown(calls, throws) then OnError(THREW)
              else if |calls| <= |stream| then OnError(stream[|calls| - 1].message)
              else OnComplete
    ensures OnComplete in calls <==> forall i :: 0 <= i < |stream| ==> stream[i].Event? && !throws(i)
  {
    calls := [];
    var i := 0;
    while i < |stream|
      invariant i <= |stream| && |calls| == i
      invariant forall k :: 0 <= k < i ==> stream[k].Event? && calls[k] == OnEvent(stream[k].cursor) && !throws(k)
    {
      match stream[i] {
        case Event(cursor) =>
          calls := calls + [OnEvent(cursor)];
          if throws(i) {
            calls := calls + [OnError(THREW)];
            return;
          }
        case Failure(message) =>
          calls := calls + [OnError(message)];
          return;
      }
      i := i + 1;
    }
    calls := calls + [OnComplete];
  }

  // ----- The table of running streams -----

  /** A stream's task: waiting for its gate, pumping, about to drop its entry, past that, or over. */
  datatype Status = Gated | Pumping | Ending | Left | Finished

  /** How far the start that spawned the task has come. */
  datatype Progress = Spawned | Inserted | Opened

  datatype Task = Task(id: nat, status: Status, progress: Progress, aborted: bool)

  datatype State = State(sequence: nat, table: map<nat, nat>, tasks: map<nat, Task>)

  datatype Action =
    | Spawn(t: nat)            // takes the next id and spawns a gated task
    | Insert(t: nat)
    | Open(t: nat)
    | Enter(t: nat)            // the task passes its gate
    | EndPump(t: nat)
    | Abort(t: nat)            // an aborted task stops at its next await
    | DropEntry(t: nat)        // its registration is dropped
    | Finish(t: nat)
    | Stop(id: nat)
    | StopAll

  const INITIAL := State(1, map[], map[])

  predicate Enabled(s: State, a: Action) {
    match a
    case Spawn(t) => t !in s.tasks
    case Insert(t) => t in s.tasks && s.tasks[t].progress.Spawned?
    case Open(t) => t in s.tasks && s.tasks[t].progress.Inserted?
    case Enter(t) => t in s.tasks && s.tasks[t].status.Gated? && s.tasks[t].progress.Opened?
    case EndPump(t) => t in s.tasks && s.tasks[t].status.Pumping?
    case Abort(t) => t in s.tasks && s.tasks[t].aborted && (s.tasks[t].status.Gated? || s.tasks[t].status.Pumping?)
    case DropEntry(t) => t in s.tasks && s.tasks[t].status.Ending?
    case Finish(t) => t in s.tasks && s.tasks[t].status.Left?
    case Stop(_) => true
    case StopAll => true
  }

  function Become(s: State, t: nat, status: Status): State
    requires t in s.tasks
  {
    s.(tasks := s.tasks[t := s.tasks[t].(status := status)])
  }

  /** Flags every task whose handle is in the table. */
  function Aborted(s: State): map<nat, Task> {
    map t | t in s.tasks :: s.tasks[t].(aborted := s.tasks[t].aborted || t in s.table.Values)
  }

  function Apply(s: State, a: Action): State
    requires Enabled(s, a)
  {
    match a
    case Spawn(t) =>
      s.(sequence := s.sequence + 1, tasks := s.tasks[t := Task(s.sequence, Gated, Spawned, false)])
    case Insert(t) =>
      s.(table := s.table[s.tasks[t].id := t], tasks := s.tasks[t := s.tasks[t].(progress := Inserted)])
    case Open(t) => s.(tasks := s.tasks[t := s.tasks[t].(progress := Opened)])
    case Enter(t) => Become(s, t, Pumping)
    case EndPump(t) => Become(s, t, Ending)
    case Abort(t) => Become(s, t, if s.tasks[t].status.Gated? then Finished else Ending)
    case DropEntry(t) => Become(s, t, Left).(table := s.table - {s.tasks[t].id})
    case Finish(t) => Become(s, t, Finished)
    case Stop(id) =>
      if id in s.table && s.table[id] in s.tasks
      then s.(table := s.table - {id}, tasks := s.tasks[s.table[id] := s.tasks[s.table[id]].(aborted := true)])
      else s.(table := s.table - {id})
    case StopAll => s.(table := map[], tasks := Aborted(s))
  }

  predicate TaskOk(s: State, t: nat)
    requires t in s.tasks
  {
    var k := s.tasks[t];
    && k.id < s.sequence
    && (k.progress.Spawned? ==> k.status.Gated? && !k.aborted && k.id !in s.table)
    && (k.aborted ==> k.id !in s.table)
    && (k.status.Left? || k.status.Finished? ==> k.id !in s.table)
    && (!k.progress.Spawned? && !k.aborted && !k.status.Left? && !k.status.Finished? ==>
          k.id in s.table && s.table[k.id] == t)
  }

  /** An id in the table is that of the task it names, which is not over and has not dropped it. */
  predicate EntryOk(s: State, id: nat)
    requires id in s.table
  {
    && s.table[id] in s.tasks && s.tasks[s.table[id]].id == id
    && !s.tasks[s.table[id]].aborted
    && !s.tasks[s.table[id]].status.Left? && !s.tasks[s.table[id]].status.Finished?
  }

  ghost predicate Inv(s: State) {
    && (forall t, u :: t in s.tasks && u in s.tasks && s.tasks[t].id == s.tasks[u].id ==> t == u)
    && (forall t :: t in s.tasks ==> TaskOk(s, t))
    && (forall id :: id in s.table ==> EntryOk(s, id))
  }

  lemma StepKeepsInv(s: State, a: Action)
    requires Inv(s) && Enabled(s, a)
    ensures Inv(Apply(s, a))
  {
    var s' := Apply(s, a);
    forall t | t in s'.tasks
      ensures TaskOk(s', t)
    {
      if t in s.tasks { assert TaskOk(s, t); StepKeepsTask(s, a, t); }
    }
    forall id | id in s'.table
      ensures EntryOk(s', id)
    {
      StepKeepsEntry(s, a, id);
    }
    hide TaskOk, EntryOk;
    if a.Spawn? {
      forall t | t in s.tasks ensures s.tasks[t].id != s.sequence { TaskIds(s, t); }
    }
  }

  lemma TaskIds(s: State, t: nat)
    requires Inv(s) && t in s.tasks
    ensures s.tasks[t].id < s.sequence
  {
    assert TaskOk(s, t);
  }

  lemma StepKeepsTask(s: State, a: Action, t: nat)
    requires Inv(s) && Enabled(s, a) && t in s.tasks
    ensures TaskOk(Apply(s, a), t)
  {
    assert TaskOk(s, t);
    if a.Stop? && a.id in s.table { assert EntryOk(s, a.id); }
    if a.StopAll? && t in s.table.Values {
      var id :| id in s.table && s.table[id] == t;
      assert EntryOk(s, id);
    }
  }

  lemma StepKeepsEntry(s: State, a: Action, id: nat)
    requires Inv(s) && Enabled(s, a) && id in Apply(s, a).table
    ensures EntryOk(Apply(s, a), id)
  {
    if id in s.table { assert EntryOk(s, id); assert TaskOk(s, s.table[id]); }
    if a.Insert? { assert TaskOk(s, a.t); }
    if a.Stop? && a.id in s.table { assert EntryOk(s, a.id); }
  }

  type Run = Trace<State, Action>

  ghost predicate StepAt(r: Run, i: nat)
    requires i < |r.acts| < |r.states|
  {
    Enabled(r.states[i], r.acts[i]) && r.states[i + 1] == Apply(r.states[i], r.acts[i])
  }

  ghost predicate Valid(r: Run) {
    && |r.states| == |r.acts| + 1
    && r.states[0] == INITIAL
    && forall i :: 0 <= i < |r.acts| ==> StepAt(r, i)
  }

  lemma {:induction false} RunInv(r: Run, i: nat)
    requires Valid(r) && i < |r.states|
    ensures Inv(r.states[i])
    decreases i
  {
    if i > 0 {
      RunInv(r, i - 1);
      assert StepAt(r, i - 1);
      StepKeepsInv(r.states[i - 1], r.acts[i - 1]);
    }
  }

  /** A registered id always belongs to its own task, and that task is not finished: the table never
      keeps a stream that is over. */
  lemma RegisteredMeansRunning(r: Run, i: nat, id: nat)
    requires Valid(r) && i < |r.states| && id in r.states[i].table
    ensures r.states[i].table[id] in r.states[i].tasks
    ensures var task := r.states[i].tasks[r.states[i].table[id]]; task.id == id && !task.status.Finished?
  {
    RunInv(r, i);
    assert EntryOk(r.states[i], id);
  }

  /** A task that drops its registration, however late, removes its own entry or nothing. */
  lemma DropsRemoveTheirOwn(r: Run, i: nat, t: nat, id: nat)
    requires Valid(r) && i < |r.acts| && r.acts[i] == DropEntry(t)
    requires id in r.states[i].table && id !in r.states[i + 1].table
    ensures r.states[i].table[id] == t
  {
    RunInv(r, i);
    assert StepAt(r, i);
    assert EntryOk(r.states[i], id);
  }

  /** A stream whose start has registered it, that was not stopped and has not dropped its entry, is in
      the table under its own id: the host can still stop it. */
  lemma RunningMeansRegistered(r: Run, i: nat, t: nat)
    requires Valid(r) && i < |r.states| && t in r.states[i].tasks
    requires var task := r.states[i].tasks[t];
             !task.progress.Spawned? && !task.aborted && !task.status.Left? && !task.status.Finished?
    ensures r.states[i].tasks[t].id in r.states[i].table && r.states[i].table[r.states[i].tasks[t].id] == t
  {
    RunInv(r, i);
    assert TaskOk(r.states[i], t);
  }

  lemma StopStep(s: State, a: Action, id: nat)
    requires Inv(s) && Enabled(s, a) && (a == Stop(id) || a == StopAll) && id in s.table
    ensures s.table[id] in Apply(s, a).tasks && Apply(s, a).tasks[s.table[id]].aborted
    ensures Apply(s, a).tasks[s.table[id]].id == id
  {
    assert EntryOk(s, id);
    assert s.table[id] in s.table.Values;
  }

  lemma AbortedStep(s: State, a: Action, t: nat)
    requires Enabled(s, a) && t in s.tasks && s.tasks[t].aborted
    ensures t in Apply(s, a).tasks && Apply(s, a).tasks[t].aborted && Apply(s, a).tasks[t].id == s.tasks[t].id
  {
  }

  /** Stopping a stream, alone or with all others, aborts its task for good, and its id never comes
      back. */
  lemma {:induction false} StoppedForGood(r: Run, i: nat, j: nat, id: nat)
    requires Valid(r) && i < j < |r.states| && (r.acts[i] == Stop(id) || r.acts[i] == StopAll)
    requires id in r.states[i].table
    ensures r.states[i].table[id] in r.states[j].tasks && r.states[j].tasks[r.states[i].table[id]].aborted
    ensures r.states[j].tasks[r.states[i].table[id]].id == id && id !in r.states[j].table
    decreases j
  {
    var t := r.states[i].table[id];
    RunInv(r, j - 1);
    RunInv(r, j);
    assert StepAt(r, j - 1);
    hide Apply, Enabled;
    if i + 1 < j {
      StoppedForGood(r, i, j - 1, id);
      AbortedStep(r.states[j - 1], r.acts[j - 1], t);
    } else {
      StopStep(r.states[i], r.acts[i], id);
    }
    assert TaskOk(r.states[j], t);
  }
}
