/**
 The agent's connectors (agent/connector.go): the WaitGroup shared by the accept loops,
 the connection handlers and their copy goroutines, as interleaved steps. Dialing the
 gpg-agent socket succeeds.
 */
module WaitGroup {

  datatype Kind = AssuanConn | SshConn

  /** An accept loop: in Accept, holding a connection, after wg.Add and before `go`, gone. */
  datatype Loop = Listening | Holding(kind: Kind) | Counted(kind: Kind) | Returned

  /** A goroutine that ends with wg.Done. An Assuan handler calls wg.Add for its copy
      goroutine, then starts it, then copies itself. */
  datatype Task = HandlerStarted | HandlerAdded | HandlerCopying | SshServing | CopierCopying | Finished

  datatype State = State(counter: int, loops: seq<Loop>, tasks: seq<Task>)

  ghost predicate Initial(s: State) {
    s.counter == 0 && s.tasks == [] && forall i :: 0 <= i < |s.loops| ==> s.loops[i] == Listening
  }

  datatype Step =
    | Accept(loop: nat, kind: Kind) | OuterAdd(loop: nat) | OuterGo(loop: nat) | Return(loop: nat)
    | InnerAdd(task: nat) | InnerGo(task: nat) | Done(task: nat)

  predicate Enabled(s: State, step: Step) {
    match step
    case Accept(i, _) => i < |s.loops| && s.loops[i] == Listening
    case OuterAdd(i) => i < |s.loops| && s.loops[i].Holding?
    case OuterGo(i) => i < |s.loops| && s.loops[i].Counted?
    case Return(i) => i < |s.loops| && s.loops[i] == Listening
    case InnerAdd(j) => j < |s.tasks| && s.tasks[j] == HandlerStarted
    case InnerGo(j) => j < |s.tasks| && s.tasks[j] == HandlerAdded
    case Done(j) =>
      && j < |s.tasks|
      && (s.tasks[j] == HandlerCopying || s.tasks[j] == SshServing || s.tasks[j] == CopierCopying)
  }

  function Take(s: State, step: Step): State
    requires Enabled(s, step)
  {
    match step
    case Accept(i, kind) => s.(loops := s.loops[i := Holding(kind)])
    case OuterAdd(i) => s.(loops := s.loops[i := Counted(s.loops[i].kind)], counter := s.counter + 1)
    case OuterGo(i) =>
      s.(loops := s.loops[i := Listening],
         tasks := s.tasks + [if s.loops[i].kind == AssuanConn then HandlerStarted else SshServing])
    case Return(i) => s.(loops := s.loops[i := Returned])
    case InnerAdd(j) => s.(tasks := s.tasks[j := HandlerAdded], counter := s.counter + 1)
    case InnerGo(j) => s.(tasks := s.tasks[j := HandlerCopying] + [CopierCopying])
    case Done(j) => s.(tasks := s.tasks[j := Finished], counter := s.counter - 1)
  }

  /** The state after some steps; None if one of them is not possible. */
  function Execute(s: State, steps: seq<Step>): (t: State)
    requires CanExecute(s, steps)
    decreases steps
  {
    if steps == [] then s else Execute(Take(s, steps[0]), steps[1..])
  }

  predicate CanExecute(s: State, steps: seq<Step>)
    decreases steps
  {
    steps == [] || (Enabled(s, steps[0]) && CanExecute(Take(s, steps[0]), steps[1..]))
  }

  // ---- what the counter counts ----

  /** The wg.Done calls a task still owes: its own, and that of a copy goroutine that is
      counted and not yet started. */
  function TaskOwes(t: Task): nat {
    match t
    case Finished => 0
    case HandlerAdded => 2
    case _ => 1
  }

  function LoopOwes(l: Loop): nat { if l.Counted? then 1 else 0 }

  function TasksOwe(ts: seq<Task>): nat {
    if ts == [] then 0 else TasksOwe(ts[..|ts| - 1]) + TaskOwes(ts[|ts| - 1])
  }

  function LoopsOwe(ls: seq<Loop>): nat {
    if ls == [] then 0 else LoopsOwe(ls[..|ls| - 1]) + LoopOwes(ls[|ls| - 1])
  }

  ghost predicate Balanced(s: State) { s.counter == TasksOwe(s.tasks) + LoopsOwe(s.loops) }

  lemma {:induction false} TaskUpdated(ts: seq<Task>, j: nat, t: Task)
    requires j < |ts|
    ensures TasksOwe(ts[j := t]) + TaskOwes(ts[j]) == TasksOwe(ts) + TaskOwes(t)
    decreases |ts|
  {
    var last := |ts| - 1;
    if j == last {
      assert ts[j := t][..last] == ts[..last];
    } else {
      assert ts[j := t][..last] == ts[..last][j := t];
      TaskUpdated(ts[..last], j, t);
    }
  }

  lemma {:induction false} LoopUpdated(ls: seq<Loop>, i: nat, l: Loop)
    requires i < |ls|
    ensures LoopsOwe(ls[i := l]) + LoopOwes(ls[i]) == LoopsOwe(ls) + LoopOwes(l)
    decreases |ls|
  {
    var last := |ls| - 1;
    if i == last {
      assert ls[i := l][..last] == ls[..last];
    } else {
      assert ls[i := l][..last] == ls[..last][i := l];
      LoopUpdated(ls[..last], i, l);
    }
  }

  lemma TaskAppended(ts: seq<Task>, t: Task)
    ensures TasksOwe(ts + [t]) == TasksOwe(ts) + TaskOwes(t)
  {
    assert (ts + [t])[..|ts|] == ts;
  }

  lemma {:induction false} TaskOwesPart(ts: seq<Task>, j: nat)
    requires j < |ts|
    ensures TasksOwe(ts) >= TaskOwes(ts[j])
    decreases |ts|
  {
    if j == |ts| - 1 {
    } else {
      TaskOwesPart(ts[..|ts| - 1], j);
    }
  }

  lemma {:induction false} LoopOwesPart(ls: seq<Loop>, i: nat)
    requires i < |ls|
    ensures LoopsOwe(ls) >= LoopOwes(ls[i])
    decreases |ls|
  {
    if i == |ls| - 1 {
    } else {
      LoopOwesPart(ls[..|ls| - 1], i);
    }
  }

  lemma LoopStepBalanced(s: State, step: Step)
    requires Balanced(s) && Enabled(s, step)
    requires step.Accept? || step.OuterAdd? || step.Return?
    ensures Balanced(Take(s, step))
  {
    var t := Take(s, step);
    LoopUpdated(s.loops, step.loop, t.loops[step.loop]);
  }

  lemma GoBalanced(s: State, i: nat)
    requires Balanced(s) && Enabled(s, OuterGo(i))
    ensures Balanced(Take(s, OuterGo(i)))
  {
    var task := if s.loops[i].kind == AssuanConn then HandlerStarted else SshServing;
    LoopUpdated(s.loops, i, Listening);
    TaskAppended(s.tasks, task);
    assert TaskOwes(task) == 1;
    assert Take(s, OuterGo(i)) == State(s.counter, s.loops[i := Listening], s.tasks + [task]);
  }

  lemma TaskStepBalanced(s: State, step: Step)
    requires Balanced(s) && Enabled(s, step)
    requires step.InnerAdd? || step.InnerGo? || step.Done?
    ensures Balanced(Take(s, step)) && s.counter >= 1
  {
    match step {
      case InnerAdd(j) =>
        TaskUpdated(s.tasks, j, HandlerAdded);
        TaskOwesPart(s.tasks, j);
      case InnerGo(j) =>
        TaskUpdated(s.tasks, j, HandlerCopying);
        TaskAppended(s.tasks[j := HandlerCopying], CopierCopying);
        TaskOwesPart(s.tasks, j);
      case Done(j) =>
        TaskUpdated(s.tasks, j, Finished);
        TaskOwesPart(s.tasks, j);
    }
  }

  /** One step keeps the balance; the counter never goes below zero, and an inner Add or
      a Done happens only while it is at least one. */
  lemma StepBalanced(s: State, step: Step)
    requires Balanced(s) && Enabled(s, step)
    ensures Balanced(Take(s, step)) && Take(s, step).counter >= 0
    ensures step.InnerAdd? || step.Done? ==> s.counter >= 1
  {
    if step.InnerAdd? || step.InnerGo? || step.Done? {
      TaskStepBalanced(s, step);
    } else if step.OuterGo? {
      GoBalanced(s, step.loop);
    } else {
      LoopStepBalanced(s, step);
    }
  }

  lemma {:induction false} NothingOwed(s: State)
    requires Initial(s)
    ensures Balanced(s)
    decreases |s.loops|
  {
    if s.loops == [] {
    } else {
      NothingOwed(s.(loops := s.loops[..|s.loops| - 1]));
    }
  }

  lemma {:induction false} RunBalanced(s: State, steps: seq<Step>)
    requires Balanced(s) && CanExecute(s, steps)
    ensures Balanced(Execute(s, steps))
    decreases steps
  {
    if steps == [] {
    } else {
      StepBalanced(s, steps[0]);
      RunBalanced(Take(s, steps[0]), steps[1..]);
    }
  }

  /** Main result. In every interleaving the counter is the number of Done calls owed by
      tasks added and not finished; it is never negative, and every step that is an inner
      Add or a Done is taken while it is at least one. */
  lemma CounterIsOwed(s: State, steps: seq<Step>)
    requires Initial(s) && CanExecute(s, steps)
    ensures var t := Execute(s, steps);
      && t.counter == TasksOwe(t.tasks) + LoopsOwe(t.loops) >= 0
      && forall step :: Enabled(t, step) && (step.InnerAdd? || step.Done?) ==> t.counter >= 1
  {
    NothingOwed(s);
    RunBalanced(s, steps);
    var t := Execute(s, steps);
    forall step | Enabled(t, step) && (step.InnerAdd? || step.Done?) ensures t.counter >= 1 {
      StepBalanced(t, step);
    }
  }

  // ---- when zero is final ----

  ghost predicate AllReturned(s: State) {
    forall i :: 0 <= i < |s.loops| ==> s.loops[i] == Returned
  }

  /** The counter is zero in every state that can follow. */
  ghost predicate StaysZero(s: State) {
    forall steps :: CanExecute(s, steps) ==> Execute(s, steps).counter == 0
  }

  /** Once Wait could return, nothing is counted again, if and only if every accept loop
      has returned by then. */
  lemma ZeroIsFinalIff(s: State, steps: seq<Step>)
    requires Initial(s) && CanExecute(s, steps) && Execute(s, steps).counter == 0
    ensures StaysZero(Execute(s, steps)) <==> AllReturned(Execute(s, steps))
  {
    var t := Execute(s, steps);
    CounterIsOwed(s, steps);
    if AllReturned(t) {
      forall more | CanExecute(t, more) ensures Execute(t, more).counter == 0 {
        if more != [] {
          NothingLeft(t, more[0]);
          assert false;
        }
      }
    } else {
      var i :| 0 <= i < |t.loops| && t.loops[i] != Returned;
      LoopOwesPart(t.loops, i);
      var later := CountAgain(t, i);
      assert !StaysZero(t);
    }
  }

  lemma NothingLeft(t: State, step: Step)
    requires Balanced(t) && t.counter == 0 && AllReturned(t)
    ensures !Enabled(t, step)
  {
    match step {
      case InnerAdd(j) => if j < |t.tasks| { TaskOwesPart(t.tasks, j); }
      case InnerGo(j) => if j < |t.tasks| { TaskOwesPart(t.tasks, j); }
      case Done(j) => if j < |t.tasks| { TaskOwesPart(t.tasks, j); }
      case _ =>
    }
  }

  /** A loop that has not returned can still count a connection. */
  lemma CountAgain(t: State, i: nat) returns (later: seq<Step>)
    requires i < |t.loops| && (t.loops[i] == Listening || t.loops[i].Holding?) && t.counter == 0
    ensures CanExecute(t, later) && Execute(t, later).counter == 1
  {
    if t.loops[i].Holding? {
      later := [OuterAdd(i)];
      assert later[1..] == [];
    } else {
      later := [Accept(i, SshConn), OuterAdd(i)];
      var t1 := Take(t, Accept(i, SshConn));
      var t2 := Take(t1, OuterAdd(i));
      assert later[1..] == [OuterAdd(i)] && later[1..][1..] == [];
      assert CanExecute(t2, []) && CanExecute(t1, later[1..]);
      assert Execute(t, later) == Execute(t1, later[1..]) == t2;
    }
  }

  // ---- what every connection is due ----

  function Sum(ns: seq<nat>): nat {
    if ns == [] then 0 else Sum(ns[..|ns| - 1]) + ns[|ns| - 1]
  }

  lemma {:induction false} SumUpdated(ns: seq<nat>, j: nat, n: nat)
    requires j < |ns|
    ensures Sum(ns[j := n]) + ns[j] == Sum(ns) + n
    decreases |ns|
  {
    var last := |ns| - 1;
    if j == last {
      assert ns[j := n][..last] == ns[..last];
    } else {
      assert ns[j := n][..last] == ns[..last][j := n];
      SumUpdated(ns[..last], j, n);
    }
  }

  lemma SumAppended(ns: seq<nat>, n: nat)
    ensures Sum(ns + [n]) == Sum(ns) + n
  {
    assert (ns + [n])[..|ns|] == ns;
  }

  lemma {:induction false} SumOfNothing(ns: seq<nat>)
    requires forall i :: 0 <= i < |ns| ==> ns[i] == 0
    ensures Sum(ns) == 0
    decreases |ns|
  {
    if ns == [] {
    } else {
      SumOfNothing(ns[..|ns| - 1]);
    }
  }

  /** The goroutines a connection gets: two to copy, or one to serve. */
  function Due(kind: Kind): nat { if kind == AssuanConn then 2 else 1 }

  /** The wg.Done calls still to come from a connection an accept loop holds. */
  function LoopsLeft(ls: seq<Loop>): (ns: seq<nat>)
    ensures |ns| == |ls|
  {
    seq(|ls|, i requires 0 <= i < |ls| => if ls[i].Holding? || ls[i].Counted? then Due(ls[i].kind) else 0)
  }

  /** And from a task, its copy goroutine's included. */
  function TasksLeft(ts: seq<Task>): (ns: seq<nat>)
    ensures |ns| == |ts|
  {
    seq(|ts|, i requires 0 <= i < |ts| =>
      if ts[i] == HandlerStarted || ts[i] == HandlerAdded then 2 else if ts[i] == Finished then 0 else 1)
  }

  function Left(s: State): nat { Sum(LoopsLeft(s.loops)) + Sum(TasksLeft(s.tasks)) }

  function Dones(steps: seq<Step>): nat
    decreases steps
  {
    if steps == [] then 0 else (if steps[0].Done? then 1 else 0) + Dones(steps[1..])
  }

  function Accepted(steps: seq<Step>, kind: Kind): nat
    decreases steps
  {
    if steps == [] then 0 else (if steps[0].Accept? && steps[0].kind == kind then 1 else 0) + Accepted(steps[1..], kind)
  }

  lemma StepLeft(s: State, step: Step)
    requires Enabled(s, step)
    ensures Left(Take(s, step)) + (if step.Done? then 1 else 0)
         == Left(s) + if step.Accept? then Due(step.kind) else 0
  {
    var t := Take(s, step);
    if step.Accept? || step.OuterAdd? || step.OuterGo? || step.Return? {
      var i := step.loop;
      assert LoopsLeft(t.loops) == LoopsLeft(s.loops)[i := LoopsLeft(t.loops)[i]];
      SumUpdated(LoopsLeft(s.loops), i, LoopsLeft(t.loops)[i]);
      if step.OuterGo? { TaskStarted(s.tasks, t.tasks); }
    } else if step.InnerGo? {
      var copying := s.tasks[step.task := HandlerCopying];
      TaskMoved(s.tasks, step.task, HandlerCopying);
      TaskStarted(copying, t.tasks);
    } else {
      TaskMoved(s.tasks, step.task, t.tasks[step.task]);
    }
  }

  lemma TaskMoved(ts: seq<Task>, j: nat, t: Task)
    requires j < |ts|
    ensures Sum(TasksLeft(ts[j := t])) + TasksLeft(ts)[j] == Sum(TasksLeft(ts)) + TasksLeft([t])[0]
  {
    assert TasksLeft(ts[j := t]) == TasksLeft(ts)[j := TasksLeft([t])[0]];
    SumUpdated(TasksLeft(ts), j, TasksLeft([t])[0]);
  }

  lemma TaskStarted(ts: seq<Task>, more: seq<Task>)
    requires |more| == |ts| + 1 && more[..|ts|] == ts
    ensures Sum(TasksLeft(more)) == Sum(TasksLeft(ts)) + TasksLeft(more)[|ts|]
  {
    assert TasksLeft(more) == TasksLeft(ts) + [TasksLeft(more)[|ts|]];
    SumAppended(TasksLeft(ts), TasksLeft(more)[|ts|]);
  }

  lemma {:induction false} RunLeft(s: State, steps: seq<Step>)
    requires CanExecute(s, steps)
    ensures Dones(steps) + Left(Execute(s, steps))
         == Left(s) + 2 * Accepted(steps, AssuanConn) + Accepted(steps, SshConn)
    decreases steps
  {
    if steps == [] {
    } else {
      StepLeft(s, steps[0]);
      RunLeft(Take(s, steps[0]), steps[1..]);
      hide Left, Take;
    }
  }

  /** Main result on connections. Once the accept loops have returned and the counter is
      zero, wg.Done has been called exactly twice for every Assuan connection accepted and
      once for every SSH connection, in every interleaving. */
  lemma ConnectionsLetGo(s: State, steps: seq<Step>)
    requires Initial(s) && CanExecute(s, steps)
    requires var t := Execute(s, steps); AllReturned(t) && t.counter == 0
    ensures Dones(steps) == 2 * Accepted(steps, AssuanConn) + Accepted(steps, SshConn)
  {
    var t := Execute(s, steps);
    CounterIsOwed(s, steps);
    RunLeft(s, steps);
    SumOfNothing(LoopsLeft(s.loops));
    SumOfNothing(LoopsLeft(t.loops));
    forall j | 0 <= j < |t.tasks| ensures t.tasks[j] == Finished { TaskOwesPart(t.tasks, j); }
    SumOfNothing(TasksLeft(t.tasks));
  }
}

/**
 One direction of an Assuan connection (agent/connector.go, handleAssuanRequest): rounds
 of io.Copy with a deadline, each started only if the session is not locked.
 */
module RelayDirection {
  import opened Basics

  /** How an io.Copy ends: end of the source, a deadline, a closed connection, another error. */
  datatype Ending = SourceEnds | DeadlineExceeded | ConnectionClosed | OtherError

  /** One io.Copy: it reads `kept` and then `lost`, and writes `kept`. Bytes are lost only
      when a write fails. */
  datatype Round<T> = Round(kept: seq<T>, lost: seq<T>, ending: Ending)

  /** The loop goes on after a deadline if something was written. */
  predicate Continues<T>(r: Round<T>) { r.ending == DeadlineExceeded && |r.kept| > 0 }

  type Lock = nat -> bool

  /** Number of copies started: the lock is read before each, and `locked(k)` is what the
      k-th read gives. */
  function Started<T>(rounds: seq<Round<T>>, k: nat, locked: Lock): (n: nat)
    ensures n <= |rounds|
    decreases rounds
  {
    if rounds == [] || locked(k) then 0
    else if !Continues(rounds[0]) then 1
    else 1 + Started(rounds[1..], k + 1, locked)
  }

  /** What the rounds read. */
  function Received<T>(rounds: seq<Round<T>>): seq<T>
    decreases rounds
  {
    if rounds == [] then [] else (rounds[0].kept + rounds[0].lost) + Received(rounds[1..])
  }

  /** What they write. */
  function Written<T>(rounds: seq<Round<T>>): seq<T>
    decreases rounds
  {
    if rounds == [] then [] else rounds[0].kept + Written(rounds[1..])
  }

  function Lost<T>(rounds: seq<Round<T>>): nat
    decreases rounds
  {
    if rounds == [] then 0 else |rounds[0].lost| + Lost(rounds[1..])
  }

  /** The loop as it is: a round at a time, until one ends it or the lock is seen. */
  method CopyLoop<T>(rounds: seq<Round<T>>, locked: Lock) returns (written: seq<T>, copies: nat)
    ensures copies == Started(rounds, 0, locked)
    ensures written == Written(rounds[..copies])
  {
    written, copies := [], 0;
    assert rounds[0..] == rounds;
    while copies < |rounds| && !locked(copies)
      invariant copies <= |rounds|
      invariant Started(rounds, 0, locked) == copies + Started(rounds[copies..], copies, locked)
      invariant written == Written(rounds[..copies])
    {
      var r := rounds[copies];
      assert rounds[copies..][0] == r && rounds[copies..][1..] == rounds[copies + 1..];
      assert rounds[..copies + 1] == rounds[..copies] + [r];
      WrittenAppend(rounds[..copies], r);
      written := written + r.kept;
      copies := copies + 1;
      if !Continues(r) {
        break;
      }
    }
  }

  lemma {:induction false} WrittenAppend<T>(rounds: seq<Round<T>>, r: Round<T>)
    ensures Written(rounds + [r]) == Written(rounds) + r.kept
    decreases rounds
  {
    if rounds == [] {
      assert rounds + [r] == [r] && [r][1..] == [] && r.kept + [] == r.kept == [] + r.kept;
    } else {
      WrittenAppend(rounds[1..], r);
      assert (rounds + [r])[1..] == rounds[1..] + [r];
      Associative(rounds[0].kept, Written(rounds[1..]), r.kept);
    }
  }

  /** Exactly when a direction stops: no copy was started with the lock seen, all copies but
      the last ended at a deadline with something written, and after them the lock was seen,
      or the last copy ended in another way. */
  lemma {:induction false} StopsExactly<T>(rounds: seq<Round<T>>, k: nat, locked: Lock, n: nat)
    requires n <= |rounds|
    ensures n == Started(rounds, k, locked) <==>
            && (forall j :: k <= j < k + n ==> !locked(j))
            && (forall i :: 0 <= i < n - 1 ==> rounds[i].ending == DeadlineExceeded && rounds[i].kept != [])
            && (n < |rounds| && !locked(k + n) ==>
                  n > 0 && (rounds[n - 1].ending != DeadlineExceeded || rounds[n - 1].kept == []))
    decreases n
  {
    if n == 0 {
    } else {
      var rest := rounds[1..];
      StopsExactly(rest, k + 1, locked, n - 1);
      assert forall i :: 1 <= i < n ==> rounds[i] == rest[i - 1];
      assert (forall i :: 0 <= i < n - 1 ==> rounds[i].ending == DeadlineExceeded && rounds[i].kept != []) <==>
             && (n > 1 ==> rounds[0].ending == DeadlineExceeded && rounds[0].kept != [])
             && (forall i :: 0 <= i < n - 2 ==> rest[i].ending == DeadlineExceeded && rest[i].kept != []);
      if n == 1 && Continues(rounds[0]) && !locked(k) {
        assert Started(rounds, k, locked) == 1 + Started(rest, k + 1, locked);
      }
    }
  }

  // ---- what is forwarded ----

  /** What is written and what is lost make up what was read. */
  lemma {:induction false} Conserved<T>(rounds: seq<Round<T>>)
    ensures |Written(rounds)| + Lost(rounds) == |Received(rounds)|
    decreases rounds
  {
    if rounds == [] {
    } else {
      Conserved(rounds[1..]);
    }
  }

  /** No round writes anything after bytes have been lost. */
  predicate NoGap<T>(rounds: seq<Round<T>>)
    decreases rounds
  {
    rounds == [] || (NoGap(rounds[1..]) && (|rounds[0].lost| > 0 ==> |Written(rounds[1..])| == 0))
  }

  ghost predicate Distinct<T>(s: seq<T>) {
    forall i, j :: 0 <= i < j < |s| ==> s[i] != s[j]
  }

  lemma {:induction false} WrittenWasReceived<T>(rounds: seq<Round<T>>, x: T)
    requires x in Written(rounds)
    ensures x in Received(rounds)
    decreases rounds
  {
    if x !in rounds[0].kept { WrittenWasReceived(rounds[1..], x); }
  }

  lemma PrefixOfSum<T>(a: seq<T>, b: seq<T>, c: seq<T>)
    ensures a + b <= a + c <==> b <= c
  {
    if a + b <= a + c {
      assert forall i :: 0 <= i < |b| ==> b[i] == (a + b)[|a| + i] == (a + c)[|a| + i] == c[i];
    }
  }

  /** Without a gap, what is written is a prefix of what was received. */
  lemma {:induction false} NoGapIsPrefix<T>(rounds: seq<Round<T>>)
    requires NoGap(rounds)
    ensures Written(rounds) <= Received(rounds)
    decreases rounds
  {
    if rounds == [] {
    } else {
      var kept, lost, rest := rounds[0].kept, rounds[0].lost, rounds[1..];
      NoGapIsPrefix(rest);
      Associative(kept, lost, Received(rest));
      if lost == [] { assert lost + Received(rest) == Received(rest); }
      PrefixOfSum(kept, Written(rest), lost + Received(rest));
    }
  }

  /** With a gap it is not, provided the received bytes can be told apart. */
  lemma {:induction false} GapIsNoPrefix<T>(rounds: seq<Round<T>>)
    requires Distinct(Received(rounds)) && Written(rounds) <= Received(rounds)
    ensures NoGap(rounds)
    decreases rounds
  {
    if rounds == [] {
    } else {
      var kept, lost, rest := rounds[0].kept, rounds[0].lost, rounds[1..];
      var later := Received(rest);
      Associative(kept, lost, later);
      PrefixOfSum(kept, Written(rest), lost + later);
      DistinctParts(kept, lost, later);
      if lost == [] {
        assert lost + later == later;
        GapIsNoPrefix(rest);
      } else {
        if Written(rest) != [] {
          assert Written(rest)[0] == (lost + later)[0] == lost[0];
          WrittenWasReceived(rest, lost[0]);
          assert false;
        }
        GapIsNoPrefix(rest);
      }
    }
  }

  lemma DistinctParts<T>(a: seq<T>, b: seq<T>, c: seq<T>)
    requires Distinct(a + (b + c))
    ensures Distinct(c) && (b != [] ==> b[0] !in c)
  {
    var s := a + (b + c);
    assert forall i :: 0 <= i < |c| ==> c[i] == s[|a| + |b| + i];
    if b != [] { assert b[0] == s[|a|]; }
  }

  lemma DistinctPrefixIff<T>(rounds: seq<Round<T>>)
    requires Distinct(Received(rounds))
    ensures Written(rounds) <= Received(rounds) <==> NoGap(rounds)
  {
    if NoGap(rounds) { NoGapIsPrefix(rounds); }
    if Written(rounds) <= Received(rounds) { GapIsNoPrefix(rounds); }
  }

  // ---- bytes with their places in the stream ----

  /** Every byte with its place, the first one at `at`. */
  function Placed<T>(s: seq<T>, at: nat): (p: seq<(nat, T)>)
    ensures |p| == |s| && forall i :: 0 <= i < |s| ==> p[i] == (at + i, s[i])
  {
    seq(|s|, i requires 0 <= i < |s| => (at + i, s[i]))
  }

  /** The same rounds, every byte with its place in what the direction receives. */
  function PlacedRounds<T>(rounds: seq<Round<T>>, at: nat): seq<Round<(nat, T)>>
    decreases rounds
  {
    if rounds == [] then []
    else
      var Round(kept, lost, ending) := rounds[0];
      [Round(Placed(kept, at), Placed(lost, at + |kept|), ending)]
        + PlacedRounds(rounds[1..], at + |kept| + |lost|)
  }

  lemma PlacedSum<T>(a: seq<T>, b: seq<T>, at: nat)
    ensures Placed(a + b, at) == Placed(a, at) + Placed(b, at + |a|)
  {
  }

  lemma {:induction false} ReceivedPlaced<T>(rounds: seq<Round<T>>, at: nat)
    ensures Received(PlacedRounds(rounds, at)) == Placed(Received(rounds), at)
    decreases rounds
  {
    if rounds == [] {
    } else {
      var kept, lost, rest := rounds[0].kept, rounds[0].lost, rounds[1..];
      var placed, n := Round(Placed(kept, at), Placed(lost, at + |kept|), rounds[0].ending), |kept| + |lost|;
      ReceivedPlaced(rest, at + n);
      PlacedSum(kept, lost, at);
      PlacedSum(kept + lost, Received(rest), at);
      ReceivedFirst(placed, PlacedRounds(rest, at + n));
      hide Placed;
      assert PlacedRounds(rounds, at) == [placed] + PlacedRounds(rest, at + n);
    }
  }

  lemma ReceivedFirst<T>(r: Round<T>, more: seq<Round<T>>)
    ensures Received([r] + more) == (r.kept + r.lost) + Received(more)
  {
    assert ([r] + more)[1..] == more;
  }

  lemma {:induction false} WrittenPlaced<T>(rounds: seq<Round<T>>, at: nat)
    ensures var placed := PlacedRounds(rounds, at);
      && |Written(placed)| == |Written(rounds)|
      && (forall i :: 0 <= i < |Written(rounds)| ==> Written(placed)[i].1 == Written(rounds)[i])
      && (NoGap(placed) <==> NoGap(rounds))
    decreases rounds
  {
    if rounds == [] {
    } else {
      var n := |rounds[0].kept| + |rounds[0].lost|;
      WrittenPlaced(rounds[1..], at + n);
      assert PlacedRounds(rounds, at)[1..] == PlacedRounds(rounds[1..], at + n);
    }
  }

  /** A direction forwards exactly the first bytes it receives, each from its own place and
      none left out, if and only if no round writes after bytes have been lost. A failed
      write that hits the deadline set by the other direction is such a loss, and the loop
      goes on after it. */
  lemma PrefixIff<T>(rounds: seq<Round<T>>)
    ensures var placed := PlacedRounds(rounds, 0);
      && (forall i :: 0 <= i < |Written(placed)| ==>
            i < |Written(rounds)| && Written(placed)[i].1 == Written(rounds)[i])
      && Received(placed) == Placed(Received(rounds), 0)
      && (Written(placed) <= Received(placed) <==> NoGap(rounds))
  {
    ReceivedPlaced(rounds, 0);
    WrittenPlaced(rounds, 0);
    DistinctPrefixIff(PlacedRounds(rounds, 0));
  }

  /** A write that times out in the middle, with bytes to come: the loop goes on, and the
      lost byte is missing from the output. */
  lemma GapHappens(a: int, b: int, c: int)
    requires b != c
    ensures var rounds := [Round([a], [b], DeadlineExceeded), Round([c], [], SourceEnds)];
      && Started(rounds, 0, _ => false) == 2
      && Received(rounds) == [a, b, c] && Written(rounds) == [a, c] && !(Written(rounds) <= Received(rounds))
  {
    var second: Round<int> := Round([c], [], SourceEnds);
    var rounds := [Round([a], [b], DeadlineExceeded), second];
    assert rounds[1..] == [second] && [second][1..] == [];
    assert Written([second]) == [c] && Received([second]) == [c];
    assert Started([second], 1, _ => false) == 1;
    assert Written(rounds)[1] != Received(rounds)[1];
  }

  /** If timeouts strike only reads, everything written by any number of rounds is a
      prefix of what was received: a failing write, the only way to lose bytes, is then
      never followed by another round. */
  lemma {:induction false} ReadTimeoutsKeepPrefix<T>(rounds: seq<Round<T>>, k: nat, locked: Lock)
    requires forall i :: 0 <= i < |rounds| && rounds[i].ending == DeadlineExceeded ==> rounds[i].lost == []
    ensures var run := rounds[..Started(rounds, k, locked)];
      NoGap(run) && Written(run) <= Received(run)
    decreases rounds
  {
    var n := Started(rounds, k, locked);
    var run := rounds[..n];
    if n > 0 {
      assert run[0] == rounds[0] && run[1..] == rounds[1..][..n - 1];
      if Continues(rounds[0]) {
        ReadTimeoutsKeepPrefix(rounds[1..], k + 1, locked);
        assert rounds[0].lost == [];
        assert NoGap(run);
      } else {
        assert n == 1 && run[1..] == [];
        assert NoGap(run[1..]) && Written(run[1..]) == [];
        assert NoGap(run);
      }
    }
    NoGapIsPrefix(run);
  }

  // ---- the lock, in every interleaving ----

  /** The direction is about to read the lock, has read it clear, copies, or is gone. */
  datatype Pc = Checking | Cleared | Copying | Gone

  datatype State = State(locked: bool, pc: Pc, copies: nat)

  /** A step of the direction, or of the session that sets or clears the lock. */
  ghost predicate Next(s: State, t: State) {
    || (t == s.(locked := !s.locked))
    || (s.pc == Checking && t == s.(pc := if s.locked then Gone else Cleared))
    || (s.pc == Cleared && t == s.(pc := Copying, copies := s.copies + 1))
    || (s.pc == Copying && (t == s.(pc := Checking) || t == s.(pc := Gone)))
  }

  ghost predicate IsRun(run: seq<State>) {
    run != [] && forall i {:trigger Next(run[i], run[i + 1])} :: 0 <= i < |run| - 1 ==> Next(run[i], run[i + 1])
  }

  /** While the lock stays set, a direction starts at most one more copy, and that only
      if it had already read the lock when it was set. */
  lemma {:induction false} AtMostOneMoreCopy(run: seq<State>)
    requires IsRun(run) && forall i :: 0 <= i < |run| ==> run[i].locked
    ensures var s, t := run[0], run[|run| - 1];
      && s.copies <= t.copies <= s.copies + (if s.pc == Cleared then 1 else 0)
      && (t.pc == Cleared ==> s.pc == Cleared && t.copies == s.copies)
    decreases |run|
  {
    if |run| > 1 {
      var last := |run| - 2;
      var before := run[..last + 1];
      forall i | 0 <= i < |before| - 1 ensures Next(before[i], before[i + 1]) {
        assert Next(run[i], run[i + 1]);
      }
      assert Next(run[last], run[last + 1]);
      AtMostOneMoreCopy(before);
    }
  }
}
