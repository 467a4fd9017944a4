/** Equalized: a reasoner variant whose cycle spends a fixed "busyness" budget on new
    tasks. Each cycle forgets concepts, drains the percept queue (commands go straight
    to memory), fires new tasks highest-priority first until the accumulated priority
    of the tasks that ran exceeds the concepts-per-cycle setting, fires concepts,
    commits, and trims the new-task set to `conceptsToFire * duration` entries. */
module Scheduling {
  import opened JavaNumbers

  /** A task as the cycle sees it: an identity, the priority its budget holds when the
      new-task set ranks it, and whether it is a command. */
  datatype Task = Task(id: nat, priority: real, isCommand: bool)

  /** What the cycle does to memory and its collaborators, in order. */
  datatype Event =
    | ForgetConcepts                              // concepts.forgetNext(...)
    | MemoryAdd(task: Task)                       // memory.add(command)
    | QueueNewTasks                               // queueNewTasks()
    | ProcessTask(task: Task, priFactor: Float)   // a TaskProcess that was produced, run
    | FireConcepts(count: int)                    // ConceptProcess.forEachPremise(..., count, ...)
    | CommitNewTasks                              // commitNewTasks()
    | RunNextTasks                                // memory.runNextTasks()
    | Removed(task: Task, reason: string)         // memory.removed(task, "Ignored")

  /** The memory and the collaborators the cycle consults, none of them part of this
      model: whether input is on, whether TaskProcess.get produces a process for a
      task, the task's priority once that process has run, the new-task set's
      highest-first order, what commitNewTasks leaves in the set, the duration, and
      the new-task set's `limit(n, ...)`, which answers the tasks it keeps and the
      tasks it drops (each of which it hands to the consumer). */
  datatype Memory = Memory(
    inputting: bool,
    hasProcess: Task -> bool,
    priorityAfterRun: Task -> real,
    highestFirst: seq<Task> -> seq<Task>,
    commit: seq<Task> -> seq<Task>,
    duration: int32,
    limit: (seq<Task>, int) -> (seq<Task>, seq<Task>))

  /** The new-task set's order (ItemAccumulator, not part of this model): a
      rearrangement of its tasks, highest priority first. */
  ghost predicate Ranks(mem: Memory)
  {
    && (forall s: seq<Task> {:trigger mem.highestFirst(s)} :: multiset(mem.highestFirst(s)) == multiset(s))
    && (forall s: seq<Task>, i, j {:trigger mem.highestFirst(s)[i], mem.highestFirst(s)[j]} :: 0 <= i < j < |mem.highestFirst(s)| ==>
          mem.highestFirst(s)[i].priority >= mem.highestFirst(s)[j].priority)
  }

  /** The cycle's fields: the percept queue, the new-task set, the scratch list
      `temporary`, and the record of events so far. */
  datatype CycleState = CycleState(percepts: seq<Task>, newTasks: seq<Task>, temporary: seq<Task>, trace: seq<Event>)

  // ---------------------------------------------------------------- input phase

  /** The commands among the percepts, in order. */
  function CommandTasks(ps: seq<Task>): seq<Task>
    decreases |ps|
  {
    if |ps| == 0 then []
    else
      var last := ps[|ps| - 1];
      CommandTasks(ps[..|ps| - 1]) + (if last.isCommand then [last] else [])
  }

  /** The percepts that are not commands, in order. */
  function NonCommands(ps: seq<Task>): seq<Task>
    decreases |ps|
  {
    if |ps| == 0 then []
    else
      var last := ps[|ps| - 1];
      NonCommands(ps[..|ps| - 1]) + (if last.isCommand then [] else [last])
  }

  /** The `memory.add` events for a run of commands.
      The ensures spell out the body for callers' proofs. */
  function AddEvents(cmds: seq<Task>): (r: seq<Event>)
    ensures |r| == |cmds|
    ensures forall i :: 0 <= i < |r| ==> r[i] == MemoryAdd(cmds[i])
  {
    seq(|cmds|, i requires 0 <= i < |cmds| => MemoryAdd(cmds[i]))
  }

  /** Every percept goes to exactly one place: a command to memory, anything else to
      the new-task set, none lost and none twice. */
  lemma PerceptsRouted(ps: seq<Task>)
    ensures multiset(CommandTasks(ps)) + multiset(NonCommands(ps)) == multiset(ps)
    ensures forall t :: t in CommandTasks(ps) ==> t.isCommand
    ensures forall t :: t in NonCommands(ps) ==> !t.isCommand
  {
    PerceptsSplit(ps);
    PerceptsSorted(ps);
  }

  lemma {:induction false} PerceptsSplit(ps: seq<Task>)
    ensures multiset(CommandTasks(ps)) + multiset(NonCommands(ps)) == multiset(ps)
    decreases |ps|
  {
    if |ps| > 0 {
      var init, last := ps[..|ps| - 1], ps[|ps| - 1];
      PerceptsSplit(init);
      assert ps == init + [last];
      if last.isCommand {
        assert CommandTasks(ps) == CommandTasks(init) + [last];
        assert NonCommands(ps) == NonCommands(init);
      } else {
        assert CommandTasks(ps) == CommandTasks(init);
        assert NonCommands(ps) == NonCommands(init) + [last];
      }
    }
  }

  lemma {:induction false} PerceptsSorted(ps: seq<Task>)
    ensures forall t :: t in CommandTasks(ps) ==> t.isCommand
    ensures forall t :: t in NonCommands(ps) ==> !t.isCommand
    decreases |ps|
  {
    if |ps| > 0 {
      PerceptsSorted(ps[..|ps| - 1]);
    }
  }

  /** Hence a command percept is among the commands and any other percept among the
      new tasks. */
  lemma PerceptsClassified(ps: seq<Task>)
    ensures forall t :: t in ps && t.isCommand ==> t in CommandTasks(ps)
    ensures forall t :: t in ps && !t.isCommand ==> t in NonCommands(ps)
  {
    PerceptsRouted(ps);
    forall t | t in ps
      ensures t.isCommand ==> t in CommandTasks(ps)
      ensures !t.isCommand ==> t in NonCommands(ps)
    {
      assert t in multiset(ps);
    }
  }

  lemma AddEventsAppend(cmds: seq<Task>, t: Task)
    ensures AddEvents(cmds + [t]) == AddEvents(cmds) + [MemoryAdd(t)]
  {
  }

  // ---------------------------------------------------------------- new-task phase

  /** The priority a visited task adds to the cycle's busyness: its priority after its
      process ran, or nothing when no process was produced. */
  function Load(t: Task, mem: Memory): real
  {
    if mem.hasProcess(t) then mem.priorityAfterRun(t) else 0.0
  }

  /** The busyness accumulated over a run of visited tasks. */
  function Busyness(s: seq<Task>, mem: Memory): real
    decreases |s|
  {
    if |s| == 0 then 0.0 else Busyness(s[..|s| - 1], mem) + Load(s[|s| - 1], mem)
  }

  /** The process events of a run of visited tasks, in order. */
  function ProcessEvents(s: seq<Task>, priFactor: Float, mem: Memory): seq<Event>
    decreases |s|
  {
    if |s| == 0 then []
    else
      var last := s[|s| - 1];
      ProcessEvents(s[..|s| - 1], priFactor, mem) + (if mem.hasProcess(last) then [ProcessTask(last, priFactor)] else [])
  }

  /** Only visited tasks whose process was produced are reported as run, each with
      the cycle's priority factor. */
  lemma {:induction false} ProcessEventsSound(s: seq<Task>, priFactor: Float, mem: Memory)
    ensures forall e :: e in ProcessEvents(s, priFactor, mem) ==>
              e.ProcessTask? && e.task in s && mem.hasProcess(e.task) && e.priFactor == priFactor
    ensures forall t :: t in s && mem.hasProcess(t) ==> ProcessTask(t, priFactor) in ProcessEvents(s, priFactor, mem)
    decreases |s|
  {
    if |s| > 0 {
      var init := s[..|s| - 1];
      ProcessEventsSound(init, priFactor, mem);
      assert s == init + [s[|s| - 1]];
    }
  }

  datatype FireResult = FireResult(visited: nat, busyness: real)

  /** The new-task loop from position `i` with busyness `b` so far: visit the next
      task, add its load, and stop after it once busyness exceeds `maxBusyness`, or
      when `limit` tasks have been visited. The result says how many were visited: all
      of them unless the busyness went over, and never one more after that. */
  function FireFrom(ranked: seq<Task>, i: nat, limit: nat, b: real, maxBusyness: real, mem: Memory): (r: FireResult)
    requires i <= limit <= |ranked|
    requires b == Busyness(ranked[..i], mem)
    requires 0 < i ==> b <= maxBusyness
    ensures i <= r.visited <= limit
    ensures i < limit ==> i < r.visited
    ensures r.busyness == Busyness(ranked[..r.visited], mem)
    ensures r.visited < limit ==> r.busyness > maxBusyness
    decreases limit - i
  {
    if i == limit then FireResult(i, b)
    else
      var b' := b + Load(ranked[i], mem);
      assert ranked[..i + 1][..i] == ranked[..i];
      if b' > maxBusyness then FireResult(i + 1, b')
      else FireFrom(ranked, i + 1, limit, b', maxBusyness, mem)
  }

  /** The loop does not stop before it has to: at every visited position short of
      the last one the busyness was still within bounds. */
  lemma {:induction false} FireFromNoEarlyStop(ranked: seq<Task>, i: nat, limit: nat, b: real, maxBusyness: real, mem: Memory)
    requires i <= limit <= |ranked|
    requires b == Busyness(ranked[..i], mem)
    requires 0 < i ==> b <= maxBusyness
    ensures var r := FireFrom(ranked, i, limit, b, maxBusyness, mem);
            forall j :: i <= j < r.visited && 0 < j ==> Busyness(ranked[..j], mem) <= maxBusyness
    decreases limit - i
  {
    if i < limit {
      var b' := b + Load(ranked[i], mem);
      assert ranked[..i + 1][..i] == ranked[..i];
      if b' <= maxBusyness {
        FireFromNoEarlyStop(ranked, i + 1, limit, b', maxBusyness, mem);
      }
    }
  }

  /** One turn of the new-task loop, as `FireFrom` takes it. */
  lemma FireFromUnfold(ranked: seq<Task>, i: nat, limit: nat, b: real, maxBusyness: real, mem: Memory)
    requires i < limit <= |ranked|
    requires b == Busyness(ranked[..i], mem)
    requires 0 < i ==> b <= maxBusyness
    ensures b + Load(ranked[i], mem) == Busyness(ranked[..i + 1], mem)
    ensures var b' := b + Load(ranked[i], mem);
            FireFrom(ranked, i, limit, b, maxBusyness, mem) ==
              if b' > maxBusyness then FireResult(i + 1, b') else FireFrom(ranked, i + 1, limit, b', maxBusyness, mem)
  {
    assert ranked[..i + 1][..i] == ranked[..i];
  }

  lemma ProcessEventsStep(ranked: seq<Task>, i: nat, priFactor: Float, mem: Memory)
    requires i < |ranked|
    ensures ProcessEvents(ranked[..i + 1], priFactor, mem) ==
              ProcessEvents(ranked[..i], priFactor, mem) + (if mem.hasProcess(ranked[i]) then [ProcessTask(ranked[i], priFactor)] else [])
  {
    assert ranked[..i + 1][..i] == ranked[..i];
  }

  /** The number of tasks the new-task loop visits: at most the set's size, bounded
      by the busyness. */
  function Visited(ranked: seq<Task>, newTasksToFire: nat, maxBusyness: real, mem: Memory): (k: nat)
    ensures k <= |ranked| && k <= newTasksToFire
  {
    var limit := if newTasksToFire < |ranked| then newTasksToFire else |ranked|;
    FireFrom(ranked, 0, limit, 0.0, maxBusyness, mem).visited
  }

  // ---------------------------------------------------------------- trimming

  /** The "Ignored" reports for the dropped tasks.
      The ensures spell out the body for callers' proofs. */
  function Reports(dropped: seq<Task>): (r: seq<Event>)
    ensures |r| == |dropped|
    ensures forall i :: 0 <= i < |r| ==> r[i] == Removed(dropped[i], "Ignored")
  {
    seq(|dropped|, i requires 0 <= i < |dropped| => Removed(dropped[i], "Ignored"))
  }

  /** What `limit(n, ...)` is assumed to do with a set of more than `n` tasks: keep
      exactly `n` of them (none when `n` is negative) and lose none. */
  ghost predicate TrimsTo(limit: (seq<Task>, int) -> (seq<Task>, seq<Task>))
  {
    forall s: seq<Task>, n: int {:trigger limit(s, n)} :: |s| > n ==>
      && |limit(s, n).0| == (if n < 0 then 0 else n)
      && multiset(limit(s, n).0) + multiset(limit(s, n).1) == multiset(s)
  }

  /** ... and keep none lower than one it drops. */
  ghost predicate KeepsHighest(limit: (seq<Task>, int) -> (seq<Task>, seq<Task>))
  {
    forall s: seq<Task>, n: int, x: Task, y: Task {:trigger x in limit(s, n).0, y in limit(s, n).1} ::
      |s| > n && x in limit(s, n).0 && y in limit(s, n).1 ==> x.priority >= y.priority
  }

  /** A reference `limit`: the first `maxNewTasks` of the highest-first order stay
      (none when it is negative) and the rest are dropped. */
  function TopOfRanking(tasks: seq<Task>, maxNewTasks: int, mem: Memory): (r: (seq<Task>, seq<Task>))
    ensures r.0 + r.1 == mem.highestFirst(tasks)
    ensures |r.0| == if maxNewTasks < 0 then 0 else if maxNewTasks > |mem.highestFirst(tasks)| then |mem.highestFirst(tasks)| else maxNewTasks
  {
    var ranked := mem.highestFirst(tasks);
    var keep := if maxNewTasks < 0 then 0 else if maxNewTasks > |ranked| then |ranked| else maxNewTasks;
    assert ranked[..keep] + ranked[keep..] == ranked;
    (ranked[..keep], ranked[keep..])
  }

  /** With a ranking order, the reference `limit` keeps exactly `maxNewTasks` tasks
      (none when it is negative), loses none, and keeps none lower than one it drops. */
  lemma TopOfRankingKeepsHighest(tasks: seq<Task>, maxNewTasks: int, mem: Memory)
    requires Ranks(mem)
    requires |tasks| > maxNewTasks
    ensures var r := TopOfRanking(tasks, maxNewTasks, mem);
            && |r.0| == (if maxNewTasks < 0 then 0 else maxNewTasks)
            && multiset(r.0) + multiset(r.1) == multiset(tasks)
            && (forall x, y :: x in r.0 && y in r.1 ==> x.priority >= y.priority)
  {
    var ranked := mem.highestFirst(tasks);
    assert |ranked| == |multiset(ranked)| == |multiset(tasks)| == |tasks|;
    var keep := if maxNewTasks < 0 then 0 else maxNewTasks;
    assert ranked == ranked[..keep] + ranked[keep..];
    DescendingSplit(ranked, keep);
  }

  /** A highest-first sequence. */
  predicate Descending(s: seq<Task>)
  {
    forall i, j :: 0 <= i < j < |s| ==> s[i].priority >= s[j].priority
  }

  /** Cutting a highest-first sequence anywhere leaves no task before the cut lower
      than one after it. */
  lemma DescendingSplit(s: seq<Task>, k: nat)
    requires Descending(s) && k <= |s|
    ensures forall x, y :: x in s[..k] && y in s[k..] ==> x.priority >= y.priority
  {
    forall x, y | x in s[..k] && y in s[k..] ensures x.priority >= y.priority {
      var i :| 0 <= i < k && s[..k][i] == x;
      var j :| 0 <= j < |s| - k && s[k..][j] == y;
      assert s[i] == x && s[k + j] == y;
    }
  }

  /** So a memory whose `limit` is the reference one over a ranking order meets both
      assumptions the trimming lemmas make. */
  lemma TopOfRankingMeetsAssumptions(mem: Memory)
    requires Ranks(mem)
    requires forall s, n :: mem.limit(s, n) == TopOfRanking(s, n, mem)
    ensures TrimsTo(mem.limit) && KeepsHighest(mem.limit)
  {
    forall s: seq<Task>, n: int | |s| > n
      ensures |mem.limit(s, n).0| == (if n < 0 then 0 else n)
      ensures multiset(mem.limit(s, n).0) + multiset(mem.limit(s, n).1) == multiset(s)
      ensures forall x, y :: x in mem.limit(s, n).0 && y in mem.limit(s, n).1 ==> x.priority >= y.priority
    {
      TopOfRankingKeepsHighest(s, n, mem);
    }
  }

  // ---------------------------------------------------------------- the cycle

  /** The phases of a cycle, each a function of the state before it. */
  function ForgetStep(s: CycleState): CycleState
  {
    s.(trace := s.trace + [ForgetConcepts])
  }

  function InputStep(s: CycleState, mem: Memory): CycleState
  {
    if mem.inputting then
      s.(percepts := [], newTasks := s.newTasks + NonCommands(s.percepts),
         trace := s.trace + AddEvents(CommandTasks(s.percepts)))
    else s
  }

  function QueueStep(s: CycleState): CycleState
  {
    s.(trace := s.trace + [QueueNewTasks])
  }

  function FireStep(s: CycleState, conceptsToFire: int32, mem: Memory): CycleState
  {
    var ranked := mem.highestFirst(s.newTasks);
    var k := Visited(ranked, |s.newTasks|, conceptsToFire as real, mem);
    s.(newTasks := ranked[k..], temporary := [],
       trace := s.trace + ProcessEvents(ranked[..k], Reciprocal(conceptsToFire), mem))
  }

  function CommitStep(s: CycleState, conceptsToFire: int32, mem: Memory): CycleState
  {
    s.(newTasks := mem.commit(s.newTasks),
       trace := s.trace + [FireConcepts(conceptsToFire), CommitNewTasks, RunNextTasks])
  }

  /** `conceptsToFire * memory.duration()` in `int` arithmetic. */
  function MaxNewTasks(conceptsToFire: int32, mem: Memory): (m: int32)
    ensures INT32_MIN <= conceptsToFire as int * mem.duration as int <= INT32_MAX ==>
              m == conceptsToFire as int * mem.duration as int
    ensures (m - conceptsToFire as int * mem.duration as int) % 0x1_0000_0000 == 0
  {
    Int32(conceptsToFire as int * mem.duration as int)
  }

  function TrimStep(s: CycleState, conceptsToFire: int32, mem: Memory): CycleState
  {
    var maxNewTasks := MaxNewTasks(conceptsToFire, mem);
    if |s.newTasks| > maxNewTasks then
      var lim := mem.limit(s.newTasks, maxNewTasks);
      s.(newTasks := lim.0, trace := s.trace + Reports(lim.1))
    else s
  }

  /** The cycle as one function of the state before it. */
  function CycleSpec(s: CycleState, conceptsToFire: int32, mem: Memory): CycleState
  {
    var s1 := InputStep(ForgetStep(s), mem);
    var s2 := FireStep(QueueStep(s1), conceptsToFire, mem);
    TrimStep(CommitStep(s2, conceptsToFire, mem), conceptsToFire, mem)
  }

  /** After a cycle the new-task set holds no more than `conceptsToFire * duration`
      tasks (none when that product is negative), given a `limit` that trims to its
      bound; the scratch list is empty, and when input is on the percept queue is
      empty. */
  lemma CycleBounds(s: CycleState, conceptsToFire: int32, mem: Memory)
    requires TrimsTo(mem.limit)
    ensures var r := CycleSpec(s, conceptsToFire, mem);
            var maxNewTasks := MaxNewTasks(conceptsToFire, mem);
            && |r.newTasks| <= (if maxNewTasks < 0 then 0 else maxNewTasks)
            && r.temporary == []
            && (mem.inputting ==> r.percepts == [])
            && (!mem.inputting ==> r.percepts == s.percepts)
  {
  }

  /** Trimming keeps `conceptsToFire * duration` tasks of an oversized set (none when
      that product is negative), reports every other one as "Ignored", and loses
      none; a set within the bound is left alone. */
  lemma TrimReportsDropped(s: CycleState, conceptsToFire: int32, mem: Memory)
    requires TrimsTo(mem.limit) && KeepsHighest(mem.limit)
    ensures var r := TrimStep(s, conceptsToFire, mem);
            var maxNewTasks := MaxNewTasks(conceptsToFire, mem);
            var dropped := mem.limit(s.newTasks, maxNewTasks).1;
            && (|s.newTasks| > maxNewTasks ==>
                  && |r.newTasks| == (if maxNewTasks < 0 then 0 else maxNewTasks)
                  && multiset(r.newTasks) + multiset(dropped) == multiset(s.newTasks)
                  && r.trace == s.trace + Reports(dropped)
                  && (forall x, y :: x in r.newTasks && y in dropped ==> x.priority >= y.priority))
            && (|s.newTasks| <= maxNewTasks ==> r == s)
  {
  }

  /** The events of a cycle come in the order of its phases: forgetting first, then
      the commands of the drained percepts, the queueing step, and the processes of
      the visited tasks; later phases only add events after these. */
  lemma CycleEventOrder(s: CycleState, conceptsToFire: int32, mem: Memory)
    ensures var cmds := if mem.inputting then AddEvents(CommandTasks(s.percepts)) else [];
            s.trace + [ForgetConcepts] + cmds + [QueueNewTasks] <= CycleSpec(s, conceptsToFire, mem).trace
  {
    var s3 := QueueStep(InputStep(ForgetStep(s), mem));
    var s4 := FireStep(s3, conceptsToFire, mem);
    var s5 := CommitStep(s4, conceptsToFire, mem);
    var s6 := TrimStep(s5, conceptsToFire, mem);
    assert s3.trace <= s4.trace;
    assert s4.trace <= s5.trace;
    assert s5.trace <= s6.trace;
  }

  /** The new-task phase visits tasks highest first: every task it visits ranks at
      least as high as every task it leaves in the set, and the visited and the left
      tasks together are the set it started from. */
  lemma FirePhaseSplit(tasks: seq<Task>, conceptsToFire: int32, mem: Memory)
    requires Ranks(mem)
    ensures var ranked := mem.highestFirst(tasks);
            var k := Visited(ranked, |tasks|, conceptsToFire as real, mem);
            && multiset(ranked[..k]) + multiset(ranked[k..]) == multiset(tasks)
            && (forall x, y :: x in ranked[..k] && y in ranked[k..] ==> x.priority >= y.priority)
  {
    var ranked := mem.highestFirst(tasks);
    var k := Visited(ranked, |tasks|, conceptsToFire as real, mem);
    assert ranked == ranked[..k] + ranked[k..];
    DescendingSplit(ranked, k);
  }

  /** When the busyness stays within bounds, every task in the set is visited. */
  lemma QuietCycleVisitsAll(tasks: seq<Task>, conceptsToFire: int32, mem: Memory)
    requires Ranks(mem)
    requires forall j :: 0 < j <= |mem.highestFirst(tasks)| ==> Busyness(mem.highestFirst(tasks)[..j], mem) <= conceptsToFire as real
    ensures Visited(mem.highestFirst(tasks), |tasks|, conceptsToFire as real, mem) == |tasks|
  {
    var ranked := mem.highestFirst(tasks);
    assert |ranked| == |multiset(ranked)| == |tasks|;
  }

  /** `getPriority(task, conceptsToFire)`: the concept count as a float, capped at 1. */
  function GetPriority(conceptsToFire: int): (f: real)
    ensures f <= 1.0
    ensures f == 1.0 || f == conceptsToFire as real
    ensures conceptsToFire >= 1 ==> f == 1.0
    ensures conceptsToFire < 1 ==> f == conceptsToFire as real
  {
    var f := conceptsToFire as real;
    if f > 1.0 then 1.0 else f
  }

  /** The loop over the new tasks, highest first: at most `newTasksToFire` of them,
      each task's process run when TaskProcess.get produces one and the task's
      priority then added to the busyness `b`; the loop stops after `b` first
      exceeds `maxBusyness`. Answers how many tasks were visited (each of them leaves
      the set) and the processes that ran. */
  method VisitHighestFirst(ranked: seq<Task>, newTasksToFire: nat, maxBusyness: real, priFactor: Float, mem: Memory)
    returns (visited: nat, events: seq<Event>)
    ensures visited == Visited(ranked, newTasksToFire, maxBusyness, mem)
    ensures events == ProcessEvents(ranked[..visited], priFactor, mem)
  {
    ghost var limit := if newTasksToFire < |ranked| then newTasksToFire else |ranked|;
    ghost var result := FireFrom(ranked, 0, limit, 0.0, maxBusyness, mem);
    var b := 0.0;
    var i := 0;
    var n := newTasksToFire;
    events := [];
    while i < |ranked| && n > 0
      invariant 0 <= i <= limit && n == newTasksToFire - i
      invariant b == Busyness(ranked[..i], mem)
      invariant 0 < i ==> b <= maxBusyness
      invariant result == FireFrom(ranked, i, limit, b, maxBusyness, mem)
      invariant events == ProcessEvents(ranked[..i], priFactor, mem)
    {
      var next := ranked[i];
      FireFromUnfold(ranked, i, limit, b, maxBusyness, mem);
      ProcessEventsStep(ranked, i, priFactor, mem);
      if mem.hasProcess(next) {
        events := events + [ProcessTask(next, priFactor)];
        b := b + mem.priorityAfterRun(next);
      }
      i := i + 1;
      n := n - 1;
      if b > maxBusyness {
        break;
      }
    }
    visited := i;
  }

  class EqualizedCycle {
    var percepts: seq<Task>
    var newTasks: seq<Task>
    /** Stores sorted tasks temporarily. */
    var temporary: seq<Task>
    var trace: seq<Event>
    /** The shared concepts-fired-per-cycle setting, read as this cycle's count. */
    var conceptsFiredPerCycle: int32

    function State(): CycleState
      reads this
    {
      CycleState(percepts, newTasks, temporary, trace)
    }

    constructor (conceptsFiredPerCycle: int32)
      ensures State() == CycleState([], [], [], [])
      ensures this.conceptsFiredPerCycle == conceptsFiredPerCycle
    {
      percepts := [];
      newTasks := [];
      temporary := [];
      trace := [];
      this.conceptsFiredPerCycle := conceptsFiredPerCycle;
    }

    /** Input: while input is on, every percept is taken off the queue; commands go
        to memory, all else to the new-task set. */
    method DrainPercepts(mem: Memory)
      modifies this`percepts, this`newTasks, this`trace
      ensures State() == InputStep(old(State()), mem)
    {
      if mem.inputting {
        ghost var ps := percepts;
        ghost var i := 0;
        while |percepts| > 0
          invariant 0 <= i <= |ps| && percepts == ps[i..]
          invariant newTasks == old(newTasks) + NonCommands(ps[..i])
          invariant trace == old(trace) + AddEvents(CommandTasks(ps[..i]))
          decreases |percepts|
        {
          var t := percepts[0];
          percepts := percepts[1..];
          assert ps[..i + 1][..i] == ps[..i];
          if t.isCommand {
            AddEventsAppend(CommandTasks(ps[..i]), t);
            trace := trace + [MemoryAdd(t)];
          } else {
            newTasks := newTasks + [t];
          }
          i := i + 1;
        }
        assert ps[..i] == ps;
      }
    }

    /** New tasks: the set is ranked highest first into `temporary`, the visited
        tasks leave the set, the processes that ran are recorded, and `temporary` is
        cleared. */
    method FireNewTasks(mem: Memory, conceptsToFire: int32)
      modifies this`newTasks, this`temporary, this`trace
      ensures State() == FireStep(old(State()), conceptsToFire, mem)
    {
      var maxBusyness := conceptsToFire as real;
      var newTasksToFire := |newTasks|;
      var ranked := mem.highestFirst(newTasks);
      temporary := ranked;
      var priFactor := Reciprocal(conceptsToFire);
      var visited, events := VisitHighestFirst(ranked, newTasksToFire, maxBusyness, priFactor, mem);
      newTasks := ranked[visited..];
      trace := trace + events;
      temporary := [];
    }

    /** Trimming: when the set holds more than `conceptsToFire * duration` tasks, the
        highest that many stay and each other one is reported as "Ignored". */
    method TrimNewTasks(mem: Memory, conceptsToFire: int32)
      modifies this`newTasks, this`trace
      ensures State() == TrimStep(old(State()), conceptsToFire, mem)
    {
      var maxNewTasks := Int32(conceptsToFire as int * mem.duration as int);
      if |newTasks| > maxNewTasks {
        var lim := mem.limit(newTasks, maxNewTasks);
        ReportDropped(lim.1);
        newTasks := lim.0;
      }
    }

    /** The consumer handed to `limit`: each dropped task is reported as "Ignored". */
    method ReportDropped(dropped: seq<Task>)
      modifies this`trace
      ensures trace == old(trace) + Reports(dropped)
    {
      var j := 0;
      while j < |dropped|
        invariant 0 <= j <= |dropped|
        invariant trace == old(trace) + Reports(dropped[..j])
      {
        assert Reports(dropped[..j + 1]) == Reports(dropped[..j]) + [Removed(dropped[j], "Ignored")];
        trace := trace + [Removed(dropped[j], "Ignored")];
        j := j + 1;
      }
      assert dropped[..j] == dropped;
    }

    /** `concepts.forgetNext(...)`, the first step of a cycle. */
    method ForgetNext()
      modifies this`trace
      ensures State() == ForgetStep(old(State()))
    {
      trace := trace + [ForgetConcepts];
    }

    /** `queueNewTasks()`. */
    method Queue()
      modifies this`trace
      ensures State() == QueueStep(old(State()))
    {
      trace := trace + [QueueNewTasks];
    }

    /** Concept firing, `commitNewTasks()` and `memory.runNextTasks()`. */
    method FireConceptsAndCommit(mem: Memory, conceptsToFire: int32)
      modifies this`newTasks, this`trace
      ensures State() == CommitStep(old(State()), conceptsToFire, mem)
    {
      trace := trace + [FireConcepts(conceptsToFire)];
      newTasks := mem.commit(newTasks);
      trace := trace + [CommitNewTasks];
      trace := trace + [RunNextTasks];
    }

    /** `cycle()`: one working cycle, phase by phase. */
    method Cycle(mem: Memory)
      modifies this
      ensures State() == CycleSpec(old(State()), old(conceptsFiredPerCycle), mem)
      ensures conceptsFiredPerCycle == old(conceptsFiredPerCycle)
    {
      var conceptsToFire := conceptsFiredPerCycle;
      ForgetNext();
      DrainPercepts(mem);
      ghost var s1 := State();
      assert s1 == InputStep(ForgetStep(old(State())), mem);
      Queue();
      FireNewTasks(mem, conceptsToFire);
      ghost var s2 := State();
      assert s2 == FireStep(QueueStep(s1), conceptsToFire, mem);
      FireConceptsAndCommit(mem, conceptsToFire);
      TrimNewTasks(mem, conceptsToFire);
    }
  }
}
