/** The guest OS thread scheduler as a value: what SelectThread, OSResumeThread,
    OSSleepThread and OSCreateThread do to queue contents and thread words, once
    the intrusive links are read as sequences. */
module Scheduler {
  import opened Guest

  datatype Sched = Sched(
    q: map<Ptr, seq<Ptr>>,      // contents of every OSThreadQueue, head first
    queue: map<Ptr, Ptr>,       // per thread: the queue it says it is linked in
    state: map<Ptr, int>,
    suspend: map<Ptr, int>,
    priority: map<Ptr, int>,    // effective priority, 0 is the most urgent
    base: map<Ptr, int>,
    waitMutex: map<Ptr, Ptr>,
    held: map<Ptr, seq<Ptr>>,   // per thread: the mutexes it holds
    all: seq<Ptr>,              // global thread list
    mapped: set<Ptr>,           // records that lie in mapped guest memory
    pending: Mask,              // element p: level p has ready threads
    resched: int,
    idle: nat,
    current: Ptr,
    running: Ptr)

  /** How a bridge call ends: back to its caller, on another thread's stack, or at
      a boundary where the port stops. */
  datatype Outcome =
    | Returned(s: Sched)
    | Switched(s: Sched, to: Ptr)
    | Stopped

  // ---------------------------------------------------------------- queues

  function Contents(s: Sched, a: Ptr): seq<Ptr> {
    if a in s.q then s.q[a] else []
  }

  function RunSeq(s: Sched, p: int): seq<Ptr> {
    Contents(s, RunQ(p))
  }

  function InsertionPoint(xs: seq<Ptr>, priority: map<Ptr, int>, pr: int): (k: nat)
    ensures k <= |xs|
    ensures forall i :: 0 <= i < k ==> At(priority, xs[i]) <= pr
    ensures k < |xs| ==> At(priority, xs[k]) > pr
  {
    if xs == [] || At(priority, xs[0]) > pr then 0
    else 1 + InsertionPoint(xs[1..], priority, pr)
  }

  function SortedInsert(xs: seq<Ptr>, priority: map<Ptr, int>, pr: int, t: Ptr): seq<Ptr> {
    var k := InsertionPoint(xs, priority, pr);
    xs[..k] + [t] + xs[k..]
  }

  /** InsertThreadIntoQueueByPriority of the sleep bridge: no mask update. */
  function Insert(s: Sched, a: Ptr, t: Ptr, pr: int): Sched {
    s.(queue := s.queue[t := a],
       q := s.q[a := SortedInsert(Contents(s, a), s.priority, pr, t)])
  }

  /** The resume bridge also marks a run queue pending. */
  function InsertAndMark(s: Sched, a: Ptr, t: Ptr, pr: int): Sched {
    var s1 := Insert(s, a, t, pr);
    if IsRunQ(a) then s1.(pending := s1.pending[LevelOf(a) := true]) else s1
  }

  function Remove(s: Sched, t: Ptr): Sched {
    var a := At(s.queue, t);
    if a == 0 then s
    else
      var xs := Without(Contents(s, a), t);
      s.(queue := s.queue[t := 0],
         q := s.q[a := xs],
         pending := if IsRunQ(a) && xs == [] then s.pending[LevelOf(a) := false] else s.pending)
  }

  // ---------------------------------------------------------------- SelectThread

  predicate Running(s: Sched) {
    s.running != 0 && At(s.state, s.running) == RUNNING
  }

  /** The exits taken before anything is written. */
  predicate SelectDeclines(s: Sched, force: bool) {
    || s.idle >= 1
    || s.current != s.running
    || s.running == 0
    || (Running(s) && !force && At(s.priority, s.running) <= Cntlzw(s.pending))
  }

  /** The running thread goes to the tail of its level. */
  function Requeue(s: Sched): Sched
    requires ValidPriority(At(s.priority, s.running))
  {
    var p := At(s.priority, s.running);
    s.(state := s.state[s.running := READY],
       queue := s.queue[s.running := RunQ(p)],
       q := s.q[RunQ(p) := RunSeq(s, p) + [s.running]],
       pending := s.pending[p := true],
       resched := 1)
  }

  /** What the selection loop leaves behind: `thread` is its nextThread variable,
      `level` the level it last looked at. */
  datatype Scan = Scan(s: Sched, thread: Ptr, level: int)

  function ClearPending(s: Sched, p: nat): Sched
    requires p < 32
  {
    s.(pending := s.pending[p := false])
  }

  function ScanFrom(s: Sched, p: nat, last: Ptr, level: int): Scan
    requires p <= 32
    decreases 32 - p, |RunSeq(s, p)|
  {
    if p == 32 then Scan(s, last, level)
    else if !s.pending[p] then ScanFrom(s, p + 1, last, level)
    else if RunSeq(s, p) == [] then ScanFrom(ClearPending(s, p), p + 1, 0, p)
    else
      var head := RunSeq(s, p)[0];
      if Dead(At(s.state, head)) then
        if At(s.queue, head) == RunQ(p) then ScanFrom(Remove(s, head), p, head, p)
        else Scan(s, head, p)   // not reachable when queue words name their queue
      else Scan(s, head, p)
  }

  /** PopThreadQueueHead, the hand-over words and OSSetCurrentContext. */
  function Dispatch(s: Sched, t: Ptr, p: int): Sched
    requires 0 <= p < 32
  {
    var xs := RunSeq(s, p);
    s.(q := s.q[RunQ(p) := if xs == [] then [] else xs[1..]],
       pending := if |xs| <= 1 then s.pending[p := false] else s.pending,
       queue := s.queue[t := 0],
       state := s.state[t := RUNNING],
       running := t,
       current := t)
  }

  /** SelectThread from the idle-poll test on. */
  function SelectBest(s: Sched): Outcome {
    if Zero(s.pending) then Stopped
    else
      var scan := ScanFrom(s.(resched := 0), 0, 0, 0);
      if scan.thread == 0 || !(0 <= scan.level < 32) then Returned(scan.s)
      else Switched(Dispatch(scan.s, scan.thread, scan.level), scan.thread)
  }

  /** `save` is what OSSaveContext leaves in r3, 0 when it is skipped. */
  function Select(s: Sched, force: bool, save: int): Outcome {
    if s.idle >= 1 || s.current != s.running then Returned(s)
    else if s.running == 0 then Returned(s)
    else if s.running !in s.mapped then Stopped
    else if SelectDeclines(s, force) then Returned(s)
    else if Running(s) && !ValidPriority(At(s.priority, s.running)) then Stopped
    else
      var s1 := if Running(s) then Requeue(s) else s;
      if save != 0 then Returned(s1) else SelectBest(s1)
  }

  // ---------------------------------------------------------------- OSResumeThread

  /** The head waiter of a mutex; the wait queue is the mutex's first word pair. */
  function HeadWaiter(s: Sched, m: Ptr): Ptr {
    if Contents(s, m) == [] then 0 else Contents(s, m)[0]
  }

  function InheritFrom(s: Sched, ms: seq<Ptr>, pr: int): int {
    if ms == [] then pr
    else
      var w := HeadWaiter(s, ms[0]);
      InheritFrom(s, ms[1..], if w != 0 && At(s.priority, w) < pr then At(s.priority, w) else pr)
  }

  function Held(s: Sched, t: Ptr): seq<Ptr> {
    if t in s.held then s.held[t] else []
  }

  function EffectivePriority(s: Sched, t: Ptr): int {
    InheritFrom(s, Held(s, t), At(s.base, t))
  }

  /** The part of OSResumeThread that runs when the suspend count reaches 0. */
  function Unsuspend(s: Sched, t: Ptr): Outcome {
    var st := At(s.state, t);
    if st == WAITING then
      if At(s.waitMutex, t) != 0 then Stopped
      else
        var a := At(s.queue, t);
        var s1 := Remove(s, t);
        var pr := EffectivePriority(s1, t);
        if !ValidPriority(pr) then Stopped
        else
          var s2 := s1.(priority := s1.priority[t := pr]);
          Returned(if a != 0 then InsertAndMark(s2, a, t, pr) else s2)
    else if st == READY then
      var pr := EffectivePriority(s, t);
      if !ValidPriority(pr) then Stopped
      else
        var s1 := s.(priority := s.priority[t := pr]);
        Returned(InsertAndMark(s1, RunQ(pr), t, pr).(resched := 1))
    else if st == RUNNING then Stopped
    else Returned(s)
  }

  function Resume(s: Sched, t: Ptr, save: int): Outcome {
    if t == 0 then Returned(s)
    else if t !in s.mapped then Stopped
    else
      var left := At(s.suspend, t) - 1;
      var s1 := s.(suspend := s.suspend[t := if left < 0 then 0 else left]);
      if left != 0 then Returned(s1)
      else
        var r := Unsuspend(s1, t);
        if r.Returned? && r.s.resched != 0 then Select(r.s, false, save) else r
  }

  // ---------------------------------------------------------------- OSSleepThread

  /** The running thread, or the default thread published on first use. */
  function Adopt(s: Sched): Sched {
    if s.running == 0 then s.(running := DEFAULT_THREAD, current := DEFAULT_THREAD) else s
  }

  function Park(s: Sched, a: Ptr): Sched {
    var t := s.running;
    var s1 := s.(state := s.state[t := WAITING]);
    Insert(s1, a, t, At(s.priority, t)).(resched := 1)
  }

  /** UnlinkWaitQueueNode and the two words written after it. */
  function Unpark(s: Sched, a: Ptr, t: Ptr): Sched {
    s.(q := s.q[a := Without(Contents(s, a), t)],
       queue := s.queue[t := 0],
       state := s.state[t := RUNNING])
  }

  predicate Parked(s: Sched, a: Ptr, t: Ptr) {
    At(s.state, t) == WAITING && At(s.queue, t) == a
  }

  /** The tail of OSSleepThread: if the caller is still parked it is taken back. */
  function SleepTail(s: Sched, a: Ptr, t: Ptr): Sched {
    if Parked(s, a, t) then Unpark(s, a, t) else s
  }

  /** What a SelectThread call from OSSleepThread comes to. A hand-over is final here;
      module Hosting has the host stacks on which the tail runs after it. */
  function AfterSelect(r: Outcome, a: Ptr, t: Ptr): Outcome {
    if r.Returned? then Returned(SleepTail(r.s, a, t)) else r
  }

  function Sleep(s: Sched, a: Ptr, save: int): Outcome {
    if a == 0 || a !in s.mapped then Returned(s)
    else if s.running == 0 && DEFAULT_THREAD !in s.mapped then Returned(s)
    else
      var s0 := Adopt(s);
      if s0.running !in s.mapped || s0.idle != 0 then Returned(s0)
      else
        AfterSelect(Select(Park(s0, a), false, save), a, s0.running)
  }

  // ---------------------------------------------------------------- OSCreateThread

  function Create(s: Sched, t: Ptr, pr: int): Sched {
    if !ValidPriority(pr) || t == 0 || t !in s.mapped then s
    else
      s.(state := s.state[t := READY],
         base := s.base[t := pr],
         priority := s.priority[t := pr],
         suspend := s.suspend[t := 1],
         waitMutex := s.waitMutex[t := 0],
         q := s.q[JoinQ(t) := []],
         held := s.held[t := []],
         all := s.all + [t])
  }

  // ---------------------------------------------------------------- the invariant

  /** Every queue holds distinct threads whose queue word names it; hence the
      queues are pairwise disjoint. */
  ghost predicate QueuesNamed(s: Sched) {
    && (forall a | a in s.q :: a != 0 && Distinct(s.q[a]))
    && (forall a, i | a in s.q && 0 <= i < |s.q[a]| ::
          s.q[a][i] != 0 && At(s.queue, s.q[a][i]) == a)
  }

  predicate RunMember(s: Sched, p: int, t: Ptr) {
    && At(s.priority, t) == p
    && At(s.suspend, t) == 0
    && (At(s.state, t) == READY || Dead(At(s.state, t)))
  }

  ghost predicate RunQueuesOk(s: Sched) {
    && (forall p :: 0 <= p < 32 ==> RunQ(p) in s.q)
    && (forall p, i :: 0 <= p < 32 && 0 <= i < |RunSeq(s, p)| ==> RunMember(s, p, RunSeq(s, p)[i]))
  }

  predicate Sorted(xs: seq<Ptr>, priority: map<Ptr, int>) {
    forall i, j :: 0 <= i < j < |xs| ==> At(priority, xs[i]) <= At(priority, xs[j])
  }

  ghost predicate WaitQueuesOk(s: Sched) {
    forall a | a in s.q && !IsRunQ(a) ::
      && Sorted(s.q[a], s.priority)
      && (forall i :: 0 <= i < |s.q[a]| ==> At(s.state, s.q[a][i]) == WAITING)
  }

  /** No ready thread is invisible to the mask. */
  predicate PendingCovers(s: Sched) {
    forall p :: 0 <= p < 32 && RunSeq(s, p) != [] ==> s.pending[p]
  }

  /** Bit 31 - p is set exactly when run queue p has threads. */
  predicate PendingExact(s: Sched) {
    forall p :: 0 <= p < 32 ==> (s.pending[p] <==> RunSeq(s, p) != [])
  }

  ghost predicate OneRunning(s: Sched) {
    forall t: Ptr :: At(s.state, t) == RUNNING ==>
      t == s.running && t != 0 && At(s.suspend, t) == 0 && At(s.queue, t) == 0
  }

  /** A waiting thread's queue word is never stale. */
  ghost predicate WaitersLinked(s: Sched) {
    forall t: Ptr :: At(s.state, t) == WAITING && At(s.queue, t) != 0 ==>
      At(s.queue, t) in s.q && t in s.q[At(s.queue, t)]
  }

  ghost predicate Inv(s: Sched) {
    && QueuesNamed(s)
    && RunQueuesOk(s)
    && WaitQueuesOk(s)
    && PendingCovers(s)
    && OneRunning(s)
    && WaitersLinked(s)
  }
}
