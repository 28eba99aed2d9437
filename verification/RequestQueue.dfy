/** The request queue of a node (RAW16Node.cpp): frames are kept in wrapped order of their numbers, one thread takes
    them, and a flush empties the queue and waits until the thread has run dry. */
module RequestQueue {
  import opened Wrappers

  const UINT32: nat := 0x1_0000_0000
  const HALF: nat := 0x8000_0000

  /** A frame with its 32-bit number; `id` tells frames with the same number apart. */
  datatype Frame = Frame(no: nat, id: nat)

  /** How far `x` is behind `base`, going round. */
  function Ahead(base: nat, x: nat): nat {
    (x as int - base) % UINT32
  }

  /** The comparison in the code: 0 <= (MINT32)(a - b). */
  predicate NotBefore(a: nat, b: nat) {
    Ahead(b, a) < HALF
  }

  /** All numbers lie in a window of less than half the range that starts at `base`. */
  predicate InWindow(base: nat, q: seq<Frame>) {
    forall k | 0 <= k < |q| :: Ahead(base, q[k].no) < HALF
  }

  predicate Sorted(base: nat, q: seq<Frame>) {
    forall j, k | 0 <= j < k < |q| :: Ahead(base, q[j].no) <= Ahead(base, q[k].no)
  }

  /** In a window the comparison is the order by distance from its start. */
  lemma WindowOrder(base: nat, a: nat, b: nat)
    requires Ahead(base, a) < HALF && Ahead(base, b) < HALF
    ensures NotBefore(a, b) <==> Ahead(base, a) >= Ahead(base, b)
  {
    var d := Ahead(base, a) - Ahead(base, b);
    Difference(base, a, b);
    if d >= 0 {
      assert Ahead(b, a) == d;
    } else {
      assert Ahead(b, a) == d + UINT32;
    }
  }

  lemma Difference(base: nat, a: nat, b: nat)
    ensures Ahead(b, a) == (Ahead(base, a) - Ahead(base, b)) % UINT32
  {}

  /** There is such a window. */
  ghost predicate Windowed(q: seq<Frame>) {
    exists base: nat :: InWindow(base, q)
  }

  /** Three numbers, not all the same, that each come no earlier than the next one, all the way round. */
  predicate Circle(a: nat, b: nat, c: nat) {
    NotBefore(a, b) && NotBefore(b, c) && NotBefore(c, a) && !(a % UINT32 == b % UINT32 == c % UINT32)
  }

  predicate NoCircle(q: seq<Frame>) {
    forall i, j, k | 0 <= i < |q| && 0 <= j < |q| && 0 <= k < |q| :: !Circle(q[i].no, q[j].no, q[k].no)
  }

  /** Any two numbers can be compared, one way or the other. */
  predicate Comparable(q: seq<Frame>) {
    forall j, k | 0 <= j < |q| && 0 <= k < |q| :: NotBefore(q[j].no, q[k].no) || NotBefore(q[k].no, q[j].no)
  }

  lemma ThereAndBack(a: nat, b: nat)
    ensures if a % UINT32 == b % UINT32 then Ahead(a, b) == 0 && Ahead(b, a) == 0 else Ahead(a, b) + Ahead(b, a) == UINT32
  {
    AheadMod(a, b);
    AheadMod(b, a);
  }

  lemma AheadMod(base: nat, x: nat)
    ensures var b, y := base % UINT32, x % UINT32; Ahead(base, x) == if y >= b then y - b else y - b + UINT32
  {}

  lemma SameOrder(a: nat, b: nat, x: nat)
    requires a % UINT32 == b % UINT32
    ensures NotBefore(a, x) == NotBefore(b, x) && NotBefore(x, a) == NotBefore(x, b)
  {
    AheadMod(x, a);
    AheadMod(x, b);
    AheadMod(a, x);
    AheadMod(b, x);
  }

  /** Where the comparison neither gives up nor goes in circles, some frame comes no later than any other. */
  lemma {:induction false} Earliest(q: seq<Frame>) returns (m: nat)
    requires q != [] && Comparable(q) && NoCircle(q)
    ensures m < |q| && forall k | 0 <= k < |q| :: NotBefore(q[k].no, q[m].no)
  {
    var last := |q| - 1;
    if last == 0 {
      m := 0;
      ThereAndBack(q[0].no, q[0].no);
    } else {
      m := Earliest(q[..last]);
      if !NotBefore(q[last].no, q[m].no) {
        forall k | 0 <= k < |q|
          ensures NotBefore(q[k].no, q[last].no)
        {
          ComesAfter(q, k, m, last);
        }
        m := last;
      }
    }
  }

  /** No earlier than something that is strictly later than `x`: so no earlier than `x`. */
  lemma ComesAfter(q: seq<Frame>, k: nat, m: nat, x: nat)
    requires Comparable(q) && NoCircle(q) && k < |q| && m < |q| && x < |q|
    requires k == x || NotBefore(q[k].no, q[m].no)
    requires !NotBefore(q[x].no, q[m].no)
    ensures NotBefore(q[k].no, q[x].no)
  {
    if k == x {
      ThereAndBack(q[x].no, q[x].no);
    } else if !NotBefore(q[k].no, q[x].no) {
      assert NotBefore(q[x].no, q[k].no) && NotBefore(q[m].no, q[x].no);
      assert !Circle(q[x].no, q[k].no, q[m].no);
      SameOrder(q[k].no, q[m].no, q[x].no);
    }
  }

  /** A window of less than half the range holds all numbers of a queue if and only if any two of them can be compared
      and no three of them form a circle. */
  lemma WindowIffOrdered(q: seq<Frame>)
    ensures Windowed(q) <==> Comparable(q) && NoCircle(q)
  {
    if Comparable(q) && NoCircle(q) {
      if q == [] {
        assert InWindow(0, q);
      } else {
        var m := Earliest(q);
        assert InWindow(q[m].no, q);
      }
    }
    if Windowed(q) {
      var base: nat :| InWindow(base, q);
      WindowIsOrdered(base, q);
    }
  }

  lemma WindowIsOrdered(base: nat, q: seq<Frame>)
    requires InWindow(base, q)
    ensures Comparable(q) && NoCircle(q)
  {
    forall j, k | 0 <= j < |q| && 0 <= k < |q|
      ensures NotBefore(q[j].no, q[k].no) <==> Ahead(base, q[j].no) >= Ahead(base, q[k].no)
      ensures Ahead(base, q[j].no) == Ahead(base, q[k].no) ==> q[j].no % UINT32 == q[k].no % UINT32
    {
      WindowOrder(base, q[j].no, q[k].no);
      AheadMod(base, q[j].no);
      AheadMod(base, q[k].no);
    }
  }

  /** Three numbers a little less than half the range apart. */
  lemma NoWindowNoOrder()
    ensures Circle(0, 0xC000_0000, 0x6000_0000)
    ensures !Windowed([Frame(0, 0), Frame(0xC000_0000, 1), Frame(0x6000_0000, 2)])
  {
    var q := [Frame(0, 0), Frame(0xC000_0000, 1), Frame(0x6000_0000, 2)];
    assert Circle(q[0].no, q[1].no, q[2].no);
    WindowIffOrdered(q);
  }

  /** The place behind the last frame that `f` is not before. */
  function Place(q: seq<Frame>, f: Frame): (k: nat)
    ensures k <= |q|
  {
    if q == [] then 0
    else if NotBefore(f.no, q[|q| - 1].no) then |q|
    else Place(q[..|q| - 1], f)
  }

  function Insert(q: seq<Frame>, f: Frame): seq<Frame> {
    q[..Place(q, f)] + [f] + q[Place(q, f)..]
  }

  lemma {:induction false} PlaceSplits(base: nat, q: seq<Frame>, f: Frame)
    requires Sorted(base, q) && InWindow(base, q) && Ahead(base, f.no) < HALF
    ensures forall k | 0 <= k < Place(q, f) :: Ahead(base, q[k].no) <= Ahead(base, f.no)
    ensures forall k | Place(q, f) <= k < |q| :: Ahead(base, f.no) < Ahead(base, q[k].no)
  {
    if q != [] {
      var last := |q| - 1;
      WindowOrder(base, f.no, q[last].no);
      if !NotBefore(f.no, q[last].no) {
        PlaceSplits(base, q[..last], f);
      }
    }
  }

  /** In a window, queueing keeps the queue sorted, adds the frame once, leaves the others in their order and puts the
      frame behind all frames with the same number. */
  lemma InsertSorts(base: nat, q: seq<Frame>, f: Frame)
    requires Sorted(base, q) && InWindow(base, q) && Ahead(base, f.no) < HALF
    ensures Sorted(base, Insert(q, f)) && InWindow(base, Insert(q, f))
    ensures multiset(Insert(q, f)) == multiset(q) + multiset{f}
    ensures forall k | Place(q, f) <= k < |q| :: q[k].no % UINT32 != f.no % UINT32
  {
    PlaceSplits(base, q, f);
    InsertedSorted(base, q, f, Place(q, f));
    InsertKeeps(q, f);
    forall k | Place(q, f) <= k < |q|
      ensures q[k].no % UINT32 != f.no % UINT32
    {
      SameNumber(base, q[k].no, f.no);
    }
  }

  lemma InsertedSorted(base: nat, q: seq<Frame>, f: Frame, p: nat)
    requires p <= |q| && Sorted(base, q) && InWindow(base, q) && Ahead(base, f.no) < HALF
    requires forall k | 0 <= k < p :: Ahead(base, q[k].no) <= Ahead(base, f.no)
    requires forall k | p <= k < |q| :: Ahead(base, f.no) < Ahead(base, q[k].no)
    ensures Sorted(base, q[..p] + [f] + q[p..]) && InWindow(base, q[..p] + [f] + q[p..])
  {
    var r := q[..p] + [f] + q[p..];
    forall k | 0 <= k < |r|
      ensures r[k] == if k < p then q[k] else if k == p then f else q[k - 1]
    {}
  }

  lemma InsertKeeps(q: seq<Frame>, f: Frame)
    ensures multiset(Insert(q, f)) == multiset(q) + multiset{f}
  {
    assert q == q[..Place(q, f)] + q[Place(q, f)..];
  }

  lemma SameNumber(base: nat, a: nat, b: nat)
    ensures a % UINT32 == b % UINT32 ==> Ahead(base, a) == Ahead(base, b)
  {}

  // ---------------------------------------------------------------- runs

  /** The node's thread waits in onDequeRequest, works on a frame, is about to ask for the next one, or has left. */
  datatype Thread = Asleep | Working(frame: Frame) | Asking | Left

  /** A call of flush() has cleared the queue and let go of the lock, waits for the drained signal, has been signalled
      but does not have the lock again, or has returned. */
  datatype Flusher = NoFlush | Cleared | WaitingForSignal | Signalled | Returned

  datatype State = State(
    queue: seq<Frame>, drained: bool, exit: bool, thread: Thread, flusher: Flusher,
    queued: seq<Frame>, flushed: seq<Frame>, done: seq<Frame>, due: multiset<Frame>)

  function Start(): State {
    State([], false, false, Asking, NoFlush, [], [], [], multiset{})
  }

  /** Each step is what happens while the queue is locked. Dry is the thread finding nothing to do, which also
      signals a waiting flush; Clear and Look are the two critical sections of flush(), and Wake is the return from its
      wait. */
  datatype Step = Queue(frame: Frame) | Dry | Take | Finish | Clear | Look | Wake | Exit | Leave

  predicate Enabled(s: State, step: Step) {
    match step
    case Queue(_) => true
    case Dry => (s.thread.Asking? || s.thread.Asleep?) && s.queue == [] && !s.exit
    case Take => (s.thread.Asking? || s.thread.Asleep?) && s.queue != [] && !s.exit
    case Finish => s.thread.Working?
    case Clear => s.flusher.NoFlush? || s.flusher.Returned?
    case Look => s.flusher.Cleared?
    case Wake => s.flusher.Signalled?
    case Exit => true
    case Leave => (s.thread.Asking? || s.thread.Asleep?) && s.exit
  }

  /** `due` are the frames that had been queued when the flush began. */
  function Next(s: State, step: Step): State
    requires Enabled(s, step)
  {
    match step
    case Queue(f) => s.(queue := Insert(s.queue, f), queued := s.queued + [f])
    case Dry => s.(drained := true, thread := Asleep,
                   flusher := if s.flusher.WaitingForSignal? then Signalled else s.flusher)
    case Take => s.(drained := false, thread := Working(s.queue[0]), queue := s.queue[1..])
    case Finish => s.(thread := Asking, done := s.done + [s.thread.frame])
    case Clear => s.(queue := [], flushed := s.flushed + s.queue, due := multiset(s.queued), flusher := Cleared)
    case Look => s.(flusher := if s.drained then Returned else WaitingForSignal)
    case Wake => s.(flusher := Returned)
    case Exit => s.(exit := true)
    case Leave => s.(thread := Left)
  }

  function InWork(s: State): multiset<Frame> {
    if s.thread.Working? then multiset{s.thread.frame} else multiset{}
  }

  /** Every queued frame is in one place: still queued, being processed, flushed or done. */
  predicate Kept(s: State) {
    multiset(s.queued) == multiset(s.queue) + InWork(s) + multiset(s.flushed) + multiset(s.done)
  }

  predicate Ok(s: State) {
    && Kept(s)
    && (s.drained ==> !s.thread.Working? && !s.thread.Asking?)
    && (s.thread.Asleep? ==> s.drained) && (s.thread.Left? ==> s.exit)
    && (s.flusher.WaitingForSignal? ==> !s.drained)
    && (s.flusher.Cleared? || s.flusher.WaitingForSignal? ==>
          s.due <= multiset(s.flushed) + multiset(s.done) + InWork(s))
    && (s.flusher.Signalled? || s.flusher.Returned? ==> s.due <= multiset(s.flushed) + multiset(s.done))
  }

  lemma ClearOk(s: State)
    requires Ok(s) && Enabled(s, Clear)
    ensures Ok(Next(s, Clear))
  {
    assert multiset(s.flushed + s.queue) == multiset(s.flushed) + multiset(s.queue);
    assert multiset(s.queued) == InWork(s) + multiset(s.flushed + s.queue) + multiset(s.done);
  }

  lemma FinishOk(s: State)
    requires Ok(s) && Enabled(s, Finish)
    ensures Ok(Next(s, Finish))
  {
    assert multiset(s.done + [s.thread.frame]) == multiset(s.done) + multiset{s.thread.frame};
  }

  lemma QueueOk(s: State, f: Frame)
    requires Ok(s)
    ensures Ok(Next(s, Queue(f)))
  {
    InsertKeeps(s.queue, f);
    assert multiset(s.queued + [f]) == multiset(s.queued) + multiset{f};
  }

  lemma TakeOk(s: State)
    requires Ok(s) && Enabled(s, Take)
    ensures Ok(Next(s, Take))
  {
    assert s.queue == [s.queue[0]] + s.queue[1..];
    assert multiset(s.queue) == multiset{s.queue[0]} + multiset(s.queue[1..]);
  }

  lemma NextOk(s: State, step: Step)
    requires Ok(s) && Enabled(s, step)
    ensures Ok(Next(s, step))
  {
    match step
    case Queue(f) => QueueOk(s, f);
    case Take => TakeOk(s);
    case Clear => ClearOk(s);
    case Finish => FinishOk(s);
    case _ =>
  }

  /** From `s` these steps can be taken, through these states. */
  ghost predicate GoesOn(s: State, states: seq<State>, steps: seq<Step>) {
    && |states| == |steps| + 1 && states[0] == s
    && forall k | 0 <= k < |steps| :: Enabled(states[k], steps[k]) && states[k + 1] == Next(states[k], steps[k])
  }

  ghost predicate IsRun(states: seq<State>, steps: seq<Step>) {
    GoesOn(Start(), states, steps)
  }

  lemma {:induction false} RunOk(states: seq<State>, steps: seq<Step>, k: nat)
    requires IsRun(states, steps) && k <= |steps|
    ensures Ok(states[k])
  {
    if k > 0 {
      RunOk(states, steps, k - 1);
      NextOk(states[k - 1], steps[k - 1]);
    }
  }

  /** In every run: each queued frame is dequeued once, flushed once or still queued; the drained flag is only up while
      no frame is processed; and when flush returns, every frame queued before it has been flushed or processed to
      the end. */
  lemma FramesAreAccountedFor(states: seq<State>, steps: seq<Step>, k: nat)
    requires IsRun(states, steps) && k <= |steps|
    ensures var s := states[k];
            multiset(s.queued) == multiset(s.queue) + InWork(s) + multiset(s.flushed) + multiset(s.done)
    ensures states[k].drained ==> !states[k].thread.Working?
    ensures states[k].flusher.Returned? ==> states[k].due <= multiset(states[k].flushed) + multiset(states[k].done)
  {
    RunOk(states, steps, k);
  }

  // ---------------------------------------------------------------- order

  /** The queue is in order as the code sees it. */
  predicate InOrder(q: seq<Frame>) {
    forall j, k | 0 <= j < k < |q| :: NotBefore(q[k].no, q[j].no)
  }

  lemma InOrderIsSorted(base: nat, q: seq<Frame>)
    requires InWindow(base, q)
    ensures InOrder(q) <==> Sorted(base, q)
  {
    forall j, k | 0 <= j < k < |q|
      ensures NotBefore(q[k].no, q[j].no) <==> Ahead(base, q[k].no) >= Ahead(base, q[j].no)
    {
      WindowOrder(base, q[k].no, q[j].no);
    }
  }

  lemma InsertedMembers(q: seq<Frame>, f: Frame)
    ensures Insert(q, f)[Place(q, f)] == f
    ensures forall k | 0 <= k < |q| :: q[k] == Insert(q, f)[if k < Place(q, f) then k else k + 1]
  {}

  lemma QueueInOrder(q: seq<Frame>, f: Frame)
    requires InOrder(q) && Windowed(Insert(q, f))
    ensures InOrder(Insert(q, f))
  {
    var base: nat :| InWindow(base, Insert(q, f));
    InsertedMembers(q, f);
    InOrderIsSorted(base, q);
    InsertSorts(base, q, f);
    InOrderIsSorted(base, Insert(q, f));
  }

  /** As long as the numbers that are queued lie in a window at each moment, wherever it has moved to, the queue stays
      in order. */
  lemma {:induction false} QueueStaysInOrder(states: seq<State>, steps: seq<Step>, k: nat)
    requires IsRun(states, steps) && k <= |steps|
    requires forall j | 0 <= j <= k :: Windowed(states[j].queue)
    ensures InOrder(states[k].queue)
  {
    if k > 0 {
      QueueStaysInOrder(states, steps, k - 1);
      var s, step := states[k - 1], steps[k - 1];
      if step.Queue? {
        QueueInOrder(s.queue, step.frame);
      }
    }
  }

  // ---------------------------------------------------------------- what a flush returns to

  /** Step `d` is a Dry, and none comes after it before `k`. */
  predicate LastDry(steps: seq<Step>, d: nat, k: nat) {
    d < k <= |steps| && steps[d] == Dry && forall m | d < m < k :: steps[m] != Dry
  }

  predicate NoneTaken(steps: seq<Step>, d: nat, k: nat)
    requires k <= |steps|
  {
    forall m | d < m < k :: steps[m] != Take
  }

  predicate NoneQueued(steps: seq<Step>, d: nat, k: nat)
    requires k <= |steps|
  {
    forall m | d < m < k :: !steps[m].Queue?
  }

  /** A frame was taken and is not finished. */
  predicate InHand(steps: seq<Step>, d: nat, k: nat)
    requires k <= |steps|
  {
    exists m :: d < m < k && TakenAt(steps, m, k)
  }

  predicate TakenAt(steps: seq<Step>, m: nat, k: nat)
    requires m < k <= |steps|
  {
    steps[m] == Take && forall j | m < j < k :: steps[j] != Finish
  }

  lemma InHandNext(steps: seq<Step>, d: nat, k: nat)
    requires d < k < |steps|
    ensures InHand(steps, d, k + 1) <==> steps[k] == Take || (InHand(steps, d, k) && steps[k] != Finish)
  {
    if InHand(steps, d, k + 1) {
      var m :| d < m < k + 1 && TakenAt(steps, m, k + 1);
      assert m < k ==> TakenAt(steps, m, k) && steps[k] != Finish;
    }
    if steps[k] == Take {
      assert TakenAt(steps, k, k + 1);
    }
    if InHand(steps, d, k) && steps[k] != Finish {
      var m :| d < m < k && TakenAt(steps, m, k);
      assert TakenAt(steps, m, k + 1);
    }
  }

  /** What has happened since the thread last ran dry. */
  lemma {:induction false} SinceDry(states: seq<State>, steps: seq<Step>, d: nat, k: nat)
    requires IsRun(states, steps) && LastDry(steps, d, k)
    ensures states[k].drained <==> NoneTaken(steps, d, k)
    ensures states[k].thread.Working? <==> InHand(steps, d, k)
  {
    if k == d + 1 {
      assert states[k] == Next(states[d], Dry);
    } else {
      SinceDry(states, steps, d, k - 1);
      InHandNext(steps, d, k - 1);
      assert states[k] == Next(states[k - 1], steps[k - 1]);
    }
  }

  /** A flush that has been signalled was so ever since. */
  lemma {:induction false} SignalledSince(states: seq<State>, steps: seq<Step>, d: nat, j: nat, k: nat)
    requires IsRun(states, steps) && LastDry(steps, d, k) && d < j <= k && states[k].flusher.Signalled?
    ensures states[j].flusher.Signalled?
    decreases k - j
  {
    if j < k {
      SignalledSince(states, steps, d, j + 1, k);
      assert states[j + 1] == Next(states[j], steps[j]);
    }
  }

  lemma {:induction false} QueueSinceDry(states: seq<State>, steps: seq<Step>, d: nat, k: nat)
    requires IsRun(states, steps) && LastDry(steps, d, k)
    requires forall m | d < m < k :: steps[m] != Clear
    ensures states[k].drained && states[k].queue == [] <==> NoneQueued(steps, d, k)
  {
    if k == d + 1 {
      assert states[k] == Next(states[d], Dry);
    } else {
      QueueSinceDry(states, steps, d, k - 1);
      assert states[k] == Next(states[k - 1], steps[k - 1]);
    }
  }

  /** At the moment when flush returns from its wait: the drained flag is up if and only if the thread has taken no
      frame since its last signal; the thread works on a frame if and only if it has taken one since and not finished
      it; and the flag is up and the queue is empty if and only if nothing has been queued since. */
  lemma FlushReturnsTo(states: seq<State>, steps: seq<Step>, d: nat, k: nat)
    requires IsRun(states, steps) && k < |steps| && LastDry(steps, d, k) && steps[k] == Wake
    ensures states[k + 1].flusher.Returned?
    ensures states[k + 1].drained <==> NoneTaken(steps, d, k)
    ensures states[k + 1].thread.Working? <==> InHand(steps, d, k)
    ensures states[k + 1].drained && states[k + 1].queue == [] <==> NoneQueued(steps, d, k)
  {
    SinceDry(states, steps, d, k);
    forall m | d < m < k
      ensures steps[m] != Clear
    {
      SignalledSince(states, steps, d, m, k);
      assert Enabled(states[m], steps[m]);
    }
    QueueSinceDry(states, steps, d, k);
  }

  /** A flush that finds the flag up returns at once, and then no frame is being processed. */
  lemma FlushReturnsAtOnce(states: seq<State>, steps: seq<Step>, k: nat)
    requires IsRun(states, steps) && k < |steps| && steps[k] == Look
    ensures states[k + 1].flusher.Returned? <==> states[k].drained
    ensures states[k + 1].flusher.Returned? ==> !states[k + 1].thread.Working?
  {
    RunOk(states, steps, k);
  }

  /** The wait is for one signal, not for the flag: a frame that is queued between the signal and the return can be in
      work when flush returns. */
  lemma ReturnedIsNotDrained()
    ensures exists states: seq<State>, steps: seq<Step>, k: nat ::
              IsRun(states, steps) && k < |steps| && steps[k] == Wake && states[k + 1].thread.Working?
  {
    var f := Frame(1, 1);
    var s1 := Next(Start(), Clear);
    var s2 := Next(s1, Look);
    var s3 := Next(s2, Dry);
    var s4 := Next(s3, Queue(f));
    assert s4.queue == [f] && s4.flusher.Signalled? && s4.thread.Asleep? && !s4.exit;
    var states, steps := OneMore([Start()], [], Clear, s1);
    states, steps := OneMore(states, steps, Look, s2);
    states, steps := OneMore(states, steps, Dry, s3);
    states, steps := OneMore(states, steps, Queue(f), s4);
    var s5 := Next(s4, Take);
    states, steps := OneMore(states, steps, Take, s5);
    states, steps := OneMore(states, steps, Wake, Next(s5, Wake));
    assert steps[5] == Wake && states[6].thread.Working?;
  }

  /** A run goes on with one more step. */
  lemma OneMore(before: seq<State>, taken: seq<Step>, step: Step, s: State) returns (states: seq<State>, steps: seq<Step>)
    requires IsRun(before, taken) && Enabled(before[|taken|], step) && s == Next(before[|taken|], step)
    ensures IsRun(states, steps) && |steps| == |taken| + 1 && steps[|taken|] == step && states[|steps|] == s
    ensures states == before + [s] && steps == taken + [step]
  {
    states, steps := before + [s], taken + [step];
  }

  // ---------------------------------------------------------------- whether a flush is signalled

  /** From `s` the system can go on so that the waiting flush gets its signal. */
  ghost predicate CanBeSignalled(s: State) {
    exists states: seq<State>, steps: seq<Step> :: GoesOn(s, states, steps) && states[|steps|].flusher.Signalled?
  }

  predicate OfThread(step: Step) {
    step.Finish? || step.Take? || step.Dry?
  }

  /** What the thread has to do until it runs dry, the last look included. */
  function ThreadWork(s: State): nat {
    2 * |s.queue| + (if s.thread.Working? then 2 else 1)
  }

  /** The thread step that is possible while a flush waits and nobody has asked the thread to exit. */
  lemma WaitMovesOn(s: State) returns (step: Step)
    requires Ok(s) && s.flusher.WaitingForSignal? && !s.exit
    ensures Enabled(s, step) && OfThread(step) && !Next(s, step).exit && Ok(Next(s, step))
    ensures if step.Dry? then Next(s, step).flusher.Signalled?
            else Next(s, step).flusher.WaitingForSignal? && ThreadWork(Next(s, step)) == ThreadWork(s) - 1
  {
    step := if s.thread.Working? then Finish else if s.queue != [] then Take else Dry;
    NextOk(s, step);
  }

  lemma OneBefore(s: State, step: Step, states: seq<State>, steps: seq<Step>)
    requires Enabled(s, step) && GoesOn(Next(s, step), states, steps)
    ensures GoesOn(s, [s] + states, [step] + steps) && ([s] + states)[|steps| + 1] == states[|steps|]
    ensures forall k | 0 <= k <= |steps| :: ([step] + steps)[k] == if k == 0 then step else steps[k - 1]
  {
    var more, taken := [s] + states, [step] + steps;
    forall k | 0 <= k < |taken|
      ensures Enabled(more[k], taken[k]) && more[k + 1] == Next(more[k], taken[k])
    {
      if k > 0 {
        assert more[k] == states[k - 1] && taken[k] == steps[k - 1] && more[k + 1] == states[k];
      }
    }
  }

  /** The thread alone signals the flush, after as many steps as it has work. */
  lemma {:induction false} ThreadSignals(s: State) returns (states: seq<State>, steps: seq<Step>)
    requires Ok(s) && s.flusher.WaitingForSignal? && !s.exit
    ensures GoesOn(s, states, steps) && |steps| == ThreadWork(s) && states[|steps|].flusher.Signalled?
    ensures forall k | 0 <= k < |steps| :: OfThread(steps[k])
    decreases ThreadWork(s)
  {
    var step := WaitMovesOn(s);
    states, steps := [Next(s, step)], [];
    if !step.Dry? {
      states, steps := ThreadSignals(Next(s, step));
    }
    OneBefore(s, step, states, steps);
    states, steps := [s] + states, [step] + steps;
  }

  predicate Lost(s: State) {
    s.exit && s.flusher.WaitingForSignal?
  }

  lemma {:induction false} LostStaysLost(s: State, states: seq<State>, steps: seq<Step>, k: nat)
    requires Lost(s) && GoesOn(s, states, steps) && k <= |steps|
    ensures Lost(states[k])
  {
    if k > 0 {
      LostStaysLost(s, states, steps, k - 1);
    }
  }

  /** In every run a flush that waits can still get its signal if and only if nobody has asked the thread to exit; then
      the thread gets there on its own. Otherwise the flush waits for ever, whatever happens next. */
  lemma SignalledUnlessExit(states: seq<State>, steps: seq<Step>, k: nat)
    requires IsRun(states, steps) && k <= |steps| && states[k].flusher.WaitingForSignal?
    ensures CanBeSignalled(states[k]) <==> !states[k].exit
    ensures !states[k].exit ==> exists after: seq<State>, taken: seq<Step> ::
              && GoesOn(states[k], after, taken) && |taken| == ThreadWork(states[k])
              && (forall j | 0 <= j < |taken| :: OfThread(taken[j])) && after[|taken|].flusher.Signalled?
    ensures states[k].exit ==> forall l | k <= l <= |steps| :: states[l].flusher.WaitingForSignal?
  {
    if states[k].exit {
      forall after: seq<State>, taken: seq<Step> | GoesOn(states[k], after, taken)
        ensures after[|taken|].flusher.WaitingForSignal?
      {
        LostStaysLost(states[k], after, taken, |taken|);
      }
      forall l | k <= l <= |steps|
        ensures states[l].flusher.WaitingForSignal?
      {
        LostStaysLost(states[k], states[k..], steps[k..], l - k);
      }
    } else {
      RunOk(states, steps, k);
      var after, taken := ThreadSignals(states[k]);
      assert GoesOn(states[k], after, taken) && after[|taken|].flusher.Signalled?;
    }
  }

  /** Three runs that lose a flush: the exit is asked for before it, while it waits, or so early that the thread has
      left. */
  lemma ExitBeforeFlush()
    ensures exists states: seq<State> :: IsRun(states, [Exit, Clear, Look]) && Lost(states[3])
  {
    var a := Next(Start(), Exit);
    var b := Next(a, Clear);
    var states, steps := OneMore([Start()], [], Exit, a);
    states, steps := OneMore(states, steps, Clear, b);
    states, steps := OneMore(states, steps, Look, Next(b, Look));
    assert steps == [Exit, Clear, Look] && Lost(states[3]);
  }

  lemma ExitDuringFlush()
    ensures exists states: seq<State> ::
              IsRun(states, [Clear, Look, Exit]) && !states[2].exit && Lost(states[3]) && states[3].thread.Asking?
  {
    var a := Next(Start(), Clear);
    var b := Next(a, Look);
    var states, steps := OneMore([Start()], [], Clear, a);
    states, steps := OneMore(states, steps, Look, b);
    states, steps := OneMore(states, steps, Exit, Next(b, Exit));
    assert steps == [Clear, Look, Exit] && Lost(states[3]) && !states[2].exit;
  }

  lemma LeftBeforeFlush()
    ensures exists states: seq<State> ::
              IsRun(states, [Exit, Leave, Clear, Look]) && Lost(states[4]) && states[4].thread.Left?
  {
    var a := Next(Start(), Exit);
    var b := Next(a, Leave);
    var c := Next(b, Clear);
    var states, steps := OneMore([Start()], [], Exit, a);
    states, steps := OneMore(states, steps, Leave, b);
    states, steps := OneMore(states, steps, Clear, c);
    states, steps := OneMore(states, steps, Look, Next(c, Look));
    assert steps == [Exit, Leave, Clear, Look] && Lost(states[4]);
  }

  /** Once the thread has left, it stays so, and a flush that waits for its signal waits for ever. */
  lemma {:induction false} NobodySignals(states: seq<State>, steps: seq<Step>, k: nat, l: nat)
    requires IsRun(states, steps) && k <= l <= |steps|
    requires states[k].thread.Left? && states[k].flusher.WaitingForSignal?
    ensures states[l].thread.Left? && states[l].flusher.WaitingForSignal?
  {
    if k < l {
      NobodySignals(states, steps, k, l - 1);
    }
  }

  // ---------------------------------------------------------------- the object

  class RAW16Node {
    var requestQueue: seq<Frame>
    var requestDrained: bool
    var requestExit: bool

    constructor ()
      ensures requestQueue == [] && !requestDrained && !requestExit
    {
      requestQueue, requestDrained, requestExit := [], false, false;
    }

    /** queue: the loop that goes back from the end to the place. */
    method Queue(f: Frame)
      modifies `requestQueue
      ensures requestQueue == Insert(old(requestQueue), f)
    {
      var it := |requestQueue|;
      var placed := false;
      assert requestQueue[..it] == requestQueue;
      while it != 0 && !placed
        invariant 0 <= it <= |requestQueue|
        invariant Place(requestQueue, f) == if placed then it else Place(requestQueue[..it], f)
        decreases !placed, it
      {
        assert requestQueue[..it][..it - 1] == requestQueue[..it - 1];
        it := it - 1;
        if NotBefore(f.no, requestQueue[it].no) {
          it := it + 1;
          placed := true;
        }
      }
      requestQueue := requestQueue[..it] + [f] + requestQueue[it..];
    }

    /** One look of onDequeRequest at the queue: a frame, nothing yet, or the end. */
    method TryDeque() returns (frame: Option<Frame>, dead: bool)
      modifies `requestQueue, `requestDrained
      ensures dead == requestExit
      ensures requestExit ==> frame == None && requestQueue == old(requestQueue) && requestDrained == old(requestDrained)
      ensures !requestExit && old(requestQueue) == [] ==> frame == None && requestQueue == [] && requestDrained
      ensures !requestExit && old(requestQueue) != [] ==>
                frame == Some(old(requestQueue)[0]) && requestQueue == old(requestQueue)[1..] && !requestDrained
    {
      if requestQueue == [] && !requestExit {
        requestDrained := true;
        return None, false;
      }
      if requestExit {
        return None, true;
      }
      requestDrained := false;
      frame, dead := Some(requestQueue[0]), false;
      requestQueue := requestQueue[1..];
    }

    /** The loop of flush() that hands every queued frame to BaseNode::flush. */
    method ClearRequests() returns (flushed: seq<Frame>)
      modifies `requestQueue
      ensures flushed == old(requestQueue) && requestQueue == []
    {
      flushed := [];
      while requestQueue != []
        invariant flushed + requestQueue == old(requestQueue)
        decreases |requestQueue|
      {
        flushed := flushed + [requestQueue[0]];
        requestQueue := requestQueue[1..];
      }
    }
  }
}
