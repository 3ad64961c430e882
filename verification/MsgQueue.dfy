/** The blocking queue of the threaded server as a monitor: every critical section, wait, wake-up and
    notification is a step, and the steps of one consumer and any number of producers interleave freely. */
module MsgQueue {
  import opened Wrappers
  import opened Sequences

  datatype Who = Consumer | Producer(id: nat)

  /** Where `pop` is: outside, waiting for the mutex, testing the predicate, past the test, asleep in the
      condition variable, or woken and waiting for the mutex again. */
  datatype Popping = Outside | Wanting | Testing | Taking | Asleep | Woken

  /** Where a `push` is; `Owing` is after the mutex was released and before `notify_one`. */
  datatype Pushing<T> = Resting | Holding(x: T) | Locked(x: T) | Owing

  datatype Monitor<T> = Monitor(queue: seq<T>, lock: Option<Who>, consumer: Popping,
                                producers: map<nat, Pushing<T>>, pushed: seq<T>, popped: seq<T>)

  datatype Action<T> =
    | Call | Lock | Test | Take | SpuriousWake
    | Bring(id: nat, x: T) | ProducerLock(id: nat) | Put(id: nat) | Notify(id: nat)

  predicate Start<T(==)>(m: Monitor<T>) {
    && m.queue == [] && m.pushed == [] && m.popped == [] && m.lock == None && m.consumer == Outside
    && forall i | i in m.producers :: m.producers[i] == Resting
  }

  predicate Enabled<T(==)>(m: Monitor<T>, a: Action<T>) {
    match a
    case Call => m.consumer == Outside
    case Lock => (m.consumer == Wanting || m.consumer == Woken) && m.lock == None
    case Test => m.consumer == Testing
    case Take => m.consumer == Taking
    case SpuriousWake => m.consumer == Asleep
    case Bring(i, _) => i in m.producers && m.producers[i] == Resting
    case ProducerLock(i) => i in m.producers && m.producers[i].Holding? && m.lock == None
    case Put(i) => i in m.producers && m.producers[i].Locked?
    case Notify(i) => i in m.producers && m.producers[i] == Owing
  }

  /** `Take` on an empty queue would be undefined behaviour; here it leaves the queue alone. */
  function Next<T(==)>(m: Monitor<T>, a: Action<T>): Monitor<T>
    requires Enabled(m, a)
  {
    match a
    case Call => m.(consumer := Wanting)
    case Lock => m.(consumer := Testing, lock := Some(Consumer))
    case Test =>
      if m.queue != [] then m.(consumer := Taking)
      else m.(consumer := Asleep, lock := None)
    case Take =>
      if m.queue == [] then m
      else m.(consumer := Outside, lock := None, queue := m.queue[1..], popped := m.popped + [m.queue[0]])
    case SpuriousWake => m.(consumer := Woken)
    case Bring(i, x) => m.(producers := m.producers[i := Holding(x)])
    case ProducerLock(i) =>
      m.(producers := m.producers[i := Locked(m.producers[i].x)], lock := Some(Producer(i)))
    case Put(i) =>
      m.(producers := m.producers[i := Owing], lock := None,
         queue := m.queue + [m.producers[i].x], pushed := m.pushed + [m.producers[i].x])
    case Notify(i) =>
      m.(producers := m.producers[i := Resting], consumer := if m.consumer == Asleep then Woken else m.consumer)
  }

  predicate Run<T(==)>(ms: seq<Monitor<T>>, acts: seq<Action<T>>) {
    && |ms| == |acts| + 1 && Start(ms[0])
    && forall i | 0 <= i < |acts| :: Enabled(ms[i], acts[i]) && ms[i + 1] == Next(ms[i], acts[i])
  }

  predicate Owed<T(==)>(m: Monitor<T>) {
    exists i | i in m.producers :: m.producers[i] == Owing
  }

  /** Mutual exclusion, first in first out, no take from an empty queue, no lost wake-up. */
  ghost predicate Inv<T>(m: Monitor<T>) {
    && (m.lock == Some(Consumer) <==> m.consumer == Testing || m.consumer == Taking)
    && (forall i | i in m.producers :: m.lock == Some(Producer(i)) <==> m.producers[i].Locked?)
    && m.popped + m.queue == m.pushed
    && (m.consumer == Taking ==> m.queue != [])
    && (m.consumer == Asleep && m.queue != [] ==> Owed(m))
  }

  lemma NextKeeps<T>(m: Monitor<T>, a: Action<T>)
    requires Inv(m) && Enabled(m, a)
    ensures Inv(Next(m, a))
  {
    var m' := Next(m, a);
    match a {
      case Take =>
        Associative(m.popped, [m.queue[0]], m.queue[1..]);
        SplitAt(m.queue, 1);
        assert m.queue[..1] == [m.queue[0]];
      case Put(i) =>
        Associative(m.popped, m.queue, [m.producers[i].x]);
        assert m'.producers[i] == Owing;
      case Notify(i) =>
      case Bring(i, x) =>
        OwedStays(m, m', i);
      case ProducerLock(i) =>
        OwedStays(m, m', i);
      case _ =>
    }
  }

  lemma OwedStays<T>(m: Monitor<T>, m': Monitor<T>, i: nat)
    requires i in m.producers && m.producers[i] != Owing
    requires m'.producers.Keys == m.producers.Keys
    requires forall j | j in m.producers && j != i :: m'.producers[j] == m.producers[j]
    ensures Owed(m) ==> Owed(m')
  {
    if Owed(m) {
      var j :| j in m.producers && m.producers[j] == Owing;
      assert m'.producers[j] == Owing;
    }
  }

  /** In every reachable state of every interleaving. */
  lemma {:induction false} RunKeeps<T>(ms: seq<Monitor<T>>, acts: seq<Action<T>>, n: nat)
    requires Run(ms, acts) && n < |ms|
    ensures Inv(ms[n])
  {
    if n > 0 {
      RunKeeps(ms, acts, n - 1);
      NextKeeps(ms[n - 1], acts[n - 1]);
    }
  }

  /** The notification may follow the unlock because nobody can go to sleep in between: when the consumer
      sleeps beside a non-empty queue, the notification that will wake it can be given at once, and after it
      the consumer takes the front of the queue as soon as it gets the mutex. */
  lemma SleeperIsServed<T>(ms: seq<Monitor<T>>, acts: seq<Action<T>>, n: nat) returns (i: nat)
    requires Run(ms, acts) && n < |ms| && ms[n].consumer == Asleep && ms[n].queue != []
    ensures Enabled(ms[n], Notify(i))
    ensures ms[n].lock == None ==>
              var m1 := Next(ms[n], Notify(i));
              && Enabled(m1, Lock) && Enabled(Next(m1, Lock), Test)
              && Enabled(Next(Next(m1, Lock), Test), Take)
              && Next(Next(Next(m1, Lock), Test), Take).popped == ms[n].popped + [ms[n].queue[0]]
  {
    RunKeeps(ms, acts, n);
    var m := ms[n];
    i :| i in m.producers && m.producers[i] == Owing;
  }

  // ----- the critical sections on the queue itself

  /** `queue` is the real container; `m` says where every thread is. */
  class Queue<T(==)> {
    var queue: seq<T>
    ghost var m: Monitor<T>

    ghost predicate Valid()
      reads this
    {
      Inv(m) && m.queue == queue
    }

    /** With the given threads ready to push. */
    constructor (producers: set<nat>)
      ensures Valid() && Start(m) && m.producers.Keys == producers
    {
      queue := [];
      m := Monitor([], None, Outside, map i | i in producers :: Resting, [], []);
    }

    /** `push` with the mutex held. */
    method Push(id: nat, x: T)
      requires Valid() && id in m.producers && m.producers[id] == Locked(x)
      modifies this
      ensures Valid() && m == Next(old(m), Put(id)) && queue == old(queue) + [x]
    {
      NextKeeps(m, Put(id));
      queue := queue + [x];
      m := Next(m, Put(id));
    }

    /** The predicate of the condition variable. */
    method Ready() returns (ready: bool)
      requires Valid() && m.consumer == Testing
      modifies `m
      ensures Valid() && m == Next(old(m), Test)
      ensures ready <==> m.consumer == Taking
    {
      NextKeeps(m, Test);
      ready := |queue| > 0;
      m := Next(m, Test);
    }

    /** The rest of `pop`: there is an element to take. */
    method Pop() returns (x: T)
      requires Valid() && m.consumer == Taking
      modifies this
      ensures Valid() && m == Next(old(m), Take) && old(queue) == [x] + queue && m.popped == old(m.popped) + [x]
    {
      NextKeeps(m, Take);
      x := queue[0];
      assert queue == [x] + queue[1..];
      queue := queue[1..];
      m := Next(m, Take);
    }
  }
}
