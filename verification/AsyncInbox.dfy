/** The async queue between a producer and the one consumer that iterates it. */
module AsyncInbox {

  /** Where the consumer is: at the top of its loop or paused at a yield, waiting on a promise, or returned. */
  datatype Consumer = Ready | Waiting(woken: bool) | Returned

  datatype State<T> = State(queue: seq<T>, closed: bool, consumer: Consumer, pushed: seq<T>, yielded: seq<T>)

  datatype Event<T> = Push(x: T) | Close | Turn

  /** Calling the stored resolver: only a pending wait notices. */
  function Wake(c: Consumer): Consumer {
    if c.Waiting? then Waiting(true) else c
  }

  /** One turn of the consumer: it runs until it yields, returns or waits. */
  function TakeTurn<T>(s: State<T>): State<T> {
    if s.consumer.Returned? || s.consumer == Waiting(false) then s
    else if s.queue != [] then
      s.(queue := s.queue[1..], consumer := Ready, yielded := s.yielded + [s.queue[0]])
    else if s.closed then s.(consumer := Returned)
    else s.(consumer := Waiting(false))
  }

  function Step<T>(s: State<T>, e: Event<T>): State<T> {
    match e
    case Push(x) => s.(queue := s.queue + [x], pushed := s.pushed + [x], consumer := Wake(s.consumer))
    case Close => s.(closed := true, consumer := Wake(s.consumer))
    case Turn => TakeTurn(s)
  }

  function Run<T>(s: State<T>, run: seq<Event<T>>): State<T>
    decreases |run|
  {
    if run == [] then s else Run(Step(s, run[0]), run[1..])
  }

  function Initial<T>(): State<T> {
    State([], false, Ready, [], [])
  }

  /** Nothing is lost, reordered or invented; a wait that nobody has ended means there is nothing to do. */
  ghost predicate Inv<T>(s: State<T>) {
    && s.yielded + s.queue == s.pushed
    && (s.consumer == Waiting(false) ==> s.queue == [] && !s.closed)
    && (s.consumer.Returned? ==> s.closed)
  }

  lemma StepKeeps<T>(s: State<T>, e: Event<T>)
    requires Inv(s)
    ensures Inv(Step(s, e))
    ensures Step(s, e).consumer.Returned? && !s.consumer.Returned? ==>
              s.closed && s.queue == [] && s.yielded == s.pushed
  {
    match e
    case Push(x) => assert s.yielded + (s.queue + [x]) == (s.yielded + s.queue) + [x];
    case Close =>
    case Turn =>
      if s.queue != [] {
        assert s.yielded + [s.queue[0]] + s.queue[1..] == s.yielded + s.queue;
      }
  }

  /** In every interleaving of pushes, close and the consumer. */
  lemma {:induction false} RunKeeps<T>(s: State<T>, run: seq<Event<T>>)
    requires Inv(s)
    ensures Inv(Run(s, run))
    decreases |run|
  {
    hide Inv;
    if run != [] {
      StepKeeps(s, run[0]);
      RunKeeps(Step(s, run[0]), run[1..]);
    }
  }

  function Turns<T>(n: nat): seq<Event<T>> {
    if n == 0 then [] else [Turn] + Turns(n - 1)
  }

  /** No wakeup is lost: once closed, as many turns as there are messages, and one more, drain and end it. */
  lemma {:induction false} ClosedDrains<T>(s: State<T>)
    requires Inv(s) && s.closed && !s.consumer.Returned?
    ensures var t := Run(s, Turns(|s.queue| + 1));
            t.consumer.Returned? && t.queue == [] && t.yielded == s.pushed
    decreases |s.queue|
  {
    var t := TakeTurn(s);
    StepKeeps(s, Turn);
    assert Turns<T>(|s.queue| + 1)[1..] == Turns(|s.queue|);
    if s.queue == [] {
      assert Turns<T>(0) == [];
    } else {
      ClosedDrains(t);
    }
  }

  /** A message pushed to a consumer that has not returned is yielded after the ones before it. */
  lemma PushedIsYielded<T>(run: seq<Event<T>>, x: T)
    requires !Run(Initial(), run).consumer.Returned?
    ensures var s := Step(Run(Initial(), run), Push(x));
            && s.pushed == Run(Initial(), run).pushed + [x]
            && Run(s, Turns(|s.queue|)).yielded == Run(Initial(), run).pushed + [x]
  {
    RunKeeps(Initial(), run);
    var s := Run(Initial(), run);
    StepKeeps(s, Push(x));
    Yields(Step(s, Push(x)));
  }

  lemma {:induction false} Yields<T>(s: State<T>)
    requires Inv(s) && !s.consumer.Returned? && s.consumer != Waiting(false)
    ensures Run(s, Turns(|s.queue|)).yielded == s.pushed
    decreases |s.queue|
  {
    if s.queue != [] {
      assert Turns<T>(|s.queue|)[1..] == Turns(|s.queue| - 1);
      StepKeeps(s, Turn);
      Yields(TakeTurn(s));
    }
  }

  /** With nothing to yield and the queue open the consumer waits, its turns do nothing, and a push or the close wakes
      it. */
  lemma ConsumerWaits<T>(s: State<T>, x: T)
    requires s.queue == [] && !s.closed && !s.consumer.Returned?
    ensures var t := Step(s, Turn);
            && t == s.(consumer := Waiting(false)) && Step(t, Turn) == t
            && Step(t, Push(x)).consumer == Waiting(true) && Step(t, Close).consumer == Waiting(true)
  {}

  class Inbox<T> {
    var queue: seq<T>
    var closed: bool
    var consumer: Consumer
    ghost var pushed: seq<T>
    ghost var yielded: seq<T>

    ghost function View(): State<T>
      reads this
    {
      State(queue, closed, consumer, pushed, yielded)
    }

    constructor ()
      ensures View() == Initial()
    {
      queue, closed, consumer, pushed, yielded := [], false, Ready, [], [];
    }

    method PushMessage(x: T)
      modifies this
      ensures View() == Step(old(View()), Push(x))
    {
      queue := queue + [x];
      pushed := pushed + [x];
      consumer := Wake(consumer);
    }

    method CloseInbox()
      modifies this
      ensures View() == Step(old(View()), Close)
    {
      closed := true;
      consumer := Wake(consumer);
    }

    /** The generator's loop, up to its next yield, return or wait. */
    method Next()
      requires !consumer.Returned? && consumer != Waiting(false)
      modifies this
      ensures View() == Step(old(View()), Turn)
    {
      if |queue| > 0 {
        yielded := yielded + [queue[0]];
        queue := queue[1..];
        consumer := Ready;
      } else if closed {
        consumer := Returned;
      } else {
        consumer := Waiting(false);
      }
    }
  }
}
