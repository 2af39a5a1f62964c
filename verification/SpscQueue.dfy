/** The lock-free single-producer single-consumer ring. Every load, check, buffer access
    and store of either thread is a step of its own, and any interleaving of the two
    threads' steps is a run. */
module SpscQueues {

  // ------------------------------------------------------------ the protocol

  /** Where the producer stands in a `push`, with its local variables. */
  datatype Producer<T> =
    | Away                           // no push in progress
    | HasTail(item: T, at: nat)      // tail loaded
    | MayWrite(item: T, at: nat)     // head loaded, not full
    | HasWritten(item: T, at: nat)   // item stored in the buffer

  /** Where the consumer stands in a `pop`, with its local variables. */
  datatype Consumer<T> =
    | Idle                           // no pop in progress
    | HasHead(from: nat)             // head loaded
    | MayRead(from: nat)             // tail loaded, not empty
    | HasRead(from: nat, item: T)    // item copied out of the buffer

  /** The outcome of a call, noted at the step where the call takes effect. */
  datatype Event<T> = Pushed(item: T) | Full | Popped(item: T) | Empty

  datatype Ring<T> = Ring(
    buffer: seq<T>,
    tail: nat,
    head: nat,
    producer: Producer<T>,
    consumer: Consumer<T>,
    history: seq<Event<T>>)
  {
    function Capacity(): nat {
      |buffer|
    }
  }

  datatype Step<T> =
    | LoadTail(item: T) | CheckFull | WriteSlot | StoreTail
    | LoadHead | CheckEmpty | ReadSlot | StoreHead

  function Start<T>(buffer: seq<T>): Ring<T> {
    Ring(buffer, 0, 0, Away, Idle, [])
  }

  predicate Enabled<T>(r: Ring<T>, step: Step<T>) {
    match step
    case LoadTail(_) => r.producer.Away?
    case CheckFull => r.producer.HasTail?
    case WriteSlot => r.producer.MayWrite? && r.producer.at < r.Capacity()
    case StoreTail => r.producer.HasWritten?
    case LoadHead => r.consumer.Idle?
    case CheckEmpty => r.consumer.HasHead?
    case ReadSlot => r.consumer.MayRead? && r.consumer.from < r.Capacity()
    case StoreHead => r.consumer.HasRead?
  }

  function Next<T>(r: Ring<T>, step: Step<T>): Ring<T>
    requires 0 < r.Capacity() && Enabled(r, step)
  {
    match step
    case LoadTail(item) =>
      r.(producer := HasTail(item, r.tail))
    case CheckFull =>
      if (r.producer.at + 1) % r.Capacity() == r.head
      then r.(producer := Away, history := r.history + [Full])
      else r.(producer := MayWrite(r.producer.item, r.producer.at))
    case WriteSlot =>
      r.(buffer := r.buffer[r.producer.at := r.producer.item],
         producer := HasWritten(r.producer.item, r.producer.at))
    case StoreTail =>
      r.(tail := (r.producer.at + 1) % r.Capacity(), producer := Away,
         history := r.history + [Pushed(r.producer.item)])
    case LoadHead =>
      r.(consumer := HasHead(r.head))
    case CheckEmpty =>
      if r.consumer.from == r.tail
      then r.(consumer := Idle, history := r.history + [Empty])
      else r.(consumer := MayRead(r.consumer.from))
    case ReadSlot =>
      r.(consumer := HasRead(r.consumer.from, r.buffer[r.consumer.from]))
    case StoreHead =>
      r.(head := (r.consumer.from + 1) % r.Capacity(), consumer := Idle,
         history := r.history + [Popped(r.consumer.item)])
  }

  /** `r'` is reached from `r` by some interleaving of steps. */
  ghost predicate Reaches<T>(r: Ring<T>, steps: seq<Step<T>>, r': Ring<T>)
    decreases |steps|
  {
    if steps == [] then r' == r
    else 0 < r.Capacity() && Enabled(r, steps[0]) && Reaches(Next(r, steps[0]), steps[1..], r')
  }

  // ------------------------------------------------------------ what the queue is meant to be

  /** Items pushed, and items popped, in order. */
  function Ins<T>(h: seq<Event<T>>): seq<T> {
    if h == [] then []
    else Ins(h[..|h| - 1]) + if h[|h| - 1].Pushed? then [h[|h| - 1].item] else []
  }

  function Outs<T>(h: seq<Event<T>>): seq<T> {
    if h == [] then []
    else Outs(h[..|h| - 1]) + if h[|h| - 1].Popped? then [h[|h| - 1].item] else []
  }

  /** Content of a first-in first-out queue after a history of calls. */
  function Content<T>(h: seq<Event<T>>): seq<T> {
    if h == [] then []
    else
      var q := Content(h[..|h| - 1]);
      match h[|h| - 1]
      case Pushed(item) => q + [item]
      case Popped(_) => if q == [] then [] else q[1..]
      case _ => q
  }

  /** May a queue of at most `bound` items holding `q` answer a call with `e`? */
  predicate Answers<T(==)>(q: seq<T>, e: Event<T>, bound: nat) {
    match e
    case Pushed(_) => |q| < bound
    case Full => |q| == bound
    case Popped(item) => q != [] && q[0] == item
    case Empty => q == []
  }

  /** Could a queue of at most `bound` items have answered these calls this way, one after another? */
  predicate Sequential<T(==)>(h: seq<Event<T>>, bound: nat) {
    h == [] ||
    (var q := Content(h[..|h| - 1]);
     Sequential(h[..|h| - 1], bound) && Answers(q, h[|h| - 1], bound))
  }

  // ------------------------------------------------------------ invariant

  /** The unread slots, from head to tail around the ring, hold the queue's content. */
  ghost predicate Stored<T>(buffer: seq<T>, head: nat, tail: nat, q: seq<T>) {
    && 0 < |buffer|
    && head < |buffer|
    && |q| < |buffer|
    && tail == (head + |q|) % |buffer|
    && (forall i :: 0 <= i < |q| ==> buffer[(head + i) % |buffer|] == q[i])
  }

  ghost predicate ProducerInv<T>(r: Ring<T>, q: seq<T>) {
    match r.producer
    case Away => true
    case HasTail(_, at) => at == r.tail
    case MayWrite(_, at) => at == r.tail && |q| + 1 < r.Capacity()
    case HasWritten(item, at) => at == r.tail && |q| + 1 < r.Capacity() && r.tail < r.Capacity() && r.buffer[at] == item
  }

  ghost predicate ConsumerInv<T>(r: Ring<T>, q: seq<T>) {
    match r.consumer
    case Idle => true
    case HasHead(from) => from == r.head
    case MayRead(from) => from == r.head && q != []
    case HasRead(from, item) => from == r.head && q != [] && item == q[0]
  }

  ghost predicate Inv<T>(r: Ring<T>) {
    && 0 < r.Capacity()
    && Stored(r.buffer, r.head, r.tail, Content(r.history))
    && ProducerInv(r, Content(r.history))
    && ConsumerInv(r, Content(r.history))
    && Sequential(r.history, r.Capacity() - 1)
    && Ins(r.history) == Outs(r.history) + Content(r.history)
  }

  /** Indices never get further than one lap ahead. */
  lemma Wrap(n: nat, x: nat)
    requires x < 2 * n
    ensures x % n == if x < n then x else x - n
  {
    if x >= n {
      assert x == (x - n) + n;
    }
  }

  lemma Wraps(n: nat)
    ensures forall x: nat {:trigger x % n} :: x < 2 * n ==> x % n == if x < n then x else x - n
  {
    forall x: nat | x < 2 * n ensures x % n == if x < n then x else x - n {
      Wrap(n, x);
    }
  }

  lemma Append<T>(h: seq<Event<T>>, e: Event<T>, bound: nat)
    ensures Content(h + [e]) == match e
                                case Pushed(item) => Content(h) + [item]
                                case Popped(_) => if Content(h) == [] then [] else Content(h)[1..]
                                case _ => Content(h)
    ensures Ins(h + [e]) == Ins(h) + if e.Pushed? then [e.item] else []
    ensures Outs(h + [e]) == Outs(h) + if e.Popped? then [e.item] else []
    ensures Sequential(h + [e], bound) <==> Sequential(h, bound) && Answers(Content(h), e, bound)
  {
    assert (h + [e])[..|h + [e]| - 1] == h;
  }

  /** Items in stay items out plus items held. */
  lemma BalanceKept<T>(h: seq<Event<T>>, e: Event<T>, bound: nat)
    requires Ins(h) == Outs(h) + Content(h) && Answers(Content(h), e, bound)
    ensures Ins(h + [e]) == Outs(h + [e]) + Content(h + [e])
  {
    Append(h, e, bound);
    hide Ins, Outs, Content;
    if e.Popped? {
      assert Content(h) == [e.item] + Content(h)[1..];
    }
  }

  lemma StartInv<T>(buffer: seq<T>)
    requires 0 < |buffer|
    ensures Inv(Start(buffer))
  {
    Wraps(|buffer|);
  }

  /** The item stored at the tail becomes the last of the queue once the tail moves on. */
  lemma {:induction false} StoredTail<T>(buffer: seq<T>, head: nat, tail: nat, q: seq<T>, item: T)
    requires Stored(buffer, head, tail, q) && |q| + 1 < |buffer| && tail < |buffer| && buffer[tail] == item
    ensures Stored(buffer, head, (tail + 1) % |buffer|, q + [item])
  {
    Wraps(|buffer|);
  }

  /** Moving the head on drops the first item. */
  lemma {:induction false} StoredHead<T>(buffer: seq<T>, head: nat, tail: nat, q: seq<T>)
    requires Stored(buffer, head, tail, q) && q != []
    ensures Stored(buffer, (head + 1) % |buffer|, tail, q[1..])
  {
    Wraps(|buffer|);
  }

  /** Writing at the tail leaves every unread item as it is. */
  lemma {:induction false} StoredWrite<T>(buffer: seq<T>, head: nat, tail: nat, q: seq<T>, item: T)
    requires Stored(buffer, head, tail, q)
    ensures tail < |buffer| && Stored(buffer[tail := item], head, tail, q)
  {
    Wraps(|buffer|);
  }

  /** The first item is read at the head. */
  lemma StoredFront<T>(buffer: seq<T>, head: nat, tail: nat, q: seq<T>)
    requires Stored(buffer, head, tail, q) && q != []
    ensures head < |buffer| && buffer[head] == q[0]
  {
    Wraps(|buffer|);
    assert buffer[(head + 0) % |buffer|] == q[0];
  }

  /** "Full" is seen exactly when the queue holds one item less than there are slots,
      "empty" exactly when it holds none. */
  lemma FullMeansFull<T>(buffer: seq<T>, head: nat, tail: nat, q: seq<T>)
    requires Stored(buffer, head, tail, q)
    ensures (tail + 1) % |buffer| == head <==> |q| == |buffer| - 1
    ensures tail == head <==> q == []
    ensures |q| < |buffer|
  {
    Wraps(|buffer|);
  }

  /** A step that takes effect with answer `e` keeps the history right. */
  lemma HistoryKept<T>(r: Ring<T>, e: Event<T>)
    requires Inv(r) && Answers(Content(r.history), e, r.Capacity() - 1)
    ensures var h := r.history + [e];
            Sequential(h, r.Capacity() - 1) && Ins(h) == Outs(h) + Content(h)
  {
    Append(r.history, e, r.Capacity() - 1);
    BalanceKept(r.history, e, r.Capacity() - 1);
  }

  lemma LoadTailKeepsInv<T>(r: Ring<T>, item: T)
    requires Inv(r) && r.producer.Away?
    ensures Inv(Next(r, LoadTail(item)))
  {
    hide Content, Sequential, Ins, Outs, Stored;
  }

  lemma {:induction false} CheckFullKeepsInv<T>(r: Ring<T>)
    requires Inv(r) && Enabled(r, CheckFull)
    ensures Inv(Next(r, CheckFull))
  {
    hide Content, Sequential, Ins, Outs, Stored;
    Append(r.history, Full, r.Capacity() - 1);
    FullMeansFull(r.buffer, r.head, r.tail, Content(r.history));
    if |Content(r.history)| == r.Capacity() - 1 {
      HistoryKept(r, Full);
    }
  }

  lemma {:induction false} WriteSlotKeepsInv<T>(r: Ring<T>)
    requires Inv(r) && Enabled(r, WriteSlot)
    ensures Inv(Next(r, WriteSlot))
  {
    hide Content, Sequential, Ins, Outs, Stored;
    StoredWrite(r.buffer, r.head, r.tail, Content(r.history), r.producer.item);
  }

  lemma AnswersPush<T>(r: Ring<T>)
    requires Inv(r) && r.producer.HasWritten?
    ensures Answers(Content(r.history), Pushed(r.producer.item), r.Capacity() - 1)
  {
  }

  lemma AnswersPop<T>(r: Ring<T>)
    requires Inv(r) && r.consumer.HasRead?
    ensures Answers(Content(r.history), Popped(r.consumer.item), r.Capacity() - 1)
  {
  }

  lemma {:induction false} StoreTailKeepsInv<T>(r: Ring<T>)
    requires Inv(r) && Enabled(r, StoreTail)
    ensures Inv(Next(r, StoreTail))
  {
    hide Inv, Content, Sequential, Ins, Outs, Stored, Answers;
    var e := Pushed(r.producer.item);
    TailParts(r);
    AnswersPush(r);
    Append(r.history, e, r.Capacity() - 1);
    HistoryKept(r, e);
    StoredTail(r.buffer, r.head, r.tail, Content(r.history), r.producer.item);
    TailMoved(r, (r.tail + 1) % r.Capacity(), r.history + [e]);
  }

  lemma TailParts<T>(r: Ring<T>)
    requires Inv(r) && r.producer.HasWritten?
    ensures r.producer.at == r.tail < r.Capacity() && |Content(r.history)| + 1 < r.Capacity()
    ensures r.buffer[r.tail] == r.producer.item && Stored(r.buffer, r.head, r.tail, Content(r.history))
  {
    hide Content, Sequential, Ins, Outs, Stored;
  }

  lemma TailMoved<T>(r: Ring<T>, tail: nat, h: seq<Event<T>>)
    requires Inv(r) && r.producer.HasWritten?
    requires Content(h) == Content(r.history) + [r.producer.item] && Stored(r.buffer, r.head, tail, Content(h))
    requires Sequential(h, r.Capacity() - 1) && Ins(h) == Outs(h) + Content(h)
    ensures Inv(r.(tail := tail, producer := Away, history := h))
  {
    hide Content, Sequential, Ins, Outs, Stored;
    var q := Content(r.history);
    assert q != [] ==> (q + [r.producer.item])[0] == q[0];
  }

  lemma {:induction false} CheckEmptyKeepsInv<T>(r: Ring<T>)
    requires Inv(r) && Enabled(r, CheckEmpty)
    ensures Inv(Next(r, CheckEmpty))
  {
    hide Content, Sequential, Ins, Outs, Stored;
    Append(r.history, Empty, r.Capacity() - 1);
    FullMeansFull(r.buffer, r.head, r.tail, Content(r.history));
    if Content(r.history) == [] {
      HistoryKept(r, Empty);
    }
  }

  lemma {:induction false} ReadSlotKeepsInv<T>(r: Ring<T>)
    requires Inv(r) && Enabled(r, ReadSlot)
    ensures Inv(Next(r, ReadSlot))
  {
    hide Content, Sequential, Ins, Outs, Stored;
    StoredFront(r.buffer, r.head, r.tail, Content(r.history));
  }

  lemma {:induction false} StoreHeadKeepsInv<T>(r: Ring<T>)
    requires Inv(r) && Enabled(r, StoreHead)
    ensures Inv(Next(r, StoreHead))
  {
    hide Inv, Content, Sequential, Ins, Outs, Stored, Answers;
    var e := Popped(r.consumer.item);
    HeadParts(r);
    AnswersPop(r);
    Append(r.history, e, r.Capacity() - 1);
    HistoryKept(r, e);
    StoredHead(r.buffer, r.head, r.tail, Content(r.history));
    HeadMoved(r, (r.head + 1) % r.Capacity(), r.history + [e]);
  }

  lemma HeadParts<T>(r: Ring<T>)
    requires Inv(r) && r.consumer.HasRead?
    ensures 0 < r.Capacity() && r.consumer.from == r.head && Content(r.history) != []
    ensures Stored(r.buffer, r.head, r.tail, Content(r.history))
  {
    hide Content, Sequential, Ins, Outs, Stored;
  }

  lemma HeadMoved<T>(r: Ring<T>, head: nat, h: seq<Event<T>>)
    requires Inv(r) && r.consumer.HasRead?
    requires Content(h) == Content(r.history)[1..] && Stored(r.buffer, head, r.tail, Content(h))
    requires Sequential(h, r.Capacity() - 1) && Ins(h) == Outs(h) + Content(h)
    ensures Inv(r.(head := head, consumer := Idle, history := h))
  {
    hide Content, Sequential, Ins, Outs, Stored;
  }

  lemma {:induction false} StepKeepsInv<T>(r: Ring<T>, step: Step<T>)
    requires Inv(r) && Enabled(r, step)
    ensures Inv(Next(r, step))
  {
    hide Content, Sequential, Ins, Outs, Stored;
    match step
    case LoadTail(item) => LoadTailKeepsInv(r, item);
    case CheckFull => CheckFullKeepsInv(r);
    case WriteSlot => WriteSlotKeepsInv(r);
    case StoreTail => StoreTailKeepsInv(r);
    case LoadHead =>
    case CheckEmpty => CheckEmptyKeepsInv(r);
    case ReadSlot => ReadSlotKeepsInv(r);
    case StoreHead => StoreHeadKeepsInv(r);
  }

  lemma {:induction false} InvReaches<T>(r: Ring<T>, steps: seq<Step<T>>, r': Ring<T>)
    requires Inv(r) && Reaches(r, steps, r')
    ensures Inv(r')
    decreases |steps|
  {
    if steps != [] {
      StepKeepsInv(r, steps[0]);
      InvReaches(Next(r, steps[0]), steps[1..], r');
    }
  }

  // ------------------------------------------------------------ what every run guarantees

  /** In every interleaving the calls, in the order in which they take effect, answer as
      a queue of at most capacity - 1 items answers them one after another; what was
      popped is a prefix of what was pushed; and at most capacity - 1 items are in flight. */
  lemma Linearizable<T>(buffer: seq<T>, steps: seq<Step<T>>, r: Ring<T>)
    requires 0 < |buffer| && Reaches(Start(buffer), steps, r)
    ensures Sequential(r.history, |buffer| - 1)
    ensures Ins(r.history) == Outs(r.history) + Content(r.history)
    ensures Outs(r.history) <= Ins(r.history)
    ensures |Ins(r.history)| - |Outs(r.history)| <= |buffer| - 1
  {
    StartInv(buffer);
    InvReaches(Start(buffer), steps, r);
    CapacityKept(Start(buffer), steps, r);
  }

  lemma {:induction false} CapacityKept<T>(r: Ring<T>, steps: seq<Step<T>>, r': Ring<T>)
    requires Reaches(r, steps, r')
    ensures r'.Capacity() == r.Capacity()
    decreases |steps|
  {
    if steps != [] {
      CapacityKept(Next(r, steps[0]), steps[1..], r');
    }
  }

  /** Neither thread ever waits on an index out of range, and the slot the producer is
      about to write is never the slot the consumer is about to read. */
  lemma NoRace<T>(buffer: seq<T>, steps: seq<Step<T>>, r: Ring<T>)
    requires 0 < |buffer| && Reaches(Start(buffer), steps, r)
    ensures r.producer.MayWrite? ==> Enabled(r, WriteSlot)
    ensures r.consumer.MayRead? ==> Enabled(r, ReadSlot)
    ensures r.producer.MayWrite? && r.consumer.MayRead? ==> r.producer.at != r.consumer.from
  {
    StartInv(buffer);
    InvReaches(Start(buffer), steps, r);
    Wraps(r.Capacity());
  }

  // ------------------------------------------------------------ the queue object

  /** The ring as an object. Each of the first eight methods is one access to memory by
      one thread; the threads' local variables are fields so that a call can be
      suspended between any two of them. */
  class SPSCQueue<T(0)> {
    const buffer: array<T>
    var tail: nat
    var head: nat
    var producer: Producer<T>
    var consumer: Consumer<T>
    ghost var history: seq<Event<T>>

    constructor (capacity: nat)
      requires 0 < capacity
      ensures Valid() && buffer.Length == capacity && View() == Start(buffer[..]) && fresh(buffer)
    {
      buffer := new T[capacity];
      tail, head, producer, consumer, history := 0, 0, Away, Idle, [];
      new;
      StartInv(buffer[..]);
    }

    ghost function View(): Ring<T>
      reads this, buffer
    {
      Ring(buffer[..], tail, head, producer, consumer, history)
    }

    ghost predicate Valid()
      reads this, buffer
    {
      Inv(View())
    }

    method LoadTail(item: T)
      requires Valid() && producer.Away?
      modifies this`producer
      ensures Valid() && View() == Next(old(View()), Step.LoadTail(item))
    {
      StepKeepsInv(View(), Step.LoadTail(item));
      hide Inv;
      producer := HasTail(item, tail);
    }

    method CheckFull() returns (full: bool)
      requires Valid() && producer.HasTail?
      modifies this`producer, this`history
      ensures Valid() && View() == Next(old(View()), Step.CheckFull)
      ensures full == producer.Away?
    {
      StepKeepsInv(View(), Step.CheckFull);
      hide Content, Sequential, Ins, Outs, Stored;
      full := (producer.at + 1) % buffer.Length == head;
      if full {
        producer, history := Away, history + [Full];
      } else {
        producer := MayWrite(producer.item, producer.at);
      }
    }

    method WriteSlot()
      requires Valid() && producer.MayWrite?
      modifies this`producer, buffer
      ensures Valid() && old(Enabled(View(), Step.WriteSlot)) && View() == Next(old(View()), Step.WriteSlot)
    {
      SlotInRange(View());
      StepKeepsInv(View(), Step.WriteSlot);
      hide Inv;
      buffer[producer.at] := producer.item;
      producer := HasWritten(producer.item, producer.at);
    }

    method StoreTail()
      requires Valid() && producer.HasWritten?
      modifies this`tail, this`producer, this`history
      ensures Valid() && View() == Next(old(View()), Step.StoreTail)
    {
      StepKeepsInv(View(), Step.StoreTail);
      hide Content, Sequential, Ins, Outs, Stored;
      tail := (producer.at + 1) % buffer.Length;
      history := history + [Pushed(producer.item)];
      producer := Away;
    }

    method LoadHead()
      requires Valid() && consumer.Idle?
      modifies this`consumer
      ensures Valid() && View() == Next(old(View()), Step.LoadHead)
    {
      StepKeepsInv(View(), Step.LoadHead);
      hide Inv;
      consumer := HasHead(head);
    }

    method CheckEmpty() returns (empty: bool)
      requires Valid() && consumer.HasHead?
      modifies this`consumer, this`history
      ensures Valid() && View() == Next(old(View()), Step.CheckEmpty)
      ensures empty == consumer.Idle?
    {
      StepKeepsInv(View(), Step.CheckEmpty);
      hide Inv;
      empty := consumer.from == tail;
      if empty {
        consumer, history := Idle, history + [Empty];
      } else {
        consumer := MayRead(consumer.from);
      }
    }

    method ReadSlot()
      requires Valid() && consumer.MayRead?
      modifies this`consumer
      ensures Valid() && old(Enabled(View(), Step.ReadSlot)) && View() == Next(old(View()), Step.ReadSlot)
    {
      SlotInRange(View());
      StepKeepsInv(View(), Step.ReadSlot);
      hide Inv;
      consumer := HasRead(consumer.from, buffer[consumer.from]);
    }

    method StoreHead() returns (item: T)
      requires Valid() && consumer.HasRead?
      modifies this`head, this`consumer, this`history
      ensures Valid() && View() == Next(old(View()), Step.StoreHead)
      ensures item == old(consumer.item)
    {
      StepKeepsInv(View(), Step.StoreHead);
      hide Content, Sequential, Ins, Outs, Stored;
      item := consumer.item;
      head := (consumer.from + 1) % buffer.Length;
      history := history + [Popped(item)];
      consumer := Idle;
    }

    /** A whole `push` that is not interrupted. */
    method Push(item: T) returns (ok: bool)
      requires Valid() && producer.Away?
      modifies this, buffer
      ensures Valid() && producer.Away? && consumer == old(consumer)
      ensures ok == (|old(Content(history))| < buffer.Length - 1)
      ensures Content(history) == if ok then old(Content(history)) + [item] else old(Content(history))
    {
      hide Content, Ins, Outs, Inv;
      ghost var h := history;
      LoadTail(item);
      var full := CheckFull();
      if full {
        Answered(View(), h, Full);
        return false;
      }
      WriteSlot();
      StoreTail();
      Answered(View(), h, Pushed(item));
      ok := true;
    }

    /** A whole `pop` that is not interrupted; `into` is what it overwrites. */
    method Pop(into: T) returns (ok: bool, item: T)
      requires Valid() && consumer.Idle?
      modifies this
      ensures Valid() && consumer.Idle? && producer == old(producer)
      ensures ok == (old(Content(history)) != [])
      ensures ok ==> item == old(Content(history))[0] && Content(history) == old(Content(history))[1..]
      ensures !ok ==> item == into && Content(history) == old(Content(history))
    {
      hide Content, Ins, Outs, Inv;
      ghost var h := history;
      item := into;
      LoadHead();
      var empty := CheckEmpty();
      if empty {
        Answered(View(), h, Empty);
        return false, item;
      }
      ReadSlot();
      item := StoreHead();
      Answered(View(), h, Popped(item));
      ok := true;
    }
  }

  /** The answer just given was the right one for what the queue held. */
  lemma Answered<T>(r: Ring<T>, h: seq<Event<T>>, e: Event<T>)
    requires Inv(r) && r.history == h + [e]
    ensures Answers(Content(h), e, r.Capacity() - 1)
    ensures Content(r.history) == match e
                                  case Pushed(item) => Content(h) + [item]
                                  case Popped(_) => Content(h)[1..]
                                  case _ => Content(h)
  {
    hide Content, Stored, Ins, Outs, Sequential;
    Append(h, e, r.Capacity() - 1);
  }

  lemma SlotInRange<T>(r: Ring<T>)
    requires Inv(r)
    ensures r.producer.MayWrite? ==> r.producer.at < r.Capacity()
    ensures r.consumer.MayRead? ==> r.consumer.from < r.Capacity()
  {
    hide Content, Sequential, Ins, Outs;
    Wraps(r.Capacity());
  }
}
