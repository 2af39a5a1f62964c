/** An exchange fed through the ring: one thread pushes orders, the exchange's thread pops
    them and submits each before it pops the next. Between pops the exchange's thread also
    performs operations of its own, such as the orders and cancels of the built-in agents. */
module QueueFeed {
  import opened Types
  import opened SpscQueues
  import ExchangeSpec

  /** `inHand` holds an order that has been popped and not yet submitted, if any. */
  datatype Server = Server(ring: Ring<Ticket>, inHand: seq<Ticket>, ex: ExchangeSpec.Exch)

  datatype Move = Thread(step: Step<Ticket>) | SubmitPopped | Internal(op: ExchangeSpec.Op)

  predicate CanMove(sv: Server, m: Move) {
    0 < sv.ring.Capacity() &&
    match m
    case Thread(step) => Enabled(sv.ring, step) && (step.LoadHead? ==> sv.inHand == [])
    case SubmitPopped => sv.inHand != []
    case Internal(_) => sv.inHand == [] && sv.ring.consumer.Idle?
  }

  function MoveOn(sv: Server, m: Move): Server
    requires CanMove(sv, m)
  {
    match m
    case Thread(step) =>
      var inHand := if step.StoreHead? then sv.inHand + [sv.ring.consumer.item] else sv.inHand;
      sv.(ring := Next(sv.ring, step), inHand := inHand)
    case SubmitPopped =>
      sv.(inHand := sv.inHand[1..], ex := ExchangeSpec.DoSubmit(sv.ex, sv.inHand[0]).ex)
    case Internal(op) =>
      sv.(ex := ExchangeSpec.Apply(sv.ex, op))
  }

  ghost predicate Serves(sv: Server, moves: seq<Move>, sv': Server)
    decreases |moves|
  {
    if moves == [] then sv' == sv
    else CanMove(sv, moves[0]) && Serves(MoveOn(sv, moves[0]), moves[1..], sv')
  }

  // ------------------------------------------------------------ the exchange without the queue

  /** What the exchange has done, in order: orders from the queue, and operations of its own. */
  datatype Entry = FromQueue(order: Ticket) | Own(op: ExchangeSpec.Op)

  /** Performing the entries one after another, with no queue in between. */
  function Replay(ex: ExchangeSpec.Exch, log: seq<Entry>): ExchangeSpec.Exch {
    if log == [] then ex
    else
      var before := Replay(ex, log[..|log| - 1]);
      match log[|log| - 1]
      case FromQueue(order) => ExchangeSpec.DoSubmit(before, order).ex
      case Own(op) => ExchangeSpec.Apply(before, op)
  }

  /** The orders from the queue among the entries. */
  function Queued(log: seq<Entry>): seq<Ticket> {
    if log == [] then []
    else Queued(log[..|log| - 1]) + if log[|log| - 1].FromQueue? then [log[|log| - 1].order] else []
  }

  function OwnOps(log: seq<Entry>): seq<ExchangeSpec.Op> {
    if log == [] then []
    else OwnOps(log[..|log| - 1]) + if log[|log| - 1].Own? then [log[|log| - 1].op] else []
  }

  /** The operations of its own that a run asks of the exchange. */
  function Asked(moves: seq<Move>): seq<ExchangeSpec.Op> {
    if moves == [] then [] else (if moves[0].Internal? then [moves[0].op] else []) + Asked(moves[1..])
  }

  lemma LogGrows(ex: ExchangeSpec.Exch, log: seq<Entry>, e: Entry)
    ensures Queued(log + [e]) == Queued(log) + if e.FromQueue? then [e.order] else []
    ensures OwnOps(log + [e]) == OwnOps(log) + if e.Own? then [e.op] else []
    ensures Replay(ex, log + [e])
            == if e.FromQueue? then ExchangeSpec.DoSubmit(Replay(ex, log), e.order).ex
               else ExchangeSpec.Apply(Replay(ex, log), e.op)
  {
    hide ExchangeSpec.DoSubmit, ExchangeSpec.Apply;
    assert (log + [e])[..|log|] == log;
  }

  /** What was popped is what was submitted from the queue followed by what is in hand. */
  ghost predicate FeedInv(sv: Server, ex0: ExchangeSpec.Exch, log: seq<Entry>) {
    && Inv(sv.ring)
    && Outs(sv.ring.history) == Queued(log) + sv.inHand
    && sv.ex == Replay(ex0, log)
  }

  function Logged(sv: Server, m: Move, log: seq<Entry>): seq<Entry>
    requires CanMove(sv, m)
  {
    match m
    case Thread(_) => log
    case SubmitPopped => log + [FromQueue(sv.inHand[0])]
    case Internal(op) => log + [Own(op)]
  }

  lemma {:induction false} MoveKeepsFeed(sv: Server, m: Move, ex0: ExchangeSpec.Exch, log: seq<Entry>)
    requires FeedInv(sv, ex0, log) && CanMove(sv, m)
    ensures FeedInv(MoveOn(sv, m), ex0, Logged(sv, m, log))
    ensures OwnOps(Logged(sv, m, log)) == OwnOps(log) + if m.Internal? then [m.op] else []
  {
    hide Inv, Queued, OwnOps, Replay, ExchangeSpec.DoSubmit, ExchangeSpec.Apply;
    match m
    case Thread(step) =>
      StepKeepsInv(sv.ring, step);
      OutsOfStep(sv.ring, step);
      ConcatAssoc(Queued(log), sv.inHand, if step.StoreHead? then [sv.ring.consumer.item] else []);
    case SubmitPopped =>
      LogGrows(ex0, log, FromQueue(sv.inHand[0]));
      assert sv.inHand == [sv.inHand[0]] + sv.inHand[1..];
      ConcatAssoc(Queued(log), [sv.inHand[0]], sv.inHand[1..]);
    case Internal(op) =>
      LogGrows(ex0, log, Own(op));
  }

  lemma OutsOfStep(r: Ring<Ticket>, step: Step<Ticket>)
    requires 0 < r.Capacity() && Enabled(r, step)
    ensures Outs(Next(r, step).history)
            == Outs(r.history) + if step.StoreHead? then [r.consumer.item] else []
  {
    var h := r.history;
    forall e: Event<Ticket> ensures (h + [e])[..|h|] == h {
    }
  }

  lemma {:induction false} FeedRun(sv: Server, moves: seq<Move>, sv': Server, ex0: ExchangeSpec.Exch, log: seq<Entry>)
    returns (log': seq<Entry>)
    requires FeedInv(sv, ex0, log) && Serves(sv, moves, sv')
    ensures FeedInv(sv', ex0, log')
    ensures OwnOps(log') == OwnOps(log) + Asked(moves)
    decreases |moves|
  {
    hide FeedInv, CanMove, MoveOn, OwnOps;
    if moves == [] {
      log' := log;
    } else {
      var m := moves[0];
      MoveKeepsFeed(sv, m, ex0, log);
      log' := FeedRun(MoveOn(sv, m), moves[1..], sv', ex0, Logged(sv, m, log));
      ConcatAssoc(OwnOps(log), if m.Internal? then [m.op] else [], Asked(moves[1..]));
    }
  }

  /** In every interleaving of the two threads the exchange has done exactly what some merge
      of two sequences does without a queue: a prefix of the pushed orders, in push order, and
      all the operations of its own, in order. Once everything pushed has been popped and
      submitted, that prefix is all of it. */
  lemma FedLikeReplay(buffer: seq<Ticket>, ex0: ExchangeSpec.Exch, moves: seq<Move>, sv: Server)
    returns (log: seq<Entry>)
    requires 0 < |buffer| && Serves(Server(Start(buffer), [], ex0), moves, sv)
    ensures sv.ex == Replay(ex0, log)
    ensures Queued(log) + sv.inHand <= Ins(sv.ring.history) && OwnOps(log) == Asked(moves)
    ensures sv.inHand == [] && Content(sv.ring.history) == [] ==> Queued(log) == Ins(sv.ring.history)
  {
    StartInv(buffer);
    log := FeedRun(Server(Start(buffer), [], ex0), moves, sv, ex0, []);
    hide Ins, Outs, Content, Stored, Sequential, Replay, Asked;
    if sv.inHand == [] && Content(sv.ring.history) == [] {
      assert Queued(log) + sv.inHand == Queued(log) && Queued(log) + Content(sv.ring.history) == Queued(log);
    }
  }
}
