/**
 The delivery pipeline of the Docker sensor (`docker-sensor/src/main.rs`): event stream, channel,
 retry buffer, whole-buffer flush and second-granular checkpoint, composed with the batch ingress
 of the API (`api/src/main.rs`), which refuses batches of more than 100 items.

 An event of the Docker daemon is identified by its position in the daemon's event history.
 */
module DockerSensor {
  import opened Options

  const BATCH_MAX_ITEMS := 50
  const MAX_BUFFERED_RETRY := 5000
  const CHANNEL_CAPACITY := 1000
  const INGRESS_MAX_ITEMS := 100

  datatype Queued = Queued(pos: nat, time: int)

  /**
   What became of an event that left the retry buffer: stored by the ingress, rejected by it as a
   single item of an acknowledged batch, or dropped here. A rejection is `counted` by the sensor if it
   could read the reply.
   */
  datatype Fate = Stored | Rejected(counted: bool) | Dropped
  datatype Settled = Settled(event: Queued, fate: Fate)

  /** What the sender keeps: the retry buffer, the checkpoint file, and the history of settled events. */
  datatype Sender = Sender(buffer: seq<Queued>, checkpoint: Option<int>, settled: seq<Settled>)

  /**
   How a flush ends: `up` says that the ingress is reachable and the credential valid, `rejected`
   which events it refuses as single items, `readable` that its reply can be parsed, and `saved` that
   the checkpoint file could be written.
   */
  datatype Reply = Reply(up: bool, rejected: set<nat>, readable: bool, saved: bool)

  /** `internal_security_events_batch` answers with success. */
  predicate IngressAccepts(reply: Reply, items: nat) {
    reply.up && 0 < items <= INGRESS_MAX_ITEMS
  }

  /** What an acknowledged batch makes of one of its events. */
  function FateOf(event: Queued, reply: Reply): Fate {
    if event.pos in reply.rejected then Rejected(reply.readable) else Stored
  }

  function Answered(events: seq<Queued>, reply: Reply): (settled: seq<Settled>)
    ensures |settled| == |events|
    ensures forall i :: 0 <= i < |events| ==> settled[i] == Settled(events[i], FateOf(events[i], reply))
  {
    seq(|events|, i requires 0 <= i < |events| => Settled(events[i], FateOf(events[i], reply)))
  }

  function Discarded(events: seq<Queued>): (settled: seq<Settled>)
    ensures |settled| == |events|
    ensures forall i :: 0 <= i < |events| ==> settled[i] == Settled(events[i], Dropped)
  {
    seq(|events|, i requires 0 <= i < |events| => Settled(events[i], Dropped))
  }

  /** `flush`: one request with the whole buffer. */
  function Flush(s: Sender, reply: Reply): Sender {
    if s.buffer == [] then s
    else if IngressAccepts(reply, |s.buffer|) then
      Sender([],
             if reply.saved then Some(s.buffer[|s.buffer| - 1].time) else s.checkpoint,
             s.settled + Answered(s.buffer, reply))
    else if |s.buffer| > MAX_BUFFERED_RETRY then
      var excess := |s.buffer| - MAX_BUFFERED_RETRY;
      s.(buffer := s.buffer[excess..], settled := s.settled + Discarded(s.buffer[..excess]))
    else s
  }

  /** One received event: push, and flush when the batch size is reached. */
  function Receive(s: Sender, event: Queued, reply: Reply): Sender {
    var pushed := s.(buffer := s.buffer + [event]);
    if |pushed.buffer| >= BATCH_MAX_ITEMS then Flush(pushed, reply) else pushed
  }

  /** One turn of the `select!` in `batch_sender_task`; a heartbeat touches none of this state. */
  datatype Turn = Received(event: Queued, reply: Reply) | FlushTick(reply: Reply) | HeartbeatTick

  function Take(s: Sender, turn: Turn): Sender {
    match turn
    case Received(event, reply) => Receive(s, event, reply)
    case FlushTick(reply) => Flush(s, reply)
    case HeartbeatTick => s
  }

  function TakeAll(s: Sender, turns: seq<Turn>): Sender
    decreases |turns|
  {
    if turns == [] then s else TakeAll(Take(s, turns[0]), turns[1..])
  }

  function EventsOf(turns: seq<Turn>): seq<Queued> {
    if turns == [] then []
    else (if turns[0].Received? then [turns[0].event] else []) + EventsOf(turns[1..])
  }

  function Unsettle(settled: seq<Settled>): (events: seq<Queued>)
    ensures |events| == |settled|
    ensures forall i :: 0 <= i < |settled| ==> events[i] == settled[i].event
  {
    seq(|settled|, i requires 0 <= i < |settled| => settled[i].event)
  }

  /** How many events met the given fate. */
  function Count(settled: seq<Settled>, fate: Fate): nat
    decreases |settled|
  {
    if settled == [] then 0
    else
      var last := |settled| - 1;
      Count(settled[..last], fate) + (if settled[last].fate == fate then 1 else 0)
  }

  // --- the sender as a process --------------------------------------------------------------

  lemma {:induction false} CountConcat(a: seq<Settled>, b: seq<Settled>, fate: Fate)
    ensures Count(a + b, fate) == Count(a, fate) + Count(b, fate)
    decreases |b|
  {
    if b == [] {
      assert a + b == a;
    } else {
      assert (a + b)[..|a + b| - 1] == a + b[..|b| - 1];
      CountConcat(a, b[..|b| - 1], fate);
    }
  }

  lemma {:induction false} CountUniform(settled: seq<Settled>, fate: Fate, all: bool)
    requires forall i :: 0 <= i < |settled| ==> (settled[i].fate == fate <==> all)
    ensures Count(settled, fate) == if all then |settled| else 0
    decreases |settled|
  {
    if settled != [] { CountUniform(settled[..|settled| - 1], fate, all); }
  }

  /** What the reply of an acknowledged batch says was rejected. */
  function RejectedIn(events: seq<Queued>, reply: Reply): nat {
    if reply.readable then Count(Answered(events, reply), Rejected(true)) else 0
  }

  /** An acknowledged batch drops nothing and counts what the reply rejects. */
  lemma CountAnswered(settled: seq<Settled>, events: seq<Queued>, reply: Reply)
    ensures Count(settled + Answered(events, reply), Dropped) == Count(settled, Dropped)
    ensures Count(settled + Answered(events, reply), Rejected(true))
            == Count(settled, Rejected(true)) + RejectedIn(events, reply)
  {
    var batch := Answered(events, reply);
    CountConcat(settled, batch, Dropped);
    CountConcat(settled, batch, Rejected(true));
    CountUniform(batch, Dropped, false);
    if !reply.readable { CountUniform(batch, Rejected(true), false); }
  }

  lemma CountDiscarded(settled: seq<Settled>, events: seq<Queued>)
    ensures Count(settled + Discarded(events), Dropped) == Count(settled, Dropped) + |events|
    ensures Count(settled + Discarded(events), Rejected(true)) == Count(settled, Rejected(true))
  {
    CountConcat(settled, Discarded(events), Dropped);
    CountConcat(settled, Discarded(events), Rejected(true));
    CountUniform(Discarded(events), Dropped, true);
    CountUniform(Discarded(events), Rejected(true), false);
  }

  /** `batch_sender_task` with its buffer, its checkpoint file and its counters of lost events. */
  class BatchSender {
    var buffer: seq<Queued>
    var checkpoint: Option<int>
    var droppedTotal: nat
    var rejectedTotal: nat
    ghost var settled: seq<Settled>

    ghost function View(): Sender
      reads this
    {
      Sender(buffer, checkpoint, settled)
    }

    /** The counters count exactly the events that were dropped, and that a readable reply rejected. */
    ghost predicate Valid()
      reads this
    {
      droppedTotal == Count(settled, Dropped) && rejectedTotal == Count(settled, Rejected(true))
    }

    constructor (checkpoint: Option<int>)
      ensures Valid() && View() == Sender([], checkpoint, [])
    {
      buffer := [];
      this.checkpoint := checkpoint;
      droppedTotal := 0;
      rejectedTotal := 0;
      settled := [];
    }

    method FlushBuffer(reply: Reply)
      requires Valid()
      modifies this
      ensures Valid() && View() == Flush(old(View()), reply)
    {
      if buffer == [] { return; }
      if IngressAccepts(reply, |buffer|) {
        Acknowledge(reply);
        return;
      }
      if |buffer| > MAX_BUFFERED_RETRY {
        DropOldest();
      }
    }

    /** The batch was answered: count its rejections, save the checkpoint, give up the buffer. */
    method Acknowledge(reply: Reply)
      requires Valid() && buffer != []
      modifies this
      ensures Valid() && buffer == [] && settled == old(settled) + Answered(old(buffer), reply)
      ensures checkpoint == if reply.saved then Some(old(buffer)[|old(buffer)| - 1].time) else old(checkpoint)
    {
      CountRejections(reply);
      if reply.saved { checkpoint := Some(buffer[|buffer| - 1].time); }
      buffer := [];
    }

    method CountRejections(reply: Reply)
      requires Valid()
      modifies this`rejectedTotal, this`settled
      ensures Valid() && settled == old(settled) + Answered(buffer, reply)
    {
      CountAnswered(settled, buffer, reply);
      rejectedTotal := rejectedTotal + RejectedIn(buffer, reply);
      settled := settled + Answered(buffer, reply);
    }

    /** The buffer is over its budget: drop and count the oldest events. */
    method DropOldest()
      requires Valid() && |buffer| > MAX_BUFFERED_RETRY
      modifies this
      ensures Valid() && checkpoint == old(checkpoint)
      ensures var excess := |old(buffer)| - MAX_BUFFERED_RETRY;
              buffer == old(buffer)[excess..] && settled == old(settled) + Discarded(old(buffer)[..excess])
    {
      var excess := |buffer| - MAX_BUFFERED_RETRY;
      CountDiscarded(settled, buffer[..excess]);
      settled := settled + Discarded(buffer[..excess]);
      buffer := buffer[excess..];
      droppedTotal := droppedTotal + excess;
    }

    method ReceiveEvent(event: Queued, reply: Reply)
      requires Valid()
      modifies this
      ensures Valid() && View() == Receive(old(View()), event, reply)
    {
      buffer := buffer + [event];
      if |buffer| >= BATCH_MAX_ITEMS {
        FlushBuffer(reply);
      }
    }

    /** The sender loop over any number of turns, and the final flush when the channel closes. */
    method Task(turns: seq<Turn>, last: Reply)
      requires Valid()
      modifies this
      ensures Valid() && View() == Flush(TakeAll(old(View()), turns), last)
    {
      var i := 0;
      while i < |turns|
        invariant 0 <= i <= |turns| && Valid()
        invariant TakeAll(View(), turns[i..]) == TakeAll(old(View()), turns)
      {
        match turns[i] {
          case Received(event, reply) => ReceiveEvent(event, reply);
          case FlushTick(reply) => FlushBuffer(reply);
          case HeartbeatTick =>
        }
        assert turns[i..][1..] == turns[i + 1..];
        i := i + 1;
      }
      FlushBuffer(last);
    }
  }

  // --- conservation and bounds over every run of the sender ---------------------------------

  lemma FlushConserves(s: Sender, reply: Reply)
    ensures Unsettle(Flush(s, reply).settled) + Flush(s, reply).buffer == Unsettle(s.settled) + s.buffer
    ensures |Flush(s, reply).buffer| <= MAX_BUFFERED_RETRY
  {
    var s' := Flush(s, reply);
    if s.buffer != [] && IngressAccepts(reply, |s.buffer|) {
      assert Unsettle(s'.settled) == Unsettle(s.settled) + s.buffer;
    } else if |s.buffer| > MAX_BUFFERED_RETRY {
      var excess := |s.buffer| - MAX_BUFFERED_RETRY;
      assert Unsettle(s'.settled) == Unsettle(s.settled) + s.buffer[..excess];
      assert s.buffer[..excess] + s.buffer[excess..] == s.buffer;
    }
  }

  /**
   Every received event is stored, rejected, dropped or still buffered, exactly once and in the order
   of arrival; between turns the buffer holds at most 5000 events (so a request at most 5001).
   */
  lemma {:induction false} SenderConserves(s: Sender, turns: seq<Turn>)
    requires |s.buffer| <= 5000
    ensures var s' := TakeAll(s, turns);
            && Unsettle(s'.settled) + s'.buffer == Unsettle(s.settled) + s.buffer + EventsOf(turns)
            && |s'.buffer| <= 5000
    decreases |turns|
  {
    if turns == [] {
      assert s.buffer + EventsOf(turns) == s.buffer;
      assert Unsettle(s.settled) + s.buffer + EventsOf(turns) == Unsettle(s.settled) + s.buffer;
    } else {
      var s1 := Take(s, turns[0]);
      var got := if turns[0].Received? then [turns[0].event] else [];
      assert Unsettle(s1.settled) + s1.buffer == Unsettle(s.settled) + s.buffer + got
             && |s1.buffer| <= 5000 by {
        match turns[0]
        case Received(event, reply) =>
          var pushed := s.(buffer := s.buffer + [event]);
          FlushConserves(pushed, reply);
          assert Unsettle(s.settled) + (s.buffer + [event]) == Unsettle(s.settled) + s.buffer + [event];
        case FlushTick(reply) =>
          FlushConserves(s, reply);
        case HeartbeatTick =>
      }
      SenderConserves(s1, turns[1..]);
      assert Unsettle(s.settled) + s.buffer + got + EventsOf(turns[1..])
             == Unsettle(s.settled) + s.buffer + (got + EventsOf(turns[1..]));
    }
  }

  // --- the outage threshold -----------------------------------------------------------------

  lemma StuckTurn(s: Sender, turn: Turn)
    requires |s.buffer| > 100
    ensures var s' := Take(s, turn);
            && |s'.buffer| > 100 && s'.checkpoint == s.checkpoint
            && s.settled <= s'.settled && forall i :: |s.settled| <= i < |s'.settled| ==> s'.settled[i].fate.Dropped?
  {
  }

  /**
   Once more than 100 events are buffered, no run of the sender ever delivers again: the buffer
   stays above 100, the checkpoint stays, and whatever is settled from then on is dropped.
   */
  lemma {:induction false} OverThresholdNeverRecovers(s: Sender, turns: seq<Turn>)
    requires |s.buffer| > 100
    ensures var s' := TakeAll(s, turns);
            && |s'.buffer| > 100 && s'.checkpoint == s.checkpoint
            && s.settled <= s'.settled && forall i :: |s.settled| <= i < |s'.settled| ==> s'.settled[i].fate.Dropped?
    decreases |turns|
  {
    if turns != [] {
      StuckTurn(s, turns[0]);
      OverThresholdNeverRecovers(Take(s, turns[0]), turns[1..]);
    }
  }

  /** The ingress is up in this turn. */
  predicate UpTurn(turn: Turn) {
    match turn
    case Received(_, reply) => reply.up
    case FlushTick(reply) => reply.up
    case HeartbeatTick => true
  }

  /** Nothing is dropped from `s` to `s'`. */
  ghost predicate NoneDropped(s: Sender, s': Sender) {
    s.settled <= s'.settled && forall i :: |s.settled| <= i < |s'.settled| ==> !s'.settled[i].fate.Dropped?
  }

  lemma UpTurnStaysBelow(s: Sender, turn: Turn)
    requires |s.buffer| < 50 && UpTurn(turn)
    ensures |Take(s, turn).buffer| < 50 && NoneDropped(s, Take(s, turn))
  {
  }

  /**
   While the ingress is up, with fewer than 50 events buffered at first (none after a restart): the buffer
   stays below 50 after every turn, nothing is dropped, and the next accepted flush settles everything
   that was ever received.
   */
  lemma {:induction false} UpStaysBelowBatch(s: Sender, turns: seq<Turn>, reply: Reply)
    requires |s.buffer| < 50 && reply.up && forall i :: 0 <= i < |turns| ==> UpTurn(turns[i])
    ensures var s' := TakeAll(s, turns);
            && |s'.buffer| < 50 && NoneDropped(s, s')
            && Flush(s', reply).buffer == []
            && Unsettle(Flush(s', reply).settled) == Unsettle(s.settled) + s.buffer + EventsOf(turns)
    decreases |turns|
  {
    SenderConserves(s, turns);
    FlushConserves(TakeAll(s, turns), reply);
    if turns != [] {
      assert UpTurn(turns[0]);
      UpTurnStaysBelow(s, turns[0]);
      UpStaysBelowBatch(Take(s, turns[0]), turns[1..], reply);
    }
  }

  /** A turn that flushes while the ingress is up; an event can only arrive if the channel holds one. */
  predicate FlushingTurn(s: Sender, turn: Turn, waiting: bool) {
    match turn
    case Received(_, reply) => waiting && reply.up && |s.buffer| + 1 >= 50
    case FlushTick(reply) => reply.up
    case HeartbeatTick => false
  }

  /**
   The exact threshold for recovery after an outage: with the ingress up again, the next flush
   empties a non-empty buffer whichever turn comes first if and only if at most 99 events are
   buffered, or exactly 100 and no further event is waiting in the channel.
   */
  lemma RecoveryThreshold(s: Sender, waiting: bool)
    requires s.buffer != []
    ensures (forall turn :: FlushingTurn(s, turn, waiting) ==> Take(s, turn).buffer == [])
            <==> |s.buffer| <= 99 || (|s.buffer| == 100 && !waiting)
  {
    var up := Reply(true, {}, true, true);
    if |s.buffer| > 100 {
      assert FlushingTurn(s, FlushTick(up), waiting);
    } else if |s.buffer| == 100 && waiting {
      assert FlushingTurn(s, Received(Queued(0, 0), up), waiting);
      assert Take(s, Received(Queued(0, 0), up)).buffer == s.buffer + [Queued(0, 0)];
    }
  }

  // --- what becomes of each event -----------------------------------------------------------

  /**
   What one flush does to buffered event `i`. An ingress that is up takes a request of at most 100 items:
   then the event is stored unless the ingress rejects it, and the checkpoint becomes the second of the
   last one if it can be saved. Otherwise the event stays, in order, unless 5,000 later ones are buffered.
   */
  lemma FlushTells(s: Sender, reply: Reply, i: nat)
    requires i < |s.buffer|
    ensures var n, done, s' := |s.buffer|, |s.settled|, Flush(s, reply);
            if reply.up && n <= 100 then
              && s'.buffer == [] && |s'.settled| == done + n && s'.settled[done + i].event == s.buffer[i]
              && (s'.settled[done + i].fate == Stored <==> s.buffer[i].pos !in reply.rejected)
              && (s'.settled[done + i].fate == Rejected(reply.readable) <==> s.buffer[i].pos in reply.rejected)
              && s'.checkpoint == if reply.saved then Some(s.buffer[n - 1].time) else s.checkpoint
            else
              && s'.checkpoint == s.checkpoint
              && (n <= i + 5000 ==> |s'.buffer| >= n - i && s'.buffer[|s'.buffer| - (n - i)] == s.buffer[i])
              && (n > i + 5000 ==> done + i < |s'.settled| && s'.settled[done + i] == Settled(s.buffer[i], Dropped))
              && |s'.settled| + |s'.buffer| == done + n
  {
  }

  /**
   With the ingress up and at most 99 events buffered, a received event is flushed exactly as the
   fiftieth or a later one.
   */
  lemma BatchExactlyWhen(s: Sender, event: Queued, reply: Reply)
    requires reply.up && |s.buffer| <= 99
    ensures Receive(s, event, reply).buffer == [] <==> |s.buffer| >= 49
    ensures |s.buffer| < 49 ==> Receive(s, event, reply) == s.(buffer := s.buffer + [event])
  {
  }

  /** Every dropped event has at least 5,000 events behind it. */
  ghost predicate DroppedBehind(s: Sender) {
    forall i :: 0 <= i < |s.settled| && s.settled[i].fate.Dropped? ==> i + 1 + 5000 <= |s.settled| + |s.buffer|
  }

  /** Over every run, an event is dropped only when 5,000 later ones had been received. */
  lemma {:induction false} DropsOnlyTheOldest(s: Sender, turns: seq<Turn>)
    requires DroppedBehind(s)
    ensures DroppedBehind(TakeAll(s, turns))
    decreases |turns|
  {
    if turns != [] {
      match turns[0] {
        case Received(event, reply) => FlushDropsBehind(s.(buffer := s.buffer + [event]), reply);
        case FlushTick(reply) => FlushDropsBehind(s, reply);
        case HeartbeatTick =>
      }
      DropsOnlyTheOldest(Take(s, turns[0]), turns[1..]);
    }
  }

  lemma FlushDropsBehind(s: Sender, reply: Reply)
    requires DroppedBehind(s)
    ensures DroppedBehind(Flush(s, reply))
  {
    var s' := Flush(s, reply);
    FlushConserves(s, reply);
    assert |s'.settled| + |s'.buffer| == |s.settled| + |s.buffer|;
    assert s.settled <= s'.settled;
    forall i | 0 <= i < |s'.settled| && s'.settled[i].fate.Dropped?
      ensures i + 1 + 5000 <= |s'.settled| + |s'.buffer|
    {
      if i < |s.settled| { assert s'.settled[i] == s.settled[i]; }
    }
  }

  /** The second of the last event that was answered for, or the checkpoint from before. */
  function LastAnswered(settled: seq<Settled>, checkpoint: Option<int>): Option<int>
    decreases |settled|
  {
    if settled == [] then checkpoint
    else
      var last := settled[|settled| - 1];
      if last.fate.Dropped? then LastAnswered(settled[..|settled| - 1], checkpoint) else Some(last.event.time)
  }

  lemma {:induction false} DropsKeepLastAnswered(settled: seq<Settled>, dropped: seq<Queued>, checkpoint: Option<int>)
    ensures LastAnswered(settled + Discarded(dropped), checkpoint) == LastAnswered(settled, checkpoint)
    decreases |dropped|
  {
    var all := settled + Discarded(dropped);
    if dropped == [] {
      assert all == settled;
    } else {
      assert all[..|all| - 1] == settled + Discarded(dropped[..|dropped| - 1]);
      DropsKeepLastAnswered(settled, dropped[..|dropped| - 1], checkpoint);
    }
  }

  /** The checkpoint file can always be written. */
  predicate Saves(turn: Turn) {
    match turn
    case Received(_, reply) => reply.saved
    case FlushTick(reply) => reply.saved
    case HeartbeatTick => true
  }

  /** Over every run in which the checkpoint can be saved, it is the second of the last event that was answered for. */
  lemma {:induction false} CheckpointIsLastAnswered(s: Sender, turns: seq<Turn>, first: Option<int>)
    requires s.checkpoint == LastAnswered(s.settled, first) && forall i :: 0 <= i < |turns| ==> Saves(turns[i])
    ensures TakeAll(s, turns).checkpoint == LastAnswered(TakeAll(s, turns).settled, first)
    decreases |turns|
  {
    if turns != [] {
      assert Saves(turns[0]);
      match turns[0] {
        case Received(event, reply) => FlushSaves(s.(buffer := s.buffer + [event]), reply, first);
        case FlushTick(reply) => FlushSaves(s, reply, first);
        case HeartbeatTick =>
      }
      CheckpointIsLastAnswered(Take(s, turns[0]), turns[1..], first);
    }
  }

  lemma FlushSaves(s: Sender, reply: Reply, first: Option<int>)
    requires s.checkpoint == LastAnswered(s.settled, first) && reply.saved
    ensures Flush(s, reply).checkpoint == LastAnswered(Flush(s, reply).settled, first)
  {
    if s.buffer != [] && !IngressAccepts(reply, |s.buffer|) && |s.buffer| > MAX_BUFFERED_RETRY {
      DropsKeepLastAnswered(s.settled, s.buffer[..|s.buffer| - MAX_BUFFERED_RETRY], first);
    }
  }
}
