/**
 At-least-once delivery of the Docker sensor across reconnects and restarts
 (`docker-sensor/src/main.rs`). The daemon's event history grows with non-decreasing times, the
 `since` parameter is inclusive, and a connection without checkpoint starts with the next event.
 */
module SensorPipeline {
  import opened Options
  import opened DockerSensor

  /** One event of the daemon; `reportable` says that the sensor turns its line into an envelope. */
  datatype Entry = Entry(time: int, reportable: bool)

  /**
   `loaded` is what the reader has read from the checkpoint file for its next connection, and `stream`
   the next position that the open connection delivers. `base` is the position at which the latest
   connection without a `since` parameter started.
   */
  datatype Pipeline = Pipeline(
    log: seq<Entry>,
    loaded: Option<Option<int>>,
    stream: Option<nat>,
    channel: seq<Queued>,
    sender: Sender,
    base: nat)

  datatype Event =
    | Emit(entry: Entry)              // the daemon records an event
    | Load(unreadable: bool)          // the reader reads the checkpoint file, if it can
    | Open                            // the reader's connection opens
    | Read                            // the reader takes one event off the stream
    | StreamEnds
    | Receive(reply: Reply)           // the sender takes one event off the channel
    | Tick(reply: Reply)
    | Restart                         // the process dies and is started again

  ghost predicate Sorted(log: seq<Entry>) {
    forall i, j :: 0 <= i <= j < |log| ==> log[i].time <= log[j].time
  }

  /** The first position whose time is not before `since`. */
  function Since(log: seq<Entry>, since: int): (pos: nat)
    ensures pos <= |log|
    ensures forall i :: 0 <= i < pos ==> log[i].time < since
    ensures pos < |log| ==> log[pos].time >= since
  {
    if log == [] || log[0].time >= since then 0
    else 1 + Since(log[1..], since)
  }

  /** The connection that is about to open has no `since` parameter. */
  predicate Blind(s: Pipeline) {
    s.loaded == Some(None)
  }

  ghost predicate Enabled(s: Pipeline, e: Event) {
    match e
    case Emit(entry) => s.log == [] || s.log[|s.log| - 1].time <= entry.time
    case Load(_) => s.stream.None? && s.loaded.None?
    case Open => s.loaded.Some?
    case Read => s.stream.Some? && s.stream.value < |s.log| && |s.channel| < CHANNEL_CAPACITY
    case StreamEnds => s.stream.Some?
    case Receive(_) => s.channel != []
    case Tick(_) => true
    case Restart => true
  }

  function Next(s: Pipeline, e: Event): Pipeline {
    match e
    case Emit(entry) => s.(log := s.log + [entry])
    case Load(unreadable) => s.(loaded := Some(if unreadable then None else s.sender.checkpoint))
    case Open =>
      (match s.loaded
       case None => s
       case Some(None) => s.(loaded := None, stream := Some(|s.log|), base := |s.log|)
       case Some(Some(since)) => s.(loaded := None, stream := Some(Since(s.log, since))))
    case Read =>
      if s.stream.Some? && s.stream.value < |s.log| then
        var pos := s.stream.value;
        s.(stream := Some(pos + 1),
           channel := if s.log[pos].reportable then s.channel + [Queued(pos, s.log[pos].time)] else s.channel)
      else s
    case StreamEnds => s.(stream := None)
    case Receive(reply) =>
      if s.channel == [] then s
      else s.(channel := s.channel[1..], sender := DockerSensor.Receive(s.sender, s.channel[0], reply))
    case Tick(reply) => s.(sender := Flush(s.sender, reply))
    case Restart => s.(loaded := None, stream := None, channel := [], sender := s.sender.(buffer := []))
  }

  ghost predicate Init(s: Pipeline) {
    && Sorted(s.log) && s.loaded.None? && s.stream.None? && s.channel == []
    && s.sender == Sender([], None, []) && s.base == |s.log|
  }

  ghost predicate CanRun(s: Pipeline, events: seq<Event>)
    decreases |events|
  {
    events == [] || (Enabled(s, events[0]) && CanRun(Next(s, events[0]), events[1..]))
  }

  function Run(s: Pipeline, events: seq<Event>): Pipeline
    decreases |events|
  {
    if events == [] then s else Run(Next(s, events[0]), events[1..])
  }

  /** The event at `pos` was stored, rejected as a single item, or dropped. */
  predicate Accounted(s: Pipeline, pos: nat) {
    exists i :: 0 <= i < |s.sender.settled| && s.sender.settled[i].event.pos == pos
  }

  function Queue(s: Pipeline): seq<Queued> {
    s.sender.buffer + s.channel
  }

  predicate InQueue(queue: seq<Queued>, pos: nat) {
    exists i :: 0 <= i < |queue| && queue[i].pos == pos
  }

  predicate Reportable(s: Pipeline, pos: nat) {
    pos < |s.log| && s.log[pos].reportable
  }

  /** Every reportable event from `base` up to `end` is accounted for or in `queue`. */
  ghost predicate Covered(s: Pipeline, queue: seq<Queued>, end: nat) {
    forall pos :: s.base <= pos < end && Reportable(s, pos) ==> Accounted(s, pos) || InQueue(queue, pos)
  }

  ghost predicate Inv(s: Pipeline) {
    && Sorted(s.log) && s.base <= |s.log|
    // queued events are log entries, and nothing reportable before them is missing
    && (forall i :: 0 <= i < |Queue(s)| ==>
        Queue(s)[i].pos < |s.log| && Queue(s)[i].time == s.log[Queue(s)[i].pos].time)
    && (forall i :: 0 <= i < |Queue(s)| ==> Covered(s, Queue(s)[..i], Queue(s)[i].pos))
    // nothing reportable behind the open stream is missing
    && (s.stream.Some? ==> s.stream.value <= |s.log| && Covered(s, Queue(s), s.stream.value))
    // nothing reportable before the checkpoint second, or before the one that was loaded, is unaccounted
    && (s.sender.checkpoint.Some? ==> SafeSince(s, s.sender.checkpoint.value))
    && (s.loaded.Some? ==> s.stream.None?)
    && (s.loaded.Some? && s.loaded.value.Some? ==> s.sender.checkpoint.Some? && SafeSince(s, s.loaded.value.value))
    && (forall i :: 0 <= i < |s.sender.settled| ==> s.sender.settled[i].event.pos < |s.log|)
  }

  /** A connection from this second on misses nothing that is unaccounted. */
  ghost predicate SafeSince(s: Pipeline, since: int) {
    s.log != [] && since <= s.log[|s.log| - 1].time && AccountedBefore(s, since)
  }

  ghost predicate AccountedBefore(s: Pipeline, checkpoint: int) {
    forall pos :: s.base <= pos && Reportable(s, pos) && s.log[pos].time < checkpoint ==> Accounted(s, pos)
  }

  lemma EmitInv(s: Pipeline, entry: Entry)
    requires Inv(s) && Enabled(s, Emit(entry))
    ensures Inv(Next(s, Emit(entry)))
  {
    var s' := Next(s, Emit(entry));
    assert Queue(s') == Queue(s);
    forall i | 0 <= i < |Queue(s')| ensures Covered(s', Queue(s')[..i], Queue(s')[i].pos) {
      assert Covered(s, Queue(s)[..i], Queue(s)[i].pos);
      CoveredFrame(s, s', Queue(s)[..i], Queue(s)[i].pos);
    }
    if s.stream.Some? { CoveredFrame(s, s', Queue(s), s.stream.value); }
    if s.sender.checkpoint.Some? { EmitSafe(s, entry, s.sender.checkpoint.value); }
    if s.loaded.Some? && s.loaded.value.Some? { EmitSafe(s, entry, s.loaded.value.value); }
  }

  lemma EmitSafe(s: Pipeline, entry: Entry, since: int)
    requires Enabled(s, Emit(entry)) && SafeSince(s, since)
    ensures SafeSince(Next(s, Emit(entry)), since)
  {
    var s' := Next(s, Emit(entry));
    forall pos | s'.base <= pos && Reportable(s', pos) && s'.log[pos].time < since ensures Accounted(s', pos) {
      assert Reportable(s, pos);
      assert Accounted(s, pos);
    }
  }

  /** Coverage only gets easier when more is settled, the base moves up or the log grows. */
  lemma CoveredFrame(s: Pipeline, s': Pipeline, queue: seq<Queued>, end: nat)
    requires Covered(s, queue, end) && s.base <= s'.base && s.log <= s'.log && end <= |s.log|
    requires s.sender.settled <= s'.sender.settled
    ensures Covered(s', queue, end)
  {
    forall pos | s'.base <= pos < end && Reportable(s', pos) ensures Accounted(s', pos) || InQueue(queue, pos) {
      assert Reportable(s, pos);
      if Accounted(s, pos) { AccountedFrame(s, s', pos); }
    }
  }

  lemma AccountedFrame(s: Pipeline, s': Pipeline, pos: nat)
    requires Accounted(s, pos) && s.sender.settled <= s'.sender.settled
    ensures Accounted(s', pos)
  {
    var i :| 0 <= i < |s.sender.settled| && s.sender.settled[i].event.pos == pos;
    assert s'.sender.settled[i] == s.sender.settled[i];
  }

  lemma LoadInv(s: Pipeline, unreadable: bool)
    requires Inv(s) && Enabled(s, Load(unreadable))
    ensures Inv(Next(s, Load(unreadable)))
  {
    var s' := Next(s, Load(unreadable));
    assert Queue(s') == Queue(s);
    forall i | 0 <= i < |Queue(s')| ensures Covered(s', Queue(s')[..i], Queue(s')[i].pos) {
      assert Covered(s, Queue(s)[..i], Queue(s)[i].pos);
      CoveredFrame(s, s', Queue(s)[..i], Queue(s)[i].pos);
    }
    if s.sender.checkpoint.Some? { SameSafe(s, s', s.sender.checkpoint.value); }
  }

  lemma SameSafe(s: Pipeline, s': Pipeline, since: int)
    requires SafeSince(s, since) && s'.log == s.log && s.base <= s'.base && s.sender.settled <= s'.sender.settled
    ensures SafeSince(s', since)
  {
    forall pos | s'.base <= pos && Reportable(s', pos) && s'.log[pos].time < since ensures Accounted(s', pos) {
      assert Reportable(s, pos);
      AccountedFrame(s, s', pos);
    }
  }

  lemma OpenInv(s: Pipeline)
    requires Inv(s) && Enabled(s, Open)
    ensures Inv(Next(s, Open))
  {
    var s' := Next(s, Open);
    assert Queue(s') == Queue(s);
    forall i | 0 <= i < |Queue(s')| ensures Covered(s', Queue(s')[..i], Queue(s')[i].pos) {
      assert Covered(s, Queue(s)[..i], Queue(s)[i].pos);
      CoveredFrame(s, s', Queue(s)[..i], Queue(s)[i].pos);
    }
    if s.sender.checkpoint.Some? { SameSafe(s, s', s.sender.checkpoint.value); }
    OpenCovers(s);
  }

  /** What the new stream leaves behind is accounted for. */
  lemma OpenCovers(s: Pipeline)
    requires Inv(s) && Enabled(s, Open)
    ensures var s' := Next(s, Open); s'.stream.Some? && Covered(s', Queue(s'), s'.stream.value)
  {
    var s' := Next(s, Open);
    if !Blind(s) {
      forall pos | s'.base <= pos < s'.stream.value && Reportable(s', pos) ensures Accounted(s', pos) {
        assert Reportable(s, pos) && s.log[pos].time < s.loaded.value.value;
        assert Accounted(s, pos);
      }
    }
  }

  lemma ReadInv(s: Pipeline)
    requires Inv(s) && Enabled(s, Read)
    ensures Inv(Next(s, Read))
  {
    var s' := Next(s, Read);
    var pos := s.stream.value;
    var queue, queue' := Queue(s), Queue(s');
    if s.log[pos].reportable {
      assert queue' == queue + [Queued(pos, s.log[pos].time)];
      assert queue'[|queue|].pos == pos;
    } else {
      assert queue' == queue;
    }
    forall i | 0 <= i < |queue'| ensures Covered(s', queue'[..i], queue'[i].pos) {
      if i < |queue| {
        assert queue'[..i] == queue[..i];
        assert Covered(s, queue[..i], queue[i].pos);
      } else {
        assert queue'[..i] == queue;
      }
    }
    ReadCovers(s);
    if s.sender.checkpoint.Some? { SameSafe(s, s', s.sender.checkpoint.value); }
  }

  /** The event that the stream moves past is put into the channel. */
  lemma ReadCovers(s: Pipeline)
    requires Inv(s) && Enabled(s, Read)
    ensures var s' := Next(s, Read); Covered(s', Queue(s'), s'.stream.value)
  {
    var s' := Next(s, Read);
    var pos, queue, queue' := s.stream.value, Queue(s), Queue(s');
    assert queue' == queue + (if s.log[pos].reportable then [Queued(pos, s.log[pos].time)] else []);
    if s.log[pos].reportable { assert queue'[|queue|].pos == pos; }
    forall p | s'.base <= p < pos + 1 && Reportable(s', p) ensures Accounted(s', p) || InQueue(queue', p) {
      if p < pos {
        assert Reportable(s, p);
        if InQueue(queue, p) {
          var i :| 0 <= i < |queue| && queue[i].pos == p;
          assert queue'[i] == queue[i];
        }
      }
    }
  }

  /** A part at the front of the queue is settled; the rest keeps its coverage. */
  lemma SettledFront(s: Pipeline, s': Pipeline, n: nat)
    requires Inv(s) && n <= |Queue(s)| && s'.log == s.log && s'.base == s.base
    requires s'.stream == s.stream && s'.loaded == s.loaded && Queue(s') == Queue(s)[n..]
    requires |s'.sender.settled| == |s.sender.settled| + n && s.sender.settled <= s'.sender.settled
    requires forall i :: 0 <= i < n ==> s'.sender.settled[|s.sender.settled| + i].event == Queue(s)[i]
    requires || s'.sender.checkpoint == s.sender.checkpoint
             || (n > 0 && s'.sender.checkpoint == Some(Queue(s)[n - 1].time))
    ensures Inv(s')
  {
    SettledQueue(s, s', n);
    if s'.stream.Some? {
      assert Queue(s)[..|Queue(s)|] == Queue(s);
      SettledCovers(s, s', n, |Queue(s)|, s.stream.value);
      assert Queue(s)[n..|Queue(s)|] == Queue(s');
    }
    if s'.sender.checkpoint.Some? { SettledCheckpoint(s, s', n); }
    if s.loaded.Some? && s.loaded.value.Some? { SameSafe(s, s', s.loaded.value.value); }
    SettledPositions(s, s', n);
  }

  lemma SettledPositions(s: Pipeline, s': Pipeline, n: nat)
    requires Inv(s) && n <= |Queue(s)| && s'.log == s.log
    requires |s'.sender.settled| == |s.sender.settled| + n && s.sender.settled <= s'.sender.settled
    requires forall i :: 0 <= i < n ==> s'.sender.settled[|s.sender.settled| + i].event == Queue(s)[i]
    ensures forall i :: 0 <= i < |s'.sender.settled| ==> s'.sender.settled[i].event.pos < |s'.log|
  {
    forall i | 0 <= i < |s'.sender.settled| ensures s'.sender.settled[i].event.pos < |s'.log| {
      var was := |s.sender.settled|;
      if i < was {
        assert s'.sender.settled[i] == s.sender.settled[i];
      } else {
        assert s'.sender.settled[was + (i - was)].event == Queue(s)[i - was];
      }
    }
  }

  lemma SettledQueue(s: Pipeline, s': Pipeline, n: nat)
    requires Inv(s) && n <= |Queue(s)| && s'.log == s.log && s'.base == s.base && Queue(s') == Queue(s)[n..]
    requires |s'.sender.settled| == |s.sender.settled| + n && s.sender.settled <= s'.sender.settled
    requires forall i :: 0 <= i < n ==> s'.sender.settled[|s.sender.settled| + i].event == Queue(s)[i]
    ensures forall i :: 0 <= i < |Queue(s')| ==> Covered(s', Queue(s')[..i], Queue(s')[i].pos)
  {
    forall i | 0 <= i < |Queue(s')| ensures Covered(s', Queue(s')[..i], Queue(s')[i].pos) {
      assert Queue(s')[i] == Queue(s)[n + i] && Queue(s')[..i] == Queue(s)[n..n + i];
      SettledCovers(s, s', n, n + i, Queue(s)[n + i].pos);
    }
  }

  /** The checkpoint moves to the second of the last settled event, before which nothing is unaccounted. */
  lemma SettledCheckpoint(s: Pipeline, s': Pipeline, n: nat)
    requires Inv(s) && n <= |Queue(s)| && s'.log == s.log && s'.base == s.base && s'.sender.checkpoint.Some?
    requires |s'.sender.settled| == |s.sender.settled| + n && s.sender.settled <= s'.sender.settled
    requires forall i :: 0 <= i < n ==> s'.sender.settled[|s.sender.settled| + i].event == Queue(s)[i]
    requires || s'.sender.checkpoint == s.sender.checkpoint
             || (n > 0 && s'.sender.checkpoint == Some(Queue(s)[n - 1].time))
    ensures SafeSince(s', s'.sender.checkpoint.value)
  {
    if n > 0 {
      assert Queue(s)[n - 1].pos < |s.log| && Queue(s)[n - 1].time == s.log[Queue(s)[n - 1].pos].time;
    }
    forall pos | s'.base <= pos && Reportable(s', pos) && s'.log[pos].time < s'.sender.checkpoint.value
      ensures Accounted(s', pos)
    {
      assert Reportable(s, pos);
      if s'.sender.checkpoint == s.sender.checkpoint {
        AccountedFrame(s, s', pos);
      } else {
        SettledCovers(s, s', n - 1, n - 1, Queue(s)[n - 1].pos);
      }
    }
  }

  /** What was covered by the first `m` queued events is covered by those of them that are left. */
  lemma SettledCovers(s: Pipeline, s': Pipeline, n: nat, m: nat, end: nat)
    requires n <= m <= |Queue(s)| && Covered(s, Queue(s)[..m], end) && s'.log == s.log && s'.base == s.base
    requires |s'.sender.settled| >= |s.sender.settled| + n && s.sender.settled <= s'.sender.settled
    requires forall i :: 0 <= i < n ==> s'.sender.settled[|s.sender.settled| + i].event == Queue(s)[i]
    ensures Covered(s', Queue(s)[n..m], end)
  {
    var queue := Queue(s);
    forall pos | s'.base <= pos < end && Reportable(s', pos) ensures Accounted(s', pos) || InQueue(queue[n..m], pos) {
      assert Reportable(s, pos);
      if Accounted(s, pos) {
        AccountedFrame(s, s', pos);
      } else {
        var i :| 0 <= i < |queue[..m]| && queue[..m][i].pos == pos;
        if i < n {
          assert s'.sender.settled[|s.sender.settled| + i].event.pos == pos;
        } else {
          assert queue[n..m][i - n].pos == pos;
        }
      }
    }
  }

  lemma FlushInv(s: Pipeline, reply: Reply)
    requires Inv(s)
    ensures Inv(s.(sender := Flush(s.sender, reply)))
  {
    var buffer := s.sender.buffer;
    assert Queue(s)[..|buffer|] == buffer && Queue(s)[|buffer|..] == s.channel;
    if buffer != [] && IngressAccepts(reply, |buffer|) {
      AnsweredInv(s, reply);
    } else if |buffer| > MAX_BUFFERED_RETRY {
      DiscardedInv(s, reply);
    }
  }

  lemma AnsweredInv(s: Pipeline, reply: Reply)
    requires Inv(s) && s.sender.buffer != [] && IngressAccepts(reply, |s.sender.buffer|)
    ensures Inv(s.(sender := Flush(s.sender, reply)))
  {
    var s', n := s.(sender := Flush(s.sender, reply)), |s.sender.buffer|;
    assert Queue(s') == Queue(s)[n..];
    SettledFront(s, s', n);
  }

  lemma DiscardedInv(s: Pipeline, reply: Reply)
    requires Inv(s) && |s.sender.buffer| > MAX_BUFFERED_RETRY && !IngressAccepts(reply, |s.sender.buffer|)
    ensures Inv(s.(sender := Flush(s.sender, reply)))
  {
    var s', excess := s.(sender := Flush(s.sender, reply)), |s.sender.buffer| - MAX_BUFFERED_RETRY;
    assert Queue(s') == Queue(s)[excess..];
    SettledFront(s, s', excess);
  }

  lemma ReceiveInv(s: Pipeline, reply: Reply)
    requires Inv(s) && Enabled(s, Receive(reply))
    ensures Inv(Next(s, Receive(reply)))
  {
    var s1 := s.(channel := s.channel[1..], sender := s.sender.(buffer := s.sender.buffer + [s.channel[0]]));
    assert Queue(s1) == Queue(s);
    SettledFront(s, s1, 0);
    FlushInv(s1, reply);
  }

  lemma NextInv(s: Pipeline, e: Event)
    requires Inv(s) && Enabled(s, e)
    ensures Inv(Next(s, e))
  {
    match e
    case Emit(entry) => EmitInv(s, entry);
    case Load(unreadable) => LoadInv(s, unreadable);
    case Open => OpenInv(s);
    case Read => ReadInv(s);
    case StreamEnds =>
      assert Queue(Next(s, e)) == Queue(s);
      SettledFront(s.(stream := None), Next(s, e), 0);
    case Receive(reply) => ReceiveInv(s, reply);
    case Tick(reply) => FlushInv(s, reply);
    case Restart => assert Queue(Next(s, e)) == [];
  }

  lemma {:induction false} RunInv(s: Pipeline, events: seq<Event>)
    requires Inv(s) && CanRun(s, events)
    ensures Inv(Run(s, events))
    decreases |events|
  {
    if events != [] {
      NextInv(s, events[0]);
      RunInv(Next(s, events[0]), events[1..]);
    }
  }

  lemma InitInv(s: Pipeline)
    requires Init(s)
    ensures Inv(s)
  {
  }

  // --- what the sensor guarantees -----------------------------------------------------------

  /**
   No silent loss, over every run with any number of reconnects, outages and restarts: take a
   reportable event at or after the position where the latest connection without checkpoint began.
   If its second is before the checkpoint, it was stored, rejected as a single item, or dropped. While a
   stream is open, it is accounted for, queued, or still ahead of the stream. Whatever is not yet
   accounted for is read again by the next connection from the checkpoint, even after a crash.
   */
  lemma NoSilentLoss(init: Pipeline, events: seq<Event>, pos: nat)
    requires Init(init) && CanRun(init, events)
    requires Run(init, events).base <= pos && Reportable(Run(init, events), pos)
    ensures var s := Run(init, events);
            && (s.sender.checkpoint.Some? && s.log[pos].time < s.sender.checkpoint.value ==> Accounted(s, pos))
            && (s.stream.Some? ==> Accounted(s, pos) || InQueue(Queue(s), pos) || s.stream.value <= pos)
            && (s.sender.checkpoint.Some? ==> Accounted(s, pos) || Since(s.log, s.sender.checkpoint.value) <= pos)
  {
    InitInv(init);
    RunInv(init, events);
  }

  /** A checkpoint is saved, and no connection without it is about to open. */
  predicate Anchored(s: Pipeline) {
    s.sender.checkpoint.Some? && !Blind(s)
  }

  /** The checkpoint file can be read whenever it is there. */
  ghost predicate Readable(events: seq<Event>) {
    forall i :: 0 <= i < |events| ==> events[i] != Load(true)
  }

  lemma {:induction false} BaseStays(s: Pipeline, events: seq<Event>)
    requires Anchored(s) && CanRun(s, events) && Readable(events)
    ensures Run(s, events).base == s.base && Anchored(Run(s, events))
    decreases |events|
  {
    if events != [] {
      assert events[0] != Load(true);
      forall i | 0 <= i < |events[1..]| ensures events[1..][i] != Load(true) {
        assert events[1..][i] == events[i + 1];
      }
      BaseStays(Next(s, events[0]), events[1..]);
    }
  }

  /**
   Once a checkpoint is saved and no connection without it is about to open, across any number of
   reconnects, outages and crashes in which the checkpoint file stays readable: every reportable event
   since the connection that led to it, if its second is before the present checkpoint, was stored,
   rejected as a single item, or dropped, and every other one is still queued, ahead of the stream, or
   read again from the checkpoint.
   */
  lemma NoSilentLossFromCheckpoint(init: Pipeline, before: seq<Event>, after: seq<Event>, pos: nat)
    requires Init(init) && CanRun(init, before) && CanRun(Run(init, before), after) && Readable(after)
    requires Anchored(Run(init, before))
    requires Run(init, before).base <= pos && Reportable(Run(Run(init, before), after), pos)
    ensures var s := Run(Run(init, before), after);
            && s.sender.checkpoint.Some?
            && (s.log[pos].time < s.sender.checkpoint.value ==> Accounted(s, pos))
            && (s.stream.Some? ==> Accounted(s, pos) || InQueue(Queue(s), pos) || s.stream.value <= pos)
            && (Accounted(s, pos) || Since(s.log, s.sender.checkpoint.value) <= pos)
  {
    InitInv(init);
    RunInv(init, before);
    RunInv(Run(init, before), after);
    BaseStays(Run(init, before), after);
  }

  // --- exactly when nothing new is lost -----------------------------------------------------

  /** The event at `pos` is accounted for, queued, or ahead of the open stream. */
  predicate Kept(s: Pipeline, pos: nat) {
    Accounted(s, pos) || InQueue(Queue(s), pos) || (s.stream.Some? && s.stream.value <= pos)
  }

  /**
   In no run from `s` with a readable checkpoint file is a reportable event that is recorded from now on
   lost at a moment when a stream is open.
   */
  ghost predicate KeepsAllNew(s: Pipeline) {
    forall events: seq<Event>, pos: nat ::
      (&& CanRun(s, events) && Readable(events) && |s.log| <= pos && Reportable(Run(s, events), pos)
       && Run(s, events).stream.Some?)
      ==> Kept(Run(s, events), pos)
  }

  /** The daemon records one more reportable event. */
  function Another(s: Pipeline): Entry {
    Entry(if s.log == [] then 0 else s.log[|s.log| - 1].time, true)
  }

  /** An event that is recorded before a connection without checkpoint opens is lost. */
  lemma BlindOpenLoses(s: Pipeline)
    requires Inv(s) && Blind(s)
    ensures !KeepsAllNew(s)
  {
    var entry := Another(s);
    var events := [Emit(entry), Open];
    var s1 := Next(s, Emit(entry));
    var s2 := Next(s1, Open);
    assert events[1..] == [Open] && events[1..][1..] == [];
    assert CanRun(s1, [Open]) && CanRun(s, events) && Run(s1, [Open]) == s2 && Run(s, events) == s2;
    assert Queue(s2) == Queue(s);
    assert Reportable(s2, |s.log|) && !Kept(s2, |s.log|);
  }

  /** A run that leads to a loss starts with every event that leads there. */
  lemma LossAfter(s: Pipeline, e: Event)
    requires Enabled(s, e) && e != Load(true) && |Next(s, e).log| == |s.log| && !KeepsAllNew(Next(s, e))
    ensures !KeepsAllNew(s)
  {
    var s1 := Next(s, e);
    var events: seq<Event>, pos: nat :|
      && CanRun(s1, events) && Readable(events) && |s1.log| <= pos && Reportable(Run(s1, events), pos)
      && Run(s1, events).stream.Some? && !Kept(Run(s1, events), pos);
    var all := [e] + events;
    assert all[1..] == events;
    assert CanRun(s, all) && Run(s, all) == Run(s1, events) && Readable(all);
  }

  /**
   Exactly when the sensor loses nothing from now on, in any state that it can be in: if and only if a
   checkpoint is saved, and the reader is not about to open a connection for which it found none.
   */
  lemma NothingNewIsLostExactlyWhen(init: Pipeline, before: seq<Event>)
    requires Init(init) && CanRun(init, before)
    ensures KeepsAllNew(Run(init, before)) <==> Anchored(Run(init, before))
  {
    var s := Run(init, before);
    InitInv(init);
    RunInv(init, before);
    if Anchored(s) {
      forall events: seq<Event>, pos: nat
        | && CanRun(s, events) && Readable(events) && |s.log| <= pos && Reportable(Run(s, events), pos)
          && Run(s, events).stream.Some?
        ensures Kept(Run(s, events), pos)
      {
        RunInv(s, events);
        BaseStays(s, events);
      }
    } else {
      UnanchoredLoses(s);
    }
  }

  lemma UnanchoredLoses(s: Pipeline)
    requires Inv(s) && !Anchored(s)
    ensures !KeepsAllNew(s)
    decreases s.stream.Some?
  {
    if Blind(s) {
      BlindOpenLoses(s);
    } else if s.stream.Some? {
      NextInv(s, StreamEnds);
      UnanchoredLoses(Next(s, StreamEnds));
      LossAfter(s, StreamEnds);
    } else {
      NextInv(s, Load(false));
      BlindOpenLoses(Next(s, Load(false)));
      LossAfter(s, Load(false));
    }
  }

  /** The event at `pos` is not accounted for, and nothing can bring the stream back to it. */
  ghost predicate Gone(s: Pipeline, pos: nat) {
    && pos < |s.log| && !Accounted(s, pos)
    && (s.sender.checkpoint.Some? ==> s.log[pos].time < s.sender.checkpoint.value)
    && (s.loaded.Some? && s.loaded.value.Some? ==> s.log[pos].time < s.loaded.value.value)
    && (s.stream.Some? ==> pos < s.stream.value)
    && (forall i :: 0 <= i < |Queue(s)| ==> pos < Queue(s)[i].pos && s.log[pos].time < Queue(s)[i].time)
    && (forall j :: pos < j < |s.log| ==> s.log[pos].time < s.log[j].time)
    && pos + 1 < |s.log|
  }

  lemma GoneSender(s: Pipeline, s': Pipeline, pos: nat, buffer: seq<Queued>, reply: Reply)
    requires Gone(s, pos) && s'.log == s.log && s'.stream == s.stream && s'.loaded == s.loaded
    requires buffer + s'.channel == Queue(s) && s'.sender == Flush(s.sender.(buffer := buffer), reply)
    ensures Gone(s', pos)
  {
    forall i | 0 <= i < |buffer| ensures pos < buffer[i].pos && s.log[pos].time < buffer[i].time {
      assert buffer[i] == Queue(s)[i];
    }
    forall i | 0 <= i < |s'.channel| ensures pos < s'.channel[i].pos && s.log[pos].time < s'.channel[i].time {
      assert s'.channel[i] == Queue(s)[|buffer| + i];
    }
    forall i | 0 <= i < |s'.sender.settled| ensures s'.sender.settled[i].event.pos != pos {
      if i < |s.sender.settled| { assert s'.sender.settled[i] == s.sender.settled[i]; }
    }
  }

  lemma GoneReceive(s: Pipeline, reply: Reply, pos: nat)
    requires Gone(s, pos) && s.channel != []
    ensures Gone(Next(s, Event.Receive(reply)), pos)
  {
    var s' := Next(s, Event.Receive(reply));
    var buffer := s.sender.buffer + [s.channel[0]];
    assert buffer + s'.channel == Queue(s);
    if |buffer| >= BATCH_MAX_ITEMS {
      GoneSender(s, s', pos, buffer, reply);
    } else {
      assert Queue(s') == Queue(s);
    }
  }

  lemma GoneRead(s: Pipeline, pos: nat)
    requires Gone(s, pos) && Enabled(s, Read)
    ensures Gone(Next(s, Read), pos)
  {
    var read := s.stream.value;
    assert Queue(Next(s, Read))
        == Queue(s) + (if s.log[read].reportable then [Queued(read, s.log[read].time)] else []);
  }

  lemma GoneEmit(s: Pipeline, entry: Entry, pos: nat)
    requires Sorted(s.log) && Gone(s, pos) && Enabled(s, Emit(entry))
    ensures Gone(Next(s, Emit(entry)), pos) && Sorted(Next(s, Emit(entry)).log)
  {
    assert Queue(Next(s, Emit(entry))) == Queue(s);
  }

  lemma GoneStep(s: Pipeline, e: Event, pos: nat)
    requires Sorted(s.log) && Gone(s, pos) && Enabled(s, e)
    ensures Gone(Next(s, e), pos) && Sorted(Next(s, e).log)
  {
    match e
    case Emit(entry) => GoneEmit(s, entry, pos);
    case Load(_) => assert Queue(Next(s, e)) == Queue(s);
    case Open => assert Queue(Next(s, e)) == Queue(s);
    case Read => GoneRead(s, pos);
    case StreamEnds => assert Queue(Next(s, e)) == Queue(s);
    case Receive(reply) => GoneReceive(s, reply, pos);
    case Tick(reply) => GoneSender(s, Next(s, e), pos, s.sender.buffer, reply);
    case Restart => assert Queue(Next(s, e)) == [];
  }

  /** A lost event stays lost in every run: it is never acknowledged and never counted as dropped. */
  lemma {:induction false} LostForever(s: Pipeline, events: seq<Event>, pos: nat)
    requires Sorted(s.log) && Gone(s, pos) && CanRun(s, events)
    ensures !Accounted(Run(s, events), pos)
    decreases |events|
  {
    if events != [] {
      GoneStep(s, events[0], pos);
      LostForever(Next(s, events[0]), events[1..], pos);
    }
  }

  lemma {:induction false} Then(s: Pipeline, events: seq<Event>, e: Event)
    requires CanRun(s, events) && Enabled(Run(s, events), e)
    ensures CanRun(s, events + [e]) && Run(s, events + [e]) == Next(Run(s, events), e)
    decreases |events|
  {
    if events == [] {
      assert events + [e] == [e];
      assert CanRun(s, [e]);
    } else {
      assert (events + [e])[1..] == events[1..] + [e];
      Then(Next(s, events[0]), events[1..], e);
    }
  }

  /**
   The sensor can lose any event silently although it was connected before and after it: the first
   stream ends before a checkpoint exists, so the second connection starts with the next event.
   */
  lemma BlindReconnectLoses(init: Pipeline, missed: Entry, seen: Entry) returns (events: seq<Event>)
    requires Init(init) && Enabled(init, Emit(missed)) && missed.reportable && missed.time < seen.time
    ensures CanRun(init, events)
    ensures var s := Run(init, events);
            && Sorted(s.log) && Reportable(s, |init.log|) && s.log[|init.log|] == missed && Gone(s, |init.log|)
  {
    InitInv(init);
    events := ReadNothing(init);
    Then(init, events, Load(false));
    events := events + [Load(false)];
    Then(init, events, Emit(missed));
    events := events + [Emit(missed)];
    Then(init, events, Open);
    events := events + [Open];
    Then(init, events, Emit(seen));
    events := events + [Emit(seen)];
    var s := Run(init, events);
    RunInv(init, events);
    assert s.log == init.log + [missed] + [seen] && Queue(s) == [] && s.sender.settled == [];
  }

  /** A first connection that ends without an event. */
  lemma ReadNothing(init: Pipeline) returns (events: seq<Event>)
    requires Init(init)
    ensures CanRun(init, events) && Run(init, events) == init
  {
    events := [];
    Then(init, events, Load(false));
    events := events + [Load(false)];
    Then(init, events, Open);
    events := events + [Open];
    Then(init, events, StreamEnds);
    events := events + [StreamEnds];
  }

  /**
   A checkpoint that is saved after the reader has looked for one does not help its next connection: the
   state is reachable in which a checkpoint is saved and the connection is blind all the same.
   */
  lemma LateCheckpointDoesNotHelp(init: Pipeline, first: Entry) returns (events: seq<Event>)
    requires Init(init) && Enabled(init, Emit(first)) && first.reportable
    ensures CanRun(init, events) && Readable(events)
    ensures Run(init, events).sender.checkpoint == Some(first.time) && Blind(Run(init, events))
  {
    events := FirstEvent(init, first);
    var pushed := Queued(|init.log|, first.time);
    var reply := Reply(true, {}, true, true);
    Then(init, events, StreamEnds);
    events := events + [StreamEnds];
    Then(init, events, Load(false));
    events := events + [Load(false)];
    Then(init, events, Event.Receive(reply));
    events := events + [Event.Receive(reply)];
    Then(init, events, Tick(reply));
    events := events + [Tick(reply)];
    assert Run(init, events).sender == Flush(Sender([pushed], None, []), reply);
  }

  /** The first event is read into the channel. */
  lemma FirstEvent(init: Pipeline, first: Entry) returns (events: seq<Event>)
    requires Init(init) && Enabled(init, Emit(first)) && first.reportable
    ensures CanRun(init, events) && Readable(events)
    ensures Run(init, events)
            == init.(log := init.log + [first], stream := Some(|init.log| + 1),
                     channel := [Queued(|init.log|, first.time)])
  {
    events := [];
    Then(init, events, Load(false));
    events := events + [Load(false)];
    Then(init, events, Open);
    events := events + [Open];
    Then(init, events, Emit(first));
    events := events + [Emit(first)];
    Then(init, events, Read);
    events := events + [Read];
  }

  // --- catching up --------------------------------------------------------------------------

  /** The ingress takes everything and the checkpoint is saved. */
  const ALL_WELL := Reply(true, {}, true, true)

  /** A stream is open, nothing waits in the channel, and the buffer is below the batch size. */
  predicate Streaming(s: Pipeline) {
    s.stream.Some? && s.stream.value <= |s.log| && s.channel == [] && |s.sender.buffer| < 50
  }

  /** Reads one event, and takes it off the channel if it is reportable. */
  lemma ReadOne(s: Pipeline) returns (events: seq<Event>)
    requires Inv(s) && Streaming(s) && s.stream.value < |s.log|
    ensures CanRun(s, events)
    ensures var s' := Run(s, events);
            && Inv(s') && Streaming(s') && s'.log == s.log && s'.base == s.base && s'.stream == Some(s.stream.value + 1)
  {
    NextInv(s, Read);
    var s1 := Next(s, Read);
    events := [Read];
    Then(s, [], Read);
    assert [] + [Read] == events;
    if s1.channel != [] {
      NextInv(s1, Event.Receive(ALL_WELL));
      Then(s, events, Event.Receive(ALL_WELL));
      events := events + [Event.Receive(ALL_WELL)];
    }
  }

  lemma {:induction false} Joined(s: Pipeline, events: seq<Event>, more: seq<Event>)
    requires CanRun(s, events) && CanRun(Run(s, events), more)
    ensures CanRun(s, events + more) && Run(s, events + more) == Run(Run(s, events), more)
    decreases |events|
  {
    if events == [] {
      assert events + more == more;
    } else {
      assert (events + more)[1..] == events[1..] + more;
      Joined(Next(s, events[0]), events[1..], more);
    }
  }

  lemma {:induction false} ReadAll(s: Pipeline) returns (events: seq<Event>)
    requires Inv(s) && Streaming(s)
    ensures CanRun(s, events)
    ensures var s' := Run(s, events);
            && Inv(s') && Streaming(s') && s'.log == s.log && s'.base == s.base && s'.stream == Some(|s.log|)
    decreases |s.log| - s.stream.value
  {
    events := [];
    if s.stream.value < |s.log| {
      var one := ReadOne(s);
      var rest := ReadAll(Run(s, one));
      Joined(s, one, rest);
      events := one + rest;
    }
  }

  /** The process dies, is started again and connects. */
  lemma Reconnected(s: Pipeline) returns (events: seq<Event>)
    requires Inv(s) && s.sender.checkpoint.Some?
    ensures CanRun(s, events)
    ensures var s' := Run(s, events);
            && Inv(s') && Streaming(s') && s'.log == s.log && s'.base == s.base
            && s'.stream == Some(Since(s.log, s.sender.checkpoint.value)) && s'.sender.buffer == []
  {
    Then(s, [], Restart);
    events := [] + [Restart];
    Then(s, events, Load(false));
    events := events + [Load(false)];
    Then(s, events, Open);
    events := events + [Open];
    RunInv(s, events);
  }

  /**
   Whatever has happened, a stuck buffer included: once a checkpoint is saved, a restart catches up. If the
   ingress is then up, every reportable event from the latest connection without checkpoint on has been
   answered for or dropped, and nothing is left in the channel or the buffer.
   */
  lemma RestartCatchesUp(init: Pipeline, before: seq<Event>) returns (after: seq<Event>)
    requires Init(init) && CanRun(init, before) && Run(init, before).sender.checkpoint.Some?
    ensures CanRun(Run(init, before), after)
    ensures var s, s' := Run(init, before), Run(Run(init, before), after);
            && s'.log == s.log && Queue(s') == [] && s'.stream == Some(|s.log|)
            && forall pos :: s.base <= pos && Reportable(s', pos) ==> Accounted(s', pos)
  {
    var s := Run(init, before);
    InitInv(init);
    RunInv(init, before);
    after := Reconnected(s);
    var rest := ReadAll(Run(s, after));
    Joined(s, after, rest);
    after := after + rest;
    var read := Run(s, after);
    NextInv(read, Tick(ALL_WELL));
    Then(s, after, Tick(ALL_WELL));
    after := after + [Tick(ALL_WELL)];
    assert Queue(Next(read, Tick(ALL_WELL))) == [];
  }
}
