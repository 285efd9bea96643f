/** The bounded queue in front of the log table and the goroutine that writes it in batches
    (internal/logging/store.go; internal/logging/store_postgres.go has the same code). */
module LogPipeline {
  import opened Wrappers
  import opened Channels
  import opened LogEntry

  const QUEUE := 1000
  const BATCH := 100

  datatype Phase = Running | Draining | Ended

  /** `written` are the batches handed to writeBatch, `offers` the pushes made before the channel was closed, `taken`
      the number of entries received from it, and `panics` the number of pushes made after it was closed. */
  datatype State = State(queue: seq<Entry>, batch: seq<Entry>, written: seq<seq<Entry>>, phase: Phase,
                         offers: seq<Offer<Entry>>, taken: nat, panics: nat)

  const INIT := State([], [], [], Running, [], 0, 0)

  /** Take, Tick and Stop are the three cases of the writer's select; Drain and Finish are its shutdown. */
  datatype Action = Push(entry: Entry) | Take | Tick | Stop | Drain | Finish

  function Flushed(s: State): State {
    if s.batch == [] then s else s.(written := s.written + [s.batch], batch := [])
  }

  function Received(s: State): State
    requires s.queue != []
  {
    s.(queue := s.queue[1..], batch := s.batch + [s.queue[0]], taken := s.taken + 1)
  }

  /** An action whose case is not ready changes nothing. */
  function Next(s: State, a: Action): State {
    match a
    case Push(e) =>
      if s.phase != Running then s.(panics := s.panics + 1)
      else s.(queue := if |s.queue| < QUEUE then s.queue + [e] else s.queue, offers := s.offers + [Offer(e, s.taken)])
    case Take =>
      if s.phase != Running || s.queue == [] then s
      else if |s.batch| + 1 >= BATCH then Flushed(Received(s))
      else Received(s)
    case Tick => if s.phase != Running then s else Flushed(s)
    case Stop => if s.phase != Running then s else s.(phase := Draining)
    case Drain => if s.phase != Draining || s.queue == [] then s else Received(s)
    case Finish => if s.phase != Draining || s.queue != [] then s else Flushed(s).(phase := Ended)
  }

  function Run(actions: seq<Action>): State {
    if actions == [] then INIT else Next(Run(actions[..|actions| - 1]), actions[|actions| - 1])
  }

  /** Nothing is lost, duplicated or reordered between the queue and writeBatch. */
  ghost predicate Conserves(s: State) {
    && Flatten(s.written) + s.batch + s.queue == Kept(s.offers, QUEUE)
    && s.taken == |Flatten(s.written)| + |s.batch|
  }

  ghost predicate Bounded(s: State) {
    && |s.queue| <= QUEUE
    && (match s.phase
        case Running => |s.batch| < BATCH
        case Draining => |s.batch| + |s.queue| < BATCH + QUEUE
        case Ended => s.batch == [] && s.queue == [])
    && (forall i :: 0 <= i < |s.written| ==>
          0 < |s.written[i]| <= if s.phase == Ended && i == |s.written| - 1 then BATCH - 1 + QUEUE else BATCH)
  }

  ghost predicate Sound(s: State) {
    Conserves(s) && Bounded(s)
  }

  lemma PushConserves(s: State, e: Entry)
    requires Conserves(s) && s.phase == Running
    ensures Conserves(Next(s, Push(e)))
  {
    KeptMore(s.offers, QUEUE, Offer(e, s.taken));
    assert |Kept(s.offers, QUEUE)| - s.taken == |s.queue|;
    assert Flatten(s.written) + s.batch + (s.queue + [e]) == Flatten(s.written) + s.batch + s.queue + [e];
  }

  lemma ReceivedConserves(s: State)
    requires Conserves(s) && s.queue != []
    ensures Conserves(Received(s))
  {
    assert s.queue == [s.queue[0]] + s.queue[1..];
    assert Flatten(s.written) + (s.batch + [s.queue[0]]) + s.queue[1..] == Flatten(s.written) + s.batch + s.queue;
  }

  lemma FlushedConserves(s: State)
    requires Conserves(s)
    ensures Conserves(Flushed(s))
  {
    FlattenMore(s.written, s.batch);
    assert Flatten(s.written) + s.batch + [] == Flatten(s.written) + s.batch;
  }

  lemma FlushedBounded(s: State)
    requires Bounded(s) || (s.phase == Running && Bounded(s.(batch := [])) && |s.batch| == BATCH)
    ensures s.phase == Running ==> Bounded(Flushed(s))
    ensures s.phase == Draining && s.queue == [] ==> Bounded(Flushed(s).(phase := Ended))
  {
  }

  lemma NextSound(s: State, a: Action)
    requires Sound(s)
    ensures Sound(Next(s, a))
  {
    if Next(s, a) != s {
      match a
      case Push(e) =>
        if s.phase == Running {
          PushConserves(s, e);
        }
      case Take =>
        ReceivedConserves(s);
        FlushedConserves(Received(s));
        FlushedBounded(Received(s));
      case Drain =>
        ReceivedConserves(s);
      case Stop =>
      case Tick =>
        FlushedConserves(s);
        FlushedBounded(s);
      case Finish =>
        FlushedConserves(s);
        FlushedBounded(s);
    }
  }

  lemma EndedWroteEverything(s: State)
    requires Sound(s) && s.phase == Ended
    ensures Flatten(s.written) == Kept(s.offers, QUEUE)
  {
    assert Flatten(s.written) + [] + [] == Flatten(s.written);
  }

  lemma {:induction false} RunSound(actions: seq<Action>)
    ensures Sound(Run(actions))
  {
    if actions != [] {
      RunSound(actions[..|actions| - 1]);
      NextSound(Run(actions[..|actions| - 1]), actions[|actions| - 1]);
    }
  }

  /** What was pushed, in order. */
  function Pushes(actions: seq<Action>): seq<Entry> {
    if actions == [] then []
    else
      var earlier, last := Pushes(actions[..|actions| - 1]), actions[|actions| - 1];
      if last.Push? then earlier + [last.entry] else earlier
  }

  lemma {:induction false} OffersArePushes(actions: seq<Action>)
    ensures Run(actions).panics == 0 ==> Entries(Run(actions).offers) == Pushes(actions)
  {
    if actions != [] {
      var earlier, last := actions[..|actions| - 1], actions[|actions| - 1];
      OffersArePushes(earlier);
      if last.Push? {
        EntriesMore(Run(earlier).offers, Offer(last.entry, Run(earlier).taken));
      }
    }
  }

  /** In every reachable state the written batches, the current batch and the queue are, in this order, exactly the
      pushed entries without the dropped ones, and a push is dropped exactly when 1000 entries are waiting. */
  lemma NothingIsLost(actions: seq<Action>)
    requires Run(actions).panics == 0
    ensures var s := Run(actions);
            && Flatten(s.written) + s.batch + s.queue == Kept(s.offers, QUEUE)
            && Entries(s.offers) == Pushes(actions)
            && Subsequence(Flatten(s.written) + s.batch + s.queue, Pushes(actions))
  {
    RunSound(actions);
    OffersArePushes(actions);
    KeptInOrder(Run(actions).offers, QUEUE);
  }

  /** After shutdown every accepted entry has been handed to writeBatch exactly once, in order. */
  lemma ShutdownWritesEverything(actions: seq<Action>)
    requires Run(actions).phase == Ended
    ensures Flatten(Run(actions).written) == Kept(Run(actions).offers, QUEUE)
  {
    RunSound(actions);
    EndedWroteEverything(Run(actions));
  }

  /** The batch stays under 100 entries between iterations; a write has at most 100 entries, and the last one of a
      shutdown at most 99 + 1000. */
  lemma BatchesAreBounded(actions: seq<Action>, i: nat)
    ensures var s := Run(actions);
            && (s.phase == Running ==> |s.batch| < BATCH)
            && (i < |s.written| ==> 0 < |s.written[i]|)
            && (i < |s.written| && |s.written[i]| > BATCH ==>
                  s.phase == Ended && i == |s.written| - 1 && |s.written[i]| <= 1099)
  {
    RunSound(actions);
  }

  predicate PushedAfterStop(actions: seq<Action>) {
    exists i, j :: 0 <= i < j < |actions| && actions[i] == Stop && actions[j].Push?
  }

  lemma {:induction false} RunningUntilStop(actions: seq<Action>)
    ensures Run(actions).phase == Running <==> Stop !in actions
  {
    if actions != [] {
      var earlier, last := actions[..|actions| - 1], actions[|actions| - 1];
      RunningUntilStop(earlier);
      assert actions == earlier + [last];
    }
  }

  lemma PushedAfterStopMore(earlier: seq<Action>, last: Action)
    ensures PushedAfterStop(earlier + [last]) <==> PushedAfterStop(earlier) || (last.Push? && Stop in earlier)
  {
    var n, actions := |earlier|, earlier + [last];
    if i, j :| 0 <= i < j < |actions| && actions[i] == Stop && actions[j].Push? {
      assert earlier[i] == Stop;
      assert j < n ==> earlier[j].Push?;
    }
    if i, j :| 0 <= i < j < n && earlier[i] == Stop && earlier[j].Push? {
      assert actions[i] == Stop && actions[j].Push?;
    }
    if i :| 0 <= i < n && earlier[i] == Stop && last.Push? {
      assert actions[i] == Stop && actions[n].Push?;
    }
  }

  /** A push panics exactly when the writer has already begun to shut down. */
  lemma {:induction false} PanicsIffPushedAfterStop(actions: seq<Action>)
    ensures Run(actions).panics > 0 <==> PushedAfterStop(actions)
  {
    if actions != [] {
      var earlier, last := actions[..|actions| - 1], actions[|actions| - 1];
      PanicsIffPushedAfterStop(earlier);
      RunningUntilStop(earlier);
      PushedAfterStopMore(earlier, last);
      assert actions == earlier + [last];
    }
  }

  class LogStore {
    var insertCh: seq<Entry>
    var closed: bool
    var batch: seq<Entry>
    var written: seq<seq<Entry>>
    /** The state with its history. */
    ghost var state: State

    ghost predicate Valid()
      reads this
    {
      && insertCh == state.queue && batch == state.batch && written == state.written
      && (closed <==> state.phase != Running) && Sound(state)
    }

    constructor ()
      ensures Valid() && state == INIT
    {
      insertCh, closed, batch, written, state := [], false, [], [], INIT;
    }

    /** Queues an entry without waiting. After the writer has closed the channel the send panics. */
    method Push(entry: Entry)
      requires Valid() && !closed
      modifies this`insertCh, this`state
      ensures Valid() && state == Next(old(state), Action.Push(entry))
    {
      NextSound(state, Action.Push(entry));
      if |insertCh| < QUEUE {
        insertCh := insertCh + [entry];
      }
      state := Next(state, Action.Push(entry));
    }

    method Flush()
      requires batch == state.batch && written == state.written
      modifies this`batch, this`written, this`state
      ensures batch == state.batch && written == state.written && state == Flushed(old(state))
    {
      state := Flushed(state);
      if |batch| == 0 {
        return;
      }
      written := written + [batch];
      batch := [];
    }

    /** The select's case for an entry. */
    method Take()
      requires Valid() && !closed && insertCh != []
      modifies this
      ensures Valid() && state == Next(old(state), Action.Take) && !closed
    {
      NextSound(state, Action.Take);
      batch := batch + [insertCh[0]];
      insertCh := insertCh[1..];
      state := Received(state);
      if |batch| >= BATCH {
        Flush();
      }
    }

    /** The select's case for the ticker: nothing received before a tick stays unwritten. */
    method Tick()
      requires Valid() && !closed
      modifies this
      ensures Valid() && state == Next(old(state), Action.Tick) && !closed
      ensures Flatten(written) + insertCh == Kept(state.offers, QUEUE)
    {
      NextSound(state, Action.Tick);
      Flush();
      assert Flatten(written) + [] + insertCh == Flatten(written) + insertCh;
    }

    /** Receives everything that is left in the closed channel. */
    method DrainQueue()
      requires Valid() && state.phase == Draining
      modifies this
      ensures Valid() && state.phase == Draining && state.offers == old(state.offers) && closed
      ensures insertCh == [] && batch == old(batch) + old(insertCh) && written == old(written)
    {
      while |insertCh| > 0
        invariant Valid() && state.phase == Draining && state.offers == old(state.offers)
        invariant written == old(written) && batch + insertCh == old(batch) + old(insertCh)
        decreases |insertCh|
      {
        NextSound(state, Drain);
        assert insertCh == [insertCh[0]] + insertCh[1..];
        batch := batch + [insertCh[0]];
        insertCh := insertCh[1..];
        state := Next(state, Drain);
      }
      assert batch + [] == batch;
    }

    /** The select's case for shutdown: closes the channel, drains it and writes what is left as one batch. */
    method Shutdown()
      requires Valid() && !closed
      modifies this
      ensures Valid() && state.phase == Ended && state.offers == old(state.offers)
      ensures var rest := old(batch) + old(insertCh); written == old(written) + if rest == [] then [] else [rest]
      ensures Flatten(written) == Kept(old(state.offers), QUEUE)
    {
      closed := true;
      NextSound(state, Stop);
      state := Next(state, Stop);
      DrainQueue();
      NextSound(state, Finish);
      EndedWroteEverything(Next(state, Finish));
      Flush();
      state := state.(phase := Ended);
    }
  }
}
