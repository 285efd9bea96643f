/** The live log feed: pushes, subscriptions and cancellations in any interleaving of their atomic steps
    (internal/logging/ringbuffer.go). */
module Subscribers {
  import opened Wrappers
  import opened Channels
  import opened LogEntry

  const BUFFER := 100

  /** A buffered channel: the entries waiting in it, and whether it is closed. */
  datatype Chan = Chan(queue: seq<Entry>, closed: bool)

  /** The non-blocking send on an open channel. */
  function NonBlockingSend(c: Chan, e: Entry): Chan {
    if |c.queue| < BUFFER then c.(queue := c.queue + [e]) else c
  }

  /** A subscriber's channel, with what happened to it: what was received from it, what was offered to it, and the
      number of pushes made before it was registered and, later, before it was deleted. */
  datatype Channel = Channel(chan: Chan, received: seq<Entry>, offers: seq<Offer<Entry>>, since: nat,
                             until: Option<nat>)

  function Send(c: Channel, e: Entry): Channel {
    c.(chan := NonBlockingSend(c.chan, e), offers := c.offers + [Offer(e, |c.received|)])
  }

  /** A receive. */
  function Taken(c: Channel): Channel
    requires c.chan.queue != []
  {
    c.(chan := c.chan.(queue := c.chan.queue[1..]), received := c.received + [c.chan.queue[0]])
  }

  /** `cancelling` holds the calls of cancel functions that have deleted their channel but not yet closed it;
      `cancels` all that were ever called. */
  datatype State = State(pushed: seq<Entry>, channels: seq<Channel>, subscribers: set<nat>,
                         cancelling: multiset<nat>, cancels: multiset<nat>, sentOnClosed: bool, closedTwice: bool)

  const INIT := State([], [], {}, multiset{}, multiset{}, false, false)

  /** Push and Subscribe hold the lock throughout; a cancel function deletes under the lock and closes outside it. */
  datatype Action = Push(entry: Entry) | Subscribe | Delete(h: nat) | Close(h: nat) | Receive(h: nat)

  predicate Panicked(s: State) {
    s.sentOnClosed || s.closedTwice
  }

  predicate Enabled(s: State, a: Action) {
    && !Panicked(s)
    && match a
       case Push(_) => true
       case Subscribe => true
       case Delete(h) => h < |s.channels|
       case Close(h) => h in s.cancelling
       case Receive(h) => h < |s.channels| && s.channels[h].chan.queue != []
  }

  function Broadcast(channels: seq<Channel>, subscribers: set<nat>, e: Entry): (r: seq<Channel>)
    ensures |r| == |channels|
    ensures forall h :: 0 <= h < |r| ==> r[h] == if h in subscribers then Send(channels[h], e) else channels[h]
  {
    seq(|channels|, h requires 0 <= h < |channels| => if h in subscribers then Send(channels[h], e) else channels[h])
  }

  predicate SomeClosed(s: State) {
    exists h :: h in s.subscribers && h < |s.channels| && s.channels[h].chan.closed
  }

  /** An action that is not enabled changes nothing. */
  function Next(s: State, a: Action): State {
    if !Enabled(s, a) then s
    else
      match a
      case Push(e) =>
        if SomeClosed(s) then s.(sentOnClosed := true)
        else s.(pushed := s.pushed + [e], channels := Broadcast(s.channels, s.subscribers, e))
      case Subscribe =>
        s.(channels := s.channels + [Channel(Chan([], false), [], [], |s.pushed|, None)],
           subscribers := s.subscribers + {|s.channels|})
      case Delete(h) =>
        var c := s.channels[h];
        s.(channels := s.channels[h := if c.until.None? then c.(until := Some(|s.pushed|)) else c],
           subscribers := s.subscribers - {h},
           cancelling := s.cancelling + multiset{h}, cancels := s.cancels + multiset{h})
      case Close(h) =>
        if h < |s.channels| && !s.channels[h].chan.closed then
          s.(channels := s.channels[h := s.channels[h].(chan := s.channels[h].chan.(closed := true))],
             cancelling := s.cancelling - multiset{h})
        else s.(closedTwice := true)
      case Receive(h) =>
        var c := s.channels[h];
        s.(channels := s.channels[h := Taken(c)])
  }

  function Run(actions: seq<Action>): State {
    if actions == [] then INIT else Next(Run(actions[..|actions| - 1]), actions[|actions| - 1])
  }

  function Upto(c: Channel, pushed: seq<Entry>): int {
    if c.until.Some? then c.until.value else |pushed|
  }

  /** What is received and buffered is what the bounded buffer lets through of the pushes made between registration
      and deletion. */
  ghost predicate Delivers(c: Channel, pushed: seq<Entry>) {
    && c.received + c.chan.queue == Kept(c.offers, BUFFER)
    && |c.chan.queue| <= BUFFER
    && c.since <= Upto(c, pushed) <= |pushed|
    && Entries(c.offers) == pushed[c.since..Upto(c, pushed)]
  }

  ghost predicate Registered(s: State, h: nat)
    requires h < |s.channels|
  {
    && (h in s.subscribers <==> s.channels[h].until.None?)
    && (h in s.subscribers ==> !s.channels[h].chan.closed && h !in s.cancels)
    && s.cancels[h] == s.cancelling[h] + if s.channels[h].chan.closed then 1 else 0
  }

  ghost predicate Known(s: State) {
    forall h :: h in s.subscribers || h in s.cancels || h in s.cancelling ==> h < |s.channels|
  }

  ghost predicate Sound(s: State) {
    && !s.sentOnClosed && Known(s)
    && (forall h :: 0 <= h < |s.channels| ==> Registered(s, h))
    && (forall h :: 0 <= h < |s.channels| ==> Delivers(s.channels[h], s.pushed))
    && (s.closedTwice ==> exists h :: s.cancels[h] >= 2)
  }

  lemma SendDelivers(c: Channel, pushed: seq<Entry>, e: Entry)
    requires Delivers(c, pushed) && c.until.None?
    ensures Delivers(Send(c, e), pushed + [e])
  {
    var o := Offer(e, |c.received|);
    KeptMore(c.offers, BUFFER, o);
    EntriesMore(c.offers, o);
    assert (pushed + [e])[c.since..|pushed| + 1] == pushed[c.since..|pushed|] + [e];
    assert c.received + (c.chan.queue + [e]) == c.received + c.chan.queue + [e];
  }

  lemma SkipDelivers(c: Channel, pushed: seq<Entry>, e: Entry)
    requires Delivers(c, pushed) && c.until.Some?
    ensures Delivers(c, pushed + [e])
  {
    assert (pushed + [e])[c.since..c.until.value] == pushed[c.since..c.until.value];
  }

  lemma ReceiveDelivers(c: Channel, pushed: seq<Entry>)
    requires Delivers(c, pushed) && c.chan.queue != []
    ensures Delivers(Taken(c), pushed)
  {
    assert c.received + [c.chan.queue[0]] + c.chan.queue[1..] == c.received + c.chan.queue;
  }

  lemma NoneClosed(s: State)
    requires Sound(s)
    ensures !SomeClosed(s)
  {
    forall h | h in s.subscribers
      ensures h < |s.channels| && !s.channels[h].chan.closed
    {
      assert Registered(s, h);
    }
  }

  lemma PushDelivers(s: State, h: nat, e: Entry)
    requires h < |s.channels| && Registered(s, h) && Delivers(s.channels[h], s.pushed)
    ensures var t := s.(pushed := s.pushed + [e], channels := Broadcast(s.channels, s.subscribers, e));
            Registered(t, h) && Delivers(t.channels[h], t.pushed)
  {
    if h in s.subscribers {
      SendDelivers(s.channels[h], s.pushed, e);
    } else {
      SkipDelivers(s.channels[h], s.pushed, e);
    }
  }

  lemma PushSound(s: State, e: Entry)
    requires Sound(s) && Enabled(s, Push(e))
    ensures Sound(Next(s, Push(e)))
  {
    NoneClosed(s);
    forall h | 0 <= h < |s.channels|
      ensures Registered(Next(s, Push(e)), h) && Delivers(Next(s, Push(e)).channels[h], s.pushed + [e])
    {
      PushDelivers(s, h, e);
    }
  }

  lemma SubscribeSound(s: State)
    requires Sound(s) && Enabled(s, Subscribe)
    ensures Sound(Next(s, Subscribe))
  {
    var t, n := Next(s, Subscribe), |s.channels|;
    assert n !in s.cancels && n !in s.cancelling;
    forall h | 0 <= h < |t.channels|
      ensures Registered(t, h) && Delivers(t.channels[h], t.pushed)
    {
      assert h < n ==> Registered(s, h);
    }
  }

  lemma DeleteSound(s: State, g: nat)
    requires Sound(s) && Enabled(s, Delete(g))
    ensures Sound(Next(s, Delete(g)))
  {
    var t := Next(s, Delete(g));
    assert Registered(s, g);
    forall h | 0 <= h < |t.channels|
      ensures Registered(t, h)
    {
      assert Registered(s, h);
    }
  }

  lemma CloseSound(s: State, g: nat)
    requires Sound(s) && Enabled(s, Close(g))
    ensures Sound(Next(s, Close(g)))
  {
    var t := Next(s, Close(g));
    assert Registered(s, g);
    if s.channels[g].chan.closed {
      assert t.cancels[g] >= 2;
    }
    forall h | 0 <= h < |t.channels|
      ensures Registered(t, h)
    {
      assert Registered(s, h);
    }
  }

  lemma ReceiveSound(s: State, g: nat)
    requires Sound(s) && Enabled(s, Receive(g))
    ensures Sound(Next(s, Receive(g)))
  {
    var t := Next(s, Receive(g));
    ReceiveDelivers(s.channels[g], s.pushed);
    forall h | 0 <= h < |t.channels|
      ensures Registered(t, h)
    {
      assert Registered(s, h);
    }
  }

  lemma NextSound(s: State, a: Action)
    requires Sound(s)
    ensures Sound(Next(s, a))
  {
    if Enabled(s, a) {
      match a
      case Push(e) => PushSound(s, e);
      case Subscribe => SubscribeSound(s);
      case Delete(h) => DeleteSound(s, h);
      case Close(h) => CloseSound(s, h);
      case Receive(h) => ReceiveSound(s, h);
    }
  }

  lemma {:induction false} RunSound(actions: seq<Action>)
    ensures Sound(Run(actions))
  {
    if actions != [] {
      RunSound(actions[..|actions| - 1]);
      NextSound(Run(actions[..|actions| - 1]), actions[|actions| - 1]);
    }
  }

  /** No run sends on a closed channel, however often cancel functions are called. */
  lemma NeverSendsOnClosed(actions: seq<Action>)
    ensures !Run(actions).sentOnClosed
  {
    RunSound(actions);
  }

  /** When every call of a cancel function has come to its end, a close has panicked exactly when some cancel function
      was called twice. */
  lemma PanicsIffCancelledTwice(actions: seq<Action>)
    requires Run(actions).cancelling == multiset{} || Panicked(Run(actions))
    ensures Panicked(Run(actions)) <==> exists h :: Run(actions).cancels[h] >= 2
  {
    var s := Run(actions);
    RunSound(actions);
    if h :| s.cancels[h] >= 2 {
      assert Registered(s, h);
    }
  }

  /** In every run a subscriber receives, in order, the entries pushed while it was registered, except those for which
      its 100 slots were full. */
  lemma SubscribersReceiveInOrder(actions: seq<Action>, h: nat)
    requires h < |Run(actions).channels|
    ensures var s := Run(actions);
            var c := s.channels[h];
            var end := Upto(c, s.pushed);
            && c.since <= end <= |s.pushed|
            && Entries(c.offers) == s.pushed[c.since..end]
            && c.received + c.chan.queue == Kept(c.offers, BUFFER)
            && Subsequence(c.received + c.chan.queue, s.pushed[c.since..end])
  {
    var s := Run(actions);
    RunSound(actions);
    assert Delivers(s.channels[h], s.pushed);
    KeptInOrder(s.channels[h].offers, BUFFER);
  }
}
