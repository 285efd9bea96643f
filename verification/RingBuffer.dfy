/** The in-memory log: a fixed-size circular buffer that feeds live subscribers (internal/logging/ringbuffer.go). */
module RingBuffer {
  import opened Wrappers
  import opened LogEntry
  import opened Subscribers

  const ZERO := Entry(0, "", "", "", "", 0, 0.0, 0, 0, "", "", "")

  function Min(a: int, b: int): int {
    if a < b then a else b
  }

  /** The last n elements of s, newest first. */
  function Newest<T>(s: seq<T>, n: nat): (r: seq<T>)
    requires n <= |s|
    ensures |r| == n && forall i :: 0 <= i < n ==> r[i] == s[|s| - 1 - i]
  {
    seq(n, i requires 0 <= i < n => s[|s| - 1 - i])
  }

  /** How many entries `Entries` returns. */
  function Shown(limit: int, size: nat): nat {
    if limit <= 0 || limit > size then size else limit
  }

  /** Stepping a circular index forwards and backwards. */
  lemma ModStep(k: nat, n: nat)
    requires n > 0
    ensures (k % n + 1) % n == (k + 1) % n
    ensures k > 0 ==> (k % n - 1 + n) % n == (k - 1) % n
  {
    var q, r := k / n, k % n;
    assert k == q * n + r;
    assert (q + 1) * n == q * n + n && (q - 1) * n == q * n - n;
    if r == n - 1 {
      DivUnique(k + 1, n, q + 1, 0);
      DivUnique(r + 1, n, 1, 0);
    } else {
      DivUnique(k + 1, n, q, r + 1);
      DivUnique(r + 1, n, 0, r + 1);
    }
    if k > 0 {
      if r == 0 {
        DivUnique(k - 1, n, q - 1, n - 1);
        DivUnique(r - 1 + n, n, 0, n - 1);
      } else {
        DivUnique(k - 1, n, q, r - 1);
        DivUnique(r - 1 + n, n, 1, r - 1);
      }
    }
  }

  /** No two of n consecutive positions share a slot. */
  lemma ModApart(j: nat, k: nat, n: nat)
    requires n > 0 && j < k < j + n
    ensures j % n != k % n
  {
    var q, r := j / n, j % n;
    assert j == q * n + r;
    assert (q + 1) * n == q * n + n;
    if r + (k - j) < n {
      DivUnique(k, n, q, r + (k - j));
    } else {
      DivUnique(k, n, q + 1, r + (k - j) - n);
    }
  }

  ghost predicate Shows(channels: seq<Chan>, histories: seq<Channel>) {
    && |channels| == |histories|
    && forall h :: 0 <= h < |channels| ==> channels[h] == histories[h].chan
  }

  /** Each of the last `size` pushes is in its slot. */
  ghost predicate Holds(slots: seq<Entry>, pushed: seq<Entry>, size: nat) {
    && size == Min(|pushed|, |slots|)
    && forall k :: |pushed| - size <= k < |pushed| ==> slots[k % |slots|] == pushed[k]
  }

  lemma HoldsOneMore(slots: seq<Entry>, pushed: seq<Entry>, size: nat, e: Entry)
    requires Holds(slots, pushed, size) && |slots| > 0
    ensures Holds(slots[|pushed| % |slots| := e], pushed + [e], Min(|pushed| + 1, |slots|))
  {
    var n, cap := |pushed|, |slots|;
    var slots', pushed', size' := slots[n % cap := e], pushed + [e], Min(n + 1, cap);
    forall k | n + 1 - size' <= k < n + 1
      ensures slots'[k % cap] == pushed'[k]
    {
      if k < n {
        ModApart(k, n, cap);
        assert slots[k % cap] == pushed[k];
      }
    }
  }

  /** The channels, the subscriber set and the history belong together. */
  ghost predicate Feeds(channels: seq<Chan>, subscribers: set<nat>, s: State) {
    Shows(channels, s.channels) && subscribers == s.subscribers && Sound(s) && !Panicked(s)
  }

  lemma SubscribersOpen(channels: seq<Chan>, subscribers: set<nat>, s: State)
    requires Feeds(channels, subscribers, s)
    ensures forall h :: h in subscribers ==> h < |channels| && !channels[h].closed
  {
    NoneClosed(s);
  }

  /** What a push leaves in the channels. */
  ghost predicate Notified(was: seq<Chan>, now: seq<Chan>, subscribers: set<nat>, e: Entry) {
    && |now| == |was|
    && forall h :: 0 <= h < |now| ==> now[h] == if h in subscribers then NonBlockingSend(was[h], e) else was[h]
  }

  lemma FeedsPush(was: seq<Chan>, now: seq<Chan>, subscribers: set<nat>, s: State, e: Entry)
    requires Feeds(was, subscribers, s) && Notified(was, now, subscribers, e)
    ensures Feeds(now, subscribers, Next(s, Subscribers.Push(e)))
    ensures Next(s, Subscribers.Push(e)).pushed == s.pushed + [e]
  {
    NoneClosed(s);
    NextSound(s, Subscribers.Push(e));
  }

  lemma FeedsCancel(channels: seq<Chan>, subscribers: set<nat>, s: State, h: nat)
    requires Feeds(channels, subscribers, s) && h < |channels| && !channels[h].closed
    ensures var t := Next(Next(s, Delete(h)), Close(h));
            Feeds(channels[h := channels[h].(closed := true)], subscribers - {h}, t) && t.pushed == s.pushed
  {
    NextSound(s, Delete(h));
    NextSound(Next(s, Delete(h)), Close(h));
  }

  lemma FeedsReceive(channels: seq<Chan>, subscribers: set<nat>, s: State, h: nat)
    requires Feeds(channels, subscribers, s) && h < |channels| && channels[h].queue != []
    ensures var t := Next(s, Subscribers.Receive(h));
            Feeds(channels[h := channels[h].(queue := channels[h].queue[1..])], subscribers, t) && t.pushed == s.pushed
  {
    NextSound(s, Subscribers.Receive(h));
  }

  class RingBuffer {
    const entries: array<Entry>
    var head: nat
    var size: nat
    const cap: nat
    var channels: seq<Chan>
    var subscribers: set<nat>
    /** The pushes and subscriptions so far. */
    ghost var state: State

    ghost predicate Valid()
      reads this, entries
    {
      && entries.Length == cap && (if cap == 0 then head == 0 && state.pushed == [] else head == |state.pushed| % cap)
      && Holds(entries[..], state.pushed, size)
      && Feeds(channels, subscribers, state)
    }

    constructor (capacity: nat)
      ensures Valid() && fresh(entries) && cap == capacity && state == INIT
    {
      entries := new Entry[capacity](_ => ZERO);
      head, size, cap, channels, subscribers, state := 0, 0, capacity, [], {}, INIT;
    }

    /** Puts an entry into the next slot. */
    method Store(entry: Entry, ghost pushed: seq<Entry>)
      requires entries.Length == cap > 0 && Holds(entries[..], pushed, size) && head == |pushed| % cap
      modifies entries, this`head, this`size
      ensures Holds(entries[..], pushed + [entry], size) && head == (|pushed| + 1) % cap
    {
      HoldsOneMore(entries[..], pushed, size, entry);
      ModStep(|pushed|, cap);
      ghost var slots := entries[..];
      entries[head] := entry;
      assert entries[..] == slots[|pushed| % cap := entry];
      head := (head + 1) % cap;
      if size < cap {
        size := size + 1;
      }
    }

    /** Adds an entry, over the oldest one when the buffer is full, and offers it to every subscriber. */
    method Push(entry: Entry)
      requires Valid() && cap > 0
      modifies this, entries
      ensures Valid() && state == Next(old(state), Subscribers.Push(entry))
      ensures state.pushed == old(state.pushed) + [entry]
    {
      SubscribersOpen(channels, subscribers, state);
      Store(entry, state.pushed);
      Notify(entry);
      FeedsPush(old(channels), channels, subscribers, state, entry);
      state := Next(state, Subscribers.Push(entry));
    }

    /** Offers an entry to every subscriber, in any order. */
    method Notify(entry: Entry)
      requires forall h :: h in subscribers ==> h < |channels| && !channels[h].closed
      modifies this`channels
      ensures Notified(old(channels), channels, subscribers, entry)
    {
      var todo := subscribers;
      while todo != {}
        invariant todo <= subscribers && Notified(old(channels), channels, subscribers - todo, entry)
        decreases |todo|
      {
        var h :| h in todo;
        channels := channels[h := NonBlockingSend(channels[h], entry)];
        todo := todo - {h};
      }
    }

    /** The entries of the buffer, newest first. */
    method Entries(limit: int) returns (result: seq<Entry>)
      requires Valid()
      ensures result == Newest(state.pushed, Shown(limit, Min(|state.pushed|, cap)))
    {
      result := [];
      if size == 0 {
        return;
      }
      var limit := if limit <= 0 || limit > size then size else limit;
      var idx := (head - 1 + cap) % cap;
      ghost var n := |state.pushed|;
      ModStep(n, cap);
      for i := 0 to limit
        invariant |result| == i
        invariant forall j :: 0 <= j < i ==> result[j] == state.pushed[n - 1 - j]
        invariant 0 <= idx < cap && (i < n ==> idx == (n - 1 - i) % cap)
      {
        result := result + [entries[idx]];
        if i + 1 < n {
          ModStep(n - 1 - i, cap);
        }
        idx := (idx - 1 + cap) % cap;
      }
    }

    /** Registers a new channel; its handle stands for the channel and for its cancel function. */
    method Subscribe() returns (h: nat)
      requires Valid()
      modifies this`channels, this`subscribers, this`state
      ensures Valid() && state == Next(old(state), Subscribers.Subscribe)
      ensures h == |old(channels)| && h in subscribers && channels[h] == Chan([], false)
    {
      h := |channels|;
      NextSound(state, Subscribers.Subscribe);
      channels := channels + [Chan([], false)];
      subscribers := subscribers + {h};
      state := Next(state, Subscribers.Subscribe);
    }

    /** The cancel function: delete the channel, then close it. Closing a closed channel panics. */
    method Cancel(h: nat)
      requires Valid() && h < |channels| && !channels[h].closed
      modifies this`channels, this`subscribers, this`state
      ensures Valid() && state == Next(Next(old(state), Delete(h)), Close(h))
      ensures subscribers == old(subscribers) - {h} && |channels| == |old(channels)| && channels[h].closed
    {
      FeedsCancel(channels, subscribers, state, h);
      subscribers := subscribers - {h};
      channels := channels[h := channels[h].(closed := true)];
      state := Next(Next(state, Delete(h)), Close(h));
    }

    /** A receive by the subscriber, which blocks while nothing is waiting. */
    method Receive(h: nat) returns (entry: Entry)
      requires Valid() && h < |channels| && channels[h].queue != []
      modifies this`channels, this`state
      ensures Valid() && state == Next(old(state), Subscribers.Receive(h))
      ensures state.channels[h].received == old(state.channels[h].received) + [entry]
    {
      FeedsReceive(channels, subscribers, state, h);
      entry := channels[h].queue[0];
      channels := channels[h := channels[h].(queue := channels[h].queue[1..])];
      state := Next(state, Subscribers.Receive(h));
    }
  }
}
