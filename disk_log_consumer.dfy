/**
 * `DiskLogConsumerTask`: the background task of the write-ahead log that drains the
 * filled-buffer queue into the log file, recycles the buffers, decides when to persist
 * the file, and fires the commit callbacks of the transactions whose records are then
 * durable.
 *
 * The file, the persist calls and the callback invocations are recorded in a ghost trace
 * of events. The task's fields are tied to that trace by `Valid()`: the byte counter is
 * the number of bytes written since the last persist; the pending callbacks are exactly
 * the drained ones not yet fired, in order; every non-null drained buffer went back to the
 * empty queue once; and no callback was ever fired while written bytes were unpersisted.
 */
module DiskLogConsumer {
  import opened Wrappers

  newtype byte = x: int | 0 <= x < 256

  /** A log buffer (`BufferedLogWriter`): its identity and the serialized records it holds. */
  datatype Buffer = Buffer(id: nat, content: seq<byte>)

  /** A commit callback and its argument, opaque here. */
  datatype CommitCallback = CommitCallback(fn: nat, arg: nat)

  /** `SerializedLogs`: a filled buffer, or null for a batch without records, and its callbacks. */
  datatype SerializedLogs = SerializedLogs(buffer: Option<Buffer>, callbacks: seq<CommitCallback>)

  /** What `FlushBuffer()` writes to the log file for a unit: its buffer's bytes, or nothing. */
  function UnitBytes(u: SerializedLogs): seq<byte>
  {
    if u.buffer.Some? then u.buffer.value.content else []
  }

  // ---------------------------------------------------------------------------
  // Sequences of drained units
  // ---------------------------------------------------------------------------

  /** The bytes the units put in the log file, in order. */
  function FileOf(us: seq<SerializedLogs>): seq<byte>
  {
    if us == [] then [] else FileOf(us[..|us| - 1]) + UnitBytes(us[|us| - 1])
  }

  /** The number of bytes `FlushBuffer()` reports over the units. */
  function BytesOf(us: seq<SerializedLogs>): nat
  {
    if us == [] then 0 else BytesOf(us[..|us| - 1]) + |UnitBytes(us[|us| - 1])|
  }

  /** The callbacks of the units, unit by unit, each unit's in its own order. */
  function CallbacksOf(us: seq<SerializedLogs>): seq<CommitCallback>
  {
    if us == [] then [] else CallbacksOf(us[..|us| - 1]) + us[|us| - 1].callbacks
  }

  /** The buffer a unit hands back to the empty queue, if it has one. */
  function Recycled(u: SerializedLogs): seq<Buffer>
  {
    if u.buffer.Some? then [u.buffer.value] else []
  }

  /** The non-null buffers of the units, in order. */
  function BuffersOf(us: seq<SerializedLogs>): seq<Buffer>
  {
    if us == [] then [] else BuffersOf(us[..|us| - 1]) + Recycled(us[|us| - 1])
  }

  lemma Associative<T>(a: seq<T>, b: seq<T>, c: seq<T>)
    ensures (a + b) + c == a + (b + c)
  {
  }

  lemma AppendEmpty<T>(s: seq<T>)
    ensures s + [] == s
  {
  }

  lemma InitOfAppend<T>(s: seq<T>, x: T)
    ensures (s + [x])[..|s|] == s && (s + [x])[|s|] == x
  {
  }

  /** Extending a prefix of `s` by the next element of `s`. */
  lemma PrefixStep<T>(a: seq<T>, s: seq<T>, k: nat)
    requires k < |s|
    ensures (a + s[..k]) + [s[k]] == a + s[..k + 1]
  {
    assert s[..k + 1] == s[..k] + [s[k]];
  }

  lemma SplitFirst<T>(s: seq<T>)
    requires s != []
    ensures s == [s[0]] + s[1..]
  {
  }

  lemma SplitLast<T>(s: seq<T>)
    requires s != []
    ensures s == s[..|s| - 1] + [s[|s| - 1]]
  {
  }

  /** Appending one unit extends each view by that unit's part. */
  lemma AppendUnit(us: seq<SerializedLogs>, u: SerializedLogs)
    ensures FileOf(us + [u]) == FileOf(us) + UnitBytes(u)
    ensures BytesOf(us + [u]) == BytesOf(us) + |UnitBytes(u)|
    ensures CallbacksOf(us + [u]) == CallbacksOf(us) + u.callbacks
    ensures BuffersOf(us + [u]) == BuffersOf(us) + Recycled(u)
    ensures DrainEvents(us + [u]) == DrainEvents(us) + [Drained(u)]
  {
    InitOfAppend(us, u);
  }

  /** The file of two runs of units is the first run's file followed by the second's. */
  lemma {:induction false} ConcatFile(a: seq<SerializedLogs>, b: seq<SerializedLogs>)
    ensures FileOf(a + b) == FileOf(a) + FileOf(b)
  {
    if b == [] {
      assert a + b == a;
    } else {
      var init, last := b[..|b| - 1], b[|b| - 1];
      SplitLast(b);
      ConcatFile(a, init);
      Associative(a, init, [last]);
      AppendUnit(a + init, last);
      AppendUnit(init, last);
      Associative(FileOf(a), FileOf(init), UnitBytes(last));
    }
  }

  /** The bytes of two runs of units add up. */
  lemma {:induction false} ConcatBytes(a: seq<SerializedLogs>, b: seq<SerializedLogs>)
    ensures BytesOf(a + b) == BytesOf(a) + BytesOf(b)
  {
    if b == [] {
      assert a + b == a;
    } else {
      var init, last := b[..|b| - 1], b[|b| - 1];
      SplitLast(b);
      ConcatBytes(a, init);
      Associative(a, init, [last]);
      AppendUnit(a + init, last);
      AppendUnit(init, last);
    }
  }

  /** The callbacks of two runs of units are the first run's followed by the second's. */
  lemma {:induction false} ConcatCallbacks(a: seq<SerializedLogs>, b: seq<SerializedLogs>)
    ensures CallbacksOf(a + b) == CallbacksOf(a) + CallbacksOf(b)
  {
    if b == [] {
      assert a + b == a;
    } else {
      var init, last := b[..|b| - 1], b[|b| - 1];
      SplitLast(b);
      ConcatCallbacks(a, init);
      Associative(a, init, [last]);
      AppendUnit(a + init, last);
      AppendUnit(init, last);
      Associative(CallbacksOf(a), CallbacksOf(init), last.callbacks);
    }
  }

  /** The buffers of two runs of units are the first run's followed by the second's. */
  lemma {:induction false} ConcatBuffers(a: seq<SerializedLogs>, b: seq<SerializedLogs>)
    ensures BuffersOf(a + b) == BuffersOf(a) + BuffersOf(b)
  {
    if b == [] {
      assert a + b == a;
    } else {
      var init, last := b[..|b| - 1], b[|b| - 1];
      SplitLast(b);
      ConcatBuffers(a, init);
      Associative(a, init, [last]);
      AppendUnit(a + init, last);
      AppendUnit(init, last);
      Associative(BuffersOf(a), BuffersOf(init), Recycled(last));
    }
  }

  /** The byte count is the length of the file the units make. */
  lemma {:induction false} BytesAreFileLength(us: seq<SerializedLogs>)
    ensures BytesOf(us) == |FileOf(us)|
  {
    if us != [] {
      BytesAreFileLength(us[..|us| - 1]);
    }
  }

  /** Every non-null buffer is recycled once per unit that carries it; a null one contributes nothing. */
  lemma {:induction false} BuffersCount(us: seq<SerializedLogs>)
    ensures |BuffersOf(us)| == |set i | 0 <= i < |us| && us[i].buffer.Some?|
  {
    if us != [] {
      var n := |us| - 1;
      BuffersCount(us[..n]);
      var before := set i | 0 <= i < n && us[..n][i].buffer.Some?;
      var all := set i | 0 <= i < |us| && us[i].buffer.Some?;
      assert before == set i | 0 <= i < n && us[i].buffer.Some?;
      if us[n].buffer.Some? {
        assert n !in before;
        assert forall i :: i in all <==> i in before || i == n;
        assert all == before + {n};
      } else {
        assert all == before;
      }
    }
  }

  // ---------------------------------------------------------------------------
  // The event trace
  // ---------------------------------------------------------------------------

  /**
   * What the task did, in order: dequeued a unit and wrote its buffer (if any) to the
   * file; called `Persist()` on the file; invoked a commit callback.
   */
  datatype LogEvent = Drained(unit: SerializedLogs) | Persisted | Fired(callback: CommitCallback)

  /** Bytes written to the file since the last `Persist()`. */
  function Unsynced(t: seq<LogEvent>): nat
  {
    if t == [] then 0
    else match t[|t| - 1]
      case Persisted => 0
      case Drained(u) => Unsynced(t[..|t| - 1]) + |UnitBytes(u)|
      case Fired(_) => Unsynced(t[..|t| - 1])
  }

  function DrainedPart(e: LogEvent): seq<SerializedLogs>
  {
    if e.Drained? then [e.unit] else []
  }

  function FiredPart(e: LogEvent): seq<CommitCallback>
  {
    if e.Fired? then [e.callback] else []
  }

  /** The units drained, in dequeue order. */
  function DrainedUnits(t: seq<LogEvent>): seq<SerializedLogs>
  {
    if t == [] then [] else DrainedUnits(t[..|t| - 1]) + DrainedPart(t[|t| - 1])
  }

  /** The callbacks fired, in firing order. */
  function FiredCallbacks(t: seq<LogEvent>): seq<CommitCallback>
  {
    if t == [] then [] else FiredCallbacks(t[..|t| - 1]) + FiredPart(t[|t| - 1])
  }

  /** How many times `Persist()` was called. */
  function PersistCount(t: seq<LogEvent>): nat
  {
    if t == [] then 0 else PersistCount(t[..|t| - 1]) + (if t[|t| - 1].Persisted? then 1 else 0)
  }

  /** The trace before its `j`-th event. */
  function Before(t: seq<LogEvent>, j: nat): seq<LogEvent>
    requires j <= |t|
  {
    t[..j]
  }

  /**
   * No callback fires before the bytes written ahead of it are persisted: at every firing,
   * each byte written so far is covered by a `Persist()` issued after it.
   */
  predicate FireSafe(t: seq<LogEvent>)
  {
    forall j {:trigger Before(t, j)} :: 0 <= j < |t| && t[j].Fired? ==> Unsynced(Before(t, j)) == 0
  }

  /**
   * Callbacks fire in the order of their units and never ahead of their own unit: at every
   * firing, the callbacks fired so far, this one included, are a prefix of the callbacks of
   * the units drained before it.
   */
  predicate FireOrdered(t: seq<LogEvent>)
  {
    forall j {:trigger Before(t, j)} :: 0 <= j < |t| && t[j].Fired? ==>
      FiredCallbacks(Before(t, j)) + [t[j].callback] <= CallbacksOf(DrainedUnits(Before(t, j)))
  }

  /** The trace before an event, read in the trace with one more event. */
  lemma BeforeAppend(t: seq<LogEvent>, e: LogEvent)
    ensures forall j :: 0 <= j < |t| ==> Before(t + [e], j) == Before(t, j) && (t + [e])[j] == t[j]
    ensures Before(t + [e], |t|) == t
  {
    forall j | 0 <= j < |t|
      ensures Before(t + [e], j) == Before(t, j)
    {
      assert Before(t + [e], j) == t[..j];
    }
    assert Before(t + [e], |t|) == t;
  }

  /** Appending one event keeps the firings already checked and checks the new one, if it fires. */
  lemma FireSafeAppend(t: seq<LogEvent>, e: LogEvent)
    ensures FireSafe(t + [e]) == (FireSafe(t) && (e.Fired? ==> Unsynced(t) == 0))
  {
    BeforeAppend(t, e);
    if FireSafe(t + [e]) {
      forall j | 0 <= j < |t| && t[j].Fired?
        ensures Unsynced(Before(t, j)) == 0
      {
        assert Before(t + [e], j) == Before(t, j);
      }
    }
  }

  /** The same for the firing order. */
  lemma FireOrderedAppend(t: seq<LogEvent>, e: LogEvent)
    ensures FireOrdered(t + [e]) ==
      (FireOrdered(t) && (e.Fired? ==> FiredCallbacks(t) + [e.callback] <= CallbacksOf(DrainedUnits(t))))
  {
    BeforeAppend(t, e);
    if FireOrdered(t + [e]) {
      forall j | 0 <= j < |t| && t[j].Fired?
        ensures FiredCallbacks(Before(t, j)) + [t[j].callback] <= CallbacksOf(DrainedUnits(Before(t, j)))
      {
        assert Before(t + [e], j) == Before(t, j);
      }
    }
  }


  /** `FireSafe` read position by position: at every firing, nothing written was unpersisted. */
  lemma FireSafeAt(t: seq<LogEvent>, j: nat)
    requires FireSafe(t) && j < |t| && t[j].Fired?
    ensures Unsynced(t[..j]) == 0
  {
    assert Before(t, j) == t[..j];
  }

  /** Appending one event: how each view of the trace changes, and when `FireSafe` survives. */
  lemma AppendEvent(t: seq<LogEvent>, e: LogEvent)
    ensures Unsynced(t + [e]) == match e
      case Persisted => 0
      case Drained(u) => Unsynced(t) + |UnitBytes(u)|
      case Fired(_) => Unsynced(t)
    ensures DrainedUnits(t + [e]) == DrainedUnits(t) + DrainedPart(e)
    ensures FiredCallbacks(t + [e]) == FiredCallbacks(t) + FiredPart(e)
    ensures PersistCount(t + [e]) == PersistCount(t) + (if e.Persisted? then 1 else 0)
    ensures FireSafe(t + [e]) == (FireSafe(t) && (e.Fired? ==> Unsynced(t) == 0))
    ensures FireOrdered(t + [e]) ==
      (FireOrdered(t) && (e.Fired? ==> FiredCallbacks(t) + [e.callback] <= CallbacksOf(DrainedUnits(t))))
  {
    InitOfAppend(t, e);
    FireSafeAppend(t, e);
    FireOrderedAppend(t, e);
  }

  /** The events `WriteBuffersToLogFile` records for the units it dequeues. */
  function DrainEvents(us: seq<SerializedLogs>): seq<LogEvent>
  {
    if us == [] then [] else DrainEvents(us[..|us| - 1]) + [Drained(us[|us| - 1])]
  }

  /** The events `PersistLogFile` records for the callbacks it invokes. */
  function FireEvents(cbs: seq<CommitCallback>): seq<LogEvent>
  {
    if cbs == [] then [] else FireEvents(cbs[..|cbs| - 1]) + [Fired(cbs[|cbs| - 1])]
  }

  lemma AppendFire(cbs: seq<CommitCallback>, c: CommitCallback)
    ensures FireEvents(cbs + [c]) == FireEvents(cbs) + [Fired(c)]
  {
    InitOfAppend(cbs, c);
  }

  /** Draining units adds their bytes to the unsynced count and fires nothing. */
  lemma {:induction false} DrainAppend(t: seq<LogEvent>, us: seq<SerializedLogs>)
    ensures Unsynced(t + DrainEvents(us)) == Unsynced(t) + BytesOf(us)
    ensures DrainedUnits(t + DrainEvents(us)) == DrainedUnits(t) + us
    ensures FiredCallbacks(t + DrainEvents(us)) == FiredCallbacks(t)
    ensures PersistCount(t + DrainEvents(us)) == PersistCount(t)
    ensures FireSafe(t) ==> FireSafe(t + DrainEvents(us))
    ensures FireOrdered(t) ==> FireOrdered(t + DrainEvents(us))
  {
    if us == [] {
      assert t + DrainEvents(us) == t;
    } else {
      var init, last := us[..|us| - 1], us[|us| - 1];
      SplitLast(us);
      DrainAppend(t, init);
      AppendUnit(init, last);
      Associative(t, DrainEvents(init), [Drained(last)]);
      AppendEvent(t + DrainEvents(init), Drained(last));
      Associative(DrainedUnits(t), init, [last]);
    }
  }

  /** Firing callbacks with nothing unsynced keeps the trace fire-safe and records them in order. */
  lemma {:induction false} FireAppend(t: seq<LogEvent>, cbs: seq<CommitCallback>)
    requires Unsynced(t) == 0
    ensures Unsynced(t + FireEvents(cbs)) == 0
    ensures DrainedUnits(t + FireEvents(cbs)) == DrainedUnits(t)
    ensures FiredCallbacks(t + FireEvents(cbs)) == FiredCallbacks(t) + cbs
    ensures PersistCount(t + FireEvents(cbs)) == PersistCount(t)
    ensures FireSafe(t) ==> FireSafe(t + FireEvents(cbs))
  {
    if cbs == [] {
      assert t + FireEvents(cbs) == t;
    } else {
      var init, last := cbs[..|cbs| - 1], cbs[|cbs| - 1];
      SplitLast(cbs);
      FireAppend(t, init);
      AppendFire(init, last);
      Associative(t, FireEvents(init), [Fired(last)]);
      AppendEvent(t + FireEvents(init), Fired(last));
      Associative(FiredCallbacks(t), init, [last]);
    }
  }

  /**
   * Firing callbacks that continue the fired ones along the drained units' callbacks keeps
   * the firing order.
   */
  lemma {:induction false} FireKeepsOrder(t: seq<LogEvent>, cbs: seq<CommitCallback>)
    requires FireOrdered(t) && FiredCallbacks(t) + cbs <= CallbacksOf(DrainedUnits(t))
    ensures FireOrdered(t + FireEvents(cbs))
    ensures DrainedUnits(t + FireEvents(cbs)) == DrainedUnits(t)
    ensures FiredCallbacks(t + FireEvents(cbs)) == FiredCallbacks(t) + cbs
  {
    if cbs == [] {
      assert t + FireEvents(cbs) == t;
      assert FiredCallbacks(t) + cbs == FiredCallbacks(t);
    } else {
      var init, last := cbs[..|cbs| - 1], cbs[|cbs| - 1];
      SplitLast(cbs);
      Associative(FiredCallbacks(t), init, [last]);
      assert FiredCallbacks(t) + init <= CallbacksOf(DrainedUnits(t));
      FireKeepsOrder(t, init);
      AppendFire(init, last);
      Associative(t, FireEvents(init), [Fired(last)]);
      AppendEvent(t + FireEvents(init), Fired(last));
    }
  }

  /** Draining units keeps the task's views of the trace in step with its queues. */
  lemma DrainKeepsCoherence(t: seq<LogEvent>, us: seq<SerializedLogs>, pending: seq<CommitCallback>,
                            pool: seq<Buffer>, empty: seq<Buffer>)
    requires CallbacksOf(DrainedUnits(t)) == FiredCallbacks(t) + pending
    requires empty == pool + BuffersOf(DrainedUnits(t))
    ensures DrainedUnits(t + DrainEvents(us)) == DrainedUnits(t) + us
    ensures Unsynced(t + DrainEvents(us)) == Unsynced(t) + BytesOf(us)
    ensures FiredCallbacks(t + DrainEvents(us)) == FiredCallbacks(t)
    ensures PersistCount(t + DrainEvents(us)) == PersistCount(t)
    ensures CallbacksOf(DrainedUnits(t + DrainEvents(us))) == FiredCallbacks(t + DrainEvents(us)) + (pending + CallbacksOf(us))
    ensures empty + BuffersOf(us) == pool + BuffersOf(DrainedUnits(t + DrainEvents(us)))
    ensures FireSafe(t) ==> FireSafe(t + DrainEvents(us))
    ensures FireOrdered(t) ==> FireOrdered(t + DrainEvents(us))
  {
    DrainAppend(t, us);
    ConcatCallbacks(DrainedUnits(t), us);
    ConcatBuffers(DrainedUnits(t), us);
    Associative(FiredCallbacks(t), pending, CallbacksOf(us));
    Associative(pool, BuffersOf(DrainedUnits(t)), BuffersOf(us));
  }

  /** One more callback fired, on top of a prefix of them. */
  lemma FireStep(t: seq<LogEvent>, cbs: seq<CommitCallback>, i: nat)
    requires i < |cbs|
    ensures (t + FireEvents(cbs[..i])) + [Fired(cbs[i])] == t + FireEvents(cbs[..i + 1])
  {
    assert cbs[..i + 1] == cbs[..i] + [cbs[i]];
    AppendFire(cbs[..i], cbs[i]);
    Associative(t, FireEvents(cbs[..i]), [Fired(cbs[i])]);
  }

  /**
   * A `PersistLogFile` call on a coherent trace `t` whose unsynced count is `written`:
   * `t1` is `t` with the `Persist()` (if any), `t2` is `t1` with the callbacks fired.
   * Afterwards nothing is unsynced, the pending callbacks have all fired, and no firing
   * came too early.
   */
  lemma PersistKeepsCoherence(t: seq<LogEvent>, written: nat, t1: seq<LogEvent>, pending: seq<CommitCallback>, t2: seq<LogEvent>)
    requires CallbacksOf(DrainedUnits(t)) == FiredCallbacks(t) + pending
    requires FireSafe(t) && Unsynced(t) == written
    requires t1 == (if written > 0 then t + [Persisted] else t)
    requires t2 == t1 + FireEvents(pending)
    ensures DrainedUnits(t2) == DrainedUnits(t)
    ensures FiredCallbacks(t2) == FiredCallbacks(t) + pending
    ensures PersistCount(t2) == PersistCount(t) + (if written > 0 then 1 else 0)
    ensures FireSafe(t2) && Unsynced(t2) == 0
    ensures CallbacksOf(DrainedUnits(t2)) == FiredCallbacks(t2)
    ensures FireOrdered(t) ==> FireOrdered(t2)
  {
    if written > 0 {
      AppendEvent(t, Persisted);
      assert DrainedUnits(t1) == DrainedUnits(t) + [] == DrainedUnits(t);
      assert FiredCallbacks(t1) == FiredCallbacks(t) + [] == FiredCallbacks(t);
    }
    FireAppend(t1, pending);
    if FireOrdered(t) {
      FireKeepsOrder(t1, pending);
    }
  }

  /** `FireOrdered` read position by position. */
  lemma FireOrderedAt(t: seq<LogEvent>, j: nat)
    requires FireOrdered(t) && j < |t| && t[j].Fired?
    ensures FiredCallbacks(t[..j]) + [t[j].callback] <= CallbacksOf(DrainedUnits(t[..j]))
  {
    assert Before(t, j) == t[..j];
  }

  /** With nothing unsynced, every write that put bytes in the file is followed by a `Persist()`. */
  lemma {:induction false} PersistFollowsWrite(t: seq<LogEvent>, i: nat)
    requires Unsynced(t) == 0 && i < |t| && t[i].Drained? && |UnitBytes(t[i].unit)| > 0
    ensures exists p :: i < p < |t| && t[p].Persisted?
  {
    var n := |t| - 1;
    if !t[n].Persisted? {
      assert i != n;
      assert t[..n][i] == t[i];
      PersistFollowsWrite(t[..n], i);
      var p :| i < p < n && t[..n][p].Persisted?;
      assert t[p] == t[..n][p];
    }
  }

  /**
   * No premature notification: when a callback fires, it is the next one, in drain order, of
   * a unit already drained, and every write ahead of it that put bytes in the file has been
   * followed by a `Persist()` before the firing.
   */
  lemma NoPrematureNotification(t: seq<LogEvent>, j: nat)
    requires FireSafe(t) && FireOrdered(t) && j < |t| && t[j].Fired?
    ensures |FiredCallbacks(t[..j])| < |CallbacksOf(DrainedUnits(t[..j]))|
    ensures CallbacksOf(DrainedUnits(t[..j]))[|FiredCallbacks(t[..j])|] == t[j].callback
    ensures forall i :: 0 <= i < j && t[i].Drained? && |UnitBytes(t[i].unit)| > 0 ==>
      exists p :: i < p < j && t[p].Persisted?
  {
    FireOrderedAt(t, j);
    var k := |FiredCallbacks(t[..j])|;
    assert (FiredCallbacks(t[..j]) + [t[j].callback])[k] == t[j].callback;
    FireSafeAt(t, j);
    forall i | 0 <= i < j && t[i].Drained? && |UnitBytes(t[i].unit)| > 0
      ensures exists p :: i < p < j && t[p].Persisted?
    {
      assert t[..j][i] == t[i];
      PersistFollowsWrite(t[..j], i);
      var p :| i < p < j && t[..j][p].Persisted?;
      assert t[p] == t[..j][p];
    }
  }

  // ---------------------------------------------------------------------------
  // The idle back-off and the persist decision
  // ---------------------------------------------------------------------------

  /** `max_sleep`: 10000 microseconds. */
  const MAX_SLEEP: nat := 10000

  function Min(a: nat, b: nat): nat
  {
    if a <= b then a else b
  }

  /**
   * The next wait (microseconds): back to the persist interval after a wait that was
   * satisfied, twice the current one after a wait that timed out, never above `MAX_SLEEP`.
   */
  function NextSleep(signaled: bool, currSleep: nat, persistInterval: nat): (r: nat)
    ensures r <= MAX_SLEEP
    ensures r == MAX_SLEEP || r == (if signaled then persistInterval else 2 * currSleep)
    ensures r == MAX_SLEEP ==> (if signaled then persistInterval else 2 * currSleep) >= MAX_SLEEP
  {
    Min(if signaled then persistInterval else currSleep * 2, MAX_SLEEP)
  }

  function Pow2(k: nat): (r: nat)
    ensures r >= 1
  {
    if k == 0 then 1 else 2 * Pow2(k - 1)
  }

  lemma DoubleProduct(s: nat, p: nat)
    ensures s * (2 * p) == 2 * (s * p)
  {
  }

  /** The wait after `k` consecutive timed-out waits starting from `s`. */
  function IdleSleep(s: nat, k: nat, persistInterval: nat): nat
  {
    if k == 0 then s else NextSleep(false, IdleSleep(s, k - 1, persistInterval), persistInterval)
  }

  /** An idle task doubles its wait each time, up to the cap: `min(s * 2^k, MAX_SLEEP)`. */
  lemma {:induction false} IdleSleepDoubles(s: nat, k: nat, persistInterval: nat)
    requires s <= MAX_SLEEP
    ensures IdleSleep(s, k, persistInterval) == Min(s * Pow2(k), MAX_SLEEP)
  {
    if k > 0 {
      IdleSleepDoubles(s, k - 1, persistInterval);
      DoubleProduct(s, Pow2(k - 1));
    }
  }

  /**
   * What the persist decision at the end of an iteration reads: the time since the last
   * persist, the current wait, the bytes written since the last persist, the flush flag
   * and `run_task_`.
   */
  datatype PersistInputs = PersistInputs(elapsed: int, currSleep: nat, written: nat, forceFlush: bool, runTask: bool)

  /**
   * Whether an iteration persists: the time since the last persist exceeds the current
   * wait, or more than the threshold was written, or a flush was forced, or the task is
   * stopping.
   */
  predicate ShouldPersist(inputs: PersistInputs, threshold: nat)
  {
    inputs.elapsed > inputs.currSleep || inputs.written > threshold || inputs.forceFlush || !inputs.runTask
  }

  /** Up to the first terminating tick, a tick terminates exactly when it is that one. */
  lemma TerminatesAt(ticks: seq<Tick>, i: nat)
    requires SomeTerminates(ticks, 0) && i <= FirstTerminate(ticks, 0)
    ensures i < |ticks| && ticks[i].terminate == (i == FirstTerminate(ticks, 0))
  {
  }

  /** Every wait after the first is at most `MAX_SLEEP`. */
  predicate CappedAfterFirst(sleeps: seq<nat>)
  {
    forall k :: 1 <= k < |sleeps| ==> sleeps[k] <= MAX_SLEEP
  }

  /**
   * The waits of the iterations so far, with `next` the one the next iteration will use:
   * the first is the persist interval and every later one is capped.
   */
  predicate SleepsSoFar(sleeps: seq<nat>, next: nat, persistInterval: nat)
  {
    && (sleeps == [] ==> next == persistInterval)
    && (sleeps != [] ==> sleeps[0] == persistInterval && next <= MAX_SLEEP)
    && CappedAfterFirst(sleeps)
  }

  lemma SleepStep(sleeps: seq<nat>, slept: nat, next: nat, persistInterval: nat)
    requires SleepsSoFar(sleeps, slept, persistInterval) && next <= MAX_SLEEP
    ensures SleepsSoFar(sleeps + [slept], next, persistInterval)
  {
  }

  /**
   * Each wait after the first follows from the one before it and from whether that one
   * was signalled: `signals[k]` says how the wait `sleeps[k]` ended.
   */
  predicate BackOff(sleeps: seq<nat>, signals: seq<bool>, persistInterval: nat)
  {
    && |signals| == |sleeps|
    && forall k :: 0 <= k < |sleeps| - 1 ==> sleeps[k + 1] == NextSleep(signals[k], sleeps[k], persistInterval)
  }

  lemma BackOffStep(sleeps: seq<nat>, signals: seq<bool>, slept: nat, signaled: bool, persistInterval: nat)
    requires BackOff(sleeps, signals, persistInterval)
    requires sleeps != [] ==> slept == NextSleep(signals[|signals| - 1], sleeps[|sleeps| - 1], persistInterval)
    ensures BackOff(sleeps + [slept], signals + [signaled], persistInterval)
  {
  }

  /**
   * A run of `n` waits that all time out, starting at the `k`-th, doubles the wait each
   * time up to the cap: the wait after them is `min(sleeps[k] * 2^n, MAX_SLEEP)`.
   */
  lemma {:induction false} IdleWaitsDouble(sleeps: seq<nat>, signals: seq<bool>, persistInterval: nat, k: nat, n: nat)
    requires BackOff(sleeps, signals, persistInterval)
    requires k + n < |sleeps| && sleeps[k] <= MAX_SLEEP
    requires forall j :: k <= j < k + n ==> !signals[j]
    ensures sleeps[k + n] == Min(sleeps[k] * Pow2(n), MAX_SLEEP)
  {
    IdleWaitsFollow(sleeps, signals, persistInterval, k, n);
    IdleSleepDoubles(sleeps[k], n, persistInterval);
  }

  lemma {:induction false} IdleWaitsFollow(sleeps: seq<nat>, signals: seq<bool>, persistInterval: nat, k: nat, n: nat)
    requires BackOff(sleeps, signals, persistInterval)
    requires k + n < |sleeps|
    requires forall j :: k <= j < k + n ==> !signals[j]
    ensures sleeps[k + n] == IdleSleep(sleeps[k], n, persistInterval)
  {
    if n > 0 {
      IdleWaitsFollow(sleeps, signals, persistInterval, k, n - 1);
      assert sleeps[k + n] == NextSleep(signals[k + n - 1], sleeps[k + n - 1], persistInterval);
    }
  }

  /** A signalled wait restarts the schedule: the next wait is the persist interval, capped. */
  lemma SignalResets(sleeps: seq<nat>, signals: seq<bool>, persistInterval: nat, k: nat)
    requires BackOff(sleeps, signals, persistInterval)
    requires k + 1 < |sleeps| && signals[k]
    ensures sleeps[k + 1] == Min(persistInterval, MAX_SLEEP)
  {
  }

  /** What the environment does before one iteration's wait, and the clock it reads during the iteration. */
  datatype Tick = Tick(
    arrivals: seq<SerializedLogs>,
    forceFlushRequested: bool,
    terminate: bool,
    nowCheck: int,
    nowPersist: int)

  /** Whether a tick wakes the wait: it brings work, asks for a flush or stops the task. */
  predicate Wakes(tick: Tick)
  {
    tick.forceFlushRequested || |tick.arrivals| > 0 || tick.terminate
  }

  /**
   * How the waits of a run ended: the `k`-th wait was signalled exactly when its tick woke
   * it or, for the first wait only, when work or a flush was already pending at the start.
   */
  predicate SignalsFollowTicks(signals: seq<bool>, ticks: seq<Tick>, pendingAtStart: bool)
  {
    && |signals| <= |ticks|
    && forall k {:trigger WokenAt(ticks, k, pendingAtStart)} :: 0 <= k < |signals| ==> signals[k] == WokenAt(ticks, k, pendingAtStart)
  }

  /** Whether the `k`-th wait of a run is woken: by its tick, or, for the first, by work pending at the start. */
  predicate WokenAt(ticks: seq<Tick>, k: nat, pendingAtStart: bool)
    requires k < |ticks|
  {
    Wakes(ticks[k]) || (k == 0 && pendingAtStart)
  }

  lemma SignalsStep(signals: seq<bool>, ticks: seq<Tick>, pendingAtStart: bool, signaled: bool)
    requires SignalsFollowTicks(signals, ticks, pendingAtStart) && |signals| < |ticks|
    requires signaled == WokenAt(ticks, |signals|, pendingAtStart)
    ensures SignalsFollowTicks(signals + [signaled], ticks, pendingAtStart)
  {
    forall k | 0 <= k < |signals| + 1
      ensures (signals + [signaled])[k] == WokenAt(ticks, k, pendingAtStart)
    {
      if k < |signals| {
        assert WokenAt(ticks, k, pendingAtStart) == signals[k];
      }
    }
  }

  /**
   * The schedule of a run so far: the waits used, how each ended (as the ticks say), and
   * `next`, the wait the next iteration will use, chosen by the back-off rule.
   */
  predicate Schedule(sleeps: seq<nat>, signals: seq<bool>, next: nat, ticks: seq<Tick>, pending: bool, persistInterval: nat)
  {
    && SleepsSoFar(sleeps, next, persistInterval)
    && BackOff(sleeps, signals, persistInterval)
    && (sleeps != [] ==> next == NextSleep(signals[|signals| - 1], sleeps[|sleeps| - 1], persistInterval))
    && SignalsFollowTicks(signals, ticks, pending)
  }

  /** One iteration extends the schedule by its wait and by how that wait ended. */
  lemma ScheduleStep(sleeps: seq<nat>, signals: seq<bool>, next: nat, ticks: seq<Tick>, pending: bool,
                     persistInterval: nat, carried: bool, signaled: bool, following: nat)
    requires Schedule(sleeps, signals, next, ticks, pending, persistInterval) && |sleeps| < |ticks|
    requires carried == (|sleeps| == 0 && pending) && signaled == (carried || Wakes(ticks[|sleeps|]))
    requires following == NextSleep(signaled, next, persistInterval)
    ensures Schedule(sleeps + [next], signals + [signaled], following, ticks, pending, persistInterval)
  {
    assert signaled == WokenAt(ticks, |sleeps|, pending);
    SleepStep(sleeps, next, following, persistInterval);
    BackOffStep(sleeps, signals, next, signaled, persistInterval);
    SignalsStep(signals, ticks, pending, signaled);
  }

  /**
   * Over a whole run, `n` ticks in a row that bring no work, no flush request and no stop
   * double the wait each time, up to the cap.
   */
  lemma IdleTicksDouble(sleeps: seq<nat>, signals: seq<bool>, ticks: seq<Tick>, pendingAtStart: bool,
                        persistInterval: nat, k: nat, n: nat)
    requires BackOff(sleeps, signals, persistInterval) && SignalsFollowTicks(signals, ticks, pendingAtStart)
    requires k + n < |sleeps| && sleeps[k] <= MAX_SLEEP && (k == 0 ==> !pendingAtStart)
    requires forall j :: k <= j < k + n ==> !Wakes(ticks[j])
    ensures sleeps[k + n] == Min(sleeps[k] * Pow2(n), MAX_SLEEP)
  {
    forall j | k <= j < k + n
      ensures !signals[j]
    {
      assert signals[j] == WokenAt(ticks, j, pendingAtStart);
    }
    IdleWaitsDouble(sleeps, signals, persistInterval, k, n);
  }

  /** Over a whole run, a tick that wakes the wait resets the next wait to the persist interval, capped. */
  lemma WakingTickResets(sleeps: seq<nat>, signals: seq<bool>, ticks: seq<Tick>, pendingAtStart: bool,
                         persistInterval: nat, k: nat)
    requires BackOff(sleeps, signals, persistInterval) && SignalsFollowTicks(signals, ticks, pendingAtStart)
    requires k + 1 < |sleeps| && Wakes(ticks[k])
    ensures sleeps[k + 1] == Min(persistInterval, MAX_SLEEP)
  {
    assert signals[k] == WokenAt(ticks, k, pendingAtStart);
    SignalResets(sleeps, signals, persistInterval, k);
  }

  /** The units the ticks hand to the filled queue, in order. */
  function ArrivalsOf(ticks: seq<Tick>): seq<SerializedLogs>
  {
    if ticks == [] then [] else ArrivalsOf(ticks[..|ticks| - 1]) + ticks[|ticks| - 1].arrivals
  }

  lemma ArrivalsStep(ticks: seq<Tick>, i: nat)
    requires i < |ticks|
    ensures ArrivalsOf(ticks[..i + 1]) == ArrivalsOf(ticks[..i]) + ticks[i].arrivals
  {
    assert ticks[..i + 1][..i] == ticks[..i];
  }

  predicate SomeTerminates(ticks: seq<Tick>, from: nat)
  {
    exists j :: from <= j < |ticks| && ticks[j].terminate
  }

  /** The first tick at or after `from` in which the task is told to stop. */
  function FirstTerminate(ticks: seq<Tick>, from: nat): (n: nat)
    requires SomeTerminates(ticks, from)
    ensures from <= n < |ticks| && ticks[n].terminate
    ensures forall k :: from <= k < n ==> !ticks[k].terminate
    decreases |ticks| - from
  {
    if ticks[from].terminate then from
    else
      assert SomeTerminates(ticks, from + 1) by {
        var j :| from <= j < |ticks| && ticks[j].terminate;
        assert j != from;
      }
      FirstTerminate(ticks, from + 1)
  }

  class DiskLogConsumerTask {
    /** `persist_interval_`, microseconds. */
    const persistInterval: nat
    /** `persist_threshold_`, bytes. */
    const persistThreshold: nat
    /** The buffers the empty queue held when the task was made. */
    ghost const pool: seq<Buffer>

    /** `filled_buffer_queue_`, front first. */
    var filledQueue: seq<SerializedLogs>
    /** `empty_buffer_queue_`, front first. */
    var emptyQueue: seq<Buffer>
    /** `current_data_written_`. */
    var currentDataWritten: nat
    /** `commit_callbacks_`. */
    var commitCallbacks: seq<CommitCallback>
    /** `force_flush_`. */
    var forceFlush: bool
    /** `run_task_`. */
    var runTask: bool

    /**
     * `curr_sleep`, `next_sleep` and `last_persist`: locals of `DiskLogConsumerTaskLoop`,
     * kept as fields so that one iteration can be stated on its own.
     */
    var currSleep: nat
    var nextSleep: nat
    var lastPersist: int

    /** Everything the task has done, in order. */
    ghost var trace: seq<LogEvent>
    /** Every unit ever put on the filled queue, in order. */
    ghost var submitted: seq<SerializedLogs>

    /** The invariant, except for the byte counter (which `PersistLogFile` leaves to its caller). */
    ghost predicate Coherent()
      reads this`submitted, this`trace, this`filledQueue, this`commitCallbacks, this`emptyQueue
    {
      && submitted == DrainedUnits(trace) + filledQueue
      && CallbacksOf(DrainedUnits(trace)) == FiredCallbacks(trace) + commitCallbacks
      && emptyQueue == pool + BuffersOf(DrainedUnits(trace))
      && FireSafe(trace)
      && FireOrdered(trace)
    }

    ghost predicate Valid()
      reads this`submitted, this`trace, this`filledQueue, this`commitCallbacks, this`emptyQueue,
        this`currentDataWritten
    {
      Coherent() && currentDataWritten == Unsynced(trace)
    }

    /** The log file as written so far. */
    ghost function LogFile(): seq<byte>
      reads this`trace
    {
      FileOf(DrainedUnits(trace))
    }

    constructor (persistInterval: nat, persistThreshold: nat, emptyBuffers: seq<Buffer>)
      ensures Valid()
      ensures this.persistInterval == persistInterval && this.persistThreshold == persistThreshold
      ensures pool == emptyBuffers && emptyQueue == emptyBuffers && filledQueue == []
      ensures currentDataWritten == 0 && commitCallbacks == [] && !forceFlush && !runTask
      ensures trace == [] && submitted == []
    {
      this.persistInterval := persistInterval;
      this.persistThreshold := persistThreshold;
      pool := emptyBuffers;
      emptyQueue := emptyBuffers;
      filledQueue := [];
      currentDataWritten := 0;
      commitCallbacks := [];
      forceFlush, runTask := false, false;
      currSleep, nextSleep, lastPersist := persistInterval, persistInterval, 0;
      trace, submitted := [], [];
      new;
      assert emptyQueue == pool + [];
    }

    /** A producer enqueues a unit on the filled queue. */
    method SubmitUnit(u: SerializedLogs)
      requires Valid()
      modifies this`filledQueue, this`submitted
      ensures Valid()
      ensures filledQueue == old(filledQueue) + [u] && submitted == old(submitted) + [u]
    {
      Associative(DrainedUnits(trace), filledQueue, [u]);
      filledQueue := filledQueue + [u];
      submitted := submitted + [u];
    }

    /** A caller that needs a durability point sets `force_flush_` (and signals the task). */
    method RequestForceFlush()
      requires Valid()
      modifies this`forceFlush
      ensures Valid() && forceFlush
    {
      forceFlush := true;
    }

    /**
     * `Terminate`: returns only once the task is running (it yields until `run_task_` is
     * set), then clears `run_task_` and signals the task.
     */
    method Terminate()
      requires Valid() && runTask
      modifies this`runTask
      ensures Valid() && !runTask
    {
      runTask := false;
    }

    /**
     * One iteration of the loop of `WriteBuffersToLogFile`: dequeue a unit, write its buffer
     * (if any) to the file and count its bytes, keep its callbacks, recycle its buffer.
     */
    method DequeueAndFlush() returns (ghost logs: SerializedLogs)
      requires filledQueue != []
      modifies this`filledQueue, this`emptyQueue, this`currentDataWritten, this`commitCallbacks, this`trace
      ensures logs == old(filledQueue[0]) && filledQueue == old(filledQueue[1..])
      ensures trace == old(trace) + [Drained(logs)]
      ensures currentDataWritten == old(currentDataWritten) + |UnitBytes(logs)|
      ensures commitCallbacks == old(commitCallbacks) + logs.callbacks
      ensures emptyQueue == old(emptyQueue) + Recycled(logs)
    {
      var unit := filledQueue[0];
      filledQueue := filledQueue[1..];
      trace := trace + [Drained(unit)];
      if unit.buffer.Some? {
        currentDataWritten := currentDataWritten + |unit.buffer.value.content|;
      }
      commitCallbacks := commitCallbacks + unit.callbacks;
      if unit.buffer.Some? {
        emptyQueue := emptyQueue + [unit.buffer.value];
      }
      logs := unit;
    }

    /**
     * `WriteBuffersToLogFile`: dequeues until the filled queue is empty. Each unit's
     * buffer, if there is one, is written to the file, its byte count added to
     * `current_data_written_`, and the buffer put back on the empty queue; each unit's
     * callbacks, null buffer or not, are appended to `commit_callbacks_`.
     */
    method WriteBuffersToLogFile()
      modifies this`filledQueue, this`emptyQueue, this`currentDataWritten, this`commitCallbacks, this`trace
      ensures old(Valid()) ==> Valid()
      ensures filledQueue == []
      ensures DrainedUnits(trace) == DrainedUnits(old(trace)) + old(filledQueue)
      ensures FiredCallbacks(trace) == FiredCallbacks(old(trace)) && PersistCount(trace) == PersistCount(old(trace))
      ensures currentDataWritten == old(currentDataWritten) + BytesOf(old(filledQueue))
      ensures commitCallbacks == old(commitCallbacks) + CallbacksOf(old(filledQueue))
      ensures emptyQueue == old(emptyQueue) + BuffersOf(old(filledQueue))
    {
      ghost var drained: seq<SerializedLogs> := [];
      while filledQueue != []
        invariant old(filledQueue) == drained + filledQueue
        invariant trace == old(trace) + DrainEvents(drained)
        invariant currentDataWritten == old(currentDataWritten) + BytesOf(drained)
        invariant commitCallbacks == old(commitCallbacks) + CallbacksOf(drained)
        invariant emptyQueue == old(emptyQueue) + BuffersOf(drained)
        decreases |filledQueue|
      {
        SplitFirst(filledQueue);
        ghost var logs := DequeueAndFlush();
        AppendUnit(drained, logs);
        Associative(old(trace), DrainEvents(drained), [Drained(logs)]);
        Associative(old(commitCallbacks), CallbacksOf(drained), logs.callbacks);
        Associative(old(emptyQueue), BuffersOf(drained), Recycled(logs));
        Associative(drained, [logs], filledQueue);
        drained := drained + [logs];
      }
      assert drained == old(filledQueue);
      DrainAppend(old(trace), drained);
      if old(Valid()) {
        DrainKeepsCoherence(old(trace), drained, old(commitCallbacks), pool, old(emptyQueue));
      }
    }

    /**
     * `PersistLogFile`: one `Persist()` of the file if anything was written since the last
     * one, then every pending callback in order; the list is cleared and its former length
     * returned. `current_data_written_` is left for the caller to reset.
     */
    method PersistLogFile() returns (numBuffers: nat)
      modifies this`commitCallbacks, this`trace
      ensures old(Valid()) ==> Coherent() && Unsynced(trace) == 0
      ensures old(Valid()) ==> DrainedUnits(trace) == DrainedUnits(old(trace))
      ensures old(Valid()) ==> FiredCallbacks(trace) == FiredCallbacks(old(trace)) + old(commitCallbacks)
      ensures commitCallbacks == []
      ensures numBuffers == |old(commitCallbacks)|
    {
      if currentDataWritten > 0 {
        trace := trace + [Persisted];
      }
      ghost var t1 := trace;
      var callbacks := commitCallbacks;
      numBuffers := |callbacks|;
      var i := 0;
      while i < |callbacks|
        invariant 0 <= i <= |callbacks|
        invariant trace == t1 + FireEvents(callbacks[..i])
      {
        FireStep(t1, callbacks, i);
        trace := trace + [Fired(callbacks[i])];
        i := i + 1;
      }
      assert callbacks[..i] == callbacks;
      commitCallbacks := [];
      if old(Valid()) {
        PersistKeepsCoherence(old(trace), currentDataWritten, t1, callbacks, trace);
        AppendEmpty(FiredCallbacks(trace));
      }
    }

    /**
     * The start of an iteration of `DiskLogConsumerTaskLoop`: the wait for work. It ends
     * satisfied exactly when a flush is forced, the filled queue is non-empty or the task
     * is stopping (the value `wait_for` returns with its predicate), and the next wait is
     * chosen from how this one ended.
     */
    method AwaitWork() returns (signaled: bool)
      modifies this`currSleep, this`nextSleep
      ensures currSleep == old(nextSleep)
      ensures signaled == (forceFlush || filledQueue != [] || !runTask)
      ensures nextSleep == NextSleep(signaled, currSleep, persistInterval)
    {
      currSleep := nextSleep;
      signaled := forceFlush || filledQueue != [] || !runTask;
      nextSleep := if signaled then persistInterval else currSleep * 2;
      nextSleep := Min(nextSleep, MAX_SLEEP);
    }

    /**
     * The persisting branch of the end of an iteration: `PersistLogFile`, then the interval
     * restarts at `nowPersist` and the byte counter and the flush flag are reset.
     */
    method PersistAndReset(nowPersist: int)
      requires Valid()
      modifies this`commitCallbacks, this`trace, this`currentDataWritten, this`forceFlush, this`lastPersist
      ensures Valid()
      ensures Unsynced(trace) == 0 && DrainedUnits(trace) == DrainedUnits(old(trace))
      ensures FiredCallbacks(trace) == FiredCallbacks(old(trace)) + old(commitCallbacks)
      ensures commitCallbacks == [] && currentDataWritten == 0 && !forceFlush && lastPersist == nowPersist
    {
      var _ := PersistLogFile();
      lastPersist := nowPersist;
      currentDataWritten := 0;
      forceFlush := false;
    }

    /**
     * The end of an iteration: persist when the time since the last persist (clock read
     * `nowCheck`) exceeds the current wait, more than the threshold was written, a flush
     * is forced or the task is stopping; then reset the byte counter and the flag and
     * restart the interval at `nowPersist`.
     */
    method PersistIfDue(nowCheck: int, nowPersist: int) returns (persisted: bool, ghost inputs: PersistInputs)
      requires Valid()
      modifies this`commitCallbacks, this`trace, this`currentDataWritten, this`forceFlush, this`lastPersist
      ensures Valid()
      ensures inputs.elapsed == nowCheck - old(lastPersist) && inputs.currSleep == currSleep
      ensures inputs.written == old(currentDataWritten)
      ensures inputs.forceFlush == old(forceFlush) && inputs.runTask == runTask
      ensures persisted == ShouldPersist(inputs, persistThreshold)
      ensures persisted ==> Unsynced(trace) == 0 && DrainedUnits(trace) == DrainedUnits(old(trace))
      ensures persisted ==> FiredCallbacks(trace) == FiredCallbacks(old(trace)) + old(commitCallbacks)
      ensures persisted ==> commitCallbacks == [] && currentDataWritten == 0 && !forceFlush && lastPersist == nowPersist
      ensures !persisted ==> trace == old(trace) && commitCallbacks == old(commitCallbacks)
      ensures !persisted ==> currentDataWritten == old(currentDataWritten)
      ensures !persisted ==> forceFlush == old(forceFlush) && lastPersist == old(lastPersist)
    {
      inputs := PersistInputs(nowCheck - lastPersist, currSleep, currentDataWritten, forceFlush, runTask);
      var timeout := nowCheck - lastPersist > currSleep;
      persisted := timeout || currentDataWritten > persistThreshold || forceFlush || !runTask;
      if persisted {
        PersistAndReset(nowPersist);
      }
    }

    /** The environment's actions of one tick: enqueue the arrivals, maybe force a flush, maybe terminate. */
    method ApplyTick(tick: Tick)
      requires Valid() && runTask
      modifies this`filledQueue, this`submitted, this`forceFlush, this`runTask
      ensures Valid()
      ensures filledQueue == old(filledQueue) + tick.arrivals && submitted == old(submitted) + tick.arrivals
      ensures forceFlush == (old(forceFlush) || tick.forceFlushRequested)
      ensures runTask == !tick.terminate
    {
      var k := 0;
      while k < |tick.arrivals|
        invariant 0 <= k <= |tick.arrivals|
        invariant Valid() && runTask && forceFlush == old(forceFlush)
        invariant filledQueue == old(filledQueue) + tick.arrivals[..k]
        invariant submitted == old(submitted) + tick.arrivals[..k]
      {
        PrefixStep(old(filledQueue), tick.arrivals, k);
        PrefixStep(old(submitted), tick.arrivals, k);
        SubmitUnit(tick.arrivals[k]);
        k := k + 1;
      }
      assert tick.arrivals[..k] == tick.arrivals;
      if tick.forceFlushRequested {
        RequestForceFlush();
      }
      if tick.terminate {
        Terminate();
      }
    }

    /**
     * The work of an iteration after its wait: `WriteBuffersToLogFile`, then persist if due,
     * with the bytes just written counted in the threshold test.
     */
    method DrainThenPersistIfDue(nowCheck: int, nowPersist: int) returns (persisted: bool, ghost inputs: PersistInputs)
      requires Valid()
      modifies this`filledQueue, this`emptyQueue, this`currentDataWritten, this`commitCallbacks, this`trace,
        this`forceFlush, this`lastPersist
      ensures Valid() && filledQueue == []
      ensures DrainedUnits(trace) == DrainedUnits(old(trace)) + old(filledQueue)
      ensures inputs.elapsed == nowCheck - old(lastPersist) && inputs.currSleep == currSleep
      ensures inputs.written == old(currentDataWritten) + BytesOf(old(filledQueue))
      ensures inputs.forceFlush == old(forceFlush) && inputs.runTask == runTask
      ensures persisted == ShouldPersist(inputs, persistThreshold)
      ensures persisted ==> Unsynced(trace) == 0 && commitCallbacks == []
      ensures persisted ==> currentDataWritten == 0 && !forceFlush && lastPersist == nowPersist
      ensures !persisted ==> currentDataWritten == inputs.written
      ensures !persisted ==> forceFlush == old(forceFlush) && lastPersist == old(lastPersist)
    {
      ghost var written := currentDataWritten + BytesOf(filledQueue);
      WriteBuffersToLogFile();
      assert currentDataWritten == written;
      persisted, inputs := PersistIfDue(nowCheck, nowPersist);
    }

    /**
     * An iteration after the environment's actions: wait, drain, persist if due. Returns the
     * wait used, whether the wait was signalled and whether the iteration persisted.
     */
    method WaitThenWork(nowCheck: int, nowPersist: int) returns (slept: nat, signaled: bool, persisted: bool, ghost inputs: PersistInputs)
      requires Valid()
      modifies this`currSleep, this`nextSleep, this`filledQueue, this`emptyQueue, this`currentDataWritten,
        this`commitCallbacks, this`trace, this`forceFlush, this`lastPersist
      ensures Valid() && filledQueue == []
      ensures slept == old(nextSleep) && currSleep == slept
      ensures signaled == (old(forceFlush) || old(filledQueue) != [] || !runTask)
      ensures nextSleep == NextSleep(signaled, slept, persistInterval)
      ensures inputs.elapsed == nowCheck - old(lastPersist) && inputs.currSleep == slept
      ensures inputs.written == old(currentDataWritten) + BytesOf(old(filledQueue))
      ensures inputs.forceFlush == old(forceFlush) && inputs.runTask == runTask
      ensures persisted == ShouldPersist(inputs, persistThreshold)
      ensures persisted ==> Unsynced(trace) == 0 && commitCallbacks == []
      ensures persisted ==> currentDataWritten == 0 && !forceFlush && lastPersist == nowPersist
      ensures !persisted ==> forceFlush == old(forceFlush) && lastPersist == old(lastPersist)
    {
      signaled := AwaitWork();
      slept := currSleep;
      persisted, inputs := DrainThenPersistIfDue(nowCheck, nowPersist);
    }

    /**
     * One iteration of the loop of `DiskLogConsumerTaskLoop`: the environment acts as the
     * tick says, then the task waits, drains the filled queue into the file and persists
     * if due. It returns the wait it used, whether that wait was signalled and whether the
     * iteration persisted. `carried` names whether a flush or work was already pending
     * before the tick; the wait is signalled exactly when that holds or the tick wakes it,
     * and the iteration always ends with no flush pending.
     */
    method Iteration(tick: Tick, ghost carried: bool) returns (slept: nat, signaled: bool, persisted: bool, ghost inputs: PersistInputs)
      requires Valid() && runTask
      requires carried == (forceFlush || |filledQueue| > 0)
      modifies this`filledQueue, this`submitted, this`forceFlush, this`runTask, this`currSleep, this`nextSleep,
        this`emptyQueue, this`currentDataWritten, this`commitCallbacks, this`trace, this`lastPersist
      ensures Valid()
      ensures runTask == !tick.terminate && filledQueue == []
      ensures submitted == old(submitted) + tick.arrivals
      ensures slept == old(nextSleep) && currSleep == slept
      ensures signaled == (carried || Wakes(tick))
      ensures nextSleep == NextSleep(signaled, slept, persistInterval)
      ensures inputs.elapsed == tick.nowCheck - old(lastPersist) && inputs.currSleep == slept
      ensures inputs.written == old(currentDataWritten) + BytesOf(old(filledQueue) + tick.arrivals)
      ensures inputs.forceFlush == (old(forceFlush) || tick.forceFlushRequested) && inputs.runTask == !tick.terminate
      ensures persisted == ShouldPersist(inputs, persistThreshold)
      ensures persisted ==> Unsynced(trace) == 0 && commitCallbacks == []
      ensures persisted ==> currentDataWritten == 0 && !forceFlush && lastPersist == tick.nowPersist
      ensures !persisted ==> forceFlush == (old(forceFlush) || tick.forceFlushRequested) && lastPersist == old(lastPersist)
      ensures !forceFlush
    {
      ApplyTick(tick);
      slept, signaled, persisted, inputs := WaitThenWork(tick.nowCheck, tick.nowPersist);
    }

    /**
     * What the loop does once it has been told to stop: a last `WriteBuffersToLogFile` and
     * `PersistLogFile`. Afterwards everything submitted is in the file and persisted, and
     * every callback of it has fired.
     */
    method DrainAndPersistAll()
      requires Valid()
      modifies this`filledQueue, this`emptyQueue, this`currentDataWritten, this`commitCallbacks, this`trace
      ensures Coherent() && filledQueue == [] && commitCallbacks == []
      ensures DrainedUnits(trace) == submitted && Unsynced(trace) == 0
      ensures FiredCallbacks(trace) == CallbacksOf(submitted) && FireSafe(trace) && FireOrdered(trace)
      ensures LogFile() == FileOf(submitted)
      ensures emptyQueue == pool + BuffersOf(submitted)
    {
      WriteBuffersToLogFile();
      var _ := PersistLogFile();
      AppendEmpty(DrainedUnits(trace));
      AppendEmpty(FiredCallbacks(trace));
    }

    /**
     * The iterations of `DiskLogConsumerTaskLoop`, one per tick, up to and including the
     * first tick that terminates. Returns how many ticks were used, the wait of each
     * iteration and whether it was signalled. `pending` names whether a flush or work was
     * pending when the loop started.
     */
    method Iterate(ticks: seq<Tick>, ghost pending: bool) returns (ticksUsed: nat, sleeps: seq<nat>, signals: seq<bool>)
      requires Valid() && runTask && nextSleep == persistInterval
      requires pending == (forceFlush || |filledQueue| > 0)
      requires SomeTerminates(ticks, 0)
      modifies this`filledQueue, this`submitted, this`forceFlush, this`runTask, this`currSleep, this`nextSleep,
        this`emptyQueue, this`currentDataWritten, this`commitCallbacks, this`trace, this`lastPersist
      ensures Valid() && !runTask
      ensures ticksUsed == FirstTerminate(ticks, 0) + 1
      ensures submitted == old(submitted) + ArrivalsOf(ticks[..ticksUsed])
      ensures |sleeps| == ticksUsed && sleeps[0] == persistInterval && CappedAfterFirst(sleeps)
      ensures BackOff(sleeps, signals, persistInterval)
      ensures SignalsFollowTicks(signals, ticks, pending)
    {
      ghost var last := FirstTerminate(ticks, 0);
      ghost var carried := pending;
      var i := 0;
      sleeps, signals := [], [];
      var go := true;
      while go
        invariant Valid()
        invariant 0 <= i <= last + 1
        invariant go == runTask && go == (i <= last)
        invariant submitted == old(submitted) + ArrivalsOf(ticks[..i])
        invariant |sleeps| == i && Schedule(sleeps, signals, nextSleep, ticks, pending, persistInterval)
        invariant carried == (forceFlush || |filledQueue| > 0) && carried == (i == 0 && pending)
        decreases last + 1 - i
      {
        var tick := ticks[i];
        ArrivalsStep(ticks, i);
        Associative(old(submitted), ArrivalsOf(ticks[..i]), tick.arrivals);
        TerminatesAt(ticks, i);
        var slept, signaled, _, _ := Iteration(tick, carried);
        ScheduleStep(sleeps, signals, slept, ticks, pending, persistInterval, carried, signaled, nextSleep);
        carried := false;
        sleeps, signals := sleeps + [slept], signals + [signaled];
        i := i + 1;
        go := runTask;
      }
      ticksUsed := i;
    }

    /** The loop's set-up: nothing written yet, the first wait the persist interval, the clock started. */
    method StartLoop(start: int)
      requires Valid() && Unsynced(trace) == 0
      modifies this`currentDataWritten, this`currSleep, this`nextSleep, this`lastPersist
      ensures Valid() && currentDataWritten == 0 && lastPersist == start
      ensures currSleep == persistInterval && nextSleep == persistInterval
    {
      currentDataWritten := 0;
      currSleep := persistInterval;
      nextSleep := currSleep;
      lastPersist := start;
    }

    /**
     * `DiskLogConsumerTaskLoop`: iterates until the task is told to stop, then drains and
     * persists once more. The environment acts before each iteration, as the ticks say;
     * the run ends in the first tick that terminates. Afterwards every unit ever submitted
     * has been written to the file in submission order, no byte is unpersisted, every
     * callback has fired once in submission order, none before the bytes ahead of it were
     * persisted, and every wait after the first was at most `MAX_SLEEP`.
     */
    method DiskLogConsumerTaskLoop(ticks: seq<Tick>, start: int) returns (ticksUsed: nat, sleeps: seq<nat>, signals: seq<bool>)
      requires Valid() && runTask && Unsynced(trace) == 0
      requires SomeTerminates(ticks, 0)
      modifies this
      ensures Coherent() && !runTask
      ensures ticksUsed == FirstTerminate(ticks, 0) + 1
      ensures submitted == old(submitted) + ArrivalsOf(ticks[..ticksUsed])
      ensures filledQueue == [] && commitCallbacks == []
      ensures DrainedUnits(trace) == submitted && Unsynced(trace) == 0
      ensures FiredCallbacks(trace) == CallbacksOf(submitted) && FireSafe(trace) && FireOrdered(trace)
      ensures LogFile() == FileOf(submitted)
      ensures emptyQueue == pool + BuffersOf(submitted)
      ensures |sleeps| == ticksUsed && sleeps[0] == persistInterval && CappedAfterFirst(sleeps)
      ensures BackOff(sleeps, signals, persistInterval)
      ensures SignalsFollowTicks(signals, ticks, old(forceFlush) || |old(filledQueue)| > 0)
    {
      StartLoop(start);
      ticksUsed, sleeps, signals := Iterate(ticks, old(forceFlush) || |old(filledQueue)| > 0);
      DrainAndPersistAll();
    }

    /** `RunTask`: sets `run_task_` and runs the loop. */
    method RunTask(ticks: seq<Tick>, start: int) returns (ticksUsed: nat, sleeps: seq<nat>, signals: seq<bool>)
      requires Valid() && Unsynced(trace) == 0
      requires SomeTerminates(ticks, 0)
      modifies this
      ensures Coherent() && !runTask && filledQueue == [] && commitCallbacks == []
      ensures ticksUsed == FirstTerminate(ticks, 0) + 1
      ensures submitted == old(submitted) + ArrivalsOf(ticks[..ticksUsed])
      ensures DrainedUnits(trace) == submitted && Unsynced(trace) == 0
      ensures FiredCallbacks(trace) == CallbacksOf(submitted) && FireSafe(trace) && FireOrdered(trace)
      ensures LogFile() == FileOf(submitted)
      ensures emptyQueue == pool + BuffersOf(submitted)
      ensures |sleeps| == ticksUsed && sleeps[0] == persistInterval && CappedAfterFirst(sleeps)
      ensures BackOff(sleeps, signals, persistInterval)
      ensures SignalsFollowTicks(signals, ticks, old(forceFlush) || |old(filledQueue)| > 0)
    {
      runTask := true;
      ticksUsed, sleeps, signals := DiskLogConsumerTaskLoop(ticks, start);
    }
  }
}
