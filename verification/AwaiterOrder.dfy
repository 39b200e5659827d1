/** What the operations of the interest cache do to the order of one awaiter queue. */
module AwaiterQueues {
  import opened Sequences
  import opened PollSpec
  import opened PollPlaces

  function QueueOf(p: Poll<Fid>, at: Place): seq<Fid> {
    if at.fd in p.watchers then p.watchers[at.fd].Awaiters(at.event) else []
  }

  ghost predicate Before(q: seq<Fid>, f: Fid, g: Fid) {
    exists i, j :: 0 <= i < j < |q| && q[i] == f && q[j] == g
  }

  // ----- order in a queue -----

  lemma AppendKeeps(q: seq<Fid>, f: Fid, g: Fid, x: Fid)
    ensures Before(q, f, g) ==> Before(q + [x], f, g)
    ensures f in q ==> Before(q + [x], f, x)
  {
    var q' := q + [x];
    if Before(q, f, g) {
      var i, j :| 0 <= i < j < |q| && q[i] == f && q[j] == g;
      assert q'[i] == f && q'[j] == g;
    }
    if f in q {
      var i :| 0 <= i < |q| && q[i] == f;
      assert q'[i] == f && q'[|q|] == x;
    }
  }

  lemma WithoutKeeps(q: seq<Fid>, f: Fid, g: Fid, x: Fid)
    requires Distinct(q) && Before(q, f, g) && x != f && x != g && x in q
    ensures Before(Without(q, x), f, g)
  {
    hide Without;
    var i, j :| 0 <= i < j < |q| && q[i] == f && q[j] == g;
    var k :| 0 <= k < |q| && q[k] == x;
    WithoutCuts(q, k);
    var q' := q[..k] + q[k + 1..];
    var i', j' := if i < k then i else i - 1, if j < k then j else j - 1;
    assert q'[i'] == f && q'[j'] == g;
  }

  lemma SuffixKeeps(q: seq<Fid>, k: nat, f: Fid, g: Fid)
    requires Distinct(q) && Before(q, f, g) && k <= |q|
    ensures f in q[k..] ==> Before(q[k..], f, g)
    ensures g !in q[k..] ==> f !in q[k..]
  {
    var i, j :| 0 <= i < j < |q| && q[i] == f && q[j] == g;
    if f in q[k..] {
      var l :| 0 <= l < |q[k..]| && q[k..][l] == f;
      assert q[k + l] == f && i == k + l;
      assert q[k..][i - k] == f && q[k..][j - k] == g;
    }
  }

  // ----- what each operation does to a queue -----

  lemma AddQueue(p: Poll<Fid>, x: Fid, fd: int, e: IOEvent, at: Place)
    requires fd in p.watchers
    ensures QueueOf(AddAwaiter(p, x, fd, e), at) == QueueOf(p, at) + if at == Place(fd, e) then [x] else []
  {
  }

  lemma RemoveQueue(p: Poll<Fid>, x: Fid, fd: int, at: Place)
    requires Inv(p) && Awaits(p, x, fd)
    ensures QueueOf(RemoveAwaiter(p, x, fd), at) == QueueOf(p, at) ||
      (x in QueueOf(p, at) && QueueOf(RemoveAwaiter(p, x, fd), at) == Without(QueueOf(p, at), x))
  {
  }

  lemma CreateQueue(p: Poll<Fid>, fd: int, at: Place)
    requires fd !in p.watchers
    ensures QueueOf(Create(p, fd), at) == QueueOf(p, at)
  {
  }

  lemma UnwatchQueue(p: Poll<Fid>, fd: int, at: Place)
    requires fd in p.watchers && at.fd != fd
    ensures QueueOf(Destroy(RemoveAwaiters(p, fd).0, fd), at) == QueueOf(p, at)
  {
  }

  lemma ServedQueue(w: Watcher<Fid>, ev: Event, e: IOEvent) returns (k: nat)
    requires !ev.broken && Readability in ev.flags ==> w.readers != []
    requires !ev.broken && Writability in ev.flags ==> w.writers != []
    ensures k <= |w.Awaiters(e)| && Served(w, ev).Awaiters(e) == w.Awaiters(e)[k..]
  {
    k := if e.Readability? then Let(w.readers, Readability, ev) else Let(w.writers, Writability, ev);
  }

  lemma DispatchQueue(p: Poll<Fid>, events: seq<Event>, at: Place) returns (k: nat)
    requires Ready(p, events)
    ensures k <= |QueueOf(p, at)| && QueueOf(DispatchAll(p, events).0, at) == QueueOf(p, at)[k..]
  {
    hide Inv, DispatchAll, Served;
    DispatchAllIs(p, events);
    k := 0;
    if ev :| ev in events && ev.fd == at.fd {
      assert ServedAt(p, DispatchAll(p, events).0, ev);
      k := ServedQueue(p.watchers[at.fd], ev, at.event);
    }
  }

  lemma FlushQueue(p: Poll<Fid>, at: Place)
    requires Inv(p)
    ensures Inv(Flush(p)) && QueueOf(Flush(p), at) == QueueOf(p, at)
  {
    hide Inv;
    FlushSound(p);
  }

  /** A wait takes awaiters off the front of a queue only. */
  lemma WaitQueue(p: Poll<Fid>, outcome: Option<seq<Event>>, at: Place) returns (k: nat)
    requires Inv(p) && LegalOutcome(p, outcome)
    ensures k <= |QueueOf(p, at)| && QueueOf(Waited(p, outcome).0, at) == QueueOf(p, at)[k..]
  {
    hide WatcherInv, KernelMirrorsFlags, Ready, DispatchAll, Flush;
    FlushQueue(p, at);
    k := 0;
    if outcome.Some? {
      OutcomeIsReady(p, outcome.value);
      k := DispatchQueue(Flush(p), outcome.value, at);
    }
  }
}

/** The fibers waiting for one descriptor and event are released in the order in which they came. */
module AwaiterOrder {
  import opened Sequences
  import opened PollSpec
  import opened PollPlaces
  import opened AwaiterQueues
  import opened SchedulerSpec
  import opened FiberModes
  import opened FiberRuns
  import T = TimerSpec

  lemma QueuedIsAwaiting(p: Poll<Fid>, m: Modes, at: Place, f: Fid)
    requires PollOk(p, m)
    ensures f in QueueOf(p, at) <==> f in m && m[f] == Awaiting(at)
    ensures Distinct(QueueOf(p, at))
  {
    assert f in QueueOf(p, at) <==> QueuedAt(p, f, at);
    if at.fd in p.watchers {
      assert WatcherInv(p.watchers[at.fd]);
    }
  }

  lemma {:induction false} WakeAllKeeps(s: Sched, m: Modes, batch: seq<Fid>, at: Place, f: Fid, g: Fid)
    requires ShowsUntimed(s, m) && Distinct(batch) && (forall x :: x in batch ==> Waits(m, x)) && CanWakeAll(s, batch)
    requires Before(QueueOf(s.poll, at), f, g) && f !in batch && g !in batch
    ensures Before(QueueOf(WakeAll(s, batch).poll, at), f, g)
    decreases |batch|
  {
    hide RingsOk, RecordsOk, Before, QueueOf, CanWake;
    if batch != [] {
      var x, rest := batch[0], batch[1..];
      DistinctTail(batch);
      WakeAllKeeps(s, m, rest, at, f, g);
      WakeAllIff(s, m, rest);
      WakeKeeps(WakeAll(s, rest), ExpireModes(m, rest), x, at, f, g);
    }
  }

  lemma WakeKeeps(s: Sched, m: Modes, x: Fid, at: Place, f: Fid, g: Fid)
    requires PollOk(s.poll, m) && CanWake(s, x) && Before(QueueOf(s.poll, at), f, g) && x != f && x != g
    ensures Before(QueueOf(Wake(s, x).poll, at), f, g)
  {
    hide Places, Before, QueueOf, Without;
    if s.fibers[x].fd >= 0 {
      RemoveQueue(s.poll, x, s.fibers[x].fd, at);
      QueuedIsAwaiting(s.poll, m, at, x);
      if x in QueueOf(s.poll, at) {
        WithoutKeeps(QueueOf(s.poll, at), f, g, x);
      }
    }
  }

  lemma BothQueued(q: seq<Fid>, f: Fid, g: Fid)
    requires Before(q, f, g)
    ensures f in q && g in q
  {
  }

  lemma ExpireKeepsOrder(s: Sched, m: Modes, now: nat, batch: seq<Fid>, at: Place, f: Fid, g: Fid)
    requires Shows(s, m) && s.phase.Expiring? && T.IsDueBatch(s.timers, now, BATCH, batch)
    requires CanWakeAll(Expired(s, batch), batch) && Before(QueueOf(s.poll, at), f, g) && f !in batch && g !in batch
    ensures Before(QueueOf(Expire(s, batch).poll, at), f, g)
  {
    hide ShowsUntimed, Before, QueueOf;
    ExpiredShows(s, m, batch);
    WakeAllKeeps(Expired(s, batch), m, batch, at, f, g);
  }

  lemma WaitKeepsOrder(p: Poll<Fid>, m: Modes, outcome: Option<seq<Event>>, at: Place, f: Fid, g: Fid)
    requires PollOk(p, m) && LegalOutcome(p, outcome) && Before(QueueOf(p, at), f, g)
    ensures var (p', out) := Waited(p, outcome);
      (g in out ==> f in out) && (f !in out ==> Before(QueueOf(p', at), f, g))
  {
    hide Inv, Places, Before, QueueOf, Waited, LegalOutcome;
    var (p', out) := Waited(p, outcome);
    var m' := AllTo(m, out, Ready(Released));
    WaitPoll(p, m, outcome);
    var k := WaitQueue(p, outcome, at);
    BothQueued(QueueOf(p, at), f, g);
    QueuedIsAwaiting(p, m, at, f);
    QueuedIsAwaiting(p, m, at, g);
    QueuedIsAwaiting(p', m', at, f);
    QueuedIsAwaiting(p', m', at, g);
    SuffixKeeps(QueueOf(p, at), k, f, g);
  }

  /** No fiber overtakes another that waits for the same event: while both go on waiting their order stays, and an
      event that releases the later one has released the earlier one too. */
  lemma FirstComeFirstServed(a: State, op: Op, b: State, at: Place, f: Fid, g: Fid)
    requires Shows(a.s, a.m) && Follows(a, op, b) && Before(QueueOf(a.s.poll, at), f, g)
    ensures f in a.m && g in a.m && f in b.m && g in b.m
    ensures b.m[f] == a.m[f] && b.m[g] == a.m[g] ==> Before(QueueOf(b.s.poll, at), f, g)
    ensures b.m[g] == Ready(Released) ==> b.m[f] == Ready(Released)
  {
    var s, m := a.s, a.m;
    PollShown(s, m);
    BothQueued(QueueOf(s.poll, at), f, g);
    QueuedIsAwaiting(s.poll, m, at, f);
    QueuedIsAwaiting(s.poll, m, at, g);
    WokenForCause(s, m, op, f);
    WokenForCause(s, m, op, g);
    hide Shows, PollOk, Inv, LegalOutcome, Waited, Before, QueueOf, Expire, CanWakeAll, AddAwaiter, RemoveAwaiters, Create, Destroy;
    match op {
      case OpWait(outcome) => WaitKeepsOrder(s.poll, m, outcome, at, f, g);
      case OpExpire(now, batch) =>
        if f !in batch && g !in batch {
          ExpireKeepsOrder(s, m, now, batch, at, f, g);
        }
      case OpAwait(fd, e, _, _) =>
        AddQueue(s.poll, s.running.value, fd, e, at);
        AppendKeeps(QueueOf(s.poll, at), f, g, s.running.value);
        NothingAdded(QueueOf(s.poll, at));
      case OpUnwatch(fd) =>
        if at.fd != fd {
          UnwatchQueue(s.poll, fd, at);
        }
      case OpWatch(fd) => CreateQueue(s.poll, fd, at);
      case _ =>
    }
  }

  lemma NothingAdded(q: seq<Fid>)
    ensures q + [] == q
  {
  }

  lemma PollShown(s: Sched, m: Modes)
    requires Shows(s, m)
    ensures PollOk(s.poll, m)
  {
  }

  /** A fiber that starts to wait comes after all that wait for the same event already. */
  lemma LatecomersQueueBehind(s: Sched, m: Modes, op: Op, f: Fid)
    requires Shows(s, m) && Enabled(s, m, op) && op.OpAwait? && f in QueueOf(s.poll, Place(op.fd, op.event))
    ensures Before(QueueOf(Step(s, m, op).poll, Place(op.fd, op.event)), f, s.running.value)
  {
    hide Shows, Inv, Before, QueueOf, AddAwaiter;
    AddQueue(s.poll, s.running.value, op.fd, op.event, Place(op.fd, op.event));
    AppendKeeps(QueueOf(s.poll, Place(op.fd, op.event)), f, f, s.running.value);
  }

  /** The wait releases exactly the waiters it should: the first of each queue whose event is reported, and all of a
      descriptor that is reported broken. */
  lemma ReleasedIff(s: Sched, m: Modes, events: seq<Event>, f: Fid)
    requires Shows(s, m) && Enabled(s, m, OpWait(Some(events))) && f in m && m[f].Awaiting?
    ensures f in QueueOf(s.poll, m[f].at) && f in StepModes(s, m, OpWait(Some(events)))
    ensures StepModes(s, m, OpWait(Some(events)))[f] == Ready(Released) <==>
      exists ev :: ev in events && Covers(ev, m[f].at) && (ev.broken || QueueOf(s.poll, m[f].at)[0] == f)
  {
    var p, at := s.poll, m[f].at;
    var (p', out) := Waited(p, Some(events));
    PollShown(s, m);
    QueuedIsAwaiting(p, m, at, f);
    WaitPoll(p, m, Some(events));
    QueuedIsAwaiting(p', AllTo(m, out, Ready(Released)), at, f);
    WaitedIs(p, Some(events));
    hide Shows, PollOk, Inv, LegalOutcome, Waited, ServedAfter;
    if ev :| ev in events && ev.fd == at.fd {
      ServedFiber(p, p', ev, at, f);
    } else {
      assert at.fd !in Fds(events);
    }
    forall ev | ev in events && Covers(ev, at)
      ensures f !in QueueOf(p', at) <==> ev.broken || QueueOf(p, at)[0] == f
    {
      ServedFiber(p, p', ev, at, f);
    }
  }

  lemma ServedFiber(p: Poll<Fid>, p': Poll<Fid>, ev: Event, at: Place, f: Fid)
    requires ServedAfter(p, p', ev) && ev.fd == at.fd && Distinct(QueueOf(p, at)) && f in QueueOf(p, at)
    ensures f !in QueueOf(p', at) <==> Covers(ev, at) && (ev.broken || QueueOf(p, at)[0] == f)
  {
    var q := QueueOf(p, at);
    assert QueueOf(p', at) == q[LetGo(q, at.event, ev)..];
    DistinctTail(q);
  }
}
