/** The scheduler's queues, timers and records as a picture of one mode per fiber. */
module FiberModes {
  import opened Sequences
  import opened PollSpec
  import opened PollPlaces
  import opened SchedulerSpec
  import T = TimerSpec

  /** Why a ready fiber was made ready. */
  datatype Cause = Started | Plain | Released | TimedOut | Unwatched

  datatype Mode = Running | Ready(cause: Cause) | Awaiting(at: Place) | Sleeping | Suspended | Dead

  type Modes = map<Fid, Mode>

  // ----- the picture -----

  /** Each queue holds the fibers of its mode, once each. */
  ghost predicate RingsOk(ready: seq<Fid>, dead: seq<Fid>, running: Option<Fid>, m: Modes) {
    && Distinct(ready) && Distinct(dead)
    && (forall f: Fid :: f in ready <==> f in m && m[f].Ready?)
    && (forall f: Fid :: f in dead <==> f in m && m[f].Dead?)
    && (forall f: Fid :: running == Some(f) <==> f in m && m[f].Running?)
  }

  ghost predicate RecordOk(r: Fiber, mode: Mode) {
    match mode
    case Running => r.started ==> r.status != 0
    case Ready(Started) => !r.started && r.status == 0
    case Ready(TimedOut) => r.started && r.status == -ETIME
    case Ready(Unwatched) => r.started && r.status == -EBADF
    case Ready(_) => r.started && r.status == 1
    case Awaiting(at) => r.started && r.status == 1 && r.fd == at.fd && at.fd >= 0
    case Sleeping => r.started && r.status == 1
    case Suspended => r.started && r.status == 1
    case Dead => !r.started && r.status == 0
  }

  ghost predicate RecordsOk(fibers: map<Fid, Fiber>, m: Modes) {
    fibers.Keys == m.Keys && forall f :: f in m ==> RecordOk(fibers[f], m[f])
  }

  /** Exactly the sleeping and the awaiting fibers have a timer item in the heap. */
  ghost predicate TimersOk(timers: map<Fid, nat>, m: Modes) {
    forall f: Fid :: f in timers <==> f in m && (m[f].Awaiting? || m[f].Sleeping?)
  }

  ghost function PlacesOf(m: Modes): map<Fid, Place> {
    map f | f in m && m[f].Awaiting? :: m[f].at
  }

  /** Exactly the awaiting fibers are on awaiter queues, each on one. */
  ghost predicate PollOk(p: Poll<Fid>, m: Modes) {
    Inv(p) && Places(p, PlacesOf(m)) && forall fd :: fd in p.watchers ==> fd >= 0
  }

  ghost predicate Shows(s: Sched, m: Modes) {
    && RingsOk(s.ready, s.dead, s.running, m)
    && RecordsOk(s.fibers, m) && s.fiberCount == |m|
    && TimersOk(s.timers, m)
    && PollOk(s.poll, m)
    && (s.running.Some? <==> s.phase.InFiber?)
  }

  // ----- what each operation does to the modes -----

  ghost function SwitchModes(ready: seq<Fid>, m: Modes): Modes {
    if ready == [] then m else m[ready[0] := Running]
  }

  ghost function AllTo(m: Modes, fs: seq<Fid>, mode: Mode): Modes {
    map f | f in m :: if f in fs then mode else m[f]
  }

  /** A due sleeper is just made ready; a due waiter is told its wait timed out. */
  ghost function ExpiredMode(mode: Mode): Mode {
    if mode.Awaiting? then Ready(TimedOut) else Ready(Plain)
  }

  ghost function ExpireModes(m: Modes, batch: seq<Fid>): Modes {
    map f | f in m :: if f in batch then ExpiredMode(m[f]) else m[f]
  }

  // ----- preservation -----

  lemma AppendReady(ready: seq<Fid>, dead: seq<Fid>, running: Option<Fid>, m: Modes, f: Fid, cause: Cause)
    requires RingsOk(ready, dead, running, m) && (f in m ==> m[f].Suspended? || m[f].Sleeping? || m[f].Awaiting?)
    ensures RingsOk(ready + [f], dead, running, m[f := Ready(cause)])
    ensures RingsOk([f] + ready, dead, running, m[f := Ready(cause)])
  {
    DistinctConcat(ready, [f]);
    DistinctConcat([f], ready);
  }

  lemma SwitchRings(ready: seq<Fid>, dead: seq<Fid>, m: Modes)
    requires RingsOk(ready, dead, None, m)
    ensures ready == [] ==> RingsOk([], dead, None, SwitchModes(ready, m))
    ensures ready != [] ==> ready[0] in m && RingsOk(ready[1..], dead, Some(ready[0]), SwitchModes(ready, m))
  {
    if ready != [] {
      var rest := ready[1..];
      DistinctTail(ready);
    }
  }

  lemma SamePlaces(m: Modes, m': Modes)
    requires forall f: Fid :: f in m && m[f].Awaiting? ==> f in m' && m'[f] == m[f]
    requires forall f: Fid :: f in m' && m'[f].Awaiting? ==> f in m && m'[f] == m[f]
    ensures PlacesOf(m') == PlacesOf(m)
  {
  }

  lemma SwitchShows(s: Sched, m: Modes)
    requires RingsOk(s.ready, s.dead, None, m) && RecordsOk(s.fibers, m) && s.fiberCount == |m|
    requires TimersOk(s.timers, m) && PollOk(s.poll, m)
    ensures Shows(Switch(s), SwitchModes(s.ready, m))
  {
    SwitchRings(s.ready, s.dead, m);
    var m' := SwitchModes(s.ready, m);
    if s.ready != [] {
      assert s.ready[0] in s.ready;
      assert m'.Keys == m.Keys;
    }
    SamePlaces(m, m');
  }

  ghost function YieldModes(s: Sched, m: Modes): Modes
    requires Active(s)
  {
    var f := s.running.value;
    if s.ready == [] then m else SwitchModes(s.ready + [f], m[f := Ready(Plain)])
  }

  /** The running fiber stops with this mode and the next ready one runs. */
  ghost function StopModes(s: Sched, m: Modes, mode: Mode): Modes
    requires Active(s)
  {
    SwitchModes(s.ready, m[s.running.value := mode])
  }

  lemma LeaveRings(s: Sched, m: Modes, mode: Mode)
    requires Shows(s, m) && Active(s) && !mode.Running?
    ensures s.running.value in m && m[s.running.value].Running?
    ensures !mode.Ready? && !mode.Dead? ==> RingsOk(s.ready, s.dead, None, m[s.running.value := mode])
    ensures mode.Ready? ==> RingsOk(s.ready + [s.running.value], s.dead, None, m[s.running.value := mode])
    ensures mode.Dead? ==> RingsOk(s.ready, s.dead + [s.running.value], None, m[s.running.value := mode])
  {
    var f := s.running.value;
    DistinctConcat(s.ready, [f]);
    DistinctConcat(s.dead, [f]);
  }

  lemma YieldShows(s: Sched, m: Modes)
    requires Shows(s, m) && Active(s)
    ensures Shows(Yield(s), YieldModes(s, m))
  {
    if s.ready != [] {
      var f := s.running.value;
      LeaveRings(s, m, Ready(Plain));
      SamePlaces(m, m[f := Ready(Plain)]);
      SwitchShows(Leave(s, Parked(s)).(ready := s.ready + [f]), m[f := Ready(Plain)]);
    }
  }

  lemma SleepShows(s: Sched, m: Modes, due: nat)
    requires Shows(s, m) && Active(s)
    ensures Shows(Sleep(s, due), StopModes(s, m, Sleeping))
  {
    var f := s.running.value;
    LeaveRings(s, m, Sleeping);
    SamePlaces(m, m[f := Sleeping]);
    SwitchShows(Leave(s, Parked(s)).(timers := s.timers[f := due]), m[f := Sleeping]);
  }

  lemma SuspendShows(s: Sched, m: Modes)
    requires Shows(s, m) && Active(s)
    ensures Shows(Suspend(s), StopModes(s, m, Suspended))
  {
    var f := s.running.value;
    LeaveRings(s, m, Suspended);
    SamePlaces(m, m[f := Suspended]);
    SwitchShows(Leave(s, Parked(s)), m[f := Suspended]);
  }

  lemma KillShows(s: Sched, m: Modes)
    requires Shows(s, m) && Active(s)
    ensures Shows(Kill(s), StopModes(s, m, Dead))
  {
    hide Inv, Places, RingsOk;
    var f := s.running.value;
    LeaveRings(s, m, Dead);
    SamePlaces(m, m[f := Dead]);
    SwitchShows(Leave(s, Fiber(false, 0, s.fibers[f].fd)).(dead := s.dead + [f]), m[f := Dead]);
  }

  lemma AwaitPoll(p: Poll<Fid>, m: Modes, f: Fid, fd: int, e: IOEvent)
    requires PollOk(p, m) && f in m && !m[f].Awaiting? && fd in p.watchers
    ensures !Awaits(p, f, fd) && PollOk(AddAwaiter(p, f, fd, e), m[f := Awaiting(Place(fd, e))])
  {
    var m' := m[f := Awaiting(Place(fd, e))];
    AddPlaces(p, PlacesOf(m), f, fd, e);
    AddAwaiterKeepsInv(p, f, fd, e);
    assert PlacesOf(m') == PlacesOf(m)[f := Place(fd, e)];
  }

  lemma AwaitShows(s: Sched, m: Modes, fd: int, e: IOEvent, due: nat)
    requires Shows(s, m) && Active(s) && fd in s.poll.watchers
    ensures !Awaits(s.poll, s.running.value, fd)
    ensures Shows(Await(s, fd, e, due), StopModes(s, m, Awaiting(Place(fd, e))))
  {
    hide Inv, Places, AddAwaiter, Awaits;
    var f := s.running.value;
    var m1 := m[f := Awaiting(Place(fd, e))];
    LeaveRings(s, m, Awaiting(Place(fd, e)));
    AwaitPoll(s.poll, m, f, fd, e);
    var s1 := Leave(s, Fiber(true, 1, fd)).(poll := AddAwaiter(s.poll, f, fd, e), timers := s.timers[f := due]);
    assert m1.Keys == m.Keys && fd >= 0;
    SwitchShows(s1, m1);
  }

  lemma CallRings(ready: seq<Fid>, dead: seq<Fid>, running: Option<Fid>, m: Modes, newId: Fid)
    requires RingsOk(ready, dead, running, m) && newId !in m
    ensures dead == [] ==> RingsOk(ready + [newId], [], running, m[newId := Ready(Started)])
    ensures dead != [] ==> dead[0] in m && RingsOk(ready + [dead[0]], dead[1..], running, m[dead[0] := Ready(Started)])
  {
    if dead == [] {
      AppendReady(ready, dead, running, m, newId, Started);
    } else {
      var f, rest := dead[0], dead[1..];
      DistinctTail(dead);
      DistinctConcat(ready, [f]);
    }
  }

  /** callCoroutine takes a dead fiber or a new one, and only that one changes mode. */
  lemma CallShows(s: Sched, m: Modes, newId: Fid)
    requires Shows(s, m) && newId !in m
    ensures Shows(Call(s, newId), m[Callee(s, newId) := Ready(Started)])
  {
    hide PollOk, RingsOk;
    var f := Callee(s, newId);
    var m' := m[f := Ready(Started)];
    CallRings(s.ready, s.dead, s.running, m, newId);
    CallPoll(s, m, newId);
    assert s.dead != [] ==> m'.Keys == m.Keys;
    assert s.dead == [] ==> m'.Keys == m.Keys + {newId};
  }

  lemma CallPoll(s: Sched, m: Modes, newId: Fid)
    requires Shows(s, m) && newId !in m
    ensures s.dead != [] ==> s.dead[0] in m && m[s.dead[0]].Dead?
    ensures PollOk(s.poll, m[Callee(s, newId) := Ready(Started)])
  {
    assert s.dead != [] ==> s.dead[0] in s.dead;
    SamePlaces(m, m[Callee(s, newId) := Ready(Started)]);
  }

  lemma ResumeShows(s: Sched, m: Modes, g: Fid)
    requires Shows(s, m) && g in m && m[g].Suspended?
    ensures Shows(Resume(s, g), m[g := Ready(Plain)])
  {
    AppendReady(s.ready, s.dead, s.running, m, g, Plain);
    SamePlaces(m, m[g := Ready(Plain)]);
    assert m[g := Ready(Plain)].Keys == m.Keys;
  }

  lemma WatchShows(s: Sched, m: Modes, fd: int)
    requires Shows(s, m) && fd >= 0 && fd !in s.poll.watchers
    ensures Shows(Watch(s, fd), m)
  {
    CreateKeepsInv(s.poll, fd);
    forall f: Fid, at
      ensures QueuedAt(Create(s.poll, fd), f, at) <==> QueuedAt(s.poll, f, at)
    {
    }
  }

  lemma AllToRings(ready: seq<Fid>, dead: seq<Fid>, running: Option<Fid>, m: Modes, out: seq<Fid>, cause: Cause)
    requires RingsOk(ready, dead, running, m) && Distinct(out)
    requires forall f :: f in out ==> f in m && m[f].Awaiting?
    ensures RingsOk(ready + out, dead, running, AllTo(m, out, Ready(cause)))
  {
    DistinctConcat(ready, out);
  }

  lemma AllToPlaces(m: Modes, out: seq<Fid>, cause: Cause)
    requires forall f :: f in out ==> f in m && m[f].Awaiting?
    ensures PlacesOf(AllTo(m, out, Ready(cause))) == PlacesOf(m) - Elements(out)
    ensures AllTo(m, out, Ready(cause)).Keys == m.Keys
  {
  }

  lemma AllToTimers(timers: map<Fid, nat>, m: Modes, out: seq<Fid>, cause: Cause)
    requires TimersOk(timers, m) && forall f :: f in out ==> f in m && m[f].Awaiting?
    ensures TimersOk(DropTimers(timers, out), AllTo(m, out, Ready(cause)))
  {
  }

  lemma UnwatchRecords(fibers: map<Fid, Fiber>, m: Modes, out: seq<Fid>)
    requires RecordsOk(fibers, m) && forall f :: f in out ==> f in m && m[f].Awaiting?
    ensures RecordsOk(WithStatus(fibers, out, -EBADF), AllTo(m, out, Ready(Unwatched)))
  {
    var m' := AllTo(m, out, Ready(Unwatched));
    forall f | f in m'
      ensures RecordOk(WithStatus(fibers, out, -EBADF)[f], m'[f])
    {
      assert RecordOk(fibers[f], m[f]);
    }
  }

  lemma ReleasedRecords(fibers: map<Fid, Fiber>, m: Modes, out: seq<Fid>)
    requires RecordsOk(fibers, m) && forall f :: f in out ==> f in m && m[f].Awaiting?
    ensures RecordsOk(fibers, AllTo(m, out, Ready(Released)))
  {
    forall f | f in m
      ensures RecordOk(fibers[f], AllTo(m, out, Ready(Released))[f])
    {
      assert RecordOk(fibers[f], m[f]);
    }
  }

  lemma UnwatchPoll(p: Poll<Fid>, m: Modes, fd: int)
    requires PollOk(p, m) && fd in p.watchers
    ensures var (p', out) := RemoveAwaiters(p, fd);
      && Distinct(out) && (forall f: Fid :: f in out <==> f in m && m[f].Awaiting? && m[f].at.fd == fd)
      && PollOk(Destroy(p', fd), AllTo(m, out, Ready(Unwatched)))
  {
    var (p', out) := RemoveAwaiters(p, fd);
    RemoveAllPlaces(p, PlacesOf(m), fd);
    RemoveAwaitersKeepsInv(p, fd);
    DestroyKeepsInv(p', fd);
    AllToPlaces(m, out, Unwatched);
  }

  /** Unwatching makes exactly the descriptor's waiters ready, each once, with EBADF. */
  lemma UnwatchShows(s: Sched, m: Modes, fd: int)
    requires Shows(s, m) && fd in s.poll.watchers
    ensures Shows(Unwatch(s, fd), AllTo(m, RemoveAwaiters(s.poll, fd).1, Ready(Unwatched)))
  {
    hide PollOk, RemoveAwaiters, Destroy, TimersOk, RecordsOk, WithStatus;
    var out := RemoveAwaiters(s.poll, fd).1;
    UnwatchPoll(s.poll, m, fd);
    AllToRings(s.ready, s.dead, s.running, m, out, Unwatched);
    AllToTimers(s.timers, m, out, Unwatched);
    UnwatchRecords(s.fibers, m, out);
    AllToPlaces(m, out, Unwatched);
  }

  lemma ReapShows(s: Sched, m: Modes)
    requires Shows(s, m) && s.phase.Reaping?
    ensures |s.dead| <= s.fiberCount
    ensures Shows(Reap(s), m - Elements(s.dead))
  {
    DistinctSize(s.dead);
    assert Elements(s.dead) <= m.Keys;
    SubsetSize(Elements(s.dead), m.Keys);
    var m' := m - Elements(s.dead);
    assert m'.Keys == m.Keys - Elements(s.dead);
    assert |m'.Keys| == |m.Keys| - |Elements(s.dead)|;
    SamePlaces(m, m');
  }

  lemma WaitPoll(p: Poll<Fid>, m: Modes, outcome: Option<seq<Event>>)
    requires PollOk(p, m) && LegalOutcome(p, outcome)
    ensures var (p', out) := Waited(p, outcome);
      && Distinct(out) && PollOk(p', AllTo(m, out, Ready(Released)))
      && (forall f :: f in out ==> f in m && m[f].Awaiting? && outcome.Some? && exists ev :: ev in outcome.value && Covers(ev, m[f].at))
  {
    var (p', out) := Waited(p, outcome);
    WaitedPlaces(p, PlacesOf(m), outcome);
    WaitedIs(p, outcome);
    assert forall f :: f in out ==> f in PlacesOf(m);
    AllToPlaces(m, out, Released);
  }

  /** A wait makes released waiters ready, each once, and each covered by an event the kernel reported. */
  lemma WaitShows(s: Sched, m: Modes, outcome: Option<seq<Event>>)
    requires Shows(s, m) && s.phase.Waiting? && LegalOutcome(s.poll, outcome)
    ensures Inv(s.poll)
    ensures Shows(Wait(s, outcome), AllTo(m, Waited(s.poll, outcome).1, Ready(Released)))
  {
    hide TimersOk, RecordsOk, Waited, Inv, Places;
    var out := Waited(s.poll, outcome).1;
    WaitPoll(s.poll, m, outcome);
    AllToRings(s.ready, s.dead, s.running, m, out, Released);
    AllToTimers(s.timers, m, out, Released);
    ReleasedRecords(s.fibers, m, out);
    AllToPlaces(m, out, Released);
  }

  // ----- expired timers -----

  /** The picture without its timers, as it is while a batch of due items is being woken. */
  ghost predicate ShowsUntimed(s: Sched, m: Modes) {
    && RingsOk(s.ready, s.dead, s.running, m)
    && RecordsOk(s.fibers, m) && s.fiberCount == |m|
    && PollOk(s.poll, m)
  }

  ghost predicate Waits(m: Modes, f: Fid) {
    f in m && (m[f].Awaiting? || m[f].Sleeping?)
  }

  /** A sleeper whose record still names a descriptor from an earlier wait. */
  ghost predicate Stale(s: Sched, m: Modes, f: Fid) {
    f in m && m[f].Sleeping? && f in s.fibers && s.fibers[f].fd >= 0
  }

  /** Waking a fiber whose timer is due is legal exactly when it is not a stale sleeper. */
  lemma CanWakeIff(s: Sched, m: Modes, f: Fid)
    requires ShowsUntimed(s, m) && Waits(m, f)
    ensures CanWake(s, f) <==> !Stale(s, m, f)
  {
    assert RecordOk(s.fibers[f], m[f]);
    AwaitsIsPlace(s.poll, PlacesOf(m), f, s.fibers[f].fd);
  }

  lemma WakePoll(s: Sched, m: Modes, f: Fid)
    requires ShowsUntimed(s, m) && Waits(m, f) && CanWake(s, f)
    ensures PollOk(Wake(s, f).poll, m[f := ExpiredMode(m[f])])
  {
    hide Inv, Places, RingsOk;
    var m' := m[f := ExpiredMode(m[f])];
    CanWakeIff(s, m, f);
    assert RecordOk(s.fibers[f], m[f]);
    if s.fibers[f].fd >= 0 {
      RemovePlaces(s.poll, PlacesOf(m), f, s.fibers[f].fd);
      RemoveAwaiterKeepsInv(s.poll, f, s.fibers[f].fd);
      assert PlacesOf(m') == PlacesOf(m) - {f};
    } else {
      SamePlaces(m, m');
    }
  }

  lemma WakeShows(s: Sched, m: Modes, f: Fid)
    requires ShowsUntimed(s, m) && Waits(m, f) && CanWake(s, f)
    ensures ShowsUntimed(Wake(s, f), m[f := ExpiredMode(m[f])])
  {
    hide Inv, Places, RemoveAwaiter, Awaits;
    WakePoll(s, m, f);
    CanWakeIff(s, m, f);
    AppendReady(s.ready, s.dead, s.running, m, f, ExpiredMode(m[f]).cause);
    assert m[f := ExpiredMode(m[f])].Keys == m.Keys;
    assert RecordOk(s.fibers[f], m[f]);
  }

  lemma ExpireModesStep(m: Modes, f: Fid, rest: seq<Fid>)
    requires f !in rest && Waits(m, f)
    ensures var m1 := ExpireModes(m, rest);
      Waits(m1, f) && m1[f] == m[f] && m1[f := ExpiredMode(m1[f])] == ExpireModes(m, [f] + rest)
  {
  }

  ghost predicate Others(s: Sched, s': Sched, batch: seq<Fid>) {
    && s'.phase == s.phase && s'.timers == s.timers && s'.running == s.running
    && forall f :: f in s.fibers && f !in batch ==> f in s'.fibers && s'.fibers[f] == s.fibers[f]
  }

  /** A batch can be woken exactly when none of it is a stale sleeper; it then leads the ready queue in order. */
  lemma {:induction false} WakeAllIff(s: Sched, m: Modes, batch: seq<Fid>)
    requires ShowsUntimed(s, m) && Distinct(batch) && forall f :: f in batch ==> Waits(m, f)
    ensures CanWakeAll(s, batch) <==> forall f :: f in batch ==> !Stale(s, m, f)
    ensures CanWakeAll(s, batch) ==>
      var s' := WakeAll(s, batch);
      ShowsUntimed(s', ExpireModes(m, batch)) && s'.ready == batch + s.ready && Others(s, s', batch)
    decreases |batch|
  {
    if batch == [] {
      assert ExpireModes(m, batch) == m;
    } else {
      var f, rest := batch[0], batch[1..];
      DistinctTail(batch);
      WakeAllIff(s, m, rest);
      if CanWakeAll(s, rest) {
        WakeOneMore(s, WakeAll(s, rest), m, f, rest);
      }
    }
  }

  lemma WakeOneMore(s: Sched, s1: Sched, m: Modes, f: Fid, rest: seq<Fid>)
    requires ShowsUntimed(s, m) && f !in rest && Waits(m, f)
    requires ShowsUntimed(s1, ExpireModes(m, rest)) && s1.ready == rest + s.ready && Others(s, s1, rest)
    ensures CanWake(s1, f) <==> !Stale(s, m, f)
    ensures CanWake(s1, f) ==>
      && ShowsUntimed(Wake(s1, f), ExpireModes(m, [f] + rest))
      && Wake(s1, f).ready == [f] + rest + s.ready && Others(s, Wake(s1, f), [f] + rest)
  {
    hide RingsOk, PollOk, RecordOk;
    var m1 := ExpireModes(m, rest);
    ExpireModesStep(m, f, rest);
    CanWakeIff(s1, m1, f);
    assert f in s.fibers && s1.fibers[f] == s.fibers[f];
    if CanWake(s1, f) {
      WakeShows(s1, m1, f);
    }
  }

  lemma ExpiredShows(s: Sched, m: Modes, batch: seq<Fid>)
    requires Shows(s, m) && forall f :: f in batch ==> f in s.timers
    ensures ShowsUntimed(Expired(s, batch), m) && forall f :: f in batch ==> Waits(m, f)
    ensures TimersOk(Expired(s, batch).timers, ExpireModes(m, batch))
  {
  }

  /** Expiring a legal batch keeps the picture. */
  lemma ExpireShows(s: Sched, m: Modes, now: nat, batch: seq<Fid>)
    requires Shows(s, m) && s.phase.Expiring? && T.IsDueBatch(s.timers, now, BATCH, batch)
    ensures CanWakeAll(Expired(s, batch), batch) <==> forall f :: f in batch ==> !Stale(s, m, f)
    ensures CanWakeAll(Expired(s, batch), batch) ==>
      Shows(Expire(s, batch), ExpireModes(m, batch)) && Expire(s, batch).ready == batch + s.ready
  {
    hide ShowsUntimed, TimersOk;
    ExpiredShows(s, m, batch);
    WakeAllIff(Expired(s, batch), m, batch);
    assert forall f :: f in batch ==> (Stale(Expired(s, batch), m, f) <==> Stale(s, m, f));
    if CanWakeAll(Expired(s, batch), batch) {
      UntimedIsEnough(WakeAll(Expired(s, batch), batch), ExpireModes(m, batch));
    }
  }

  lemma UntimedIsEnough(s: Sched, m: Modes)
    requires ShowsUntimed(s, m) && TimersOk(s.timers, m) && !s.running.Some?
    ensures Shows(s.(phase := Top), m)
  {
  }
}
