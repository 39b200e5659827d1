/** Where each awaiting fiber is: every operation of the interest cache keeps a fiber in one queue at most. */
module PollPlaces {
  import opened PollSpec
  import opened Sequences

  type Fid = nat

  /** A place is a descriptor and an event. */
  datatype Place = Place(fd: int, event: IOEvent)

  ghost predicate QueuedAt(p: Poll<Fid>, f: Fid, at: Place) {
    at.fd in p.watchers && f in p.watchers[at.fd].Awaiters(at.event)
  }

  /** The queues of p hold exactly the fibers of `places`, each in its one place. */
  ghost predicate Places(p: Poll<Fid>, places: map<Fid, Place>) {
    forall f: Fid, at {:trigger QueuedAt(p, f, at)} :: QueuedAt(p, f, at) <==> f in places && places[f] == at
  }

  lemma AwaitsAt(p: Poll<Fid>, f: Fid, fd: int)
    ensures Awaits(p, f, fd) <==> QueuedAt(p, f, Place(fd, Readability)) || QueuedAt(p, f, Place(fd, Writability))
  {
  }

  lemma AwaitsIsPlace(p: Poll<Fid>, places: map<Fid, Place>, f: Fid, fd: int)
    requires Places(p, places)
    ensures Awaits(p, f, fd) <==> f in places && places[f].fd == fd
  {
    AwaitsAt(p, f, fd);
    if f in places {
      assert QueuedAt(p, f, places[f]);
      assert places[f].event == Readability || places[f].event == Writability;
    }
  }

  lemma AddQueued(p: Poll<Fid>, g: Fid, fd: int, e: IOEvent, f: Fid, at: Place)
    requires fd in p.watchers
    ensures QueuedAt(AddAwaiter(p, g, fd, e), f, at) <==> QueuedAt(p, f, at) || (f == g && at == Place(fd, e))
  {
  }

  lemma AddPlaces(p: Poll<Fid>, places: map<Fid, Place>, g: Fid, fd: int, e: IOEvent)
    requires Places(p, places) && fd in p.watchers && g !in places
    ensures !Awaits(p, g, fd) && Places(AddAwaiter(p, g, fd, e), places[g := Place(fd, e)])
  {
    hide AddAwaiter, Awaits;
    AwaitsIsPlace(p, places, g, fd);
    forall f: Fid, at
      ensures QueuedAt(AddAwaiter(p, g, fd, e), f, at) <==> f in places[g := Place(fd, e)] && places[g := Place(fd, e)][f] == at
    {
      AddQueued(p, g, fd, e, f, at);
    }
  }

  lemma RemoveQueued(p: Poll<Fid>, g: Fid, fd: int, f: Fid, at: Place)
    requires Inv(p) && Awaits(p, g, fd)
    ensures QueuedAt(RemoveAwaiter(p, g, fd), f, at) <==> QueuedAt(p, f, at) && !(f == g && at.fd == fd)
  {
    var w := p.watchers[fd];
    InvAt(p, fd);
    var e := if g in w.readers then Readability else Writability;
    WithoutIs(w.Awaiters(e), g);
    assert g in w.Awaiters(e) && g !in w.Awaiters(Other(e));
    assert at.event == e || at.event == Other(e);
  }

  lemma RemovePlaces(p: Poll<Fid>, places: map<Fid, Place>, g: Fid, fd: int)
    requires Inv(p) && Places(p, places) && Awaits(p, g, fd)
    ensures Places(RemoveAwaiter(p, g, fd), places - {g})
  {
    hide RemoveAwaiter, Inv, Awaits;
    AwaitsIsPlace(p, places, g, fd);
    forall f: Fid, at
      ensures QueuedAt(RemoveAwaiter(p, g, fd), f, at) <==> f in places - {g} && (places - {g})[f] == at
    {
      RemoveQueued(p, g, fd, f, at);
    }
  }

  lemma RemoveAllQueued(p: Poll<Fid>, fd: int, f: Fid, at: Place)
    requires Inv(p) && fd in p.watchers
    ensures QueuedAt(RemoveAwaiters(p, fd).0, f, at) <==> QueuedAt(p, f, at) && at.fd != fd
    ensures QueuedAt(Destroy(RemoveAwaiters(p, fd).0, fd), f, at) <==> QueuedAt(p, f, at) && at.fd != fd
    ensures f in RemoveAwaiters(p, fd).1 <==> Awaits(p, f, fd)
  {
    RemoveAwaitersKeepsInv(p, fd);
  }

  lemma OutDistinct(p: Poll<Fid>, fd: int)
    requires Inv(p) && fd in p.watchers
    ensures Distinct(RemoveAwaiters(p, fd).1)
  {
    InvAt(p, fd);
    var w := p.watchers[fd];
    assert w.Awaiters(Readability) == w.readers && w.Awaiters(Writability) == w.writers;
    forall x | x in w.readers
      ensures x !in w.writers
    {
      assert x in w.Awaiters(Readability) && x !in w.Awaiters(Other(Readability));
    }
    DistinctConcat(w.readers, w.writers);
  }

  lemma RemoveAllPlaces(p: Poll<Fid>, places: map<Fid, Place>, fd: int)
    requires Inv(p) && Places(p, places) && fd in p.watchers
    ensures var (p', out) := RemoveAwaiters(p, fd);
      && Distinct(out) && (forall f: Fid :: f in out <==> f in places && places[f].fd == fd)
      && Places(p', places - Elements(out)) && Places(Destroy(p', fd), places - Elements(out))
  {
    var (p', out) := RemoveAwaiters(p, fd);
    OutDistinct(p, fd);
    hide RemoveAwaiters, Destroy, Awaits, QueuedAt, Inv;
    forall f: Fid
      ensures f in out <==> f in places && places[f].fd == fd
    {
      AwaitsIsPlace(p, places, f, fd);
      RemoveAllQueued(p, fd, f, Place(fd, Readability));
    }
    forall f: Fid, at
      ensures QueuedAt(p', f, at) <==> f in places - Elements(out) && (places - Elements(out))[f] == at
      ensures QueuedAt(Destroy(p', fd), f, at) <==> f in places - Elements(out) && (places - Elements(out))[f] == at
    {
      RemoveAllQueued(p, fd, f, at);
    }
  }

  // ----- dispatch -----

  /** An event that lets go the fiber at this place. */
  ghost predicate Covers(ev: Event, at: Place) {
    ev.fd == at.fd && (ev.broken || at.event in ev.flags)
  }

  lemma ReleasePlaces(p: Poll<Fid>, places: map<Fid, Place>, fd: int, e: IOEvent)
    requires Inv(p) && Places(p, places) && fd in p.watchers && p.watchers[fd].Awaiters(e) != []
    ensures var (p', out) := Release(p, fd, e);
      && Inv(p') && Places(p', places - Elements(out)) && |out| == 1
      && out[0] in places && places[out[0]] == Place(fd, e)
  {
    var f := p.watchers[fd].Awaiters(e)[0];
    ReleaseIs(p, fd, e);
    assert QueuedAt(p, f, Place(fd, e));
    AwaitsIsPlace(p, places, f, fd);
    RemovePlaces(p, places, f, fd);
    assert Elements([f]) == {f};
  }

  /** What one dispatched event does: distinct fibers leave their queues, each covered by the event. */
  ghost predicate Dispatched(p': Poll<Fid>, out: seq<Fid>, places: map<Fid, Place>, events: seq<Event>) {
    && Distinct(out) && Places(p', places - Elements(out))
    && (forall f :: f in out ==> f in places && exists ev :: ev in events && Covers(ev, places[f]))
  }

  lemma DispatchOnePlaces(p: Poll<Fid>, places: map<Fid, Place>, ev: Event)
    requires Inv(p) && Places(p, places) && Dispatchable(p, ev)
    ensures var (p', out) := DispatchOne(p, ev); Dispatched(p', out, places, [ev])
  {
    hide Inv, Places, QueuedAt;
    DispatchOneIs(p, ev);
    if ev.broken {
      RemoveAllPlaces(p, places, ev.fd);
    } else {
      var (p1, out1) := if Readability in ev.flags then Release(p, ev.fd, Readability) else (p, []);
      if Readability in ev.flags {
        ReleaseIs(p, ev.fd, Readability);
        ReleasePlaces(p, places, ev.fd, Readability);
      }
      assert Elements<Fid>([]) == {};
      assert places - {} == places;
      var places1 := places - Elements(out1);
      assert places1 - {} == places1;
      if Writability in ev.flags {
        ReleasePlaces(p1, places1, ev.fd, Writability);
      }
      var (p2, out2) := if Writability in ev.flags then Release(p1, ev.fd, Writability) else (p1, []);
      assert Elements(out1 + out2) == Elements(out1) + Elements(out2);
      assert places1 - Elements(out2) == places - Elements(out1 + out2);
      assert forall f :: f in out2 ==> f in places1 && f !in out1;
      DistinctConcat(out1, out2);
    }
    var (p', out) := DispatchOne(p, ev);
    assert Distinct(out);
    assert Places(p', places - Elements(out));
    forall f | f in out
      ensures f in places && exists ev' :: ev' in [ev] && Covers(ev', places[f])
    {
      assert ev in [ev] && Covers(ev, places[f]);
    }
  }

  lemma DispatchedThen(p: Poll<Fid>, places: map<Fid, Place>, ev: Event, out1: seq<Fid>, rest: seq<Event>, out2: seq<Fid>)
    requires Distinct(out1) && forall f :: f in out1 ==> f in places && exists e :: e in [ev] && Covers(e, places[f])
    requires Dispatched(p, out2, places - Elements(out1), rest)
    ensures Dispatched(p, out1 + out2, places, [ev] + rest)
  {
    assert Elements(out1 + out2) == Elements(out1) + Elements(out2);
    assert places - Elements(out1) - Elements(out2) == places - Elements(out1 + out2);
    assert forall f :: f in out2 ==> f in places - Elements(out1);
    DistinctConcat(out1, out2);
    forall f | f in out1 + out2
      ensures f in places && exists e :: e in [ev] + rest && Covers(e, places[f])
    {
      if f in out1 {
        assert ev in [ev] + rest && Covers(ev, places[f]);
      } else {
        var e :| e in rest && Covers(e, (places - Elements(out1))[f]);
        assert e in [ev] + rest;
      }
    }
  }

  /** A whole answer lets go distinct fibers, each covered by some event, and leaves every other in its place. */
  lemma {:induction false} DispatchAllPlaces(p: Poll<Fid>, places: map<Fid, Place>, events: seq<Event>)
    requires Ready(p, events) && Places(p, places)
    ensures var (p', out) := DispatchAll(p, events); Dispatched(p', out, places, events)
    decreases |events|
  {
    if events == [] {
      assert places - Elements<Fid>([]) == places;
    } else {
      var (p1, out1) := DispatchOne(p, events[0]);
      DispatchOnePlaces(p, places, events[0]);
      DispatchKeepsReady(p, events);
      DispatchAllPlaces(p1, places - Elements(out1), events[1..]);
      var (p2, out2) := DispatchAll(p1, events[1..]);
      DispatchedThen(p2, places, events[0], out1, events[1..], out2);
      assert [events[0]] + events[1..] == events;
    }
  }

  lemma FlushPlaces(p: Poll<Fid>, places: map<Fid, Place>)
    requires Inv(p) && Places(p, places)
    ensures Places(Flush(p), places)
  {
    FlushSound(p);
    forall f: Fid, at
      ensures QueuedAt(Flush(p), f, at) <==> QueuedAt(p, f, at)
    {
      if at.fd in p.watchers {
        assert Flush(p).watchers[at.fd].Awaiters(at.event) == p.watchers[at.fd].Awaiters(at.event);
      }
    }
  }

  /** A wait lets go exactly the fibers it outputs; an interrupted one none. */
  lemma WaitedPlaces(p: Poll<Fid>, places: map<Fid, Place>, outcome: Option<seq<Event>>)
    requires Inv(p) && Places(p, places) && LegalOutcome(p, outcome)
    ensures var (p', out) := Waited(p, outcome);
      Dispatched(p', out, places, if outcome.Some? then outcome.value else [])
  {
    FlushPlaces(p, places);
    if outcome.Some? {
      OutcomeIsReady(p, outcome.value);
      DispatchAllPlaces(Flush(p), places, outcome.value);
    } else {
      assert places - Elements<Fid>([]) == places;
    }
  }
}
