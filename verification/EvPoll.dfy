/** The poll backend: which event reads and which event writes each file descriptor. */
module EvPoll {
  import opened Options

  datatype Event = Event(id: nat, fd: nat, read: bool, write: bool)

  /** One `struct pollfd`: what is waited for, and what was reported. */
  datatype PollFd = PollFd(fd: nat, pollin: bool, pollout: bool, ready: Ready)

  /** What `poll` reports about a descriptor. */
  datatype Ready = Ready(readable: bool, writable: bool, broken: bool)

  const NOTHING := Ready(false, false, false)

  /** The reader and the writer of a descriptor. */
  datatype Watch = Watch(reader: Option<Event>, writer: Option<Event>)

  type Watched = map<nat, Watch>

  // ----- the table as a map -----

  function Watching(v: Watched, fd: nat): Watch
  {
    if fd in v then v[fd] else Watch(None, None)
  }

  /** An event takes the places of its descriptor that it asks for. */
  function Added(v: Watched, e: Event): Watched
  {
    if !e.read && !e.write then v
    else
      var w := Watching(v, e.fd);
      v[e.fd := Watch(if e.read then Some(e) else w.reader, if e.write then Some(e) else w.writer)]
  }

  /** And gives them up; a descriptor nobody watches is forgotten. */
  function Deleted(v: Watched, e: Event): Watched
  {
    if (!e.read && !e.write) || e.fd !in v then v
    else
      var w := Watch(if e.read then None else v[e.fd].reader, if e.write then None else v[e.fd].writer);
      if w == Watch(None, None) then v - {e.fd} else v[e.fd := w]
  }

  ghost predicate Proper(v: Watched)
  {
    forall fd :: fd in v ==> WatchOk(fd, v[fd])
  }

  predicate WatchOk(fd: nat, w: Watch)
  {
    w != Watch(None, None) && (w.reader.Some? ==> w.reader.value.read && w.reader.value.fd == fd) &&
    (w.writer.Some? ==> w.writer.value.write && w.writer.value.fd == fd)
  }

  /** Deleting an event undoes adding it, if and only if it has pushed no other event out of its place. */
  lemma AddThenDelete(v: Watched, e: Event)
    requires Proper(v)
    ensures Deleted(Added(v, e), e) == v <==>
            (e.read ==> Watching(v, e.fd).reader.None?) && (e.write ==> Watching(v, e.fd).writer.None?)
  {
    var w := Watching(v, e.fd);
    if e.read || e.write {
      var d := Deleted(Added(v, e), e);
      assert Added(v, e)[e.fd] == Watch(if e.read then Some(e) else w.reader, if e.write then Some(e) else w.writer);
      var left := Watch(if e.read then None else w.reader, if e.write then None else w.writer);
      if left == Watch(None, None) {
        assert d == v - {e.fd};
        assert e.fd !in v ==> d == v;
      } else {
        assert d == v[e.fd := left];
        assert e.fd in v && left == w ==> d == v;
      }
    }
  }

  /** Of two readers of a descriptor the second pushes out the first, and deleting either deletes both. */
  lemma TwoReaders(e: Event, f: Event)
    requires e.fd == f.fd && e.read && f.read && !e.write && !f.write
    ensures var one := Added(map[], e); var two := Added(one, f);
            one != map[] && two[e.fd] == Watch(Some(f), None) && Deleted(two, f) == map[] && Deleted(two, e) == map[]
  {
    var two := Added(Added(map[], e), f);
    assert two.Keys == {e.fd};
    assert two - {e.fd} == map[];
  }

  // ----- the arrays -----

  ghost predicate SlotOk(p: PollFd, r: Option<Event>, w: Option<Event>)
  {
    (p.pollin <==> r.Some?) && (p.pollout <==> w.Some?) && WatchOk(p.fd, Watch(r, w))
  }

  /** The index leads from the descriptor of slot `i` back to the slot. */
  predicate SlotAt(slots: seq<PollFd>, idx: seq<nat>, i: nat)
  {
    i < |slots| && slots[i].fd < |idx| && idx[slots[i].fd] == i + 1
  }

  /** The index leads from `fd` to a slot for it, or nowhere. */
  predicate FdAt(slots: seq<PollFd>, nfds: nat, idx: seq<nat>, fd: nat)
  {
    fd < |idx| && (idx[fd] > 0 ==> idx[fd] <= nfds <= |slots| && slots[idx[fd] - 1].fd == fd)
  }

  /** The slots and the index by descriptor are inverse to each other. */
  ghost predicate Inverse(slots: seq<PollFd>, nfds: nat, idx: seq<nat>)
  {
    nfds <= |slots| && (forall i :: 0 <= i < nfds ==> SlotAt(slots, idx, i)) &&
    forall fd :: 0 <= fd < |idx| ==> FdAt(slots, nfds, idx, fd)
  }

  ghost predicate SlotsOk(slots: seq<PollFd>, rback: seq<Option<Event>>, wback: seq<Option<Event>>, nfds: nat)
  {
    nfds <= |slots| && nfds <= |rback| && nfds <= |wback| &&
    forall i :: 0 <= i < nfds ==> SlotOk(slots[i], rback[i], wback[i])
  }

  ghost function View(rback: seq<Option<Event>>, wback: seq<Option<Event>>, idx: seq<nat>): Watched
  {
    map fd | 0 <= fd < |idx| && 0 < idx[fd] <= |rback| &&
    idx[fd] <= |wback| :: Watch(rback[idx[fd] - 1], wback[idx[fd] - 1])
  }

  /** The poll bits that are set for a descriptor. */
  function BitsOf(slots: seq<PollFd>, idx: seq<nat>, fd: nat): (bool, bool)
  {
    if fd < |idx| && 0 < idx[fd] <= |slots| then (slots[idx[fd] - 1].pollin, slots[idx[fd] - 1].pollout)
    else (false, false)
  }

  /** The arrays hold this map. */
  ghost predicate Hold(slots: seq<PollFd>, rback: seq<Option<Event>>, wback: seq<Option<Event>>, nfds: nat,
                       idx: seq<nat>, v: Watched)
  {
    Inverse(slots, nfds, idx) && SlotsOk(slots, rback, wback, nfds) && v == View(rback, wback, idx)
  }

  /** Readers and writers watch what they ask for, and the poll bits of a descriptor say which of them there are. */
  lemma HoldProper(slots: seq<PollFd>, rback: seq<Option<Event>>, wback: seq<Option<Event>>, nfds: nat, idx: seq<nat>,
                   v: Watched)
    requires Hold(slots, rback, wback, nfds, idx, v)
    ensures Proper(v) && nfds <= |slots| && nfds <= |rback| && nfds <= |wback|
    ensures forall fd :: fd in v ==> BitsOf(slots, idx, fd) == (v[fd].reader.Some?, v[fd].writer.Some?)
  {
    forall fd | fd in v
      ensures WatchOk(fd, v[fd]) && BitsOf(slots, idx, fd) == (v[fd].reader.Some?, v[fd].writer.Some?)
    {
      assert FdAt(slots, nfds, idx, fd);
      assert SlotOk(slots[idx[fd] - 1], rback[idx[fd] - 1], wback[idx[fd] - 1]);
    }
  }

  /** More room, and more descriptors that nobody watches, change nothing. */
  lemma HoldRoom(slots: seq<PollFd>, rback: seq<Option<Event>>, wback: seq<Option<Event>>, nfds: nat, idx: seq<nat>,
                 v: Watched,
                 slots': seq<PollFd>, rback': seq<Option<Event>>, wback': seq<Option<Event>>, idx': seq<nat>)
    requires Hold(slots, rback, wback, nfds, idx, v) && slots <= slots' && rback <= rback' && wback <= wback' &&
             idx <= idx'
    requires forall fd :: |idx| <= fd < |idx'| ==> idx'[fd] == 0
    ensures Hold(slots', rback', wback', nfds, idx', v)
  {
    RoomInverse(slots, nfds, idx, slots', idx');
    forall i | 0 <= i < nfds ensures SlotOk(slots'[i], rback'[i], wback'[i]) {
      assert slots'[i] == slots[i] && rback'[i] == rback[i] && wback'[i] == wback[i];
    }
    forall fd | fd in View(rback', wback', idx') ensures fd in v { assert FdAt(slots, nfds, idx, fd); }
    assert View(rback', wback', idx') == v;
  }

  lemma RoomInverse(slots: seq<PollFd>, nfds: nat, idx: seq<nat>, slots': seq<PollFd>, idx': seq<nat>)
    requires Inverse(slots, nfds, idx) && slots <= slots' && idx <= idx' &&
             forall fd :: |idx| <= fd < |idx'| ==> idx'[fd] == 0
    ensures Inverse(slots', nfds, idx')
  {
    forall i | 0 <= i < nfds ensures SlotAt(slots', idx', i) { assert SlotAt(slots, idx, i); }
    forall fd | 0 <= fd < |idx'| ensures FdAt(slots', nfds, idx', fd) {
      if fd < |idx| { assert FdAt(slots, nfds, idx, fd); }
    }
  }

  /** A slot with other watchers. */
  lemma HoldChange(slots: seq<PollFd>, rback: seq<Option<Event>>, wback: seq<Option<Event>>, nfds: nat, idx: seq<nat>,
                   v: Watched,
                   fd: nat, p: PollFd, w: Watch)
    requires Hold(slots, rback, wback, nfds, idx, v) && fd < |idx| && idx[fd] > 0 && p.fd == fd &&
             SlotOk(p, w.reader, w.writer)
    ensures idx[fd] <= nfds <= |slots| && nfds <= |rback| && nfds <= |wback|
    ensures var i := idx[fd] - 1; Hold(slots[i := p], rback[i := w.reader], wback[i := w.writer], nfds, idx, v[fd := w])
  {
    assert FdAt(slots, nfds, idx, fd);
    var i := idx[fd] - 1;
    var slots', rback', wback' := slots[i := p], rback[i := w.reader], wback[i := w.writer];
    forall k | 0 <= k < nfds ensures SlotAt(slots', idx, k) { assert SlotAt(slots, idx, k); }
    forall g | 0 <= g < |idx| ensures FdAt(slots', nfds, idx, g) && (g != fd && idx[g] > 0 ==> idx[g] != idx[fd]) {
      assert FdAt(slots, nfds, idx, g);
    }
    assert View(rback', wback', idx) == v[fd := w];
  }

  /** A new slot at the end. */
  lemma HoldNew(slots: seq<PollFd>, rback: seq<Option<Event>>, wback: seq<Option<Event>>, nfds: nat, idx: seq<nat>,
                v: Watched,
                p: PollFd, w: Watch)
    requires Hold(slots, rback, wback, nfds, idx, v) && nfds < |slots| && nfds < |rback| && nfds < |wback|
    requires p.fd < |idx| && idx[p.fd] == 0 && SlotOk(p, w.reader, w.writer)
    ensures Hold(slots[nfds := p], rback[nfds := w.reader], wback[nfds := w.writer], nfds + 1, idx[p.fd := nfds + 1],
                 v[p.fd := w])
  {
    var slots', idx' := slots[nfds := p], idx[p.fd := nfds + 1];
    var rback', wback' := rback[nfds := w.reader], wback[nfds := w.writer];
    forall k | 0 <= k < nfds + 1 ensures SlotAt(slots', idx', k) {
      if k < nfds { assert SlotAt(slots, idx, k); }
    }
    forall g | 0 <= g < |idx'| ensures FdAt(slots', nfds + 1, idx', g) && (g != p.fd ==> idx[g] <= nfds) {
      assert FdAt(slots, nfds, idx, g);
    }
    assert View(rback', wback', idx') == v[p.fd := w];
  }

  /** The last slot goes. */
  lemma LastGone(slots: seq<PollFd>, rback: seq<Option<Event>>, wback: seq<Option<Event>>, nfds: nat, idx: seq<nat>,
                 v: Watched, fd: nat)
    requires Hold(slots, rback, wback, nfds, idx, v) && fd < |idx| && idx[fd] == nfds > 0
    ensures Hold(slots, rback, wback, nfds - 1, idx[fd := 0], v - {fd})
  {
    hide Inverse, SlotOk, View;
    LastInverse(slots, nfds, idx, fd);
    LastView(rback, wback, idx, fd);
  }

  lemma LastView(rback: seq<Option<Event>>, wback: seq<Option<Event>>, idx: seq<nat>, fd: nat)
    requires fd < |idx|
    ensures View(rback, wback, idx[fd := 0]) == View(rback, wback, idx) - {fd}
  {
  }

  lemma LastInverse(slots: seq<PollFd>, nfds: nat, idx: seq<nat>, fd: nat)
    requires Inverse(slots, nfds, idx) && fd < |idx| && idx[fd] == nfds > 0
    ensures Inverse(slots, nfds - 1, idx[fd := 0])
  {
    assert FdAt(slots, nfds, idx, fd);
    var n, idx' := nfds - 1, idx[fd := 0];
    forall k | 0 <= k < n ensures SlotAt(slots, idx', k) { assert SlotAt(slots, idx, k); }
    forall g | 0 <= g < |idx| ensures FdAt(slots, n, idx', g) { assert FdAt(slots, nfds, idx, g); }
  }

  /** The index by descriptor when `fd` is gone and slot `n` has moved to slot `i`. */
  function MovedIndex(slots: seq<PollFd>, n: nat, idx: seq<nat>, fd: nat, i: nat): seq<nat>
  {
    if n < |slots| && fd < |idx| && slots[n].fd < |idx| then idx[fd := 0][slots[n].fd := i + 1] else idx
  }

  lemma LastElsewhere(slots: seq<PollFd>, nfds: nat, idx: seq<nat>, fd: nat)
    requires Inverse(slots, nfds, idx) && fd < |idx| && 0 < idx[fd] < nfds
    ensures nfds <= |slots| && slots[nfds - 1].fd < |idx| && slots[nfds - 1].fd != fd && idx[slots[nfds - 1].fd] == nfds
  {
    assert SlotAt(slots, idx, nfds - 1);
  }

  lemma MovedInverse(slots: seq<PollFd>, nfds: nat, idx: seq<nat>, fd: nat)
    requires Inverse(slots, nfds, idx) && fd < |idx| && 0 < idx[fd] < nfds
    ensures var i, n := idx[fd] - 1, nfds - 1; Inverse(slots[i := slots[n]], n, MovedIndex(slots, n, idx, fd, i))
  {
    var i, n := idx[fd] - 1, nfds - 1;
    var slots', idx' := slots[i := slots[n]], MovedIndex(slots, n, idx, fd, i);
    LastElsewhere(slots, nfds, idx, fd);
    assert FdAt(slots, nfds, idx, fd);
    forall k | 0 <= k < n ensures SlotAt(slots', idx', k) { assert SlotAt(slots, idx, k); }
    forall g | 0 <= g < |idx'| ensures FdAt(slots', n, idx', g) { assert FdAt(slots, nfds, idx, g); }
  }

  lemma MovedView(slots: seq<PollFd>, rback: seq<Option<Event>>, wback: seq<Option<Event>>, nfds: nat, idx: seq<nat>,
                  fd: nat)
    requires Inverse(slots, nfds, idx) && nfds <= |rback| && nfds <= |wback| && fd < |idx| && 0 < idx[fd] < nfds
    ensures var i, n := idx[fd] - 1, nfds - 1;
            View(rback[i := rback[n]], wback[i := wback[n]], MovedIndex(slots, n, idx, fd, i)) ==
              View(rback, wback, idx) - {fd}
  {
    var i, n := idx[fd] - 1, nfds - 1;
    LastElsewhere(slots, nfds, idx, fd);
    assert FdAt(slots, nfds, idx, fd);
    var rback', wback', idx' := rback[i := rback[n]], wback[i := wback[n]], MovedIndex(slots, n, idx, fd, i);
    var a, b := View(rback', wback', idx'), View(rback, wback, idx) - {fd};
    forall g ensures g in a <==> g in b {}
    forall g | g in a ensures a[g] == b[g] { assert FdAt(slots, nfds, idx, g); }
  }

  /** A slot goes, and the last slot takes its place. */
  lemma OtherGone(slots: seq<PollFd>, rback: seq<Option<Event>>, wback: seq<Option<Event>>, nfds: nat, idx: seq<nat>,
                  v: Watched, fd: nat)
    requires Hold(slots, rback, wback, nfds, idx, v) && fd < |idx| && 0 < idx[fd] < nfds
    requires nfds <= |slots| && nfds <= |rback| && nfds <= |wback|
    ensures slots[nfds - 1].fd < |idx|
    ensures var i, n := idx[fd] - 1, nfds - 1;
            Hold(slots[i := slots[n]], rback[i := rback[n]], wback[i := wback[n]], n, MovedIndex(slots, n, idx, fd, i),
                 v - {fd})
  {
    LastElsewhere(slots, nfds, idx, fd);
    hide Inverse, View, SlotOk, MovedIndex;
    MovedInverse(slots, nfds, idx, fd);
    MovedView(slots, rback, wback, nfds, idx, fd);
  }

  lemma HoldAt(slots: seq<PollFd>, rback: seq<Option<Event>>, wback: seq<Option<Event>>, nfds: nat, idx: seq<nat>,
               v: Watched, fd: nat)
    requires Hold(slots, rback, wback, nfds, idx, v) && fd < |idx|
    ensures fd in v <==> idx[fd] > 0
    ensures fd in v ==> 0 < idx[fd] <= nfds <= |slots| && nfds <= |rback| && nfds <= |wback|
    ensures fd in v ==> var i := idx[fd] - 1;
              slots[i].fd == fd && v[fd] == Watch(rback[i], wback[i]) && SlotOk(slots[i], rback[i], wback[i])
  {
    assert FdAt(slots, nfds, idx, fd);
  }

  // ----- reports -----

  /** An event made active, for reading, writing or both. */
  datatype Fired = Fired(e: Event, forRead: bool, forWrite: bool)

  function CanRead(p: PollFd): bool
  {
    p.ready.readable || p.ready.broken
  }

  function CanWrite(p: PollFd): bool
  {
    p.ready.writable || p.ready.broken
  }

  /** What of the report concerns the event. */
  function Report(p: PollFd, e: Event): Fired
  {
    Fired(e, CanRead(p) && e.read, CanWrite(p) && e.write)
  }

  /** The events that a slot makes active. */
  function FiredIn(p: PollFd, r: Option<Event>, w: Option<Event>): seq<Fired>
  {
    var rev, wev := if CanRead(p) then r else None, if CanWrite(p) then w else None;
    var fires := (o: Option<Event>) => o.Some? && (Report(p, o.value).forRead || Report(p, o.value).forWrite);
    (if fires(rev) then [Report(p, rev.value)] else []) + (if fires(wev) && wev != rev then [Report(p, wev.value)]
     else [])
  }

  /** A watcher of the descriptor is made active if and only if what it watches is ready, once, and for what it
      asked. */
  lemma FiredInIff(p: PollFd, r: Option<Event>, w: Option<Event>, f: Fired)
    requires SlotOk(p, r, w)
    ensures f in FiredIn(p, r, w) <==>
              f == Report(p, f.e) && ((r == Some(f.e) && CanRead(p)) || (w == Some(f.e) && CanWrite(p)))
    ensures f in FiredIn(p, r, w) ==> f.e.fd == p.fd
    ensures forall i, j :: 0 <= i < j < |FiredIn(p, r, w)| ==> FiredIn(p, r, w)[i].e != FiredIn(p, r, w)[j].e
  {
  }

  /** What has come from the slots in `seen`. */
  ghost predicate FiredFrom(fired: seq<Fired>, slots: seq<PollFd>, rback: seq<Option<Event>>, wback: seq<Option<Event>>,
                            nfds: nat, seen: set<int>)
  {
    nfds <= |slots| && nfds <= |rback| && nfds <= |wback| && (forall i :: i in seen ==> 0 <= i < nfds) &&
    (forall f :: f in fired <==> exists i :: i in seen && f in FiredIn(slots[i], rback[i], wback[i])) &&
    forall a, b :: 0 <= a < b < |fired| ==> fired[a].e != fired[b].e
  }

  lemma FiredMore(fired: seq<Fired>, slots: seq<PollFd>, rback: seq<Option<Event>>, wback: seq<Option<Event>>,
                  nfds: nat, idx: seq<nat>,
                  seen: set<int>, i: nat)
    requires FiredFrom(fired, slots, rback, wback, nfds, seen) && i < nfds && i !in seen
    requires Inverse(slots, nfds, idx) && SlotsOk(slots, rback, wback, nfds)
    ensures FiredFrom(fired + FiredIn(slots[i], rback[i], wback[i]), slots, rback, wback, nfds, seen + {i})
  {
    var more := FiredIn(slots[i], rback[i], wback[i]);
    var longer := fired + more;
    forall f ensures f in longer <==> exists k :: k in seen + {i} && f in FiredIn(slots[k], rback[k], wback[k]) {
      if f in more { assert i in seen + {i}; }
      if f in fired {
        var k :| k in seen && f in FiredIn(slots[k], rback[k], wback[k]);
        assert k in seen + {i};
      }
    }
    forall a, b | 0 <= a < |fired| && 0 <= b < |more| ensures fired[a].e != more[b].e {
      assert fired[a] in fired && more[b] in more;
      var k :| k in seen && fired[a] in FiredIn(slots[k], rback[k], wback[k]);
      OtherEvent(slots, rback, wback, nfds, idx, k, i, fired[a], more[b]);
    }
    if more != [] { FiredInIff(slots[i], rback[i], wback[i], more[0]); }
    hide FiredIn, Inverse, SlotsOk, SlotOk;
  }

  /** Two slots make different events active. */
  lemma OtherEvent(slots: seq<PollFd>, rback: seq<Option<Event>>, wback: seq<Option<Event>>, nfds: nat, idx: seq<nat>,
                   k: nat, i: nat, f: Fired, g: Fired)
    requires Inverse(slots, nfds, idx) && SlotsOk(slots, rback, wback, nfds) && k < nfds && i < nfds && k != i
    requires f in FiredIn(slots[k], rback[k], wback[k]) && g in FiredIn(slots[i], rback[i], wback[i])
    ensures f.e != g.e
  {
    FiredInIff(slots[k], rback[k], wback[k], f);
    FiredInIff(slots[i], rback[i], wback[i], g);
    assert SlotAt(slots, idx, k) && SlotAt(slots, idx, i);
  }

  lemma FiredNone(slots: seq<PollFd>, rback: seq<Option<Event>>, wback: seq<Option<Event>>, nfds: nat)
    requires nfds <= |slots| && nfds <= |rback| && nfds <= |wback|
    ensures FiredFrom([], slots, rback, wback, nfds, {})
  {
  }

  /** What the slot of the event's descriptor reports makes the event active like this: it is its reader or its writer,
      and the descriptor is ready for that, or closed or in error. */
  ghost predicate Reported(slots: seq<PollFd>, idx: seq<nat>, v: Watched, f: Fired)
  {
    f.e.fd in v && f.e.fd < |idx| && 0 < idx[f.e.fd] <= |slots| &&
    var ready, w := slots[idx[f.e.fd] - 1].ready, v[f.e.fd];
    f.forRead == (f.e.read && (ready.readable || ready.broken)) &&
    f.forWrite == (f.e.write && (ready.writable || ready.broken)) &&
    ((w.reader == Some(f.e) && (ready.readable || ready.broken)) ||
     (w.writer == Some(f.e) && (ready.writable || ready.broken)))
  }

  lemma NoneReported(slots: seq<PollFd>, rback: seq<Option<Event>>, wback: seq<Option<Event>>, idx: seq<nat>,
                     v: Watched)
    requires Hold(slots, rback, wback, 0, idx, v)
    ensures v == map[]
  {
    forall fd | 0 <= fd < |idx| ensures idx[fd] == 0 { assert FdAt(slots, 0, idx, fd); }
  }

  lemma FiredReported(slots: seq<PollFd>, rback: seq<Option<Event>>, wback: seq<Option<Event>>, nfds: nat,
                      idx: seq<nat>, v: Watched, i: nat, f: Fired)
    requires Hold(slots, rback, wback, nfds, idx, v) && i < nfds <= |slots| && nfds <= |rback| && nfds <= |wback| &&
             f in FiredIn(slots[i], rback[i], wback[i])
    ensures Reported(slots, idx, v, f)
  {
    FiredInIff(slots[i], rback[i], wback[i], f);
    assert SlotAt(slots, idx, i);
    HoldAt(slots, rback, wback, nfds, idx, v, slots[i].fd);
    hide View, FiredIn, SlotsOk;
  }

  lemma ReportedFired(slots: seq<PollFd>, rback: seq<Option<Event>>, wback: seq<Option<Event>>, nfds: nat,
                      idx: seq<nat>, v: Watched, f: Fired)
    requires Hold(slots, rback, wback, nfds, idx, v) && Reported(slots, idx, v, f)
    ensures var i := idx[f.e.fd] - 1;
            0 <= i < nfds <= |slots| && nfds <= |rback| && nfds <= |wback| && f in FiredIn(slots[i], rback[i], wback[i])
  {
    hide Hold, FiredIn;
    HoldIndex(slots, rback, wback, nfds, idx, v, f.e.fd);
    var i := idx[f.e.fd] - 1;
    FiredInIff(slots[i], rback[i], wback[i], f);
  }

  lemma HoldIndex(slots: seq<PollFd>, rback: seq<Option<Event>>, wback: seq<Option<Event>>, nfds: nat, idx: seq<nat>,
                  v: Watched, fd: nat)
    requires Hold(slots, rback, wback, nfds, idx, v) && fd in v && fd < |idx|
    ensures 0 < idx[fd] <= nfds <= |slots| && nfds <= |rback| && nfds <= |wback|
    ensures var i := idx[fd] - 1; v[fd] == Watch(rback[i], wback[i]) && SlotOk(slots[i], rback[i], wback[i])
  {
    HoldAt(slots, rback, wback, nfds, idx, v, fd);
    hide View, Inverse, SlotsOk;
  }

  lemma AllReported(fired: seq<Fired>, slots: seq<PollFd>, rback: seq<Option<Event>>, wback: seq<Option<Event>>,
                    nfds: nat, idx: seq<nat>,
                    v: Watched, seen: set<int>)
    requires Hold(slots, rback, wback, nfds, idx, v) && FiredFrom(fired, slots, rback, wback, nfds, seen) &&
             forall k :: 0 <= k < nfds ==> k in seen
    ensures forall f :: f in fired <==> Reported(slots, idx, v, f)
    ensures forall a, b :: 0 <= a < b < |fired| ==> fired[a].e != fired[b].e
  {
    hide Hold, FiredIn, Reported;
    forall f ensures f in fired <==> Reported(slots, idx, v, f) {
      if f in fired {
        var i :| i in seen && f in FiredIn(slots[i], rback[i], wback[i]);
        FiredReported(slots, rback, wback, nfds, idx, v, i, f);
      }
      if Reported(slots, idx, v, f) { IsFired(fired, slots, rback, wback, nfds, idx, v, seen, f); }
    }
  }

  lemma IsFired(fired: seq<Fired>, slots: seq<PollFd>, rback: seq<Option<Event>>, wback: seq<Option<Event>>, nfds: nat,
                idx: seq<nat>,
                v: Watched, seen: set<int>, f: Fired)
    requires Hold(slots, rback, wback, nfds, idx, v) && FiredFrom(fired, slots, rback, wback, nfds, seen) &&
             Reported(slots, idx, v, f)
    requires forall k :: 0 <= k < nfds ==> k in seen
    ensures f in fired
  {
    hide Hold, FiredIn;
    ReportedFired(slots, rback, wback, nfds, idx, v, f);
    var i := idx[f.e.fd] - 1;
    assert i in seen && f in FiredIn(slots[i], rback[i], wback[i]);
  }

  class PollOp {
    var eventCount: nat
    var nfds: nat
    var eventSet: seq<PollFd>
    var rback: seq<Option<Event>>
    var wback: seq<Option<Event>>
    var idxplus1ByFd: seq<nat>
    ghost var watched: Watched

    ghost predicate Valid()
      reads this
    {
      nfds <= eventCount <= |eventSet| && eventCount <= |rback| && eventCount <= |wback| &&
      Hold(eventSet, rback, wback, nfds, idxplus1ByFd, watched)
    }

    constructor ()
      ensures Valid() && watched == map[]
    {
      eventCount, nfds := 0, 0;
      eventSet, rback, wback, idxplus1ByFd := [], [], [], [];
      watched := map[];
    }

    /** More slots; `memory` says how many of the three arrays can grow. */
    method GrowSlots(memory: nat) returns (r: int)
      requires Valid()
      modifies `eventCount, `eventSet, `rback, `wback
      ensures Valid() && r == if memory >= 3 then 0 else -1
      ensures r == 0 ==> eventCount == if old(eventCount) < 32 then 32 else old(eventCount) * 2
    {
      hide Hold;
      var count := if eventCount < 32 then 32 else eventCount * 2;
      ghost var s, rb, wb := eventSet, rback, wback;
      r := -1;
      if memory > 0 { eventSet := Resized(eventSet, count, PollFd(0, false, false, NOTHING)); }
      if memory > 1 { rback := Resized(rback, count, None); }
      if memory > 2 {
        wback := Resized(wback, count, None);
        eventCount := count;
        r := 0;
      }
      HoldRoom(s, rb, wb, nfds, idxplus1ByFd, watched, eventSet, rback, wback, idxplus1ByFd);
    }

    /** A longer index by descriptor. */
    method GrowIndex(fd: nat, memory: bool) returns (r: int)
      requires Valid() && fd >= |idxplus1ByFd|
      modifies `idxplus1ByFd
      ensures Valid() && r == (if memory then 0 else -1) && (r == 0 ==> fd < |idxplus1ByFd|)
    {
      hide Hold;
      var count: nat := if |idxplus1ByFd| < 32 then 32 else |idxplus1ByFd| * 2;
      while count <= fd
        invariant count >= 32 && count >= |idxplus1ByFd|
        decreases fd - count
      {
        count := count * 2;
      }
      if !memory { return -1; }
      ghost var was := idxplus1ByFd;
      idxplus1ByFd := Resized(idxplus1ByFd, count, 0);
      HoldRoom(eventSet, rback, wback, nfds, was, watched, eventSet, rback, wback, idxplus1ByFd);
      r := 0;
    }

    /** `poll_add`, for events that are not signals. */
    method Add(e: Event, memory: nat, indexMemory: bool) returns (r: int)
      requires Valid()
      modifies this
      ensures Valid() && (r == 0 || r == -1) && watched == if r == 0 then Added(old(watched), e) else old(watched)
      ensures memory >= 3 && indexMemory ==> r == 0
    {
      hide Hold;
      if !e.read && !e.write { return 0; }
      if nfds + 1 >= eventCount {
        r := GrowSlots(memory);
        if r == -1 { return; }
      }
      if e.fd >= |idxplus1ByFd| {
        r := GrowIndex(e.fd, indexMemory);
        if r == -1 { return; }
      }
      HoldProper(eventSet, rback, wback, nfds, idxplus1ByFd, watched);
      HoldAt(eventSet, rback, wback, nfds, idxplus1ByFd, watched, e.fd);
      if idxplus1ByFd[e.fd] > 0 {
        AddTo(e);
      } else {
        AddNew(e);
      }
      r := 0;
    }

    /** The descriptor is watched already. */
    method AddTo(e: Event)
      requires Valid() && (e.read || e.write) && e.fd < |idxplus1ByFd| && idxplus1ByFd[e.fd] > 0
      modifies `eventSet, `rback, `wback, `watched
      ensures Valid() && watched == Added(old(watched), e)
    {
      hide Hold;
      HoldAt(eventSet, rback, wback, nfds, idxplus1ByFd, watched, e.fd);
      var i := idxplus1ByFd[e.fd] - 1;
      var pfd := eventSet[i].(ready := NOTHING);
      if e.write { pfd := pfd.(pollout := true); }
      if e.read { pfd := pfd.(pollin := true); }
      ghost var w := Watch(if e.read then Some(e) else rback[i], if e.write then Some(e) else wback[i]);
      HoldChange(eventSet, rback, wback, nfds, idxplus1ByFd, watched, e.fd, pfd, w);
      eventSet := eventSet[i := pfd];
      wback := wback[i := if e.write then Some(e) else wback[i]];
      rback := rback[i := if e.read then Some(e) else rback[i]];
      watched := watched[e.fd := w];
    }

    /** Nobody watches the descriptor yet. */
    method AddNew(e: Event)
      requires Valid() && (e.read || e.write) && nfds < eventCount && e.fd < |idxplus1ByFd| && idxplus1ByFd[e.fd] == 0
      modifies this
      ensures Valid() && watched == Added(old(watched), e)
    {
      hide Hold;
      HoldAt(eventSet, rback, wback, nfds, idxplus1ByFd, watched, e.fd);
      var i := nfds;
      var pfd := PollFd(e.fd, e.read, e.write, NOTHING);
      ghost var w := Watch(if e.read then Some(e) else None, if e.write then Some(e) else None);
      HoldNew(eventSet, rback, wback, nfds, idxplus1ByFd, watched, pfd, w);
      nfds := nfds + 1;
      eventSet := eventSet[i := pfd];
      idxplus1ByFd := idxplus1ByFd[e.fd := i + 1];
      wback := wback[i := if e.write then Some(e) else None];
      rback := rback[i := if e.read then Some(e) else None];
      watched := watched[e.fd := w];
    }

    /** `poll_del`, for events that are not signals: the descriptor is one that was added. */
    method Del(e: Event) returns (r: int)
      requires Valid() && e.fd < |idxplus1ByFd|
      modifies this
      ensures Valid() && watched == Deleted(old(watched), e)
      ensures r == if (!e.read && !e.write) || e.fd in old(watched) then 0 else -1
    {
      hide Hold;
      if !e.read && !e.write { return 0; }
      HoldAt(eventSet, rback, wback, nfds, idxplus1ByFd, watched, e.fd);
      var place: int := idxplus1ByFd[e.fd];
      var i := place - 1;
      if i < 0 { return -1; }
      var pfd := eventSet[i];
      if e.read { pfd := pfd.(pollin := false); }
      if e.write { pfd := pfd.(pollout := false); }
      if pfd.pollin || pfd.pollout {
        ghost var w := Watch(if e.read then None else rback[i], if e.write then None else wback[i]);
        HoldChange(eventSet, rback, wback, nfds, idxplus1ByFd, watched, e.fd, pfd, w);
        eventSet := eventSet[i := pfd];
        rback := rback[i := if e.read then None else rback[i]];
        wback := wback[i := if e.write then None else wback[i]];
        watched := watched[e.fd := w];
        return 0;
      }
      Forget(e.fd);
      r := 0;
    }

    /** Nobody watches the descriptor any more. */
    method Forget(fd: nat)
      requires Valid() && fd < |idxplus1ByFd| && idxplus1ByFd[fd] > 0
      modifies this
      ensures Valid() && watched == old(watched) - {fd}
    {
      hide Hold;
      HoldAt(eventSet, rback, wback, nfds, idxplus1ByFd, watched, fd);
      var i, n := idxplus1ByFd[fd] - 1, nfds - 1;
      if i != n {
        OtherGone(eventSet, rback, wback, nfds, idxplus1ByFd, watched, fd);
        idxplus1ByFd := idxplus1ByFd[fd := 0];
        eventSet := eventSet[i := eventSet[n]];
        rback := rback[i := rback[n]];
        wback := wback[i := wback[n]];
        idxplus1ByFd := idxplus1ByFd[eventSet[i].fd := i + 1];
      } else {
        LastGone(eventSet, rback, wback, nfds, idxplus1ByFd, watched, fd);
        idxplus1ByFd := idxplus1ByFd[fd := 0];
      }
      nfds := n;
      watched := watched - {fd};
    }

    /** `poll_dispatch` when `poll` has filled in its report: wherever the walk over the slots starts, every event whose
        descriptor is ready is made active, once, and no other. */
    method Dispatch(random: nat) returns (fired: seq<Fired>)
      requires Valid()
      ensures forall f :: f in fired <==> Reported(eventSet, idxplus1ByFd, watched, f)
      ensures forall a, b :: 0 <= a < b < |fired| ==> fired[a].e != fired[b].e
    {
      fired := [];
      HoldProper(eventSet, rback, wback, nfds, idxplus1ByFd, watched);
      if nfds == 0 {
        NoneReported(eventSet, rback, wback, idxplus1ByFd, watched);
        return;
      }
      hide FiredFrom, FiredIn, Inverse, View, SlotOk, Reported;
      FiredNone(eventSet, rback, wback, nfds);
      var i := random % nfds;
      ghost var start, seen: set<int> := i, {};
      for j := 0 to nfds
        invariant 0 <= i < nfds && FiredFrom(fired, eventSet, rback, wback, nfds, seen)
        invariant i == (if start + j < nfds then start + j else start + j - nfds)
        invariant forall k :: 0 <= k < nfds ==> (k in seen <==> start < k <= start + j || k <= start + j - nfds)
      {
        i := i + 1;
        if i == nfds { i := 0; }
        FiredMore(fired, eventSet, rback, wback, nfds, idxplus1ByFd, seen, i);
        fired := fired + FiredIn(eventSet[i], rback[i], wback[i]);
        seen := seen + {i};
      }
      AllReported(fired, eventSet, rback, wback, nfds, idxplus1ByFd, watched, seen);
    }
  }

  /** `realloc` to at least the size it has. */
  function Resized<T>(s: seq<T>, n: nat, fill: T): (r: seq<T>)
    ensures |r| == (if n < |s| then |s| else n) && s <= r && forall i :: |s| <= i < |r| ==> r[i] == fill
  {
    if n <= |s| then s else s + seq(n - |s|, _ => fill)
  }
}
