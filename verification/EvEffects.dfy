/** What the calls on an event base do to the places of the events, and what a pass over the active events does. */
module EvEffects {
  import opened Seqs
  import opened Options
  import opened EvTime
  import opened EvQueues
  import opened EvFlags
  import opened EvHeap

  /** What a program may ask of a base, with what the clock, the memory and the backend answer. */
  datatype Call =
    | Set(x: Id, kind: Kind)
    | SetPriority(x: Id, pri: int)
    | Add(x: Id, tv: Option<Time>, now: Time, memory: bool, backend: int)
    | Del(x: Id, backend: int)
    | Activate(x: Id, what: set<What>)
    | Process(now: Time, backend: int)
    | Correct(now: Time)

  /** What the callbacks of one event do, one after another, and whether the loop is told to stop after them. */
  datatype Script = Script(calls: seq<Call>, stop: bool)

  /** A turn of the program: a call, or a pass over the active events with what their callbacks do. */
  datatype Turn = Request(call: Call) | Pass(scripts: seq<Script>)

  /** The events of a base, their places, and the clock.  The heap is where `hasTimeout` and `timeout` say. */
  datatype State = State(kind: map<Id, Kind>, pri: map<Id, nat>, timeout: map<Id, Time>, res: map<Id, set<What>>,
                         hasTimeout: set<Id>, isInserted: set<Id>, isActive: set<Id>, eventQueue: seq<Id>,
                         activeQueues: seq<seq<Id>>, eventTv: Time)

  predicate Knows(s: State, x: Id)
  {
    x in s.kind && x in s.pri && x in s.res && s.pri[x] < |s.activeQueues|
  }

  function Without(queues: seq<seq<Id>>, x: Id): seq<seq<Id>>
  {
    seq(|queues|, i requires 0 <= i < |queues| => Remain(queues[i], {x}))
  }

  lemma LeftIsWithout(queues: seq<seq<Id>>, was: seq<seq<Id>>, x: Id)
    requires Left(queues, was, {x})
    ensures queues == Without(was, x)
  {
  }

  // ----- one call -----

  /** A new event is in no place, and in the middle of the priorities. */
  function Made(s: State, x: Id, k: Kind): State
  {
    s.(kind := s.kind[x := k], pri := s.pri[x := |s.activeQueues| / 2], timeout := s.timeout[x := Time(0, 0)],
       res := s.res[x := {}])
  }

  function Prioritized(s: State, x: Id, to: int): State
  {
    if x in s.isActive || to < 0 || to >= |s.activeQueues| then s else s.(pri := s.pri[x := to])
  }

  function Deleted(s: State, x: Id): State
  {
    s.(hasTimeout := s.hasTimeout - {x}, isInserted := s.isInserted - {x}, isActive := s.isActive - {x},
       eventQueue := Remain(s.eventQueue, {x}), activeQueues := Without(s.activeQueues, x))
  }

  function Activated(s: State, x: Id, what: set<What>): State
    requires Knows(s, x)
  {
    if x in s.isActive then s.(res := s.res[x := s.res[x] + what])
    else s.(res := s.res[x := what], isActive := s.isActive + {x},
            activeQueues := s.activeQueues[s.pri[x] := s.activeQueues[s.pri[x]] + [x]])
  }

  /** A new deadline; an event that is active because of the old one is no longer so. */
  function Scheduled(s: State, x: Id, deadline: Time): State
    requires Knows(s, x)
  {
    var s1 := if Timeout in s.res[x]
              then s.(isActive := s.isActive - {x}, activeQueues := Without(s.activeQueues, x)) else s;
    s1.(hasTimeout := s.hasTimeout + {x}, timeout := s.timeout[x := deadline])
  }

  /** An event that waits for a descriptor and is in no list yet goes to the end of the inserted list. */
  predicate GetsListed(s: State, x: Id)
  {
    x in s.kind && s.kind[x].io && x !in s.isInserted && x !in s.isActive
  }

  function Added(s: State, x: Id, tv: Option<Time>, now: Time): State
    requires Knows(s, x)
  {
    var s1 := if GetsListed(s, x) then s.(isInserted := s.isInserted + {x}, eventQueue := s.eventQueue + [x]) else s;
    if tv.None? then s1 else Scheduled(s1, x, Plus(now, tv.value))
  }

  function DueIn(s: State, now: Time): set<Id>
  {
    set x | x in s.hasTimeout && x in s.timeout && !Greater(s.timeout[x], now)
  }

  /** The events that are due leave all their places, in the order of their deadlines, and become active. */
  ghost predicate Processed(s: State, now: Time, order: seq<Id>, s': State)
  {
    Elems(order) == DueIn(s, now) && Distinct(order) && Ascending(order, s.timeout) &&
    s' == s.(hasTimeout := s.hasTimeout - Elems(order), isInserted := s'.isInserted, isActive := s'.isActive,
             eventQueue := s'.eventQueue, res := s'.res, activeQueues := s'.activeQueues) &&
    Moved(order, s'.isInserted, s.isInserted, s'.isActive, s.isActive, s'.eventQueue, s.eventQueue, s'.res, s.res) &&
    Requeued(s'.activeQueues, s.activeQueues, s.pri, order)
  }

  /** If the clock went back, all deadlines go back as far. */
  function Corrected(steady: bool, s: State, now: Time): State
  {
    if steady then s
    else if !Greater(s.eventTv, now) then s.(eventTv := now)
    else s.(eventTv := now,
            timeout := map x | x in s.timeout ::
              if x in s.hasTimeout then Minus(s.timeout[x], Minus(s.eventTv, now)) else s.timeout[x])
  }

  /** One call, which is not made if it names an event that was never set, or sets one again.  Adding an event fails
      for want of memory for its deadline, or if the backend does; then nothing changes. */
  ghost predicate Effect(steady: bool, c: Call, s: State, s': State)
  {
    match c
    case Set(x, k) => s' == if x in s.kind then s else Made(s, x, k)
    case SetPriority(x, to) => s' == if x in s.kind then Prioritized(s, x, to) else s
    case Add(x, tv, now, memory, backend) =>
      if x !in s.kind then s' == s
      else if GetsListed(s, x) && backend == -1 then s' == s
      else Knows(s, x) && (s' == Added(s, x, tv, now) || (s' == s && tv.Some? && x !in s.hasTimeout && !memory))
    case Del(x, _) => s' == if x in s.kind then Deleted(s, x) else s
    case Activate(x, what) => if x in s.kind then Knows(s, x) && s' == Activated(s, x, what) else s' == s
    case Process(now, _) => exists order :: Processed(s, now, order, s')
    case Correct(now) => s' == Corrected(steady, s, now)
  }

  /** The states before, between and after calls. */
  ghost predicate Steps(steady: bool, calls: seq<Call>, states: seq<State>)
  {
    |states| == |calls| + 1 && forall i :: 0 <= i < |calls| ==> Effect(steady, calls[i], states[i], states[i + 1])
  }

  ghost predicate Leads(steady: bool, s: State, calls: seq<Call>, s': State)
  {
    exists states :: Steps(steady, calls, states) && states[0] == s && states[|calls|] == s'
  }

  // ----- a pass over the active events -----

  predicate CanTake(s: State, q: nat)
  {
    q < |s.activeQueues| && s.activeQueues[q] != [] && s.activeQueues[q][0] in s.kind
  }

  /** The first event of a queue leaves it; unless it is persistent it leaves all its places. */
  function Taken(s: State, q: nat): State
    requires CanTake(s, q)
  {
    var x := s.activeQueues[q][0];
    var s1 := s.(isActive := s.isActive - {x}, activeQueues := s.activeQueues[q := s.activeQueues[q][1..]]);
    if s.kind[x].persist then s1
    else
      s1.(hasTimeout := s.hasTimeout - {x}, isInserted := s.isInserted - {x}, eventQueue := Remain(s.eventQueue, {x}))
  }

  /** The event `x` at the head of the queue is taken, and then its callbacks make their calls. */
  ghost predicate RunsOne(steady: bool, s: State, q: nat, x: Id, calls: seq<Call>, s': State)
  {
    CanTake(s, q) && x == s.activeQueues[q][0] && Leads(steady, Taken(s, q), calls, s')
  }

  /** `before[k]` is the state before event `ran[k]`, and the last one is the state at the end.  The queue is the first
      that is not empty, and the pass ends when it is empty or a callback says so; `scripts` may be longer than
      needed. */
  ghost predicate Passes(steady: bool, scripts: seq<Script>, q: nat, ran: seq<Id>, before: seq<State>)
  {
    |before| == |ran| + 1 && |ran| <= |scripts| && q < |before[0].activeQueues| && before[0].activeQueues[q] != [] &&
    (forall i :: 0 <= i < q ==> before[0].activeQueues[i] == []) &&
    (forall k :: 0 <= k < |ran| ==> RunsOne(steady, before[k], q, ran[k], scripts[k].calls, before[k + 1])) &&
    (forall k :: 0 <= k < |ran| - 1 ==> !scripts[k].stop) &&
    (|ran| == |scripts| || (q < |before[|ran|].activeQueues| && before[|ran|].activeQueues[q] == []) ||
     (ran != [] && scripts[|ran| - 1].stop))
  }

  ghost predicate PassEffect(steady: bool, scripts: seq<Script>, s: State, s': State)
  {
    if forall i :: 0 <= i < |s.activeQueues| ==> s.activeQueues[i] == [] then s' == s
    else exists q, ran, before :: Passes(steady, scripts, q, ran, before) && before[0] == s && before[|ran|] == s'
  }

  ghost predicate TurnEffect(steady: bool, t: Turn, s: State, s': State)
  {
    match t
    case Request(c) => Effect(steady, c, s, s')
    case Pass(scripts) => PassEffect(steady, scripts, s, s')
  }

  ghost predicate IsHistory(steady: bool, turns: seq<Turn>, states: seq<State>)
  {
    |states| == |turns| + 1 && forall i :: 0 <= i < |turns| ==> TurnEffect(steady, turns[i], states[i], states[i + 1])
  }

  // ----- a pass whose callbacks leave the base alone -----

  /** The callbacks of the first `n` events leave the base alone. */
  ghost predicate Quiet(scripts: seq<Script>, n: nat)
  {
    n <= |scripts| && forall i :: 0 <= i < n ==> scripts[i] == Script([], false)
  }

  lemma LeadsNowhere(steady: bool, s: State, s': State)
    requires Leads(steady, s, [], s')
    ensures s' == s
  {
  }

  lemma QuietStep(steady: bool, s: State, q: nat, x: Id, s': State)
    requires RunsOne(steady, s, q, x, [], s')
    ensures q < |s.activeQueues| && s.activeQueues[q] != [] && x == s.activeQueues[q][0]
    ensures s'.activeQueues == s.activeQueues[q := s.activeQueues[q][1..]]
  {
    LeadsNowhere(steady, Taken(s, q), s');
  }

  lemma {:induction false} QuietPrefix(steady: bool, scripts: seq<Script>, q: nat, ran: seq<Id>, before: seq<State>,
                                       k: nat)
    requires Passes(steady, scripts, q, ran, before) && Quiet(scripts, |before[0].activeQueues[q]|) && k <= |ran|
    ensures var all := before[0].activeQueues[q];
            k <= |all| && ran[..k] == all[..k] && before[k].activeQueues == before[0].activeQueues[q := all[k..]]
    decreases k
  {
    hide RunsOne;
    var all := before[0].activeQueues[q];
    if k > 0 {
      QuietPrefix(steady, scripts, q, ran, before, k - 1);
      assert RunsOne(steady, before[k - 1], q, ran[k - 1], scripts[k - 1].calls, before[k]);
      if k - 1 < |all| {
        QuietStep(steady, before[k - 1], q, ran[k - 1], before[k]);
      } else {
        NoneLeft(steady, before[k - 1], q, ran[k - 1], scripts[k - 1].calls, before[k]);
      }
    }
  }

  lemma NoneLeft(steady: bool, s: State, q: nat, x: Id, calls: seq<Call>, s': State)
    requires RunsOne(steady, s, q, x, calls, s')
    ensures q < |s.activeQueues| && s.activeQueues[q] != []
  {
  }

  /** Then the whole queue is run, in its order, and the others stay. */
  lemma QuietPass(steady: bool, scripts: seq<Script>, q: nat, ran: seq<Id>, before: seq<State>)
    requires Passes(steady, scripts, q, ran, before) && Quiet(scripts, |before[0].activeQueues[q]|)
    ensures ran == before[0].activeQueues[q] && before[|ran|].activeQueues == before[0].activeQueues[q := []]
  {
    hide RunsOne;
    QuietPrefix(steady, scripts, q, ran, before, |ran|);
    var all := before[0].activeQueues[q];
    assert ran[..|ran|] == ran;
  }
}
