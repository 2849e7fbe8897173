/**
  The application messenger as a state machine: each step is what one thread does
  inside the lock, or between two such sections, and any enabled step may come next.
 */
module MessageProtocol {
  import opened Options
  import opened Counting

  /** The thread that processes messages for the application; it must never wait for itself. */
  const APPLICATION := 0

  /** A message as it is queued; waited tells whether its sender passed an event along. */
  datatype Message = Message(id: nat, sender: nat, window: bool, waited: bool)

  /** A message a thread is working on; a handler may start further ones before it ends. */
  datatype Work = Work(thread: nat, message: Message)

  /**
    sent and left record, for the two queues, what was ever pushed and what has left
    from the front; pushing is a sender inside the lock that has seen no stop.
   */
  datatype State = State(
    messages: seq<Message>,
    windowMessages: seq<Message>,
    pushing: Option<Message>,
    working: seq<Work>,
    signaled: set<nat>,
    waiting: map<nat, nat>,
    nextId: nat,
    stop: bool,
    cleaned: bool,
    sent: seq<Message>,
    windowSent: seq<Message>,
    left: seq<Message>,
    windowLeft: seq<Message>)

  const START := State([], [], None, [], {}, map[], 0, false, false, [], [], [], [])

  datatype Step =
    | Check(thread: nat, window: bool, wait: bool)
    | Push
    | Direct(thread: nat)
    | Take(thread: nat, window: bool)
    | Finish(k: nat)
    | Wake(thread: nat)
    | Stop
    | Cleanup(thread: nat)

  /** The thread is neither blocked on an event nor in the middle of sending. */
  predicate Free(s: State, thread: nat) {
    thread !in s.waiting && !(s.pushing.Some? && s.pushing.value.sender == thread)
  }

  /** Work k is the innermost one of its thread. */
  predicate Innermost(working: seq<Work>, k: nat)
    requires k < |working|
  {
    forall j :: k < j < |working| ==> working[j].thread != working[k].thread
  }

  /** When a step can happen: sections need the lock, and only free threads act. */
  predicate Enabled(s: State, step: Step) {
    match step
    case Check(thread, window, wait) => Free(s, thread) && s.pushing.None? && !(wait && thread == APPLICATION)
    case Push => s.pushing.Some?
    case Direct(thread) => Free(s, thread) && thread == APPLICATION
    case Take(thread, window) =>
      Free(s, thread) && s.pushing.None? && (if window then s.windowMessages else s.messages) != []
    case Finish(k) => k < |s.working| && Innermost(s.working, k) && Free(s, s.working[k].thread)
    case Wake(thread) => thread in s.waiting && s.waiting[thread] in s.signaled
    case Stop => true
    case Cleanup(thread) => Free(s, thread) && s.pushing.None?
  }

  /** The events of the messages that have one. */
  function EventsOf(ms: seq<Message>): set<nat> {
    set m | m in ms && m.waited :: m.id
  }

  function OnPush(s: State): State
    requires s.pushing.Some?
  {
    var m := s.pushing.value;
    var t := s.(pushing := None, waiting := if m.waited then s.waiting[m.sender := m.id] else s.waiting);
    if m.window then t.(windowMessages := t.windowMessages + [m], windowSent := t.windowSent + [m])
    else t.(messages := t.messages + [m], sent := t.sent + [m])
  }

  function OnTake(s: State, thread: nat, window: bool): State
    requires (if window then s.windowMessages else s.messages) != []
  {
    if window then
      var m := s.windowMessages[0];
      s.(windowMessages := s.windowMessages[1..], windowLeft := s.windowLeft + [m],
        working := s.working + [Work(thread, m)])
    else
      var m := s.messages[0];
      s.(messages := s.messages[1..], left := s.left + [m], working := s.working + [Work(thread, m)])
  }

  function OnFinish(s: State, k: nat): State
    requires k < |s.working|
  {
    var m := s.working[k].message;
    s.(working := Erase(s.working, k), signaled := if m.waited then s.signaled + {m.id} else s.signaled)
  }

  function OnCleanup(s: State): State {
    s.(messages := [], windowMessages := [], left := s.left + s.messages, windowLeft := s.windowLeft + s.windowMessages,
       signaled := s.signaled + EventsOf(s.messages) + EventsOf(s.windowMessages), cleaned := s.cleaned || s.stop)
  }

  function Next(s: State, step: Step): State
    requires Enabled(s, step)
  {
    match step
    case Check(thread, window, wait) =>
      if s.stop then s
      else s.(pushing := Some(Message(s.nextId, thread, window, wait)), nextId := s.nextId + 1)
    case Push => OnPush(s)
    case Direct(thread) =>
      s.(working := s.working + [Work(thread, Message(s.nextId, thread, false, false))], nextId := s.nextId + 1)
    case Take(thread, window) => OnTake(s, thread, window)
    case Finish(k) => OnFinish(s, k)
    case Wake(thread) => s.(waiting := s.waiting - {thread})
    case Stop => s.(stop := true)
    case Cleanup(thread) => OnCleanup(s)
  }

  /** The state reached by a sequence of steps, if each was enabled when it came. */
  function Run(steps: seq<Step>): Option<State> {
    if steps == [] then Some(START)
    else
      var before := Run(steps[..|steps| - 1]);
      var step := steps[|steps| - 1];
      if before.Some? && Enabled(before.value, step) then Some(Next(before.value, step)) else None
  }

  function WithId(id: nat): Message -> nat { (m: Message) => if m.id == id then 1 else 0 }

  /** Counts messages with the id whose sender is not to be told. */
  function SilentWithId(id: nat): Message -> nat { (m: Message) => if m.id == id && !m.waited then 1 else 0 }

  function OnWork(weight: Message -> nat): Work -> nat { (w: Work) => weight(w.message) }

  /** The sum over every message that is queued, being pushed, or being worked on. */
  function Present(s: State, weight: Message -> nat): nat {
    Sum(s.messages, weight) + Sum(s.windowMessages, weight) + Sum(s.working, OnWork(weight))
    + (if s.pushing.Some? then weight(s.pushing.value) else 0)
  }

  /**
    For every id: its message is in at most one place; while it is anywhere its event is
    not set; and a sender waits for an event exactly while the message is somewhere,
    with the event on it.
   */
  predicate IdInv(s: State, id: nat) {
    && Present(s, WithId(id)) <= 1
    && (Present(s, WithId(id)) == 1 ==> id < s.nextId && id !in s.signaled)
    && (id in s.signaled ==> id < s.nextId)
    && (id in s.waiting.Values ==>
          && id < s.nextId
          && (id in s.signaled || Present(s, WithId(id)) == 1)
          && Present(s, SilentWithId(id)) == 0
          && !(s.pushing.Some? && s.pushing.value.id == id))
  }

  /** Every message ever queued has its own id: it was pushed once, into one queue. */
  predicate SentOnce(s: State, id: nat) {
    var n := Sum(s.sent, WithId(id)) + Sum(s.windowSent, WithId(id))
             + (if s.pushing.Some? && s.pushing.value.id == id then 1 else 0);
    n <= 1 && (n == 1 ==> id < s.nextId)
  }

  /** What left a queue came from its front, in the order it was pushed, and the rest still waits in that order. */
  predicate Fifo(s: State) {
    s.sent == s.left + s.messages && s.windowSent == s.windowLeft + s.windowMessages
  }

  /**
    The application never waits, no blocked thread is sending, and after the last cleanup
    nothing is queued any more.
   */
  predicate Shut(s: State) {
    && APPLICATION !in s.waiting
    && (s.pushing.Some? ==> !(s.pushing.value.waited && s.pushing.value.sender == APPLICATION))
    && (s.cleaned ==> s.stop && s.messages == [] && s.windowMessages == [] && s.pushing.None?)
  }

  lemma {:induction false} CheckKeeps(s: State, thread: nat, window: bool, wait: bool, id: nat)
    requires Enabled(s, Check(thread, window, wait)) && IdInv(s, id)
    ensures IdInv(Next(s, Check(thread, window, wait)), id)
  {
  }

  lemma {:induction false} SilentIsFewer(s: State, id: nat)
    ensures Present(s, SilentWithId(id)) <= Present(s, WithId(id))
  {
    SumOfLess(s.messages, SilentWithId(id), WithId(id));
    SumOfLess(s.windowMessages, SilentWithId(id), WithId(id));
    SumOfLess(s.working, OnWork(SilentWithId(id)), OnWork(WithId(id)));
  }

  /** Pushing moves the message into its queue, whatever is counted. */
  lemma {:induction false} PushMoves(s: State, weight: Message -> nat)
    requires s.pushing.Some?
    ensures Present(OnPush(s), weight) == Present(s, weight)
  {
    SumOfAppend(s.messages, s.pushing.value, weight);
    SumOfAppend(s.windowMessages, s.pushing.value, weight);
  }

  lemma {:induction false} PushKeeps(s: State, id: nat)
    requires Enabled(s, Push) && IdInv(s, id)
    ensures IdInv(OnPush(s), id)
  {
    var m, t := s.pushing.value, OnPush(s);
    PushMoves(s, WithId(id));
    PushMoves(s, SilentWithId(id));
    if id in t.waiting.Values && id !in s.waiting.Values {
      NewValue(s.waiting, m.sender, m.id, id);
      PresentBesidesPushing(s, id);
    }
  }

  lemma {:induction false} NewValue(waiting: map<nat, nat>, thread: nat, event: nat, id: nat)
    requires id in waiting[thread := event].Values && id !in waiting.Values
    ensures id == event
  {
  }

  /** The message being pushed is the only one with its id, so that no silent one has it. */
  lemma {:induction false} PresentBesidesPushing(s: State, id: nat)
    requires s.pushing.Some? && s.pushing.value.id == id && s.pushing.value.waited && Present(s, WithId(id)) <= 1
    ensures Present(s, WithId(id)) == 1 && Present(s, SilentWithId(id)) == 0
  {
    SilentIsFewer(s.(pushing := None), id);
  }

  /** Taking moves a message from the front of its queue to a thread. */
  lemma {:induction false} TakeMoves(s: State, thread: nat, window: bool, weight: Message -> nat)
    requires (if window then s.windowMessages else s.messages) != []
    ensures Present(OnTake(s, thread, window), weight) == Present(s, weight)
  {
    var m := if window then s.windowMessages[0] else s.messages[0];
    SumOfAppend(s.working, Work(thread, m), OnWork(weight));
  }

  lemma {:induction false} FinishRemoves(s: State, k: nat, weight: Message -> nat)
    requires k < |s.working|
    ensures Present(OnFinish(s, k), weight) + weight(s.working[k].message) == Present(s, weight)
  {
    SumOfErase(s.working, k, OnWork(weight));
  }

  lemma {:induction false} FinishKeeps(s: State, k: nat, id: nat)
    requires k < |s.working| && IdInv(s, id)
    ensures IdInv(OnFinish(s, k), id)
  {
    FinishRemoves(s, k, WithId(id));
    FinishRemoves(s, k, SilentWithId(id));
  }

  /** What is dropped is counted out; its events are set. */
  lemma {:induction false} DroppedEvents(ms: seq<Message>, id: nat)
    ensures id in EventsOf(ms) ==> Sum(ms, WithId(id)) >= 1
    ensures Sum(ms, WithId(id)) >= 1 && Sum(ms, SilentWithId(id)) == 0 ==> id in EventsOf(ms)
  {
    if ms != [] {
      DroppedEvents(ms[1..], id);
      assert ms == [ms[0]] + ms[1..];
    }
  }

  lemma {:induction false} CleanupKeeps(s: State, id: nat)
    requires IdInv(s, id) && s.pushing.None?
    ensures IdInv(OnCleanup(s), id)
  {
    DroppedEvents(s.messages, id);
    DroppedEvents(s.windowMessages, id);
  }

  lemma {:induction false} DirectKeeps(s: State, thread: nat, id: nat)
    requires IdInv(s, id) && Enabled(s, Direct(thread))
    ensures IdInv(Next(s, Direct(thread)), id)
  {
    var m := Message(s.nextId, thread, false, false);
    SumOfAppend(s.working, Work(thread, m), OnWork(WithId(id)));
    SumOfAppend(s.working, Work(thread, m), OnWork(SilentWithId(id)));
  }

  lemma {:induction false} NextKeepsId(s: State, step: Step, id: nat)
    requires IdInv(s, id) && Enabled(s, step)
    ensures IdInv(Next(s, step), id)
  {
    match step
    case Check(thread, window, wait) => CheckKeeps(s, thread, window, wait, id);
    case Push => PushKeeps(s, id);
    case Direct(thread) => DirectKeeps(s, thread, id);
    case Take(thread, window) =>
      TakeMoves(s, thread, window, WithId(id));
      TakeMoves(s, thread, window, SilentWithId(id));
    case Finish(k) => FinishKeeps(s, k, id);
    case Wake(thread) =>
      assert id in (s.waiting - {thread}).Values ==> id in s.waiting.Values;
    case Stop =>
    case Cleanup(thread) => CleanupKeeps(s, id);
  }

  lemma {:induction false} NextKeepsSentOnce(s: State, step: Step, id: nat)
    requires SentOnce(s, id) && Enabled(s, step)
    ensures SentOnce(Next(s, step), id)
  {
    if step.Push? {
      SumOfAppend(s.sent, s.pushing.value, WithId(id));
      SumOfAppend(s.windowSent, s.pushing.value, WithId(id));
    }
  }

  lemma {:induction false} TakeKeepsFifo(s: State, thread: nat, window: bool)
    requires Fifo(s) && (if window then s.windowMessages else s.messages) != []
    ensures Fifo(OnTake(s, thread, window))
  {
    if window {
      assert s.windowMessages == [s.windowMessages[0]] + s.windowMessages[1..];
    } else {
      assert s.messages == [s.messages[0]] + s.messages[1..];
    }
  }

  lemma {:induction false} NextKeepsFifo(s: State, step: Step)
    requires Fifo(s) && Enabled(s, step)
    ensures Fifo(Next(s, step))
  {
    if step.Take? {
      TakeKeepsFifo(s, step.thread, step.window);
    }
  }

  lemma {:induction false} NextKeepsShut(s: State, step: Step)
    requires Shut(s) && Enabled(s, step)
    ensures Shut(Next(s, step))
  {
  }

  /** Every interleaving keeps all of this. */
  lemma {:induction false} RunKeeps(steps: seq<Step>, id: nat)
    requires Run(steps).Some?
    ensures var s := Run(steps).value; IdInv(s, id) && SentOnce(s, id) && Fifo(s) && Shut(s)
    decreases |steps|
  {
    if steps != [] {
      var before, step := steps[..|steps| - 1], steps[|steps| - 1];
      var s := Run(before).value;
      RunKeeps(before, id);
      NextKeepsId(s, step, id);
      NextKeepsSentOnce(s, step, id);
      NextKeepsFifo(s, step);
      NextKeepsShut(s, step);
    }
  }

  /**
    In every interleaving a queue is emptied in the order it was filled, and no message leaves
    it, or the other one, again.
   */
  lemma {:induction false} LeavesOnceInOrder(steps: seq<Step>)
    requires Run(steps).Some?
    ensures var s := Run(steps).value;
            && s.sent == s.left + s.messages && s.windowSent == s.windowLeft + s.windowMessages
            && (forall i, j :: 0 <= i < j < |s.sent| ==> s.sent[i].id != s.sent[j].id)
            && (forall i, j :: 0 <= i < j < |s.windowSent| ==> s.windowSent[i].id != s.windowSent[j].id)
            && (forall i, j :: 0 <= i < |s.sent| && 0 <= j < |s.windowSent| ==> s.sent[i].id != s.windowSent[j].id)
  {
    var s := Run(steps).value;
    RunKeeps(steps, 0);
    forall i | 0 <= i < |s.sent|
      ensures forall j :: 0 <= j < |s.sent| && j != i ==> s.sent[j].id != s.sent[i].id
      ensures forall j :: 0 <= j < |s.windowSent| ==> s.windowSent[j].id != s.sent[i].id
    {
      var id := s.sent[i].id;
      RunKeeps(steps, id);
      SumOfPresent(s.sent, i, WithId(id));
      forall j | 0 <= j < |s.windowSent| ensures s.windowSent[j].id != id {
        SumOfPresent(s.windowSent, j, WithId(id));
      }
    }
    forall i | 0 <= i < |s.windowSent|
      ensures forall j :: 0 <= j < |s.windowSent| && j != i ==> s.windowSent[j].id != s.windowSent[i].id
    {
      RunKeeps(steps, s.windowSent[i].id);
      SumOfPresent(s.windowSent, i, WithId(s.windowSent[i].id));
    }
  }

  /** Messages for the windows and others are kept apart. */
  ghost predicate Apart(s: State) {
    && (forall m :: m in s.messages || m in s.sent || m in s.left ==> !m.window)
    && (forall m :: m in s.windowMessages || m in s.windowSent || m in s.windowLeft ==> m.window)
  }

  /** In every interleaving the window queue holds only messages for the windows, and the other one only others. */
  lemma {:induction false} QueuesStayApart(steps: seq<Step>)
    requires Run(steps).Some?
    ensures Apart(Run(steps).value)
    decreases |steps|
  {
    if steps != [] {
      var before, step := steps[..|steps| - 1], steps[|steps| - 1];
      QueuesStayApart(before);
      NextKeepsApart(Run(before).value, step);
    }
  }

  lemma {:induction false} NextKeepsApart(s: State, step: Step)
    requires Apart(s) && Enabled(s, step)
    ensures Apart(Next(s, step))
  {
    var t := Next(s, step);
    forall m | m in t.messages || m in t.sent || m in t.left ensures !m.window {
      assert m in s.messages || m in s.sent || m in s.left || step.Push?;
    }
    forall m | m in t.windowMessages || m in t.windowSent || m in t.windowLeft ensures m.window {
      assert m in s.windowMessages || m in s.windowSent || m in s.windowLeft || step.Push?;
    }
  }

  /** The message with the id waits in a queue, or some thread works on it. */
  predicate InFlight(s: State, id: nat) {
    || (exists i :: 0 <= i < |s.messages| && s.messages[i].id == id)
    || (exists i :: 0 <= i < |s.windowMessages| && s.windowMessages[i].id == id)
    || (exists i :: 0 <= i < |s.working| && s.working[i].message.id == id)
  }

  lemma {:induction false} PresentInFlight(s: State, id: nat)
    ensures Present(s, WithId(id)) > 0 <==> InFlight(s, id) || (s.pushing.Some? && s.pushing.value.id == id)
  {
    if forall i :: 0 <= i < |s.messages| ==> s.messages[i].id != id { SumOfAbsent(s.messages, WithId(id)); }
    if forall i :: 0 <= i < |s.windowMessages| ==> s.windowMessages[i].id != id {
      SumOfAbsent(s.windowMessages, WithId(id));
    }
    if forall i :: 0 <= i < |s.working| ==> s.working[i].message.id != id {
      SumOfAbsent(s.working, OnWork(WithId(id)));
    }
    if i :| 0 <= i < |s.messages| && s.messages[i].id == id { SumOfPresent(s.messages, i, WithId(id)); }
    if i :| 0 <= i < |s.windowMessages| && s.windowMessages[i].id == id {
      SumOfPresent(s.windowMessages, i, WithId(id));
    }
    if i :| 0 <= i < |s.working| && s.working[i].message.id == id { SumOfPresent(s.working, i, OnWork(WithId(id))); }
  }

  /**
    In every interleaving a blocked sender's event is unset exactly while its message is
    queued or being processed.
   */
  lemma {:induction false} WaitsOnlyInFlight(steps: seq<Step>, thread: nat)
    requires Run(steps).Some? && thread in Run(steps).value.waiting
    ensures var s := Run(steps).value; var id := s.waiting[thread];
            thread != APPLICATION && (id !in s.signaled <==> InFlight(s, id))
  {
    var s := Run(steps).value;
    var id := s.waiting[thread];
    RunKeeps(steps, id);
    assert id in s.waiting.Values;
    PresentInFlight(s, id);
  }

  /** After a cleanup that follows the stop, both queues stay empty and nobody is left waiting for a queued message. */
  lemma {:induction false} StopsForGood(steps: seq<Step>, more: seq<Step>)
    requires Run(steps + more).Some? && Run(steps).Some? && Run(steps).value.cleaned
    ensures var s := Run(steps + more).value;
            && s.messages == [] && s.windowMessages == []
            && forall thread :: thread in s.waiting && s.waiting[thread] !in s.signaled ==>
                 exists i :: 0 <= i < |s.working| && s.working[i].message.id == s.waiting[thread]
    decreases |more|
  {
    var s := Run(steps + more).value;
    StaysCleaned(steps, more);
    RunKeeps(steps + more, 0);
    forall thread | thread in s.waiting && s.waiting[thread] !in s.signaled
      ensures exists i :: 0 <= i < |s.working| && s.working[i].message.id == s.waiting[thread]
    {
      WaitsOnlyInFlight(steps + more, thread);
    }
  }

  lemma {:induction false} StaysCleaned(steps: seq<Step>, more: seq<Step>)
    requires Run(steps + more).Some? && Run(steps).Some? && Run(steps).value.cleaned
    ensures Run(steps + more).value.cleaned
    decreases |more|
  {
    if more == [] {
      assert steps + more == steps;
    } else {
      var all := steps + more;
      assert all[..|all| - 1] == steps + more[..|more| - 1];
      StaysCleaned(steps, more[..|more| - 1]);
    }
  }

  /** A cleanup after the stop does lead there. */
  lemma {:induction false} CleanupAfterStop(steps: seq<Step>, thread: nat)
    requires Run(steps).Some? && Run(steps).value.stop && Enabled(Run(steps).value, Cleanup(thread))
    ensures Run(steps + [Cleanup(thread)]).Some? && Run(steps + [Cleanup(thread)]).value.cleaned
  {
    assert (steps + [Cleanup(thread)])[..|steps|] == steps;
  }

  lemma {:induction false} PrefixRuns(steps: seq<Step>, n: nat)
    requires Run(steps).Some? && n <= |steps|
    ensures Run(steps[..n]).Some?
    decreases |steps|
  {
    if n < |steps| {
      var init := steps[..|steps| - 1];
      assert init[..n] == steps[..n];
      PrefixRuns(init, n);
    } else {
      assert steps[..n] == steps;
    }
  }

  /** Nothing takes a stop back. */
  lemma {:induction false} StaysStopped(steps: seq<Step>, i: nat)
    requires Run(steps).Some? && i < |steps| && steps[i].Stop?
    ensures Run(steps).value.stop
    decreases |steps|
  {
    if i < |steps| - 1 {
      StaysStopped(steps[..|steps| - 1], i);
    }
  }

  /**
    In every run with a stop and a later cleanup, whatever came before, in between and
    after, both queues are empty and nobody waits for a message that nobody works on.
   */
  lemma {:induction false} StopThenCleanup(steps: seq<Step>, i: nat, j: nat)
    requires Run(steps).Some? && i < j < |steps| && steps[i].Stop? && steps[j].Cleanup?
    ensures var s := Run(steps).value;
            && s.messages == [] && s.windowMessages == []
            && forall thread :: thread in s.waiting && s.waiting[thread] !in s.signaled ==>
                 exists k :: 0 <= k < |s.working| && s.working[k].message.id == s.waiting[thread]
  {
    var before, through := steps[..j], steps[..j + 1];
    PrefixRuns(steps, j);
    PrefixRuns(steps, j + 1);
    StaysStopped(before, i);
    assert through[..j] == before && through == before + [Cleanup(steps[j].thread)];
    CleanupAfterStop(before, steps[j].thread);
    assert steps == through + steps[j + 1..];
    StopsForGood(through, steps[j + 1..]);
  }
}
