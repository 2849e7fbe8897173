/** The messenger's two queues, changed in place by the sections its threads run inside the lock. */
module ApplicationMessenger {
  import opened Options
  import opened MessageProtocol

  class Messenger {
    var messages: seq<Message>
    var windowMessages: seq<Message>
    /** The ids of the messages whose events are set. */
    var signaled: set<nat>
    ghost var left: seq<Message>
    ghost var windowLeft: seq<Message>

    constructor ()
      ensures messages == [] && windowMessages == [] && signaled == {} && left == [] && windowLeft == []
    {
      messages, windowMessages, signaled, left, windowLeft := [], [], {}, [], [];
    }

    /** These queues are those of the protocol's state. */
    ghost predicate Shows(s: State)
      reads this
    {
      && messages == s.messages && windowMessages == s.windowMessages && signaled == s.signaled
      && left == s.left && windowLeft == s.windowLeft
    }

    /** The end of sending, still inside the lock. */
    method PushMessage(m: Message, ghost s: State)
      requires Shows(s) && s.pushing == Some(m)
      modifies this
      ensures Shows(OnPush(s))
    {
      if m.window {
        windowMessages := windowMessages + [m];
      } else {
        messages := messages + [m];
      }
    }

    /** A processing loop's section: the first message is removed before it is worked on. */
    method TakeNext(window: bool, ghost thread: nat, ghost s: State) returns (m: Option<Message>)
      requires Shows(s)
      modifies this
      ensures m.None? <==> (if window then old(windowMessages) else old(messages)) == []
      ensures m.None? ==> Shows(s)
      ensures m.Some? ==>
        Shows(OnTake(s, thread, window)) && m.value == (if window then s.windowMessages else s.messages)[0]
    {
      if window {
        if windowMessages == [] {
          return None;
        }
        m := Some(windowMessages[0]);
        windowMessages := windowMessages[1..];
        windowLeft := windowLeft + [m.value];
      } else {
        if messages == [] {
          return None;
        }
        m := Some(messages[0]);
        messages := messages[1..];
        left := left + [m.value];
      }
    }

    /** After the handler: tell the sender, if it waits. */
    method FinishMessage(m: Message, ghost k: nat, ghost s: State)
      requires Shows(s) && k < |s.working| && s.working[k].message == m
      modifies this
      ensures Shows(OnFinish(s, k))
    {
      if m.waited {
        signaled := signaled + {m.id};
      }
    }

    /** Both queues are emptied from the front, and every waiting sender is told. */
    method Cleanup(ghost s: State)
      requires Shows(s)
      modifies this
      ensures Shows(OnCleanup(s))
    {
      CleanupMessages();
      CleanupWindowMessages();
    }

    /** What a step of a thread does to the queues; the threads are as in s. */
    method Perform(step: Step, s: State)
      requires Shows(s) && Enabled(s, step)
      modifies this
      ensures Shows(Next(s, step))
    {
      match step {
        case Push => PushMessage(s.pushing.value, s);
        case Take(thread, window) => var _ := TakeNext(window, thread, s);
        case Finish(k) => FinishMessage(s.working[k].message, k, s);
        case Cleanup(_) => Cleanup(s);
        case _ =>
      }
    }

    /** A whole run: the queues always are those of the protocol's state. */
    method Serve(steps: seq<Step>)
      requires Shows(START) && Run(steps).Some?
      modifies this
      ensures Shows(Run(steps).value)
    {
      var threads := START;
      for i := 0 to |steps|
        invariant Run(steps[..i]) == Some(threads) && Shows(threads)
      {
        PrefixRuns(steps, i + 1);
        assert steps[..i + 1][..i] == steps[..i];
        Perform(steps[i], threads);
        threads := Next(threads, steps[i]);
      }
      assert steps[..|steps|] == steps;
    }

    method CleanupMessages()
      modifies `messages, `signaled, `left
      ensures messages == [] && left == old(left) + old(messages)
      ensures signaled == old(signaled) + EventsOf(old(messages))
    {
      while messages != []
        invariant left + messages == old(left) + old(messages)
        invariant signaled + EventsOf(messages) == old(signaled) + EventsOf(old(messages))
        decreases |messages|
      {
        var m := messages[0];
        assert messages == [m] + messages[1..];
        if m.waited {
          signaled := signaled + {m.id};
        }
        messages := messages[1..];
        left := left + [m];
      }
    }

    method CleanupWindowMessages()
      modifies `windowMessages, `signaled, `windowLeft
      ensures windowMessages == [] && windowLeft == old(windowLeft) + old(windowMessages)
      ensures signaled == old(signaled) + EventsOf(old(windowMessages))
    {
      while windowMessages != []
        invariant windowLeft + windowMessages == old(windowLeft) + old(windowMessages)
        invariant signaled + EventsOf(windowMessages) == old(signaled) + EventsOf(old(windowMessages))
        decreases |windowMessages|
      {
        var m := windowMessages[0];
        assert windowMessages == [m] + windowMessages[1..];
        if m.waited {
          signaled := signaled + {m.id};
        }
        windowMessages := windowMessages[1..];
        windowLeft := windowLeft + [m];
      }
    }
  }
}
