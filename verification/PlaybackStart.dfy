/**
  Starting playback: what players report while a file is being opened is recorded, and
  only the last report is passed on, once the file is open.
 */
module PlaybackStart {
  import opened Options

  datatype PlayState = NoPlay | Starting | Playing | EndedPlay | StoppedPlay

  /** Messages to the windows, which wait in the window manager's queue. */
  datatype Notice = Started | Ended | Stopped

  datatype PlayResult = Ok | Fail | Canceled

  /** The operation counter has 32 bits. */
  const WRAP := 0x1_0000_0000

  datatype App = App(playState: PlayState, starting: bool, notices: seq<Notice>, opSeq: nat)

  /** What other threads do meanwhile: report about playback, or open or close files. */
  datatype Event = Callback(notice: Notice) | Operation

  function StateOf(n: Notice): PlayState {
    match n
    case Started => Playing
    case Ended => EndedPlay
    case Stopped => StoppedPlay
  }

  function OnCallback(a: App, n: Notice): App {
    a.(playState := StateOf(n), notices := if a.starting then a.notices else a.notices + [n])
  }

  function OnOperation(a: App): App {
    a.(opSeq := (a.opSeq + 1) % WRAP)
  }

  function During(a: App, events: seq<Event>): App
    decreases |events|
  {
    if events == [] then a
    else
      match events[0]
      case Callback(n) => During(OnCallback(a, n), events[1..])
      case Operation => During(OnOperation(a), events[1..])
  }

  /** The reports among the events, in order. */
  function Reports(events: seq<Event>): seq<Notice> {
    if events == [] then []
    else (match events[0] case Callback(n) => [n] case Operation => []) + Reports(events[1..])
  }

  /** Outside a start every report is passed on at once, after those already waiting. */
  lemma {:induction false} ReportsArePassedOn(a: App, events: seq<Event>)
    requires !a.starting
    ensures During(a, events).notices == a.notices + Reports(events) && !During(a, events).starting
    decreases |events|
  {
    if events != [] {
      match events[0]
      case Callback(n) =>
        ReportsArePassedOn(OnCallback(a, n), events[1..]);
        assert a.notices + [n] + Reports(events[1..]) == a.notices + Reports(events);
      case Operation =>
        ReportsArePassedOn(OnOperation(a), events[1..]);
    }
  }

  /** Playback notices of the item before are taken out of the queue. */
  function OnBegin(a: App): App {
    a.(starting := true, notices := [])
  }

  function OnReset(a: App): App {
    a.(playState := Starting)
  }

  /** What is made of the result and the last report when the file has been opened, or not. */
  function OnEnd(a: App, result: PlayResult, lastInPlaylist: bool): App {
    var b := a.(starting := false);
    match result
    case Ok =>
      (match b.playState
       case Playing => OnCallback(b, Started)
       case EndedPlay => OnCallback(b, Ended)
       case StoppedPlay => OnCallback(b, Stopped)
       case _ => b)
    case Fail =>
      (if lastInPlaylist then OnCallback(b, Stopped) else b).(playState := NoPlay)
    case Canceled => b
  }

  /** The result of opening a file: overtaken operations are told by the counter. */
  function ResultOf(startingSeq: nat, a: App, success: bool): PlayResult {
    if a.opSeq != startingSeq then Canceled else if success then Ok else Fail
  }

  /** What other threads do during a start, section by section. */
  datatype Meanwhile = Meanwhile(closing: seq<Event>, resetting: seq<Event>, opening: seq<Event>, ending: seq<Event>)

  /**
    A whole start: closing the item before, during which closing events come in; more of
    them between the reset of the state and the player's opening of the file, while it
    opens, and from the check of the counter until the start ends.
   */
  function Start(a: App, m: Meanwhile, hasPlayer: bool, success: bool, lastInPlaylist: bool): (App, PlayResult)
  {
    var ready := During(OnReset(During(OnBegin(a), m.closing)), m.resetting);
    if !hasPlayer then (OnEnd(During(ready, m.ending), Fail, lastInPlaylist), Fail)
    else
      var from := OnOperation(ready);
      var open := During(from, m.opening);
      var result := ResultOf(from.opSeq, open, success);
      (OnEnd(During(open, m.ending), result, lastInPlaylist), result)
  }

  /** What comes in after the reset. */
  function SinceReset(m: Meanwhile, hasPlayer: bool): seq<Event> {
    m.resetting + (if hasPlayer then m.opening else []) + m.ending
  }

  function LastCallback(events: seq<Event>): Option<Notice>
    decreases |events|
  {
    if events == [] then None
    else
      var e := events[|events| - 1];
      if e.Callback? then Some(e.notice) else LastCallback(events[..|events| - 1])
  }

  function Operations(events: seq<Event>): nat {
    if events == [] then 0 else (if events[0].Operation? then 1 else 0) + Operations(events[1..])
  }

  /** While playback is starting no event sends a notice, and the last report is the state. */
  lemma {:induction false} StartingIsQuiet(a: App, events: seq<Event>)
    requires a.starting && a.opSeq < WRAP
    ensures var b := During(a, events);
            && b.starting && b.notices == a.notices
            && b.opSeq == (a.opSeq + Operations(events)) % WRAP
            && b.playState == (if LastCallback(events).Some? then StateOf(LastCallback(events).value) else a.playState)
    decreases |events|
  {
    if events != [] {
      var next := if events[0].Callback? then OnCallback(a, events[0].notice) else OnOperation(a);
      StartingIsQuiet(next, events[1..]);
      LastOfTail(events);
    }
  }

  lemma {:induction false} LastOfTail(events: seq<Event>)
    requires events != []
    ensures LastCallback(events) ==
      if LastCallback(events[1..]).Some? then LastCallback(events[1..])
      else if events[0].Callback? then Some(events[0].notice) else None
    decreases |events|
  {
    if |events| > 1 {
      var init := events[..|events| - 1];
      assert events[1..][..|events[1..]| - 1] == init[1..];
      LastOfTail(init);
    }
  }

  lemma {:induction false} LastOfBoth(a: seq<Event>, b: seq<Event>)
    ensures LastCallback(a + b) == if LastCallback(b).Some? then LastCallback(b) else LastCallback(a)
    decreases |b|
  {
    if b == [] {
      assert a + b == a;
    } else {
      var init := b[..|b| - 1];
      assert (a + b)[..|a + b| - 1] == a + init;
      LastOfBoth(a, init);
    }
  }

  /**
    A start that is not interrupted by another one leaves exactly these notices in the
    queue: the last report since playing was reset, after a successful open; one that
    playback stopped, after a failed one at the end of the playlist; none otherwise.
    It reports success exactly when the player opened the file and the number of
    operations that came in meanwhile is a multiple of the counter's range: so never
    after being overtaken, unless the counter wraps around.
   */
  lemma {:induction false} StartIsExact(a: App, m: Meanwhile, hasPlayer: bool, success: bool, lastInPlaylist: bool)
    requires a.opSeq < WRAP
    ensures var (b, result) := Start(a, m, hasPlayer, success, lastInPlaylist);
            var last := LastCallback(SinceReset(m, hasPlayer));
            && !b.starting
            && (result == Ok <==> hasPlayer && success && Operations(m.opening) % 0x1_0000_0000 == 0)
            && (result == Canceled <==> hasPlayer && Operations(m.opening) % 0x1_0000_0000 != 0)
            && (result == Ok ==>
                  && b.notices == (if last.Some? then [last.value] else [])
                  && b.playState == (if last.Some? then StateOf(last.value) else Starting))
            && (result == Fail ==> b.notices == (if lastInPlaylist then [Stopped] else []) && b.playState == NoPlay)
            && (result == Canceled ==> b.notices == [])
  {
    StartingIsQuiet(OnBegin(a), m.closing);
    var reset := OnReset(During(OnBegin(a), m.closing));
    var last := LastCallback(SinceReset(m, hasPlayer));
    if hasPlayer {
      QuietInThree(reset, m.resetting, m.opening, m.ending);
      var from := OnOperation(During(reset, m.resetting));
      var open := During(from, m.opening);
      ResultIsExact(reset, m.resetting, m.opening, success);
      EndIsExact(During(open, m.ending), ResultOf(from.opSeq, open, success), last, lastInPlaylist);
    } else {
      QuietInTwo(reset, m.resetting, m.ending);
      EndIsExact(During(During(reset, m.resetting), m.ending), Fail, last, lastInPlaylist);
    }
  }

  /** The end of a start, from a state that records the last report and has sent nothing. */
  lemma {:induction false} EndIsExact(a: App, result: PlayResult, last: Option<Notice>, lastInPlaylist: bool)
    requires a.starting && a.notices == [] && a.playState == (if last.Some? then StateOf(last.value) else Starting)
    ensures var b := OnEnd(a, result, lastInPlaylist);
            && !b.starting
            && (result == Ok ==> b.notices == (if last.Some? then [last.value] else []) && b.playState == a.playState)
            && (result == Fail ==> b.notices == (if lastInPlaylist then [Stopped] else []) && b.playState == NoPlay)
            && (result == Canceled ==> b.notices == [])
  {
  }

  lemma {:induction false} ResultIsExact(a: App, resetting: seq<Event>, opening: seq<Event>, success: bool)
    requires a.starting && a.opSeq < WRAP
    ensures var from := OnOperation(During(a, resetting));
            var result := ResultOf(from.opSeq, During(from, opening), success);
            && (result == Ok <==> success && Operations(opening) % WRAP == 0)
            && (result == Canceled <==> Operations(opening) % WRAP != 0)
  {
    StartingIsQuiet(a, resetting);
    var from := OnOperation(During(a, resetting));
    StartingIsQuiet(from, opening);
    SameAfter(from.opSeq, Operations(opening));
  }

  lemma {:induction false} QuietInTwo(a: App, first: seq<Event>, second: seq<Event>)
    requires a.starting && a.opSeq < WRAP
    ensures var b, last := During(During(a, first), second), LastCallback(first + [] + second);
            b.starting && b.notices == a.notices
              && b.playState == (if last.Some? then StateOf(last.value) else a.playState)
  {
    StartingIsQuiet(a, first);
    StartingIsQuiet(During(a, first), second);
    assert first + [] == first;
    LastOfBoth(first, second);
  }

  lemma {:induction false} QuietInThree(a: App, first: seq<Event>, second: seq<Event>, third: seq<Event>)
    requires a.starting && a.opSeq < WRAP
    ensures var b := During(During(OnOperation(During(a, first)), second), third);
            var last := LastCallback(first + second + third);
            b.starting && b.notices == a.notices
              && b.playState == (if last.Some? then StateOf(last.value) else a.playState)
  {
    StartingIsQuiet(a, first);
    var from := OnOperation(During(a, first));
    StartingIsQuiet(from, second);
    StartingIsQuiet(During(from, second), third);
    LastOfBoth(first, second);
    LastOfBoth(first + second, third);
  }

  lemma {:induction false} SameAfter(x: nat, n: nat)
    requires x < WRAP
    ensures (x + n) % WRAP == x <==> n % WRAP == 0
  {
    var q, r := n / WRAP, n % WRAP;
    assert n == q * WRAP + r;
    if x + r < WRAP {
      ModIs(x + n, q, x + r);
    } else {
      ModIs(x + n, q + 1, x + r - WRAP);
    }
  }

  lemma {:induction false} ModIs(n: nat, q: nat, r: nat)
    requires n == q * WRAP + r && r < WRAP
    ensures n % WRAP == r
  {
  }

  /** The application's part of this, section by section. */
  class Playback {
    var playState: PlayState
    var starting: bool
    var notices: seq<Notice>
    var opSeq: nat

    constructor ()
      ensures View() == App(NoPlay, false, [], 0)
    {
      playState, starting, notices, opSeq := NoPlay, false, [], 0;
    }

    ghost function View(): App
      reads this
    {
      App(playState, starting, notices, opSeq)
    }

    method OnPlayBackStarted()
      modifies this
      ensures View() == OnCallback(old(View()), Started)
    {
      playState := Playing;
      if starting {
        return;
      }
      notices := notices + [Started];
    }

    method OnPlayBackEnded()
      modifies this
      ensures View() == OnCallback(old(View()), Ended)
    {
      playState := EndedPlay;
      if starting {
        return;
      }
      notices := notices + [Ended];
    }

    method OnPlayBackStopped()
      modifies this
      ensures View() == OnCallback(old(View()), Stopped)
    {
      playState := StoppedPlay;
      if starting {
        return;
      }
      notices := notices + [Stopped];
    }

    /** Opening or closing a file counts as an operation. */
    method CountOperation() returns (seqNo: nat)
      modifies this
      ensures View() == OnOperation(old(View())) && seqNo == opSeq
    {
      opSeq := (opSeq + 1) % WRAP;
      seqNo := opSeq;
    }

    method BeginStart()
      modifies this
      ensures View() == OnBegin(old(View()))
    {
      starting := true;
      notices := [];
    }

    method ResetToStarting()
      modifies this
      ensures View() == OnReset(old(View()))
    {
      playState := Starting;
    }

    method FinishOpen(startingSeq: nat, success: bool) returns (result: PlayResult)
      ensures result == ResultOf(startingSeq, View(), success)
    {
      result := if success then Ok else Fail;
      if opSeq != startingSeq {
        result := Canceled;
      }
    }

    method EndStart(result: PlayResult, lastInPlaylist: bool)
      modifies this
      ensures View() == OnEnd(old(View()), result, lastInPlaylist)
    {
      starting := false;
      if result == Ok {
        match playState {
          case Playing => OnPlayBackStarted();
          case EndedPlay => OnPlayBackEnded();
          case StoppedPlay => OnPlayBackStopped();
          case _ =>
        }
      } else if result == Fail {
        if lastInPlaylist {
          OnPlayBackStopped();
        }
        playState := NoPlay;
      }
    }

    /** Other threads' sections, one after the other. */
    method Others(events: seq<Event>)
      modifies this
      ensures View() == During(old(View()), events)
    {
      ghost var a := View();
      for i := 0 to |events|
        invariant During(a, events) == During(View(), events[i..])
      {
        assert events[i..][0] == events[i] && events[i..][1..] == events[i + 1..];
        match events[i] {
          case Callback(Started) => OnPlayBackStarted();
          case Callback(Ended) => OnPlayBackEnded();
          case Callback(Stopped) => OnPlayBackStopped();
          case Operation => var _ := CountOperation();
        }
      }
    }

    /** The sections of a start in order, with those of other threads in between. */
    method PlayFile(m: Meanwhile, hasPlayer: bool, success: bool, lastInPlaylist: bool) returns (result: PlayResult)
      modifies this
      ensures (View(), result) == Start(old(View()), m, hasPlayer, success, lastInPlaylist)
    {
      BeginStart();
      Others(m.closing);
      ResetToStarting();
      Others(m.resetting);
      result := Fail;
      if hasPlayer {
        var startingSeq := CountOperation();
        Others(m.opening);
        result := FinishOpen(startingSeq, success);
      }
      Others(m.ending);
      EndStart(result, lastInPlaylist);
    }
  }
}
