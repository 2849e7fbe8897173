/** The play speed: what the remote control's actions make of it, and what that is good for. */
module PlaySpeed {
  const MAX_FFWD_SPEED := 5

  datatype Player = Player(speed: int, paused: bool)

  /** amount tells how far an analog button is held down; canSeek is what the player answers when asked. */
  datatype Action =
    | PauseToggle(canSeek: bool)
    | Play(canSeek: bool)
    | Forward(canSeek: bool)
    | Rewind(canSeek: bool)
    | Analog(forward: bool, amount: real, canSeek: bool)

  function Pow2(n: nat): (p: int)
    ensures p >= 1
  {
    if n == 0 then 1 else 2 * Pow2(n - 1)
  }

  /** Division as the program does it, towards zero. */
  function Halved(n: int): int {
    if n >= 0 then n / 2 else -((-n) / 2)
  }

  function SetPlaySpeed(p: Player, speed: int, canSeek: bool): Player {
    if p.speed == speed || !canSeek then p
    else if p.paused then
      var kept := (p.speed > 1 && speed > p.speed) || (p.speed < -1 && speed < p.speed);
      Player(if kept then p.speed else speed, false)
    else Player(speed, false)
  }

  /** One notch forward or back; beyond the fastest speed it is normal again. */
  function Notch(speed: int, forward: bool): int {
    var s :=
      if !forward && speed == 1 then speed * -2
      else if !forward && speed > 1 then Halved(speed)
      else if forward && speed < 1 then Halved(speed)
      else speed * 2;
    var t := if forward && s == -1 then 1 else s;
    if t > 32 || t < -32 then 1 else t
  }

  function AnalogSpeed(forward: bool, amount: real): int
    requires 0.0 <= amount <= 1.0
  {
    assert amount * 5.0 + 0.5 >= 0.0;
    var power: nat := (amount * MAX_FFWD_SPEED as real + 0.5).Floor;
    if !forward && Pow2(power) != 1 then -Pow2(power) else Pow2(power)
  }

  predicate ValidAction(a: Action) { a.Analog? ==> 0.0 <= a.amount <= 1.0 }

  function OnPause(p: Player, canSeek: bool): Player {
    var q := p.(paused := !p.paused);
    if !q.paused && q.speed != 1 then SetPlaySpeed(q, 1, canSeek) else q
  }

  function OnAction(p: Player, a: Action): Player
    requires ValidAction(a)
  {
    match a
    case PauseToggle(canSeek) => OnPause(p, canSeek)
    case Play(canSeek) =>
      if p.paused then OnPause(p, canSeek)
      else if p.speed != 1 then SetPlaySpeed(p, 1, canSeek)
      else p
    case Forward(canSeek) => if p.paused then p else SetPlaySpeed(p, Notch(p.speed, true), canSeek)
    case Rewind(canSeek) => if p.paused then p else SetPlaySpeed(p, Notch(p.speed, false), canSeek)
    case Analog(forward, amount, canSeek) =>
      if p.paused || (amount == 0.0 && p.speed == 1) then p
      else SetPlaySpeed(p, AnalogSpeed(forward, amount), canSeek)
  }

  function Run(actions: seq<Action>): Player
    requires forall i :: 0 <= i < |actions| ==> ValidAction(actions[i])
    decreases |actions|
  {
    if actions == [] then Player(1, false)
    else OnAction(Run(actions[..|actions| - 1]), actions[|actions| - 1])
  }

  /** 1, or forward or back by 2, 4, 8, 16 or 32. */
  predicate Proper(speed: int) {
    speed == 1 || exists n: nat :: 1 <= n <= MAX_FFWD_SPEED && (speed == Pow2(n) || speed == -Pow2(n))
  }

  lemma {:induction false} Powers()
    ensures Pow2(0) == 1 && Pow2(1) == 2 && Pow2(2) == 4 && Pow2(3) == 8 && Pow2(4) == 16 && Pow2(5) == 32
  {
    assert Pow2(3) == 2 * Pow2(2) && Pow2(4) == 2 * Pow2(3) && Pow2(5) == 2 * Pow2(4);
  }

  lemma {:induction false} ProperCases(speed: int)
    ensures Proper(speed) <==> speed in {1, 2, 4, 8, 16, 32, -2, -4, -8, -16, -32}
  {
    Powers();
    if speed in {1, 2, 4, 8, 16, 32, -2, -4, -8, -16, -32} && speed != 1 {
      var size := if speed > 0 then speed else -speed;
      var n := if size == 2 then 1 else if size == 4 then 2 else if size == 8 then 3 else if size == 16 then 4 else 5;
      assert Pow2(n) == size;
    }
    if n: nat :| 1 <= n <= MAX_FFWD_SPEED && (speed == Pow2(n) || speed == -Pow2(n)) {
      assert n in {1, 2, 3, 4, 5};
    }
  }

  lemma {:induction false} AnalogIsProper(forward: bool, amount: real)
    requires 0.0 <= amount <= 1.0
    ensures Proper(AnalogSpeed(forward, amount))
  {
    var power: nat := (amount * MAX_FFWD_SPEED as real + 0.5).Floor;
    assert 0 <= power <= 5;
    Powers();
    ProperCases(AnalogSpeed(forward, amount));
    assert power in {0, 1, 2, 3, 4, 5};
  }

  lemma {:induction false} ActionKeepsProper(p: Player, a: Action)
    requires ValidAction(a) && Proper(p.speed)
    ensures Proper(OnAction(p, a).speed)
  {
    ProperCases(p.speed);
    ProperCases(Notch(p.speed, true));
    ProperCases(Notch(p.speed, false));
    if a.Analog? {
      AnalogIsProper(a.forward, a.amount);
    }
  }

  lemma {:induction false} RunIsProper(actions: seq<Action>)
    requires forall i :: 0 <= i < |actions| ==> ValidAction(actions[i])
    ensures Proper(Run(actions).speed)
    decreases |actions|
  {
    if actions != [] {
      RunIsProper(actions[..|actions| - 1]);
      ActionKeepsProper(Run(actions[..|actions| - 1]), actions[|actions| - 1]);
    }
  }

  /** The n-th press of one button on a playing seekable file. */
  lemma {:induction false} Pressed(forward: bool, n: nat)
    requires 1 <= n <= MAX_FFWD_SPEED
    ensures var press := if forward then Forward(true) else Rewind(true);
            Run(seq(n, _ => press)) == Player(if forward then Pow2(n) else -Pow2(n), false)
  {
    var press := if forward then Forward(true) else Rewind(true);
    var actions := seq(n, _ => press);
    assert actions[..n - 1] == seq(n - 1, _ => press);
    Powers();
    if n == 1 {
      assert actions[..0] == [];
    } else {
      Pressed(forward, n - 1);
      assert n in {2, 3, 4, 5};
    }
  }

  /** The speeds reached by actions are exactly the proper ones. */
  lemma {:induction false} ReachableIsProper(speed: int)
    ensures Proper(speed) <==>
      exists actions :: (forall i :: 0 <= i < |actions| ==> ValidAction(actions[i])) && Run(actions).speed == speed
  {
    if speed == 1 {
      assert Run([]).speed == 1;
    } else if n: nat :| 1 <= n <= MAX_FFWD_SPEED && (speed == Pow2(n) || speed == -Pow2(n)) {
      var press := if speed == Pow2(n) then Forward(true) else Rewind(true);
      Pressed(speed == Pow2(n), n);
      assert Run(seq(n, _ => press)).speed == speed;
    }
    if actions :| (forall i :: 0 <= i < |actions| ==> ValidAction(actions[i])) && Run(actions).speed == speed {
      RunIsProper(actions);
    }
  }

  /**
    While playing, a rewind undoes a forward press, and the other way around, except at the
    fastest speed, which is left.
   */
  lemma {:induction false} WindsUndoEachOther(p: Player)
    requires Proper(p.speed) && !p.paused
    ensures OnAction(OnAction(p, Forward(true)), Rewind(true)) == p <==> p.speed != 32
    ensures OnAction(OnAction(p, Rewind(true)), Forward(true)) == p <==> p.speed != -32
    ensures p.speed != 32 ==> OnAction(p, Forward(true)).speed > p.speed
    ensures p.speed != -32 ==> OnAction(p, Rewind(true)).speed < p.speed
  {
    ProperCases(p.speed);
    assert forall b: bool :: OnAction(p, if b then Forward(true) else Rewind(true)) == Player(Notch(p.speed, b), false);
  }

  /** From pause, of two speeds in one direction the slower one is taken, and otherwise the new one. */
  lemma {:induction false} UnpausedSpeed(p: Player, speed: int)
    requires p.paused && p.speed != speed
    ensures var q := SetPlaySpeed(p, speed, true);
            && !q.paused
            && (p.speed > 1 && speed > 1 ==> q.speed == if speed < p.speed then speed else p.speed)
            && (p.speed < -1 && speed < -1 ==> q.speed == if speed > p.speed then speed else p.speed)
            && (!(p.speed > 1 && speed > 1) && !(p.speed < -1 && speed < -1) ==> q.speed == speed)
  {
  }

  /** Play always leads to normal speed, and in pause no button winds. */
  lemma {:induction false} PlayIsNormal(p: Player, wind: Action)
    requires ValidAction(wind) && (wind.Forward? || wind.Rewind? || wind.Analog?)
    ensures OnAction(p, Play(true)) == Player(1, false)
    ensures p.paused ==> OnAction(p, wind) == p
    ensures !p.paused ==> OnAction(p, Play(false)) == p
  {
  }

  /** Pausing keeps the speed; going on plays at normal speed, unless the player cannot seek. */
  lemma {:induction false} PauseAndGoOn(p: Player, canSeek: bool, canSeek': bool)
    requires !p.paused
    ensures var q := OnAction(p, PauseToggle(canSeek));
            && q == Player(p.speed, true)
            && OnAction(q, PauseToggle(canSeek')) == Player(if canSeek' then 1 else p.speed, false)
  {
  }

  /**
    The analog speed goes the way of the button, and its size is the power of two nearest to the
    amount on a scale of 5.
   */
  lemma {:induction false} AnalogSpeedIs(forward: bool, amount: real, n: nat)
    requires 0.0 <= amount <= 1.0
    requires n as real - 0.5 <= 5.0 * amount < n as real + 0.5
    ensures AnalogSpeed(forward, amount) == if forward || n == 0 then Pow2(n) else -Pow2(n)
  {
    assert (amount * 5.0 + 0.5).Floor == n;
    assert n > 0 ==> Pow2(n) == 2 * Pow2(n - 1);
  }

  /** The player's speed as the actions update it. */
  class SpeedControl {
    var speed: int
    var paused: bool

    constructor ()
      ensures View() == Player(1, false)
    {
      speed, paused := 1, false;
    }

    function View(): Player
      reads this
    {
      Player(speed, paused)
    }

    method TogglePause()
      modifies `paused
      ensures paused == !old(paused)
    {
      paused := !paused;
    }

    method ChangeSpeed(newSpeed: int, canSeek: bool)
      modifies this
      ensures View() == SetPlaySpeed(old(View()), newSpeed, canSeek)
    {
      if speed == newSpeed || !canSeek {
        return;
      }
      var s := newSpeed;
      if paused {
        if (speed > 1 && s > speed) || (speed < -1 && s < speed) {
          s := speed;
        }
        TogglePause();
      }
      speed := s;
    }

    method OnPauseAction(canSeek: bool)
      modifies this
      ensures View() == OnPause(old(View()), canSeek)
    {
      TogglePause();
      if !paused && speed != 1 {
        ChangeSpeed(1, canSeek);
      }
    }

    method OnWindAction(forward: bool, canSeek: bool)
      modifies this
      ensures View() == SetPlaySpeed(old(View()), Notch(old(speed), forward), canSeek)
    {
      var s := speed;
      if !forward && s == 1 {
        s := s * -2;
      } else if !forward && s > 1 {
        s := Halved(s);
      } else if forward && s < 1 {
        s := Halved(s);
      } else {
        s := s * 2;
      }
      if forward && s == -1 {
        s := 1;
      }
      if s > 32 || s < -32 {
        s := 1;
      }
      ChangeSpeed(s, canSeek);
    }

    method HandleAction(a: Action)
      requires ValidAction(a)
      modifies this
      ensures View() == OnAction(old(View()), a)
    {
      match a {
        case PauseToggle(canSeek) => OnPauseAction(canSeek);
        case Play(canSeek) =>
          if paused {
            OnPauseAction(canSeek);
          } else if speed != 1 {
            ChangeSpeed(1, canSeek);
          }
        case Forward(canSeek) =>
          if !paused {
            OnWindAction(true, canSeek);
          }
        case Rewind(canSeek) =>
          if !paused {
            OnWindAction(false, canSeek);
          }
        case Analog(forward, amount, canSeek) =>
          if !paused && (amount != 0.0 || speed != 1) {
            ChangeSpeed(AnalogSpeed(forward, amount), canSeek);
          }
      }
    }

    /** One action after another, from the start of playback. */
    method HandleActions(actions: seq<Action>)
      requires View() == Player(1, false) && forall i :: 0 <= i < |actions| ==> ValidAction(actions[i])
      modifies this
      ensures View() == Run(actions) && Proper(speed)
    {
      for i := 0 to |actions|
        invariant View() == Run(actions[..i])
      {
        assert actions[..i + 1][..i] == actions[..i];
        HandleAction(actions[i]);
      }
      assert actions[..|actions|] == actions;
      RunIsProper(actions);
    }
  }

  /**
    The loop that halves the speed until it is 1; it would not end on a speed of 0.  On
    a rewinding player's speed it finds the exact logarithm.
   */
  method RewindPower(speed: int) returns (power: nat)
    requires speed < 0
    ensures Pow2(power) <= -speed < 2 * Pow2(power)
    ensures Proper(speed) ==> Pow2(power) == -speed
  {
    var size := -speed;
    power := 0;
    ghost var rest := 0;
    while size != 1
      invariant size >= 1 && 0 <= rest < Pow2(power)
      invariant -speed == size * Pow2(power) + rest
      decreases size
    {
      rest := rest + (size % 2) * Pow2(power);
      Split(size, Pow2(power));
      size := size / 2;
      power := power + 1;
    }
    if Proper(speed) {
      ghost var n: nat :| 1 <= n <= MAX_FFWD_SPEED && speed == -Pow2(n);
      OnlyPower(power, n);
    }
  }

  /** The loop's variable after n rounds. */
  function AfterHalving(size: nat, n: nat): nat {
    if n == 0 then size else AfterHalving(size, n - 1) / 2
  }

  lemma {:induction false} HalvingShifts(size: nat, n: nat)
    ensures AfterHalving(size, n + 1) == AfterHalving(size / 2, n)
  {
    if n > 0 {
      HalvingShifts(size, n - 1);
    }
  }

  lemma {:induction false} HalvingReachesOne(size: nat) returns (n: nat)
    requires size > 0
    ensures AfterHalving(size, n) == 1
  {
    if size == 1 {
      n := 0;
    } else {
      n := HalvingReachesOne(size / 2);
      HalvingShifts(size, n);
      n := n + 1;
    }
  }

  lemma {:induction false} HalvingZero(n: nat)
    ensures AfterHalving(0, n) == 0
  {
    if n > 0 {
      HalvingZero(n - 1);
    }
  }

  predicate EndsAfter(speed: int, n: nat)
    requires speed < 1
  {
    AfterHalving(-speed, n) == 1
  }

  /**
    The loop is entered below speed 1, and ends exactly when the speed is not 0, which no
    sequence of actions leads to.
   */
  lemma {:induction false} RewindLoopEnds(speed: int)
    requires speed < 1
    ensures (exists n: nat :: EndsAfter(speed, n)) <==> speed != 0
    ensures Proper(speed) ==> speed != 0
  {
    if speed == 0 {
      forall n: nat ensures !EndsAfter(0, n) {
        HalvingZero(n);
      }
      ProperCases(0);
    } else {
      var n := HalvingReachesOne(-speed);
      assert EndsAfter(speed, n);
    }
  }

  lemma {:induction false} OnlyPower(m: nat, n: nat)
    requires Pow2(m) <= Pow2(n) < 2 * Pow2(m)
    ensures m == n
  {
    if m < n {
      Monotone(m + 1, n);
    } else if n < m {
      Monotone(n, m - 1);
    }
  }

  lemma {:induction false} Split(size: int, p: int)
    ensures size * p == (size / 2) * (2 * p) + (size % 2) * p
  {
    var q, r := size / 2, size % 2;
    assert size == 2 * q + r;
    assert (2 * q + r) * p == 2 * q * p + r * p;
  }

  lemma {:induction false} Monotone(m: nat, n: nat)
    requires m <= n
    ensures Pow2(m) <= Pow2(n)
    decreases n - m
  {
    if m < n {
      Monotone(m, n - 1);
    }
  }
}
