/**
  Seeking in a stack of files that plays as one: from a time in the whole to a part and
  an offset, and back.  Times are exact reals.
 */
module StackSeek {
  import opened Options

  /** Where a part begins: where the one before it ends. */
  function StartOf(ends: seq<int>, i: nat): int
    requires i <= |ends|
  {
    if i == 0 then 0 else ends[i - 1]
  }

  predicate NonDecreasing(ends: seq<int>) {
    forall i, j :: 0 <= i <= j < |ends| ==> ends[i] <= ends[j]
  }

  /** Seeking in the part that plays, in milliseconds; starting another part, in frames of 1/75 s; or past the end. */
  datatype Seek = NoSeek | SeekHere(milliseconds: int) | StartPart(part: nat, frames: int)
    | SeekPastEnd(milliseconds: int)

  /** The first part that ends after t. */
  function FindPart(ends: seq<int>, t: real): (i: nat)
    ensures i <= |ends|
    ensures i < |ends| ==> t < ends[i] as real
    ensures forall j :: 0 <= j < i ==> ends[j] as real <= t
  {
    if ends == [] || t < ends[0] as real then 0 else 1 + FindPart(ends[1..], t)
  }

  /** Part i is playing at time t. */
  predicate PlaysAt(ends: seq<int>, i: nat, t: real)
    requires i < |ends|
  {
    StartOf(ends, i) as real <= t < ends[i] as real
  }

  /** Every part ends its own whole seconds after the one before. */
  predicate EndsAfter(ends: seq<int>, durations: seq<nat>) {
    |ends| <= |durations| && forall j {:trigger StartOf(ends, j)} :: 0 <= j < |ends| ==>
      ends[j] == StartOf(ends, j) + durations[j] / 1000
  }

  lemma {:induction false} EndsDoNotDecrease(ends: seq<int>, durations: seq<nat>, i: nat, j: nat)
    requires EndsAfter(ends, durations) && i <= j < |ends|
    ensures ends[i] <= ends[j]
    decreases j - i
  {
    if i < j {
      assert ends[j] == StartOf(ends, j) + durations[j] / 1000;
      EndsDoNotDecrease(ends, durations, i, j - 1);
    }
  }

  /** The ends of the parts from their durations in milliseconds, each cut to whole seconds. */
  method StackTimes(durations: seq<nat>) returns (ends: seq<int>)
    ensures |ends| == |durations| && EndsAfter(ends, durations) && NonDecreasing(ends)
  {
    ends := [];
    var total := 0;
    for i := 0 to |durations|
      invariant |ends| == i && total == StartOf(ends, i) && EndsAfter(ends, durations)
    {
      total := total + durations[i] / 1000;
      ghost var before := ends;
      ends := ends + [total];
      forall j | 0 <= j <= i ensures ends[j] == StartOf(ends, j) + durations[j] / 1000 {
        assert StartOf(ends, j) == StartOf(before, j);
      }
    }
    forall i, j | 0 <= i <= j < |ends| ensures ends[i] <= ends[j] {
      EndsDoNotDecrease(ends, durations, i, j);
    }
  }

  /** The time in the whole while part i plays at the given millisecond. */
  function TimeAt(ends: seq<int>, i: nat, milliseconds: int): real
    requires i <= |ends|
  {
    StartOf(ends, i) as real + milliseconds as real * 0.001
  }

  /**
    With ends that do not decrease, the part found is the only one that plays at t; there is one
    exactly below the total.
   */
  lemma {:induction false} FindsTheOnlyPart(ends: seq<int>, t: real, i: nat)
    requires NonDecreasing(ends) && t >= 0.0 && i < |ends|
    ensures PlaysAt(ends, i, t) <==> FindPart(ends, t) == i
    ensures FindPart(ends, t) < |ends| <==> t < ends[|ends| - 1] as real
  {
    var f := FindPart(ends, t);
    if f < |ends| {
      assert ends[f] <= ends[|ends| - 1];
    }
    if f < i {
      assert ends[f] <= ends[i - 1];
    }
  }

  /** What a seek to t asks of the player while part position plays. */
  function SeekTo(ends: seq<int>, position: nat, t: real, canSeek: bool): Seek {
    var i := FindPart(ends, t);
    if t < 0.0 || !canSeek then NoSeek
    else if i == |ends| then SeekPastEnd((t * 1000.0).Floor)
    else if i == position then SeekHere(((t - StartOf(ends, i) as real) * 1000.0).Floor)
    else StartPart(i, ((t - StartOf(ends, i) as real) * 75.0).Floor)
  }

  /**
    A seek within the part that plays is asked for exactly when t lies there; the time read back
    is less than a millisecond short.
   */
  lemma {:induction false} SeekHereReadsBack(ends: seq<int>, position: nat, t: real, canSeek: bool)
    ensures var s := SeekTo(ends, position, t, canSeek);
            && (s.SeekHere? <==> canSeek && t >= 0.0 && position == FindPart(ends, t) < |ends|)
            && (s.SeekHere? ==>
                  && s.milliseconds >= 0 && position < |ends|
                  && t - 0.001 < TimeAt(ends, position, s.milliseconds) <= t)
  {
    var i := FindPart(ends, t);
    assert 0 < i ==> ends[i - 1] as real <= t;
  }

  /**
    Another part is started exactly when t lies there: the frames are turned into seconds,
    where the player starts, and it tells its time in whole milliseconds, cut off.  The time
    read back is less than a frame and a millisecond short.
   */
  lemma {:induction false} StartPartReadsBack(ends: seq<int>, position: nat, t: real, canSeek: bool)
    ensures var s := SeekTo(ends, position, t, canSeek);
            && (s.StartPart? <==> canSeek && t >= 0.0 && position != FindPart(ends, t) < |ends|)
            && (s.StartPart? ==>
                  var ms := (s.frames as real / 75.0 * 1000.0).Floor;
                  && s.part == FindPart(ends, t) < |ends| && ms >= 0
                  && t - 1.0 / 75.0 - 0.001 < TimeAt(ends, s.part, ms) <= t)
  {
    var i := FindPart(ends, t);
    assert 0 < i ==> ends[i - 1] as real <= t;
    if SeekTo(ends, position, t, canSeek).StartPart? {
      FramesReadBack(t - StartOf(ends, i) as real);
    }
  }

  lemma {:induction false} FramesReadBack(d: real)
    requires d >= 0.0
    ensures var ms := ((d * 75.0).Floor as real / 75.0 * 1000.0).Floor;
            ms >= 0 && d - 1.0 / 75.0 - 0.001 < ms as real * 0.001 <= d
  {
    var frames := (d * 75.0).Floor;
    assert d * 75.0 - 1.0 < frames as real <= d * 75.0;
    var s := frames as real / 75.0;
    assert s * 75.0 == frames as real;
    assert d - 1.0 / 75.0 < s <= d;
    var ms := (s * 1000.0).Floor;
    assert s * 1000.0 - 1.0 < ms as real <= s * 1000.0;
  }

  /** Past the end it is asked for the time itself, less than a millisecond short. */
  lemma {:induction false} SeekPastEndReadsBack(ends: seq<int>, position: nat, t: real, canSeek: bool)
    ensures var s := SeekTo(ends, position, t, canSeek);
            && (s.SeekPastEnd? <==> canSeek && t >= 0.0 && forall j :: 0 <= j < |ends| ==> ends[j] as real <= t)
            && (s.SeekPastEnd? ==> t - 0.001 < s.milliseconds as real * 0.001 <= t)
  {
    var i := FindPart(ends, t);
    assert i < |ends| ==> t < ends[i] as real;
  }

  /** A stack of files that is playing; a single file has no ends. */
  class Stack {
    var ends: seq<int>
    var position: nat

    constructor (ends: seq<int>)
      ensures this.ends == ends && position == 0
    {
      this.ends, position := ends, 0;
    }

    method SeekTime(t: real, canSeek: bool) returns (s: Seek)
      modifies `position
      ensures s == SeekTo(ends, old(position), t, canSeek)
      ensures position == if s.StartPart? then s.part else old(position)
    {
      if t < 0.0 || !canSeek {
        return NoSeek;
      }
      var i := 0;
      while i < |ends|
        invariant i <= |ends| && position == old(position)
        invariant forall j :: 0 <= j < i ==> ends[j] as real <= t
      {
        if ends[i] as real > t {
          var startOfNewFile := if i > 0 then ends[i - 1] else 0;
          if position == i {
            return SeekHere(((t - startOfNewFile as real) * 1000.0).Floor);
          } else {
            position := i;
            return StartPart(i, ((t - startOfNewFile as real) * 75.0).Floor);
          }
        }
        i := i + 1;
      }
      return SeekPastEnd((t * 1000.0).Floor);
    }

    /**
      Resuming a stack cuts the offset to whole seconds before it is turned into frames, so
      it is as exact as seeking only when the rest is less than a frame.
     */
    method Resume(seconds: real) returns (frames: int)
      modifies `position
      ensures seconds <= 0.0 || FindPart(ends, seconds) == |ends| ==> position == 0 && frames == 0
      ensures seconds > 0.0 && FindPart(ends, seconds) < |ends| ==>
        && position == FindPart(ends, seconds)
        && var start := StartOf(ends, position) as real;
           && seconds - 1.0 < start + frames as real / 75.0 <= seconds
           && (seconds - 1.0 / 75.0 < start + frames as real / 75.0 <==>
               (seconds - start) - (seconds - start).Floor as real < 1.0 / 75.0)
    {
      position := 0;
      if seconds > 0.0 {
        var i := 0;
        while i < |ends|
          invariant i <= |ends| && position == 0
          invariant forall j :: 0 <= j < i ==> ends[j] as real <= seconds
        {
          if seconds < ends[i] as real {
            var start := if i > 0 then ends[i - 1] else 0;
            var whole := (seconds - start as real).Floor;
            frames := whole * 75;
            assert frames as real / 75.0 == whole as real;
            position := i;
            return;
          }
          i := i + 1;
        }
      }
      return 0;
    }
  }
}
