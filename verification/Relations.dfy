/**
  Relative positions, on values: one pass over the outputs, and what repeating it
  leads to.  A pass places every related output whose reference is already placed.
 */
module Relations {
  import opened Options
  import opened Display

  predicate Enabled(o: Output) { o.mode.Some? }

  predicate Related(o: Output) { ChangeRelation in o.changes }

  predicate Placed(o: Output) { ChangePosition in o.changes }

  /** An output the pass has to place. */
  predicate Placing(o: Output) { Related(o) && Enabled(o) }

  /** For every output the one it is placed relative to, or |outs| when there is none of that name. */
  function References(outs: seq<Output>): (refs: seq<nat>)
    ensures |refs| == |outs|
  {
    seq(|outs|, i requires 0 <= i < |outs| => FindOutputByName(outs, outs[i].relativeTo))
  }

  /** Every output to be placed names an existing output. */
  predicate Resolved(refs: seq<nat>, outs: seq<Output>) {
    |refs| == |outs| && forall i :: 0 <= i < |outs| && Placing(outs[i]) ==> refs[i] < |outs|
  }

  /** Where o belongs when it is to lie beside (or on) the enabled output r. */
  function BesideX(o: Output, r: Output): int
    requires Enabled(o) && Enabled(r)
  {
    match o.relation
    case LeftOf => r.x - ModeWidth(o.mode.value, o.rotation)
    case RightOf => r.x + ModeWidth(r.mode.value, r.rotation)
    case _ => r.x
  }

  function BesideY(o: Output, r: Output): int
    requires Enabled(o) && Enabled(r)
  {
    match o.relation
    case Above => r.y - ModeHeight(o.mode.value, o.rotation)
    case Below => r.y + ModeHeight(r.mode.value, r.rotation)
    case _ => r.y
  }

  /** Output i lies where its relation says; relative to a disabled output that is the origin. */
  predicate InPlace(refs: seq<nat>, outs: seq<Output>, i: nat)
    requires i < |outs| == |refs| && Enabled(outs[i]) && refs[i] < |outs|
  {
    var r := outs[refs[i]];
    if Enabled(r) then outs[i].x == BesideX(outs[i], r) && outs[i].y == BesideY(outs[i], r)
    else outs[i].x == 0 && outs[i].y == 0
  }

  /** The reference of output i is disabled, unrelated or placed, so that i can be placed now. */
  predicate Ready(refs: seq<nat>, outs: seq<Output>, i: nat)
    requires i < |outs| == |refs| && refs[i] < |outs|
  {
    var r := outs[refs[i]];
    !Enabled(r) || !Related(r) || Placed(r)
  }

  function Put(o: Output, x: int, y: int): Output {
    o.(x := x, y := y, changes := o.changes + {ChangePosition})
  }

  /** The outputs after output i was visited. */
  function Visit(refs: seq<nat>, outs: seq<Output>, i: nat): (r: seq<Output>)
    requires i < |outs| && Resolved(refs, outs)
    ensures |r| == |outs|
  {
    if !Placing(outs[i]) || !Ready(refs, outs, i) then outs
    else
      var r := outs[refs[i]];
      if Enabled(r) then outs[i := Put(outs[i], BesideX(outs[i], r), BesideY(outs[i], r))]
      else outs[i := Put(outs[i], 0, 0)]
  }

  datatype Pass = Pass(outs: seq<Output>, anySet: bool, keepGoing: bool)

  /** The rest of a pass from output i on. */
  function PassFrom(refs: seq<nat>, outs: seq<Output>, i: nat, anySet: bool, keepGoing: bool): (pass: Pass)
    requires i <= |outs| && Resolved(refs, outs)
    ensures |pass.outs| == |outs|
    decreases |outs| - i
  {
    if i == |outs| then Pass(outs, anySet, keepGoing)
    else
      VisitFacts(refs, outs, i);
      PassFrom(refs, Visit(refs, outs, i), i + 1,
               anySet || (Placing(outs[i]) && Ready(refs, outs, i)),
               keepGoing || (Placing(outs[i]) && !Ready(refs, outs, i)))
  }

  function OnePass(refs: seq<nat>, outs: seq<Output>): Pass
    requires Resolved(refs, outs)
  {
    PassFrom(refs, outs, 0, false, false)
  }

  /** What a pass leaves alone: only outputs to be placed change, and only by being put somewhere. */
  predicate OnlyPuts(outs: seq<Output>, outs': seq<Output>) {
    && |outs'| == |outs|
    && forall k :: 0 <= k < |outs| ==>
         outs'[k] == outs[k] || (Placing(outs[k]) && outs'[k] == Put(outs[k], outs'[k].x, outs'[k].y))
  }

  lemma {:induction false} OnlyPutsFacts(refs: seq<nat>, outs: seq<Output>, outs': seq<Output>)
    requires OnlyPuts(outs, outs')
    ensures Resolved(refs, outs') == Resolved(refs, outs)
    ensures forall k :: 0 <= k < |outs| ==>
      && Placing(outs'[k]) == Placing(outs[k]) && Related(outs'[k]) == Related(outs[k])
      && Enabled(outs'[k]) == Enabled(outs[k]) && (Placed(outs[k]) ==> Placed(outs'[k]))
  {
  }

  lemma {:induction false} VisitFacts(refs: seq<nat>, outs: seq<Output>, i: nat)
    requires i < |outs| && Resolved(refs, outs)
    ensures OnlyPuts(outs, Visit(refs, outs, i)) && Resolved(refs, Visit(refs, outs, i))
  {
    OnlyPutsFacts(refs, outs, Visit(refs, outs, i));
  }

  lemma {:induction false} PutsCompose(a: seq<Output>, b: seq<Output>, c: seq<Output>)
    requires OnlyPuts(a, b) && OnlyPuts(b, c)
    ensures OnlyPuts(a, c)
  {
    forall k | 0 <= k < |a| ensures c[k] == a[k] || (Placing(a[k]) && c[k] == Put(a[k], c[k].x, c[k].y)) {
    }
  }

  lemma {:induction false} PassFacts(refs: seq<nat>, outs: seq<Output>, i: nat, anySet: bool, keepGoing: bool)
    requires i <= |outs| && Resolved(refs, outs)
    ensures var pass := PassFrom(refs, outs, i, anySet, keepGoing);
            OnlyPuts(outs, pass.outs) && Resolved(refs, pass.outs) && (anySet ==> pass.anySet)
              && (keepGoing ==> pass.keepGoing)
    decreases |outs| - i
  {
    if i < |outs| {
      var next := Visit(refs, outs, i);
      VisitFacts(refs, outs, i);
      PassFacts(refs, next, i + 1, anySet || (Placing(outs[i]) && Ready(refs, outs, i)),
                keepGoing || (Placing(outs[i]) && !Ready(refs, outs, i)));
      PutsCompose(outs, next, PassFrom(refs, outs, i, anySet, keepGoing).outs);
    }
  }

  /** The outputs after n passes. */
  function After(refs: seq<nat>, outs: seq<Output>, n: nat): (r: seq<Output>)
    requires Resolved(refs, outs)
    ensures Resolved(refs, r) && OnlyPuts(outs, r)
    decreases n
  {
    if n == 0 then outs
    else
      var before := After(refs, outs, n - 1);
      PassFacts(refs, before, 0, false, false);
      OnePass(refs, before).outs
  }

  /** The pass after n others asks for no further pass. */
  predicate Quiet(refs: seq<nat>, outs: seq<Output>, n: nat)
    requires Resolved(refs, outs)
  {
    !OnePass(refs, After(refs, outs, n)).keepGoing
  }

  /**
    Following the references from output i, at most k of them, leads to one that is
    disabled, unrelated or placed from the start.
   */
  predicate GroundedIn(refs: seq<nat>, outs: seq<Output>, i: nat, k: nat)
    requires i < |outs| == |refs|
    decreases k
  {
    && k > 0 && Placing(outs[i]) && refs[i] < |outs|
    && (Ready(refs, outs, i) || GroundedIn(refs, outs, refs[i], k - 1))
  }

  ghost predicate Grounded(refs: seq<nat>, outs: seq<Output>, i: nat)
    requires i < |outs| == |refs|
  {
    exists k: nat :: GroundedIn(refs, outs, i, k)
  }

  /** An output to be placed whose references run into a cycle. */
  ghost predicate Stuck(refs: seq<nat>, outs: seq<Output>, i: nat)
    requires i < |outs| == |refs|
  {
    Placing(outs[i]) && !Grounded(refs, outs, i)
  }

  ghost predicate AnyGrounded(refs: seq<nat>, outs: seq<Output>)
    requires |refs| == |outs|
  {
    exists i :: 0 <= i < |outs| && Grounded(refs, outs, i)
  }

  ghost predicate AnyStuck(refs: seq<nat>, outs: seq<Output>)
    requires |refs| == |outs|
  {
    exists i :: 0 <= i < |outs| && Stuck(refs, outs, i)
  }

  /** No related output was given an explicit position as well. */
  predicate NoPresets(outs: seq<Output>) {
    forall i :: 0 <= i < |outs| && Placing(outs[i]) ==> !Placed(outs[i])
  }

  /** Being grounded is passed on along the references. */
  lemma {:induction false} GroundedTarget(refs: seq<nat>, outs: seq<Output>, i: nat)
    requires i < |outs| == |refs| && Placing(outs[i]) && refs[i] < |outs|
    ensures Grounded(refs, outs, i) <==> Ready(refs, outs, i) || Grounded(refs, outs, refs[i])
  {
    if Ready(refs, outs, i) {
      assert GroundedIn(refs, outs, i, 1);
    } else if k: nat :| GroundedIn(refs, outs, i, k) {
      assert GroundedIn(refs, outs, refs[i], k - 1);
    }
    if k: nat :| GroundedIn(refs, outs, refs[i], k) {
      assert GroundedIn(refs, outs, i, k + 1);
    }
  }

  /** The n-th reference from output i on. */
  function Follow(refs: seq<nat>, i: nat, n: nat): nat {
    if n == 0 then i else var j := Follow(refs, i, n - 1); if j < |refs| then refs[j] else j
  }

  /** An output that is still to be placed. */
  predicate Waits(outs: seq<Output>, i: nat) { i < |outs| && Placing(outs[i]) && !Placed(outs[i]) }

  /** After n references from output i on one is back at i, and all on the way are still to be placed. */
  predicate Circle(refs: seq<nat>, outs: seq<Output>, i: nat, n: nat) {
    n > 0 && Follow(refs, i, n) == i && forall m: nat :: m < n ==> Waits(outs, Follow(refs, i, m))
  }

  /** Something is stuck exactly when references run in a circle. */
  lemma {:induction false} StuckMeansCircle(refs: seq<nat>, outs: seq<Output>)
    requires Resolved(refs, outs)
    ensures AnyStuck(refs, outs) <==> exists i: nat, n: nat :: Circle(refs, outs, i, n)
  {
    if i :| 0 <= i < |outs| && Stuck(refs, outs, i) {
      StuckRunsInCircle(refs, outs, i);
    }
    if i: nat, n: nat :| Circle(refs, outs, i, n) {
      assert Waits(outs, Follow(refs, i, 0));
      if k: nat :| GroundedIn(refs, outs, i, k) {
        CircleNotGrounded(refs, outs, i, n, 0, k);
      }
      assert Stuck(refs, outs, i);
    }
  }

  /** All that a stuck output leads to is still to be placed. */
  lemma {:induction false} StuckWaits(refs: seq<nat>, outs: seq<Output>, i: nat, n: nat)
    requires Resolved(refs, outs) && i < |outs| && Stuck(refs, outs, i)
    ensures Follow(refs, i, n) < |outs| && Stuck(refs, outs, Follow(refs, i, n))
    ensures n > 0 ==> Waits(outs, Follow(refs, i, n))
    decreases n
  {
    if n > 0 {
      StuckWaits(refs, outs, i, n - 1);
      GroundedTarget(refs, outs, Follow(refs, i, n - 1));
    }
  }

  lemma {:induction false} StuckRunsInCircle(refs: seq<nat>, outs: seq<Output>, i: nat)
    requires Resolved(refs, outs) && i < |outs| && Stuck(refs, outs, i)
    ensures exists j: nat, n: nat :: Circle(refs, outs, j, n)
  {
    var way := seq(|outs| + 1, m requires 0 <= m => Follow(refs, i, m + 1));
    forall m | 0 <= m < |way| ensures way[m] < |outs| {
      StuckWaits(refs, outs, i, m + 1);
    }
    var a, b := Repeats(way, |outs|);
    var j, n := way[a], b - a;
    forall m: nat ensures Follow(refs, j, m) == Follow(refs, i, a + 1 + m) && Waits(outs, Follow(refs, j, m)) {
      FollowOn(refs, i, a + 1, m);
      StuckWaits(refs, outs, i, a + 1 + m);
    }
    assert Circle(refs, outs, j, n);
  }

  lemma {:induction false} FollowOn(refs: seq<nat>, i: nat, m: nat, n: nat)
    ensures Follow(refs, Follow(refs, i, m), n) == Follow(refs, i, m + n)
    decreases n
  {
    if n > 0 {
      FollowOn(refs, i, m, n - 1);
    }
  }

  /** More than n numbers below n: one of them occurs twice. */
  lemma {:induction false} Repeats(s: seq<nat>, n: nat) returns (a: nat, b: nat)
    requires |s| > n && forall k :: 0 <= k < |s| ==> s[k] < n
    ensures a < b < |s| && s[a] == s[b]
    decreases n
  {
    var last := |s| - 1;
    if k :| 0 <= k < last && s[k] == s[last] {
      return k, last;
    }
    var t := seq(last, k requires 0 <= k < last => if s[k] > s[last] then s[k] - 1 else s[k]);
    a, b := Repeats(t, n - 1);
  }

  lemma {:induction false} CircleNotGrounded(refs: seq<nat>, outs: seq<Output>, i: nat, n: nat, m: nat, k: nat)
    requires |refs| == |outs| && Circle(refs, outs, i, n) && m < n && Follow(refs, i, m) < |outs|
    ensures !GroundedIn(refs, outs, Follow(refs, i, m), k)
    decreases k
  {
    var j := Follow(refs, i, m);
    if GroundedIn(refs, outs, j, k) {
      var next := if m + 1 < n then m + 1 else 0;
      assert Follow(refs, i, next) == refs[j] && Waits(outs, Follow(refs, i, next));
      CircleNotGrounded(refs, outs, i, n, next, k - 1);
    }
  }

  /** A reference to itself is never grounded, unless the output is placed from the start. */
  lemma {:induction false} SelfReferenceNotGrounded(refs: seq<nat>, outs: seq<Output>, i: nat, k: nat)
    requires i < |outs| == |refs| && refs[i] == i && GroundedIn(refs, outs, i, k)
    ensures Placed(outs[i])
    decreases k
  {
    if !Ready(refs, outs, i) {
      SelfReferenceNotGrounded(refs, outs, i, k - 1);
    }
  }

  /** Reached from start: only outputs that are grounded have been placed. */
  ghost predicate Reached(refs: seq<nat>, start: seq<Output>, outs: seq<Output>)
    requires |refs| == |start|
  {
    && OnlyPuts(start, outs)
    && forall k :: 0 <= k < |outs| && Placing(outs[k]) && Placed(outs[k]) ==>
          Placed(start[k]) || Grounded(refs, start, k)
  }

  /** Whatever is placed lies where its relation says, and so does what it refers to. */
  predicate Laid(refs: seq<nat>, outs: seq<Output>)
    requires |refs| == |outs|
  {
    forall k :: 0 <= k < |outs| && Placing(outs[k]) && Placed(outs[k]) ==>
      refs[k] < |outs| && Ready(refs, outs, k) && InPlace(refs, outs, k)
  }

  lemma {:induction false} VisitReached(refs: seq<nat>, start: seq<Output>, outs: seq<Output>, i: nat)
    requires Resolved(refs, start) && Resolved(refs, outs) && Reached(refs, start, outs) && i < |outs|
    ensures Reached(refs, start, Visit(refs, outs, i))
  {
    OnlyPutsFacts(refs, start, outs);
    OnlyPutsFacts(refs, outs, Visit(refs, outs, i));
    if Placing(outs[i]) && Ready(refs, outs, i) {
      GroundedTarget(refs, start, i);
    }
  }

  /** Visiting an output that is already placed changes nothing; placing a new one moves nothing that was placed. */
  lemma {:induction false} VisitLaid(refs: seq<nat>, outs: seq<Output>, i: nat)
    requires Resolved(refs, outs) && Laid(refs, outs) && i < |outs|
    ensures Laid(refs, Visit(refs, outs, i))
    ensures Placing(outs[i]) && Placed(outs[i]) ==> Visit(refs, outs, i) == outs
  {
    var next := Visit(refs, outs, i);
    OnlyPutsFacts(refs, outs, next);
    if Placing(outs[i]) && Placed(outs[i]) {
      assert next[i] == outs[i];
      assert next == outs;
    } else if Placing(outs[i]) && Ready(refs, outs, i) {
      forall k | 0 <= k < |next| && Placing(next[k]) && Placed(next[k])
        ensures Ready(refs, next, k) && InPlace(refs, next, k)
      {
        assert refs[k] != i;
      }
    }
  }

  lemma {:induction false} PassReached(refs: seq<nat>, start: seq<Output>, outs: seq<Output>, i: nat, anySet: bool,
                                       keepGoing: bool)
    requires Resolved(refs, start) && Resolved(refs, outs) && Reached(refs, start, outs) && i <= |outs|
    ensures Reached(refs, start, PassFrom(refs, outs, i, anySet, keepGoing).outs)
    decreases |outs| - i
  {
    if i < |outs| {
      VisitReached(refs, start, outs, i);
      VisitFacts(refs, outs, i);
      PassReached(refs, start, Visit(refs, outs, i), i + 1, anySet || (Placing(outs[i]) && Ready(refs, outs, i)),
                  keepGoing || (Placing(outs[i]) && !Ready(refs, outs, i)));
    }
  }

  lemma {:induction false} PassLaid(refs: seq<nat>, outs: seq<Output>, i: nat, anySet: bool, keepGoing: bool)
    requires Resolved(refs, outs) && Laid(refs, outs) && i <= |outs|
    ensures Laid(refs, PassFrom(refs, outs, i, anySet, keepGoing).outs)
    decreases |outs| - i
  {
    if i < |outs| {
      VisitLaid(refs, outs, i);
      VisitFacts(refs, outs, i);
      PassLaid(refs, Visit(refs, outs, i), i + 1, anySet || (Placing(outs[i]) && Ready(refs, outs, i)),
               keepGoing || (Placing(outs[i]) && !Ready(refs, outs, i)));
    }
  }

  /** An output that can be placed when the pass starts is placed when it ends. */
  lemma {:induction false} ReadyGetsPlaced(refs: seq<nat>, outs: seq<Output>, i: nat, anySet: bool, keepGoing: bool,
                                           v: nat)
    requires Resolved(refs, outs) && i <= v < |outs| && Placing(outs[v]) && Ready(refs, outs, v)
    ensures Placed(PassFrom(refs, outs, i, anySet, keepGoing).outs[v])
      && PassFrom(refs, outs, i, anySet, keepGoing).anySet
    decreases |outs| - i
  {
    var next := Visit(refs, outs, i);
    VisitFacts(refs, outs, i);
    OnlyPutsFacts(refs, outs, next);
    if i < v {
      ReadyGetsPlaced(refs, next, i + 1, anySet || (Placing(outs[i]) && Ready(refs, outs, i)),
                      keepGoing || (Placing(outs[i]) && !Ready(refs, outs, i)), v);
    } else {
      PassFacts(refs, next, i + 1, true, keepGoing);
      OnlyPutsFacts(refs, next, PassFrom(refs, next, i + 1, true, keepGoing).outs);
    }
  }

  /** A pass that asks for no further one has placed every output it had to place. */
  lemma {:induction false} QuietPlacesAll(refs: seq<nat>, outs: seq<Output>, i: nat, anySet: bool, keepGoing: bool)
    requires Resolved(refs, outs) && i <= |outs| && !PassFrom(refs, outs, i, anySet, keepGoing).keepGoing
    ensures forall k :: i <= k < |outs| && Placing(outs[k]) ==>
      Placed(PassFrom(refs, outs, i, anySet, keepGoing).outs[k])
    decreases |outs| - i
  {
    if i < |outs| {
      var next := Visit(refs, outs, i);
      var set' := anySet || (Placing(outs[i]) && Ready(refs, outs, i));
      var going := keepGoing || (Placing(outs[i]) && !Ready(refs, outs, i));
      VisitFacts(refs, outs, i);
      OnlyPutsFacts(refs, outs, next);
      PassFacts(refs, next, i + 1, set', going);
      QuietPlacesAll(refs, next, i + 1, set', going);
      OnlyPutsFacts(refs, next, PassFrom(refs, next, i + 1, set', going).outs);
    }
  }

  /** What a pass has walked past it does not touch again. */
  lemma {:induction false} PassKeepsEarlier(refs: seq<nat>, outs: seq<Output>, i: nat, anySet: bool, keepGoing: bool,
                                            j: nat)
    requires Resolved(refs, outs) && j < i <= |outs|
    ensures PassFrom(refs, outs, i, anySet, keepGoing).outs[j] == outs[j]
    decreases |outs| - i
  {
    if i < |outs| {
      VisitFacts(refs, outs, i);
      PassKeepsEarlier(refs, Visit(refs, outs, i), i + 1, anySet || (Placing(outs[i]) && Ready(refs, outs, i)),
                       keepGoing || (Placing(outs[i]) && !Ready(refs, outs, i)), j);
    }
  }

  /** The place of what output k refers to when a pass from outs to final visits k. */
  function SeenBy(refs: seq<nat>, outs: seq<Output>, final: seq<Output>, k: nat): Output
    requires k < |outs| == |refs| == |final| && refs[k] < |outs|
  {
    if refs[k] < k then final[refs[k]] else outs[refs[k]]
  }

  /** The last pass puts every output beside its reference, wherever that lies when the output is visited. */
  lemma {:induction false} PassPutsBeside(refs: seq<nat>, outs: seq<Output>, i: nat, anySet: bool, keepGoing: bool,
                                          k: nat)
    requires Resolved(refs, outs) && i <= k < |outs| && Placing(outs[k]) && Enabled(outs[refs[k]])
    requires !PassFrom(refs, outs, i, anySet, keepGoing).keepGoing
    ensures var final := PassFrom(refs, outs, i, anySet, keepGoing).outs;
            var r := SeenBy(refs, outs, final, k);
            Enabled(r) && final[k].x == BesideX(outs[k], r) && final[k].y == BesideY(outs[k], r)
    decreases k - i
  {
    var next := Visit(refs, outs, i);
    var set' := anySet || (Placing(outs[i]) && Ready(refs, outs, i));
    var going := keepGoing || (Placing(outs[i]) && !Ready(refs, outs, i));
    VisitFacts(refs, outs, i);
    if i < k {
      OnlyPutsFacts(refs, outs, next);
      PassPutsBeside(refs, next, i + 1, set', going, k);
      VisitMoves(refs, outs, i, k);
      VisitMoves(refs, outs, i, refs[k]);
    } else {
      PassFacts(refs, next, i + 1, set', going);
      PassKeepsEarlier(refs, next, i + 1, set', going, k);
      if refs[k] < k {
        PassKeepsEarlier(refs, outs, i, anySet, keepGoing, refs[k]);
      }
    }
  }

  /** A visit moves only the output visited, and changes no shape. */
  lemma {:induction false} VisitMoves(refs: seq<nat>, outs: seq<Output>, i: nat, j: nat)
    requires i < |outs| && j < |outs| && Resolved(refs, outs)
    ensures var o := Visit(refs, outs, i)[j];
            && (j != i ==> o == outs[j])
            && o.mode == outs[j].mode && o.rotation == outs[j].rotation && o.relation == outs[j].relation
  {
  }

  /** A stuck output is never ready, in whatever state the passes lead to. */
  lemma {:induction false} StuckIsNeverReady(refs: seq<nat>, start: seq<Output>, outs: seq<Output>, i: nat)
    requires Resolved(refs, start) && Reached(refs, start, outs) && i < |start| && Stuck(refs, start, i)
    ensures Resolved(refs, outs) && Placing(outs[i]) && !Ready(refs, outs, i)
  {
    OnlyPutsFacts(refs, start, outs);
    GroundedTarget(refs, start, i);
  }

  lemma {:induction false} StuckKeepsGoing(refs: seq<nat>, start: seq<Output>, outs: seq<Output>, j: nat,
                                           anySet: bool, keepGoing: bool, i: nat)
    requires Resolved(refs, start) && Resolved(refs, outs) && Reached(refs, start, outs) && j <= i < |start|
      && Stuck(refs, start, i)
    ensures PassFrom(refs, outs, j, anySet, keepGoing).keepGoing
    decreases i - j
  {
    StuckIsNeverReady(refs, start, outs, i);
    var next := Visit(refs, outs, j);
    VisitFacts(refs, outs, j);
    if j < i {
      VisitReached(refs, start, outs, j);
      StuckKeepsGoing(refs, start, next, j + 1, anySet || (Placing(outs[j]) && Ready(refs, outs, j)),
                      keepGoing || (Placing(outs[j]) && !Ready(refs, outs, j)), i);
    } else {
      PassFacts(refs, next, j + 1, anySet || (Placing(outs[j]) && Ready(refs, outs, j)), true);
    }
  }

  /** Following references from a grounded output that is not placed ends at one that can be placed now. */
  lemma {:induction false} SomeReady(refs: seq<nat>, start: seq<Output>, outs: seq<Output>, u: nat, k: nat)
    returns (v: nat)
    requires Resolved(refs, start) && OnlyPuts(start, outs) && u < |start| && GroundedIn(refs, start, u, k)
      && !Placed(outs[u])
    ensures v < |outs| && Resolved(refs, outs) && Placing(outs[v]) && !Placed(outs[v]) && Ready(refs, outs, v)
    decreases k
  {
    OnlyPutsFacts(refs, start, outs);
    if Ready(refs, outs, u) {
      v := u;
    } else {
      v := SomeReady(refs, start, outs, refs[u], k - 1);
    }
  }

  /** How many outputs from i on still have to be placed. */
  function Unplaced(outs: seq<Output>, i: nat): nat
    requires i <= |outs|
    decreases |outs| - i
  {
    if i == |outs| then 0 else (if Placing(outs[i]) && !Placed(outs[i]) then 1 else 0) + Unplaced(outs, i + 1)
  }

  lemma {:induction false} UnplacedShrinks(outs: seq<Output>, outs': seq<Output>, i: nat, v: nat)
    requires OnlyPuts(outs, outs') && i <= |outs|
    ensures Unplaced(outs', i) <= Unplaced(outs, i)
    ensures i <= v < |outs| && Placing(outs[v]) && !Placed(outs[v]) && Placed(outs'[v]) ==>
      Unplaced(outs', i) < Unplaced(outs, i)
    decreases |outs| - i
  {
    if i < |outs| {
      UnplacedShrinks(outs, outs', i + 1, v);
    }
  }

  lemma {:induction false} UnplacedAtLeast(outs: seq<Output>, i: nat, u: nat)
    requires i <= u < |outs| && Placing(outs[u]) && !Placed(outs[u])
    ensures Unplaced(outs, i) >= 1
    ensures forall v :: i <= v < u && Placing(outs[v]) && !Placed(outs[v]) ==> Unplaced(outs, i) >= 2
    decreases u - i
  {
    if i < u {
      UnplacedAtLeast(outs, i + 1, u);
    }
  }

  /**
    A pass asks for another one only because of an output whose reference was not
    placed; in a laid-out state that output itself was not placed either.
   */
  lemma {:induction false} WaitingPair(refs: seq<nat>, outs: seq<Output>, i: nat, anySet: bool) returns (w: nat)
    requires Resolved(refs, outs) && i <= |outs| && PassFrom(refs, outs, i, anySet, false).keepGoing
    ensures w < |outs| && Placing(outs[w]) && Placing(outs[refs[w]]) && !Placed(outs[refs[w]])
    ensures Laid(refs, outs) ==> !Placed(outs[w])
    decreases |outs| - i
  {
    var next := Visit(refs, outs, i);
    VisitFacts(refs, outs, i);
    OnlyPutsFacts(refs, outs, next);
    if Placing(outs[i]) && !Ready(refs, outs, i) {
      w := i;
    } else {
      if Laid(refs, outs) {
        VisitLaid(refs, outs, i);
      }
      w := WaitingPair(refs, next, i + 1, anySet || (Placing(outs[i]) && Ready(refs, outs, i)));
    }
  }

  /** When nothing is stuck, a pass that asks for another one has placed at least one more output. */
  lemma {:induction false} PassProgress(refs: seq<nat>, start: seq<Output>, outs: seq<Output>)
    requires Resolved(refs, start) && !AnyStuck(refs, start) && Reached(refs, start, outs) && Resolved(refs, outs)
    ensures var pass := OnePass(refs, outs);
            Resolved(refs, pass.outs) && Reached(refs, start, pass.outs) &&
            (pass.keepGoing ==> pass.anySet && Unplaced(pass.outs, 0) < Unplaced(outs, 0))
    ensures OnePass(refs, outs).keepGoing && Laid(refs, outs) ==> Unplaced(outs, 0) >= 2
  {
    var pass := OnePass(refs, outs);
    PassReached(refs, start, outs, 0, false, false);
    PassFacts(refs, outs, 0, false, false);
    OnlyPutsFacts(refs, start, outs);
    if pass.keepGoing {
      var w := WaitingPair(refs, outs, 0, false);
      var t := refs[w];
      assert Grounded(refs, start, t) by { assert !Stuck(refs, start, t); }
      var k: nat :| GroundedIn(refs, start, t, k);
      var v := SomeReady(refs, start, outs, t, k);
      ReadyGetsPlaced(refs, outs, 0, false, false, v);
      UnplacedShrinks(outs, pass.outs, 0, v);
      if Laid(refs, outs) {
        if t == w {
          SelfReferenceNotGrounded(refs, start, t, k);
        }
        UnplacedAtLeast(outs, 0, w);
        UnplacedAtLeast(outs, 0, t);
      }
    }
  }

  /** Without a grounded output the first pass places nothing, and asks for another one if anything is to be placed. */
  lemma {:induction false} NothingGrounded(refs: seq<nat>, outs: seq<Output>, i: nat, keepGoing: bool)
    requires Resolved(refs, outs) && !AnyGrounded(refs, outs) && i <= |outs|
    ensures PassFrom(refs, outs, i, false, keepGoing) ==
            Pass(outs, false, keepGoing || exists k :: i <= k < |outs| && Placing(outs[k]))
    decreases |outs| - i
  {
    if i < |outs| {
      if Placing(outs[i]) {
        GroundedTarget(refs, outs, i);
        assert !Ready(refs, outs, i);
      }
      NothingGrounded(refs, outs, i + 1, keepGoing || Placing(outs[i]));
    }
  }

  lemma {:induction false} AfterReached(refs: seq<nat>, outs: seq<Output>, n: nat)
    requires Resolved(refs, outs)
    ensures Reached(refs, outs, After(refs, outs, n))
    decreases n
  {
    if n > 0 {
      AfterReached(refs, outs, n - 1);
      PassReached(refs, outs, After(refs, outs, n - 1), 0, false, false);
    }
  }

  /** When something is stuck and nothing grounded, the first pass shows it. */
  lemma {:induction false} LoopIsReported(refs: seq<nat>, outs: seq<Output>)
    requires Resolved(refs, outs) && AnyStuck(refs, outs) && !AnyGrounded(refs, outs)
    ensures OnePass(refs, outs) == Pass(outs, false, true)
  {
    NothingGrounded(refs, outs, 0, false);
  }

  /** After a pass that asks for no further one, everything is placed. */
  lemma {:induction false} QuietIsDone(refs: seq<nat>, outs: seq<Output>, n: nat)
    requires Resolved(refs, outs) && Quiet(refs, outs, n)
    ensures forall k :: 0 <= k < |outs| && Placing(outs[k]) ==> Placed(After(refs, outs, n + 1)[k])
  {
    var before := After(refs, outs, n);
    OnlyPutsFacts(refs, outs, before);
    QuietPlacesAll(refs, before, 0, false, false);
  }

  /**
    The loop check misses a cycle that stands next to a good relation: when one
    output is grounded and another one stuck, every pass places something and asks
    for another pass, so that the loop neither ends nor complains.
   */
  lemma {:induction false} EndlessWhenMixed(refs: seq<nat>, outs: seq<Output>, n: nat)
    requires Resolved(refs, outs) && AnyGrounded(refs, outs) && AnyStuck(refs, outs)
    ensures OnePass(refs, After(refs, outs, n)).keepGoing && OnePass(refs, After(refs, outs, n)).anySet
  {
    var now := After(refs, outs, n);
    AfterReached(refs, outs, n);
    OnlyPutsFacts(refs, outs, now);
    var i :| 0 <= i < |outs| && Stuck(refs, outs, i);
    StuckKeepsGoing(refs, outs, now, 0, false, false, i);
    var g :| 0 <= g < |outs| && Grounded(refs, outs, g);
    var k: nat :| GroundedIn(refs, outs, g, k);
    var v := AnyReady(refs, outs, g, k);
    ReadyGetsPlaced(refs, now, 0, false, false, v);
  }

  /** Why the check misses it: p is beside r, and q beside itself. */
  lemma {:induction false} LoopBesideRelation(p: Output, q: Output, r: Output)
    requires Placing(p) && !Placed(p) && Placing(q) && !Placed(q) && !Related(r)
    requires p.relativeTo == r.name && q.relativeTo == q.name
    requires p.name != q.name && q.name != r.name && p.name != r.name
    ensures var outs, refs := [p, q, r], [2, 1, References([p, q, r])[2]];
            && refs == References(outs) && Resolved(refs, outs) && AnyGrounded(refs, outs) && AnyStuck(refs, outs)
            && forall n: nat :: OnePass(refs, After(refs, outs, n)).keepGoing
                  && OnePass(refs, After(refs, outs, n)).anySet
  {
    var outs := [p, q, r];
    assert outs[0] == p && outs[1] == q && outs[2] == r;
    var refs := References(outs);
    assert refs == [2, 1, refs[2]];
    assert GroundedIn(refs, outs, 0, 1);
    if Grounded(refs, outs, 1) {
      var k: nat :| GroundedIn(refs, outs, 1, k);
      SelfReferenceNotGrounded(refs, outs, 1, k);
    }
    assert Stuck(refs, outs, 1) && Grounded(refs, outs, 0);
    forall n: nat ensures OnePass(refs, After(refs, outs, n)).keepGoing && OnePass(refs, After(refs, outs, n)).anySet {
      EndlessWhenMixed(refs, outs, n);
    }
  }

  lemma {:induction false} AnyReady(refs: seq<nat>, outs: seq<Output>, g: nat, k: nat) returns (v: nat)
    requires g < |outs| == |refs| && GroundedIn(refs, outs, g, k)
    ensures v < |outs| && Placing(outs[v]) && refs[v] < |outs| && Ready(refs, outs, v)
    decreases k
  {
    if Ready(refs, outs, g) {
      v := g;
    } else {
      v := AnyReady(refs, outs, refs[g], k - 1);
    }
  }

  /**
    The layout is the only one: two layouts of the same outputs in which all
    relations hold agree, when they agree on the outputs that are not to be placed.
   */
  lemma {:induction false} LayoutIsUnique(refs: seq<nat>, outs: seq<Output>, a: seq<Output>, b: seq<Output>, i: nat,
                                          k: nat)
    requires Resolved(refs, outs) && NoPresets(outs) && OnlyPuts(outs, a) && OnlyPuts(outs, b) && i < |outs|
      && GroundedIn(refs, outs, i, k)
    requires Resolved(refs, a) && forall j :: 0 <= j < |a| && Placing(a[j]) ==> InPlace(refs, a, j)
    requires Resolved(refs, b) && forall j :: 0 <= j < |b| && Placing(b[j]) ==> InPlace(refs, b, j)
    ensures a[i].x == b[i].x && a[i].y == b[i].y
    decreases k
  {
    OnlyPutsFacts(refs, outs, a);
    OnlyPutsFacts(refs, outs, b);
    if !Ready(refs, outs, i) {
      LayoutIsUnique(refs, outs, a, b, refs[i], k - 1);
    }
  }
}
