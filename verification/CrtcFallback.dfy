/**
  When the search is used as a last resort, it should connect every output that has
  a mode whenever that is possible at all.  It does so exactly up to 1000 outputs.
 */
module CrtcFallback {
  import opened Options
  import opened CrtcSearch

  /** A feasible assignment that leaves no enabled output without a CRTC. */
  predicate Full(rows: seq<Row>, a: Assignment) {
    && |a| == |rows|
    && Feasible(rows, a, 0)
    && forall k :: 0 <= k < |a| && rows[k].enabled ==> a[k].Some?
  }

  function Enabled(rows: seq<Row>, i: nat): nat
    requires i <= |rows|
    decreases |rows| - i
  {
    if i == |rows| then 0 else (if rows[i].enabled then 1 else 0) + Enabled(rows, i + 1)
  }

  /** How many outputs the assignment connects from output i on. */
  function Connected(a: Assignment, i: nat): nat
    requires i <= |a|
    decreases |a| - i
  {
    if i == |a| then 0 else (if a[i].Some? then 1 else 0) + Connected(a, i + 1)
  }

  lemma {:induction false} ScoreCountsConnections(rows: seq<Row>, a: Assignment, i: nat)
    requires |a| == |rows| && i <= |a|
    ensures 1000 * Connected(a, i) <= Score(rows, a, i) <= 1001 * Connected(a, i)
    decreases |a| - i
  {
    if i < |a| {
      ScoreCountsConnections(rows, a, i + 1);
    }
  }

  /** Only enabled outputs are connected, so all of them are exactly when the counts agree. */
  lemma {:induction false} ConnectedUpToEnabled(rows: seq<Row>, a: Assignment, i: nat)
    requires |a| == |rows| && i <= |a| && Feasible(rows, a, i)
    ensures Connected(a, i) <= Enabled(rows, i)
    ensures Connected(a, i) == Enabled(rows, i) <==> forall k :: i <= k < |a| && rows[k].enabled ==> a[k].Some?
    decreases |a| - i
  {
    if i < |a| {
      ConnectedUpToEnabled(rows, a, i + 1);
      assert a[i].Some? ==> Allowed(rows, a[..i], a[i].value);
    }
  }

  /**
    With at most 1000 enabled outputs, the search ends with every enabled output
    connected if and only if some feasible assignment does so.
   */
  lemma {:induction false} FallbackIsComplete(rows: seq<Row>)
    requires Enabled(rows, 0) <= 1000
    ensures Full(rows, Best(rows, []).crtcs) <==> exists a :: Full(rows, a)
  {
    var best := Best(rows, []);
    BestIsSound(rows, []);
    assert [] + best.crtcs == best.crtcs;
    if a :| Full(rows, a) {
      BestIsMaximal(rows, [], a);
      ScoreCountsConnections(rows, a, 0);
      ScoreCountsConnections(rows, best.crtcs, 0);
      ConnectedUpToEnabled(rows, a, 0);
      ConnectedUpToEnabled(rows, best.crtcs, 0);
    }
  }

  /** How many outputs, from output i on, have the CRTC they had before. */
  function Kept(rows: seq<Row>, a: Assignment, i: nat): nat
    requires |a| == |rows| && i <= |a|
    decreases |a| - i
  {
    if i == |a| then 0 else (if a[i].Some? && a[i] == rows[i].current then 1 else 0) + Kept(rows, a, i + 1)
  }

  /** Every connection counts 1000, and every one that is kept counts one more. */
  lemma {:induction false} ScoreIsLexicographic(rows: seq<Row>, a: Assignment, i: nat)
    requires |a| == |rows| && i <= |a|
    ensures Score(rows, a, i) == 1000 * Connected(a, i) + Kept(rows, a, i)
    ensures Kept(rows, a, i) <= Connected(a, i)
    decreases |a| - i
  {
    if i < |a| {
      ScoreIsLexicographic(rows, a, i + 1);
    }
  }

  /**
    With at most 1000 enabled outputs, no feasible assignment connects more outputs than
    the search does, and none that connects as many lets more of them keep their CRTC.
   */
  lemma {:induction false} BestKeepsMost(rows: seq<Row>, a: Assignment)
    requires Enabled(rows, 0) <= 1000 && |a| == |rows| && Feasible(rows, a, 0)
    ensures var best := Best(rows, []).crtcs;
            && |best| == |rows| && Connected(a, 0) <= Connected(best, 0)
            && (Connected(a, 0) == Connected(best, 0) ==> Kept(rows, a, 0) <= Kept(rows, best, 0))
  {
    var best := Best(rows, []);
    BestIsSound(rows, []);
    assert [] + best.crtcs == best.crtcs;
    BestIsMaximal(rows, [], a);
    ScoreIsLexicographic(rows, a, 0);
    ScoreIsLexicographic(rows, best.crtcs, 0);
    ConnectedUpToEnabled(rows, a, 0);
    ConnectedUpToEnabled(rows, best.crtcs, 0);
  }

  /**
    n outputs in a chain: each but the last lists the CRTC it already has and the
    next one, and the last lists only the first CRTC.
   */
  function Chain(n: nat): (rows: seq<Row>)
    requires n > 0
    ensures |rows| == n
  {
    seq(n, i requires 0 <= i < n =>
      if i < n - 1 then Row(true, i, [], [i, i + 1], {i, i + 1}, Some(i)) else Row(true, i, [], [0], {0}, None))
  }

  /** Everyone moves to the next CRTC, which frees the first one for the last output. */
  function Shifted(n: nat): (a: Assignment)
    requires n > 0
    ensures |a| == n
  {
    seq(n, i requires 0 <= i < n => if i < n - 1 then Some(i + 1) else Some(0))
  }

  /** Everyone stays, and the last output stays dark. */
  function Unmoved(n: nat): (a: Assignment)
    requires n > 0
    ensures |a| == n
  {
    seq(n, i requires 0 <= i < n => if i < n - 1 then Some(i) else None)
  }

  lemma {:induction false} ChainScores(n: nat, i: nat)
    requires 0 < n && i <= n
    ensures Enabled(Chain(n), i) == n - i
    ensures Score(Chain(n), Shifted(n), i) == 1000 * (n - i)
    ensures i < n ==> Score(Chain(n), Unmoved(n), i) == 1001 * (n - 1 - i)
    decreases n - i
  {
    if i < n {
      ChainScores(n, i + 1);
    }
  }

  lemma {:induction false} ChainIsFeasible(n: nat)
    requires 1 < n
    ensures Full(Chain(n), Shifted(n)) && Feasible(Chain(n), Unmoved(n), 0)
  {
    var rows, a, b := Chain(n), Shifted(n), Unmoved(n);
    forall k | 0 <= k < n ensures Allowed(rows, a[..k], a[k].value) {
    }
    forall k | 0 <= k < n - 1 ensures Allowed(rows, b[..k], b[k].value) {
    }
  }

  /** Connecting everyone is possible only by moving everyone. */
  lemma {:induction false} FullChainIsShifted(n: nat, a: Assignment, i: nat)
    requires 1 < n && Full(Chain(n), a) && i < n
    ensures a[i] == Shifted(n)[i]
    decreases i
  {
    var rows := Chain(n);
    assert Allowed(rows, a[..i], a[i].value) && Allowed(rows, a[..n - 1], a[n - 1].value);
    if i == 0 {
      assert a[..n - 1][0] == a[0];
    } else {
      FullChainIsShifted(n, a, i - 1);
      assert a[..i][i - 1] == a[i - 1];
    }
  }

  lemma {:induction false} FullChainScore(n: nat, a: Assignment)
    requires 1 < n && Full(Chain(n), a)
    ensures a == Shifted(n) && Score(Chain(n), a, 0) == 1000 * n
  {
    forall i | 0 <= i < n ensures a[i] == Shifted(n)[i] {
      FullChainIsShifted(n, a, i);
    }
    assert a == Shifted(n);
    ChainScores(n, 0);
  }

  /**
    From 1001 outputs on, keeping enough connections outweighs connecting one more:
    on the chain the search leaves an output dark although all can be connected.
   */
  lemma {:induction false} FallbackMissesChain(n: nat)
    requires n >= 1001
    ensures Enabled(Chain(n), 0) == n
    ensures Full(Chain(n), Shifted(n)) && !Full(Chain(n), Best(Chain(n), []).crtcs)
  {
    var rows := Chain(n);
    ChainScores(n, 0);
    ChainScores(n, 1);
    ChainIsFeasible(n);
    var rest := Best(rows, [] + [None]);
    var off := Plan(rest.score, [None] + rest.crtcs);
    var stay := Try(rows, [], 0, off);
    assert stay.score >= 1001 * (n - 1) by {
      assert Allowed(rows, [], 0);
      BestIsMaximal(rows, [Some(0)], Unmoved(n));
      assert [] + [Some(0)] == [Some(0)];
    }
    var best := Best(rows, []);
    assert best == Try(rows, [], 1, stay) by {
      assert rows[0].enabled && rows[0].listed == [0, 1] && [0, 1][1..] == [1] && [1][1..] == [];
      assert best == Improve(rows, [], [0, 1], off);
      assert Improve(rows, [], [0, 1], off) == Improve(rows, [], [1], stay);
      assert Improve(rows, [], [1], stay) == Improve(rows, [], [], Try(rows, [], 1, stay));
    }
    if Full(rows, best.crtcs) {
      BestIsSound(rows, []);
      assert [] + best.crtcs == best.crtcs;
      FullChainScore(n, best.crtcs);
    }
  }

  /** The exact bound: the search is complete for every set of n enabled outputs if and only if n is at most 1000. */
  lemma {:induction false} FallbackCompleteUpTo1000(n: nat)
    ensures (forall rows :: Enabled(rows, 0) == n ==> (Full(rows, Best(rows, []).crtcs) <==> exists a :: Full(rows, a)))
       <==> n <= 1000
  {
    if n <= 1000 {
      forall rows | Enabled(rows, 0) == n
        ensures Full(rows, Best(rows, []).crtcs) <==> exists a :: Full(rows, a)
      {
        FallbackIsComplete(rows);
      }
    } else {
      FallbackMissesChain(n);
    }
  }
}
