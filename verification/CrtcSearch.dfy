/**
  The search for the best mapping from outputs to CRTCs, on values.  Best follows
  the recursion of the program step for step; the lemmas compare it with the
  exhaustive maximum over every feasible assignment.
 */
module CrtcSearch {
  import opened Options

  /**
    One output as the search sees it: whether it has a mode, the CRTCs it lists in
    order, those of them whose state it may join, and the one it had before.
   */
  datatype Row = Row(enabled: bool, xid: nat, clones: seq<nat>, listed: seq<nat>, fitting: set<nat>,
    current: Option<nat>)

  type Assignment = seq<Option<nat>>

  datatype Plan = Plan(score: nat, crtcs: Assignment)

  /** Output |before| may take CRTC c when the earlier outputs have the CRTCs in before. */
  predicate Allowed(rows: seq<Row>, before: Assignment, c: nat)
    requires |before| < |rows|
  {
    var row := rows[|before|];
    && row.enabled && c in row.listed && c in row.fitting
    && forall j :: 0 <= j < |before| && before[j] == Some(c) && rows[j].enabled ==> rows[j].xid in row.clones
  }

  /** From output i on, every CRTC handed out is allowed by the ones handed out before it. */
  predicate Feasible(rows: seq<Row>, a: Assignment, i: nat)
    requires |a| == |rows|
  {
    forall k :: i <= k < |a| && a[k].Some? ==> Allowed(rows, a[..k], a[k].value)
  }

  /** 1000 for a connected output, and one more when it keeps the CRTC it had. */
  function Gain(row: Row, c: Option<nat>): nat {
    if c.None? then 0 else if c == row.current then 1001 else 1000
  }

  function Score(rows: seq<Row>, a: Assignment, i: nat): nat
    requires |a| == |rows| && i <= |a|
    decreases |a| - i
  {
    if i == |a| then 0 else Gain(rows[i], a[i]) + Score(rows, a, i + 1)
  }

  /** The plan the recursion reaches for the outputs from |before| on. */
  function Best(rows: seq<Row>, before: Assignment): Plan
    requires |before| <= |rows|
    decreases |rows| - |before|, 0
  {
    if |before| == |rows| then Plan(0, [])
    else
      var rest := Best(rows, before + [None]);
      var off := Plan(rest.score, [None] + rest.crtcs);
      if rows[|before|].enabled then Improve(rows, before, rows[|before|].listed, off) else off
  }

  /** The plan kept after trying the given candidates for output |before| in order. */
  function Improve(rows: seq<Row>, before: Assignment, candidates: seq<nat>, best: Plan): Plan
    requires |before| < |rows|
    decreases |rows| - |before| - 1, |candidates| + 1
  {
    if candidates == [] then best
    else Improve(rows, before, candidates[1..], Try(rows, before, candidates[0], best))
  }

  /** Trying one candidate replaces the plan only when it scores strictly more. */
  function Try(rows: seq<Row>, before: Assignment, c: nat, best: Plan): Plan
    requires |before| < |rows|
    decreases |rows| - |before| - 1, 1
  {
    if !Allowed(rows, before, c) then best
    else
      var rest := Best(rows, before + [Some(c)]);
      var score := Gain(rows[|before|], Some(c)) + rest.score;
      if score > best.score then Plan(score, [Some(c)] + rest.crtcs) else best
  }

  /** The plan is feasible after before and scores what it says. */
  predicate Sound(rows: seq<Row>, before: Assignment, plan: Plan)
    requires |before| <= |rows|
  {
    && |plan.crtcs| == |rows| - |before|
    && Feasible(rows, before + plan.crtcs, |before|)
    && Score(rows, before + plan.crtcs, |before|) == plan.score
  }

  /** The plan the search reaches is feasible and achieves the score it reports. */
  lemma {:induction false} BestIsSound(rows: seq<Row>, before: Assignment)
    requires |before| <= |rows|
    ensures Sound(rows, before, Best(rows, before))
    decreases |rows| - |before|, 0
  {
    if |before| < |rows| {
      BestIsSound(rows, before + [None]);
      var rest := Best(rows, before + [None]);
      SoundStep(rows, before, None, rest);
      if rows[|before|].enabled {
        ImproveIsSound(rows, before, rows[|before|].listed, Plan(rest.score, [None] + rest.crtcs));
      }
    }
  }

  lemma {:induction false} ImproveIsSound(rows: seq<Row>, before: Assignment, candidates: seq<nat>, best: Plan)
    requires |before| < |rows| && Sound(rows, before, best)
    ensures Sound(rows, before, Improve(rows, before, candidates, best))
    decreases |rows| - |before| - 1, |candidates| + 1
  {
    if candidates != [] {
      var c := candidates[0];
      if Allowed(rows, before, c) {
        BestIsSound(rows, before + [Some(c)]);
        SoundStep(rows, before, Some(c), Best(rows, before + [Some(c)]));
      }
      ImproveIsSound(rows, before, candidates[1..], Try(rows, before, c, best));
    }
  }

  lemma {:induction false} SoundStep(rows: seq<Row>, before: Assignment, c: Option<nat>, rest: Plan)
    requires |before| < |rows| && Sound(rows, before + [c], rest)
    requires c.Some? ==> Allowed(rows, before, c.value)
    ensures Sound(rows, before, Plan(Gain(rows[|before|], c) + rest.score, [c] + rest.crtcs))
  {
    var a := before + [c] + rest.crtcs;
    assert a == before + ([c] + rest.crtcs);
    assert a[..|before|] == before;
  }

  /** No feasible way to complete before scores more than the plan the search reaches. */
  lemma {:induction false} BestIsMaximal(rows: seq<Row>, before: Assignment, a: Assignment)
    requires |before| <= |rows| == |a| && before <= a
    requires Feasible(rows, a, |before|)
    ensures Score(rows, a, |before|) <= Best(rows, before).score
    decreases |rows| - |before|
  {
    var i := |before|;
    if i < |rows| {
      assert before == a[..i];
      assert a[..i + 1] == before + [a[i]];
      BestIsMaximal(rows, before + [a[i]], a);
      var rest := Best(rows, before + [None]);
      var off := Plan(rest.score, [None] + rest.crtcs);
      if rows[i].enabled {
        ImproveIsMaximal(rows, before, rows[i].listed, off);
      }
    }
  }

  lemma {:induction false} ImproveIsMaximal(rows: seq<Row>, before: Assignment, candidates: seq<nat>, best: Plan)
    requires |before| < |rows|
    ensures best.score <= Improve(rows, before, candidates, best).score
    ensures forall c :: c in candidates && Allowed(rows, before, c) ==>
      Gain(rows[|before|], Some(c)) + Best(rows, before + [Some(c)]).score <=
        Improve(rows, before, candidates, best).score
    decreases |candidates|
  {
    if candidates != [] {
      ImproveIsMaximal(rows, before, candidates[1..], Try(rows, before, candidates[0], best));
    }
  }

  /** The place of a choice in the order in which output row's choices are tried: off first, then the list. */
  function Rank(row: Row, c: Option<nat>): (r: nat)
    requires c.Some? ==> c.value in row.listed
    ensures if c.None? then r == 0
            else 0 < r <= |row.listed| && row.listed[r - 1] == c.value && c.value !in row.listed[..r - 1]
  {
    if c.None? then 0 else 1 + First(row.listed, (d: nat) => d == c.value)
  }

  /** Up to output k, where a makes the choice that is tried earlier, the assignments agree. */
  predicate EarlierAt(rows: seq<Row>, a: Assignment, b: Assignment, k: nat)
    requires |a| == |b| == |rows|
  {
    && k < |a| && a[..k] == b[..k]
    && (a[k].Some? ==> a[k].value in rows[k].listed) && (b[k].Some? ==> b[k].value in rows[k].listed)
    && Rank(rows[k], a[k]) < Rank(rows[k], b[k])
  }

  ghost predicate Earlier(rows: seq<Row>, a: Assignment, b: Assignment)
    requires |a| == |b| == |rows|
  {
    exists k: nat :: EarlierAt(rows, a, b, k)
  }

  /** What a choice for output |before| is worth with the best rest. */
  function Worth(rows: seq<Row>, before: Assignment, c: Option<nat>): nat
    requires |before| < |rows|
  {
    Gain(rows[|before|], c) + Best(rows, before + [c]).score
  }

  /** The plan that makes the choice and follows the best rest. */
  function Choosing(rows: seq<Row>, before: Assignment, c: Option<nat>): Plan
    requires |before| < |rows|
  {
    Plan(Worth(rows, before, c), [c] + Best(rows, before + [c]).crtcs)
  }

  /** The candidate at k is the first that is worth as much as the plan, which is more than what best scores. */
  predicate FirstBest(rows: seq<Row>, before: Assignment, candidates: seq<nat>, best: Plan, plan: Plan, k: nat)
    requires |before| < |rows|
  {
    && k < |candidates| && Allowed(rows, before, candidates[k])
    && plan == Choosing(rows, before, Some(candidates[k])) && plan.score > best.score
    && forall j :: 0 <= j < k && Allowed(rows, before, candidates[j]) ==>
         Worth(rows, before, Some(candidates[j])) < plan.score
  }

  /** The loop keeps what it started with, or ends with the first candidate that is worth most. */
  lemma {:induction false} ImproveIsFirst(rows: seq<Row>, before: Assignment, candidates: seq<nat>, best: Plan)
    requires |before| < |rows|
    ensures var plan := Improve(rows, before, candidates, best);
            plan == best || exists k: nat :: FirstBest(rows, before, candidates, best, plan, k)
    decreases |candidates|
  {
    if candidates != [] {
      var c, rest := candidates[0], candidates[1..];
      var tried := Try(rows, before, c, best);
      var plan := Improve(rows, before, candidates, best);
      ImproveIsFirst(rows, before, rest, tried);
      ImproveIsMaximal(rows, before, rest, tried);
      if plan == tried {
        assert tried != best ==> FirstBest(rows, before, candidates, best, plan, 0);
      } else {
        var k: nat :| FirstBest(rows, before, rest, tried, plan, k);
        assert FirstBest(rows, before, candidates, best, plan, k + 1);
      }
    }
  }

  /** The choice the search makes for an output comes before every other one that is worth as much. */
  lemma {:induction false} ChoiceIsFirst(rows: seq<Row>, before: Assignment, c: Option<nat>)
    requires |before| < |rows| && (c.Some? ==> Allowed(rows, before, c.value))
    requires Worth(rows, before, c) >= Best(rows, before).score
    ensures var best := Best(rows, before);
            && best.crtcs != [] && best == Choosing(rows, before, best.crtcs[0])
            && (best.crtcs[0].Some? ==> best.crtcs[0].value in rows[|before|].listed)
            && (c != best.crtcs[0] ==> Rank(rows[|before|], best.crtcs[0]) < Rank(rows[|before|], c))
  {
    var row, best, off := rows[|before|], Best(rows, before), Choosing(rows, before, None);
    if row.enabled {
      assert best == Improve(rows, before, row.listed, off);
      ImproveIsFirst(rows, before, row.listed, off);
      ImproveIsMaximal(rows, before, row.listed, off);
      if best != off {
        var k: nat :| FirstBest(rows, before, row.listed, off, best, k);
        assert best.crtcs[0] == Some(row.listed[k]);
        if c.Some? && c != best.crtcs[0] {
          var m := Rank(row, c) - 1;
          assert k < m;
        }
      }
    }
  }

  /**
    The result is determined: among all feasible ways to complete before with the highest
    score, the search ends with the one that is tried first.
   */
  lemma {:induction false} BestIsFirst(rows: seq<Row>, before: Assignment, a: Assignment)
    requires |before| <= |rows| == |a| && before <= a && Feasible(rows, a, |before|)
    requires Score(rows, a, |before|) == Best(rows, before).score
    ensures var best := before + Best(rows, before).crtcs;
            |best| == |a| && (a == best || Earlier(rows, best, a))
    decreases |rows| - |before|
  {
    BestIsSound(rows, before);
    var i := |before|;
    if i < |rows| {
      var best := before + Best(rows, before).crtcs;
      assert before == a[..i] && a[..i + 1] == before + [a[i]];
      BestIsMaximal(rows, before + [a[i]], a);
      ChoiceIsFirst(rows, before, a[i]);
      if a[i] == best[i] {
        var rest := Best(rows, before + [a[i]]);
        assert Best(rows, before).crtcs == [a[i]] + rest.crtcs;
        assert before + ([a[i]] + rest.crtcs) == before + [a[i]] + rest.crtcs;
        BestIsFirst(rows, before + [a[i]], a);
      } else {
        assert best[..i] == before;
        assert EarlierAt(rows, best, a, i);
      }
    } else {
      assert a == before + Best(rows, before).crtcs;
    }
  }
}
