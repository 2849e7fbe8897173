/** Sums of weights over a list; with a weight that is 0 or 1 they count. */
module Counting {
  function Sum<T>(s: seq<T>, weight: T -> nat): nat {
    if s == [] then 0 else weight(s[0]) + Sum(s[1..], weight)
  }

  function Erase<T>(s: seq<T>, i: nat): (r: seq<T>)
    requires i < |s|
  {
    s[..i] + s[i + 1..]
  }

  lemma {:induction false} SumOfConcat<T>(a: seq<T>, b: seq<T>, weight: T -> nat)
    ensures Sum(a + b, weight) == Sum(a, weight) + Sum(b, weight)
  {
    if a == [] {
      assert a + b == b;
    } else {
      assert (a + b)[1..] == a[1..] + b;
      SumOfConcat(a[1..], b, weight);
    }
  }

  lemma {:induction false} SumOfOne<T>(x: T, weight: T -> nat)
    ensures Sum([x], weight) == weight(x)
  {
    assert [x][1..] == [];
  }

  lemma {:induction false} SumOfAppend<T>(s: seq<T>, x: T, weight: T -> nat)
    ensures Sum(s + [x], weight) == Sum(s, weight) + weight(x)
  {
    SumOfConcat(s, [x], weight);
    SumOfOne(x, weight);
  }

  lemma {:induction false} SumOfErase<T>(s: seq<T>, i: nat, weight: T -> nat)
    requires i < |s|
    ensures Sum(s, weight) == Sum(Erase(s, i), weight) + weight(s[i])
  {
    assert s == s[..i] + s[i..] && s[i..][1..] == s[i + 1..];
    SumOfConcat(s[..i], s[i..], weight);
    SumOfConcat(s[..i], s[i + 1..], weight);
  }

  lemma {:induction false} SumOfUpdate<T>(s: seq<T>, i: nat, x: T, weight: T -> nat)
    requires i < |s|
    ensures Sum(s[i := x], weight) + weight(s[i]) == Sum(s, weight) + weight(x)
  {
    SumOfErase(s, i, weight);
    SumOfErase(s[i := x], i, weight);
    assert Erase(s[i := x], i) == Erase(s, i);
  }

  lemma {:induction false} SumOfAbsent<T>(s: seq<T>, weight: T -> nat)
    requires forall k :: 0 <= k < |s| ==> weight(s[k]) == 0
    ensures Sum(s, weight) == 0
  {
    if s != [] {
      SumOfAbsent(s[1..], weight);
    }
  }

  lemma {:induction false} SumOfLess<T(!new)>(s: seq<T>, less: T -> nat, more: T -> nat)
    requires forall x :: less(x) <= more(x)
    ensures Sum(s, less) <= Sum(s, more)
  {
    if s != [] {
      SumOfLess(s[1..], less, more);
    }
  }

  lemma {:induction false} SumOfPresent<T>(s: seq<T>, i: nat, weight: T -> nat)
    requires i < |s|
    ensures Sum(s, weight) >= weight(s[i])
    ensures forall j :: 0 <= j < |s| && j != i ==> Sum(s, weight) >= weight(s[i]) + weight(s[j])
  {
    SumOfErase(s, i, weight);
    forall j | 0 <= j < |s| && j != i ensures Sum(s, weight) >= weight(s[i]) + weight(s[j]) {
      var rest, k := Erase(s, i), if j < i then j else j - 1;
      assert rest[k] == s[j];
      SumOfErase(rest, k, weight);
    }
  }
}
