/** Shared vocabulary: optional values, sums over sequences, and suffixes. */
module Basics {

  datatype Option<+T> = None | Some(value: T)

  /** The sum of `f` over `s`. With a 0/1-valued `f` this counts elements. */
  ghost function Sum<T>(s: seq<T>, f: T -> nat): nat
  {
    if s == [] then 0 else Sum(s[..|s| - 1], f) + f(s[|s| - 1])
  }

  lemma SumAppend<T>(s: seq<T>, x: T, f: T -> nat)
    ensures Sum(s + [x], f) == Sum(s, f) + f(x)
  {
    assert (s + [x])[..|s|] == s;
  }

  lemma {:induction false} SumConcat<T>(s: seq<T>, t: seq<T>, f: T -> nat)
    ensures Sum(s + t, f) == Sum(s, f) + Sum(t, f)
  {
    if t == [] {
      assert s + t == s;
    } else {
      var front, last := t[..|t| - 1], t[|t| - 1];
      SumConcat(s, front, f);
      SumAppend(s + front, last, f);
      assert s + t == (s + front) + [last];
    }
  }

  lemma {:induction false} SumUpdate<T>(s: seq<T>, i: nat, x: T, f: T -> nat)
    requires i < |s|
    ensures Sum(s[i := x], f) + f(s[i]) == Sum(s, f) + f(x)
  {
    var n := |s| - 1;
    if i == n {
      assert s[i := x][..n] == s[..n];
    } else {
      assert s[i := x][..n] == s[..n][i := x];
      SumUpdate(s[..n], i, x, f);
    }
  }

  lemma {:induction false} SumZero<T>(s: seq<T>, f: T -> nat)
    requires forall i :: 0 <= i < |s| ==> f(s[i]) == 0
    ensures Sum(s, f) == 0
  {
    if s != [] {
      SumZero(s[..|s| - 1], f);
    }
  }

  lemma {:induction false} SumSame<T>(s: seq<T>, t: seq<T>, f: T -> nat)
    requires |s| == |t| && forall i :: 0 <= i < |s| ==> f(s[i]) == f(t[i])
    ensures Sum(s, f) == Sum(t, f)
  {
    if s != [] {
      SumSame(s[..|s| - 1], t[..|t| - 1], f);
    }
  }

  lemma {:induction false} SumAtMost<T>(s: seq<T>, t: seq<T>, f: T -> nat, g: T -> nat)
    requires |s| == |t| && forall i :: 0 <= i < |s| ==> g(t[i]) <= f(s[i])
    ensures Sum(t, g) <= Sum(s, f)
  {
    if s != [] {
      SumAtMost(s[..|s| - 1], t[..|t| - 1], f, g);
    }
  }

  /** Two functions that agree on the elements have one sum. */
  lemma SumAgree<T>(s: seq<T>, f: T -> nat, g: T -> nat)
    requires forall i :: 0 <= i < |s| ==> f(s[i]) == g(s[i])
    ensures Sum(s, f) == Sum(s, g)
  {
    SumAtMost(s, s, f, g);
    SumAtMost(s, s, g, f);
  }

  lemma {:induction false} SumBelow<T>(s: seq<T>, t: seq<T>, f: T -> nat, g: T -> nat, k: nat)
    requires |s| == |t| && forall i :: 0 <= i < |s| ==> g(t[i]) <= f(s[i])
    requires k < |s| && g(t[k]) < f(s[k])
    ensures Sum(t, g) < Sum(s, f)
  {
    if k == |s| - 1 {
      SumAtMost(s[..|s| - 1], t[..|t| - 1], f, g);
    } else {
      SumBelow(s[..|s| - 1], t[..|t| - 1], f, g, k);
    }
  }

  /** One element's share never exceeds the sum. */
  lemma {:induction false} SumAtLeast<T>(s: seq<T>, i: nat, f: T -> nat)
    requires i < |s|
    ensures f(s[i]) <= Sum(s, f)
  {
    if i < |s| - 1 {
      SumAtLeast(s[..|s| - 1], i, f);
    }
  }

  /** The index of the first element satisfying `p`. */
  function FindFirst<T>(s: seq<T>, p: T -> bool): (r: Option<nat>)
    ensures r.Some? ==> r.value < |s| && p(s[r.value]) && forall i :: 0 <= i < r.value ==> !p(s[i])
    ensures r.None? ==> forall i :: 0 <= i < |s| ==> !p(s[i])
  {
    if s == [] then None
    else
      var n := |s| - 1;
      var before := FindFirst(s[..n], p);
      if before.Some? then before else if p(s[n]) then Some(n) else None
  }

  lemma Associative<T>(a: seq<T>, b: seq<T>, c: seq<T>)
    ensures a + b + c == a + (b + c)
  {
  }

  /** The last `n` elements, or all of them when there are fewer. */
  function LastN<T>(s: seq<T>, n: nat): seq<T>
  {
    if |s| <= n then s else s[|s| - n..]
  }
}
