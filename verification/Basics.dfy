/** Small value types shared by the models. */
module Basics {

  datatype Option<+T> = None | Some(value: T)

  datatype Result<+T, +E> = Ok(value: T) | Err(error: E)

  function Min(a: int, b: int): int {
    if a <= b then a else b
  }

  /** No value occurs at two positions. */
  ghost predicate Distinct<T>(xs: seq<T>) {
    forall i, j :: 0 <= i < j < |xs| ==> xs[i] != xs[j]
  }

  /** How often a value occurs. */
  function Count<T(==)>(xs: seq<T>, x: T): nat {
    if xs == [] then 0 else (if xs[0] == x then 1 else 0) + Count(xs[1..], x)
  }

  lemma {:induction false} CountConcat<T>(a: seq<T>, b: seq<T>, x: T)
    ensures Count(a + b, x) == Count(a, x) + Count(b, x)
  {
    if a == [] {
      assert a + b == b;
    } else {
      assert (a + b)[1..] == a[1..] + b;
      CountConcat(a[1..], b, x);
    }
  }

  lemma CountOne<T>(y: T, x: T)
    ensures Count([y], x) == if y == x then 1 else 0
  {
    assert [y][1..] == [];
  }

  lemma {:induction false} CountMember<T>(xs: seq<T>, x: T)
    ensures Count(xs, x) > 0 <==> x in xs
    ensures Distinct(xs) ==> Count(xs, x) <= 1
  {
    if xs != [] {
      CountMember(xs[1..], x);
    }
  }

  lemma {:induction false} CountSplit<T>(xs: seq<T>, k: nat, x: T)
    requires k < |xs|
    ensures Count(xs[k..], x) == (if xs[k] == x then 1 else 0) + Count(xs[k + 1..], x)
  {
    assert xs[k..][1..] == xs[k + 1..];
  }

  lemma DistinctConcat<T>(a: seq<T>, b: seq<T>)
    requires Distinct(a) && Distinct(b) && forall x | x in a :: x !in b
    ensures Distinct(a + b)
  {
    forall i, j | 0 <= i < j < |a + b| ensures (a + b)[i] != (a + b)[j] {
      if i < |a| <= j {
        assert (a + b)[i] in a && (a + b)[j] in b;
      }
    }
  }

  /** The elements that satisfy `p`, in order. */
  function Filter<T>(xs: seq<T>, p: T -> bool): seq<T> {
    if xs == [] then []
    else Filter(xs[..|xs| - 1], p) + if p(xs[|xs| - 1]) then [xs[|xs| - 1]] else []
  }

  /** `ys` are the elements of `xs` that satisfy `p`, and `at` is where they stand, in increasing order. */
  ghost predicate Selects<T>(xs: seq<T>, p: T -> bool, at: seq<nat>, ys: seq<T>) {
    && |ys| == |at|
    && (forall i, j :: 0 <= i < j < |at| ==> at[i] < at[j])
    && (forall j :: 0 <= j < |at| ==> at[j] < |xs| && p(xs[at[j]]) && ys[j] == xs[at[j]])
    && (forall i :: 0 <= i < |xs| && p(xs[i]) ==> i in at)
  }

  lemma SelectsNext<T>(xs: seq<T>, p: T -> bool, at: seq<nat>, ys: seq<T>, x: T)
    requires Selects(xs, p, at, ys)
    ensures p(x) ==> Selects(xs + [x], p, at + [|xs|], ys + [x])
    ensures !p(x) ==> Selects(xs + [x], p, at, ys)
  {
    forall i | 0 <= i < |xs + [x]| && p((xs + [x])[i]) && p(x) ensures i in at + [|xs|] {
      if i == |xs| {
        assert (at + [|xs|])[|at|] == i;
      } else {
        assert i in at;
      }
    }
  }

  /** Filtering picks out exactly the elements that satisfy `p`, in order. */
  lemma {:induction false} FilterSelects<T>(xs: seq<T>, p: T -> bool) returns (at: seq<nat>)
    ensures Selects(xs, p, at, Filter(xs, p))
  {
    at := [];
    if xs != [] {
      hide Selects;
      var init, x := xs[..|xs| - 1], xs[|xs| - 1];
      at := FilterSelects(init, p);
      SelectsNext(init, p, at, Filter(init, p), x);
      assert init + [x] == xs;
      if p(x) {
        at := at + [|init|];
      } else {
        assert Filter(init, p) + [] == Filter(init, p);
      }
    }
  }

  lemma {:induction false} FilterNone<T>(xs: seq<T>, p: T -> bool)
    ensures Filter(xs, p) == [] <==> forall i :: 0 <= i < |xs| ==> !p(xs[i])
  {
    if xs != [] {
      FilterNone(xs[..|xs| - 1], p);
    }
  }

  /** The distinct elements, each where it first occurs. */
  function Dedup<T(==)>(xs: seq<T>): seq<T> {
    if xs == [] then []
    else
      var init := Dedup(xs[..|xs| - 1]);
      if xs[|xs| - 1] in init then init else init + [xs[|xs| - 1]]
  }

  lemma NoDedup<T>()
    ensures Dedup<T>([]) == []
  {
  }

  lemma DedupNext<T>(xs: seq<T>, x: T)
    ensures Dedup(xs + [x]) == if x in Dedup(xs) then Dedup(xs) else Dedup(xs) + [x]
  {
    assert (xs + [x])[..|xs|] == xs;
  }

  lemma {:induction false} DedupMembers<T>(xs: seq<T>)
    ensures forall i :: 0 <= i < |xs| ==> xs[i] in Dedup(xs)
    ensures forall i :: 0 <= i < |Dedup(xs)| ==> Dedup(xs)[i] in xs
    ensures Distinct(Dedup(xs))
  {
    if xs != [] {
      var init := xs[..|xs| - 1];
      DedupMembers(init);
      assert xs == init + [xs[|xs| - 1]];
    }
  }

  /** Results gathered by index: every goroutine stores its answer in its own slot, so the order in which they complete
      does not matter. */
  method Gather<R>(n: nat, completion: seq<nat>, zero: R, answer: nat -> R) returns (results: seq<R>)
    requires forall i :: 0 <= i < |completion| ==> completion[i] < n
    requires forall i: nat | i < n :: i in completion
    ensures |results| == n && forall i :: 0 <= i < n ==> results[i] == answer(i)
  {
    var slots := new R[n](_ => zero);
    for k := 0 to |completion|
      invariant forall i :: 0 <= i < k ==> slots[completion[i]] == answer(completion[i])
    {
      slots[completion[k]] := answer(completion[k]);
    }
    results := slots[..];
    forall i | 0 <= i < n ensures results[i] == answer(i) {
      assert i in completion;
      var k :| 0 <= k < |completion| && completion[k] == i;
    }
  }
}
