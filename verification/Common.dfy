/** Small shared datatypes and sequence helpers. */
module Common {
  datatype Option<+T> = None | Some(value: T)

  predicate NoRepeats<T(==)>(s: seq<T>) {
    forall i, j :: 0 <= i < j < |s| ==> s[i] != s[j]
  }

  /** `s` with every later repetition of an element dropped: a JavaScript `Set` filled in order. */
  function Distinct<T(==)>(s: seq<T>): seq<T> {
    if s == [] then [] else
      var rest := Distinct(s[..|s| - 1]);
      if s[|s| - 1] in rest then rest else rest + [s[|s| - 1]]
  }

  lemma {:induction false} DistinctReads<T(!new)>(s: seq<T>)
    ensures NoRepeats(Distinct(s))
    ensures forall x :: x in Distinct(s) <==> x in s
  {
    if s != [] {
      DistinctReads(s[..|s| - 1]);
      assert s == s[..|s| - 1] + [s[|s| - 1]];
    }
  }

  /** `at` are the places of `s` that hold something of `kept`, in order. */
  ghost predicate Picks<T>(s: seq<T>, kept: T -> bool, at: seq<nat>) {
    && (forall m, n :: 0 <= m < n < |at| ==> at[m] < at[n])
    && (forall n :: 0 <= n < |at| ==> at[n] < |s| && kept(s[at[n]]))
    && (forall i :: 0 <= i < |s| && kept(s[i]) ==> i in at)
  }

  /** `r` is what a filter of `s` by `kept` gives, each element read by `f`. */
  ghost predicate Filters<T, R>(s: seq<T>, kept: T -> bool, f: T -> R, r: seq<R>, at: seq<nat>) {
    Picks(s, kept, at) && |r| == |at| && forall n :: 0 <= n < |at| ==> r[n] == f(s[at[n]])
  }

  lemma PicksGrow<T>(s: seq<T>, x: T, kept: T -> bool, at: seq<nat>)
    requires Picks(s, kept, at)
    ensures Picks(s + [x], kept, if kept(x) then at + [|s|] else at)
  {
    var more := if kept(x) then at + [|s|] else at;
    forall i | 0 <= i < |s + [x]| && kept((s + [x])[i]) ensures i in more {
      if i < |s| { assert i in at; } else { assert more[|at|] == i; }
    }
  }

  lemma FiltersGrow<T, R>(s: seq<T>, x: T, kept: T -> bool, f: T -> R, r: seq<R>, at: seq<nat>) returns (more: seq<nat>)
    requires Filters(s, kept, f, r, at)
    ensures Filters(s + [x], kept, f, r + if kept(x) then [f(x)] else [], more)
  {
    PicksGrow(s, x, kept, at);
    more := if kept(x) then at + [|s|] else at;
    var longer := r + if kept(x) then [f(x)] else [];
    forall n | 0 <= n < |more| ensures longer[n] == f((s + [x])[more[n]]) {
      if n < |at| { assert more[n] == at[n] < |s|; }
    }
  }

  function MapSeq<T, R>(s: seq<T>, f: T -> R): (r: seq<R>)
    ensures |r| == |s| && forall i :: 0 <= i < |s| ==> r[i] == f(s[i])
  {
    seq(|s|, i requires 0 <= i < |s| => f(s[i]))
  }
}
