/** Option and Result, the two failure-carrying datatypes the model uses for
    Python's `None` results and for the exceptions that end a run, and the
    loop that stops at the first exception. */
module Wrappers {

  datatype Option<+T> = None | Some(value: T)

  datatype Result<+T, +E> = Ok(value: T) | Err(error: E)

  /** The results in order, up to the first error, which ends the run. */
  function Collect<T, E>(os: seq<Result<T, E>>): Result<seq<T>, E>
    decreases |os|
  {
    if os == [] then Ok([])
    else
      var n := |os| - 1;
      match Collect(os[..n])
      case Err(e) => Err(e)
      case Ok(xs) => if os[n].Ok? then Ok(xs + [os[n].value]) else Err(os[n].error)
  }

  /** Collecting succeeds exactly when every result does, and then gives
      their values in order; otherwise it gives the first error. */
  lemma {:induction false} CollectMeaning<T, E>(os: seq<Result<T, E>>)
    ensures Collect(os).Ok? <==> forall i | 0 <= i < |os| :: os[i].Ok?
    ensures Collect(os).Ok? ==> |Collect(os).value| == |os|
    ensures Collect(os).Ok? ==> forall i | 0 <= i < |os| :: Collect(os).value[i] == os[i].value
    ensures Collect(os).Err? ==> exists i | 0 <= i < |os| ::
      (forall j | 0 <= j < i :: os[j].Ok?) && os[i].Err? && Collect(os).error == os[i].error
    decreases |os|
  {
    if os != [] {
      var n := |os| - 1;
      var pre := os[..n];
      CollectMeaning(pre);
      assert forall i | 0 <= i < n :: pre[i] == os[i];
      if Collect(pre).Err? {
        var i :| 0 <= i < n && (forall j | 0 <= j < i :: pre[j].Ok?) && pre[i].Err? && Collect(pre).error == pre[i].error;
        assert os[i].Err? && Collect(os).error == os[i].error;
      } else if os[n].Err? {
        assert Collect(os).error == os[n].error;
      } else {
        assert Collect(os).value == Collect(pre).value + [os[n].value];
      }
    }
  }

  /** Once a prefix fails, the rest is never looked at. */
  lemma {:induction false} CollectSticky<T, E>(os: seq<Result<T, E>>, k: nat)
    requires k <= |os| && Collect(os[..k]).Err?
    ensures Collect(os) == Collect(os[..k])
    decreases |os|
  {
    if k < |os| {
      var n := |os| - 1;
      assert os[..n][..k] == os[..k];
      CollectSticky(os[..n], k);
    } else {
      assert os[..k] == os;
    }
  }

  /** One more result: the run so far, extended by it. */
  lemma CollectStep<T, E>(os: seq<Result<T, E>>, i: nat)
    requires i < |os|
    ensures Collect(os[..i + 1]) ==
      match Collect(os[..i])
      case Err(e) => Err(e)
      case Ok(xs) => if os[i].Ok? then Ok(xs + [os[i].value]) else Err(os[i].error)
  {
    assert os[..i + 1][..i] == os[..i];
  }

  /** `f` applied pairwise to two sequences of the same length. */
  function Map2<A, B, R>(xs: seq<A>, ys: seq<B>, f: (A, B) -> R): (rs: seq<R>)
    requires |ys| == |xs|
    ensures |rs| == |xs|
    decreases |xs|
  {
    if |xs| == 0 then []
    else
      var n := |xs| - 1;
      Map2(xs[..n], ys[..n], f) + [f(xs[n], ys[n])]
  }

  lemma {:induction false} Map2At<A, B, R>(xs: seq<A>, ys: seq<B>, f: (A, B) -> R, i: nat)
    requires |ys| == |xs| && i < |xs|
    ensures Map2(xs, ys, f)[i] == f(xs[i], ys[i])
    decreases |xs|
  {
    var n := |xs| - 1;
    if i < n {
      Map2At(xs[..n], ys[..n], f, i);
    }
  }

  lemma {:induction false} Map2Prefix<A, B, R>(xs: seq<A>, ys: seq<B>, f: (A, B) -> R, k: nat)
    requires |ys| == |xs| && k <= |xs|
    ensures Map2(xs, ys, f)[..k] == Map2(xs[..k], ys[..k], f)
    decreases |xs|
  {
    if k < |xs| {
      var n := |xs| - 1;
      Map2Prefix(xs[..n], ys[..n], f, k);
      assert xs[..n][..k] == xs[..k] && ys[..n][..k] == ys[..k];
      assert Map2(xs, ys, f)[..k] == Map2(xs[..n], ys[..n], f)[..k];
    } else {
      assert xs[..k] == xs && ys[..k] == ys;
    }
  }

  /** Running `f` over one more element of `xs`, paired with `y`, succeeds
      with one more value or fails with that element's error; and once it
      fails, the later elements (paired with anything) are never looked at. */
  lemma Map2CollectStep<A, B, T, E>(xs: seq<A>, ys: seq<B>, y: B, f: (A, B) -> Result<T, E>, done: seq<T>,
                                    rest: seq<B>)
    requires |ys| < |xs| && |rest| == |xs| - |ys| - 1
    requires Collect(Map2(xs[..|ys|], ys, f)) == Ok(done)
    ensures f(xs[|ys|], y).Ok? ==>
      Collect(Map2(xs[..|ys| + 1], ys + [y], f)) == Ok(done + [f(xs[|ys|], y).value])
    ensures f(xs[|ys|], y).Err? ==>
      Collect(Map2(xs, ys + [y] + rest, f)) == Err(f(xs[|ys|], y).error)
  {
    var i, w, l := |ys|, xs[..|ys| + 1], ys + [y];
    assert w[..i] == xs[..i] && l[..i] == ys && w[i] == xs[i] && l[i] == y;
    var os := Map2(w, l, f);
    assert os == Map2(xs[..i], ys, f) + [f(xs[i], y)];
    assert os[..i] == Map2(xs[..i], ys, f);
    if f(xs[i], y).Err? {
      var all := l + rest;
      Map2Prefix(xs, all, f, i + 1);
      assert all[..i + 1] == l;
      CollectSticky(Map2(xs, all, f), i + 1);
    }
  }

  /** What a loop that an exception may end has done: the values of the
      steps that ran, in order, and the error that ended it, if one did. */
  datatype Partial<+T, +E> = Partial(done: seq<T>, failure: Option<E>)

  /** The steps in order, stopping at the first error, keeping the values
      of the steps before it. */
  function Steps<T, E>(os: seq<Result<T, E>>): Partial<T, E>
    decreases |os|
  {
    if os == [] then Partial([], None)
    else
      var n := |os| - 1;
      var pre := Steps(os[..n]);
      if pre.failure.Some? then pre
      else if os[n].Ok? then Partial(pre.done + [os[n].value], None)
      else Partial(pre.done, Some(os[n].error))
  }

  /** Collecting is running the steps to the end: it succeeds exactly when
      no step fails, with the values kept, and otherwise gives the error
      the run stopped on. */
  lemma {:induction false} CollectIsSteps<T, E>(os: seq<Result<T, E>>)
    ensures Collect(os).Ok? <==> Steps(os).failure.None?
    ensures Collect(os).Ok? ==> Collect(os).value == Steps(os).done
    ensures Collect(os).Err? ==> Steps(os).failure == Some(Collect(os).error)
    decreases |os|
  {
    if os != [] {
      CollectIsSteps(os[..|os| - 1]);
    }
  }

  /** The values kept are those of the steps before the first error, in
      order, and the run fails exactly when some step does, with the first
      such step's error. */
  lemma {:induction false} StepsMeaning<T, E>(os: seq<Result<T, E>>)
    ensures var r := Steps(os);
      && |r.done| <= |os|
      && (forall j | 0 <= j < |r.done| :: os[j] == Ok(r.done[j]))
      && (r.failure.None? <==> |r.done| == |os|)
      && (r.failure.Some? ==> os[|r.done|] == Err(r.failure.value))
    decreases |os|
  {
    if os != [] {
      var n := |os| - 1;
      StepsMeaning(os[..n]);
      assert forall j | 0 <= j < n :: os[..n][j] == os[j];
    }
  }

  /** Once a prefix fails, the later steps are never taken. */
  lemma {:induction false} StepsSticky<T, E>(os: seq<Result<T, E>>, k: nat)
    requires k <= |os| && Steps(os[..k]).failure.Some?
    ensures Steps(os) == Steps(os[..k])
    decreases |os|
  {
    if k < |os| {
      var n := |os| - 1;
      assert os[..n][..k] == os[..k];
      StepsSticky(os[..n], k);
    } else {
      assert os[..k] == os;
    }
  }

  /** One more step after a prefix that did not fail. */
  lemma StepsStep<T, E>(os: seq<Result<T, E>>, i: nat, done: seq<T>)
    requires i < |os| && Steps(os[..i]) == Partial(done, None)
    ensures Steps(os[..i + 1]) ==
      if os[i].Ok? then Partial(done + [os[i].value], None) else Partial(done, Some(os[i].error))
  {
    assert os[..i + 1][..i] == os[..i];
  }

  /** Runs one after another: each run's values after the previous runs',
      until a run fails. */
  function Chain<T, E>(ps: seq<Partial<T, E>>): Partial<T, E>
    decreases |ps|
  {
    if ps == [] then Partial([], None)
    else
      var n := |ps| - 1;
      var pre := Chain(ps[..n]);
      if pre.failure.Some? then pre
      else Partial(pre.done + ps[n].done, ps[n].failure)
  }

  /** Every run's values, one run after another. */
  function AllDone<T, E>(ps: seq<Partial<T, E>>): seq<T>
    decreases |ps|
  {
    if ps == [] then [] else AllDone(ps[..|ps| - 1]) + ps[|ps| - 1].done
  }

  /** The index of the first run that fails, or the number of runs when
      none does. */
  function FirstFailing<T, E>(ps: seq<Partial<T, E>>): (k: nat)
    ensures k <= |ps|
    ensures forall i | 0 <= i < k :: ps[i].failure.None?
    ensures k < |ps| ==> ps[k].failure.Some?
    decreases |ps|
  {
    if ps == [] then 0
    else
      var n := |ps| - 1;
      var k := FirstFailing(ps[..n]);
      assert forall i | 0 <= i < n :: ps[..n][i] == ps[i];
      if k < n then k
      else if ps[n].failure.Some? then n
      else |ps|
  }

  /** A chain keeps every complete run before the first failing one, then
      that run's own values, and fails with its error; with no failing run
      it keeps every run's values. */
  lemma {:induction false} ChainMeaning<T, E>(ps: seq<Partial<T, E>>)
    ensures var k := FirstFailing(ps); var r := Chain(ps);
      && (r.failure.None? <==> k == |ps|)
      && (k == |ps| ==> r.done == AllDone(ps))
      && (k < |ps| ==> r.done == AllDone(ps[..k]) + ps[k].done && r.failure == ps[k].failure)
    decreases |ps|
  {
    if ps != [] {
      var n := |ps| - 1;
      ChainMeaning(ps[..n]);
      var k := FirstFailing(ps[..n]);
      if k < n {
        assert ps[..n][..k] == ps[..k] && ps[..n][k] == ps[k];
      }
    }
  }

  /** Once a prefix of the runs fails, the later runs are never reached. */
  lemma {:induction false} ChainSticky<T, E>(ps: seq<Partial<T, E>>, k: nat)
    requires k <= |ps| && Chain(ps[..k]).failure.Some?
    ensures Chain(ps) == Chain(ps[..k])
    decreases |ps|
  {
    if k < |ps| {
      var n := |ps| - 1;
      assert ps[..n][..k] == ps[..k];
      ChainSticky(ps[..n], k);
    } else {
      assert ps[..k] == ps;
    }
  }

  /** One more run after a prefix that did not fail. */
  lemma ChainStep<T, E>(ps: seq<Partial<T, E>>, i: nat, done: seq<T>)
    requires i < |ps| && Chain(ps[..i]) == Partial(done, None)
    ensures Chain(ps[..i + 1]) == Partial(done + ps[i].done, ps[i].failure)
  {
    assert ps[..i + 1][..i] == ps[..i];
  }

  // ---------------------------------------------------------------------
  // How far a run gets
  // ---------------------------------------------------------------------

  /** How many elements a run reaches when it stops at the first element
      that fails `ok`: every one before it, and that one. */
  function Reach<T>(xs: seq<T>, ok: T -> bool): (k: nat)
    ensures k <= |xs| && (xs != [] ==> 0 < k)
    ensures k < |xs| ==> !ok(xs[k - 1])
  {
    if xs == [] then 0
    else if !ok(xs[0]) then 1
    else 1 + Reach(xs[1..], ok)
  }

  /** Every element before the last one reached succeeds. */
  lemma {:induction false} ReachPassed<T>(xs: seq<T>, ok: T -> bool)
    ensures forall j | 0 <= j < Reach(xs, ok) - 1 :: ok(xs[j])
  {
    if xs != [] && ok(xs[0]) {
      ReachPassed(xs[1..], ok);
      forall j | 0 <= j < Reach(xs, ok) - 1 ensures ok(xs[j]) {
        if j > 0 {
          assert xs[j] == xs[1..][j - 1];
        }
      }
    }
  }

  /** A run whose first failure is element `i` reaches `i + 1` elements. */
  lemma {:induction false} ReachAt<T>(xs: seq<T>, ok: T -> bool, i: nat)
    requires i < |xs| && !ok(xs[i])
    requires forall j | 0 <= j < i :: ok(xs[j])
    ensures Reach(xs, ok) == i + 1
  {
    if i > 0 {
      assert ok(xs[0]);
      ReachAt(xs[1..], ok, i - 1);
    }
  }

  /** A run reaches every element when none fails. */
  lemma ReachAll<T>(xs: seq<T>, ok: T -> bool)
    requires forall j | 0 <= j < |xs| :: ok(xs[j])
    ensures Reach(xs, ok) == |xs|
  {
  }

  /** A run over two groups goes on into the second only when the whole
      first group succeeds. */
  lemma {:induction false} ReachAppend<T>(xs: seq<T>, ys: seq<T>, ok: T -> bool)
    ensures (forall j | 0 <= j < |xs| :: ok(xs[j])) ==> Reach(xs + ys, ok) == |xs| + Reach(ys, ok)
    ensures !(forall j | 0 <= j < |xs| :: ok(xs[j])) ==> Reach(xs + ys, ok) == Reach(xs, ok)
  {
    if xs != [] {
      assert (xs + ys)[0] == xs[0] && (xs + ys)[1..] == xs[1..] + ys;
      ReachAppend(xs[1..], ys, ok);
      if ok(xs[0]) {
        forall j | 0 <= j < |xs| - 1 ensures xs[1..][j] == xs[j + 1] {}
      }
    } else {
      assert xs + ys == ys;
    }
  }

  // ---------------------------------------------------------------------
  // The state a run leaves
  // ---------------------------------------------------------------------

  /** The state after applying `f` to each element in turn. */
  function Fold<S, T>(s: S, xs: seq<T>, f: (S, T) -> S): S
    decreases |xs|
  {
    if xs == [] then s else f(Fold(s, xs[..|xs| - 1], f), xs[|xs| - 1])
  }

  /** One more element extends the fold. */
  lemma FoldStep<S, T>(s: S, xs: seq<T>, f: (S, T) -> S, i: nat)
    requires i < |xs|
    ensures Fold(s, xs[..i + 1], f) == f(Fold(s, xs[..i], f), xs[i])
  {
    assert xs[..i + 1][..i] == xs[..i];
  }

  /** Folding two groups is folding the first, then the second from where
      the first left off. */
  lemma {:induction false} FoldAppend<S, T>(s: S, xs: seq<T>, ys: seq<T>, f: (S, T) -> S)
    ensures Fold(s, xs + ys, f) == Fold(Fold(s, xs, f), ys, f)
    decreases |ys|
  {
    if ys == [] {
      assert xs + ys == xs;
    } else {
      var n := |ys| - 1;
      assert (xs + ys)[..|xs + ys| - 1] == xs + ys[..n];
      FoldAppend(s, xs, ys[..n], f);
    }
  }

  /** The state after a run that stops at its first element failing `ok`,
      that element's step included. */
  function RunFold<S, T>(s: S, xs: seq<T>, f: (S, T) -> S, ok: T -> bool): S
  {
    Fold(s, xs[..Reach(xs, ok)], f)
  }

  /** A run that first fails at element `i` leaves the state of the steps up
      to and including `i`; a run that never fails, that of all of them. */
  lemma RunFoldAt<S, T>(s: S, xs: seq<T>, f: (S, T) -> S, ok: T -> bool, i: nat)
    requires i <= |xs| && forall j | 0 <= j < i :: ok(xs[j])
    requires i < |xs| ==> !ok(xs[i])
    ensures i < |xs| ==> RunFold(s, xs, f, ok) == Fold(s, xs[..i + 1], f)
    ensures i == |xs| ==> RunFold(s, xs, f, ok) == Fold(s, xs, f)
  {
    if i < |xs| {
      ReachAt(xs, ok, i);
    } else {
      ReachAll(xs, ok);
      assert xs[..|xs|] == xs;
    }
  }

  /** A run over two groups is the run over the first, followed by the run
      over the second only when the whole first group succeeds. */
  lemma RunFoldAppend<S, T>(s: S, xs: seq<T>, ys: seq<T>, f: (S, T) -> S, ok: T -> bool)
    ensures (forall j | 0 <= j < |xs| :: ok(xs[j])) ==>
      RunFold(s, xs + ys, f, ok) == RunFold(RunFold(s, xs, f, ok), ys, f, ok)
    ensures !(forall j | 0 <= j < |xs| :: ok(xs[j])) ==> RunFold(s, xs + ys, f, ok) == RunFold(s, xs, f, ok)
  {
    ReachAppend(xs, ys, ok);
    if forall j | 0 <= j < |xs| :: ok(xs[j]) {
      ReachAll(xs, ok);
      var k := Reach(ys, ok);
      assert xs[..|xs|] == xs;
      assert (xs + ys)[..|xs| + k] == xs + ys[..k];
      FoldAppend(s, xs, ys[..k], f);
    } else {
      var k := Reach(xs, ok);
      assert (xs + ys)[..k] == xs[..k];
    }
  }

  /** What each step reports, `g` applied to the state before it and the
      element. */
  function Trace<S, T, U>(s: S, xs: seq<T>, f: (S, T) -> S, g: (S, T) -> U): (us: seq<U>)
    ensures |us| == |xs|
    decreases |xs|
  {
    if xs == [] then []
    else
      var n := |xs| - 1;
      Trace(s, xs[..n], f, g) + [g(Fold(s, xs[..n], f), xs[n])]
  }

  /** Each report is made on the state the earlier steps left. */
  lemma {:induction false} TraceAt<S, T, U>(s: S, xs: seq<T>, f: (S, T) -> S, g: (S, T) -> U, j: nat)
    requires j < |xs|
    ensures Trace(s, xs, f, g)[j] == g(Fold(s, xs[..j], f), xs[j])
    decreases |xs|
  {
    var n := |xs| - 1;
    if j < n {
      TraceAt(s, xs[..n], f, g, j);
      assert xs[..n][..j] == xs[..j];
    } else {
      assert xs[..n] == xs[..j];
    }
  }

  /** One more element extends the reports. */
  lemma TraceStep<S, T, U>(s: S, xs: seq<T>, f: (S, T) -> S, g: (S, T) -> U, i: nat)
    requires i < |xs|
    ensures Trace(s, xs[..i + 1], f, g) == Trace(s, xs[..i], f, g) + [g(Fold(s, xs[..i], f), xs[i])]
  {
    assert xs[..i + 1][..i] == xs[..i];
  }

  /** The reports of two groups: the first's, then the second's from where
      the first left off. */
  lemma {:induction false} TraceAppend<S, T, U>(s: S, xs: seq<T>, ys: seq<T>, f: (S, T) -> S, g: (S, T) -> U)
    ensures Trace(s, xs + ys, f, g) == Trace(s, xs, f, g) + Trace(Fold(s, xs, f), ys, f, g)
    decreases |ys|
  {
    if ys == [] {
      assert xs + ys == xs;
    } else {
      var n := |ys| - 1;
      assert (xs + ys)[..|xs + ys| - 1] == xs + ys[..n];
      TraceAppend(s, xs, ys[..n], f, g);
      FoldAppend(s, xs, ys[..n], f);
    }
  }

  /** `n` copies of `none`. */
  function Padding<U>(n: nat, none: U): (p: seq<U>)
    ensures |p| == n && forall i | 0 <= i < n :: p[i] == none
  {
    seq(n, _ => none)
  }

  /** Padding splits at any point. */
  lemma PaddingSplits<U>(m: nat, n: nat, none: U)
    ensures Padding(m + n, none) == Padding(m, none) + Padding(n, none)
  {
  }

  /** The reports of a run that stops at its first element failing `ok`:
      those of the elements reached, then `none` for each of the rest. */
  function RunTrace<S, T, U>(s: S, xs: seq<T>, f: (S, T) -> S, g: (S, T) -> U, ok: T -> bool, none: U): (us: seq<U>)
    ensures |us| == |xs|
  {
    Trace(s, xs[..Reach(xs, ok)], f, g) + seq(|xs| - Reach(xs, ok), _ => none)
  }

  /** The reports of a run that first fails at element `i`, or never
      fails. */
  lemma RunTraceAt<S, T, U>(s: S, xs: seq<T>, f: (S, T) -> S, g: (S, T) -> U, ok: T -> bool, none: U, i: nat)
    requires i <= |xs| && forall j | 0 <= j < i :: ok(xs[j])
    requires i < |xs| ==> !ok(xs[i])
    ensures i < |xs| ==> RunTrace(s, xs, f, g, ok, none) == Trace(s, xs[..i + 1], f, g) + Padding(|xs| - i - 1, none)
    ensures i == |xs| ==> RunTrace(s, xs, f, g, ok, none) == Trace(s, xs, f, g)
  {
    if i < |xs| {
      ReachAt(xs, ok, i);
    } else {
      ReachAll(xs, ok);
      assert xs[..|xs|] == xs;
    }
  }

  /** A run over two groups reports as the run over the first, followed by
      the run over the second only when the whole first group succeeds. */
  lemma RunTraceAppend<S, T, U>(s: S, xs: seq<T>, ys: seq<T>, f: (S, T) -> S, g: (S, T) -> U, ok: T -> bool, none: U)
    ensures (forall j | 0 <= j < |xs| :: ok(xs[j])) ==>
      RunTrace(s, xs + ys, f, g, ok, none) == RunTrace(s, xs, f, g, ok, none) + RunTrace(RunFold(s, xs, f, ok), ys, f, g, ok, none)
    ensures !(forall j | 0 <= j < |xs| :: ok(xs[j])) ==>
      RunTrace(s, xs + ys, f, g, ok, none) == RunTrace(s, xs, f, g, ok, none) + Padding(|ys|, none)
  {
    ReachAppend(xs, ys, ok);
    if forall j | 0 <= j < |xs| :: ok(xs[j]) {
      ReachAll(xs, ok);
      TraceGoesOn(s, xs, ys, f, g, ok, none);
    } else {
      TraceStops(s, xs, ys, f, g, ok, none);
    }
  }

  lemma TraceGoesOn<S, T, U>(s: S, xs: seq<T>, ys: seq<T>, f: (S, T) -> S, g: (S, T) -> U, ok: T -> bool, none: U)
    requires Reach(xs, ok) == |xs| && Reach(xs + ys, ok) == |xs| + Reach(ys, ok)
    ensures RunTrace(s, xs + ys, f, g, ok, none) == RunTrace(s, xs, f, g, ok, none) + RunTrace(RunFold(s, xs, f, ok), ys, f, g, ok, none)
  {
    var k := Reach(ys, ok);
    assert xs[..|xs|] == xs;
    var a := Trace(s, xs, f, g);
    assert RunTrace(s, xs, f, g, ok, none) == a;
    var s1 := Fold(s, xs, f);
    assert RunFold(s, xs, f, ok) == s1;
    var b := Trace(s1, ys[..k], f, g);
    var c := Padding(|ys| - k, none);
    assert RunTrace(s1, ys, f, g, ok, none) == b + c;
    assert (xs + ys)[..|xs| + k] == xs + ys[..k];
    TraceAppend(s, xs, ys[..k], f, g);
    assert RunTrace(s, xs + ys, f, g, ok, none) == (a + b) + c;
    assert (a + b) + c == a + (b + c);
  }

  lemma TraceStops<S, T, U>(s: S, xs: seq<T>, ys: seq<T>, f: (S, T) -> S, g: (S, T) -> U, ok: T -> bool, none: U)
    requires Reach(xs + ys, ok) == Reach(xs, ok)
    ensures RunTrace(s, xs + ys, f, g, ok, none) == RunTrace(s, xs, f, g, ok, none) + Padding(|ys|, none)
  {
    var k := Reach(xs, ok);
    assert (xs + ys)[..k] == xs[..k];
    PaddingSplits(|xs| - k, |ys|, none);
    assert |xs + ys| - k == (|xs| - k) + |ys|;
  }

}
