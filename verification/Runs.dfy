/** Runs of a step system: `step(s, m, t)` says that move `m` may take state `s` to `t`. */
module Runs {
  ghost predicate Path<S(!new), M>(step: (S, M, S) -> bool, s: S, moves: seq<M>, t: S)
    decreases |moves|
  {
    if moves == [] then s == t
    else
      var before, last := moves[..|moves| - 1], moves[|moves| - 1];
      exists mid :: Path(step, s, before, mid) && step(mid, last, t)
  }

  ghost predicate Reaches<S(!new), M(!new)>(step: (S, M, S) -> bool, s: S, t: S) {
    exists moves :: Path(step, s, moves, t)
  }

  lemma PathNone<S(!new), M>(step: (S, M, S) -> bool, s: S)
    ensures Path(step, s, [], s)
  {}

  lemma PathMore<S(!new), M>(step: (S, M, S) -> bool, s: S, moves: seq<M>, t: S, m: M, u: S)
    requires Path(step, s, moves, t) && step(t, m, u)
    ensures Path(step, s, moves + [m], u)
  {
    assert (moves + [m])[..|moves|] == moves;
  }

  lemma LastStep<S(!new), M>(step: (S, M, S) -> bool, s: S, moves: seq<M>, m: M, u: S) returns (t: S)
    requires Path(step, s, moves + [m], u)
    ensures Path(step, s, moves, t) && step(t, m, u)
  {
    assert (moves + [m])[..|moves|] == moves;
    t :| Path(step, s, moves, t) && step(t, m, u);
  }

  lemma ReachesSelf<S(!new), M(!new)>(step: (S, M, S) -> bool, s: S)
    ensures Reaches(step, s, s)
  {
    assert Path(step, s, [], s);
  }

  lemma ReachesStep<S(!new), M(!new)>(step: (S, M, S) -> bool, s: S, t: S, m: M, u: S)
    requires Reaches(step, s, t) && step(t, m, u)
    ensures Reaches(step, s, u)
  {
    var moves :| Path(step, s, moves, t);
    assert (moves + [m])[..|moves|] == moves;
    assert Path(step, s, moves + [m], u);
  }

  lemma {:induction false} ReachesPath<S(!new), M(!new)>(step: (S, M, S) -> bool, s: S, t: S, moves: seq<M>, u: S)
    requires Reaches(step, s, t) && Path(step, t, moves, u)
    ensures Reaches(step, s, u)
    decreases |moves|
  {
    if moves != [] {
      var before, last := moves[..|moves| - 1], moves[|moves| - 1];
      var mid :| Path(step, t, before, mid) && step(mid, last, u);
      ReachesPath(step, s, t, before, mid);
      ReachesStep(step, s, mid, last, u);
    }
  }

  lemma ReachesTransitive<S(!new), M(!new)>(step: (S, M, S) -> bool, s: S, t: S, u: S)
    requires Reaches(step, s, t) && Reaches(step, t, u)
    ensures Reaches(step, s, u)
  {
    var moves :| Path(step, t, moves, u);
    ReachesPath(step, s, t, moves, u);
  }

  /** With more moves allowed a run stays one. */
  lemma {:induction false} MorePaths<S(!new), M(!new)>(
    step: (S, M, S) -> bool, more: (S, M, S) -> bool, s: S, moves: seq<M>, t: S)
    requires forall x, m, y | step(x, m, y) :: more(x, m, y)
    requires Path(step, s, moves, t)
    ensures Path(more, s, moves, t)
    decreases |moves|
  {
    if moves != [] {
      var before, last := moves[..|moves| - 1], moves[|moves| - 1];
      var mid :| Path(step, s, before, mid) && step(mid, last, t);
      MorePaths(step, more, s, before, mid);
    }
  }

  /** What every move keeps, every run keeps. */
  lemma {:induction false} PathKeeps<S(!new), M(!new)>(
    step: (S, M, S) -> bool, inv: S -> bool, s: S, moves: seq<M>, t: S)
    requires forall x, m, y | inv(x) && step(x, m, y) :: inv(y)
    requires inv(s) && Path(step, s, moves, t)
    ensures inv(t)
    decreases |moves|
  {
    if moves != [] {
      var before, last := moves[..|moves| - 1], moves[|moves| - 1];
      var mid :| Path(step, s, before, mid) && step(mid, last, t);
      PathKeeps(step, inv, s, before, mid);
    }
  }
}
