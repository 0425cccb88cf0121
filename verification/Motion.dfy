/**
 A list of moves as one motion over time, and what it means to cut a move in two.

 The instants of a list count from the start of its first entry.
 */
module Motion {
  import opened Trapq

  // When entry k starts.
  function Start(ms: seq<Move>, k: nat): real
    requires k <= |ms|
  {
    if k == 0 then 0.0 else Start(ms, k - 1) + ms[k-1].moveT
  }

  lemma {:induction false} StartsInOrder(ms: seq<Move>, i: nat, j: nat)
    requires Lasting(ms) && i <= j <= |ms|
    ensures Start(ms, i) <= Start(ms, j)
  {
    if i < j {
      StartsInOrder(ms, i, j - 1);
    }
  }

  // Entry k takes place at instant t.
  predicate At(ms: seq<Move>, k: nat, t: real)
    requires k < |ms|
  {
    Start(ms, k) <= t <= Start(ms, k + 1)
  }

  lemma {:induction false} SomeAt(ms: seq<Move>, t: real, n: nat) returns (k: nat)
    requires 0 < n <= |ms| && 0.0 <= t <= Start(ms, n)
    ensures k < n && At(ms, k, t)
  {
    if n == 1 || Start(ms, n - 1) <= t {
      k := n - 1;
    } else {
      k := SomeAt(ms, t, n - 1);
    }
  }

  // The two halves of a move cut at time u.
  function FirstHalf(m: Move, u: real): Move { m.(moveT := u) }

  function SecondHalf(m: Move, u: real): Move {
    Move(m.printTime + u, m.moveT - u, SpeedAt(m, u), m.halfAccel, CoordAt(m, u), m.axesR)
  }

  function Cut(ms: seq<Move>, k: nat, u: real): seq<Move>
    requires k < |ms|
  {
    ms[..k] + [FirstHalf(ms[k], u), SecondHalf(ms[k], u)] + ms[k+1..]
  }

  // The halves together move as the whole.
  lemma HalvesDistance(m: Move, u: real, x: real)
    ensures Distance(SecondHalf(m, u), x) == Distance(m, u + x) - Distance(m, u)
  {
    var v, h := m.startV, m.halfAccel;
    assert Distance(SecondHalf(m, u), x) == v * x + 2.0 * (h * u * x) + h * x * x;
    assert Distance(m, u + x) == v * u + v * x + h * u * u + 2.0 * (h * u * x) + h * x * x;
    assert Distance(m, u) == v * u + h * u * u;
  }

  // Where the entries of the cut list start.
  lemma {:induction false} StartCut(ms: seq<Move>, k: nat, u: real, j: nat)
    requires k < |ms| && j <= |ms| + 1
    ensures Start(Cut(ms, k, u), j)
      == if j <= k then Start(ms, j) else if j == k + 1 then Start(ms, k) + u else Start(ms, j - 1)
  {
    if j > 0 {
      StartCut(ms, k, u, j - 1);
    }
  }

  lemma CutLength(ms: seq<Move>, k: nat, u: real)
    requires k < |ms|
    ensures |Cut(ms, k, u)| == |ms| + 1
  {
  }

  lemma CutLasts(ms: seq<Move>, k: nat, u: real)
    requires k < |ms| && Lasting(ms) && 0.0 <= u <= ms[k].moveT
    ensures Lasting(Cut(ms, k, u))
  {
  }
}
