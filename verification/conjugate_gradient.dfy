/** `solve_cg`: the Conjugate Gradient loop over a CSR matrix, in exact
    arithmetic. What is modelled is the shape of the loop (the early exits,
    the iteration bound, the errors it can throw) and the invariant that
    keeps the residual equal to `b - A x`; convergence theory is not. */
module ConjugateGradient {
  import opened Outcomes
  import opened Vectors
  import opened Products
  import opened SparseMatrix

  /** How the loop ended. `Converged`: the relative residual test passed at
      the top of an iteration. `IterationLimit`: `max_iter` updates were made
      (the test is not repeated after the last one). `ZeroCurvature`: the
      step size would divide by `p · Ap == 0`. */
  datatype Status = Converged | IterationLimit | ZeroCurvature

  /** The returned iterate, how the loop ended, the number of updates made
      to `x`, and the residual the loop carried for that iterate. */
  datatype Report = Report(x: Vec, status: Status, iterations: nat, residual: Vec)

  /** `b - A x`. */
  function Residual(a: Csr, b: Vec, x: Vec): (r: Vec)
    requires Valid(a) && |b| == a.rows && |x| == a.cols
    ensures |r| == a.rows
  {
    Sub(b, Product(a, x))
  }

  /** One update keeps the residual exact: if `r == b - A x`, then
      `r - alpha Ap == b - A (x + alpha p)`. */
  lemma ResidualUpdate(a: Csr, b: Vec, x: Vec, p: Vec, alpha: real)
    requires Valid(a) && |b| == a.rows && |x| == a.cols && |p| == a.cols
    ensures Residual(a, b, Add(x, Scale(p, alpha)))
         == Sub(Residual(a, b, x), Scale(Product(a, p), alpha))
  {
    ProductScale(a, p, alpha);
    ProductAdd(a, x, Scale(p, alpha));
    SubAdd(b, Product(a, x), Scale(Product(a, p), alpha));
  }

  /** A zero search direction has zero curvature `p · Ap`. */
  lemma ZeroDirectionCurvature(a: Csr, p: Vec)
    requires Valid(a) && |p| == a.cols && a.rows == a.cols && IsZero(p)
    ensures Dot(p, Product(a, p)) == 0.0
  {
    ProductZero(a, p);
    DotZeroLeft(p, Product(a, p));
  }

  /** A zero right-hand side and a zero starting guess give a zero
      residual. */
  lemma ZeroStartResidual(a: Csr, b: Vec, x: Vec)
    requires Valid(a) && |b| == a.rows && |x| == a.cols
    requires IsZero(b) && IsZero(x)
    ensures IsZero(Residual(a, b, x))
  {
    ProductZero(a, x);
  }

  /** The state the loop carries between iterations: iterate `x`, residual
      `r`, search direction `p`, and `rr`, the squared residual norm the
      next step size is divided by. */
  datatype State = State(x: Vec, r: Vec, p: Vec, rr: real)

  /** What holds at the top of every iteration: the residual is exactly
      `b - A x`, `rr` is its squared norm, and a zero residual norm comes
      with a zero search direction. */
  predicate Inv(a: Csr, b: Vec, s: State)
  {
    && Valid(a) && |b| == a.rows
    && |s.x| == a.cols && |s.p| == a.rows
    && s.r == Residual(a, b, s.x)
    && s.rr == NormSquared(s.r)
    && (s.rr == 0.0 ==> IsZero(s.p))
  }

  /** The outcome of one iteration past the convergence test. */
  datatype Step = Advanced(next: State) | Stalled | Mismatch

  /** The curvature `p · Ap` of direction `p`, the step size's denominator. */
  function Curvature(a: Csr, p: Vec): real
    requires Valid(a) && a.rows == a.cols && |p| == a.cols
  {
    Dot(p, Product(a, p))
  }

  /** The shapes one update needs: a square matrix, and an iterate, a
      residual and a direction that fit it. */
  predicate Shaped(a: Csr, s: State)
  {
    && Valid(a) && a.rows == a.cols
    && |s.x| == a.cols && |s.r| == a.rows && |s.p| == a.cols
  }

  /** One Conjugate Gradient update of a square system, in exact arithmetic:
      step size `alpha = rr / (p · Ap)`, `x + p alpha`, `r - Ap alpha`, the
      new squared residual norm, `beta = rr_new / rr` and the new direction
      `r_new + p beta`. Both divisors must be nonzero; `NextInv` shows that
      under the loop invariant a nonzero curvature is enough. */
  function Next(a: Csr, s: State): (t: State)
    requires Shaped(a, s) && s.rr != 0.0 && Curvature(a, s.p) != 0.0
    ensures Shaped(a, t)
  {
    var ap := Product(a, s.p);
    var alpha := s.rr / Dot(s.p, ap);
    var rNew := Sub(s.r, Scale(ap, alpha));
    var rrNew := Dot(rNew, rNew);
    State(Add(s.x, Scale(s.p, alpha)), rNew, Add(rNew, Scale(s.p, rrNew / s.rr)), rrNew)
  }

  /** A zero residual norm means a zero direction, hence zero curvature. */
  lemma ZeroResidualZeroCurvature(a: Csr, b: Vec, s: State)
    requires Inv(a, b, s) && a.rows == a.cols
    ensures s.rr == 0.0 || IsZero(s.p) ==> Dot(s.p, Product(a, s.p)) == 0.0
  {
    if IsZero(s.p) {
      ZeroDirectionCurvature(a, s.p);
    }
  }

  /** With a zero new residual, `beta` is zero and the new direction
      `r_new + beta p` is zero too. */
  lemma ZeroNumeratorNextDirection(rNew: Vec, p: Vec, rrNew: real, rr: real)
    requires |rNew| == |p| && rr != 0.0
    requires rrNew == 0.0 ==> IsZero(rNew)
    ensures rrNew == 0.0 ==> IsZero(Add(rNew, Scale(p, rrNew / rr)))
  {
    if rrNew == 0.0 {
      assert rrNew / rr == 0.0;
    }
  }

  /** The update keeps the loop invariant: from a state whose residual is
      `b - A x`, a nonzero curvature implies a nonzero `rr` (so `Next` is
      defined), and the next residual is again `b - A x` with `rr` its
      squared norm and a zero direction when `rr` is zero. */
  lemma NextInv(a: Csr, b: Vec, s: State)
    requires Inv(a, b, s) && a.rows == a.cols && Curvature(a, s.p) != 0.0
    ensures s.rr != 0.0
    ensures Inv(a, b, Next(a, s))
  {
    ZeroResidualZeroCurvature(a, b, s);
    var ap := Product(a, s.p);
    var alpha := s.rr / Dot(s.p, ap);
    var rNew := Sub(s.r, Scale(ap, alpha));
    var rrNew := Dot(rNew, rNew);
    ResidualUpdate(a, b, s.x, s.p, alpha);
    DotSelf(rNew);
    ZeroNumeratorNextDirection(rNew, s.p, rrNew, s.rr);
  }

  /** Whether an update from `s` is defined: both divisors are nonzero.
      Under the loop invariant this is just a nonzero curvature (see
      `NextInv`). */
  predicate Proceeds(a: Csr, s: State)
    requires Shaped(a, s)
  {
    s.rr != 0.0 && Curvature(a, s.p) != 0.0
  }

  /** `k` Conjugate Gradient updates from `s`; `Stalled` when a state on the
      way admits no update. */
  function Run(a: Csr, s: State, k: nat): (o: Step)
    requires Shaped(a, s)
    ensures !o.Mismatch?
    ensures o.Advanced? ==> Shaped(a, o.next)
    ensures k == 0 ==> o == Advanced(s)
    decreases k
  {
    if k == 0 then Advanced(s)
    else if !Proceeds(a, s) then Stalled
    else Run(a, Next(a, s), k - 1)
  }

  /** A run grows one update at a time at its far end too: after `k`
      updates have reached `t`, the `k + 1`-th is `Next(a, t)` when `t`
      admits an update, and the run stalls otherwise. */
  lemma RunStep(a: Csr, s: State, k: nat, t: State)
    requires Shaped(a, s) && Run(a, s, k) == Advanced(t)
    ensures Run(a, s, k + 1) == if Proceeds(a, t) then Advanced(Next(a, t)) else Stalled
  {
    RunFarEnd(a, s, k, t);
    RunOnce(a, t);
  }

  /** Extending a run by one update is running one more update from where
      it ended. */
  lemma {:induction false} RunFarEnd(a: Csr, s: State, k: nat, t: State)
    requires Shaped(a, s) && Run(a, s, k) == Advanced(t)
    ensures Shaped(a, t) && Run(a, s, k + 1) == Run(a, t, 1)
    decreases k, 1
  {
    if k == 0 {
      assert t == s;
    } else {
      AdvancedProceeds(a, s, k, t);
      RunShift(a, s, k - 1);
      RunShift(a, s, k);
      RunFarEndVia(a, s, Next(a, s), k, t);
    }
  }

  /** The inductive step of `RunFarEnd`, with the successor `u` of `s`
      left abstract. */
  lemma {:induction false} RunFarEndVia(a: Csr, s: State, u: State, k: nat, t: State)
    requires k > 0 && Shaped(a, s) && Shaped(a, u) && Shaped(a, t)
    requires Run(a, u, k - 1) == Advanced(t) && Run(a, s, k + 1) == Run(a, u, k)
    ensures Run(a, s, k + 1) == Run(a, t, 1)
    decreases k, 0
  {
    RunFarEnd(a, u, k - 1, t);
  }

  /** A run of at least one update that did not stall began with an
      update. */
  lemma AdvancedProceeds(a: Csr, s: State, k: nat, t: State)
    requires Shaped(a, s) && k > 0 && Run(a, s, k) == Advanced(t)
    ensures Proceeds(a, s)
  {
  }

  /** A single update from `t`. */
  lemma RunOnce(a: Csr, t: State)
    requires Shaped(a, t)
    ensures Run(a, t, 1) == if Proceeds(a, t) then Advanced(Next(a, t)) else Stalled
  {
  }

  /** The convergence test failed on each of the first `k` states of the
      run from `s`. */
  predicate TestFailedBefore(a: Csr, s: State, k: nat, bb: real, tolerance: real)
    requires Shaped(a, s)
  {
    forall j: nat :: j < k ==>
      Run(a, s, j).Advanced? && !BelowTolerance(Run(a, s, j).next.rr, bb, tolerance)
  }

  /** The test failed on the first `k + 1` states from `s` exactly when it
      failed on `s` itself and on the first `k` states from `Next(a, s)`. */
  lemma TestFailedShift(a: Csr, s: State, k: nat, bb: real, tolerance: real)
    requires Shaped(a, s) && Proceeds(a, s)
    ensures TestFailedBefore(a, s, k + 1, bb, tolerance) <==>
      !BelowTolerance(s.rr, bb, tolerance) && TestFailedBefore(a, Next(a, s), k, bb, tolerance)
  {
    var t := Next(a, s);
    if TestFailedBefore(a, s, k + 1, bb, tolerance) {
      assert Run(a, s, 0) == Advanced(s);
      forall j: nat | j < k
        ensures Run(a, t, j).Advanced? && !BelowTolerance(Run(a, t, j).next.rr, bb, tolerance)
      {
        assert Run(a, s, j + 1) == Run(a, t, j);
      }
    }
    if !BelowTolerance(s.rr, bb, tolerance) && TestFailedBefore(a, t, k, bb, tolerance) {
      forall j: nat | j < k + 1
        ensures Run(a, s, j).Advanced? && !BelowTolerance(Run(a, s, j).next.rr, bb, tolerance)
      {
        if j > 0 {
          assert Run(a, s, j) == Run(a, t, j - 1);
        }
      }
    }
  }

  /** The solver's starting state: `x0`, `r = b - A x0`, `p = r`, `rr = r · r`. */
  function Start(a: Csr, b: Vec, x0: Vec): (s: State)
    requires Valid(a) && |b| == a.rows && |x0| == a.cols
    ensures Inv(a, b, s)
    ensures s.x == x0 && s.r == Residual(a, b, x0)
  {
    var r := Residual(a, b, x0);
    State(x0, r, r, NormSquared(r))
  }

  /** One iteration past the convergence test: the product `Ap = A p`
      (throws when `A` is not square), the step size `alpha = rr / (p · Ap)`
      (stalls exactly when that denominator is zero), then the updates of
      `x`, `r` and `p`. The second division, by `rr`, never sees a zero:
      `rr == 0` forces `p == 0` and so `p · Ap == 0`, which stalled
      already. */
  method Iterate(a: Csr, b: Vec, s: State) returns (step: Step)
    requires Inv(a, b, s)
    ensures step.Mismatch? <==> a.rows != a.cols
    ensures step.Stalled? <==> a.rows == a.cols && Dot(s.p, Product(a, s.p)) == 0.0
    ensures a.rows == a.cols && IsZero(s.p) ==> step.Stalled?
    ensures step.Advanced? ==> s.rr != 0.0 && Dot(s.p, Product(a, s.p)) != 0.0
    ensures step.Advanced? ==>
      var alpha := s.rr / Dot(s.p, Product(a, s.p));
      && step.next.x == Add(s.x, Scale(s.p, alpha))
      && step.next.r == Sub(s.r, Scale(Product(a, s.p), alpha))
      && step.next.rr == Dot(step.next.r, step.next.r)
      && step.next.p == Add(step.next.r, Scale(s.p, step.next.rr / s.rr))
    ensures step.Advanced? ==> step.next == Next(a, s) && Inv(a, b, step.next)
  {
    var ap := Multiply(a, s.p);
    if ap.Failure? {
      return Mismatch;
    }
    var pAp := Dot(s.p, ap.value);
    ZeroResidualZeroCurvature(a, b, s);
    if pAp == 0.0 {
      return Stalled;
    }
    NextInv(a, b, s);
    var alpha := s.rr / pAp;
    var x := Add(s.x, Scale(s.p, alpha));
    var rNew := Sub(s.r, Scale(ap.value, alpha));
    var rrNew := Dot(rNew, rNew);
    var beta := rrNew / s.rr;
    var p := Add(rNew, Scale(s.p, beta));
    return Advanced(State(x, rNew, p, rrNew));
  }

  /** `Iterate` as the loop sees it: only the outcome and the state `Next`,
      without the update formulas, so that `Loop`'s proof does not carry
      them. */
  method Advance(a: Csr, b: Vec, s: State) returns (step: Step)
    requires Inv(a, b, s)
    ensures step.Mismatch? <==> a.rows != a.cols
    ensures step.Stalled? <==> a.rows == a.cols && Curvature(a, s.p) == 0.0
    ensures a.rows == a.cols && IsZero(s.p) ==> step.Stalled?
    ensures step.Advanced? ==> Shaped(a, s) && s.rr != 0.0 && Curvature(a, s.p) != 0.0
    ensures step.Advanced? ==> step.next == Next(a, s) && Inv(a, b, step.next)
  {
    step := Iterate(a, b, s);
  }

  /** The loop of `solve_cg` from the top of round `k` in state `s`: after
      `maxIter` rounds it stops with `IterationLimit`; otherwise it stops with
      `Converged` when the test passes, throws when `A p` does, stops with
      `ZeroCurvature` when `p · Ap == 0`, and else goes on from `Next`. */
  function Rounds(a: Csr, b: Vec, s: State, k: nat, maxIter: nat, bb: real, tolerance: real): (res: Result<Report>)
    requires Inv(a, b, s) && k <= maxIter
    ensures res.Failure? ==> res.error == LengthError && a.rows != a.cols
    ensures res.Success? ==> k <= res.value.iterations <= maxIter
    ensures res.Success? && res.value.status == IterationLimit ==> res.value.iterations == maxIter
    decreases maxIter - k
  {
    if k == maxIter then Success(Report(s.x, IterationLimit, k, s.r))
    else if BelowTolerance(s.rr, bb, tolerance) then Success(Report(s.x, Converged, k, s.r))
    else if a.rows != a.cols then Failure(LengthError)
    else if Curvature(a, s.p) == 0.0 then Success(Report(s.x, ZeroCurvature, k, s.r))
    else
      NextInv(a, b, s);
      Rounds(a, b, Next(a, s), k + 1, maxIter, bb, tolerance)
  }

  /** On a non-square matrix the loop ends in its first round: it returns
      `s0` when no round runs or the test passes at once, and throws
      otherwise. */
  lemma RoundsNonSquare(a: Csr, b: Vec, s0: State, maxIter: nat, bb: real, tolerance: real)
    requires Inv(a, b, s0) && a.rows != a.cols
    ensures var res := Rounds(a, b, s0, 0, maxIter, bb, tolerance);
      && (res.Failure? <==> maxIter > 0 && !BelowTolerance(s0.rr, bb, tolerance))
      && (res.Failure? ==> res.error == LengthError)
      && (res.Success? ==> res.value.x == s0.x && res.value.residual == s0.r && res.value.iterations == 0)
      && (res.Success? && res.value.status == Converged ==> maxIter > 0 && BelowTolerance(s0.rr, bb, tolerance))
      && (res.Success? && res.value.status == IterationLimit ==> maxIter == 0)
      && (res.Success? ==> res.value.status != ZeroCurvature)
  {
  }

  /** What the loop's result says on a square matrix when it is entered at
      round `k` in state `s`: an iterate is returned, and it is the state
      `Run` reaches from `s` in the rounds that remain (the reported count
      is at least `k` and at most `maxIter`), with the residual `b - A x`
      and `rr` its squared norm. */
  predicate ExitRun(a: Csr, b: Vec, s: State, res: Result<Report>, k: nat, maxIter: nat)
    requires Shaped(a, s) && |b| == a.rows
  {
    && res.Success?
    && k <= res.value.iterations <= maxIter
    && var run := Run(a, s, res.value.iterations - k);
    && run.Advanced?
    && run.next.x == res.value.x
    && run.next.r == res.value.residual
    && res.value.residual == Residual(a, b, res.value.x)
    && run.next.rr == NormSquared(res.value.residual)
  }

  /** How that result's status came about: the test failed on every state
      before the returned one. `Converged` means the test passed on the
      returned state before the bound was reached, `IterationLimit` that
      `maxIter` updates were made, and `ZeroCurvature` that the test failed
      on the returned state before the bound and its curvature is zero. */
  predicate ExitStatus(a: Csr, b: Vec, s: State, res: Result<Report>, k: nat, maxIter: nat, bb: real, tolerance: real)
    requires Shaped(a, s) && |b| == a.rows && ExitRun(a, b, s, res, k, maxIter)
  {
    var run := Run(a, s, res.value.iterations - k);
    && TestFailedBefore(a, s, res.value.iterations - k, bb, tolerance)
    && (res.value.status == Converged ==>
          res.value.iterations < maxIter && BelowTolerance(run.next.rr, bb, tolerance))
    && (res.value.status == IterationLimit ==> res.value.iterations == maxIter)
    && (res.value.status == ZeroCurvature ==>
          && res.value.iterations < maxIter
          && !BelowTolerance(run.next.rr, bb, tolerance)
          && Curvature(a, run.next.p) == 0.0)
  }

  /** The whole exit description: `ExitRun` and `ExitStatus`. */
  predicate Exit(a: Csr, b: Vec, s: State, res: Result<Report>, k: nat, maxIter: nat, bb: real, tolerance: real)
    requires Shaped(a, s) && |b| == a.rows
  {
    ExitRun(a, b, s, res, k, maxIter) && ExitStatus(a, b, s, res, k, maxIter, bb, tolerance)
  }

  /** On a square matrix, whatever round the loop is entered at, its result
      satisfies `Exit`. */
  lemma {:induction false} RoundsSquare(a: Csr, b: Vec, s: State, k: nat, maxIter: nat, bb: real, tolerance: real)
    requires Inv(a, b, s) && a.rows == a.cols && k <= maxIter
    ensures Exit(a, b, s, Rounds(a, b, s, k, maxIter, bb, tolerance), k, maxIter, bb, tolerance)
    decreases maxIter - k
  {
    if k == maxIter || BelowTolerance(s.rr, bb, tolerance) || Curvature(a, s.p) == 0.0 {
      RoundsStop(a, b, s, k, maxIter, bb, tolerance);
    } else {
      NextInv(a, b, s);
      var t := Next(a, s);
      RoundsSquare(a, b, t, k + 1, maxIter, bb, tolerance);
      var res := Rounds(a, b, t, k + 1, maxIter, bb, tolerance);
      assert Rounds(a, b, s, k, maxIter, bb, tolerance) == res;
      ExitBack(a, b, s, res, k, maxIter, bb, tolerance);
    }
  }

  /** A round that stops returns the state it was entered in. */
  lemma RoundsStop(a: Csr, b: Vec, s: State, k: nat, maxIter: nat, bb: real, tolerance: real)
    requires Inv(a, b, s) && a.rows == a.cols && k <= maxIter
    requires k == maxIter || BelowTolerance(s.rr, bb, tolerance) || Curvature(a, s.p) == 0.0
    ensures Exit(a, b, s, Rounds(a, b, s, k, maxIter, bb, tolerance), k, maxIter, bb, tolerance)
  {
  }

  /** What the loop returns when entered at the next round, one update
      later, it also returns when entered at this one: the run is one update
      longer and the test failed on `s` too. */
  lemma ExitBack(a: Csr, b: Vec, s: State, res: Result<Report>, k: nat, maxIter: nat, bb: real, tolerance: real)
    requires Shaped(a, s) && |b| == a.rows && Proceeds(a, s) && !BelowTolerance(s.rr, bb, tolerance)
    requires Exit(a, b, Next(a, s), res, k + 1, maxIter, bb, tolerance)
    ensures Exit(a, b, s, res, k, maxIter, bb, tolerance)
  {
    RunShift(a, s, res.value.iterations - (k + 1));
    ExitRunBack(a, b, s, Next(a, s), res, k, maxIter);
    ExitStatusBack(a, b, s, res, k, maxIter, bb, tolerance);
  }

  /** `ExitRun` carries back to an earlier state `s` whose run is the run
      from `t` with one more update in front. */
  lemma ExitRunBack(a: Csr, b: Vec, s: State, t: State, res: Result<Report>, k: nat, maxIter: nat)
    requires Shaped(a, s) && Shaped(a, t) && |b| == a.rows
    requires ExitRun(a, b, t, res, k + 1, maxIter)
    requires Run(a, s, res.value.iterations - k) == Run(a, t, res.value.iterations - (k + 1))
    ensures ExitRun(a, b, s, res, k, maxIter)
  {
  }

  /** A run from a state that admits an update is that update followed by
      the run from the next state. */
  lemma RunShift(a: Csr, s: State, n: nat)
    requires Shaped(a, s) && Proceeds(a, s)
    ensures Run(a, s, n + 1) == Run(a, Next(a, s), n)
  {
  }

  /** `ExitStatus` carries back over one update when the test failed on
      `s`. */
  lemma ExitStatusBack(a: Csr, b: Vec, s: State, res: Result<Report>, k: nat, maxIter: nat, bb: real, tolerance: real)
    requires Shaped(a, s) && |b| == a.rows && Proceeds(a, s) && !BelowTolerance(s.rr, bb, tolerance)
    requires ExitRun(a, b, Next(a, s), res, k + 1, maxIter)
    requires ExitStatus(a, b, Next(a, s), res, k + 1, maxIter, bb, tolerance)
    requires ExitRun(a, b, s, res, k, maxIter)
    ensures ExitStatus(a, b, s, res, k, maxIter, bb, tolerance)
  {
    var n := res.value.iterations - (k + 1);
    assert Run(a, s, n + 1) == Run(a, Next(a, s), n);
    TestFailedShift(a, s, n, bb, tolerance);
  }

  /** The iterative loop of `solve_cg` from state `s0`, with `bb` the
      squared norm of `b`: at most `maxIter` rounds of "test for convergence,
      then update". It computes exactly `Rounds`. */
  method Loop(a: Csr, b: Vec, s0: State, maxIter: nat, bb: real, tolerance: real)
    returns (res: Result<Report>)
    requires Inv(a, b, s0)
    ensures res == Rounds(a, b, s0, 0, maxIter, bb, tolerance)
  {
    var s := s0;
    var k := 0;
    while k < maxIter
      invariant 0 <= k <= maxIter
      invariant Inv(a, b, s)
      invariant Rounds(a, b, s, k, maxIter, bb, tolerance) == Rounds(a, b, s0, 0, maxIter, bb, tolerance)
    {
      RoundsStops(a, b, s, k, maxIter, bb, tolerance);
      if BelowTolerance(s.rr, bb, tolerance) {
        return Success(Report(s.x, Converged, k, s.r));
      }
      var step := Advance(a, b, s);
      if step.Mismatch? {
        return Failure(LengthError);
      }
      if step.Stalled? {
        return Success(Report(s.x, ZeroCurvature, k, s.r));
      }
      RoundsNext(a, b, s, k, maxIter, bb, tolerance);
      s := step.next;
      k := k + 1;
    }
    RoundsStops(a, b, s, k, maxIter, bb, tolerance);
    return Success(Report(s.x, IterationLimit, k, s.r));
  }

  /** The rounds that stop, each with the result it stops with. */
  lemma RoundsStops(a: Csr, b: Vec, s: State, k: nat, maxIter: nat, bb: real, tolerance: real)
    requires Inv(a, b, s) && k <= maxIter
    ensures k == maxIter ==>
      Rounds(a, b, s, k, maxIter, bb, tolerance) == Success(Report(s.x, IterationLimit, k, s.r))
    ensures k < maxIter && BelowTolerance(s.rr, bb, tolerance) ==>
      Rounds(a, b, s, k, maxIter, bb, tolerance) == Success(Report(s.x, Converged, k, s.r))
    ensures k < maxIter && !BelowTolerance(s.rr, bb, tolerance) && a.rows != a.cols ==>
      Rounds(a, b, s, k, maxIter, bb, tolerance) == Failure(LengthError)
    ensures k < maxIter && !BelowTolerance(s.rr, bb, tolerance) && a.rows == a.cols
            && Curvature(a, s.p) == 0.0 ==>
      Rounds(a, b, s, k, maxIter, bb, tolerance) == Success(Report(s.x, ZeroCurvature, k, s.r))
  {
  }

  /** A round that neither stops nor throws hands over to the next round
      from the updated state. */
  lemma RoundsNext(a: Csr, b: Vec, s: State, k: nat, maxIter: nat, bb: real, tolerance: real)
    requires Inv(a, b, s) && k < maxIter && !BelowTolerance(s.rr, bb, tolerance)
    requires a.rows == a.cols && Curvature(a, s.p) != 0.0
    ensures s.rr != 0.0 && Inv(a, b, Next(a, s))
    ensures Rounds(a, b, s, k, maxIter, bb, tolerance) == Rounds(a, b, Next(a, s), k + 1, maxIter, bb, tolerance)
  {
    NextInv(a, b, s);
  }

  /** `solve_cg(A, b, x0, max_iter, tolerance)`: throws `length_error` when
      `x0` does not fit the matrix, otherwise computes `r = b - A x0`,
      `p = r` and the squared norms, and runs the loop from there. Norms are
      compared squared (see `Products.NormTestSquared`). The model stops with
      `ZeroCurvature` where `solve_cg` divides by `p · Ap == 0`. */
  method SolveCg(a: Csr, b: Vec, x0: Vec, maxIter: nat, tolerance: real) returns (res: Result<Report>)
    requires Valid(a) && |b| == a.rows
    ensures res.Failure? ==> res.error == LengthError
    ensures |x0| != a.cols ==> res == Failure(LengthError)
    ensures |x0| == a.cols && a.rows == a.cols ==> res.Success?
    ensures |x0| == a.cols && a.rows != a.cols ==>
      (res.Failure? <==>
        maxIter > 0 && !BelowTolerance(NormSquared(Residual(a, b, x0)), NormSquared(b), tolerance))
    ensures res.Success? ==>
      && |x0| == a.cols
      && |res.value.x| == a.cols
      && res.value.iterations <= maxIter
      && res.value.residual == Residual(a, b, res.value.x)
      && (res.value.status == Converged ==>
            && res.value.iterations < maxIter
            && BelowTolerance(NormSquared(res.value.residual), NormSquared(b), tolerance))
      && (res.value.status == IterationLimit ==> res.value.iterations == maxIter)
      && (res.value.status == ZeroCurvature ==>
            && res.value.iterations < maxIter
            && !BelowTolerance(NormSquared(res.value.residual), NormSquared(b), tolerance))
    ensures res.Success? && a.rows != a.cols ==>
      res.value.x == x0 && res.value.iterations == 0
    ensures res.Success? && a.rows == a.cols ==>
      var run := Run(a, Start(a, b, x0), res.value.iterations);
      && run.Advanced?
      && run.next.x == res.value.x
      && (res.value.status == ZeroCurvature ==> Curvature(a, run.next.p) == 0.0)
    ensures res.Success? && a.rows == a.cols ==>
      TestFailedBefore(a, Start(a, b, x0), res.value.iterations, NormSquared(b), tolerance)
    ensures |x0| == a.cols && maxIter == 0 ==>
      res == Success(Report(x0, IterationLimit, 0, Residual(a, b, x0)))
    ensures (|x0| == a.cols && maxIter > 0
             && BelowTolerance(NormSquared(Residual(a, b, x0)), NormSquared(b), tolerance)) ==>
      res == Success(Report(x0, Converged, 0, Residual(a, b, x0)))
    ensures IsZero(b) ==> !(res.Success? && res.value.status == Converged)
    ensures |x0| == a.cols && a.rows == a.cols && maxIter > 0 && IsZero(b) && IsZero(x0) ==>
      res == Success(Report(x0, ZeroCurvature, 0, Residual(a, b, x0)))
  {
    if |x0| != a.cols {
      return Failure(LengthError);
    }
    var ax := Multiply(a, x0);
    var r := Sub(b, ax.value);
    var s := State(x0, r, r, Dot(r, r));
    var bb := Dot(b, b);
    assert s == Start(a, b, x0);
    if IsZero(b) && IsZero(x0) {
      ZeroStartResidual(a, b, x0);
      ZeroThresholdNeverPasses(s.rr, bb, tolerance);
      if a.rows == a.cols {
        ZeroDirectionCurvature(a, s.p);
      }
    }
    res := Loop(a, b, s, maxIter, bb, tolerance);
    if a.rows == a.cols {
      RoundsSquare(a, b, s, 0, maxIter, bb, tolerance);
      var t := Run(a, s, res.value.iterations).next;
      ZeroThresholdNeverPasses(t.rr, bb, tolerance);
    } else {
      RoundsNonSquare(a, b, s, maxIter, bb, tolerance);
      ZeroThresholdNeverPasses(s.rr, bb, tolerance);
    }
  }
}
