/** update() (nbody.cpp): pairwise softened gravity accumulated into a per-body
    acceleration array, then an explicit Euler move of every body. */
module Step {
  import opened Vector
  import opened Bodies
  import opened Libm
  import opened Config
  import opened Shaping
  import opened Pairs

  /** No body has zero mass: the step divides by every mass of a pair that acts. */
  ghost predicate MassesNonZero(s: seq<Body>)
  {
    forall k :: 0 <= k < |s| ==> s[k].mass != 0.0
  }

  /** ((w / m) * x) * m == w * x, the cancellation behind Newton's third law. */
  lemma Reweigh(w: real, x: real, m: real)
    requires m != 0.0
    ensures ((w / m) * x) * m == w * x
  {
    assert (w / m) * m == w;
  }

  /** The same for vectors. */
  lemma ReweighVec(w: Vec2, x: real, m: real)
    requires m != 0.0
    ensures Scale(Scale(Div(w, m), x), m) == Scale(w, x)
  {
    Reweigh(w.x, x, m);
    Reweigh(w.y, x, m);
  }

  /** The contribution of a pair (i, j) that is farther apart than the minimum:
      the first component is added to acc[i], the second subtracted from
      acc[j]. Both are the same vector divided by the respective mass, so the
      mass-weighted contributions are equal and opposite. */
  function Pull(bi: Body, bj: Body, lib: MathLib): (r: (Vec2, Vec2))
    requires bi.mass != 0.0 && bj.mass != 0.0 && lib.SqrtPositive()
    requires Length2(Sub(bi.pos, bj.pos)) > MIN2
    ensures Scale(r.0, bi.mass) == Scale(r.1, bj.mass)
  {
    var dx := Sub(bi.pos, bj.pos);
    var d2 := Length2(dx);
    LengthPositive(dx, lib);
    var u := Normalise(dx, lib);
    var x := Smoothstep(MIN2, 2.0 * MIN2, d2);
    var f := -G * bi.mass * bj.mass / d2;
    ReweighVec(Scale(u, f), x, bi.mass);
    ReweighVec(Scale(u, f), x, bj.mass);
    (Scale(Div(Scale(u, f), bi.mass), x), Scale(Div(Scale(u, f), bj.mass), x))
  }

  /** m * (a + d) - m * a + m' * (b - d') - m' * b == 0 when m * d == m' * d'. */
  lemma Balance(a: real, d: real, m: real, b: real, d': real, m': real)
    requires d * m == d' * m'
    ensures ((a + d) - a) * m + ((b - d') - b) * m' == 0.0
  {
  }

  /** One pass of the inner loop body on the accumulator: only acc[i] and
      acc[j] can change; a pair closer than the minimum changes nothing,
      otherwise the pull is added at i and its partner subtracted at j. */
  function ApplyPair(s: seq<Body>, acc: seq<Vec2>, p: Pair, lib: MathLib): (r: seq<Vec2>)
    requires p.0 < p.1 < |s| == |acc|
    requires MassesNonZero(s) && lib.SqrtPositive()
    ensures |r| == |acc|
  {
    var (i, j) := p;
    if Length2(Sub(s[i].pos, s[j].pos)) > MIN2 then
      var pull := Pull(s[i], s[j], lib);
      acc[i := Add(acc[i], pull.0)][j := Sub(acc[j], pull.1)]
    else
      acc
  }

  /** The two branches of ApplyPair, spelt out for the loop that performs them. */
  lemma ApplyPairCases(s: seq<Body>, acc: seq<Vec2>, i: nat, j: nat, lib: MathLib)
    requires i < j < |s| == |acc|
    requires MassesNonZero(s) && lib.SqrtPositive()
    ensures Length2(Sub(s[i].pos, s[j].pos)) <= MIN2 ==> ApplyPair(s, acc, (i, j), lib) == acc
    ensures Length2(Sub(s[i].pos, s[j].pos)) > MIN2 ==>
      ApplyPair(s, acc, (i, j), lib) ==
        acc[i := Add(acc[i], Pull(s[i], s[j], lib).0)][j := Sub(acc[j], Pull(s[i], s[j], lib).1)]
  {
  }

  /** A pass changes only acc[i] and acc[j]. */
  lemma ApplyPairFrame(s: seq<Body>, acc: seq<Vec2>, i: nat, j: nat, lib: MathLib)
    requires i < j < |s| == |acc|
    requires MassesNonZero(s) && lib.SqrtPositive()
    ensures forall k :: 0 <= k < |acc| && k != i && k != j ==> ApplyPair(s, acc, (i, j), lib)[k] == acc[k]
  {
  }

  /** Newton's third law for one pass: the mass-weighted changes at i and j
      cancel. */
  lemma ApplyPairBalanced(s: seq<Body>, acc: seq<Vec2>, i: nat, j: nat, lib: MathLib)
    requires i < j < |s| == |acc|
    requires MassesNonZero(s) && lib.SqrtPositive()
    ensures var r := ApplyPair(s, acc, (i, j), lib);
      Add(Scale(Sub(r[i], acc[i]), s[i].mass), Scale(Sub(r[j], acc[j]), s[j].mass)) == ZERO
  {
    ApplyPairCases(s, acc, i, j, lib);
    if Length2(Sub(s[i].pos, s[j].pos)) > MIN2 {
      var pull := Pull(s[i], s[j], lib);
      BalanceVec(acc[i], pull.0, s[i].mass, acc[j], pull.1, s[j].mass);
    } else {
      BalanceVec(acc[i], ZERO, s[i].mass, acc[j], ZERO, s[j].mass);
    }
  }

  /** The vector form of Balance. */
  lemma BalanceVec(a: Vec2, d: Vec2, m: real, b: Vec2, d': Vec2, m': real)
    requires Scale(d, m) == Scale(d', m')
    ensures Add(Scale(Sub(Add(a, d), a), m), Scale(Sub(Sub(b, d'), b), m')) == ZERO
  {
    Balance(a.x, d.x, m, b.x, d'.x, m');
    Balance(a.y, d.y, m, b.y, d'.y, m');
  }

  /** n zero vectors: the accumulator after its clearing loop. */
  function Zeros(n: nat): (z: seq<Vec2>)
  {
    seq(n, _ => ZERO)
  }

  /** The inner loop body as a step function on accumulators, the one both
      pair loops of update() apply. A pair that is not of two distinct bodies,
      the smaller index first, or an accumulator of the wrong length, is
      passed over; the loops never present one. */
  function PairStep(s: seq<Body>, lib: MathLib): (f: (seq<Vec2>, Pair) -> seq<Vec2>)
    requires MassesNonZero(s) && lib.SqrtPositive()
    ensures forall acc, p :: |f(acc, p)| == |acc|
  {
    (acc: seq<Vec2>, p: Pair) =>
      if p.0 < p.1 < |s| == |acc| then ApplyPair(s, acc, p, lib) else acc
  }

  /** The accelerations of one step: the accumulator after both pair loops,
      started from a cleared one. */
  function Accelerations(s: seq<Body>, lib: MathLib): (acc: seq<Vec2>)
    requires MassesNonZero(s) && lib.SqrtPositive()
    ensures |acc| == |s|
  {
    LoopsKeep(PairStep(s, lib), Zeros(|s|), |s|, |s|, x => |x| == |s|);
    Loops(PairStep(s, lib), Zeros(|s|), |s|, |s|)
  }

  /** The two loops together apply the pass to the pairs of AllPairs in its
      order, and none of them is passed over. */
  lemma AccelerationsFoldAllPairs(s: seq<Body>, lib: MathLib)
    requires MassesNonZero(s) && lib.SqrtPositive()
    ensures Proper(AllPairs(|s|), |s|)
    ensures Accelerations(s, lib) == Fold(PairStep(s, lib), Zeros(|s|), AllPairs(|s|))
  {
    PrefixProper(|s|, |s|);
    LoopsFoldAllPairs(PairStep(s, lib), Zeros(|s|), |s|);
  }

  /** The mass-weighted sum of the first n accelerations. */
  function Impulse(s: seq<Body>, acc: seq<Vec2>, n: nat): Vec2
    requires n <= |s| && n <= |acc|
  {
    if n == 0 then ZERO else Add(Impulse(s, acc, n - 1), Scale(acc[n - 1], s[n - 1].mass))
  }

  lemma {:induction false} ImpulseZeros(s: seq<Body>, n: nat)
    requires n <= |s|
    ensures Impulse(s, Zeros(|s|), n) == ZERO
  {
    if n > 0 {
      ImpulseZeros(s, n - 1);
    }
  }

  /** (a + b) + c == (a + c) + b */
  lemma AddSwap(a: Vec2, b: Vec2, c: Vec2)
    ensures Add(Add(a, b), c) == Add(Add(a, c), b)
  {
  }

  /** a + v * m == (a + x * m) + (v - x) * m */
  lemma Shift(a: real, x: real, v: real, m: real)
    ensures a + v * m == (a + x * m) + (v - x) * m
  {
  }

  /** The vector form of Shift. */
  lemma ShiftVec(a: Vec2, x: Vec2, v: Vec2, m: real)
    ensures Add(a, Scale(v, m)) == Add(Add(a, Scale(x, m)), Scale(Sub(v, x), m))
  {
    Shift(a.x, x.x, v.x, m);
    Shift(a.y, x.y, v.y, m);
  }

  /** Replacing one acceleration changes the weighted sum by the weighted change. */
  lemma {:induction false} ImpulseUpdate(s: seq<Body>, acc: seq<Vec2>, n: nat, k: nat, v: Vec2)
    requires n <= |s| == |acc| && k < |acc|
    ensures Impulse(s, acc[k := v], n) ==
      if k < n then Add(Impulse(s, acc, n), Scale(Sub(v, acc[k]), s[k].mass)) else Impulse(s, acc, n)
  {
    if n > 0 {
      ImpulseUpdate(s, acc, n - 1, k, v);
      var t := acc[k := v];
      var m := s[n - 1].mass;
      assert Impulse(s, t, n) == Add(Impulse(s, t, n - 1), Scale(t[n - 1], m));
      assert Impulse(s, acc, n) == Add(Impulse(s, acc, n - 1), Scale(acc[n - 1], m));
      if k < n - 1 {
        assert t[n - 1] == acc[n - 1];
        AddSwap(Impulse(s, acc, n - 1), Scale(Sub(v, acc[k]), s[k].mass), Scale(acc[n - 1], m));
      } else if k == n - 1 {
        assert t[n - 1] == v;
        ShiftVec(Impulse(s, acc, n - 1), acc[k], v, m);
      } else {
        assert t[n - 1] == acc[n - 1];
      }
    }
  }

  /** (a + x) + y == a when x + y == 0 */
  lemma AddCancel(a: Vec2, x: Vec2, y: Vec2)
    requires Add(x, y) == ZERO
    ensures Add(Add(a, x), y) == a
  {
  }

  /** Newton's third law for one pass: it leaves the mass-weighted sum of the
      accelerations unchanged. */
  lemma ApplyPairImpulse(s: seq<Body>, acc: seq<Vec2>, i: nat, j: nat, lib: MathLib)
    requires i < j < |s| == |acc|
    requires MassesNonZero(s) && lib.SqrtPositive()
    ensures Impulse(s, ApplyPair(s, acc, (i, j), lib), |s|) == Impulse(s, acc, |s|)
  {
    var r := ApplyPair(s, acc, (i, j), lib);
    ApplyPairFrame(s, acc, i, j, lib);
    var mid := acc[i := r[i]];
    assert r == mid[j := r[j]];
    ImpulseUpdate(s, acc, |s|, i, r[i]);
    ImpulseUpdate(s, mid, |s|, j, r[j]);
    ApplyPairBalanced(s, acc, i, j, lib);
    AddCancel(Impulse(s, acc, |s|), Scale(Sub(r[i], acc[i]), s[i].mass), Scale(Sub(r[j], mid[j]), s[j].mass));
  }

  /** Newton's third law summed over both loops: the mass-weighted
      accelerations of all bodies add up to zero. */
  lemma AccelerationsBalanced(s: seq<Body>, lib: MathLib)
    requires MassesNonZero(s) && lib.SqrtPositive()
    ensures Impulse(s, Accelerations(s, lib), |s|) == ZERO
  {
    var f := PairStep(s, lib);
    var inv := (x: seq<Vec2>) => |x| == |s| && Impulse(s, x, |s|) == ZERO;
    ImpulseZeros(s, |s|);
    forall x: seq<Vec2>, p: Pair | inv(x)
      ensures inv(f(x, p))
    {
      if p.0 < p.1 < |s| {
        ApplyPairImpulse(s, x, p.0, p.1, lib);
      }
    }
    LoopsKeep(f, Zeros(|s|), |s|, |s|, inv);
  }

  /** One body's move: position first, from the velocity before the step, then
      the velocity from the accumulated acceleration. */
  function Advance(b: Body, a: Vec2): (b': Body)
    ensures b'.pos == Add(b.pos, Scale(b.vel, DT))
    ensures b'.vel == Add(b.vel, Scale(a, DT))
    ensures b'.mass == b.mass && b'.radius == b.radius
  {
    var moved := b.(pos := Add(b.pos, Scale(b.vel, DT)));
    moved.(vel := Add(moved.vel, Scale(a, DT)))
  }

  /** Every body moved by its own acceleration. */
  function Advanced(s: seq<Body>, acc: seq<Vec2>): (t: seq<Body>)
    requires |acc| == |s|
    ensures |t| == |s|
  {
    seq(|s|, k requires 0 <= k < |s| => Advance(s[k], acc[k]))
  }

  /** The store after one step. */
  function Stepped(s: seq<Body>, lib: MathLib): (s': seq<Body>)
    requires MassesNonZero(s) && lib.SqrtPositive()
    ensures |s'| == |s|
  {
    Advanced(s, Accelerations(s, lib))
  }

  /** A step keeps every mass and radius, so the next step may run again. */
  lemma SteppedKeepsBodies(s: seq<Body>, lib: MathLib)
    requires MassesNonZero(s) && lib.SqrtPositive()
    ensures |Stepped(s, lib)| == |s|
    ensures forall k :: 0 <= k < |s| ==>
      Stepped(s, lib)[k].mass == s[k].mass && Stepped(s, lib)[k].radius == s[k].radius
    ensures MassesNonZero(Stepped(s, lib))
  {
  }

  /** The total momentum of the first n bodies. */
  function Momentum(s: seq<Body>, n: nat): Vec2
    requires n <= |s|
  {
    if n == 0 then ZERO else Add(Momentum(s, n - 1), Scale(s[n - 1].vel, s[n - 1].mass))
  }

  /** One more body in both running sums: p + i * dt + (v + a * dt) * m ==
      (p + v * m) + (i + a * m) * dt. */
  lemma Kick(p: real, i: real, v: real, a: real, m: real, dt: real)
    ensures (p + i * dt) + (v + a * dt) * m == (p + v * m) + (i + a * m) * dt
  {
  }

  lemma KickVec(p: Vec2, i: Vec2, v: Vec2, a: Vec2, m: real, dt: real)
    ensures Add(Add(p, Scale(i, dt)), Scale(Add(v, Scale(a, dt)), m)) ==
            Add(Add(p, Scale(v, m)), Scale(Add(i, Scale(a, m)), dt))
  {
    Kick(p.x, i.x, v.x, a.x, m, dt);
    Kick(p.y, i.y, v.y, a.y, m, dt);
  }

  /** Moving every body by its acceleration changes the momentum by dt times the
      weighted accelerations. */
  lemma {:induction false} MomentumAfterAdvance(s: seq<Body>, acc: seq<Vec2>, t: seq<Body>, n: nat)
    requires n <= |s| == |acc| == |t|
    requires forall k :: 0 <= k < |s| ==> t[k] == Advance(s[k], acc[k])
    ensures Momentum(t, n) == Add(Momentum(s, n), Scale(Impulse(s, acc, n), DT))
  {
    if n > 0 {
      MomentumAfterAdvance(s, acc, t, n - 1);
      var k := n - 1;
      var p, i := Momentum(s, k), Impulse(s, acc, k);
      var v, a, m := s[k].vel, acc[k], s[k].mass;
      assert t[k].vel == Add(v, Scale(a, DT)) && t[k].mass == m;
      assert Momentum(t, n) == Add(Add(p, Scale(i, DT)), Scale(Add(v, Scale(a, DT)), m));
      assert Momentum(s, n) == Add(p, Scale(v, m));
      assert Impulse(s, acc, n) == Add(i, Scale(a, m));
      KickVec(p, i, v, a, m, DT);
    } else {
      assert Add(ZERO, Scale(ZERO, DT)) == ZERO;
    }
  }

  /** Because the pairwise forces cancel, a step conserves total momentum. */
  lemma StepConservesMomentum(s: seq<Body>, lib: MathLib)
    requires MassesNonZero(s) && lib.SqrtPositive()
    ensures Momentum(Stepped(s, lib), |s|) == Momentum(s, |s|)
  {
    AccelerationsBalanced(s, lib);
    MomentumAfterAdvance(s, Accelerations(s, lib), Stepped(s, lib), |s|);
  }

  /** update(): one step of the whole store, in place. The accumulator is a
      fresh array, cleared, filled by the pair loops and then used to move
      every body. */
  method Update(bodies: array<Body>, lib: MathLib)
    requires MassesNonZero(bodies[..]) && lib.SqrtPositive()
    modifies bodies
    ensures bodies[..] == Stepped(old(bodies[..]), lib)
  {
    ghost var s := bodies[..];
    var n := bodies.Length;
    var acc := new Vec2[n];
    Clear(acc);
    AccumulatePairs(bodies, acc, lib, s);
    Integrate(bodies, acc);
  }

  /** The first loop of update(): every acceleration set to vec2(0, 0). */
  method Clear(acc: array<Vec2>)
    modifies acc
    ensures acc[..] == Zeros(acc.Length)
  {
    var i := 0;
    while i < acc.Length
      invariant 0 <= i <= acc.Length
      invariant forall k :: 0 <= k < i ==> acc[k] == ZERO
    {
      acc[i] := Vec2(0.0, 0.0);
      i := i + 1;
    }
  }

  /** The pair loops of update(): for each i, the inner loop over j > i. */
  method AccumulatePairs(bodies: array<Body>, acc: array<Vec2>, lib: MathLib, ghost s: seq<Body>)
    requires s == bodies[..] && acc.Length == bodies.Length && acc[..] == Zeros(bodies.Length)
    requires MassesNonZero(s) && lib.SqrtPositive()
    modifies acc
    ensures acc[..] == Accelerations(s, lib)
  {
    var n := bodies.Length;
    var i := 0;
    while i < n
      invariant 0 <= i <= n
      invariant acc[..] == Loops(PairStep(s, lib), Zeros(n), i, n)
    {
      AccumulateRow(bodies, acc, i, lib, s);
      i := i + 1;
    }
  }

  /** One pass of the outer loop: the inner loop over j = i + 1 .. n - 1. */
  method AccumulateRow(bodies: array<Body>, acc: array<Vec2>, i: nat, lib: MathLib, ghost s: seq<Body>)
    requires s == bodies[..] && acc.Length == bodies.Length && i < bodies.Length
    requires MassesNonZero(s) && lib.SqrtPositive()
    modifies acc
    ensures acc[..] == RowLoop(PairStep(s, lib), old(acc[..]), i, |s|)
  {
    ghost var start := acc[..];
    var j := i + 1;
    while j < bodies.Length
      invariant i + 1 <= j <= bodies.Length
      invariant acc[..] == RowLoop(PairStep(s, lib), start, i, j)
    {
      ApplyPairInPlace(bodies, acc, i, j, lib, s);
      j := j + 1;
    }
  }

  /** The body of the inner loop for the pair (i, j): when d2 > min2, add the
      pull to acc[i] and subtract its partner from acc[j]. */
  method ApplyPairInPlace(bodies: array<Body>, acc: array<Vec2>, i: nat, j: nat, lib: MathLib, ghost s: seq<Body>)
    requires s == bodies[..] && acc.Length == bodies.Length && i < j < bodies.Length
    requires MassesNonZero(s) && lib.SqrtPositive()
    modifies acc
    ensures acc[..] == ApplyPair(s, old(acc[..]), (i, j), lib)
  {
    ghost var before := acc[..];
    ApplyPairCases(s, before, i, j, lib);
    var dx := Sub(bodies[i].pos, bodies[j].pos);
    var d2 := Length2(dx);
    if d2 > MIN2 {
      var pull := Pull(bodies[i], bodies[j], lib);
      AddInto(acc, i, pull.0);
      assert acc[j] == before[j];
      SubInto(acc, j, pull.1);
    }
  }

  /** The last loop of update(): move each body with its old velocity, then
      update the velocity from its acceleration. */
  method Integrate(bodies: array<Body>, acc: array<Vec2>)
    requires acc.Length == bodies.Length
    modifies bodies
    ensures bodies[..] == Advanced(old(bodies[..]), acc[..])
  {
    var i := 0;
    while i < bodies.Length
      invariant 0 <= i <= bodies.Length
      invariant forall k :: 0 <= k < i ==> bodies[k] == Advance(old(bodies[k]), acc[k])
      invariant forall k :: i <= k < bodies.Length ==> bodies[k] == old(bodies[k])
    {
      bodies[i] := bodies[i].(pos := Add(bodies[i].pos, Scale(bodies[i].vel, DT)));
      bodies[i] := bodies[i].(vel := Add(bodies[i].vel, Scale(acc[i], DT)));
      i := i + 1;
    }
  }
}
