/** Global sequences (pkg/seq/manager.go) under any interleaving of the workers that share them: a number is
    claimed in one atomic step and its value computed in another. */
module Sequence {

  const TWO_64 := 0x1_0000_0000_0000_0000
  const TWO_63 := 0x8000_0000_0000_0000

  /** Arithmetic on `int64`. */
  function Wrap(x: int): (w: int) { (x + TWO_63) % TWO_64 - TWO_63 }

  datatype Config = Config(start: int, step: int)

  /** `value`. */
  function Value(c: Config, index: int): (value: int) { Wrap(c.start + index * c.step) }

  /** The values begin with the start, and each is the one before plus the step, as a 64-bit number. */
  lemma ValuesStep(c: Config, index: nat)
    ensures -TWO_63 <= Value(c, index) < TWO_63
    ensures -TWO_63 <= c.start < TWO_63 ==> Value(c, 0) == c.start
    ensures (Value(c, index + 1) - Value(c, index) - c.step) % TWO_64 == 0
  {
    var x := c.start + index * c.step;
    assert c.start + (index + 1) * c.step == x + c.step;
    WrapRest(x);
    WrapRest(x + c.step);
    var p, q := (x + TWO_63) / TWO_64, (x + c.step + TWO_63) / TWO_64;
    assert Value(c, index + 1) - Value(c, index) - c.step == (p - q) * TWO_64;
    MultipleOf(p - q);
  }

  lemma WrapRest(x: int)
    ensures Wrap(x) == x - ((x + TWO_63) / TWO_64) * TWO_64
  {
  }

  lemma MultipleOf(k: int)
    ensures (k * TWO_64) % TWO_64 == 0
  {
  }

  /** What a worker that has called `Next` or `Rand` is about to do. */
  datatype Pending = Idle | Claimed(index: nat) | Loaded(count: nat)

  /** An index handed out, and to whom. */
  datatype Handout = Handout(worker: nat, index: nat)

  datatype State = State(counter: nat, pending: map<nat, Pending>, handouts: seq<Handout>, drawn: seq<nat>)

  datatype Step =
    | Claim(worker: nat)              // Next: the atomic add
    | Deliver(worker: nat)            // Next: the value
    | Load(worker: nat)               // Rand: the count
    | Draw(worker: nat, index: nat)   // Rand: an index below the count

  function PendingOf(s: State, w: nat): Pending {
    if w in s.pending then s.pending[w] else Idle
  }

  predicate Enabled(s: State, step: Step) {
    match step
    case Claim(w) => PendingOf(s, w).Idle?
    case Deliver(w) => PendingOf(s, w).Claimed?
    case Load(w) => PendingOf(s, w).Idle?
    case Draw(w, i) => PendingOf(s, w).Loaded? && i < PendingOf(s, w).count
  }

  function Apply(s: State, step: Step): State
    requires Enabled(s, step)
  {
    match step
    case Claim(w) => s.(counter := s.counter + 1, pending := s.pending[w := Claimed(s.counter)])
    case Deliver(w) =>
      s.(pending := s.pending[w := Idle], handouts := s.handouts + [Handout(w, PendingOf(s, w).index)])
    case Load(w) =>
      // no values yet: an error, and nothing is drawn
      if s.counter == 0 then s else s.(pending := s.pending[w := Loaded(s.counter)])
    case Draw(w, i) => s.(pending := s.pending[w := Idle], drawn := s.drawn + [i])
  }

  const Initial := State(0, map[], [], [])

  predicate Path(s: State, steps: seq<Step>)
    decreases |steps|
  {
    steps == [] || (Enabled(s, steps[0]) && Path(Apply(s, steps[0]), steps[1..]))
  }

  function After(s: State, steps: seq<Step>): State
    requires Path(s, steps)
    decreases |steps|
  {
    if steps == [] then s else After(Apply(s, steps[0]), steps[1..])
  }

  // ----------------------------------------------------------------- invariant

  /** Index k has been delivered, or its claimer is about to deliver it. */
  ghost predicate Taken(s: State, k: nat) {
    (exists j :: 0 <= j < |s.handouts| && s.handouts[j].index == k)
    || (exists w: nat :: PendingOf(s, w) == Claimed(k))
  }

  /** What a worker has claimed is nobody's yet and beyond all it has had; what it may pick has been claimed. */
  ghost predicate WorkerOk(s: State, w: nat) {
    match PendingOf(s, w)
    case Idle => true
    case Claimed(index) =>
      && index < s.counter
      && (forall j :: 0 <= j < |s.handouts| ==> s.handouts[j].index != index)
      && (forall j :: 0 <= j < |s.handouts| && s.handouts[j].worker == w ==> s.handouts[j].index < index)
      && (forall v: nat :: v != w ==> PendingOf(s, v) != Claimed(index))
    case Loaded(count) => count <= s.counter
  }

  ghost predicate Ascending(handouts: seq<Handout>) {
    forall i, j :: 0 <= i < j < |handouts| ==>
      && handouts[i].index != handouts[j].index
      && (handouts[i].worker == handouts[j].worker ==> handouts[i].index < handouts[j].index)
  }

  ghost predicate Inv(s: State) {
    && (forall k: nat :: k < s.counter ==> Taken(s, k))
    && (forall j :: 0 <= j < |s.handouts| ==> s.handouts[j].index < s.counter)
    && Ascending(s.handouts)
    && (forall w: nat :: WorkerOk(s, w))
    && (forall j :: 0 <= j < |s.drawn| ==> s.drawn[j] < s.counter)
  }

  lemma WorkersKept(s: State, w: nat, step: Step)
    requires Inv(s) && Enabled(s, step) && step.worker == w
    ensures forall v: nat :: WorkerOk(Apply(s, step), v)
  {
    var s' := Apply(s, step);
    assert forall v: nat :: v != w ==> PendingOf(s', v) == PendingOf(s, v);
    forall v: nat
      ensures WorkerOk(s', v)
    {
      assert WorkerOk(s, v) && WorkerOk(s, w);
      forall u: nat | u != v && PendingOf(s', v).Claimed?
        ensures PendingOf(s', u) != PendingOf(s', v)
      {
        assert WorkerOk(s, u);
      }
    }
  }

  lemma TakenKept(s: State, w: nat, step: Step, k: nat)
    requires Inv(s) && Enabled(s, step) && step.worker == w
    requires k < Apply(s, step).counter
    ensures Taken(Apply(s, step), k)
  {
    var s' := Apply(s, step);
    var n := |s.handouts|;
    if k == s.counter {
      assert PendingOf(s', w) == Claimed(k);
    } else {
      assert Taken(s, k);
      if j :| 0 <= j < n && s.handouts[j].index == k {
        assert s'.handouts[j].index == k;
      } else {
        var v: nat :| PendingOf(s, v) == Claimed(k);
        assert if v == w then s'.handouts[n].index == k else PendingOf(s', v) == Claimed(k);
      }
    }
  }

  lemma Kept(s: State, step: Step)
    requires Inv(s) && Enabled(s, step)
    ensures Inv(Apply(s, step))
  {
    WorkersKept(s, step.worker, step);
    forall k: nat | k < Apply(s, step).counter
      ensures Taken(Apply(s, step), k)
    {
      TakenKept(s, step.worker, step, k);
    }
    assert WorkerOk(s, step.worker);
  }

  lemma {:induction false} KeptAlong(s: State, steps: seq<Step>)
    requires Inv(s) && Path(s, steps)
    ensures Inv(After(s, steps))
    decreases |steps|
  {
    if steps != [] {
      Kept(s, steps[0]);
      KeptAlong(Apply(s, steps[0]), steps[1..]);
    }
  }

  // ------------------------------------------------------------------ guarantees

  lemma TakenBelow(s: State, k: nat)
    requires Inv(s) && Taken(s, k)
    ensures k < s.counter
  {
    if w: nat :| PendingOf(s, w) == Claimed(k) {
      assert WorkerOk(s, w);
    }
  }

  /** In every interleaving: no index is handed out twice, each worker's indices increase, there is no gap
      (an index below the counter that has not been handed out is claimed by a worker about to hand it out),
      and a random pick is of an index that has been claimed. */
  lemma GapFree(steps: seq<Step>)
    requires Path(Initial, steps)
    ensures var s := After(Initial, steps);
      && Ascending(s.handouts)
      && (forall k: nat :: k < s.counter <==> Taken(s, k))
      && (forall j :: 0 <= j < |s.drawn| ==> s.drawn[j] < s.counter)
  {
    KeptAlong(Initial, steps);
    var s := After(Initial, steps);
    forall k: nat | Taken(s, k)
      ensures k < s.counter
    {
      TakenBelow(s, k);
    }
  }

  // ----------------------------------------------------------------------- values

  lemma WrapStep(x: int) returns (n: int)
    ensures Wrap(x) == x - n * TWO_64 && -TWO_63 <= Wrap(x) < TWO_63
  {
    n := (x + TWO_63) / TWO_64;
  }

  lemma WrapEqual(x: int, y: int)
    ensures Wrap(x) == Wrap(y) <==> (x - y) % TWO_64 == 0
  {
    var a := WrapStep(x);
    var b := WrapStep(y);
    var d := x - y;
    assert Wrap(x) - Wrap(y) == d - (a - b) * TWO_64;
    if d % TWO_64 == 0 {
      var n := d / TWO_64;
      assert Wrap(x) - Wrap(y) == (n - (a - b)) * TWO_64;
    }
  }

  /** Two indices give the same value exactly if their distance times the step is a multiple of 2^64. */
  lemma ValuesCollide(c: Config, i: int, j: int)
    ensures Value(c, i) == Value(c, j) <==> ((i - j) * c.step) % TWO_64 == 0
  {
    WrapEqual(c.start + i * c.step, c.start + j * c.step);
    assert (c.start + i * c.step) - (c.start + j * c.step) == (i - j) * c.step;
  }

  /** The counter of the source is an `int64` too; that it wraps around makes no difference to the values. */
  lemma WrappedIndex(c: Config, index: int)
    ensures Value(c, Wrap(index)) == Value(c, index)
  {
    var n := WrapStep(index);
    Regroup(index, n, c.step);
    WrapMultiple(c.start + index * c.step, -n * c.step);
  }

  lemma Regroup(i: int, n: int, step: int)
    ensures (i - n * TWO_64) * step == i * step + (-n * step) * TWO_64
  {
  }

  lemma WrapMultiple(x: int, q: int)
    ensures Wrap(x + q * TWO_64) == Wrap(x)
  {
    var d := TWO_64 * q;
    Multiple(TWO_64, q);
    WrapEqual(x + d, x);
  }

  // ----------------------------------------------------------------------- period

  function Pow2(k: nat): (p: nat)
    ensures p > 0
  {
    if k == 0 then 1 else 2 * Pow2(k - 1)
  }

  /** The greatest common divisor of `step` and 2^k. */
  function Divisor(step: int, k: nat): (g: nat)
    ensures g > 0
    decreases k
  {
    if k == 0 || step % 2 != 0 then 1 else 2 * Divisor(step / 2, k - 1)
  }

  /** 2^k by that divisor. */
  function Period(step: int, k: nat): (p: nat)
    ensures p > 0
    decreases k
  {
    if k == 0 then 1 else if step % 2 != 0 then Pow2(k) else Period(step / 2, k - 1)
  }

  lemma {:induction false} PeriodTimesDivisor(step: int, k: nat)
    ensures Period(step, k) * Divisor(step, k) == Pow2(k)
    decreases k
  {
    if k > 0 && step % 2 == 0 {
      PeriodTimesDivisor(step / 2, k - 1);
      assert Period(step / 2, k - 1) * (2 * Divisor(step / 2, k - 1)) == 2 * Pow2(k - 1);
    }
  }

  lemma FactorBounds(n: int, k: int)
    requires n > 0
    ensures k >= 1 ==> n * k >= n
    ensures k <= -1 ==> n * k <= -n
  {
  }

  lemma Within(d: int, p: int)
    requires p > 0 && d % p == 0 && -p < d < p
    ensures d == 0
  {
    FactorBounds(p, d / p);
    assert d == p * (d / p);
  }

  lemma Multiple(n: int, q: int)
    requires n > 0
    ensures (n * q) % n == 0
  {
    var x := n * q;
    assert x == n * (x / n) + x % n;
    assert n * (q - x / n) == x % n;
    FactorBounds(n, q - x / n);
  }

  lemma Halve(m: int, n: int)
    requires n > 0
    ensures (2 * m) % (2 * n) == 0 <==> m % n == 0
  {
    if m % n == 0 {
      var q := m / n;
      assert m == n * q;
      assert 2 * m == (2 * n) * q;
      Multiple(2 * n, q);
    }
    if (2 * m) % (2 * n) == 0 {
      var q := (2 * m) / (2 * n);
      assert 2 * m == (2 * n) * q;
      assert m == n * q;
      Multiple(n, q);
    }
  }

  lemma HalveOdd(x: int, d: int)
    requires x % 2 == 0 && d > 0 && d % 2 == 1 && x % d == 0
    ensures (x / 2) % d == 0
  {
    var q := x / d;
    assert x == d * q;
    if q % 2 == 1 {
      OddTimesOdd(d, q);
    }
    assert q == 2 * (q / 2);
    assert x == 2 * (d * (q / 2));
    Multiple(d, q / 2);
  }

  lemma OddTimesOdd(a: int, b: int)
    requires a % 2 == 1 && b % 2 == 1
    ensures (a * b) % 2 == 1
  {
    assert a == 2 * (a / 2) + 1;
    assert a * b == 2 * ((a / 2) * b) + b;
  }

  lemma {:induction false} DivisorDivides(step: int, k: nat)
    ensures step % Divisor(step, k) == 0 && Pow2(k) % Divisor(step, k) == 0
    decreases k
  {
    if k > 0 && step % 2 == 0 {
      DivisorDivides(step / 2, k - 1);
      Halve(step / 2, Divisor(step / 2, k - 1));
      Halve(Pow2(k - 1), Divisor(step / 2, k - 1));
    }
  }

  /** No common divisor is greater. */
  lemma {:induction false} DivisorGreatest(step: int, k: nat, d: nat)
    requires d > 0 && step % d == 0 && Pow2(k) % d == 0
    ensures d <= Divisor(step, k)
    decreases k
  {
    if k > 0 {
      if d % 2 == 0 {
        EvenFactor(step, d);
        Halve(step / 2, d / 2);
        Halve(Pow2(k - 1), d / 2);
        DivisorGreatest(step / 2, k - 1, d / 2);
      } else {
        HalveOdd(Pow2(k), d);
        if step % 2 == 0 {
          HalveOdd(step, d);
          DivisorGreatest(step / 2, k - 1, d);
        } else {
          DivisorGreatest(step, k - 1, d);
        }
      }
    }
  }

  lemma EvenFactor(x: int, d: nat)
    requires d > 0 && d % 2 == 0 && x % d == 0
    ensures x % 2 == 0
  {
    assert x == 2 * ((d / 2) * (x / d));
  }

  lemma OddDistance(step: int, d: int, k: nat)
    requires step % 2 == 1 && d % 2 == 1 && k > 0
    ensures (d * step) % Pow2(k) != 0 && d % Pow2(k) != 0
  {
    OddTimesOdd(d, step);
    if (d * step) % Pow2(k) == 0 {
      EvenFactor(d * step, Pow2(k));
    }
    if d % Pow2(k) == 0 {
      EvenFactor(d, Pow2(k));
    }
  }

  lemma {:induction false} OddStep(step: int, d: int, k: nat)
    requires step % 2 == 1
    ensures (d * step) % Pow2(k) == 0 <==> d % Pow2(k) == 0
    decreases k
  {
    if k == 0 {
    } else if d % 2 == 1 {
      OddDistance(step, d, k);
    } else {
      var e := d / 2;
      TwiceProduct(e, step);
      Halve(e * step, Pow2(k - 1));
      Halve(e, Pow2(k - 1));
      OddStep(step, e, k - 1);
    }
  }

  lemma TwiceProduct(e: int, x: int)
    ensures (2 * e) * x == 2 * (e * x)
  {
  }

  /** The period is what its name says: the multiples of the step repeat modulo 2^k after that many and not before. */
  lemma {:induction false} PeriodExact(step: int, d: int, k: nat)
    ensures (d * step) % Pow2(k) == 0 <==> d % Period(step, k) == 0
    decreases k
  {
    if k > 0 {
      if step % 2 == 0 {
        TwiceProduct(step / 2, d);
        assert d * step == 2 * (d * (step / 2));
        Halve(d * (step / 2), Pow2(k - 1));
        PeriodExact(step / 2, d, k - 1);
      } else {
        OddStep(step, d, k);
      }
    }
  }

  /** A step of 2^j times an odd number: an odd step goes through all 2^64 values, -2^63 through two. */
  lemma PeriodTwice(half: int, step: int, k: nat)
    requires step == 2 * half && k > 0
    ensures Period(step, k) == Period(half, k - 1)
  {
  }

  lemma {:induction false} PeriodOfTwos(odd: int, j: nat, k: nat)
    requires odd % 2 == 1 && j <= k
    ensures Period(Pow2(j) * odd, k) == Pow2(k - j)
  {
    if j > 0 {
      TwiceProduct(Pow2(j - 1), odd);
      PeriodOfTwos(odd, j - 1, k - 1);
      PeriodTwice(Pow2(j - 1) * odd, Pow2(j) * odd, k);
    } else {
      assert Pow2(0) * odd == odd;
    }
  }

  lemma TwoTo64()
    ensures Pow2(64) == TWO_64
  {
    assert Pow2(8) == 0x100;
    assert Pow2(16) == 0x1_0000;
    assert Pow2(24) == 0x100_0000;
    assert Pow2(32) == 0x1_0000_0000;
    assert Pow2(40) == 0x100_0000_0000;
    assert Pow2(48) == 0x1_0000_0000_0000;
    assert Pow2(56) == 0x100_0000_0000_0000;
  }

  /** Values are equal exactly at indices a multiple of 2^64 / gcd(step, 2^64) apart. */
  lemma ValuesRepeat(c: Config, i: int, j: int)
    ensures Value(c, i) == Value(c, j) <==> (i - j) % Period(c.step, 64) == 0
  {
    TwoTo64();
    ValuesCollide(c, i, j);
    PeriodExact(c.step, i - j, 64);
  }

  predicate Distinct(c: Config, hs: seq<Handout>) {
    forall i, j | 0 <= i < j < |hs| :: Value(c, hs[i].index) != Value(c, hs[j].index)
  }

  lemma DistinctWithin(c: Config, s: State)
    requires Inv(s) && s.counter <= Period(c.step, 64)
    ensures Distinct(c, s.handouts)
  {
    var hs := s.handouts;
    forall i, j | 0 <= i < j < |hs|
      ensures Value(c, hs[i].index) != Value(c, hs[j].index)
    {
      var a, b := hs[i].index, hs[j].index;
      TakenBelow(s, a);
      TakenBelow(s, b);
      ValuesRepeat(c, a, b);
      if (a - b) % Period(c.step, 64) == 0 {
        Within(a - b, Period(c.step, 64));
      }
    }
  }

  ghost predicate Served(s: State) { forall w: nat :: !PendingOf(s, w).Claimed? }

  /** Where an index was handed out, if no claim is pending. */
  lemma ServedAt(s: State, k: nat) returns (j: nat)
    requires Inv(s) && Served(s) && k < s.counter
    ensures j < |s.handouts| && s.handouts[j].index == k
  {
    assert Taken(s, k);
    j :| 0 <= j < |s.handouts| && s.handouts[j].index == k;
  }

  lemma RepeatsPast(c: Config, s: State)
    requires Inv(s) && Served(s) && s.counter > Period(c.step, 64)
    ensures !Distinct(c, s.handouts)
  {
    var p := Period(c.step, 64);
    var i := ServedAt(s, 0);
    var j := ServedAt(s, p);
    Multiple(p, 1);
    ValuesRepeat(c, p, 0);
    ValuesRepeat(c, 0, p);
  }

  /** In every interleaving whose claims have all been served, the values handed out are all different exactly
      if there are no more than 2^64 / gcd(step, 2^64) of them; with claims pending, they are in that case too. */
  lemma DistinctValues(c: Config, steps: seq<Step>)
    requires Path(Initial, steps)
    ensures var s := After(Initial, steps);
      && (s.counter <= Period(c.step, 64) ==> Distinct(c, s.handouts))
      && (Served(s) ==> (Distinct(c, s.handouts) <==> s.counter <= Period(c.step, 64)))
  {
    KeptAlong(Initial, steps);
    var s := After(Initial, steps);
    if s.counter <= Period(c.step, 64) {
      DistinctWithin(c, s);
    } else if Served(s) {
      RepeatsPast(c, s);
    }
  }

  /** While nothing overflows, the values of each worker move in the direction of the step. */
  lemma MonotoneValues(c: Config, steps: seq<Step>, i: nat, j: nat)
    requires Path(Initial, steps)
    requires i < j < |After(Initial, steps).handouts|
    requires After(Initial, steps).handouts[i].worker == After(Initial, steps).handouts[j].worker
    requires -TWO_63 <= c.start < TWO_63
    requires -TWO_63 <= c.start + After(Initial, steps).counter * c.step < TWO_63
    ensures var hs := After(Initial, steps).handouts;
      var d := Value(c, hs[j].index) - Value(c, hs[i].index);
      if c.step > 0 then d > 0 else if c.step < 0 then d < 0 else d == 0
  {
    KeptAlong(Initial, steps);
    var s := After(Initial, steps);
    var a, b := s.handouts[i].index, s.handouts[j].index;
    assert a < b < s.counter;
    Unwrapped(c, a, s.counter);
    Unwrapped(c, b, s.counter);
    Apart(c, a, b);
  }

  lemma Apart(c: Config, a: int, b: int)
    requires a < b
    ensures var d := (c.start + b * c.step) - (c.start + a * c.step);
      if c.step > 0 then d > 0 else if c.step < 0 then d < 0 else d == 0
  {
    assert (b - a) * c.step == b * c.step - a * c.step;
  }

  lemma Unwrapped(c: Config, index: nat, n: nat)
    requires index < n && -TWO_63 <= c.start < TWO_63 && -TWO_63 <= c.start + n * c.step < TWO_63
    ensures Value(c, index) == c.start + index * c.step
  {
    if c.step >= 0 {
      assert 0 <= index * c.step <= n * c.step;
    } else {
      assert n * c.step <= index * c.step <= 0;
    }
  }
}
