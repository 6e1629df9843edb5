/** Welford's running mean and variance, over exact reals. */
module RunningStats {

  datatype Stat = Stat(n: nat, oldM: real, newM: real, oldS: real, newS: real)

  datatype Op = Push(x: real) | Clear

  /** The first push leaves newS as it is. */
  function Pushed(st: Stat, x: real): (r: Stat) {
    var n := st.n + 1;
    if n == 1 then st.(n := n, oldM := x, newM := x, oldS := 0.0)
    else
      var newM := st.oldM + (x - st.oldM) / (n as real);
      var newS := st.oldS + (x - st.oldM) * (x - newM);
      Stat(n, newM, newM, newS, newS)
  }

  function GetMean(st: Stat): (m: real) {
    if st.n > 0 then st.newM else 0.0
  }

  function GetVariance(st: Stat): (v: real) {
    if st.n > 1 then st.newS / ((st.n - 1) as real) else 0.0
  }

  function Applied(st: Stat, ops: seq<Op>): (r: Stat)
    decreases |ops|
  {
    if ops == [] then st
    else
      var before := Applied(st, ops[..|ops| - 1]);
      match ops[|ops| - 1]
      case Push(x) => Pushed(before, x)
      case Clear => before.(n := 0)
  }

  // ---------------------------------------------------------------------------------------
  // The two-pass definition
  // ---------------------------------------------------------------------------------------

  /** The values pushed since the last clear. */
  function Since(ops: seq<Op>): (v: seq<real>)
    decreases |ops|
  {
    if ops == [] then []
    else
      match ops[|ops| - 1]
      case Push(x) => Since(ops[..|ops| - 1]) + [x]
      case Clear => []
  }

  function Sum(v: seq<real>): (r: real) {
    if v == [] then 0.0 else Sum(v[..|v| - 1]) + v[|v| - 1]
  }

  function Average(v: seq<real>): (r: real)
    requires v != []
  {
    Sum(v) / (|v| as real)
  }

  function Square(d: real): (r: real)
    ensures r >= 0.0
  {
    d * d
  }

  /** Sum of squared deviations from c. */
  function Deviations(v: seq<real>, c: real): (r: real)
    ensures r >= 0.0
  {
    if v == [] then 0.0 else Deviations(v[..|v| - 1], c) + Square(v[|v| - 1] - c)
  }

  function SumOfSquares(v: seq<real>): (r: real) {
    if v == [] then 0.0 else SumOfSquares(v[..|v| - 1]) + Square(v[|v| - 1])
  }

  // ---------------------------------------------------------------------------------------
  // The recurrence
  // ---------------------------------------------------------------------------------------

  /** Sum of squared deviations from c of k values with sum s and sum of squares q. */
  function Form(q: real, s: real, k: real, c: real): (r: real) {
    q - 2.0 * c * s + k * c * c
  }

  lemma {:induction false} FormGrows(q: real, s: real, k: real, x: real, c: real)
    ensures Form(q, s, k, c) + Square(x - c) == Form(q + Square(x), s + x, k + 1.0, c)
  {
  }

  lemma {:induction false} DeviationsForm(v: seq<real>, c: real)
    ensures Deviations(v, c) == Form(SumOfSquares(v), Sum(v), |v| as real, c)
    decreases |v|
  {
    if v == [] {
    } else {
      hide Form, Square;
      var u, x := v[..|v| - 1], v[|v| - 1];
      DeviationsForm(u, c);
      FormGrows(SumOfSquares(u), Sum(u), |u| as real, x, c);
      assert |v| as real == |u| as real + 1.0;
    }
  }

  lemma {:induction false} FormAtAverage(q: real, k: real, m: real)
    ensures Form(q, k * m, k, m) == q - k * m * m
  {
  }

  lemma {:induction false} Algebra(k: real, m: real, d: real)
    ensures (m + (k + 1.0) * d) * (m + (k + 1.0) * d) - (k + 1.0) * (m + d) * (m + d)
         == -(k * m * m) + ((k + 1.0) * d) * (k * d)
  {
  }

  lemma {:induction false} NewAverage(k: real, m: real, x: real, d: real)
    requires (k + 1.0) * d == x - m
    ensures k * m + x == (k + 1.0) * (m + d)
  {
  }

  lemma {:induction false} NewSquare(k: real, n: real, m: real, c: real, x: real, d: real)
    requires n == k + 1.0 && c == m + d && n * d == x - m
    ensures Square(x) - n * c * c == -(k * m * m) + (x - m) * (x - c)
  {
    Algebra(k, m, d);
    assert x - (m + d) == k * d;
    assert x == m + (k + 1.0) * d;
  }

  lemma {:induction false} NewForm(q: real, k: real, n: real, m: real, c: real, x: real, d: real)
    requires n == k + 1.0 && c == m + d && n * d == x - m
    ensures Form(q + Square(x), n * c, n, c) == Form(q, k * m, k, m) + (x - m) * (x - c)
  {
    hide Form, Square;
    FormAtAverage(q, k, m);
    FormAtAverage(q + Square(x), n, c);
    NewSquare(k, n, m, c, x, d);
  }

  lemma {:induction false} Divide(s: real, k: real)
    requires k != 0.0
    ensures k * (s / k) == s
  {
  }

  lemma {:induction false} Quotient(s: real, k: real, m: real)
    requires k != 0.0 && s == k * m
    ensures s / k == m
  {
  }

  /** One step of the recurrence. */
  lemma {:induction false} OneMore(v: seq<real>, x: real, m: real)
    requires v != [] && m == Average(v)
    ensures
      var w := v + [x];
      var m' := m + (x - m) / (|w| as real);
      && m' == Average(w)
      && Deviations(w, m') == Deviations(v, m) + (x - m) * (x - m')
  {
    hide Form, Deviations, Square;
    var w := v + [x];
    var k, n := |v| as real, |w| as real;
    assert n == k + 1.0 && w[..|w| - 1] == v;
    var d := (x - m) / n;
    var c := m + d;
    Divide(x - m, n);
    Divide(Sum(v), k);
    NewAverage(k, m, x, d);
    Quotient(Sum(w), n, c);
    DeviationsForm(v, m);
    DeviationsForm(w, c);
    NewForm(SumOfSquares(v), k, n, m, c, x, d);
    assert SumOfSquares(w) == SumOfSquares(v) + Square(x);
    assert Sum(w) == n * c && Sum(v) == k * m;
  }

  /** What the fields hold after the values v: oldS, not newS, is right from the first push on. */
  ghost predicate Holds(st: Stat, v: seq<real>) {
    && st.n == |v|
    && (v != [] ==> st.oldM == st.newM == Average(v) && st.oldS == Deviations(v, st.oldM))
    && (|v| >= 2 ==> st.newS == st.oldS)
  }

  lemma {:induction false} PushHolds(st: Stat, v: seq<real>, x: real)
    requires Holds(st, v)
    ensures Holds(Pushed(st, x), v + [x])
  {
    hide Deviations, Average;
    if v == [] {
      FirstPush(x);
      assert v + [x] == [x];
    } else {
      OneMore(v, x, st.oldM);
    }
  }

  lemma {:induction false} FirstPush(x: real)
    ensures Average([x]) == x && Deviations([x], x) == 0.0
  {
    assert Sum([x]) == x;
    assert |[x]| == 1 && [x][..0] == [];
  }

  lemma {:induction false} AppliedHolds(st: Stat, ops: seq<Op>)
    requires st.n == 0
    ensures Holds(Applied(st, ops), Since(ops))
    decreases |ops|
  {
    hide Deviations, Average;
    if ops != [] {
      AppliedHolds(st, ops[..|ops| - 1]);
      match ops[|ops| - 1]
      case Push(x) => PushHolds(Applied(st, ops[..|ops| - 1]), Since(ops[..|ops| - 1]), x);
      case Clear =>
    }
  }

  /** After any pushes and clears, whatever the fields held at first: the mean is the average of the values
      since the last clear, and the variance is their two-pass sample variance, never negative. */
  lemma {:induction false} WelfordIsTwoPass(st: Stat, ops: seq<Op>)
    requires st.n == 0
    ensures
      var v, r := Since(ops), Applied(st, ops);
      && r.n == |v|
      && (v != [] ==> GetMean(r) == Average(v))
      && (|v| >= 2 ==> GetVariance(r) == Deviations(v, Average(v)) / ((|v| - 1) as real))
      && (|v| < 2 ==> GetVariance(r) == 0.0)
      && GetVariance(r) >= 0.0
  {
    AppliedHolds(st, ops);
    var v, r := Since(ops), Applied(st, ops);
    if |v| >= 2 {
      QuotientNotNegative(Deviations(v, Average(v)), (|v| - 1) as real);
    }
  }

  lemma {:induction false} QuotientNotNegative(a: real, b: real)
    requires a >= 0.0 && b > 0.0
    ensures a / b >= 0.0
  {
  }

  class RunningStat {
    var n: nat
    var oldM: real
    var newM: real
    var oldS: real
    var newS: real

    ghost function View(): (st: Stat)
      reads this
    {
      Stat(n, oldM, newM, oldS, newS)
    }

    /** Only the count is initialised. */
    constructor ()
      ensures View().n == 0
    {
      n := 0;
    }

    method Clear()
      modifies this
      ensures View() == old(View()).(n := 0)
    {
      n := 0;
    }

    method Push(x: real)
      modifies this
      ensures View() == Pushed(old(View()), x)
      ensures forall v :: Holds(old(View()), v) ==> Holds(View(), v + [x])
    {
      hide Holds;
      ghost var st := View();
      n := n + 1;
      if n == 1 {
        newM := x;
        oldM := newM;
        oldS := 0.0;
      } else {
        newM := oldM + (x - oldM) / (n as real);
        newS := oldS + (x - oldM) * (x - newM);
        oldM := newM;
        oldS := newS;
      }
      assert View() == Pushed(st, x);
      forall v | Holds(st, v)
        ensures Holds(View(), v + [x])
      {
        PushHolds(st, v, x);
      }
    }

    method Mean() returns (m: real)
      ensures m == GetMean(View())
      ensures forall v :: v != [] && Holds(View(), v) ==> m == Average(v)
    {
      m := if n > 0 then newM else 0.0;
    }

    method Variance() returns (r: real)
      ensures r == GetVariance(View())
      ensures forall v :: |v| >= 2 && Holds(View(), v) ==> r == Deviations(v, Average(v)) / ((|v| - 1) as real)
    {
      r := if n > 1 then newS / ((n - 1) as real) else 0.0;
    }
  }
}
