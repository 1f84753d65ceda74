/** The Fourier transforms of the mel spectrogram, with exact arithmetic in place of floats. */
module Fft {
  import opened Arith

  datatype Complex = Complex(re: real, im: real)

  function Add(a: Complex, b: Complex): Complex { Complex(a.re + b.re, a.im + b.im) }
  function Sub(a: Complex, b: Complex): Complex { Complex(a.re - b.re, a.im - b.im) }
  function Mul(a: Complex, b: Complex): Complex { Complex(a.re * b.re - a.im * b.im, a.re * b.im + a.im * b.re) }
  function Scale(x: real, a: Complex): Complex { Complex(x * a.re, x * a.im) }

  const ZERO := Complex(0.0, 0.0)
  const ONE := Complex(1.0, 0.0)
  const MINUS_ONE := Complex(-1.0, 0.0)

  // ---- index arithmetic, kept away from the solver ----

  /** `a * b`, as repeated addition. */
  function Times(a: nat, b: nat): nat {
    if b == 0 then 0 else Times(a, b - 1) + a
  }

  lemma {:induction false} TimesMul(a: nat, b: nat)
    ensures Times(a, b) == a * b
  {
    if b > 0 { TimesMul(a, b - 1); assert a * b == a * (b - 1) + a; }
  }

  // ---- the tables ----

  /** Entry `i` stands for the angle `2 pi i / n`, `n` the length of the tables. */
  datatype Tables = Tables(cos: seq<real>, sin: seq<real>)

  /** `exp(-2 pi i k / n)`. */
  function Root(t: Tables, k: nat): Complex
    requires |t.cos| == |t.sin| && k < |t.cos|
  {
    Complex(t.cos[k], -t.sin[k])
  }

  /** The same for any `k`, whole turns taken off. */
  function W(t: Tables, k: nat): Complex
    requires |t.cos| == |t.sin| > 0
  {
    if k < |t.cos| then Root(t, k) else W(t, k - |t.cos|)
  }

  lemma {:induction false} WIsRoot(t: Tables, k: nat)
    requires |t.cos| == |t.sin| > 0
    ensures W(t, k) == Root(t, k % |t.cos|)
  {
    if k < |t.cos| {
      ModUnique(k, |t.cos|, 0, k);
    } else {
      WIsRoot(t, k - |t.cos|);
      ModAddMul(k - |t.cos|, 1, |t.cos|);
    }
  }

  /** What exact tables satisfy: angles add (the addition theorems), no turn is one, and the half
      turn, when it is in the table, is minus one. */
  ghost predicate RootsOfUnity(t: Tables) {
    && |t.cos| == |t.sin| > 0
    && W(t, 0) == ONE
    && (|t.cos| % 2 == 0 ==> W(t, |t.cos| / 2) == MINUS_ONE)
    && forall j: nat, k: nat :: AnglesAdd(t, j, k)
  }

  predicate AnglesAdd(t: Tables, j: nat, k: nat)
    requires |t.cos| == |t.sin| > 0
  {
    W(t, j + k) == Mul(W(t, j), W(t, k))
  }

  lemma Turns(t: Tables, j: nat, k: nat)
    requires RootsOfUnity(t)
    ensures W(t, j + k) == Mul(W(t, j), W(t, k))
  {
    assert AnglesAdd(t, j, k);
  }

  const QUARTERS := Tables([1.0, 0.0, -1.0, 0.0], [0.0, 1.0, 0.0, -1.0])

  function Quarter(a: nat): Complex {
    if a == 0 then ONE else if a == 1 then Complex(0.0, -1.0) else if a == 2 then MINUS_ONE else Complex(0.0, 1.0)
  }

  lemma QuarterIs(a: nat)
    requires a < 4
    ensures Root(QUARTERS, a) == Quarter(a)
  {
  }

  lemma TurnedBy(z: Complex)
    ensures Mul(ONE, z) == z && Mul(MINUS_ONE, z) == Complex(-z.re, -z.im)
    ensures Mul(Complex(0.0, -1.0), z) == Complex(z.im, -z.re) && Mul(Complex(0.0, 1.0), z) == Complex(-z.im, z.re)
  {
  }

  lemma QuarterProduct(a: nat, b: nat)
    requires a < 4 && b < 4
    ensures Root(QUARTERS, (a + b) % 4) == Mul(Root(QUARTERS, a), Root(QUARTERS, b))
  {
    hide Root, Mul;
    QuarterIs(a);
    QuarterIs(b);
    QuarterIs((a + b) % 4);
    TurnedBy(Quarter(b));
  }

  lemma QuarterIndex(j: nat, k: nat)
    ensures (j % 4 + k % 4) % 4 == (j + k) % 4
  {
  }

  /** There are such tables: the quarter turns. */
  lemma QuarterTurns()
    ensures RootsOfUnity(QUARTERS)
  {
    QuarterIs(0);
    QuarterIs(2);
    assert W(QUARTERS, 0) == Root(QUARTERS, 0) && W(QUARTERS, 2) == Root(QUARTERS, 2);
    hide W, Root, Mul;
    forall j: nat, k: nat ensures AnglesAdd(QUARTERS, j, k) {
      QuarterAngles(j, k);
    }
  }

  lemma QuarterAngles(j: nat, k: nat)
    ensures AnglesAdd(QUARTERS, j, k)
  {
    hide W, Root, Mul;
    WIsRoot(QUARTERS, j);
    WIsRoot(QUARTERS, k);
    WIsRoot(QUARTERS, j + k);
    QuarterIndex(j, k);
    QuarterProduct(j % 4, k % 4);
  }

  lemma {:induction false} WholeTurns(t: Tables, k: nat, n: nat)
    requires |t.cos| == |t.sin| > 0
    ensures W(t, k + Times(|t.cos|, n)) == W(t, k)
  {
    if n > 0 { WholeTurns(t, k, n - 1); }
  }

  // ---- the naive transform ----

  /** The first `n` terms of bin `k` of the transform of `x`; `s` is the table step for one
      sample, the table length divided by the length of `x`. */
  function DftSum(t: Tables, x: seq<real>, s: nat, k: nat, n: nat): Complex
    requires |t.cos| == |t.sin| > 0 && n <= |x|
  {
    if n == 0 then ZERO
    else Add(DftSum(t, x, s, k, n - 1), Scale(x[n - 1], W(t, Times(Times(k, n - 1), s))))
  }

  function Dft(t: Tables, x: seq<real>, s: nat, k: nat): Complex
    requires |t.cos| == |t.sin| > 0
  {
    DftSum(t, x, s, k, |x|)
  }

  // ---- splitting into even and odd samples ----

  function Evens(x: seq<real>): (r: seq<real>)
    ensures |r| == |x| / 2
  {
    seq(|x| / 2, i requires 0 <= i < |x| / 2 => x[2 * i])
  }

  function Odds(x: seq<real>): (r: seq<real>)
    ensures |r| == |x| / 2
  {
    seq(|x| / 2, i requires 0 <= i < |x| / 2 => x[2 * i + 1])
  }

  lemma EvenIndex(k: nat, m: nat, s: nat)
    ensures Times(Times(k, m + m), s) == Times(Times(k, m), s + s)
  {
    TimesMul(k, m + m);
    TimesMul(k, m);
    TimesMul(Times(k, m + m), s);
    TimesMul(Times(k, m), s + s);
    Arrange(k, m, s);
  }

  lemma Arrange(k: nat, m: nat, s: nat)
    ensures k * (m + m) * s == k * m * (s + s)
  {
    var p := k * m;
    assert k * (m + m) == p + p;
    assert (p + p) * s == p * (s + s);
  }

  lemma OddIndex(k: nat, m: nat, s: nat)
    ensures Times(Times(k, m + m + 1), s) == Times(Times(k, m), s + s) + Times(k, s)
  {
    EvenIndex(k, m, s);
    TimesPlus(Times(k, m + m), k, s);
  }

  lemma {:induction false} TimesPlus(a: nat, b: nat, s: nat)
    ensures Times(a + b, s) == Times(a, s) + Times(b, s)
  {
    if s > 0 { TimesPlus(a, b, s - 1); }
  }

  /** Two more terms of the sum are one more term of each half. */
  lemma {:induction false} SplitSum(t: Tables, x: seq<real>, s: nat, k: nat, m: nat)
    requires |t.cos| == |t.sin| > 0 && RootsOfUnity(t) && m <= |x| / 2
    ensures DftSum(t, x, s, k, m + m) ==
            Add(DftSum(t, Evens(x), s + s, k, m), Mul(W(t, Times(k, s)), DftSum(t, Odds(x), s + s, k, m)))
  {
    hide Mul, Add, Sub, Scale, RootsOfUnity, W, Times;
    if m == 0 {
      AddNothing(W(t, Times(k, s)));
    } else {
      SplitSum(t, x, s, k, m - 1);
      LastTwo(t, x, s, k, m - 1);
      HalfSums(t, x, s, k, m - 1);
      var v := W(t, Times(Times(k, m - 1), s + s));
      SplitAlgebra(DftSum(t, x, s, k, m + m - 2), DftSum(t, x, s, k, m + m),
                   DftSum(t, Evens(x), s + s, k, m - 1), DftSum(t, Evens(x), s + s, k, m),
                   DftSum(t, Odds(x), s + s, k, m - 1), DftSum(t, Odds(x), s + s, k, m),
                   W(t, Times(k, s)), v, x[m + m - 2], x[m + m - 1]);
    }
  }

  lemma AddNothing(w: Complex)
    ensures Add(ZERO, Mul(w, ZERO)) == ZERO
  {
  }

  lemma LastTwo(t: Tables, x: seq<real>, s: nat, k: nat, m: nat)
    requires RootsOfUnity(t) && m < |x| / 2
    ensures var v := W(t, Times(Times(k, m), s + s));
            DftSum(t, x, s, k, m + m + 2) ==
            Add(Add(DftSum(t, x, s, k, m + m), Scale(x[m + m], v)), Scale(x[m + m + 1], Mul(v, W(t, Times(k, s)))))
  {
    hide Mul, Add, Sub, Scale;
    EvenIndex(k, m, s);
    OddIndex(k, m, s);
    Turns(t, Times(Times(k, m), s + s), Times(k, s));
  }

  lemma HalfSums(t: Tables, x: seq<real>, s: nat, k: nat, m: nat)
    requires |t.cos| == |t.sin| > 0 && m < |x| / 2
    ensures var v := W(t, Times(Times(k, m), s + s));
            && DftSum(t, Evens(x), s + s, k, m + 1) == Add(DftSum(t, Evens(x), s + s, k, m), Scale(x[m + m], v))
            && DftSum(t, Odds(x), s + s, k, m + 1) == Add(DftSum(t, Odds(x), s + s, k, m), Scale(x[m + m + 1], v))
  {
    hide Mul, Add, Sub, Scale;
  }

  lemma RealDistribute(w: real, o: real, b: real, v: real)
    ensures w * (o + b * v) == w * o + b * (v * w)
  {
    assert w * (o + b * v) == w * o + w * (b * v);
    assert w * (b * v) == b * (v * w);
  }

  lemma SplitStep(E: Complex, O: Complex, w: Complex, v: Complex, a: real, b: real)
    ensures Add(Add(Add(E, Mul(w, O)), Scale(a, v)), Scale(b, Mul(v, w)))
         == Add(Add(E, Scale(a, v)), Mul(w, Add(O, Scale(b, v))))
  {
    RealDistribute(w.re, O.re, b, v.re);
    RealDistribute(w.im, O.im, b, v.im);
    RealDistribute(w.re, O.im, b, v.im);
    RealDistribute(w.im, O.re, b, v.re);
    ScaledProduct(b, v, w);
  }

  lemma ScaledProduct(b: real, v: Complex, w: Complex)
    ensures Scale(b, Mul(v, w)) ==
            Complex(b * (v.re * w.re) - b * (v.im * w.im), b * (v.re * w.im) + b * (v.im * w.re))
  {
  }

  lemma SplitAlgebra(D: Complex, D': Complex, E: Complex, E': Complex, O: Complex, O': Complex, w: Complex, v: Complex, a: real, b: real)
    requires D == Add(E, Mul(w, O)) && D' == Add(Add(D, Scale(a, v)), Scale(b, Mul(v, w)))
    requires E' == Add(E, Scale(a, v)) && O' == Add(O, Scale(b, v))
    ensures D' == Add(E', Mul(w, O'))
  {
    SplitStep(E, O, w, v, a, b);
  }

  /** Bins repeat with the length: each term is whole turns further. */
  lemma {:induction false} PeriodicSum(t: Tables, x: seq<real>, s: nat, k: nat, n: nat)
    requires RootsOfUnity(t) && Times(|x|, s) == |t.cos| && n <= |x|
    ensures DftSum(t, x, s, k + |x|, n) == DftSum(t, x, s, k, n)
  {
    hide Mul, Add, Sub, Scale, Times, W;
    if n > 0 {
      PeriodicSum(t, x, s, k, n - 1);
      TurnIndex(|x|, s, k, n - 1);
      WholeTurns(t, Times(Times(k, n - 1), s), n - 1);
    }
  }

  lemma TurnIndex(N: nat, s: nat, k: nat, n: nat)
    ensures Times(Times(k + N, n), s) == Times(Times(k, n), s) + Times(Times(N, s), n)
  {
    TimesPlus(k, N, n);
    TimesPlus(Times(k, n), Times(N, n), s);
    TimesMul(N, n);
    TimesMul(N, s);
    TimesMul(Times(N, n), s);
    TimesMul(Times(N, s), n);
    Swap(N, n, s);
  }

  lemma Swap(a: nat, b: nat, c: nat)
    ensures a * b * c == a * c * b
  {
    assert a * b * c == a * (b * c);
    assert a * c * b == a * (c * b);
  }

  /** The butterfly: both halves of the spectrum from the two half-length transforms. */
  lemma Butterfly(t: Tables, x: seq<real>, s: nat, k: nat)
    requires RootsOfUnity(t) && |x| % 2 == 0 && Times(|x|, s) == |t.cos| && k < |x| / 2
    ensures var w := W(t, Times(k, s)); var E, O := Dft(t, Evens(x), s + s, k), Dft(t, Odds(x), s + s, k);
            Dft(t, x, s, k) == Add(E, Mul(w, O)) && Dft(t, x, s, k + |x| / 2) == Sub(E, Mul(w, O))
  {
    hide Mul, Add, Sub, Scale, Times, W, DftSum, Evens, Odds;
    var h := |x| / 2;
    HalfTurn(|x|, s, |t.cos|);
    SplitSum(t, x, s, k, h);
    SplitSum(t, x, s, k + h, h);
    PeriodicSum(t, Evens(x), s + s, k, h);
    PeriodicSum(t, Odds(x), s + s, k, h);
    TimesPlus(k, h, s);
    Turns(t, Times(k, s), Times(h, s));
    HalfSign(Dft(t, x, s, k + h), Dft(t, Evens(x), s + s, k), Dft(t, Odds(x), s + s, k),
             W(t, Times(k, s)), W(t, Times(k + h, s)), W(t, Times(h, s)));
  }

  lemma HalfTurn(N: nat, s: nat, T: nat)
    requires N % 2 == 0 && Times(N, s) == T
    ensures T % 2 == 0 && Times(N / 2, s) == T / 2 && Times(N / 2, s + s) == T
  {
    TimesPlus(N / 2, N / 2, s);
    TimesMul(N / 2, s + s);
    TimesMul(N / 2, s);
    assert N / 2 * (s + s) == N / 2 * s + N / 2 * s;
  }

  lemma HalfSign(X: Complex, E: Complex, O: Complex, w: Complex, w': Complex, half: Complex)
    requires X == Add(E, Mul(w', O)) && w' == Mul(w, half) && half == MINUS_ONE
    ensures X == Sub(E, Mul(w, O))
  {
    assert w' == Complex(-w.re, -w.im);
  }

  // ---- the code, in place on the scratch buffers ----

  /** Bins `0..n` of the transform of `x`, as interleaved pairs from `ob` on. */
  ghost predicate Bins(out: seq<real>, ob: nat, t: Tables, x: seq<real>, s: nat, n: nat)
    requires |t.cos| == |t.sin| > 0
  {
    ob + 2 * n <= |out| && forall k :: 0 <= k < n ==> BinAt(out, ob, t, x, s, k)
  }

  predicate BinAt(out: seq<real>, ob: nat, t: Tables, x: seq<real>, s: nat, k: nat)
    requires |t.cos| == |t.sin| > 0 && ob + 2 * k + 1 < |out|
  {
    Complex(out[ob + 2 * k], out[ob + 2 * k + 1]) == Dft(t, x, s, k)
  }

  /** The table index of sample `n` in bin `k`. */
  function Idx(k: nat, n: nat, s: nat, length: nat): (r: nat)
    requires length > 0
    ensures r < length
  {
    (k * n * s) % length
  }

  lemma DftIndex(t: Tables, k: nat, n: nat, s: nat)
    requires |t.cos| == |t.sin| > 0
    ensures W(t, Times(Times(k, n), s)) == Root(t, Idx(k, n, s, |t.cos|))
  {
    TimesMul(k, n);
    TimesMul(Times(k, n), s);
    WIsRoot(t, k * n * s);
  }

  lemma FftIndex(t: Tables, N: nat, s: nat, k: nat)
    requires |t.cos| == |t.sin| > 0 && Times(N, s) == |t.cos| && k < N
    ensures k * s < |t.cos| && W(t, Times(k, s)) == Root(t, k * s)
  {
    TimesMul(N, s);
    TimesMul(k, s);
    Below(k, N, s);
  }

  lemma Below(k: nat, N: nat, s: nat)
    requires k < N && N * s > 0
    ensures k * s < N * s
  {
    assert s > 0;
    assert (N - k) * s >= s by { MulAtLeast(N - k, s); }
    assert N * s == k * s + (N - k) * s;
  }

  lemma StepOf(T: nat, N: nat)
    requires N > 0 && T % N == 0
    ensures Times(N, T / N) == T
  {
    TimesMul(N, T / N);
    assert T == (T / N) * N;
  }

  lemma HalfStep(T: nat, N: nat)
    requires N > 0 && N % 2 == 0 && T % N == 0
    ensures T % (N / 2) == 0 && T / (N / 2) == T / N + T / N
  {
    var s := T / N;
    StepOf(T, N);
    HalfTurn(N, s, T);
    TimesMul(N / 2, s + s);
    assert T == (s + s) * (N / 2);
    ModUnique(T, N / 2, s + s, 0);
  }

  /** The naive transform. */
  method DftInto(t: Tables, inp: array<real>, ib: nat, N: nat, out: array<real>, ob: nat)
    requires |t.cos| == |t.sin| > 0 && N > 0 && inp != out
    requires ib + N <= inp.Length && ob + 2 * N <= out.Length
    modifies out
    ensures Bins(out[..], ob, t, inp[ib..ib + N], |t.cos| / N, N)
    ensures forall i :: 0 <= i < out.Length && !(ob <= i < ob + 2 * N) ==> out[i] == old(out[i])
  {
    var step := |t.cos| / N;
    ghost var x := inp[ib..ib + N];
    for k := 0 to N
      invariant inp[ib..ib + N] == x
      invariant Bins(out[..], ob, t, x, step, k)
      invariant forall i :: 0 <= i < out.Length && !(ob <= i < ob + 2 * k) ==> out[i] == old(out[i])
    {
      var bin := DftBin(t, inp, ib, N, k);
      ghost var was := out[..];
      out[ob + k * 2 + 0] := bin.re;
      out[ob + k * 2 + 1] := bin.im;
      forall j | 0 <= j < k + 1 ensures BinAt(out[..], ob, t, x, step, j) {
        if j < k { assert BinAt(was, ob, t, x, step, j); }
      }
    }
  }

  method DftBin(t: Tables, inp: array<real>, ib: nat, N: nat, k: nat) returns (bin: Complex)
    requires |t.cos| == |t.sin| > 0 && N > 0 && ib + N <= inp.Length
    ensures bin == Dft(t, inp[ib..ib + N], |t.cos| / N, k)
  {
    hide Idx;
    var step := |t.cos| / N;
    var re, im := 0.0, 0.0;
    for n := 0 to N
      invariant Complex(re, im) == DftSum(t, inp[ib..ib + N], step, k, n)
    {
      DftIndex(t, k, n, step);
      var idx := Idx(k, n, step, |t.cos|);
      var a := inp[ib + n];
      AddTerm(t, inp[ib..ib + N], step, k, n, idx, a, re, im);
      re := re + a * t.cos[idx];
      im := im - a * t.sin[idx];
    }
    bin := Complex(re, im);
  }

  lemma AddTerm(t: Tables, x: seq<real>, s: nat, k: nat, n: nat, idx: nat, a: real, re: real, im: real)
    requires |t.cos| == |t.sin| > 0 && n < |x| && idx < |t.cos| && a == x[n]
    requires W(t, Times(Times(k, n), s)) == Root(t, idx) && Complex(re, im) == DftSum(t, x, s, k, n)
    ensures DftSum(t, x, s, k, n + 1) == Complex(re + a * t.cos[idx], im - a * t.sin[idx])
  {
    hide Add, Scale, Root;
    LastTerm(t, x, s, k, n);
    TermValue(t, Complex(re, im), a, idx);
  }

  lemma TermValue(t: Tables, D: Complex, a: real, idx: nat)
    requires |t.cos| == |t.sin| && idx < |t.cos|
    ensures Add(D, Scale(a, Root(t, idx))) == Complex(D.re + a * t.cos[idx], D.im - a * t.sin[idx])
  {
    NegProduct(a, t.sin[idx]);
  }

  lemma LastTerm(t: Tables, x: seq<real>, s: nat, k: nat, n: nat)
    requires |t.cos| == |t.sin| > 0 && n < |x|
    ensures DftSum(t, x, s, k, n + 1) == Add(DftSum(t, x, s, k, n), Scale(x[n], W(t, Times(Times(k, n), s))))
  {
    hide Add, Scale;
  }

  lemma NegProduct(a: real, b: real)
    ensures a * -b == -(a * b)
  {
  }

  lemma OneSample(t: Tables, x: seq<real>)
    requires RootsOfUnity(t) && |x| == 1
    ensures Dft(t, x, |t.cos|, 0) == Complex(x[0], 0.0)
  {
    assert Times(Times(0, 0), |t.cos|) == 0 by { TimesMul(0, |t.cos|); }
    assert DftSum(t, x, |t.cos|, 0, 1) == Add(ZERO, Scale(x[0], ONE));
  }

  /** Every other sample, from `from` on, to the scratch space behind the input. */
  method Deinterleave(inp: array<real>, ib: nat, N: nat, odd: nat)
    requires N % 2 == 0 && odd < 2 && ib + 2 * N <= inp.Length
    modifies inp
    ensures forall i :: 0 <= i < N / 2 ==> inp[ib + N + i] == old(inp[ib + 2 * i + odd])
    ensures forall i :: 0 <= i < inp.Length && !(ib + N <= i < ib + 2 * N) ==> inp[i] == old(inp[i])
  {
    for i := 0 to N / 2
      invariant forall j :: 0 <= j < i ==> inp[ib + N + j] == old(inp[ib + 2 * j + odd])
      invariant forall j :: 0 <= j < inp.Length && !(ib + N <= j < ib + 2 * N) ==> inp[j] == old(inp[j])
    {
      inp[ib + N + i] := inp[ib + 2 * i + odd];
    }
  }

  /** The values of one butterfly are two bins of the transform. */
  lemma ButterflyValues(t: Tables, x: seq<real>, s: nat, k: nat, e: Complex, o: Complex, c: real, d: real)
    requires RootsOfUnity(t) && |x| % 2 == 0 && Times(|x|, s) == |t.cos| && k < |x| / 2
    requires e == Dft(t, Evens(x), s + s, k) && o == Dft(t, Odds(x), s + s, k)
    requires W(t, Times(k, s)) == Complex(c, d)
    ensures Dft(t, x, s, k) == Complex(e.re + c * o.re - d * o.im, e.im + c * o.im + d * o.re)
    ensures Dft(t, x, s, k + |x| / 2) == Complex(e.re - c * o.re + d * o.im, e.im - c * o.im - d * o.re)
  {
    hide Mul, Add, Sub;
    Butterfly(t, x, s, k);
    PairValues(e, o, c, d);
  }

  lemma PairValues(e: Complex, o: Complex, c: real, d: real)
    ensures Add(e, Mul(Complex(c, d), o)) == Complex(e.re + c * o.re - d * o.im, e.im + c * o.im + d * o.re)
    ensures Sub(e, Mul(Complex(c, d), o)) == Complex(e.re - c * o.re + d * o.im, e.im - c * o.im - d * o.re)
  {
  }

  predicate PairDone(out: seq<real>, ob: nat, t: Tables, x: seq<real>, s: nat, k: nat, half: nat)
    requires |t.cos| == |t.sin| > 0 && ob + 2 * (k + half) + 1 < |out|
  {
    BinAt(out, ob, t, x, s, k) && BinAt(out, ob, t, x, s, k + half)
  }

  /** The slots of bins `k` and `k + N / 2`. */
  predicate Touched(ob: nat, N: nat, k: nat, i: nat) {
    || ob + 2 * k <= i < ob + 2 * k + 2
    || ob + 2 * (k + N / 2) <= i < ob + 2 * (k + N / 2) + 2
  }

  /** Both half-length spectra stand behind the output; combine them. */
  method Combine(t: Tables, out: array<real>, ob: nat, N: nat, step: nat, ghost x: seq<real>)
    requires |t.cos| == |t.sin| > 0 && RootsOfUnity(t)
    requires N > 0 && N % 2 == 0 && Times(N, step) == |t.cos| && |x| == N && ob + 8 * N <= out.Length
    requires Bins(out[..], ob + 2 * N, t, Evens(x), step + step, N / 2)
    requires Bins(out[..], ob + 3 * N, t, Odds(x), step + step, N / 2)
    modifies out
    ensures Bins(out[..], ob, t, x, step, N)
    ensures forall i :: 0 <= i < out.Length && !(ob <= i < ob + 2 * N) ==> out[i] == old(out[i])
  {
    hide W, Dft, Times, Evens, Odds, RootsOfUnity;
    var half := N / 2;
    ghost var was := out[..];
    for k := 0 to half
      invariant forall i :: 0 <= i < out.Length && !(ob <= i < ob + 2 * N) ==> out[i] == was[i]
      invariant forall j :: 0 <= j < k ==> PairDone(out[..], ob, t, x, step, j, half)
    {
      ghost var before := out[..];
      CombineOne(t, out, ob, N, step, k, x, was);
      PairsKept(before, out[..], ob, t, x, step, k, half);
    }
    forall k | 0 <= k < N ensures BinAt(out[..], ob, t, x, step, k) {
      assert PairDone(out[..], ob, t, x, step, if k < half then k else k - half, half);
    }
  }

  lemma PairsKept(was: seq<real>, now: seq<real>, ob: nat, t: Tables, x: seq<real>, s: nat, k: nat, half: nat)
    requires |t.cos| == |t.sin| > 0 && ob + 2 * (half + half) <= |was| == |now| && k < half
    requires forall j :: 0 <= j < k ==> PairDone(was, ob, t, x, s, j, half)
    requires forall i :: ob <= i < ob + 2 * k ==> now[i] == was[i]
    requires forall i :: ob + 2 * half <= i < ob + 2 * half + 2 * k ==> now[i] == was[i]
    requires PairDone(now, ob, t, x, s, k, half)
    ensures forall j :: 0 <= j < k + 1 ==> PairDone(now, ob, t, x, s, j, half)
  {
    hide Dft;
    forall j | 0 <= j < k + 1 ensures PairDone(now, ob, t, x, s, j, half) {
      if j < k {
        assert PairDone(was, ob, t, x, s, j, half);
      }
    }
  }

  method CombineOne(t: Tables, out: array<real>, ob: nat, N: nat, step: nat, k: nat, ghost x: seq<real>, ghost was: seq<real>)
    requires |t.cos| == |t.sin| > 0 && RootsOfUnity(t)
    requires N > 0 && N % 2 == 0 && Times(N, step) == |t.cos| && |x| == N && ob + 8 * N <= out.Length
    requires k < N / 2 && |was| == out.Length
    requires Bins(was, ob + 2 * N, t, Evens(x), step + step, N / 2)
    requires Bins(was, ob + 3 * N, t, Odds(x), step + step, N / 2)
    requires forall i :: ob + 2 * N <= i < ob + 8 * N ==> out[i] == was[i]
    modifies out
    ensures PairDone(out[..], ob, t, x, step, k, N / 2)
    ensures forall i :: 0 <= i < out.Length && !Touched(ob, N, k, i) ==> out[i] == old(out[i])
  {
    hide W, Dft, Times, Evens, Odds, RootsOfUnity;
    var re, im := Twiddle(t, N, step, k);
    var e := Complex(out[ob + 2 * N + 2 * k + 0], out[ob + 2 * N + 2 * k + 1]);
    var o := Complex(out[ob + 3 * N + 2 * k + 0], out[ob + 3 * N + 2 * k + 1]);
    assert BinAt(was, ob + 2 * N, t, Evens(x), step + step, k);
    assert BinAt(was, ob + 3 * N, t, Odds(x), step + step, k);
    ButterflyValues(t, x, step, k, e, o, re, im);
    var a, b := e.re + re * o.re - im * o.im, e.im + re * o.im + im * o.re;
    var c, d := e.re - re * o.re + im * o.im, e.im - re * o.im - im * o.re;
    StorePairs(out, ob, k, N / 2, a, b, c, d);
  }

  method StorePairs(out: array<real>, ob: nat, k: nat, half: nat, a: real, b: real, c: real, d: real)
    requires k < half && ob + 2 * (half + half) <= out.Length
    modifies out
    ensures out[..] == old(out[..])[ob + 2 * k := a][ob + 2 * k + 1 := b][ob + 2 * (k + half) := c][ob + 2 * (k + half) + 1 := d]
  {
    out[ob + 2 * k + 0] := a;
    out[ob + 2 * k + 1] := b;
    out[ob + 2 * (k + half) + 0] := c;
    out[ob + 2 * (k + half) + 1] := d;
  }

  method Twiddle(t: Tables, N: nat, step: nat, k: nat) returns (re: real, im: real)
    requires |t.cos| == |t.sin| > 0 && Times(N, step) == |t.cos| && k < N
    ensures W(t, Times(k, step)) == Complex(re, im)
  {
    FftIndex(t, N, step, k);
    var idx := k * step;
    re, im := t.cos[idx], -t.sin[idx];
  }

  /** The recursive transform computes exactly what the naive one does, in the same buffers: it
      needs `2N` input and `8N` output slots, and of the input it overwrites only the scratch
      behind the samples. */
  method FftInto(t: Tables, inp: array<real>, ib: nat, N: nat, out: array<real>, ob: nat)
    requires |t.cos| == |t.sin| > 0 && RootsOfUnity(t)
    requires N > 0 && |t.cos| % N == 0 && inp != out
    requires ib + 2 * N <= inp.Length && ob + 8 * N <= out.Length
    modifies inp, out
    ensures Bins(out[..], ob, t, old(inp[ib..ib + N]), |t.cos| / N, N)
    ensures forall i :: 0 <= i < inp.Length && !(ib + N <= i < ib + 2 * N) ==> inp[i] == old(inp[i])
    ensures forall i :: 0 <= i < out.Length && !(ob <= i < ob + 8 * N) ==> out[i] == old(out[i])
    decreases N, 1
  {
    hide W, Dft, Times, RootsOfUnity;
    ghost var x := inp[ib..ib + N];
    if N == 1 {
      OneSample(t, x);
      out[ob + 0] := inp[ib];
      out[ob + 1] := 0.0;
      assert BinAt(out[..], ob, t, x, |t.cos|, 0);
      return;
    }
    var half := N / 2;
    if N - half * 2 == 1 {
      DftInto(t, inp, ib, N, out, ob);
      return;
    }
    StepOf(|t.cos|, N);
    FftHalf(t, inp, ib, N, 0, out, ob + 2 * N, x);
    ghost var evens := out[..];
    FftHalf(t, inp, ib, N, 1, out, ob + 3 * N, x);
    BinsKept(evens, out[..], ob + 2 * N, t, Evens(x), |t.cos| / N + |t.cos| / N, half);
    Combine(t, out, ob, N, |t.cos| / N, x);
  }

  ghost function Half(x: seq<real>, odd: nat): seq<real> {
    if odd == 0 then Evens(x) else Odds(x)
  }

  /** One half of the samples, moved behind the input and transformed there. */
  method FftHalf(t: Tables, inp: array<real>, ib: nat, N: nat, odd: nat, out: array<real>, hb: nat, ghost x: seq<real>)
    requires |t.cos| == |t.sin| > 0 && RootsOfUnity(t)
    requires N > 1 && N % 2 == 0 && |t.cos| % N == 0 && odd < 2 && inp != out
    requires ib + 2 * N <= inp.Length && hb + 4 * N <= out.Length && x == inp[ib..ib + N]
    modifies inp, out
    ensures Bins(out[..], hb, t, Half(x, odd), |t.cos| / N + |t.cos| / N, N / 2)
    ensures forall i :: 0 <= i < inp.Length && !(ib + N <= i < ib + 2 * N) ==> inp[i] == old(inp[i])
    ensures forall i :: 0 <= i < out.Length && !(hb <= i < hb + 4 * N) ==> out[i] == old(out[i])
    decreases N, 0
  {
    hide RootsOfUnity, Bins;
    HalfStep(|t.cos|, N);
    Deinterleave(inp, ib, N, odd);
    assert inp[ib + N..ib + N + N / 2] == Half(x, odd);
    FftInto(t, inp, ib + N, N / 2, out, hb);
  }

  lemma BinsKept(was: seq<real>, now: seq<real>, ob: nat, t: Tables, x: seq<real>, s: nat, n: nat)
    requires |t.cos| == |t.sin| > 0 && Bins(was, ob, t, x, s, n) && |now| == |was|
    requires forall i :: ob <= i < ob + 2 * n ==> now[i] == was[i]
    ensures Bins(now, ob, t, x, s, n)
  {
    forall k | 0 <= k < n ensures BinAt(now, ob, t, x, s, k) {
      assert BinAt(was, ob, t, x, s, k);
    }
  }
}
