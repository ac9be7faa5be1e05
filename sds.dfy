/** The stochastic differential system of SDS.cs: the forward step that turns
    a normalised 16-bit sample into the next state value, its exact algebraic
    inverse, the sample codec, and the two streaming transforms.
    IEEE doubles are modelled as `real`. */
module SDS {
  import opened Types

  // SDS parameters
  const B1: real := 0.02
  const B2: real := 2.0
  const C1: real := 1.0
  const C5: real := 0.5
  // white-noise intensity
  const N0: real := 0.0004
  // time step
  const DT: real := 0.1
  // starting state
  const X10: real := 0.1
  const X20: real := 0.0
  // scale between 16-bit samples and [-1, 1]
  const MODIF: real := 32768.0
  // uniform draw u in [0, 1) becomes z = Z1 + Z2 * u in [-5, 5)
  const Z1: real := -5.0
  const Z2: real := 10.0

  /** What the transforms take from the .NET runtime, which is not modelled:
      `seeded(key)(k)` is the k-th value `NextDouble()` returns after
      `new Random(key)`, and `sqrtN0DT` is the value of `Math.Sqrt(N0 / DT)`. */
  datatype Runtime = Runtime(seeded: int -> nat -> real, sqrtN0DT: real)

  /** White noise of draw k for a key: z * sqrt(N0 / DT) with z = Z1 + Z2 * u */
  function NoiseAt(rt: Runtime, key: int, k: nat): real
  {
    (Z1 + Z2 * rt.seeded(key)(k)) * rt.sqrtN0DT
  }

  lemma NoiseOfDraw(rt: Runtime, key: int, k: nat, u: real, z: real, n: real)
    requires u == rt.seeded(key)(k) && z == Z1 + Z2 * u && n == z * rt.sqrtN0DT
    ensures n == NoiseAt(rt, key, k)
  {
  }

  /** A generator seeded with a key; `drawn` counts the values taken so far. */
  class Random {
    const draws: nat -> real
    var drawn: nat

    constructor (rt: Runtime, key: int)
      ensures draws == rt.seeded(key) && drawn == 0
    {
      draws := rt.seeded(key);
      drawn := 0;
    }

    method NextDouble() returns (u: real)
      modifies this
      ensures u == draws(old(drawn)) && drawn == old(drawn) + 1
    {
      u := draws(drawn);
      drawn := drawn + 1;
    }
  }

  function Abs(r: real): (a: real)
    ensures a >= 0.0 && (a == r || a == -r)
  {
    if r < 0.0 then -r else r
  }

  /** Math.Pow(x, n) for a whole exponent n */
  function Pow(x: real, n: nat): real
  {
    if n == 0 then 1.0 else x * Pow(x, n - 1)
  }

  /** Forward step, first state variable: an Euler step of x1' = x2. */
  function GetX1Encrypted(x1Prev: real, x2Prev: real): real
  {
    x1Prev + x2Prev * DT
  }

  /** Forward step, second state variable: an Euler step of x2' = F(x1, x2),
      where the sample c3 enters as the coefficient of x1^3. */
  function GetX2Encrypted(c3: real, x1Prev: real, x2Prev: real, nPrev: real): real
  {
    x2Prev + (nPrev - B1 * x2Prev - B2 * x2Prev * Abs(x2Prev) - C1 * x1Prev
              - c3 * Pow(x1Prev, 3) - C5 * Pow(x1Prev, 5)) * DT
  }

  /** A power of a value other than 0 is not 0. */
  lemma {:induction false} PowNonZero(x: real, n: nat)
    requires x != 0.0
    ensures Pow(x, n) != 0.0
  {
    if n > 0 {
      PowNonZero(x, n - 1);
      ProductNonZero(x, Pow(x, n - 1));
    }
  }

  lemma ProductNonZero(a: real, b: real)
    requires a != 0.0 && b != 0.0
    ensures a * b != 0.0
  {
    assert (a * b) / a == b;
  }

  /** The forcing term the reverse step solves for, before division by x1[i]^3 */
  function ReverseNumerator(x1i: real, x1i1: real, x1i2: real, n: real): real
  {
    (2.0 * x1i1 - x1i - x1i2) / (DT * DT) + n - C1 * x1i - C5 * Pow(x1i, 5)
    - B1 * (x1i1 - x1i) / DT - B2 * (x1i1 - x1i) * Abs(x1i1 - x1i) / (DT * DT)
  }

  /** Any c3 with c3 * x1[i]^3 equal to the reverse numerator drives the
      forward step from x1[i], x1[i+1] to x1[i+2]. */
  lemma ReverseAlgebra(x1i: real, x1i1: real, x1i2: real, n: real, c3: real)
    requires c3 * Pow(x1i, 3) == ReverseNumerator(x1i, x1i1, x1i2, n)
    ensures GetX1Encrypted(x1i, (x1i1 - x1i) / DT) == x1i1
    ensures GetX1Encrypted(x1i1, GetX2Encrypted(c3, x1i, (x1i1 - x1i) / DT, n)) == x1i2
  {
    var d := x1i1 - x1i;
    var x2 := d / DT;
    assert d == x2 * DT;
    assert Abs(d) == Abs(x2) * DT;
    assert d * Abs(d) == (x2 * Abs(x2)) * (DT * DT);
    assert B2 * d * Abs(d) / (DT * DT) == B2 * x2 * Abs(x2);
    assert B1 * d / DT == B1 * x2;
  }

  /** Reverse step: the c3 that drives x1[i], x1[i+1] on to x1[i+2]. The C#
      division by x1[i]^3 is undefined here when x1[i] is 0; callers guard it. */
  function GetC3Decrypted(x1i: real, x1i1: real, x1i2: real, n: real): real
    requires x1i != 0.0
  {
    PowNonZero(x1i, 3);
    ReverseNumerator(x1i, x1i1, x1i2, n) / Pow(x1i, 3)
  }

  /** Running the forward step again from x1[i] with x2 = (x1[i+1] - x1[i]) / DT
      and the decrypted c3 reproduces x1[i+2]. */
  lemma ReverseStep(x1i: real, x1i1: real, x1i2: real, n: real)
    requires x1i != 0.0
    ensures GetX1Encrypted(x1i1, GetX2Encrypted(GetC3Decrypted(x1i, x1i1, x1i2, n), x1i, (x1i1 - x1i) / DT, n)) == x1i2
  {
    PowNonZero(x1i, 3);
    var c3 := GetC3Decrypted(x1i, x1i1, x1i2, n);
    assert c3 * Pow(x1i, 3) == ReverseNumerator(x1i, x1i1, x1i2, n);
    ReverseAlgebra(x1i, x1i1, x1i2, n, c3);
  }

  /** GetC3Decrypted is the exact inverse of the forward step: from the three
      values a forward step from state (x1, x2) with noise n and sample c3
      emits, it recovers c3, whenever x1 is not 0. */
  lemma StepInverse(x1: real, x2: real, n: real, c3: real)
    requires x1 != 0.0
    ensures var x1Next := GetX1Encrypted(x1, x2);
            GetC3Decrypted(x1, x1Next, GetX1Encrypted(x1Next, GetX2Encrypted(c3, x1, x2, n)), n) == c3
  {
    var x1Next := GetX1Encrypted(x1, x2);
    var x1After := GetX1Encrypted(x1Next, GetX2Encrypted(c3, x1, x2, n));
    var c := GetC3Decrypted(x1, x1Next, x1After, n);
    ReverseStep(x1, x1Next, x1After, n);
    assert (x1Next - x1) / DT == x2;
    // both c and c3 lead to the same x1After, so the x2 values they give agree
    assert GetX2Encrypted(c, x1, x2, n) == GetX2Encrypted(c3, x1, x2, n);
    assert (c - c3) * Pow(x1, 3) * DT == 0.0;
    PowNonZero(x1, 3);
    ProductZero(c - c3, Pow(x1, 3));
  }

  lemma ProductZero(a: real, b: real)
    requires a * b * DT == 0.0 && b != 0.0
    ensures a == 0.0
  {
    assert a * b == 0.0;
    assert a == (a * b) / b;
  }

  // ---- Sample codec ----

  /** A 16-bit sample mapped into [-1, 1]: negatives are divided by 32768,
      the rest by 32767, so the sign is kept and both ends reach 1 exactly. */
  function Normalize(sample: int16): (c3: real)
    ensures -1.0 <= c3 <= 1.0
    ensures c3 < 0.0 <==> sample < 0
    ensures c3 == 0.0 <==> sample == 0
    ensures sample == -0x8000 <==> c3 == -1.0
    ensures sample == 0x7FFF <==> c3 == 1.0
  {
    if sample < 0 then sample as real / MODIF else sample as real / (MODIF - 1.0)
  }

  /** Normalisation keeps the order of samples. */
  lemma NormalizeMonotonic(a: int16, b: int16)
    requires a < b
    ensures Normalize(a) < Normalize(b)
  {
  }

  /** Inverse scaling of the decrypt loop, chosen by the sign of c3. */
  function Denormalize(c3: real): (r: real)
    ensures r < 0.0 <==> c3 < 0.0
    ensures r == 0.0 <==> c3 == 0.0
  {
    if c3 < 0.0 then c3 * MODIF else c3 * (MODIF - 1.0)
  }

  /** Over reals, denormalising a normalised sample gives it back exactly. */
  lemma DenormalizeNormalize(sample: int16)
    ensures Denormalize(Normalize(sample)) == sample as real
  {
  }

  /** Math.Round(double): the nearest integer, a tie going to the even one.
      The last clause, that an integral value is kept, is a corollary of the
      first, stated for readers. */
  function Round(r: real): (k: int)
    ensures r - 0.5 <= k as real <= r + 0.5
    ensures (k as real - r == 0.5 || r - k as real == 0.5) ==> k % 2 == 0
    ensures r == r.Floor as real ==> k == r.Floor
  {
    var f := r.Floor;
    var frac := r - f as real;
    if frac < 0.5 then f
    else if frac > 0.5 then f + 1
    else if f % 2 == 0 then f
    else f + 1
  }

  /** Why a window could not be decoded: x1[i] is 0, so the C# division by
      x1[i]^3 gives an infinity or NaN, or the rounded value does not fit a
      `short`, whose C# conversion is unspecified. */
  datatype Fault = ZeroState | OutOfRange

  /** One decrypt iteration after the reads: solve for c3, denormalise, round
      and narrow to 16 bits. */
  function DecryptSample(x1i: real, x1i1: real, x1i2: real, n: real): (r: Result<int16, Fault>)
    ensures r == Failure(ZeroState) <==> x1i == 0.0
    ensures r == Failure(OutOfRange) <==>
              x1i != 0.0 && !(-0x8000 <= Round(Denormalize(GetC3Decrypted(x1i, x1i1, x1i2, n))) < 0x8000)
    ensures r.Success? ==>
              x1i != 0.0
              && Denormalize(GetC3Decrypted(x1i, x1i1, x1i2, n)) - 0.5 <= r.value as real
              && r.value as real <= Denormalize(GetC3Decrypted(x1i, x1i1, x1i2, n)) + 0.5
  {
    if x1i == 0.0 then Failure(ZeroState)
    else
      var v := Round(Denormalize(GetC3Decrypted(x1i, x1i1, x1i2, n)));
      if -0x8000 <= v < 0x8000 then Success(v) else Failure(OutOfRange)
  }

  /** A decoded sample, normalised again, lies within half a quantisation
      step 1/32767 of the c3 the reverse step solved for. */
  lemma DecryptSampleNear(x1i: real, x1i1: real, x1i2: real, n: real)
    requires DecryptSample(x1i, x1i1, x1i2, n).Success?
    ensures var s := DecryptSample(x1i, x1i1, x1i2, n).value;
            var c3 := GetC3Decrypted(x1i, x1i1, x1i2, n);
            Normalize(s) - 0.5 / (MODIF - 1.0) <= c3 <= Normalize(s) + 0.5 / (MODIF - 1.0)
  {
  }

  /** Decoding a normalised sample gives the sample back. */
  lemma DecodeNormalized(sample: int16)
    ensures Round(Denormalize(Normalize(sample))) == sample
  {
    DenormalizeNormalize(sample);
  }

  // ---- Encryption ----

  /** The encrypt loop's variables x1Prev, x2Prev and nPrev between iterations */
  datatype State = State(x1: real, x2: real, n: real)

  /** One encrypt iteration: sample c3 and the noise of the previous draw move
      the state on; n is the noise of the draw made in this iteration. */
  function Step(s: State, c3: real, n: real): State
  {
    State(GetX1Encrypted(s.x1, s.x2), GetX2Encrypted(c3, s.x1, s.x2, s.n), n)
  }

  /** The states of an encrypt run, before the first sample and after each one. */
  function Trace(original: seq<int16>, key: int, rt: Runtime): (t: seq<State>)
    ensures |t| == |original| + 1
    ensures t[0] == State(X10, X20, NoiseAt(rt, key, 0))
    ensures forall k :: 0 <= k < |original| ==>
              t[k + 1] == Step(t[k], Normalize(original[k]), NoiseAt(rt, key, k + 1))
    ensures forall k :: 0 <= k < |t| ==> t[k].n == NoiseAt(rt, key, k)
    decreases |original|
  {
    if |original| == 0 then [State(X10, X20, NoiseAt(rt, key, 0))]
    else
      var t := Trace(original[..|original| - 1], key, rt);
      t + [Step(t[|t| - 1], Normalize(original[|original| - 1]), NoiseAt(rt, key, |original|))]
  }

  /** The data region an encrypt run writes: the x1 of every state, so the
      leading X10 and then one value per sample. */
  function Encrypt(original: seq<int16>, key: int, rt: Runtime): (x: seq<real>)
    ensures |x| == |original| + 1
    ensures x[0] == X10
    ensures forall k :: 0 <= k < |original| ==> x[k + 1] == x[k] + Trace(original, key, rt)[k].x2 * DT
  {
    var t := Trace(original, key, rt);
    seq(|t|, k requires 0 <= k < |t| => t[k].x1)
  }

  /** SDS.EncryptWAVFile: the value written first, then the loop over the
      samples of the original data region, one noise draw before the loop and
      one per sample. `samplesCount` is the count the run reports. */
  method EncryptWAVFile(original: seq<int16>, key: int, rt: Runtime)
      returns (encrypted: seq<real>, samplesCount: nat, ghost drawsMade: nat)
    ensures encrypted == Encrypt(original, key, rt)
    ensures samplesCount == |original|
    ensures drawsMade == |original| + 1
  {
    var rnd := new Random(rt, key);
    var u := rnd.NextDouble();
    var z := Z1 + Z2 * u;
    var nPrev := z * rt.sqrtN0DT;
    var x1Prev := X10;
    var x2Prev := X20;
    encrypted := [x1Prev];
    samplesCount := 0;
    var position := 0;
    ghost var t := Trace(original, key, rt);
    while position < |original|
      invariant 0 <= position <= |original| && samplesCount == position
      invariant rnd.draws == rt.seeded(key) && rnd.drawn == position + 1
      invariant State(x1Prev, x2Prev, nPrev) == t[position]
      invariant |encrypted| == position + 1 && forall k :: 0 <= k <= position ==> encrypted[k] == t[k].x1
    {
      var sample := original[position];
      position := position + 1;
      var c3: real;
      if sample < 0 {
        c3 := sample as real / MODIF;
      } else {
        c3 := sample as real / (MODIF - 1.0);
      }
      u := rnd.NextDouble();
      z := Z1 + Z2 * u;
      var n := z * rt.sqrtN0DT;
      NoiseOfDraw(rt, key, position, u, z, n);
      var x1 := GetX1Encrypted(x1Prev, x2Prev);
      var x2 := GetX2Encrypted(c3, x1Prev, x2Prev, nPrev);
      assert c3 == Normalize(original[position - 1]);
      assert t[position] == Step(State(x1Prev, x2Prev, nPrev), c3, n);
      encrypted := encrypted + [x1];
      samplesCount := samplesCount + 1;
      x1Prev, x2Prev, nPrev := x1, x2, n;
    }
    assert encrypted == Encrypt(original, key, rt);
    drawsMade := rnd.drawn;
  }

  // ---- Decryption ----

  /** Full windows in a data region of m stored values: max(0, m - 2) */
  function WindowCount(m: nat): nat
  {
    if m >= 2 then m - 2 else 0
  }

  /** Window i: the values i, i + 1, i + 2 with the noise of draw i */
  function Window(x: seq<real>, i: nat, key: int, rt: Runtime): Result<int16, Fault>
    requires i + 2 < |x|
  {
    DecryptSample(x[i], x[i + 1], x[i + 2], NoiseAt(rt, key, i))
  }

  datatype DecodeError = DecodeError(index: nat, fault: Fault)

  /** What a decrypt run writes to the data region, and the fault that
      stopped it early, if any. */
  datatype Decryption = Decryption(samples: seq<int16>, error: Option<DecodeError>)

  /** The first m windows decoded in order, stopping at the first that fails:
      sample i comes from window i, and a fault names its window. */
  function DecryptWindows(x: seq<real>, key: int, rt: Runtime, m: nat): (d: Decryption)
    requires m <= WindowCount(|x|)
    ensures d.error.None? ==> |d.samples| == m
    ensures d.error.Some? ==> d.error.value.index == |d.samples| < m
                              && Window(x, |d.samples|, key, rt) == Failure(d.error.value.fault)
    ensures |d.samples| <= m
    ensures forall i :: 0 <= i < |d.samples| ==> Window(x, i, key, rt) == Success(d.samples[i])
    decreases m
  {
    if m == 0 then Decryption([], None)
    else
      var d := DecryptWindows(x, key, rt, m - 1);
      if d.error.Some? then d
      else match Window(x, m - 1, key, rt)
        case Success(sample) => Decryption(d.samples + [sample], None)
        case Failure(fault) => Decryption(d.samples, Some(DecodeError(m - 1, fault)))
  }

  /** The decryption of a whole data region: every full window in order,
      up to the first that fails. */
  function Decrypt(x: seq<real>, key: int, rt: Runtime): (d: Decryption)
    ensures d.error.None? ==> |d.samples| == WindowCount(|x|)
    ensures d.error.Some? ==> d.error.value.index == |d.samples| < WindowCount(|x|)
                              && Window(x, |d.samples|, key, rt) == Failure(d.error.value.fault)
    ensures forall i :: 0 <= i < |d.samples| ==> Window(x, i, key, rt) == Success(d.samples[i])
  {
    DecryptWindows(x, key, rt, WindowCount(|x|))
  }

  /** Once a window fails, later windows change nothing. */
  lemma {:induction false} ErrorPersists(x: seq<real>, key: int, rt: Runtime, m: nat, m': nat)
    requires m <= m' <= WindowCount(|x|)
    requires DecryptWindows(x, key, rt, m).error.Some?
    ensures DecryptWindows(x, key, rt, m') == DecryptWindows(x, key, rt, m)
    decreases m' - m
  {
    if m < m' {
      ErrorPersists(x, key, rt, m, m' - 1);
    }
  }

  /** One more window: a run that has decoded m windows without a fault
      appends the sample of window m, or stops with window m's fault. */
  lemma DecryptWindowsNext(x: seq<real>, key: int, rt: Runtime, m: nat, samples: seq<int16>)
    requires m < WindowCount(|x|)
    requires DecryptWindows(x, key, rt, m) == Decryption(samples, None)
    ensures Window(x, m, key, rt).Success? ==>
              DecryptWindows(x, key, rt, m + 1) == Decryption(samples + [Window(x, m, key, rt).value], None)
    ensures Window(x, m, key, rt).Failure? ==>
              DecryptWindows(x, key, rt, m + 1) == Decryption(samples, Some(DecodeError(m, Window(x, m, key, rt).error)))
  {
  }

  /** SDS.DecryptWAVFile: the read of three values, the seek back by two,
      one noise draw per full window. A window that cannot be decoded stops
      the run (see Fault). */
  method DecryptWAVFile(encrypted: seq<real>, key: int, rt: Runtime)
      returns (decrypted: seq<int16>, error: Option<DecodeError>, samplesCount: nat, ghost drawsMade: nat)
    ensures Decryption(decrypted, error) == Decrypt(encrypted, key, rt)
    ensures samplesCount == |decrypted|
    ensures drawsMade == |decrypted| + (if error.Some? then 1 else 0)
  {
    var rnd := new Random(rt, key);
    decrypted := [];
    error := None;
    samplesCount := 0;
    var position := 0;
    while position < |encrypted|
      invariant position == samplesCount == |decrypted| <= WindowCount(|encrypted|)
      invariant rnd.draws == rt.seeded(key) && rnd.drawn == samplesCount
      invariant DecryptWindows(encrypted, key, rt, samplesCount) == Decryption(decrypted, None)
      decreases |encrypted| - position
    {
      var x1i := encrypted[position];
      position := position + 1;
      if !(position < |encrypted|) {
        break;
      }
      var x1i1 := encrypted[position];
      position := position + 1;
      if !(position < |encrypted|) {
        break;
      }
      var x1i2 := encrypted[position];
      position := position + 1;
      // back by two values: the next window starts one after this one
      position := position - 2;

      var u := rnd.NextDouble();
      var z := Z1 + Z2 * u;
      var n := z * rt.sqrtN0DT;
      NoiseOfDraw(rt, key, samplesCount, u, z, n);
      ghost var window := DecryptSample(x1i, x1i1, x1i2, n);
      assert Window(encrypted, samplesCount, key, rt) == window;
      DecryptWindowsNext(encrypted, key, rt, samplesCount, decrypted);

      if x1i == 0.0 {
        error := Some(DecodeError(samplesCount, ZeroState));
        break;
      }
      var c3 := GetC3Decrypted(x1i, x1i1, x1i2, n);
      if c3 < 0.0 {
        c3 := c3 * MODIF;
      } else {
        c3 := c3 * (MODIF - 1.0);
      }
      assert c3 == Denormalize(GetC3Decrypted(x1i, x1i1, x1i2, n));
      var rounded := Round(c3);
      assert window == if -0x8000 <= rounded < 0x8000 then Success(rounded) else Failure(OutOfRange);
      if !(-0x8000 <= rounded < 0x8000) {
        error := Some(DecodeError(samplesCount, OutOfRange));
        break;
      }
      var sample: int16 := rounded;
      decrypted := decrypted + [sample];
      samplesCount := samplesCount + 1;
    }
    if error.Some? {
      ErrorPersists(encrypted, key, rt, samplesCount + 1, WindowCount(|encrypted|));
    }
    drawsMade := rnd.drawn;
  }

  // ---- Round trip ----

  /** Decrypt window i of an encrypted stream gives back sample i, provided
      the first value of the window is not 0: the window uses the same noise
      draw i that encryption step i used. */
  lemma WindowOfEncrypt(original: seq<int16>, key: int, rt: Runtime, i: nat)
    requires i + 1 < |original|
    requires Encrypt(original, key, rt)[i] != 0.0
    ensures Window(Encrypt(original, key, rt), i, key, rt) == Success(original[i])
  {
    var t := Trace(original, key, rt);
    var x := Encrypt(original, key, rt);
    var c3 := Normalize(original[i]);
    assert x[i] == t[i].x1 && x[i + 1] == t[i + 1].x1 && x[i + 2] == t[i + 2].x1;
    assert t[i + 1] == Step(t[i], c3, NoiseAt(rt, key, i + 1));
    assert t[i + 2].x1 == GetX1Encrypted(t[i + 1].x1, t[i + 1].x2);
    StepInverse(t[i].x1, t[i].x2, NoiseAt(rt, key, i), c3);
    assert GetC3Decrypted(x[i], x[i + 1], x[i + 2], NoiseAt(rt, key, i)) == c3;
    DecodeNormalized(original[i]);
  }

  lemma {:induction false} RoundTripWindows(original: seq<int16>, key: int, rt: Runtime, m: nat)
    requires m < |original|
    requires forall i :: 0 <= i < |original| - 1 ==> Encrypt(original, key, rt)[i] != 0.0
    ensures DecryptWindows(Encrypt(original, key, rt), key, rt, m) == Decryption(original[..m], None)
  {
    if m > 0 {
      RoundTripWindows(original, key, rt, m - 1);
      WindowOfEncrypt(original, key, rt, m - 1);
      assert original[..m - 1] + [original[m - 1]] == original[..m];
    }
  }

  /** Decrypting with the same key what encryption wrote gives back every
      sample except the last, with no fault, as long as no window starts with
      a 0 value; an empty input decrypts to nothing. */
  lemma RoundTrip(original: seq<int16>, key: int, rt: Runtime)
    requires forall i :: 0 <= i < |original| - 1 ==> Encrypt(original, key, rt)[i] != 0.0
    ensures Decrypt(Encrypt(original, key, rt), key, rt)
            == Decryption(if |original| == 0 then [] else original[..|original| - 1], None)
  {
    if |original| > 0 {
      RoundTripWindows(original, key, rt, |original| - 1);
    }
  }

  lemma {:induction false} TracePrefixAt(original: seq<int16>, key: int, rt: Runtime, p: nat, k: nat)
    requires k <= p <= |original|
    ensures Trace(original[..p], key, rt)[k] == Trace(original, key, rt)[k]
  {
    if k > 0 {
      TracePrefixAt(original, key, rt, p, k - 1);
      assert original[..p][k - 1] == original[k - 1];
    }
  }

  /** The encryption of a prefix is a prefix of the encryption: value k
      depends on the first k samples only. */
  lemma EncryptPrefix(original: seq<int16>, key: int, rt: Runtime, p: nat)
    requires p <= |original|
    ensures Encrypt(original[..p], key, rt) == Encrypt(original, key, rt)[..p + 1]
  {
    forall k | 0 <= k <= p
      ensures Encrypt(original[..p], key, rt)[k] == Encrypt(original, key, rt)[k]
    {
      TracePrefixAt(original, key, rt, p, k);
    }
  }

  /** The last sample never reaches the encrypted stream: it only changes the
      x2 of the final state, which is not written. This is the one-sample loss
      of every round trip. */
  lemma LastSampleUnobservable(original: seq<int16>, a: int16, b: int16, key: int, rt: Runtime)
    ensures Encrypt(original + [a], key, rt) == Encrypt(original + [b], key, rt)
  {
    var sa, sb := original + [a], original + [b];
    var t, n := Trace(original, key, rt), |original|;
    assert sa[..n] == original == sb[..n];
    var ta := t + [Step(t[n], Normalize(a), NoiseAt(rt, key, n + 1))];
    var tb := t + [Step(t[n], Normalize(b), NoiseAt(rt, key, n + 1))];
    assert Trace(sa, key, rt) == ta;
    assert Trace(sb, key, rt) == tb;
    assert forall k :: 0 <= k < |ta| ==> ta[k].x1 == tb[k].x1;
  }
}
