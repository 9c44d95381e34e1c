/**
 * What the inference class computes on its buffers, as functions on values:
 * the window rotation and label shift, delta referencing, min-max scaling,
 * the row-major layout of the input tensors and the rounding of outputs.
 */
module Preprocess {
  import opened Words
  import opened Float32
  import opened Communication
  import opened Dimensions

  /** A window of sensor values: SEQUENCE_LENGTH rows (oldest first) of SENSORS channels. */
  type Matrix = seq<seq<real>>

  predicate IsWindow(m: Matrix)
  {
    |m| == SEQUENCE_LENGTH && forall k :: 0 <= k < |m| ==> |m[k]| == SENSORS
  }

  // ---------------------------------------------------------------- samples

  /** The channels of one sample in the order the window stores them; the counts are widened exactly, the floats read as reals. */
  function SensorRow(d: Data): (r: seq<real>)
    ensures |r| == SENSORS
  {
    [d.co2Ppm as real, d.tvocPpm as real, Value(d.bmp280Temperature), Value(d.bmp280Pressure),
     Value(d.mlxObjectTemperature), Value(d.mlxAmbientTemperature), Value(d.humidityDht),
     Value(d.temperatureDht), Value(d.pirUptime)]
  }

  /** Channel j of the model input is field j of the packed record the device reports. */
  lemma SensorRowFollowsImage(d: Data, j: nat)
    requires j < SENSORS
    ensures j < 2 ==> SensorRow(d)[j] == GetLe16(DataImage(d), DataOffsets[j]) as real
    ensures j >= 2 ==> SensorRow(d)[j] == Value(GetLe32(DataImage(d), DataOffsets[j]))
  {
    DataFieldAt(d, j);
  }

  function SensorMatrix(ds: seq<Data>): (m: Matrix)
    requires |ds| == SEQUENCE_LENGTH
    ensures IsWindow(m) && forall k :: 0 <= k < SEQUENCE_LENGTH ==> m[k] == SensorRow(ds[k])
  {
    seq(SEQUENCE_LENGTH, k requires 0 <= k < SEQUENCE_LENGTH => SensorRow(ds[k]))
  }

  // ---------------------------------------------------------------- rotation

  /** One step of the pointer window: every slot takes its successor, the first moves to the end. */
  function RotateLeft<T>(s: seq<T>): (r: seq<T>)
    ensures |r| == |s|
  {
    if s == [] then [] else s[1..] + [s[0]]
  }

  lemma RotateLeftAt<T>(s: seq<T>, k: nat)
    requires k < |s|
    ensures RotateLeft(s)[k] == s[(k + 1) % |s|]
  {
    RotateLeftNext(s, k);
    if k + 1 < |s| {
      ModSmall(k + 1, |s|);
    } else {
      ModUnique(k + 1, |s|, 1, 0);
    }
  }

  /** Slot k of the rotated window holds the successor of slot k; the last slot holds the first. */
  lemma RotateLeftNext<T>(s: seq<T>, k: nat)
    requires k < |s|
    ensures RotateLeft(s)[k] == if k + 1 < |s| then s[k + 1] else s[0]
  {
  }

  /** Rotation loses and duplicates nothing. */
  lemma RotateLeftPermutes<T>(s: seq<T>)
    ensures multiset(RotateLeft(s)) == multiset(s)
  {
    if s != [] {
      assert s == [s[0]] + s[1..];
    }
  }

  /** n steps of rotation. */
  function Rotations<T>(s: seq<T>, n: nat): (r: seq<T>)
    ensures |r| == |s|
  {
    if n == 0 then s else RotateLeft(Rotations(s, n - 1))
  }

  /** After n steps, slot k holds what was in slot (k + n) mod L. */
  lemma {:induction false} RotationsAt<T>(s: seq<T>, n: nat, k: nat)
    requires k < |s|
    ensures Rotations(s, n)[k] == s[(k + n) % |s|]
  {
    if n > 0 {
      RotateLeftAt(Rotations(s, n - 1), k);
      RotationsAt(s, n - 1, (k + 1) % |s|);
      ModSum(k, n, |s|);
    }
  }

  lemma ModSum(k: nat, n: nat, m: nat)
    requires k < m && n > 0
    ensures ((k + 1) % m + (n - 1)) % m == (k + n) % m
  {
    if k + 1 == m {
      ModShift(0, m);
      ModSmall(0, m);
      assert (k + 1) % m == 0;
      ModShift(n - 1, m);
      assert k + n == m + (n - 1);
    } else {
      ModSmall(k + 1, m);
      assert (k + 1) % m + (n - 1) == k + n;
    }
  }

  lemma ModShift(x: nat, m: nat)
    requires 0 < m
    ensures (m + x) % m == x % m
  {
    ModUnique(m + x, m, x / m + 1, x % m);
  }

  lemma ModWrap(k: nat, m: nat)
    requires k < m
    ensures (k + m) % m == k
  {
    ModShift(k, m);
    ModSmall(k, m);
  }

  /** After SEQUENCE_LENGTH shifts the window is back to its first order. */
  lemma {:induction false} FullTurn<T>(s: seq<T>)
    ensures Rotations(s, |s|) == s
  {
    forall k | 0 <= k < |s|
      ensures Rotations(s, |s|)[k] == s[k]
    {
      RotationsAt(s, |s|, k);
      ModWrap(k, |s|);
    }
  }

  /** No element occurs twice. */
  predicate Distinct<T(==)>(s: seq<T>)
  {
    forall a, b :: 0 <= a < b < |s| ==> s[a] != s[b]
  }

  /** Rotation keeps the elements apart: no pointer comes to sit in two slots. */
  lemma RotateLeftDistinct<T>(s: seq<T>)
    requires Distinct(s)
    ensures Distinct(RotateLeft(s))
  {
    if s != [] {
      forall a, b | 0 <= a < b < |s|
        ensures RotateLeft(s)[a] != RotateLeft(s)[b]
      {
        if b < |s| - 1 {
          assert RotateLeft(s)[a] == s[a + 1] && RotateLeft(s)[b] == s[b + 1];
        } else {
          assert RotateLeft(s)[a] == s[a + 1] && RotateLeft(s)[b] == s[0];
        }
      }
    }
  }

  /** Rotating the window and then overwriting its newest slot is one step of a sliding window. */
  lemma RotateThenOverwrite<T>(s: seq<T>, x: T)
    requires |s| > 0
    ensures RotateLeft(s)[|s| - 1 := x] == ShiftIn(s, x)
  {
  }

  // ---------------------------------------------------------------- label history

  /** One step of a label row: drop the oldest, append x as the newest. */
  function ShiftIn<T>(s: seq<T>, x: T): (r: seq<T>)
    requires |s| > 0
    ensures |r| == |s| && r[|r| - 1] == x
    ensures forall k :: 0 <= k < |s| - 1 ==> r[k] == s[k + 1]
  {
    s[1..] + [x]
  }

  /** Shifting in the outputs xs one after another. */
  function ShiftAll<T>(s: seq<T>, xs: seq<T>): (r: seq<T>)
    requires |s| > 0
    ensures |r| == |s|
    decreases |xs|
  {
    if xs == [] then s else ShiftAll(ShiftIn(s, xs[0]), xs[1..])
  }

  /** A label row always holds the last L entries of its history: the initial labels followed by the outputs fed back. */
  lemma {:induction false} ShiftAllKeepsLatest<T>(s: seq<T>, xs: seq<T>)
    requires |s| > 0
    ensures ShiftAll(s, xs) == (s + xs)[|xs|..]
    decreases |xs|
  {
    if xs != [] {
      ShiftAllKeepsLatest(ShiftIn(s, xs[0]), xs[1..]);
      assert ShiftIn(s, xs[0]) + xs[1..] == (s + xs)[1..];
    }
  }

  /** Once L outputs have been fed back, the warm-up labels are gone. */
  lemma LabelsAreOutputs<T>(s: seq<T>, xs: seq<T>)
    requires 0 < |s| <= |xs|
    ensures ShiftAll(s, xs) == xs[|xs| - |s|..]
  {
    ShiftAllKeepsLatest(s, xs);
    assert (s + xs)[|xs|..] == xs[|xs| - |s|..];
  }

  // ---------------------------------------------------------------- delta referencing

  /** Every channel but PIR minus its value in the oldest row. */
  function Deltas(m: Matrix): (r: Matrix)
    requires IsWindow(m)
    ensures IsWindow(r)
  {
    seq(SEQUENCE_LENGTH, k requires 0 <= k < SEQUENCE_LENGTH =>
      seq(SENSORS, j requires 0 <= j < SENSORS =>
        if j < PIR_CHANNEL then m[k][j] - m[0][j] else m[k][j]))
  }

  /** The oldest row becomes zero on every referenced channel; the PIR channel passes through. */
  lemma DeltasReference(m: Matrix)
    requires IsWindow(m)
    ensures forall j :: 0 <= j < PIR_CHANNEL ==> Deltas(m)[0][j] == 0.0
    ensures forall k :: 0 <= k < SEQUENCE_LENGTH ==> Deltas(m)[k][PIR_CHANNEL] == m[k][PIR_CHANNEL]
  {
  }

  /** Adds c[j] to channel j of every row. */
  function Translate(m: Matrix, c: seq<real>): (r: Matrix)
    requires IsWindow(m) && |c| == SENSORS
    ensures IsWindow(r)
  {
    seq(SEQUENCE_LENGTH, k requires 0 <= k < SEQUENCE_LENGTH =>
      seq(SENSORS, j requires 0 <= j < SENSORS => m[k][j] + c[j]))
  }

  /** Delta referencing removes the absolute level: offsetting the referenced channels does not change its result. */
  lemma DeltasIgnoreOffset(m: Matrix, c: seq<real>)
    requires IsWindow(m) && |c| == SENSORS && c[PIR_CHANNEL] == 0.0
    ensures Deltas(Translate(m, c)) == Deltas(m)
  {
    var a, b := Deltas(Translate(m, c)), Deltas(m);
    forall k | 0 <= k < SEQUENCE_LENGTH
      ensures a[k] == b[k]
    {
      assert forall j :: 0 <= j < SENSORS ==> a[k][j] == b[k][j];
    }
  }

  // ---------------------------------------------------------------- scaling

  /** Min-max scaling of channel j, without clamping. */
  function Scale(v: real, j: nat): real
    requires j < SENSORS
  {
    (v - MinDeltas[j]) / Span(j)
  }

  /** The inverse of Scale. */
  function Unscale(u: real, j: nat): real
    requires j < SENSORS
  {
    u * Span(j) + MinDeltas[j]
  }

  /** Scaling is a bijection on the reals: Unscale undoes it and Scale undoes Unscale. */
  lemma ScaleRoundTrip(v: real, j: nat)
    requires j < SENSORS
    ensures Unscale(Scale(v, j), j) == v && Scale(Unscale(v, j), j) == v
  {
    var d := Span(j);
    assert (v - MinDeltas[j]) / d * d == v - MinDeltas[j];
    assert (v * d + MinDeltas[j] - MinDeltas[j]) / d == v;
  }

  /** The ends of the table map to 0 and 1; a value lands in [0, 1] exactly when it lies in its range, so nothing is clamped. */
  lemma ScaleRange(v: real, j: nat)
    requires j < SENSORS
    ensures Scale(MinDeltas[j], j) == 0.0 && Scale(MaxDeltas[j], j) == 1.0
    ensures 0.0 <= Scale(v, j) <= 1.0 <==> MinDeltas[j] <= v <= MaxDeltas[j]
  {
    var d := Span(j);
    assert Scale(v, j) * d == v - MinDeltas[j];
  }

  /** Scaling keeps the order of values. */
  lemma ScaleMonotone(v: real, w: real, j: nat)
    requires j < SENSORS && v < w
    ensures Scale(v, j) < Scale(w, j)
  {
    var d := Span(j);
    assert Scale(w, j) - Scale(v, j) == (w - v) / d;
  }

  function Scaled(m: Matrix): (r: Matrix)
    requires IsWindow(m)
    ensures IsWindow(r)
  {
    seq(SEQUENCE_LENGTH, k requires 0 <= k < SEQUENCE_LENGTH =>
      seq(SENSORS, j requires 0 <= j < SENSORS => Scale(m[k][j], j)))
  }

  /** A window that does not change over time: the referenced channels all scale to Scale(0), the PIR channel to its own scaled value (1 at MAX_PIR_UPTIME). */
  lemma SteadyWindow(m: Matrix, row: seq<real>)
    requires IsWindow(m) && |row| == SENSORS && forall k :: 0 <= k < SEQUENCE_LENGTH ==> m[k] == row
    ensures forall k, j :: 0 <= k < SEQUENCE_LENGTH && 0 <= j < PIR_CHANNEL ==>
      Scaled(Deltas(m))[k][j] == -MinDeltas[j] / Span(j)
    ensures forall k :: 0 <= k < SEQUENCE_LENGTH ==>
      Scaled(Deltas(m))[k][PIR_CHANNEL] == row[PIR_CHANNEL] / MAX_PIR_UPTIME
    ensures row[PIR_CHANNEL] == MAX_PIR_UPTIME ==>
      forall k :: 0 <= k < SEQUENCE_LENGTH ==> Scaled(Deltas(m))[k][PIR_CHANNEL] == 1.0
  {
    assert Span(PIR_CHANNEL) == MAX_PIR_UPTIME;
  }

  // ---------------------------------------------------------------- tensor layout

  const WINDOW_CELLS: nat := SEQUENCE_LENGTH * SENSORS

  /** Row-major offset of sensor_data[i][k][j] in input tensor 0. */
  function SensorOffset(i: nat, k: nat, j: nat): nat
  {
    i * WINDOW_CELLS + k * SENSORS + j
  }

  /** Offset of label [i][k] in input tensors 1 and 2. */
  function LabelOffset(i: nat, k: nat): nat
  {
    i * SEQUENCE_LENGTH + k
  }

  datatype Cell = Cell(batch: nat, step: nat, channel: nat)

  /** Which buffer element sits at offset n of input tensor 0. */
  function SensorCell(n: nat): (c: Cell)
    requires n < BATCH_SIZE * WINDOW_CELLS
    ensures c.batch < BATCH_SIZE && c.step < SEQUENCE_LENGTH && c.channel < SENSORS
    ensures SensorOffset(c.batch, c.step, c.channel) == n
  {
    Cell(n / WINDOW_CELLS, (n % WINDOW_CELLS) / SENSORS, n % SENSORS)
  }

  /** Distinct buffer elements go to distinct offsets, all inside [0, B*L*S): the layout is a bijection. */
  lemma SensorOffsetBijective(i: nat, k: nat, j: nat)
    requires i < BATCH_SIZE && k < SEQUENCE_LENGTH && j < SENSORS
    ensures SensorOffset(i, k, j) < BATCH_SIZE * WINDOW_CELLS
    ensures SensorCell(SensorOffset(i, k, j)) == Cell(i, k, j)
  {
    var n := SensorOffset(i, k, j);
    assert n / WINDOW_CELLS == i;
    assert n % WINDOW_CELLS == k * SENSORS + j;
  }

  /** Label offsets cover [0, B*L) exactly once. */
  lemma LabelOffsetBijective(i: nat, k: nat, n: nat)
    requires i < BATCH_SIZE && k < SEQUENCE_LENGTH && n < BATCH_SIZE * SEQUENCE_LENGTH
    ensures LabelOffset(i, k) < BATCH_SIZE * SEQUENCE_LENGTH
    ensures LabelOffset(n / SEQUENCE_LENGTH, n % SEQUENCE_LENGTH) == n
    ensures LabelOffset(i, k) / SEQUENCE_LENGTH == i && LabelOffset(i, k) % SEQUENCE_LENGTH == k
  {
  }

  /** Input tensor 0 for one batch entry: the preprocessed window, row-major. */
  function Flatten(m: Matrix): (r: seq<real>)
    requires IsWindow(m)
    ensures |r| == WINDOW_CELLS
  {
    seq(WINDOW_CELLS, n requires 0 <= n < WINDOW_CELLS => m[n / SENSORS][n % SENSORS])
  }

  /** Input tensor 0 for a window of samples: SetSequences, ComputeSensorDeltas, ScaleData, SetInputBuffers. */
  function ModelInput(ds: seq<Data>): (r: seq<real>)
    requires |ds| == SEQUENCE_LENGTH
    ensures |r| == WINDOW_CELLS
  {
    Flatten(Scaled(Deltas(SensorMatrix(ds))))
  }

  /** Offset k*S + j of the model input is sample k's channel j, referenced against sample 0 and scaled. */
  lemma ModelInputAt(ds: seq<Data>, k: nat, j: nat)
    requires |ds| == SEQUENCE_LENGTH && k < SEQUENCE_LENGTH && j < SENSORS
    ensures k * SENSORS + j < WINDOW_CELLS
    ensures ModelInput(ds)[k * SENSORS + j] ==
      Scale(if j < PIR_CHANNEL then SensorRow(ds[k])[j] - SensorRow(ds[0])[j] else SensorRow(ds[k])[j], j)
  {
    var m := SensorMatrix(ds);
    var x := Scaled(Deltas(m));
    var v := if j < PIR_CHANNEL then SensorRow(ds[k])[j] - SensorRow(ds[0])[j] else SensorRow(ds[k])[j];
    assert m[k] == SensorRow(ds[k]) && m[0] == SensorRow(ds[0]);
    DeltasAt(m, k, j);
    assert Deltas(m)[k][j] == v;
    ScaledAt(Deltas(m), k, j);
    FlattenAt(x, k, j);
    assert ModelInput(ds)[k * SENSORS + j] == x[k][j] == Scale(v, j);
  }

  lemma DeltasAt(m: Matrix, k: nat, j: nat)
    requires IsWindow(m) && k < SEQUENCE_LENGTH && j < SENSORS
    ensures Deltas(m)[k][j] == if j < PIR_CHANNEL then m[k][j] - m[0][j] else m[k][j]
  {
  }

  lemma ScaledAt(m: Matrix, k: nat, j: nat)
    requires IsWindow(m) && k < SEQUENCE_LENGTH && j < SENSORS
    ensures Scaled(m)[k][j] == Scale(m[k][j], j)
  {
  }

  /** Offset k*S + j of the flattened window is row k, channel j. */
  lemma FlattenAt(m: Matrix, k: nat, j: nat)
    requires IsWindow(m) && k < SEQUENCE_LENGTH && j < SENSORS
    ensures k * SENSORS + j < WINDOW_CELLS && Flatten(m)[k * SENSORS + j] == m[k][j]
  {
    var n := k * SENSORS + j;
    assert n / SENSORS == k && n % SENSORS == j;
  }

  // ---------------------------------------------------------------- outputs

  /** The engine's outputs are ones the firmware can convert: a tag that fits int32_t after rounding. */
  predicate Convertible(score: Float)
  {
    CastsToInt32(score)
  }

  /** The prediction built from the engine's ventilation score and count estimate. */
  function PredictionOf(score: Float, count: Float): (p: Prediction)
    requires Convertible(score)
    ensures IsFinite(count) ==> Value(p.humanCount) == RoundHalfAway(Value(count)) as real
    ensures p.ventilationTag == RoundHalfAway(Value(score))
  {
    Prediction(RoundF(count), RoundToInt32(score))
  }

  /** Rounding is to the nearest integer with halves away from zero: 3.7 gives 4, 0.4 gives 0, 2.5 gives 3 and -2.5 gives -3. */
  lemma RoundingExamples()
    ensures RoundHalfAway(3.7) == 4 && RoundHalfAway(0.4) == 0
    ensures RoundHalfAway(2.5) == 3 && RoundHalfAway(-2.5) == -3
  {
  }
}
