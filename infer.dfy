/**
 * The `Inference` object: its sensor matrix and label buffers, the three
 * input tensors it fills and the prediction it keeps, with the steps of one
 * inference round as methods proved against the functions of `Preprocess`.
 * The interpreter itself is outside the model; its run is passed in as an
 * `Invocation`.
 */
module Infer {
  import opened Words
  import opened Float32
  import opened Communication
  import opened Dimensions
  import opened Preprocess

  /** A heap cell holding one sample: the `Data` object a window pointer refers to. */
  class DataBox {
    var value: Data

    constructor (d: Data)
      ensures value == d
    {
      value := d;
    }
  }

  /** What the interpreter's run produced: a failure, or the two output tensors (ventilation score, count estimate) per batch entry. */
  datatype Invocation = InvokeFailed | Invoked(output0: seq<Float>, output1: seq<Float>)

  /** The outputs can be read for each of the b batch entries and each score converts to int32_t. */
  predicate WellFormed(r: Invocation, b: nat)
  {
    r.Invoked? ==>
      |r.output0| >= b && |r.output1| >= b
      && forall i :: 0 <= i < b ==> Convertible(r.output0[i])
  }

  // ---------------------------------------------------------------- views of the buffers

  /** Row i of a two-dimensional buffer. */
  ghost function Row<T>(a: array2<T>, i: nat): (r: seq<T>)
    requires i < a.Length0
    reads a
    ensures |r| == a.Length1 && forall k :: 0 <= k < a.Length1 ==> r[k] == a[i, k]
  {
    seq(a.Length1, k requires 0 <= k < a.Length1 reads a => a[i, k])
  }

  /** Batch entry i of the sensor buffer as a matrix. */
  ghost function Cells(a: array3<real>, i: nat): (m: Preprocess.Matrix)
    requires i < a.Length0
    reads a
    ensures |m| == a.Length1
    ensures forall k :: 0 <= k < a.Length1 ==> |m[k]| == a.Length2
    ensures forall k, j :: 0 <= k < a.Length1 && 0 <= j < a.Length2 ==> m[k][j] == a[i, k, j]
  {
    seq(a.Length1, k requires 0 <= k < a.Length1 reads a =>
      seq(a.Length2, j requires 0 <= j < a.Length2 reads a => a[i, k, j]))
  }

  /** The samples batch entry i of a window points to, oldest first. */
  ghost function Samples(w: array2<DataBox>, i: nat): (ds: seq<Data>)
    requires i < w.Length0
    reads w, set k | 0 <= k < w.Length1 :: w[i, k]
    ensures |ds| == w.Length1 && forall k :: 0 <= k < w.Length1 ==> ds[k] == w[i, k].value
  {
    seq(w.Length1, k requires 0 <= k < w.Length1 reads w, set k' | 0 <= k' < w.Length1 :: w[i, k'] => w[i, k].value)
  }

  /** Two matrices that agree cell by cell are equal. */
  lemma MatrixEquality(m: Preprocess.Matrix, n: Preprocess.Matrix)
    requires IsWindow(m) && IsWindow(n)
    requires forall k, j :: 0 <= k < SEQUENCE_LENGTH && 0 <= j < SENSORS ==> m[k][j] == n[k][j]
    ensures m == n
  {
    forall k | 0 <= k < SEQUENCE_LENGTH
      ensures m[k] == n[k]
    {
    }
  }

  class Inference {
    /** BATCH_SIZE; the methods are proved for any batch size. */
    const batchSize: nat
    const sensorData: array3<real>
    /** human_counts[B][L][1], its trailing dimension of one dropped; counts are float patterns. */
    const humanCounts: array2<Float>
    const ventilationTags: array2<int32>
    const prediction: array<Prediction>
    /** The interpreter's input tensors 0 (sensors), 1 (counts) and 2 (tags). */
    const input0: array<real>
    const input1: array<Float>
    const input2: array<int32>

    /** The buffer shapes of the class declaration and of the model's tensors. */
    ghost predicate Valid()
    {
      batchSize >= 1
      && sensorData.Length0 == batchSize && sensorData.Length1 == SEQUENCE_LENGTH && sensorData.Length2 == SENSORS
      && humanCounts.Length0 == batchSize && humanCounts.Length1 == SEQUENCE_LENGTH
      && ventilationTags.Length0 == batchSize && ventilationTags.Length1 == SEQUENCE_LENGTH
      && prediction.Length == batchSize
      && input0.Length == batchSize * WINDOW_CELLS
      && input1.Length == batchSize * SEQUENCE_LENGTH && input2.Length == batchSize * SEQUENCE_LENGTH
    }

    /** The object is a global, so its buffers start zeroed; `prediction` takes the record's initialisers. */
    constructor ()
      ensures Valid() && batchSize == BATCH_SIZE && fresh(sensorData) && fresh(humanCounts) && fresh(ventilationTags) && fresh(prediction)
      ensures fresh(input0) && fresh(input1) && fresh(input2)
      ensures forall i, k, j :: 0 <= i < batchSize && 0 <= k < SEQUENCE_LENGTH && 0 <= j < SENSORS ==> sensorData[i, k, j] == 0.0
      ensures forall i, k :: 0 <= i < batchSize && 0 <= k < SEQUENCE_LENGTH ==> humanCounts[i, k] == 0 && ventilationTags[i, k] == 0
      ensures forall i :: 0 <= i < batchSize ==> prediction[i] == DefaultPrediction
    {
      batchSize := BATCH_SIZE;
      sensorData := new real[BATCH_SIZE, SEQUENCE_LENGTH, SENSORS]((_, _, _) => 0.0);
      humanCounts := new Float[BATCH_SIZE, SEQUENCE_LENGTH]((_, _) => 0);
      ventilationTags := new int32[BATCH_SIZE, SEQUENCE_LENGTH]((_, _) => 0);
      prediction := new Prediction[BATCH_SIZE](_ => DefaultPrediction);
      input0 := new real[BATCH_SIZE * WINDOW_CELLS](_ => 0.0);
      input1 := new Float[BATCH_SIZE * SEQUENCE_LENGTH](_ => 0);
      input2 := new int32[BATCH_SIZE * SEQUENCE_LENGTH](_ => 0);
    }

    /** Copies the nine fields of every sample the window points to into the sensor buffer. */
    method SetSequences(window: array2<DataBox>)
      requires Valid() && window.Length0 == batchSize && window.Length1 == SEQUENCE_LENGTH
      modifies sensorData
      ensures forall i :: 0 <= i < batchSize ==> Cells(sensorData, i) == SensorMatrix(Samples(window, i))
    {
      for i := 0 to batchSize
        invariant forall i', k, j :: 0 <= i' < i && 0 <= k < SEQUENCE_LENGTH && 0 <= j < SENSORS ==>
          sensorData[i', k, j] == SensorRow(window[i', k].value)[j]
      {
        for k := 0 to SEQUENCE_LENGTH
          invariant forall i', k', j ::
            (0 <= i' < batchSize && 0 <= k' < SEQUENCE_LENGTH && 0 <= j < SENSORS && (i' < i || (i' == i && k' < k))) ==>
            sensorData[i', k', j] == SensorRow(window[i', k'].value)[j]
        {
          SetRow(i, k, window[i, k].value);
        }
      }
      forall i | 0 <= i < batchSize {
        MatrixEquality(Cells(sensorData, i), SensorMatrix(Samples(window, i)));
      }
    }

    /** The body of SetSequences for slot k of entry i: the nine fields of d in their fixed order. */
    method SetRow(i: nat, k: nat, d: Data)
      requires Valid() && i < batchSize && k < SEQUENCE_LENGTH
      modifies sensorData
      ensures forall j :: 0 <= j < SENSORS ==> sensorData[i, k, j] == SensorRow(d)[j]
      ensures forall i', k', j :: 0 <= i' < batchSize && 0 <= k' < SEQUENCE_LENGTH && 0 <= j < SENSORS && (i', k') != (i, k) ==>
        sensorData[i', k', j] == old(sensorData[i', k', j])
    {
      sensorData[i, k, 0] := d.co2Ppm as real;
      sensorData[i, k, 1] := d.tvocPpm as real;
      sensorData[i, k, 2] := Value(d.bmp280Temperature);
      sensorData[i, k, 3] := Value(d.bmp280Pressure);
      sensorData[i, k, 4] := Value(d.mlxObjectTemperature);
      sensorData[i, k, 5] := Value(d.mlxAmbientTemperature);
      sensorData[i, k, 6] := Value(d.humidityDht);
      sensorData[i, k, 7] := Value(d.temperatureDht);
      sensorData[i, k, 8] := Value(d.pirUptime);
    }

    /** Copies caller-provided label rows into the label buffers. */
    method SetShiftedOutputs(counts: seq<seq<Float>>, ventilation: seq<seq<int32>>)
      requires Valid() && |counts| >= batchSize && |ventilation| >= batchSize
      requires forall i :: 0 <= i < batchSize ==> |counts[i]| >= SEQUENCE_LENGTH && |ventilation[i]| >= SEQUENCE_LENGTH
      modifies humanCounts, ventilationTags
      ensures forall i :: 0 <= i < batchSize ==>
        Row(humanCounts, i) == counts[i][..SEQUENCE_LENGTH] && Row(ventilationTags, i) == ventilation[i][..SEQUENCE_LENGTH]
    {
      for i := 0 to batchSize
        invariant forall i', k :: 0 <= i' < i && 0 <= k < SEQUENCE_LENGTH ==>
          humanCounts[i', k] == counts[i'][k] && ventilationTags[i', k] == ventilation[i'][k]
      {
        for k := 0 to SEQUENCE_LENGTH
          invariant forall i', k' :: 0 <= i' < batchSize && 0 <= k' < SEQUENCE_LENGTH && (i' < i || (i' == i && k' < k)) ==>
            humanCounts[i', k'] == counts[i'][k'] && ventilationTags[i', k'] == ventilation[i'][k']
        {
          humanCounts[i, k] := counts[i][k];
          ventilationTags[i, k] := ventilation[i][k];
        }
      }
    }

    /**
     * One step of the window: the pointers rotate left (the oldest sample's object becomes the
     * newest slot, to be overwritten), and each label row drops its oldest entry and appends
     * the current prediction. Neither the samples nor the sensor buffer change.
     */
    method ShiftSequences(window: array2<DataBox>)
      requires Valid() && window.Length0 == batchSize && window.Length1 == SEQUENCE_LENGTH
      modifies window, humanCounts, ventilationTags
      ensures forall i :: 0 <= i < batchSize ==> Row(window, i) == RotateLeft(old(Row(window, i)))
      ensures forall i :: 0 <= i < batchSize ==> multiset(Row(window, i)) == multiset(old(Row(window, i)))
      ensures forall i :: 0 <= i < batchSize ==>
        Row(humanCounts, i) == ShiftIn(old(Row(humanCounts, i)), prediction[i].humanCount)
      ensures forall i :: 0 <= i < batchSize ==>
        Row(ventilationTags, i) == ShiftIn(old(Row(ventilationTags, i)), prediction[i].ventilationTag)
    {
      for i := 0 to batchSize
        invariant forall i' :: 0 <= i' < batchSize ==>
          if i' < i then
            && Row(window, i') == RotateLeft(old(Row(window, i')))
            && Row(humanCounts, i') == ShiftIn(old(Row(humanCounts, i')), prediction[i'].humanCount)
            && Row(ventilationTags, i') == ShiftIn(old(Row(ventilationTags, i')), prediction[i'].ventilationTag)
          else
            && Row(window, i') == old(Row(window, i'))
            && Row(humanCounts, i') == old(Row(humanCounts, i'))
            && Row(ventilationTags, i') == old(Row(ventilationTags, i'))
      {
        ShiftRow(window, i);
      }
      forall i | 0 <= i < batchSize
        ensures multiset(Row(window, i)) == multiset(old(Row(window, i)))
      {
        RotateLeftPermutes(old(Row(window, i)));
      }
    }

    /** Row i of the window rotates and its two label rows shift in the prediction; other rows keep their contents. */
    method ShiftRow(window: array2<DataBox>, i: nat)
      requires Valid() && window.Length0 == batchSize && window.Length1 == SEQUENCE_LENGTH && i < batchSize
      modifies window, humanCounts, ventilationTags
      ensures Row(window, i) == RotateLeft(old(Row(window, i)))
      ensures Row(humanCounts, i) == ShiftIn(old(Row(humanCounts, i)), prediction[i].humanCount)
      ensures Row(ventilationTags, i) == ShiftIn(old(Row(ventilationTags, i)), prediction[i].ventilationTag)
      ensures forall i' :: 0 <= i' < batchSize && i' != i ==>
        && Row(window, i') == old(Row(window, i'))
        && Row(humanCounts, i') == old(Row(humanCounts, i'))
        && Row(ventilationTags, i') == old(Row(ventilationTags, i'))
    {
      var first := window[i, 0];
      for k := 0 to SEQUENCE_LENGTH - 1
        invariant forall i', k' :: 0 <= i' < batchSize && 0 <= k' < SEQUENCE_LENGTH ==>
          window[i', k'] == if i' == i && k' < k then old(window[i', k' + 1]) else old(window[i', k'])
        invariant forall i', k' :: 0 <= i' < batchSize && 0 <= k' < SEQUENCE_LENGTH ==>
          humanCounts[i', k'] == if i' == i && k' < k then old(humanCounts[i', k' + 1]) else old(humanCounts[i', k'])
        invariant forall i', k' :: 0 <= i' < batchSize && 0 <= k' < SEQUENCE_LENGTH ==>
          ventilationTags[i', k'] == if i' == i && k' < k then old(ventilationTags[i', k' + 1]) else old(ventilationTags[i', k'])
      {
        humanCounts[i, k] := humanCounts[i, k + 1];
        ventilationTags[i, k] := ventilationTags[i, k + 1];
        window[i, k] := window[i, k + 1];
      }
      window[i, SEQUENCE_LENGTH - 1] := first;
      ventilationTags[i, SEQUENCE_LENGTH - 1] := prediction[i].ventilationTag;
      humanCounts[i, SEQUENCE_LENGTH - 1] := prediction[i].humanCount;
      ghost var w := old(Row(window, i));
      forall k | 0 <= k < SEQUENCE_LENGTH
        ensures Row(window, i)[k] == RotateLeft(w)[k]
      {
        RotateLeftNext(w, k);
      }
    }

    /** Every channel but PIR, in every row, minus its value in row 0 as it was on entry. */
    method ComputeSensorDeltas()
      requires Valid()
      modifies sensorData
      ensures forall i :: 0 <= i < batchSize ==> Cells(sensorData, i) == Deltas(old(Cells(sensorData, i)))
    {
      for i := 0 to batchSize
        invariant forall i', k, j :: 0 <= i' < batchSize && 0 <= k < SEQUENCE_LENGTH && 0 <= j < SENSORS ==>
          sensorData[i', k, j] ==
            if i' < i && j < PIR_CHANNEL then old(sensorData[i', k, j]) - old(sensorData[i', 0, j]) else old(sensorData[i', k, j])
      {
        // the memcpy of row 0
        var firstRow := new real[SENSORS];
        for j := 0 to SENSORS
          modifies firstRow
          invariant forall j' :: 0 <= j' < j ==> firstRow[j'] == sensorData[i, 0, j']
        {
          firstRow[j] := sensorData[i, 0, j];
        }
        for k := 0 to SEQUENCE_LENGTH
          invariant forall j :: 0 <= j < SENSORS ==> firstRow[j] == old(sensorData[i, 0, j])
          invariant forall i', k', j :: 0 <= i' < batchSize && 0 <= k' < SEQUENCE_LENGTH && 0 <= j < SENSORS ==>
            sensorData[i', k', j] ==
              if (i' < i || (i' == i && k' < k)) && j < PIR_CHANNEL then old(sensorData[i', k', j]) - old(sensorData[i', 0, j])
              else old(sensorData[i', k', j])
        {
          for j := 0 to SENSORS - 1
            modifies sensorData
            invariant forall i', k', j' :: 0 <= i' < batchSize && 0 <= k' < SEQUENCE_LENGTH && 0 <= j' < SENSORS ==>
              sensorData[i', k', j'] ==
                if (i' < i || (i' == i && k' < k) || (i' == i && k' == k && j' < j)) && j' < PIR_CHANNEL
                then old(sensorData[i', k', j']) - old(sensorData[i', 0, j'])
                else old(sensorData[i', k', j'])
          {
            sensorData[i, k, j] := sensorData[i, k, j] - firstRow[j];
          }
        }
      }
      forall i | 0 <= i < batchSize
        ensures Cells(sensorData, i) == Deltas(old(Cells(sensorData, i)))
      {
        var m := old(Cells(sensorData, i));
        forall k, j | 0 <= k < SEQUENCE_LENGTH && 0 <= j < SENSORS
          ensures Cells(sensorData, i)[k][j] == Deltas(m)[k][j]
        {
          assert m[k][j] == old(sensorData[i, k, j]) && m[0][j] == old(sensorData[i, 0, j]);
        }
        MatrixEquality(Cells(sensorData, i), Deltas(m));
      }
    }

    /** Min-max scaling of every cell with the channel's fixed range. */
    method ScaleData()
      requires Valid()
      modifies sensorData
      ensures forall i :: 0 <= i < batchSize ==> Cells(sensorData, i) == Scaled(old(Cells(sensorData, i)))
    {
      for i := 0 to batchSize
        invariant forall i', k, j :: 0 <= i' < i && 0 <= k < SEQUENCE_LENGTH && 0 <= j < SENSORS ==>
          sensorData[i', k, j] == Scale(old(sensorData[i', k, j]), j)
        invariant forall i', k, j :: i <= i' < batchSize && 0 <= k < SEQUENCE_LENGTH && 0 <= j < SENSORS ==>
          sensorData[i', k, j] == old(sensorData[i', k, j])
      {
        for k := 0 to SEQUENCE_LENGTH
          invariant forall i', k', j :: 0 <= i' < batchSize && 0 <= k' < SEQUENCE_LENGTH && 0 <= j < SENSORS ==>
            sensorData[i', k', j] == if i' < i || (i' == i && k' < k) then Scale(old(sensorData[i', k', j]), j) else old(sensorData[i', k', j])
        {
          for j := 0 to SENSORS
            invariant forall i', k', j' :: 0 <= i' < batchSize && 0 <= k' < SEQUENCE_LENGTH && 0 <= j' < SENSORS ==>
              sensorData[i', k', j'] ==
                if i' < i || (i' == i && k' < k) || (i' == i && k' == k && j' < j) then Scale(old(sensorData[i', k', j']), j')
                else old(sensorData[i', k', j'])
          {
            sensorData[i, k, j] := (sensorData[i, k, j] - MinDeltas[j]) / (MaxDeltas[j] - MinDeltas[j]);
          }
        }
      }
      forall i | 0 <= i < batchSize
        ensures Cells(sensorData, i) == Scaled(old(Cells(sensorData, i)))
      {
        var m := old(Cells(sensorData, i));
        forall k, j | 0 <= k < SEQUENCE_LENGTH && 0 <= j < SENSORS
          ensures Cells(sensorData, i)[k][j] == Scaled(m)[k][j]
        {
          assert m[k][j] == old(sensorData[i, k, j]);
        }
        MatrixEquality(Cells(sensorData, i), Scaled(m));
      }
    }

    /** Lays the buffers out row-major in the input tensors: entry i's window fills its own block of L*S sensor cells and L label cells. */
    method SetInputBuffers()
      requires Valid()
      modifies input0, input1, input2
      ensures forall i :: 0 <= i < batchSize ==>
        input0[i * WINDOW_CELLS..(i + 1) * WINDOW_CELLS] == Flatten(Cells(sensorData, i))
      ensures forall i :: 0 <= i < batchSize ==>
        input1[i * SEQUENCE_LENGTH..(i + 1) * SEQUENCE_LENGTH] == Row(humanCounts, i)
        && input2[i * SEQUENCE_LENGTH..(i + 1) * SEQUENCE_LENGTH] == Row(ventilationTags, i)
    {
      for i := 0 to batchSize
        invariant forall i', k, j :: 0 <= i' < i && 0 <= k < SEQUENCE_LENGTH && 0 <= j < SENSORS ==>
          input0[SensorOffset(i', k, j)] == sensorData[i', k, j]
        invariant forall i', k :: 0 <= i' < i && 0 <= k < SEQUENCE_LENGTH ==>
          input1[LabelOffset(i', k)] == humanCounts[i', k] && input2[LabelOffset(i', k)] == ventilationTags[i', k]
      {
        for k := 0 to SEQUENCE_LENGTH
          invariant forall i', k', j ::
            (0 <= i' < batchSize && 0 <= k' < SEQUENCE_LENGTH && 0 <= j < SENSORS && (i' < i || (i' == i && k' < k))) ==>
            input0[SensorOffset(i', k', j)] == sensorData[i', k', j]
          invariant forall i', k' :: 0 <= i' < batchSize && 0 <= k' < SEQUENCE_LENGTH && (i' < i || (i' == i && k' < k)) ==>
            input1[LabelOffset(i', k')] == humanCounts[i', k'] && input2[LabelOffset(i', k')] == ventilationTags[i', k']
        {
          for j := 0 to SENSORS
            invariant forall i', k', j' ::
              (0 <= i' < batchSize && 0 <= k' < SEQUENCE_LENGTH && 0 <= j' < SENSORS
               && (i' < i || (i' == i && k' < k) || (i' == i && k' == k && j' < j))) ==>
              input0[SensorOffset(i', k', j')] == sensorData[i', k', j']
            invariant forall i', k' :: 0 <= i' < batchSize && 0 <= k' < SEQUENCE_LENGTH && (i' < i || (i' == i && k' < k)) ==>
              input1[LabelOffset(i', k')] == humanCounts[i', k'] && input2[LabelOffset(i', k')] == ventilationTags[i', k']
          {
            input0[i * WINDOW_CELLS + k * SENSORS + j] := sensorData[i, k, j];
          }
          input1[i * SEQUENCE_LENGTH + k] := humanCounts[i, k];
          input2[i * SEQUENCE_LENGTH + k] := ventilationTags[i, k];
        }
      }
      forall i | 0 <= i < batchSize
        ensures input0[i * WINDOW_CELLS..(i + 1) * WINDOW_CELLS] == Flatten(Cells(sensorData, i))
        ensures input1[i * SEQUENCE_LENGTH..(i + 1) * SEQUENCE_LENGTH] == Row(humanCounts, i)
        ensures input2[i * SEQUENCE_LENGTH..(i + 1) * SEQUENCE_LENGTH] == Row(ventilationTags, i)
      {
        FlatBlock(input0[..], i, Cells(sensorData, i));
        LabelBlock(input1[..], i, Row(humanCounts, i));
        LabelBlock(input2[..], i, Row(ventilationTags, i));
      }
    }

    /**
     * Reads the interpreter's outcome. On failure nothing changes and false is returned; otherwise
     * each entry's prediction is the rounded count and the rounded, int32-cast ventilation score.
     */
    method Predict(outcome: Invocation) returns (ok: bool)
      requires Valid() && WellFormed(outcome, batchSize)
      modifies prediction
      ensures ok <==> outcome.Invoked?
      ensures !ok ==> prediction[..] == old(prediction[..])
      ensures ok ==> forall i :: 0 <= i < batchSize ==>
        prediction[i] == PredictionOf(outcome.output0[i], outcome.output1[i])
    {
      if outcome.InvokeFailed? {
        return false;
      }
      for i := 0 to batchSize
        invariant forall i' :: 0 <= i' < i ==> prediction[i'] == PredictionOf(outcome.output0[i'], outcome.output1[i'])
      {
        prediction[i] := PredictionOf(outcome.output0[i], outcome.output1[i]);
      }
      return true;
    }

    /** Every label slot of every entry takes the given pair. */
    method SetDefaultLabels(humanCount: Float, ventilationTag: int32)
      requires Valid()
      modifies humanCounts, ventilationTags
      ensures forall i :: 0 <= i < batchSize ==>
        Row(humanCounts, i) == seq(SEQUENCE_LENGTH, _ => humanCount)
        && Row(ventilationTags, i) == seq(SEQUENCE_LENGTH, _ => ventilationTag)
    {
      for i := 0 to batchSize
        invariant forall i', k :: 0 <= i' < i && 0 <= k < SEQUENCE_LENGTH ==>
          humanCounts[i', k] == humanCount && ventilationTags[i', k] == ventilationTag
      {
        for k := 0 to SEQUENCE_LENGTH
          invariant forall i', k' :: 0 <= i' < batchSize && 0 <= k' < SEQUENCE_LENGTH && (i' < i || (i' == i && k' < k)) ==>
            humanCounts[i', k'] == humanCount && ventilationTags[i', k'] == ventilationTag
        {
          humanCounts[i, k] := humanCount;
          ventilationTags[i, k] := ventilationTag;
        }
      }
    }

    /** The prediction of the last batch entry. */
    method GetRecentPrediction() returns (p: Prediction)
      requires Valid()
      ensures p == prediction[batchSize - 1]
    {
      p := prediction[batchSize - 1];
    }
  }

  /** A tensor block filled cell by cell from a window is that window flattened. */
  lemma FlatBlock(t: seq<real>, i: nat, m: Preprocess.Matrix)
    requires IsWindow(m) && |t| >= (i + 1) * WINDOW_CELLS
    requires forall k, j :: 0 <= k < SEQUENCE_LENGTH && 0 <= j < SENSORS ==> t[SensorOffset(i, k, j)] == m[k][j]
    ensures t[i * WINDOW_CELLS..(i + 1) * WINDOW_CELLS] == Flatten(m)
  {
    forall n | 0 <= n < WINDOW_CELLS
      ensures t[i * WINDOW_CELLS + n] == Flatten(m)[n]
    {
      var k, j := n / SENSORS, n % SENSORS;
      assert SensorOffset(i, k, j) == i * WINDOW_CELLS + n;
    }
  }

  /** A label block filled slot by slot is the label row. */
  lemma LabelBlock<T>(t: seq<T>, i: nat, r: seq<T>)
    requires |r| == SEQUENCE_LENGTH && |t| >= (i + 1) * SEQUENCE_LENGTH
    requires forall k :: 0 <= k < SEQUENCE_LENGTH ==> t[LabelOffset(i, k)] == r[k]
    ensures t[i * SEQUENCE_LENGTH..(i + 1) * SEQUENCE_LENGTH] == r
  {
    forall n | 0 <= n < SEQUENCE_LENGTH
      ensures t[i * SEQUENCE_LENGTH + n] == r[n]
    {
      assert LabelOffset(i, n) == i * SEQUENCE_LENGTH + n;
    }
  }
}
