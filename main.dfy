/**
 * The firmware's two activities around the shared window: the sampling loop,
 * which every POLL_INTERVAL ms takes a sample and either sends it raw, files it
 * during calibration, or hands a new window to the model; and the inference
 * task, which waits for a window, runs the pipeline and shifts the window.
 * Each loop tick and each round of the task is one atomic step on the shared
 * state. `Shared` and its step functions describe the handshake over the two
 * event flags; the `Device` class holds the real state and is proved to follow
 * them.
 */
module Main {
  import opened Words
  import opened Float32
  import opened Communication
  import opened Dimensions
  import opened Preprocess
  import opened Infer
  import opened Pir
  import opened ButtonControl

  /** POLL_INVERVAL, in milliseconds. */
  const POLL_INTERVAL: nat := 10000

  /** The click window `loop` hands to `buttonCtrl`. */
  const CLICK_TIME: uint32 := 250

  // ---------------------------------------------------------------- the poll gate

  /** The gate as written: the deadline last_poll + POLL_INTERVAL is computed in uint32 and compared with now. */
  function PollDueAsWritten(lastPoll: uint32, now: uint32): bool
  {
    Wrap32(lastPoll + POLL_INTERVAL) <= now
  }

  /** The gate as intended: at least POLL_INTERVAL ms have passed since the last poll, on the wrapping clock. */
  function PollDue(lastPoll: uint32, now: uint32): bool
  {
    Wrap32(now - lastPoll) >= POLL_INTERVAL
  }

  /** Away from the end of the clock's range the two gates agree. */
  lemma PollGatesAgree(lastPoll: uint32, now: uint32)
    requires lastPoll <= now && lastPoll + POLL_INTERVAL < 0x1_0000_0000
    ensures PollDueAsWritten(lastPoll, now) == PollDue(lastPoll, now)
    ensures PollDue(lastPoll, now) <==> now - lastPoll >= POLL_INTERVAL
  {
  }

  /** In the last ten seconds before the clock wraps, the written deadline wraps to a small value and the gate opens a millisecond after a poll. */
  lemma PollGateOpensEarly()
    ensures PollDueAsWritten(0xFFFF_F000, 0xFFFF_F001)
    ensures !PollDue(0xFFFF_F000, 0xFFFF_F001)
  {
  }

  /** The intended gate keeps the interval across the wrap of the clock: it opens exactly POLL_INTERVAL ms after the last poll. */
  lemma PollDueAcrossWrap(lastPoll: uint32, d: nat)
    requires d < 0x1_0000_0000
    ensures PollDue(lastPoll, Wrap32(lastPoll + d)) <==> d >= POLL_INTERVAL
  {
  }

  // ---------------------------------------------------------------- the shared state and its steps

  /** The mode, the calibration counter, the DATA_SET and PREDICTION_READY event bits, and whether the inference task still runs. */
  datatype Shared = Shared(inferenceMode: bool, calibrationCounter: uint32, dataSet: bool, predictionReady: bool, taskAlive: bool)

  /** After setup: raw mode, counter 0, both bits cleared, task created. */
  const Boot: Shared := Shared(false, 0, false, false, true)

  /** What a poll does with its sample. */
  datatype Branch = SendRaw | Calibrate(slot: nat) | Admit | Drop

  function Classify(s: Shared): (b: Branch)
    ensures b == SendRaw <==> !s.inferenceMode
    ensures b.Calibrate? <==> s.inferenceMode && s.calibrationCounter < SEQUENCE_LENGTH
    ensures b.Calibrate? ==> b.slot == s.calibrationCounter
    ensures b == Admit <==> s.inferenceMode && s.calibrationCounter >= SEQUENCE_LENGTH && s.predictionReady
  {
    if !s.inferenceMode then SendRaw
    else if s.calibrationCounter < SEQUENCE_LENGTH then Calibrate(s.calibrationCounter)
    else if s.predictionReady then Admit
    else Drop
  }

  /** The window slot a poll overwrites, if any. */
  function WrittenSlot(b: Branch): (r: Option<nat>)
    ensures r.Some? <==> b.Calibrate? || b == Admit
    ensures b.Calibrate? ==> r == Some(b.slot)
    ensures b == Admit ==> r == Some(SEQUENCE_LENGTH - 1)
  {
    match b
    case Calibrate(slot) => Some(slot)
    case Admit => Some(SEQUENCE_LENGTH - 1)
    case _ => None
  }

  /** What a poll sends, given the latest prediction. */
  function Response(b: Branch, reading: Data, latest: Prediction): (r: Sent)
    ensures r.DataSent? <==> b == SendRaw
    ensures r.PredictionSent? <==> b == Admit
    ensures r.DataSent? ==> r.data == reading
    ensures r.PredictionSent? ==> r.prediction == latest
  {
    match b
    case SendRaw => DataSent(reading)
    case Admit => PredictionSent(latest)
    case _ => NothingSent
  }

  /** The window after a poll has filed `reading` as the branch says. */
  function Filed(ds: seq<Data>, b: Branch, reading: Data): (r: seq<Data>)
    requires |ds| == SEQUENCE_LENGTH
    ensures |r| == |ds|
    ensures forall k :: 0 <= k < |ds| ==> r[k] == if WrittenSlot(b) == Some(k) then reading else ds[k]
  {
    match WrittenSlot(b)
    case None => ds
    case Some(k) => if k < |ds| then ds[k := reading] else ds
  }

  /** The shared state after a poll. */
  function AfterSample(s: Shared): Shared
  {
    match Classify(s)
    case SendRaw => s
    case Calibrate(slot) => s.(calibrationCounter := slot + 1, dataSet := s.dataSet || slot == SEQUENCE_LENGTH - 1)
    case Admit => s.(predictionReady := false, dataSet := true)
    case Drop => s
  }

  /** The shared state after one round of the inference task, `ok` being the outcome of Predict. */
  function AfterRun(s: Shared, ok: bool): Shared
  {
    if !s.dataSet || !s.taskAlive then s
    else if ok then s.(dataSet := false, predictionReady := true)
    else s.(dataSet := false, taskAlive := false)
  }

  /**
   * The handshake: the counter stays within L, the two bits are never both set, neither is set during
   * calibration, and a stopped task leaves both clear after a complete calibration.
   */
  predicate Handshake(s: Shared)
  {
    s.calibrationCounter <= SEQUENCE_LENGTH
    && !(s.dataSet && s.predictionReady)
    && (s.calibrationCounter < SEQUENCE_LENGTH ==> !s.dataSet && !s.predictionReady)
    && (!s.taskAlive ==> !s.dataSet && !s.predictionReady && s.calibrationCounter == SEQUENCE_LENGTH)
  }

  lemma BootHandshake()
    ensures Handshake(Boot)
  {
  }

  /** Polls keep the handshake. */
  lemma SampleKeepsHandshake(s: Shared)
    requires Handshake(s)
    ensures Handshake(AfterSample(s))
  {
  }

  /** Inference rounds keep the handshake. */
  lemma RunKeepsHandshake(s: Shared, ok: bool)
    requires Handshake(s)
    ensures Handshake(AfterRun(s, ok))
  {
  }

  /** n polls one after another. */
  function Polls(s: Shared, n: nat): Shared
  {
    if n == 0 then s else AfterSample(Polls(s, n - 1))
  }

  /**
   * Calibration from counter 0 files the k-th sample into slot k, counts up to exactly L and raises
   * DATA_SET once, on the sample that fills slot L-1.
   */
  lemma {:induction false} CalibrationFills(s: Shared, n: nat)
    requires s.inferenceMode && s.calibrationCounter == 0 && !s.dataSet && !s.predictionReady
    requires n <= SEQUENCE_LENGTH
    ensures Polls(s, n) == s.(calibrationCounter := n, dataSet := n == SEQUENCE_LENGTH)
    ensures n < SEQUENCE_LENGTH ==> Classify(Polls(s, n)) == Calibrate(n)
  {
    if n > 0 {
      CalibrationFills(s, n - 1);
    }
  }

  /** After calibration, further polls only wait for a prediction: the counter stays at L. */
  lemma CounterStaysAtLength(s: Shared)
    requires Handshake(s) && s.calibrationCounter == SEQUENCE_LENGTH
    ensures AfterSample(s).calibrationCounter == SEQUENCE_LENGTH
  {
  }

  /** While a window waits for the model no poll writes the window. */
  lemma PendingWindowIsKept(s: Shared)
    requires Handshake(s) && s.dataSet
    ensures WrittenSlot(Classify(s)) == None
  {
  }

  /** A ready prediction lets exactly one sample in; after it, polls wait until a successful round has returned to the same state. */
  lemma SteadyCycle(s: Shared)
    requires Handshake(s) && s.inferenceMode && s.calibrationCounter == SEQUENCE_LENGTH && s.predictionReady
    ensures Classify(s) == Admit
    ensures var t := AfterSample(s); t.dataSet && !t.predictionReady && Classify(t) == Drop && AfterRun(t, true) == s
  {
  }

  /** Once the task has stopped, polls in inference mode neither write nor send, and there is no round to run. */
  lemma AbortedIsSilent(s: Shared, ok: bool)
    requires Handshake(s) && !s.taskAlive && s.inferenceMode
    ensures Classify(s) == Drop && AfterSample(s) == s && AfterRun(s, ok) == s
  {
  }

  /**
   * The double click that turns inference back on resets only the counter: a PREDICTION_READY left from the
   * previous session survives, and after a new calibration both bits are set, so the next poll overwrites the
   * newest slot of a window the model has not yet taken.
   */
  lemma RestartKeepsStaleBit()
    ensures var s := Shared(false, SEQUENCE_LENGTH, false, true, true);
      var t := s.(inferenceMode := true, calibrationCounter := 0);
      Handshake(s) && !Handshake(t)
      && Polls(t, SEQUENCE_LENGTH).dataSet && Polls(t, SEQUENCE_LENGTH).predictionReady
      && Classify(Polls(t, SEQUENCE_LENGTH)) == Admit
  {
    var t := Shared(true, 0, false, true, true);
    StaleCalibration(t, SEQUENCE_LENGTH);
  }

  /**
   * The double click that toggles inference mode, on the shared state: the mode flips, and turning it on
   * restarts the counter; the event bits and the task are left as they are.
   */
  function Toggle(s: Shared): (r: Shared)
    ensures r.inferenceMode == !s.inferenceMode
    ensures r.calibrationCounter == if s.inferenceMode then s.calibrationCounter else 0
    ensures r.dataSet == s.dataSet && r.predictionReady == s.predictionReady && r.taskAlive == s.taskAlive
  {
    s.(inferenceMode := !s.inferenceMode, calibrationCounter := if s.inferenceMode then s.calibrationCounter else 0)
  }

  /** A release that completes a double click, as `buttonCtrl` handles it, is Toggle on the mode and counter it is handed. */
  lemma ToggleIsCtrl(s: Shared, b: ButtonState, clickTime: uint32, now: uint32)
    requires b.pending && !b.asleep && b.clickCount == 2 && GetTimer(b.timer, now) < HOLD_TO_SLEEP
    ensures var c := Ctrl(b, clickTime, false, now, s.inferenceMode, s.calibrationCounter);
      s.(inferenceMode := c.flag, calibrationCounter := c.counter) == Toggle(s)
  {
    ToggleEffect(b, clickTime, now, s.inferenceMode, s.calibrationCounter);
  }

  /**
   * The toggle does not keep the handshake, and then a failed round does not silence the device: after a
   * restart with a stale PREDICTION_READY and a full recalibration, a failed Predict stops the task but
   * leaves PREDICTION_READY up, so the next poll still overwrites slot L-1 and sends a prediction; the
   * DATA_SET it raises is never taken, and every later poll is dropped.
   */
  lemma FailedRoundAfterStaleRestart(reading: Data, latest: Prediction)
    ensures var s := Shared(false, SEQUENCE_LENGTH, false, true, true);
      var v := AfterRun(Polls(Toggle(s), SEQUENCE_LENGTH), false);
      Handshake(s) && !Handshake(Toggle(s))
      && !v.taskAlive && v.inferenceMode && Classify(v) == Admit
      && WrittenSlot(Classify(v)) == Some(SEQUENCE_LENGTH - 1)
      && Response(Classify(v), reading, latest) == PredictionSent(latest)
      && Classify(AfterSample(v)) == Drop && AfterSample(AfterSample(v)) == AfterSample(v)
  {
    StaleCalibration(Shared(true, 0, false, true, true), SEQUENCE_LENGTH);
  }

  /**
   * Turning inference off and on again after the task has stopped restarts calibration: the window is
   * written slot by slot from slot 0 and DATA_SET is raised at the end, though no task is left to take it.
   */
  lemma DeadTaskRecalibrates(reading: Data, latest: Prediction)
    ensures var s := Shared(true, SEQUENCE_LENGTH, false, false, false);
      var t := Toggle(Toggle(s));
      var u := Polls(t, SEQUENCE_LENGTH);
      Handshake(s) && !Handshake(t) && Classify(t) == Calibrate(0)
      && u.dataSet && !u.taskAlive && Classify(u) == Drop && AfterRun(u, false) == u
  {
    CalibrationFills(Shared(true, 0, false, false, false), SEQUENCE_LENGTH);
  }

  lemma {:induction false} StaleCalibration(t: Shared, n: nat)
    requires t.inferenceMode && t.calibrationCounter == 0 && !t.dataSet && n <= SEQUENCE_LENGTH
    ensures Polls(t, n) == t.(calibrationCounter := n, dataSet := n == SEQUENCE_LENGTH)
  {
    if n > 0 {
      StaleCalibration(t, n - 1);
    }
  }

  // ---------------------------------------------------------------- the device

  /** What a poll sends: nothing, the raw sample, or the latest prediction. */
  datatype Sent = NothingSent | DataSent(data: Data) | PredictionSent(prediction: Prediction)

  /** The `new Data()` loop of `setup`: every slot of the window points at an object of its own, zero-initialised. */
  method AllocateWindow() returns (w: array2<DataBox>, ghost made: seq<DataBox>)
    ensures fresh(w) && w.Length0 == BATCH_SIZE && w.Length1 == SEQUENCE_LENGTH
    ensures |made| == BATCH_SIZE * SEQUENCE_LENGTH && Distinct(made)
    ensures forall b :: b in made ==> fresh(b) && b.value == ZeroData
    ensures Row(w, 0) == made[..SEQUENCE_LENGTH]
  {
    var placeholder := new DataBox(ZeroData);
    w := new DataBox[BATCH_SIZE, SEQUENCE_LENGTH]((_, _) => placeholder);
    made := [];
    for i := 0 to BATCH_SIZE
      invariant |made| == i * SEQUENCE_LENGTH && Distinct(made)
      invariant forall b :: b in made ==> fresh(b) && b.value == ZeroData
      invariant forall i', k :: 0 <= i' < BATCH_SIZE && 0 <= k < SEQUENCE_LENGTH ==>
        if i' < i then w[i', k] == made[i' * SEQUENCE_LENGTH + k] else true
    {
      for k := 0 to SEQUENCE_LENGTH
        invariant |made| == i * SEQUENCE_LENGTH + k && Distinct(made)
        invariant forall b :: b in made ==> fresh(b) && b.value == ZeroData
        invariant forall i', k' :: 0 <= i' < BATCH_SIZE && 0 <= k' < SEQUENCE_LENGTH ==>
          if i' < i || (i' == i && k' < k) then w[i', k'] == made[i' * SEQUENCE_LENGTH + k'] else true
      {
        var b := new DataBox(ZeroData);
        w[i, k] := b;
        made := made + [b];
      }
    }
    assert Row(w, 0) == made[..SEQUENCE_LENGTH];
  }

  class Device {
    const model: Inference
    /** `data_pointer_array`. */
    const window: array2<DataBox>
    /** The Data objects allocated at setup. */
    ghost const boxes: seq<DataBox>
    const pir: PirSensor
    const button: Button

    var lastPoll: uint32
    var calibrationCounter: uint32
    var inferenceMode: bool
    var dataSet: bool
    var predictionReady: bool
    var taskAlive: bool

    /** The shapes, and the window pointing at the L objects of setup, each once. */
    ghost predicate Valid()
      reads window
    {
      model.Valid() && model.batchSize == BATCH_SIZE
      && window.Length0 == BATCH_SIZE && window.Length1 == SEQUENCE_LENGTH
      && |boxes| == SEQUENCE_LENGTH && Distinct(boxes)
      && multiset(Row(window, 0)) == multiset(boxes) && Distinct(Row(window, 0))
    }

    function Abs(): Shared
      reads this
    {
      Shared(inferenceMode, calibrationCounter, dataSet, predictionReady, taskAlive)
    }

    /** `setup`: the model, L fresh zeroed samples, both event bits cleared and the inference task started. */
    constructor ()
      ensures Valid() && Abs() == Boot && lastPoll == 0
      ensures fresh(window) && forall b :: b in boxes ==> fresh(b)
      ensures forall k :: 0 <= k < SEQUENCE_LENGTH ==> window[0, k].value == ZeroData
      ensures pir.State() == Pir.Initial && button.State() == ButtonControl.Initial
    {
      var m := new Inference();
      var w, made := AllocateWindow();
      model := m;
      window := w;
      boxes := made[..SEQUENCE_LENGTH];
      assert forall b :: b in made[..SEQUENCE_LENGTH] ==> b in made;
      pir := new PirSensor();
      button := new Button();
      lastPoll := 0;
      calibrationCounter := 0;
      inferenceMode := false;
      dataSet := false;
      predictionReady := false;
      taskAlive := true;
    }

    /** Slot k holds one of the objects of setup. */
    lemma SlotIsBox(k: nat)
      requires Valid() && k < SEQUENCE_LENGTH
      ensures window[0, k] in boxes
    {
      assert Row(window, 0)[k] == window[0, k];
      assert window[0, k] in multiset(Row(window, 0));
    }

    /**
     * The effect of a round on the data, `ds`, `counts` and `tags` being the window and label rows before it:
     * the input tensors hold their model input, and a successful invocation has stored its prediction,
     * rotated the window and shifted the prediction into the labels.
     */
    ghost predicate Ran(outcome: Invocation, ds: seq<Data>, counts: seq<Float>, tags: seq<int32>)
      requires Valid() && WellFormed(outcome, BATCH_SIZE) && |ds| == SEQUENCE_LENGTH
      requires |counts| == SEQUENCE_LENGTH && |tags| == SEQUENCE_LENGTH
      reads window, set k | 0 <= k < window.Length1 :: window[0, k]
      reads model.input0, model.input1, model.input2, model.prediction, model.humanCounts, model.ventilationTags
    {
      && model.input0[..] == ModelInput(ds) && model.input1[..] == counts && model.input2[..] == tags
      && (outcome.Invoked? ==>
        && model.prediction[0] == PredictionOf(outcome.output0[0], outcome.output1[0])
        && Samples(window, 0) == RotateLeft(ds)
        && Row(model.humanCounts, 0) == ShiftIn(counts, model.prediction[0].humanCount)
        && Row(model.ventilationTags, 0) == ShiftIn(tags, model.prediction[0].ventilationTag))
    }

    /**
     * The polling part of one `loop` tick at time `now`, `reading` being the sample the sensors give
     * and `finish` the clock when they are done. Before the poll is due nothing happens. Otherwise the
     * PIR accumulator is read and cleared, the poll time recorded, and the sample is sent raw, filed
     * into the calibration slot, let into the newest slot in exchange for the latest prediction, or
     * dropped, as Classify says.
     */
    method Poll(now: uint32, finish: uint32, reading: Data) returns (sent: Sent)
      requires Valid()
      modifies this, boxes, pir, model.humanCounts, model.ventilationTags
      ensures Valid()
      ensures !PollDue(old(lastPoll), now) ==>
        sent == NothingSent && Abs() == old(Abs()) && lastPoll == old(lastPoll) && pir.State() == old(pir.State())
        && unchanged(boxes, model.humanCounts, model.ventilationTags)
      ensures PollDue(old(lastPoll), now) ==>
        lastPoll == finish && Abs() == AfterSample(old(Abs())) && pir.State() == Take(old(pir.State())).next
        && sent == Response(Classify(old(Abs())), reading, model.prediction[0])
        && Samples(window, 0) == Filed(old(Samples(window, 0)), Classify(old(Abs())), reading)
        && (Classify(old(Abs())) == Calibrate(SEQUENCE_LENGTH - 1) ==>
              Row(model.humanCounts, 0) == seq(SEQUENCE_LENGTH, _ => 0) && Row(model.ventilationTags, 0) == seq(SEQUENCE_LENGTH, _ => 0))
        && (Classify(old(Abs())) != Calibrate(SEQUENCE_LENGTH - 1) ==> unchanged(model.humanCounts, model.ventilationTags))
    {
      sent := NothingSent;
      if !PollDue(lastPoll, now) {
        return;
      }
      // pir_uptime is this value in seconds; the sensors' values arrive in `reading`
      var uptime := pir.Read();
      lastPoll := finish;
      sent := Dispatch(reading);
    }

    /** The branch of a due poll that sends, files or drops `reading`. */
    method Dispatch(reading: Data) returns (sent: Sent)
      requires Valid()
      modifies this, boxes, model.humanCounts, model.ventilationTags
      ensures Valid() && lastPoll == old(lastPoll)
      ensures Abs() == AfterSample(old(Abs()))
      ensures sent == Response(Classify(old(Abs())), reading, model.prediction[0])
      ensures Samples(window, 0) == Filed(old(Samples(window, 0)), Classify(old(Abs())), reading)
      ensures Classify(old(Abs())) == Calibrate(SEQUENCE_LENGTH - 1) ==>
        Row(model.humanCounts, 0) == seq(SEQUENCE_LENGTH, _ => 0) && Row(model.ventilationTags, 0) == seq(SEQUENCE_LENGTH, _ => 0)
      ensures Classify(old(Abs())) != Calibrate(SEQUENCE_LENGTH - 1) ==> unchanged(model.humanCounts, model.ventilationTags)
    {
      sent := NothingSent;
      if !inferenceMode {
        sent := DataSent(reading);
      } else if calibrationCounter < SEQUENCE_LENGTH {
        FileCalibration(reading);
      } else if predictionReady {
        sent := AdmitSample(reading);
      }
    }

    /** Files the sample into the calibration slot; the last slot installs zero labels and raises DATA_SET. */
    method FileCalibration(reading: Data)
      requires Valid() && inferenceMode && calibrationCounter < SEQUENCE_LENGTH
      modifies this, boxes, model.humanCounts, model.ventilationTags
      ensures Valid() && lastPoll == old(lastPoll)
      ensures Abs() == AfterSample(old(Abs()))
      ensures Samples(window, 0) == old(Samples(window, 0))[old(calibrationCounter) := reading]
      ensures old(calibrationCounter) == SEQUENCE_LENGTH - 1 ==>
        Row(model.humanCounts, 0) == seq(SEQUENCE_LENGTH, _ => 0) && Row(model.ventilationTags, 0) == seq(SEQUENCE_LENGTH, _ => 0)
      ensures old(calibrationCounter) != SEQUENCE_LENGTH - 1 ==> unchanged(model.humanCounts, model.ventilationTags)
    {
      SlotIsBox(calibrationCounter);
      Store(calibrationCounter, reading);
      if calibrationCounter == SEQUENCE_LENGTH - 1 {
        model.SetDefaultLabels(0, 0);
        dataSet := true;
      }
      calibrationCounter := calibrationCounter + 1;
    }

    /** Consumes PREDICTION_READY, puts the sample into the newest slot, raises DATA_SET and returns the prediction to send. */
    method AdmitSample(reading: Data) returns (sent: Sent)
      requires Valid() && inferenceMode && calibrationCounter >= SEQUENCE_LENGTH && predictionReady
      modifies this, boxes
      ensures Valid() && lastPoll == old(lastPoll)
      ensures Abs() == AfterSample(old(Abs()))
      ensures Samples(window, 0) == old(Samples(window, 0))[SEQUENCE_LENGTH - 1 := reading]
      ensures sent == PredictionSent(model.prediction[0])
    {
      predictionReady := false;
      SlotIsBox(SEQUENCE_LENGTH - 1);
      Store(SEQUENCE_LENGTH - 1, reading);
      var pred := model.GetRecentPrediction();
      dataSet := true;
      sent := PredictionSent(pred);
    }

    /** `*(data_pointer_array[0][k]) = data`: overwrites the sample slot k points to, and no other. */
    method Store(k: nat, reading: Data)
      requires Valid() && k < SEQUENCE_LENGTH
      modifies window[0, k]
      ensures Samples(window, 0) == old(Samples(window, 0))[k := reading]
    {
      window[0, k].value := reading;
      assert Distinct(Row(window, 0));
      forall k' | 0 <= k' < SEQUENCE_LENGTH && k' != k
        ensures window[0, k'] != window[0, k]
      {
        assert Row(window, 0)[k'] == window[0, k'] && Row(window, 0)[k] == window[0, k];
      }
    }

    /**
     * One round of `run_model`: when DATA_SET is up and the task runs, the bit is consumed, the window is
     * preprocessed into the input tensors, and on a successful invocation the prediction is taken, the
     * window and labels shift, and PREDICTION_READY is raised; on a failure the task stops. After the button
     * has put the chip into deep sleep no task runs.
     */
    method RunModel(outcome: Invocation)
      requires Valid() && WellFormed(outcome, BATCH_SIZE)
      modifies this, window, model.sensorData, model.input0, model.input1, model.input2
      modifies model.prediction, model.humanCounts, model.ventilationTags
      ensures Valid() && lastPoll == old(lastPoll)
      ensures Abs() == if old(button.asleep) then old(Abs()) else AfterRun(old(Abs()), outcome.Invoked?)
      ensures !old(dataSet && taskAlive && !button.asleep) ==>
        unchanged(window, model.sensorData, model.input0, model.input1, model.input2)
        && unchanged(model.prediction, model.humanCounts, model.ventilationTags)
      ensures old(dataSet && taskAlive && !button.asleep) ==>
        model.input0[..] == ModelInput(old(Samples(window, 0)))
        && model.input1[..] == old(Row(model.humanCounts, 0)) && model.input2[..] == old(Row(model.ventilationTags, 0))
      ensures old(dataSet && taskAlive && !button.asleep) && outcome.Invoked? ==>
        model.prediction[0] == PredictionOf(outcome.output0[0], outcome.output1[0])
        && Samples(window, 0) == RotateLeft(old(Samples(window, 0)))
        && Row(model.humanCounts, 0) == ShiftIn(old(Row(model.humanCounts, 0)), model.prediction[0].humanCount)
        && Row(model.ventilationTags, 0) == ShiftIn(old(Row(model.ventilationTags, 0)), model.prediction[0].ventilationTag)
      ensures old(dataSet && taskAlive && !button.asleep) && outcome.InvokeFailed? ==>
        unchanged(window, model.humanCounts, model.ventilationTags) && model.prediction[..] == old(model.prediction[..])
    {
      if dataSet && taskAlive && !button.asleep {
        Serve(outcome, Samples(window, 0), Row(model.humanCounts, 0), Row(model.ventilationTags, 0));
      }
    }

    /**
     * The body of a round once DATA_SET has been taken: the bit is cleared, then the round runs. The window
     * and the label rows on entry are `ds`, `counts` and `tags`.
     */
    method Serve(outcome: Invocation, ghost ds: seq<Data>, ghost counts: seq<Float>, ghost tags: seq<int32>)
      requires Valid() && WellFormed(outcome, BATCH_SIZE) && dataSet && taskAlive
      requires ds == Samples(window, 0) && counts == Row(model.humanCounts, 0) && tags == Row(model.ventilationTags, 0)
      modifies this, window, model.sensorData, model.input0, model.input1, model.input2
      modifies model.prediction, model.humanCounts, model.ventilationTags
      ensures Valid() && lastPoll == old(lastPoll)
      ensures Abs() == AfterRun(old(Abs()), outcome.Invoked?)
      ensures Ran(outcome, ds, counts, tags)
      ensures outcome.InvokeFailed? ==>
        unchanged(window, model.humanCounts, model.ventilationTags) && model.prediction[..] == old(model.prediction[..])
    {
      dataSet := false;
      assert Samples(window, 0) == ds && Row(model.humanCounts, 0) == counts && Row(model.ventilationTags, 0) == tags;
      var ok := Round(outcome, ds, counts, tags);
      Conclude(ok);
    }

    /** The end of a round: PREDICTION_READY is raised after a successful invocation, the task stops after a failed one. */
    method Conclude(ok: bool)
      modifies this
      ensures lastPoll == old(lastPoll)
      ensures Abs() == if ok then old(Abs()).(predictionReady := true) else old(Abs()).(taskAlive := false)
    {
      if ok {
        predictionReady := true;
      } else {
        taskAlive := false;
      }
    }

    /** The data side of a round: preprocessing, invocation, and on success the shift. */
    method Round(outcome: Invocation, ghost ds: seq<Data>, ghost counts: seq<Float>, ghost tags: seq<int32>)
      returns (ok: bool)
      requires Valid() && WellFormed(outcome, BATCH_SIZE)
      requires ds == Samples(window, 0) && counts == Row(model.humanCounts, 0) && tags == Row(model.ventilationTags, 0)
      modifies window, model.sensorData, model.input0, model.input1, model.input2
      modifies model.prediction, model.humanCounts, model.ventilationTags
      ensures Valid() && (ok <==> outcome.Invoked?)
      ensures Ran(outcome, ds, counts, tags)
      ensures !ok ==>
        unchanged(window, model.humanCounts, model.ventilationTags) && model.prediction[..] == old(model.prediction[..])
    {
      PrepareInputs();
      assert Samples(window, 0) == ds;
      ok := model.Predict(outcome);
      assert Samples(window, 0) == ds;
      if ok {
        ShiftWindow();
      }
    }

    /** SetSequences, ComputeSensorDeltas, ScaleData and SetInputBuffers in turn: the input tensors become the window's model input and its labels. */
    method PrepareInputs()
      requires Valid()
      modifies model.sensorData, model.input0, model.input1, model.input2
      ensures model.input0[..] == ModelInput(old(Samples(window, 0)))
      ensures model.input1[..] == Row(model.humanCounts, 0) && model.input2[..] == Row(model.ventilationTags, 0)
    {
      ghost var ds := Samples(window, 0);
      model.SetSequences(window);
      assert Samples(window, 0) == ds;
      assert Cells(model.sensorData, 0) == SensorMatrix(ds);
      model.ComputeSensorDeltas();
      assert Cells(model.sensorData, 0) == Deltas(SensorMatrix(ds));
      model.ScaleData();
      assert Cells(model.sensorData, 0) == Scaled(Deltas(SensorMatrix(ds)));
      ghost var m := Cells(model.sensorData, 0);
      model.SetInputBuffers();
      assert Cells(model.sensorData, 0) == m;
      assert model.input0[0 * WINDOW_CELLS..1 * WINDOW_CELLS] == Flatten(Cells(model.sensorData, 0));
      assert model.input0[..] == model.input0[0 * WINDOW_CELLS..1 * WINDOW_CELLS];
      assert model.input1[..] == model.input1[0 * SEQUENCE_LENGTH..1 * SEQUENCE_LENGTH];
      assert model.input2[..] == model.input2[0 * SEQUENCE_LENGTH..1 * SEQUENCE_LENGTH];
    }

    /** ShiftSequences: the window rotates by one sample and the labels take in the new prediction. */
    method ShiftWindow()
      requires Valid()
      modifies window, model.humanCounts, model.ventilationTags
      ensures Valid()
      ensures Samples(window, 0) == RotateLeft(old(Samples(window, 0)))
      ensures Row(model.humanCounts, 0) == ShiftIn(old(Row(model.humanCounts, 0)), model.prediction[0].humanCount)
      ensures Row(model.ventilationTags, 0) == ShiftIn(old(Row(model.ventilationTags, 0)), model.prediction[0].ventilationTag)
    {
      ghost var ds := Samples(window, 0);
      ghost var before := Row(window, 0);
      model.ShiftSequences(window);
      RotateLeftDistinct(before);
      forall k | 0 <= k < SEQUENCE_LENGTH
        ensures Samples(window, 0)[k] == RotateLeft(ds)[k]
      {
        RotateLeftNext(before, k);
        RotateLeftNext(ds, k);
      }
    }

    /**
     * One whole `loop` tick: the poll at `now` (the sensors done at `finish`), then the PIR update and the
     * button handling, each at the clock value its own `millis()` call reads, with the pin levels they read.
     * A due poll sends, files and stores as Poll says; the button may then toggle the mode. Once the button
     * has put the chip into deep sleep, `loop` never runs again: a tick then sends and changes nothing.
     */
    method Loop(now: uint32, finish: uint32, reading: Data, pirNow: uint32, pirHigh: bool, buttonNow: uint32, buttonHigh: bool)
      returns (sent: Sent)
      requires Valid()
      modifies this, boxes, pir, button, model.humanCounts, model.ventilationTags
      ensures Valid()
      ensures old(button.asleep) ==>
        sent == NothingSent && unchanged(this, pir, button) && unchanged(boxes, model.humanCounts, model.ventilationTags)
      ensures !old(button.asleep) ==>
        var s := if PollDue(old(lastPoll), now) then AfterSample(old(Abs())) else old(Abs());
        var c := Ctrl(old(button.State()), CLICK_TIME, buttonHigh, buttonNow, s.inferenceMode, s.calibrationCounter);
        Abs() == s.(inferenceMode := c.flag, calibrationCounter := c.counter) && button.State() == c.state
      ensures !old(button.asleep) ==>
        pir.State() == Step(if PollDue(old(lastPoll), now) then Take(old(pir.State())).next else old(pir.State()), pirNow, pirHigh)
      ensures !old(button.asleep) && !PollDue(old(lastPoll), now) ==>
        sent == NothingSent && lastPoll == old(lastPoll) && unchanged(boxes, model.humanCounts, model.ventilationTags)
      ensures !old(button.asleep) && PollDue(old(lastPoll), now) ==>
        lastPoll == finish
        && sent == Response(Classify(old(Abs())), reading, model.prediction[0])
        && Samples(window, 0) == Filed(old(Samples(window, 0)), Classify(old(Abs())), reading)
        && (Classify(old(Abs())) == Calibrate(SEQUENCE_LENGTH - 1) ==>
              Row(model.humanCounts, 0) == seq(SEQUENCE_LENGTH, _ => 0) && Row(model.ventilationTags, 0) == seq(SEQUENCE_LENGTH, _ => 0))
        && (Classify(old(Abs())) != Calibrate(SEQUENCE_LENGTH - 1) ==> unchanged(model.humanCounts, model.ventilationTags))
    {
      if button.asleep {
        sent := NothingSent;
        return;
      }
      sent := Poll(now, finish, reading);
      Tend(pirNow, pirHigh, buttonNow, buttonHigh);
    }

    /** The end of a tick, after the poll: `_PIR.update()` and `button.buttonCtrl(...)` on the mode and counter. */
    method Tend(pirNow: uint32, pirHigh: bool, buttonNow: uint32, buttonHigh: bool)
      modifies this, pir, button
      ensures lastPoll == old(lastPoll)
      ensures var c := Ctrl(old(button.State()), CLICK_TIME, buttonHigh, buttonNow, old(inferenceMode), old(calibrationCounter));
        Abs() == old(Abs()).(inferenceMode := c.flag, calibrationCounter := c.counter) && button.State() == c.state
      ensures pir.State() == Step(old(pir.State()), pirNow, pirHigh)
    {
      pir.Update(pirNow, pirHigh);
      inferenceMode, calibrationCounter := button.ButtonCtrl(CLICK_TIME, buttonHigh, buttonNow, inferenceMode, calibrationCounter);
    }
  }
}
