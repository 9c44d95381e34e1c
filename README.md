# ESP32 room-occupancy firmware: a verified model

This project models the embedded core of an ESP32 room-occupancy monitor. Every ten seconds the board
samples six sensors into a packed `Data` record. In raw mode it sends the record to a CoAP server. In
inference mode it keeps a sliding window of the last 20 samples and lets a second task run a small
model over it. Each round estimates a head count and a ventilation tag, which are fed back as labels
and sent to the server.

The model has three layers:

- **The inference pipeline** (`Preprocess`, `Infer`). The window of 20 `Data` pointers rotates in
  place. The sensor matrix is delta-referenced against its oldest row and min-max scaled with the fixed
  tables of `infer.h`, then flattened row-major into the input tensors. The two label rows shift in
  each new prediction. `Inference` is a class over `array2`/`array3` buffers. Its methods are proved
  against value-level functions (`SensorMatrix`, `Deltas`, `Scaled`, `Flatten`, `RotateLeft`,
  `ShiftIn`), and the properties are proved about those functions.
- **The sampling loop and the inference task** (`Main`). `loop()` and one iteration of `run_model()`
  are each one atomic step on the shared state. That state is the mode, the calibration counter, the
  `DATA_SET` and `PREDICTION_READY` event bits, whether the task still runs, and the window. `Shared`,
  `AfterSample` and `AfterRun` describe the handshake as values. The `Device` class holds the real
  window, model and sensors, and each of its methods is proved to follow those steps.
- **The drivers**:
  - the BMP280 integer compensation (datasheet section 3.11.3), the 20-bit ADC assembly, the register
    bit-field updaters and the configuration presets (`Bmp280`);
  - the SMBus packet error check CRC-8 of the MLX90614 (section 7.4 of SMBus 2.0) and its frames
    (`Mlx90614`);
  - the DHT pulse decoder, checksum and rate limit (`Dht`);
  - the PIR uptime accumulator (`Pir`);
  - the double-click mode toggle (`ButtonControl`);
  - the packed little-endian payloads the server unpacks with `<HHfffffff` and `<fi`
    (`Communication`).

Where the C++ uses `float`, a record field is its 32-bit IEEE pattern (`Float32.Float`). The pipeline
reads it as a real number through `Float32.Value`. `roundf` is modelled on bit patterns and proved to
round half away from zero. C integer widths are explicit where they matter: `uint32` clocks wrap
through `Wrap32`, and the `int16`/`int32` casts are two's-complement readings. BATCH_SIZE (1) is kept
as the loop bound of every `Inference` method, so the buffers keep their batch dimension.

The files are `words.dfy`, `float32.dfy`, `dimensions.dfy`, `communication.dfy`, `preprocess.dfy`,
`infer.dfy`, `main.dfy`, `bmp280.dfy`, `mlx90614.dfy`, `dht.dfy`, `pir.dfy` and `button.dfy`. Each
holds one module of the same name.

## Model

| member | source | states |
|---|---|---|
| Dimensions.Span | ESP32Inference/lib/Inference/infer.h:31-32 | every channel's max_deltas entry exceeds its min_deltas entry, so the scaling denominator is positive |
| Dimensions.PirRange | ESP32Inference/lib/Inference/infer.h:16 | the PIR channel is scaled over [0, MAX_PIR_UPTIME = 10.5] |
| Communication.Le16 | ESP32Inference/lib/communication/communication.h:8-9 | the two-byte little-endian image of a uint16_t reads back as the value |
| Communication.Le32 | ESP32Inference/lib/communication/communication.h:10-16 | the four-byte little-endian image of a 32-bit field reads back as the value |
| Communication.Fields | ESP32Inference/lib/communication/communication.h:6-16 | a sample has nine fields, co2 … pir_uptime, in declaration order |
| Communication.DataImage | ESP32Inference/lib/communication/communication.h:28 | the packed `Data` image is 32 bytes |
| Communication.UnpackData | CoapServer/server.py:48 | the receiver's `<HHfffffff` unpacking succeeds exactly when at least 32 bytes arrive |
| Communication.DataIsPacked | ESP32Inference/lib/communication/communication.h:6-28 | the fields lie back to back from offset 0 (0, 2, 4, 8, …, 28) with no padding and fill 32 bytes |
| Communication.DataFieldAt | ESP32Inference/lib/communication/communication.h:6-28 | field k sits little-endian at its offset: uint16_t fields in 2 bytes, float fields in 4 |
| Communication.DataRoundTrip | ESP32Inference/lib/communication/communication.cpp:40-43 | the server recovers exactly the sample the device sent |
| Communication.PredictionImage | ESP32Inference/lib/communication/communication.h:30-33 | the packed `Prediction` image is 8 bytes |
| Communication.UnpackPrediction | CoapServer/server.py:78 | the receiver's `<fi` unpacking succeeds exactly when at least 8 bytes arrive |
| Communication.PredictionRoundTrip | ESP32Inference/lib/communication/communication.cpp:45-48 | the server recovers exactly the prediction sent, negative tags included |
| Float32.RoundHalfAway | ESP32Inference/lib/Inference/infer.cpp:167-168 | the result is within 1/2 of x, and a tie goes away from zero |
| Float32.RoundHalfAwayOfInteger | ESP32Inference/lib/Inference/infer.cpp:167-168 | rounding an integer gives that integer |
| Float32.RoundF | ESP32Inference/lib/Inference/infer.cpp:167 | `roundf` on a finite pattern gives a finite pattern denoting the rounded value; infinities and NaNs pass through |
| Float32.FromInteger | ESP32Inference/lib/Inference/infer.cpp:167 | the pattern built for an integer of magnitude at most 2^23 is finite, has the requested sign and denotes that integer |
| Float32.IntegralValue | ESP32Inference/lib/Inference/infer.cpp:167 | a finite pattern of magnitude at least 2^23 is already an integer, so `roundf` keeps it |
| Float32.RoundToInt32 | ESP32Inference/lib/Inference/infer.cpp:168 | `(int32_t)roundf(w)` is the rounded value, when it fits |
| Preprocess.SensorRow | ESP32Inference/lib/Inference/infer.cpp:84-92 | a sample gives the nine channels of a window row |
| Preprocess.SensorRowFollowsImage | ESP32Inference/lib/Inference/infer.cpp:84-92 | channel j of a row is field j of the packed record, in the fixed order co2 … pir_uptime |
| Preprocess.SensorMatrix | ESP32Inference/lib/Inference/infer.cpp:79-95 | row k of the sensor matrix is sample k's row |
| Preprocess.RotateLeft | ESP32Inference/lib/Inference/infer.cpp:108-119 | the rotated window has the same length |
| Preprocess.RotateLeftNext | ESP32Inference/lib/Inference/infer.cpp:112-119 | slot k takes old slot k+1, and the last slot takes old slot 0 |
| Preprocess.RotateLeftPermutes | ESP32Inference/lib/Inference/infer.cpp:108-119 | rotation is a permutation: no pointer is lost or duplicated |
| Preprocess.RotateLeftDistinct | ESP32Inference/lib/Inference/infer.cpp:108-119 | a window of distinct pointers stays distinct |
| Preprocess.RotationsAt | ESP32Inference/lib/Inference/infer.cpp:108-119 | after n shifts slot k holds what slot (k+n) mod L held |
| Preprocess.FullTurn | ESP32Inference/lib/Inference/infer.cpp:108-119 | L shifts bring the window back to its first order |
| Preprocess.ShiftIn | ESP32Inference/lib/Inference/infer.cpp:113-121 | a shifted label row keeps its length, takes old k+1 at k, and holds the new label last |
| Preprocess.RotateThenOverwrite | ESP32Inference/src/main.cpp:148 | rotating the window and overwriting its newest slot is one step of a sliding window |
| Preprocess.ShiftAll | ESP32Inference/lib/Inference/infer.cpp:113-121 | definition: predictions shifted into a label row one after another, keeping its length; its meaning is stated by Preprocess.ShiftAllKeepsLatest and Preprocess.LabelsAreOutputs |
| Preprocess.ShiftAllKeepsLatest | ESP32Inference/lib/Inference/infer.cpp:113-121 | a label row always holds the last L entries of its history |
| Preprocess.LabelsAreOutputs | ESP32Inference/lib/Inference/infer.cpp:113-121 | once L predictions have been fed back, the warm-up labels are gone |
| Preprocess.Deltas | ESP32Inference/lib/Inference/infer.cpp:145-155 | delta referencing keeps the window's shape |
| Preprocess.DeltasReference | ESP32Inference/lib/Inference/infer.cpp:145-155 | row 0 becomes zero on every referenced channel; the PIR channel passes through |
| Preprocess.DeltasIgnoreOffset | ESP32Inference/lib/Inference/infer.cpp:145-155 | offsetting the referenced channels by a constant does not change the deltas |
| Preprocess.Scale | ESP32Inference/lib/Inference/infer.cpp:137-143 | definition: min-max scaling of channel j without clamping; its meaning is stated by Preprocess.ScaleRoundTrip, Preprocess.ScaleRange and Preprocess.ScaleMonotone |
| Preprocess.ScaleRoundTrip | ESP32Inference/lib/Inference/infer.cpp:137-143 | min-max scaling is a bijection on the reals: the inverse map undoes it both ways |
| Preprocess.ScaleRange | ESP32Inference/lib/Inference/infer.cpp:137-143 | min maps to 0 and max to 1; a value lands in [0, 1] exactly when it lies in its range (no clamping) |
| Preprocess.ScaleMonotone | ESP32Inference/lib/Inference/infer.cpp:137-143 | scaling keeps the order of values |
| Preprocess.Scaled | ESP32Inference/lib/Inference/infer.cpp:137-143 | scaling keeps the window's shape |
| Preprocess.SteadyWindow | ESP32Inference/lib/Inference/infer.cpp:137-155 | a window that does not change scales to -min/span on each referenced channel, and to uptime/10.5 on PIR |
| Preprocess.SensorCell | ESP32Inference/lib/Inference/infer.cpp:131 | every offset in [0, B·L·S) is the offset of some buffer cell |
| Preprocess.SensorOffsetBijective | ESP32Inference/lib/Inference/infer.cpp:131 | i·L·S + k·S + j stays inside [0, B·L·S) and determines (i, k, j): no collisions |
| Preprocess.LabelOffsetBijective | ESP32Inference/lib/Inference/infer.cpp:132-133 | i·L + k covers [0, B·L) exactly once |
| Preprocess.Flatten | ESP32Inference/lib/Inference/infer.cpp:130-131 | a flattened window has L·S cells |
| Preprocess.FlattenAt | ESP32Inference/lib/Inference/infer.cpp:130-131 | offset k·S + j of the flattened window is row k, channel j |
| Preprocess.ModelInput | ESP32Inference/src/main.cpp:168-172 | the model input of a window has L·S cells |
| Preprocess.ModelInputAt | ESP32Inference/src/main.cpp:168-172 | input cell k·S + j is sample k's channel j, referenced against sample 0 (except PIR) and scaled |
| Preprocess.PredictionOf | ESP32Inference/lib/Inference/infer.cpp:165-171 | the count is roundf of output 1 and the tag is the rounded output 0 |
| Preprocess.RoundingExamples | ESP32Inference/lib/Inference/infer.cpp:167-168 | 3.7 gives 4, 0.4 gives 0, 2.5 gives 3 and -2.5 gives -3 |
| Infer.Row | ESP32Inference/lib/Inference/infer.h:35-36 | a label row lists its L slots |
| Infer.Samples | ESP32Inference/lib/Inference/infer.h:19 | the window lists the samples its L pointers refer to, oldest first |
| Infer.Inference.constructor | ESP32Inference/lib/Inference/infer.h:34-37 | buffers of shapes [B][L][S], [B][L], [B][L] and [B], zeroed; predictions start at (0, 1) |
| Infer.Inference.SetSequences | ESP32Inference/lib/Inference/infer.cpp:79-95 | each batch entry of the sensor buffer becomes the sensor matrix of the samples its window points to |
| Infer.Inference.SetRow | ESP32Inference/lib/Inference/infer.cpp:84-92 | slot (i, k) takes the nine fields of the sample; no other slot changes |
| Infer.Inference.SetShiftedOutputs | ESP32Inference/lib/Inference/infer.cpp:97-105 | each label row takes the first L entries of the given rows |
| Infer.Inference.ShiftSequences | ESP32Inference/lib/Inference/infer.cpp:108-123 | each window row is rotated left, as a permutation; each label row shifts in the current prediction; sensor buffer and samples are outside its frame |
| Infer.Inference.ShiftRow | ESP32Inference/lib/Inference/infer.cpp:111-121 | row i rotates and shifts in its prediction; the other rows keep their contents |
| Infer.Inference.ComputeSensorDeltas | ESP32Inference/lib/Inference/infer.cpp:145-155 | each batch entry becomes the deltas of its old matrix against its old row 0 |
| Infer.Inference.ScaleData | ESP32Inference/lib/Inference/infer.cpp:137-143 | each batch entry becomes the scaled old matrix |
| Infer.Inference.SetInputBuffers | ESP32Inference/lib/Inference/infer.cpp:125-135 | entry i fills its block of tensor 0 with its flattened matrix, and its blocks of tensors 1 and 2 with its label rows |
| Infer.Inference.Predict | ESP32Inference/lib/Inference/infer.cpp:157-173 | false exactly on an engine failure, leaving the predictions unchanged; otherwise each prediction is built from the rounded outputs |
| Infer.Inference.SetDefaultLabels | ESP32Inference/lib/Inference/infer.cpp:234-242 | every label slot takes the given pair |
| Infer.Inference.GetRecentPrediction | ESP32Inference/lib/Inference/infer.cpp:244-247 | the prediction of the last batch entry |
| Infer.FlatBlock | ESP32Inference/lib/Inference/infer.cpp:130-131 | a tensor block filled cell by cell at the row-major offsets is the flattened window |
| Infer.LabelBlock | ESP32Inference/lib/Inference/infer.cpp:132-133 | a label block filled slot by slot is the label row |
| Main.PollDueAsWritten | ESP32Inference/src/main.cpp:100 | definition: the gate as written, the deadline last_poll + 10000 computed in uint32_t and compared with now; its meaning is stated by Main.PollGatesAgree and Main.PollGateOpensEarly |
| Main.PollDue | ESP32Inference/src/main.cpp:100 | definition: the gate as intended, at least 10000 ms since the last poll on the wrapping clock; its meaning is stated by Main.PollGatesAgree and Main.PollDueAcrossWrap |
| Main.PollGatesAgree | ESP32Inference/src/main.cpp:100 | away from the clock's wrap, the written gate and the intended gate agree and mean now - last_poll >= 10000 |
| Main.PollGateOpensEarly | ESP32Inference/src/main.cpp:100 | the written gate opens 1 ms after a poll at 0xFFFFF000; the intended gate does not |
| Main.PollDueAcrossWrap | ESP32Inference/src/main.cpp:100 | the intended gate opens exactly 10000 ms after the last poll, across the wrap |
| Main.Classify | ESP32Inference/src/main.cpp:127-154 | raw send iff not in inference mode; calibration iff the counter is below L, into slot counter; admission iff calibrated and PREDICTION_READY |
| Main.WrittenSlot | ESP32Inference/src/main.cpp:133-148 | calibration writes slot counter, admission writes slot L-1, the other branches write nothing |
| Main.Response | ESP32Inference/src/main.cpp:127-152 | raw mode sends the sample; admission sends the latest prediction; nothing else is sent |
| Main.Filed | ESP32Inference/src/main.cpp:133-148 | the window after a poll differs from the old one only in the written slot, which holds the sample |
| Main.AfterSample | ESP32Inference/src/main.cpp:127-154 | definition: the shared state after a poll, by Classify's branch; its meaning is stated by Main.SampleKeepsHandshake, Main.CalibrationFills, Main.CounterStaysAtLength and Main.SteadyCycle |
| Main.AfterRun | ESP32Inference/src/main.cpp:163-182 | definition: the shared state after one round of run_model, given Predict's outcome; its meaning is stated by Main.RunKeepsHandshake, Main.SteadyCycle and Main.AbortedIsSilent |
| Main.Handshake | ESP32Inference/src/main.cpp:127-182 | definition: the invariant of the DATA_SET / PREDICTION_READY handshake; its meaning is stated by Main.BootHandshake, Main.SampleKeepsHandshake and Main.RunKeepsHandshake, and Main.DeadTaskRecalibrates shows the toggle can break it |
| Main.BootHandshake | ESP32Inference/src/main.cpp:64 | setup starts in a state that satisfies Handshake, the invariant that polls and rounds keep but the inference toggle does not |
| Main.SampleKeepsHandshake | ESP32Inference/src/main.cpp:127-154 | from a state satisfying Handshake (counter at most L, the two bits never both set), a poll leads to such a state again; the inference toggle is the exception (see Main.FailedRoundAfterStaleRestart) |
| Main.RunKeepsHandshake | ESP32Inference/src/main.cpp:163-182 | from a state satisfying Handshake, a round of the inference task leads to such a state again; the inference toggle does not keep it |
| Main.CalibrationFills | ESP32Inference/src/main.cpp:131-141 | from counter 0 the k-th poll fills slot k; the counter reaches exactly L; DATA_SET rises once, on slot L-1 |
| Main.CounterStaysAtLength | ESP32Inference/src/main.cpp:131-142 | after calibration the counter stays at L |
| Main.PendingWindowIsKept | ESP32Inference/src/main.cpp:142-154 | while DATA_SET is up no poll writes the window |
| Main.SteadyCycle | ESP32Inference/src/main.cpp:144-180 | PREDICTION_READY admits one sample and raises DATA_SET; later polls drop samples until a successful round restores the state |
| Main.AbortedIsSilent | ESP32Inference/src/main.cpp:173-177 | from a state satisfying Handshake, after a failed Predict polls in inference mode neither write nor send, and no round runs; after the inference toggle this no longer holds (Main.FailedRoundAfterStaleRestart) |
| Main.Toggle | ESP32Inference/lib/button/button.cpp:76-90 | the double click flips the mode, restarts the counter only when inference turns on, and leaves both event bits and the task alone |
| Main.ToggleIsCtrl | ESP32Inference/lib/button/button.cpp:51-95 | a release completing a double click in buttonCtrl changes the mode and counter exactly as Toggle does |
| Main.FailedRoundAfterStaleRestart | ESP32Inference/src/main.cpp:173-177 | after a toggle-on with a stale PREDICTION_READY and a full recalibration, a failed Predict stops the task but the next poll still overwrites slot L-1 and sends a prediction; later polls are dropped |
| Main.DeadTaskRecalibrates | ESP32Inference/lib/button/button.cpp:78-83 | toggling inference off and on after the task has stopped breaks Handshake, restarts calibration at slot 0 and raises DATA_SET that no task takes |
| Main.RestartKeepsStaleBit | ESP32Inference/lib/button/button.cpp:78-83 | re-enabling inference resets only the counter; a leftover PREDICTION_READY survives recalibration, which then ends with both bits set |
| Main.AllocateWindow | ESP32Inference/src/main.cpp:83-85 | every window slot points to its own fresh, zeroed record |
| Main.Device.constructor | ESP32Inference/src/main.cpp:56-95 | raw mode, counter 0, both bits clear, task started, last_poll 0, and L fresh zeroed records in the window |
| Main.Device.SlotIsBox | ESP32Inference/src/main.cpp:83-85 | every slot points to one of the records allocated at setup |
| Main.Device.Poll | ESP32Inference/src/main.cpp:98-156 | before the gate nothing changes; otherwise the PIR accumulator is taken, last_poll is reset, and the state, window, labels and message follow Classify |
| Main.Device.Dispatch | ESP32Inference/src/main.cpp:127-155 | the branch of a due poll moves the state by AfterSample, writes the window by Filed and sends Response |
| Main.Device.FileCalibration | ESP32Inference/src/main.cpp:131-141 | stores the sample in slot counter and counts up; on slot L-1 it zeroes the labels and raises DATA_SET |
| Main.Device.AdmitSample | ESP32Inference/src/main.cpp:144-153 | clears PREDICTION_READY, stores the sample in slot L-1, raises DATA_SET and returns the latest prediction |
| Main.Device.Store | ESP32Inference/src/main.cpp:133 | writing through slot k changes sample k and no other |
| Main.Device.RunModel | ESP32Inference/src/main.cpp:163-182 | after the button's deep sleep (button.cpp:70-75) no round runs and nothing changes; without DATA_SET nothing changes; otherwise the inputs are the window's model input and labels; success rotates the window, shifts the labels and raises PREDICTION_READY; failure stops the task and keeps window and labels |
| Main.Device.Serve | ESP32Inference/src/main.cpp:167-180 | a round consumes DATA_SET and ends in AfterRun's state, with the effect Ran describes |
| Main.Device.Conclude | ESP32Inference/src/main.cpp:173-180 | after a successful invocation PREDICTION_READY is raised; after a failed one the task stops; nothing else of the shared state changes |
| Main.Device.Round | ESP32Inference/src/main.cpp:168-178 | the data side of a round succeeds exactly when the engine does, with Ran's effect; on failure window and labels are kept |
| Main.Device.PrepareInputs | ESP32Inference/src/main.cpp:168-172 | the input tensors become the window's model input and the label rows |
| Main.Device.ShiftWindow | ESP32Inference/src/main.cpp:178 | the samples rotate left by one; the label rows shift in the prediction; the window still points to the setup records |
| Main.Device.Loop | ESP32Inference/src/main.cpp:98-160 | once the button has put the chip into deep sleep (button.cpp:70-75) a tick sends nothing and changes nothing; otherwise one whole tick: before the gate nothing is sent and nothing stored; a due poll sends Response, files the sample by Filed and installs zero labels on the last calibration slot; then the PIR update and the button each act at the time of their own clock read |
| Main.Device.Tend | ESP32Inference/src/main.cpp:157-159 | the PIR accumulator takes one Step and the mode and counter become those of Ctrl; nothing else of the shared state changes |
| Bmp280.FieldConstantsFit | ESP32Inference/lib/BMP/BMP280.h:8-20 | every oversampling, standby and filter constant fits 3 bits; modes and SPI flags fit their fields |
| Bmp280.PackFields | ESP32Inference/lib/BMP/BMP280.h:27-58 | fields packed as (hi << 5) \| (mid << 2) \| lo extract back |
| Bmp280.FieldsPack | ESP32Inference/lib/BMP/BMP280.h:27-58 | every register value is the packing of its three fields |
| Bmp280.PresetValues | ESP32Inference/lib/BMP/BMP280.h:27-58 | ElevatorFloor_ChangeDetection is config 0x68, ctrl_meas 0x2F, with fields X4, X2, X1, X4; every preset has SPI off; only Weather_Monitoring starts asleep |
| Bmp280.WithBits2To4 | ESP32Inference/lib/BMP/BMP280.cpp:191 | for mode < 8, bits 2-4 take mode; bits 0-1 and 5-7 are kept |
| Bmp280.WithBits0To1 | ESP32Inference/lib/BMP/BMP280.cpp:200 | for mode < 4, bits 0-1 take mode; the rest is kept |
| Bmp280.WithInterface | ESP32Inference/lib/BMP/BMP280.cpp:227-230 | bit 0 takes the SPI flag; every other bit is kept |
| Bmp280.WithBits5To7 | ESP32Inference/lib/BMP/BMP280.cpp:182 | for mode < 8, bits 5-7 take mode; the rest is kept (the intended update) |
| Bmp280.Bits5To7AsWritten | ESP32Inference/lib/BMP/BMP280.cpp:182 | after promotion the shifts give back reg, so the byte written is reg \| (mode << 5) |
| Bmp280.Bits5To7KeepsOldBits | ESP32Inference/lib/BMP/BMP280.cpp:218 | the written update leaves 0xE0 at field 7 for mode X1; the intended update sets X1 |
| Bmp280.Bits5To7AgreeWhenCleared | ESP32Inference/lib/BMP/BMP280.cpp:182 | the written and intended updates agree exactly when the old field has no bit outside mode |
| Bmp280.UpdatesReplaceOneField | ESP32Inference/lib/BMP/BMP280.cpp:179-222 | on a packed register each update replaces its field and keeps the other two |
| Bmp280.Adc20 | ESP32Inference/lib/BMP/BMP280.cpp:92-93 | the ADC value fits 20 bits, and msb, lsb and the top nibble of xlsb can be read back from it |
| Bmp280.Read16s | ESP32Inference/lib/BMP/BMP280.cpp:37-53 | the byte read first is the low byte, as the source comment says; a failed transfer gives 0 |
| Bmp280.CalibrationWords | ESP32Inference/lib/BMP/BMP280.h:64-66 | the calibration has twelve words |
| Bmp280.CalibrationOf | ESP32Inference/lib/BMP/BMP280.cpp:128-140 | word n is the little-endian pair at byte 2n of the 24-byte read |
| Bmp280.CDiv | ESP32Inference/lib/BMP/BMP280.cpp:172 | C's 64-bit `/` truncates toward zero |
| Bmp280.TFine | ESP32Inference/lib/BMP/BMP280.cpp:149-154 | definition: t_fine from adc_T and the T calibration words, with `>>` as floor division; its meaning is stated by Bmp280.DatasheetExample |
| Bmp280.Temperature | ESP32Inference/lib/BMP/BMP280.cpp:155 | T is t_fine·5/256 to the nearest integer, halves up |
| Bmp280.TemperatureMonotone | ESP32Inference/lib/BMP/BMP280.cpp:155 | a larger t_fine never gives a lower temperature |
| Bmp280.PressureDivisor | ESP32Inference/lib/BMP/BMP280.cpp:163-168 | definition: var1 at the point of the division; its meaning is stated by Bmp280.Pressure (0 exactly when it is 0) and Bmp280.DatasheetExample |
| Bmp280.PressureBeforeCast | ESP32Inference/lib/BMP/BMP280.cpp:163-175 | definition: the 64-bit p before the return's uint32_t cast, the division truncating by Bmp280.CDiv; its meaning is stated by Bmp280.Pressure and Bmp280.DatasheetExample |
| Bmp280.Pressure | ESP32Inference/lib/BMP/BMP280.cpp:159-177 | 0 when var1 is 0; otherwise the uint32_t pattern of the 64-bit result; Bmp280.DatasheetExample checks its value on the datasheet's worked example |
| Bmp280.DatasheetExample | ESP32Inference/lib/BMP/BMP280.cpp:149-177 | the datasheet's worked example gives t_fine 128422, 25.08 °C and 25767233/256 ≈ 100653 Pa |
| Bmp280.Bmp280Driver.constructor | ESP32Inference/lib/BMP/BMP280.h:60-76 | all fields start at zero |
| Bmp280.Bmp280Driver.Begin | ESP32Inference/lib/BMP/BMP280.cpp:6-23 | fails exactly on id 0 or a short calibration read; otherwise stores the calibration and the preset |
| Bmp280.Bmp280Driver.CompensateTemperature | ESP32Inference/lib/BMP/BMP280.cpp:149-157 | sets t_fine and returns the temperature for it |
| Bmp280.Bmp280Driver.CompensatePressure | ESP32Inference/lib/BMP/BMP280.cpp:159-177 | returns the pressure for the stored t_fine |
| Bmp280.Bmp280Driver.Read | ESP32Inference/lib/BMP/BMP280.cpp:77-97 | fails exactly on a short read, changing nothing; otherwise the temperature is compensated first and the pressure uses its t_fine |
| Bmp280.Bmp280Driver.SetTempSampling | ESP32Inference/lib/BMP/BMP280.cpp:179-186 | a failed read gives 0; the register changes only when the write succeeds, and then bits 5-7 take mode |
| Bmp280.Bmp280Driver.SetPressureSampling | ESP32Inference/lib/BMP/BMP280.cpp:188-195 | ctrl_meas bits 2-4 take mode on a successful write |
| Bmp280.Bmp280Driver.SetOperationMode | ESP32Inference/lib/BMP/BMP280.cpp:197-204 | ctrl_meas bits 0-1 take mode on a successful write |
| Bmp280.Bmp280Driver.SetFilterCoef | ESP32Inference/lib/BMP/BMP280.cpp:206-213 | config bits 2-4 take mode on a successful write |
| Bmp280.Bmp280Driver.SetDelay | ESP32Inference/lib/BMP/BMP280.cpp:215-222 | config bits 5-7 take mode on a successful write |
| Bmp280.Bmp280Driver.SetInterface | ESP32Inference/lib/BMP/BMP280.cpp:224-233 | config bit 0 takes the SPI flag on a successful write |
| Bmp280.FailedReadClearsOtherFields | ESP32Inference/lib/BMP/BMP280.cpp:55-64 | after a failed read, a successful write zeroes the register's other two fields |
| Mlx90614.Step | ESP32Inference/lib/MLX/MLX90614.cpp:132-136 | definition: one pass of the inner loop on the CRC and the input byte; its meaning is stated by Mlx90614.CrcByteIsXorThenShift and Mlx90614.InputShiftedOut |
| Mlx90614.CrcByte | ESP32Inference/lib/MLX/MLX90614.cpp:130-137 | definition: eight inner steps for one byte; its meaning is stated by Mlx90614.CrcByteIsXorThenShift, Mlx90614.CrcByteSelf and Mlx90614.ShiftInByte |
| Mlx90614.Crc8 | ESP32Inference/lib/MLX/MLX90614.cpp:124-140 | definition: the PEC, CRC-8 with polynomial 0x07 from 0; its meaning is stated by Mlx90614.PecChecks, Mlx90614.CheckValue and Mlx90614.Crc8Of |
| Mlx90614.CrcByteIsXorThenShift | ESP32Inference/lib/MLX/MLX90614.cpp:129-138 | the bitwise loop is the byte-wise CRC: xor the byte in, then eight shifts |
| Mlx90614.InputShiftedOut | ESP32Inference/lib/MLX/MLX90614.cpp:131-137 | after the eight steps of a byte every input bit has been shifted out |
| Mlx90614.CrcOfEmpty | ESP32Inference/lib/MLX/MLX90614.cpp:128 | the CRC of no bytes is the initial value 0 |
| Mlx90614.CrcAppend | ESP32Inference/lib/MLX/MLX90614.cpp:129-138 | the CRC of a ++ b continues from the CRC of a over b |
| Mlx90614.CrcByteSelf | ESP32Inference/lib/MLX/MLX90614.cpp:129-138 | a register followed by its own value clears |
| Mlx90614.PecChecks | ESP32Inference/lib/MLX/MLX90614.cpp:124-140 | a message followed by its own CRC has CRC 0, which is how the PEC is checked |
| Mlx90614.CheckValue | ESP32Inference/lib/MLX/MLX90614.cpp:124-140 | "123456789" gives 0xF4, the CRC-8/SMBUS check value (polynomial 0x07) |
| Mlx90614.RunningCrc | ESP32Inference/lib/MLX/MLX90614.cpp:129-138 | the CRC of a prefix is the running register value |
| Mlx90614.Crc8Of | ESP32Inference/lib/MLX/MLX90614.cpp:124-140 | the loops compute the CRC of the first len bytes |
| Mlx90614.ShiftInByte | ESP32Inference/lib/MLX/MLX90614.cpp:131-137 | the inner loop, counting down from 8, takes one byte |
| Mlx90614.Read16 | ESP32Inference/lib/MLX/MLX90614.cpp:111-122 | the low byte arrives first; fewer than two bytes give 0 |
| Mlx90614.Write16Frame | ESP32Inference/lib/MLX/MLX90614.cpp:142-157 | sends reg, lsb, msb, PEC; lsb and msb recombine to v; the PEC covers addr << 1, reg, lsb, msb |
| Mlx90614.WriteFrameChecks | ESP32Inference/lib/MLX/MLX90614.cpp:142-157 | a receiver that prepends the write address sees CRC 0 and reads back v |
| Mlx90614.Mlx90614Driver.constructor | ESP32Inference/src/main.cpp:39 | the address starts at 0 |
| Mlx90614.Mlx90614Driver.Begin | ESP32Inference/lib/MLX/MLX90614.cpp:11-19 | stores the address; fails exactly when the id reads 0, a failed read included |
| Mlx90614.Mlx90614Driver.Write16 | ESP32Inference/lib/MLX/MLX90614.cpp:142-157 | the frame sent for a write, its PEC computed by the crc8 loops |
| Dht.ItemBit | ESP32Inference/lib/DHT/DHT.cpp:68 | a pulse is a 1 bit exactly when its first level lasts at least 33 µs |
| Dht.PackBits | ESP32Inference/lib/DHT/DHT.cpp:67-68 | definition: pulses shifted into a byte from the right; its meaning is stated by Dht.PackBitsAt and Dht.PackPrefix |
| Dht.PackBitsAt | ESP32Inference/lib/DHT/DHT.cpp:67-68 | of n ≤ 8 pulses shifted in, pulse j is bit n-1-j |
| Dht.Bytes | ESP32Inference/lib/DHT/DHT.cpp:65-69 | a transfer gives five bytes |
| Dht.BytesMsbFirst | ESP32Inference/lib/DHT/DHT.cpp:65-69 | bit 7-k of byte m comes from pulse 8m+1+k; pulse 0 is ignored |
| Dht.Collect | ESP32Inference/lib/DHT/DHT.cpp:52-69 | the bit loop leaves the five bytes of the transfer in a fresh zeroed buffer |
| Dht.PulsesOf | ESP32Inference/lib/DHT/DHT.cpp:65-69 | a byte is sent as eight pulses |
| Dht.Transfer | ESP32Inference/lib/DHT/DHT.cpp:57-58 | a transfer is 41 items: the response and five bytes |
| Dht.PackPrefix | ESP32Inference/lib/DHT/DHT.cpp:67-68 | the first n pulses of a byte pack to its top n bits |
| Dht.TransferRoundTrip | ESP32Inference/lib/DHT/DHT.cpp:65-69 | decoding the pulses a sensor sends for five bytes gives those bytes back |
| Dht.Humidity | ESP32Inference/lib/DHT/DHT.cpp:78 | definition: integral byte plus a tenth of the decimal byte; its meaning is stated by Dht.HumidityRange |
| Dht.Temperature | ESP32Inference/lib/DHT/DHT.cpp:79-83 | definition: the integral byte, replaced by -1 minus itself when bit 7 of byte 3 is set, plus a tenth of byte 3's low nibble; its meaning is stated by Dht.TemperatureSign |
| Dht.TemperatureSign | ESP32Inference/lib/DHT/DHT.cpp:79-83 | bit 7 clear gives a temperature of at least 0; bit 7 set with decimal tenths gives a negative one |
| Dht.HumidityRange | ESP32Inference/lib/DHT/DHT.cpp:78 | humidity is in [0, 280.5] and whole when the decimal byte is 0 |
| Dht.Decode | ESP32Inference/lib/DHT/DHT.cpp:44-85 | succeeds exactly with a receiver, 41 items and a matching checksum |
| Dht.DecodeTransfer | ESP32Inference/lib/DHT/DHT.cpp:44-85 | a transfer with a good checksum decodes to the reading of its bytes; one with a bad checksum is refused |
| Dht.Due | ESP32Inference/lib/DHT/DHT.cpp:89-90 | definition: the gate `current_time - last_read > 2000` with the clock read into an int; its meaning is stated by Dht.DueIsDifference, Dht.FirstReadWaits and Dht.AttemptsSpaced |
| Dht.DueIsDifference | ESP32Inference/lib/DHT/DHT.cpp:89-90 | before the clock reaches 2^31 ms, the gate is now - last_read > 2000 |
| Dht.FirstReadWaits | ESP32Inference/lib/DHT/DHT.h:10 | last_read starts at -1, so the first attempt waits for 2000 ms of uptime |
| Dht.AttemptsSpaced | ESP32Inference/lib/DHT/DHT.cpp:87-97 | two attempts that both pass the gate are more than 2000 ms apart |
| Dht.DhtSensor.constructor | ESP32Inference/lib/DHT/DHT.h:8-10 | last_read is -1 and readings start at 0 |
| Dht.DhtSensor.ReceiveAndDecode | ESP32Inference/lib/DHT/DHT.cpp:44-85 | succeeds exactly when Decode does and then stores its reading; a failure keeps humidity and temperature |
| Dht.DhtSensor.Read | ESP32Inference/lib/DHT/DHT.cpp:87-97 | a due attempt records the time even when decoding fails; otherwise it fails and changes nothing |
| Pir.Elapsed | ESP32Inference/lib/PIR/PIR.cpp:5-8 | definition: the wrapped time since the previous update, 0 on the first; its meaning is stated by Pir.ElapsedIsDifference |
| Pir.Step | ESP32Inference/lib/PIR/PIR.cpp:3-13 | definition: one update, adding Elapsed when the pin is high and recording the call time; its meaning is stated by Pir.ReplayAccumulates and Pir.LowTraceAddsNothing |
| Pir.Take | ESP32Inference/lib/PIR/PIR.cpp:15-20 | definition: a read, the accumulator and the state with it cleared; its meaning is stated by Pir.TakeTwice |
| Pir.ElapsedIsDifference | ESP32Inference/lib/PIR/PIR.cpp:7-8 | without a wrap the elapsed time is now - last_call |
| Pir.TakeTwice | ESP32Inference/lib/PIR/PIR.cpp:15-20 | a read returns the accumulator and clears it; a second read with no update between returns 0 |
| Pir.ReplayAccumulates | ESP32Inference/lib/PIR/PIR.cpp:3-13 | after any trace of updates the accumulator holds the start plus the time spent high, mod 2^32, and remembers the last call |
| Pir.LowTraceAddsNothing | ESP32Inference/lib/PIR/PIR.cpp:11-12 | while the pin stays low the accumulator does not move |
| Pir.PirSensor.constructor | ESP32Inference/lib/PIR/PIR.h:8 | the accumulator starts at 0 |
| Pir.PirSensor.Update | ESP32Inference/lib/PIR/PIR.cpp:3-13 | adds the wrapped elapsed time when the pin is high, and always records the call time |
| Pir.PirSensor.Read | ESP32Inference/lib/PIR/PIR.cpp:15-20 | returns the accumulated uptime and leaves 0 |
| ButtonControl.GetTimer | ESP32Inference/lib/button/button.cpp:12-18 | 0 when no press is timed; otherwise the wrapped time since the press |
| ButtonControl.TimerIsHoldTime | ESP32Inference/lib/button/button.cpp:12-18 | without a wrap, a running timer reads now - timer |
| ButtonControl.Interrupt | ESP32Inference/lib/button/button.cpp:5-8 | the ISR marks an event and changes nothing else |
| ButtonControl.Ctrl | ESP32Inference/lib/button/button.cpp:51-95 | definition: one call of buttonCtrl on the button state, the mode flag and the counter; its meaning is stated by ButtonControl.QuietWithoutEvent, ButtonControl.PressCounts, ButtonControl.ReleaseStopsTimer, ButtonControl.LongHoldSleeps and ButtonControl.ToggleEffect |
| ButtonControl.QuietWithoutEvent | ESP32Inference/lib/button/button.cpp:54 | without a pending event nothing happens, and nothing after deep sleep |
| ButtonControl.EventConsumed | ESP32Inference/lib/button/button.cpp:93 | a handled event is cleared unless it sent the board to sleep |
| ButtonControl.PressCounts | ESP32Inference/lib/button/button.cpp:57-66 | a press starts the timer and counts one more click within click_time, else restarts at 1; last_click becomes now |
| ButtonControl.ReleaseStopsTimer | ESP32Inference/lib/button/button.cpp:69-91 | a release sleeps exactly after a hold of 1000 ms; otherwise it stops the timer and toggles the mode exactly on a double click |
| ButtonControl.LongHoldSleeps | ESP32Inference/lib/button/button.cpp:70-75 | deep sleep keeps the mode and the counter |
| ButtonControl.ToggleEffect | ESP32Inference/lib/button/button.cpp:76-91 | a double click flips the mode; turning inference on resets the counter to 0, turning it off keeps it; the click count returns to 0 |
| ButtonControl.DoubleClickToggles | ESP32Inference/lib/button/button.cpp:51-95 | press, release, press within click_time and release, each held under a second, toggle the mode |
| ButtonControl.Button.constructor | ESP32Inference/lib/button/button.cpp:34-37 | the button starts with no timer, no clicks and no event |
| ButtonControl.Button.Isr | ESP32Inference/lib/button/button.cpp:5-8 | the interrupt routine's step |
| ButtonControl.Button.ButtonCtrl | ESP32Inference/lib/button/button.cpp:51-95 | the new state and the new flag and counter are those of Ctrl |

## Left out

- The TensorFlow Lite interpreter and `Invoke` are a foreign library. Their outcome, two output vectors or a failure, is a parameter (`Infer.Invocation`).
- Serial printing, tensor-type probing and `PrintBuffers` produce output only.
- FreeRTOS is not modelled: the event group, `xTaskCreate`, blocking waits and memory ordering. Each loop tick and each task round is one atomic step on the shared state.
- I2C, RMT, GPIO, `millis`, `delay` and deep sleep are I/O. Bytes, pulses, pin levels and clock values are parameters, and a failed bus transfer is a short reply.
- The CCS811 driver and WiFi/CoAP transport (communication.cpp) are not part of this model. The server script is cited only for its format strings. Its rounding of values to two decimals is not modelled.
- Main.Device.Poll: the sensor readings of `loop` (BMP, DHT, CCS, MLX and `pir_uptime / 1000`) arrive as the parameter `reading`. The PIR accumulator is read and cleared, but its float conversion into the record is not modelled.
- Infer.Inference.Predict, Main.Device.RunModel, Main.Device.Serve and Main.Device.Round require the engine's ventilation scores to convert (`WellFormed`: a finite score whose rounded value fits int32). The cast `(int32_t)roundf(...)` of a NaN or out-of-range score is undefined in C, and such a score can arise, for instance from a NaN MLX reading flowing into the input tensor. The model does not say what tag the firmware then stores.
- Bmp280.Read16s, Bmp280.Adc20 and Bmp280.CalibrationOf assume the `_wire->read()` calls inside one expression run left to right, as the source's "lsb first" comment intends. C++ leaves the order of those operands unspecified, so a compiler may assign the received bytes differently.
- Main.Device.Loop: the clock reads of `loop` are parameters (`now`, `finish` for `last_poll`, and one each for the PIR update and the button), and nothing relates them to each other.
- Float arithmetic is not modelled: the MLX `readTemp` conversion, emissivity and Fahrenheit functions, the BMP `getTemperature`/`getPressure` casts, and `(float)` widenings.
- Preprocess.SensorRow: a non-finite float (infinity, NaN) is read as 0.0. The real pipeline would propagate it.
- Infer.Inference.ScaleData: delta referencing and scaling are computed over the reals, without float32 rounding.
- Infer.Inference.constructor: `human_counts[B][L][1]` is a B×L buffer, since its last dimension is 1.
- Bmp280.Bmp280Driver.Begin: `SetConfig` swallows write failures, and the model treats both registers as written. Only the `Set*` updaters carry a write outcome.
- Bmp280.Bmp280Driver.Read: only normal mode is modelled. The forced-mode busy-wait on the status register polls hardware.
- Bmp280.Bmp280Driver.CompensateTemperature: the formulas use unbounded integers. int32/int64 overflow, undefined behaviour in C, is not modelled. Only the final cast of the pressure to uint32_t is explicit.
- `i2cScanner` and `MPUToSleep` in the BMP driver are not modelled. They address other devices on the bus.
- The MLX `sleep` function, which passes a null pointer to `crc8`, and `awake` are hardware I/O.
- Dht.DhtSensor.ReceiveAndDecode: humidity and temperature are exact reals (`* 0.1` as division by 10), without float or double rounding. The RMT ring buffer is reduced to the optional list of `duration0` values. A buffer size that is not a multiple of 4 is folded into "not 41 items".
- Dht.Due: `current_time - last_read` overflows `int` after 2^31 ms, which is undefined behaviour in C. The model wraps it in two's complement.
- `Button::wake_up`, `system_start` and the ISR registration are sleep and interrupt hardware. Deep sleep is a terminal `asleep` state of the button, after which `Main.Device.Loop` and `Main.Device.RunModel` do nothing. The wake-up, which reboots through `setup`, is not modelled.
- ButtonControl.Ctrl: the function-local `static last_click` is initialised at the first press, so that press counts as following itself. The model represents this as `lastClick == None` before any press.
- Pir.Elapsed: the function-local `static last_call = millis()` is initialised at the first `update`, and `now = millis()` is read just after it. The model takes the first call's elapsed time as 0 (`lastCall == None`), although the second clock read could be 1 ms later and add 1 ms while the pin is high.

## Findings

| source | as written | input that shows it | evidently intended | confidence | as-written member | corrected member |
|---|---|---|---|---|---|---|
| ESP32Inference/src/main.cpp:100 | `last_poll + POLL_INVERVAL <= now` computes the deadline in uint32, so near the top of the clock it wraps to a small number | last_poll = 0xFFFFF000, now = 0xFFFFF001: the gate opens 1 ms after a poll | poll when at least 10000 ms have passed on the wrapping clock, `now - last_poll >= POLL_INVERVAL` | not executed | Main.PollGateOpensEarly | Main.PollDueAcrossWrap |
| ESP32Inference/lib/BMP/BMP280.cpp:182 | `((reg_data << 3) >> 3) \| (mode << 5)` is computed after promotion to int, so the shifts give back reg_data and the old osrs_t bits stay | ctrl_meas 0xE0 with mode X1 (1) still writes 0xE0, osrs_t 7 | clear bits 5-7, then insert mode | not executed | Bmp280.Bits5To7KeepsOldBits | Bmp280.Bmp280Driver.SetTempSampling |
| ESP32Inference/lib/BMP/BMP280.cpp:218 | the same expression for t_sb in the config register | config 0xE0 with mode X1 (1) still writes 0xE0, t_sb 7 | clear bits 5-7, then insert mode | not executed | Bmp280.Bits5To7KeepsOldBits | Bmp280.Bmp280Driver.SetDelay |

The device model uses the intended gate (`Main.PollDue`) and the intended bit-field update (`Bmp280.WithBits5To7`).
`Main.PollGatesAgree` shows that the two gates agree everywhere away from the wrap. `Bmp280.Bits5To7AgreeWhenCleared`
shows the same for the two updates whenever the old field has no bit outside the new mode.
