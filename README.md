# Distance IoT: ultrasonic measurement and OLED frame output

This project models the two devices at the core of the Raspberry Pi distance
meter and proves properties of them.

- **Ultrasonic distance sensor (HC-SR04).** It takes a batch of samples and
  sorts it. It uses the sample at index n / 2 as the reference ("ethalon")
  sample: the median for odd n, the upper of the two middle samples for even
  n. It drops every sample more than 3000 mm from it. It averages what is left and
  reports an average of 0 as positive infinity ("no target"). It then divides
  the result by the value of the chosen unit.
- **SSD1306 128 x 64 OLED display.** It packs a grey-scale image into the
  controller's page-major bit-plane layout, which is 1024 bytes. It sends that
  frame in blocks of 16 bytes. To clear the screen it sends 64 blocks of 16
  zero bytes. The clock demo shifts its text down one row per frame and wraps
  at the image height.

Files:

- `wrappers.dfy`: `Option` and `Result`.
- `sorting.dfy`: the ascending sort of the sample batch. It holds a reference
  definition `Sort`, an in-place array sort proved to produce `Sort` of the old
  contents, and the proof that the ascending permutation is unique.
- `ultrasonic.dfy`: the measurement pipeline as functions, with the sensor
  class `UltrasonicDistanceSensor` whose methods are proved against those
  functions.
- `oled.dfy`: the frame layout and the chunking as functions, the packing
  loops as methods, and the class `OledDisplay`. The display records every
  transfer it receives in the field `sent`.

The reads from the sensor are an input, `readings: seq<Option<real>>`, in
millimetres. `None` stands for a failed `TryGetDistance`. Sample i is
`readings[i]`.

The two faults of the measurement are modelled as `Result` failures:

- A negative sample count fails to allocate the batch array
  (`ArraySizeOverflow`).
- A count of 0 fails when the reference sample is indexed (`IndexOutOfRange`).

The unit enumeration gives the metre the value 100. The model follows the
code, so a "metre" result is the millimetre value divided by 100.

## Model

| member | source | states |
|---|---|---|
| DistanceSensor.UnitValue | UltrasonicDistanceSensor.cs:6 | every unit divides by at least 1 |
| DistanceSensor.UnitConversions | UltrasonicDistanceSensor.cs:6 | mm, cm and m divide by 1, 10 and 100; a cm value is ten m values, and ten cm values make the mm value back |
| DistanceSensor.Collected | UltrasonicDistanceSensor.cs:66-82 | the batch holds exactly n samples; a failed read is stored as 0 mm and a successful one as its reading |
| DistanceSensor.Accurate | UltrasonicDistanceSensor.cs:52-59 | the kept samples are no more than the batch, and every kept sample is within 3000 mm of the reference |
| DistanceSensor.AccurateStep | UltrasonicDistanceSensor.cs:53-59 | one more pass of the loop appends the sample exactly when it is within 3000 mm of the reference |
| DistanceSensor.AccurateCounts | UltrasonicDistanceSensor.cs:52-59 | every value is kept exactly as often as it occurs in the batch when it is within 3000 mm of the reference, and never otherwise |
| DistanceSensor.AccurateAscending | UltrasonicDistanceSensor.cs:52-59 | the filter keeps the batch order, so the kept samples of a sorted batch are sorted |
| DistanceSensor.AccurateMember | UltrasonicDistanceSensor.cs:52-59 | every kept sample is a sample of the batch |
| DistanceSensor.EthalonIsAccurate | UltrasonicDistanceSensor.cs:50-58 | the reference sample is always kept, so the average is never taken over nothing |
| DistanceSensor.NoTargetAsInfinity | UltrasonicDistanceSensor.cs:63 | the result is positive infinity exactly when the average is 0; otherwise it is the average unchanged |
| DistanceSensor.FailsExactlyWithoutSamples | UltrasonicDistanceSensor.cs:46-50 | the measurement fails exactly when fewer than one sample is asked for: ArraySizeOverflow below 0, IndexOutOfRange at 0; for n >= 1 the index n / 2 is in bounds |
| DistanceSensor.AverageOfCollected | UltrasonicDistanceSensor.cs:44-64 | for n >= 1 the result is the post-sort pipeline applied to the sorted batch of n samples |
| DistanceSensor.MeanBounds | UltrasonicDistanceSensor.cs:61 | the average lies between any lower and upper bound of the values averaged |
| DistanceSensor.MeanOfAccurateNearEthalon | UltrasonicDistanceSensor.cs:50-61 | the average of the kept samples lies between the least and the greatest of them, and within 3000 mm of the reference |
| DistanceSensor.FiniteResultNearEthalon | UltrasonicDistanceSensor.cs:44-64 | a finite result is within 3000 mm of the reference sample of the sorted batch |
| DistanceSensor.SumOfNonNegativesIsZero | UltrasonicDistanceSensor.cs:61 | a sum of non-negative samples is non-negative, and it is 0 exactly when every sample is 0 |
| DistanceSensor.MeanOfNonNegativesIsZero | UltrasonicDistanceSensor.cs:61-63 | the average of non-negative samples is 0 exactly when every sample is 0 |
| DistanceSensor.NoTargetIffAccurateSamplesZero | UltrasonicDistanceSensor.cs:57-63 | for non-negative samples, "no target" is reported exactly when every kept sample is 0 mm |
| DistanceSensor.ZeroSamplesNoTarget | UltrasonicDistanceSensor.cs:61-63 | a batch of 0 mm samples is reported as positive infinity |
| DistanceSensor.AllReadsFailedIsNoTarget | UltrasonicDistanceSensor.cs:77-82 | when every read fails, the measurement is positive infinity |
| DistanceSensor.ReadOrderIrrelevant | UltrasonicDistanceSensor.cs:48 | because the batch is sorted first, two batches with the same samples in any order give the same result |
| DistanceSensor.OutlierExcluded | UltrasonicDistanceSensor.cs:44-64 | the samples 100, 102, 98, 5000 and 101 mm give 100.25 mm, because the 5000 mm outlier is dropped |
| DistanceSensor.ExampleAverage | UltrasonicDistanceSensor.cs:50-63 | on the sorted example the reference is 101 mm, the kept samples are the first four, and the result is 100.25 mm |
| DistanceSensor.SingleSortedSample | UltrasonicDistanceSensor.cs:50-63 | one sample is its own reference and its own average |
| DistanceSensor.SingleSample | UltrasonicDistanceSensor.cs:28-42 | with one sample the result is that sample divided by the unit, or positive infinity when the sample is 0 mm |
| DistanceSensor.MeasuredDividesByUnit | UltrasonicDistanceSensor.cs:39-42 | a finite millimetre result v is reported as v divided by the unit value; positive infinity passes through unchanged; the measurement fails exactly when the millimetre result fails, with the same fault |
| DistanceSensor.UltrasonicDistanceSensor.constructor | UltrasonicDistanceSensor.cs:15-22 | the pins are stored and the default unit is millimetres |
| DistanceSensor.UltrasonicDistanceSensor.Measure | UltrasonicDistanceSensor.cs:28-31 | a plain measurement is the precision measurement with one sample |
| DistanceSensor.UltrasonicDistanceSensor.MeasureWithPrecision | UltrasonicDistanceSensor.cs:39-42 | the result is the specified measurement in the default unit |
| DistanceSensor.UltrasonicDistanceSensor.CalculateAverageDistanceExcludingError | UltrasonicDistanceSensor.cs:44-64 | collect, sort in place, take the reference, filter in a loop, average and map 0 to infinity; the result is the specified millimetre result, faults included |
| DistanceSensor.UltrasonicDistanceSensor.CollectMeasurments | UltrasonicDistanceSensor.cs:66-75 | fails exactly for a negative count; otherwise it is a new array holding the n samples in read order |
| Sorting.SortPermutes | UltrasonicDistanceSensor.cs:48 | sorting only rearranges: the multiset of samples is unchanged |
| Sorting.SortAscending | UltrasonicDistanceSensor.cs:48 | the sorted batch is ascending |
| Sorting.AscendingPermutationUnique | UltrasonicDistanceSensor.cs:48 | two ascending arrangements of the same samples are equal |
| Sorting.SortIsTheAscendingPermutation | UltrasonicDistanceSensor.cs:48 | any ascending permutation of the batch is the sorted batch |
| Sorting.SinkInto | UltrasonicDistanceSensor.cs:48 | one insertion step extends the ascending prefix by one, leaving the rest in place and the samples unchanged |
| Sorting.SortInPlace | UltrasonicDistanceSensor.cs:48 | the array afterwards holds the sorted old contents, which are ascending and a permutation |
| Display.ShiftAll | OledDisplay.cs:99-104 | after n passes of the bit loop `bits` is below 2^n, so after 8 passes it fits in a byte |
| Display.ShiftInBits | OledDisplay.cs:102-103 | one shift-and-or puts the pixel in bit 0 and moves the earlier bits up by one |
| Display.ShiftAllBits | OledDisplay.cs:99-104 | bit k of `bits` holds the pixel read k passes before the last |
| Display.PackedByteBits | OledDisplay.cs:99-106 | bit k of the byte for column x of a page is set exactly when pixel (x, 8 * page + k) is nonzero |
| Display.PageBytes | OledDisplay.cs:97-107 | the first n columns of a page give n bytes |
| Display.FramePages | OledDisplay.cs:95-108 | the first p pages give p * 128 bytes |
| Display.PageBytesAt | OledDisplay.cs:97-107 | byte x of a page is the byte packed for column x |
| Display.FramePagesAt | OledDisplay.cs:95-108 | byte page * 128 + x of the frame is in bounds and is the byte packed for column x of that page |
| Display.FrameLayout | OledDisplay.cs:89-108 | the frame has 1024 bytes in page-major order, and bit k of byte page * 128 + x is set exactly when pixel (x, 8 * page + k) is nonzero |
| Display.DarkShiftAll | OledDisplay.cs:99-104 | shifting in only dark pixels leaves `bits` at 0 |
| Display.DarkPage | OledDisplay.cs:97-107 | the columns of a dark image pack to zero bytes |
| Display.DarkImageFrame | OledDisplay.cs:95-108 | a dark image packs to a frame of zero bytes |
| Display.Zeros | OledDisplay.cs:124 | a new byte array of length n holds n zero bytes |
| Display.ChunksConcatenate | OledDisplay.cs:110-114 | the blocks, concatenated in order, give back the buffer |
| Display.ChunkSizes | OledDisplay.cs:110-114 | every block holds between 1 and 16 bytes |
| Display.FullChunks | OledDisplay.cs:110-114 | when 16 divides the remaining length, there are exactly that many blocks, all of 16 bytes |
| Display.FrameChunks | OledDisplay.cs:110-114 | a 1024-byte frame is sent as 64 blocks of 16 bytes whose concatenation is the frame |
| Display.DataBlocks | OledDisplay.cs:113 | one data transfer per block |
| Display.DataBlocksAt | OledDisplay.cs:111-114 | transfer i is the data transfer of block i |
| Display.DataBlocksAppend | OledDisplay.cs:113 | sending one more block appends exactly its transfer |
| Display.ZeroChunks | OledDisplay.cs:122-126 | the zero frame, chunked from any block boundary, gives blocks of 16 zeros |
| Display.ClearSendsDarkFrame | OledDisplay.cs:89-127 | Clear sends exactly the blocks DisplayImage sends for a dark image: 64 blocks of 16 zero bytes, 1024 zero bytes in all |
| Display.PackColumn | OledDisplay.cs:99-106 | the bit loop yields the byte whose bit k is pixel (x, 8 * page + k) |
| Display.PackPage | OledDisplay.cs:97-107 | the column loop appends exactly the 128 bytes of one page |
| Display.PackFrame | OledDisplay.cs:95-108 | the page and column loops produce exactly the 1024-byte frame |
| Display.ClockOffsets | OledDisplay.cs:63-82 | over the 100 clock frames `height` is the frame number modulo 64, so it stays in [0, 64): the text's starting row is inside the image |
| Display.OledDisplay.SendCommand | OledDisplay.cs:119 | a command transfer is appended to what the display received |
| Display.OledDisplay.SendData | OledDisplay.cs:125 | a data transfer is appended to what the display received |
| Display.OledDisplay.DisplayImage | OledDisplay.cs:89-115 | the display receives the chunks of the packed frame, in order, one data transfer each |
| Display.OledDisplay.Clear | OledDisplay.cs:117-127 | the display receives the column and page address commands, then 64 data transfers of 16 zero bytes |

## Left out

- The hardware reads and the timing are left out. `TryGetDistance` becomes the
  `readings` input, and `Thread.Sleep(60)` and `Thread.Sleep(100)` are not
  modelled.
- The `readings` requirement: every measurement requires at least as many
  readings as samples, because the sensor answers every read.
- Distances are `real` millimetres rather than `UnitsNet.Length` values in
  IEEE doubles, so rounding is not modelled. Positive infinity is a
  constructor of `Distance`.
- `SortInPlace`: it models `Array.Sort` by its result only. Introspective sort
  is not modelled; an insertion sort stands in for it, and the sorted result is
  unique. Its postcondition states the result as `Sort` of the old contents;
  sorted order and permutation follow from `SortAscending` and `SortPermutes`.
- The `Hcsr04` driver, the `Device` base class and the GPIO controller are
  left out. `Device.cs`, `Indicator.cs` and `Program.cs` are not part of this
  model.
- `Initialize`'s power-up command sequence, `Message` and the `Font` table are
  left out; they send fixed commands and font bytes.
- `DisplayClock`: only the `height` wrap is modelled, by `ClockOffsets`. Text
  rendering, fonts, `DateTime`, the image conversion and `Console` output are
  library calls.
- The I2C bus and the `Ssd1306` driver are left out. What the display receives
  is the transfer log `sent`. `SetColumnAddress()` is a command without
  arguments, since its default range is not shown in the source.
- `DisplayImage`, `PackColumn`, `PackPage` and `PackFrame`: the image must be
  at least 128 x 64. Smaller images make the pixel indexer throw in the
  library, and that is not modelled. The clock only ever passes 128 x 64
  images.
