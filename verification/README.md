# DS18B20 pump controller — a Dafny model

This project models the sampling and control logic of a Raspberry Pi
controller. The controller reads three DS18B20 temperature sensors over the
1-Wire bus and averages the readings that came back. It switches a pump relay
ON when the mean exceeds 22.0 °C and logs one CSV row per tick. A second relay
("relay V") follows an input pin. A Flask dashboard shares the sensor reader.
It rebuilds a three-slot temperature dictionary with a rounded mean, and its
two endpoints switch the pump and relay V on or off.

Temperatures are integers in millidegrees: the value the sensor file carries
before the division by 1000. A mean is kept exact as `Mean(sum, count)`, so
"mean > 22.0 °C" is `sum > 22000 * count`. Rendering with `:.3f` is a decimal
rendering of the millidegree value rounded to the nearest millidegree.

Modules:

- `PyText` (`text.dfy`) covers the Python string operations the parser relies
  on: `strip`, `splitlines` with every line boundary Python recognises,
  `split`, `lstrip('-')`, `isdigit`, `int()`, `str()` and `",".join`.
- `Ds18b20` (`ds18b20.dfy`) covers the `w1_slave` payload check, the retry loop
  and round trips of well-formed payloads.
- `Discovery` (`discovery.dfy`) covers the `28-` filter and the in-place sort
  by name, with the name order's laws.
- `Aggregate` (`aggregate.dfy`) covers the mean of the present readings, the
  pump's threshold rule and rounding to the nearest millidegree.
- `CsvLog` (`csvlog.dfy`) covers the header, the row and the three-decimal
  rendering.
- `Gpio` (`gpio.dfy`) covers pins, polarity and the record of pin setups and
  writes.
- `Control` (`controller.dfy`) covers the `Controller` class: the per-tick
  pipeline, the trigger callback, shutdown and the whole `main` run.
- `Dashboard` (`dashboard.dfy`) covers the `Dashboard` class, which holds the
  shared sensor list, the temperature dictionary and the endpoint dispatch.

## Model

| member | source | states |
|---|---|---|
| Ds18b20.CheckLinesAccepts | sensors_v2.py:127-131 | a payload's lines give a value exactly when there are at least two, the first stripped ends with `YES`, the second splits on `t=` into exactly two parts and the stripped second part is ASCII digits with at most one leading minus, whose value is the reading |
| Ds18b20.ReadDs18b20 | sensors_v2.py:117-135 | at most `REINTENTOS` attempts; the result is the first accepted attempt's value, after only failed attempts; `None` exactly when all three attempts fail, with all three made |
| Ds18b20.FirstSome | sensors_v2.py:123-135 | the retry result is `None` exactly when every attempt failed, otherwise the value of an attempt preceded only by failures |
| Ds18b20.FirstSomeAfterFailures | sensors_v2.py:123-135 | skipping failed attempts does not change the first success; a success after failures is the result |
| Ds18b20.W1SlaveRoundTrip | sensors_v2.py:126-131 | a kernel-style two-line payload with a `YES` CRC line and `t=<n>` parses back to exactly `n`, for every integer `n`, negative included |
| Ds18b20.W1SlaveLines | sensors_v2.py:126 | stripping and splitting a driver-written payload gives exactly the CRC line and the `t=` line |
| Ds18b20.IntTextChars | sensors_v2.py:129 | `str(milli)` is non-empty and made only of a minus sign and digits |
| Ds18b20.IntTextDigits | sensors_v2.py:129 | stripping `str(milli)` and its leading minus leaves a digit string, so the digit check accepts it |
| Ds18b20.DoubleMinusCostsAnAttempt | sensors_v2.py:129-133 | `t=--5` passes the digit check yet `int()` rejects it, so the attempt fails instead of yielding a value |
| PyText.PyIntRoundTrip | sensors_v2.py:130 | `int(str(i)) == i` for every integer |
| PyText.SplitJoin | sensors_v2.py:104 | splitting a `",".join` of comma-free fields on `,` gives the fields back |
| PyText.NatToDigits | sensors_v2.py:256 | `str(n)` is a digit string whose value is `n`, with no leading zero |
| PyText.StripNoop | sensors_v2.py:126 | `strip()` leaves text alone when it neither starts nor ends with whitespace |
| PyText.SkipSpaces | sensors_v2.py:126 | `strip()` skips exactly a run of whitespace and stops at a non-space |
| PyText.LineEnd | sensors_v2.py:126 | a `splitlines()` line runs up to the first line boundary |
| PyText.FindFrom | sensors_v2.py:128 | the position `split("t=")` cuts at is the first occurrence of the separator |
| Discovery.Discover | sensors_v2.py:109-115 | `[]` when the bus directory is missing; otherwise exactly the `28-` entries (as a multiset), sorted by name |
| Discovery.Family28 | sensors_v2.py:113 | an entry is kept, with its multiplicity, exactly when its name starts with `28-` |
| Discovery.SortByName | sensors_v2.py:114 | the in-place sort leaves the array sorted by name and a permutation of its old contents |
| Discovery.NameLeTotal | sensors_v2.py:114 | any two names are comparable in the sort order |
| Discovery.NameLeTransitive | sensors_v2.py:114 | the sort order is transitive |
| Discovery.NameLeAntisymmetric | sensors_v2.py:114 | names that sort before each other are equal |
| Discovery.SortedUnique | sensors_v2.py:114 | two sorted permutations of the same names are equal, so the sorted list is determined |
| Aggregate.Present | sensors_v2.py:240 | the valid readings are no more than the readings and are empty exactly when every reading is absent |
| Aggregate.PresentTotal | sensors_v2.py:240-241 | the sum of the valid readings is the total of the readings, an absent one counting nothing |
| Aggregate.PresentCount | sensors_v2.py:240-241 | the number of valid readings is the number of slots that hold a reading |
| Aggregate.PresentValues | sensors_v2.py:240 | each value occurs among the valid readings as often as slots hold it, so they are the present readings as a multiset |
| Aggregate.Average | sensors_v2.py:240-241 | the mean is absent exactly when every reading is absent; otherwise its count is the number of slots holding a reading and its sum the total of those readings |
| Aggregate.AverageWithin | sensors_v2.py:240-241 | any lower and upper bounds of the present readings bound the mean (min ≤ avg ≤ max) |
| Aggregate.SumAtLeast | sensors_v2.py:241 | the sum of the present readings is at least `count` times a lower bound |
| Aggregate.SumAtMost | sensors_v2.py:241 | the sum of the present readings is at most `count` times an upper bound |
| Aggregate.PumpRule | sensors_v2.py:244-249 | the pump is ON exactly when some slot holds a reading and the total of the readings exceeds 22000 millidegrees times their number |
| Aggregate.PumpOnNeedsWarmReading | sensors_v2.py:244-249 | the pump is ON only if some present reading exceeds the threshold |
| Aggregate.AllWarmTurnsPumpOn | sensors_v2.py:244-249 | with at least one reading, all above the threshold, the pump is ON |
| Aggregate.ThresholdIsOff | sensors_v2.py:47 | a mean exactly at 22.0 °C leaves the pump OFF (strict comparison) |
| Aggregate.RoundMean | app2.py:60 | the rounded mean is within half a millidegree of the exact mean |
| Aggregate.RoundDiv | sensors_v2.py:253-254 | rounding a quotient lands within half a unit of it |
| CsvLog.Frac3 | sensors_v2.py:253-254 | the three fraction digits are digits and read back as the millidegree remainder |
| CsvLog.Magnitude | sensors_v2.py:253-254 | the unsigned part of the rendering is the magnitude of the mean rounded to the nearest millidegree |
| CsvLog.UnsignedRoundTrip | sensors_v2.py:253-254 | `digits.ddd` of a magnitude reads back as that magnitude |
| CsvLog.SignedRoundTrip | sensors_v2.py:253-254 | a leading minus negates what the unsigned part reads as |
| CsvLog.FormatMilliRoundTrip | sensors_v2.py:253-254 | a `:.3f` rendering reads back as the value rounded to the nearest millidegree, sign included |
| CsvLog.FormatReadingExact | sensors_v2.py:253 | a single reading's column reads back as exactly that reading |
| CsvLog.FormatMilliCommaFree | sensors_v2.py:253-254 | a rendered value never contains the separator |
| CsvLog.Header | sensors_v2.py:97 | the header has one column per alias plus four |
| CsvLog.Row | sensors_v2.py:253-256 | a row has one column per reading plus four |
| CsvLog.RowMatchesHeader | sensors_v2.py:97 | a row of three readings has as many columns as the header, 7, and its last column is the row number |
| CsvLog.RowFields | sensors_v2.py:253-256 | a reading column is empty exactly for an absent reading and otherwise reads back as it; `avg_c` is empty exactly without a mean and otherwise reads back as the rounded mean; `bomba_state` is `ON` exactly when the pump is on; `consecutivo` reads back as the counter |
| CsvLog.RowCommaFree | sensors_v2.py:253-256 | no column contains a comma when the timestamp does not |
| CsvLog.RowLineRoundTrip | sensors_v2.py:101-104 | a written line ends in a newline, and the text before it splits back on commas into the row's columns |
| CsvLog.HeaderLineRoundTrip | sensors_v2.py:97-99 | the header line ends in a newline, and the text before it splits back on commas into its 7 column names |
| Gpio.ConfiguredPolarity | sensors_v2.py:60 | with `BOMBA_ACTIVE_LEVEL` as configured, a relay is switched on by HIGH and off by LOW |
| Gpio.LevelsComplementary | sensors_v2.py:140-144 | the active and inactive levels differ for either polarity setting |
| Gpio.LevelFor | sensors_v2.py:151-155 | the level written is the active one exactly when the relay is to be on |
| Gpio.LastLevel | sensors_v2.py:149 | a pin has no last level exactly when nothing was ever set up on or written to it |
| Gpio.LastLevelOther | sensors_v2.py:163-167 | writes to other pins and a cleanup leave a pin's last level alone |
| Gpio.LastLevelDrive | sensors_v2.py:151-152 | after a write the pin's last level is the one written |
| Control.SlotPadding | sensors_v2.py:231-237 | every tick has exactly three readings, absent past the assigned sensors; with none assigned the mean is absent and the pump OFF |
| Control.ReadSlots | sensors_v2.py:231-237 | the tick's readings are the reader's results for the assigned slots and `None` for the rest |
| Control.Controller.constructor | sensors_v2.py:221-224 | the header over the aliases is written, both outputs are set up inactive and the pump is switched off, with no row yet |
| Control.Controller.Tick | sensors_v2.py:228-257 | the pump is ON exactly by the threshold rule on the tick's mean; the pump pin is written accordingly; the counter goes up by one; the row is built from this tick's values and appended; relay V is untouched |
| Control.Controller.SetPump | sensors_v2.py:151-155 | the pump pin is written with the level for the requested state and nothing else changes |
| Control.Controller.AppendRow | sensors_v2.py:252-257 | the counter goes up by one and the row numbered with it is appended |
| Control.Controller.OnTriggerEdge | sensors_v2.py:169-179 | relay V becomes active exactly when the input reads high, whatever the pump's state; a failed read changes nothing |
| Control.Controller.Shutdown | sensors_v2.py:274-277 | the pump and then relay V are driven inactive, then the pins are released; rows and counter are kept |
| Control.Step | sensors_v2.py:226-257 | a tick sets the pump by the threshold rule on its own readings, appends its row numbered one past the counter and leaves relay V; an edge (handled as `_on_trigger_edge`) with a read level sets relay V active exactly for high and leaves the pump and the rows; a failed read changes nothing; the controller stays consistent |
| Control.Run | sensors_v2.py:226-268 | the loop keeps the controller consistent; the rows only grow, by each tick's row in order, numbered on from the counter; pump, relay V and pin record are those the stimuli give one by one |
| Control.SampleRowsCount | sensors_v2.py:252-257 | a run writes exactly one row per tick |
| Control.ReleVFollowsLastEdge | sensors_v2.py:169-179 | after a run relay V is active exactly when the last successfully read edge read high, whatever ticks followed |
| Control.PumpFollowsLastTick | sensors_v2.py:243-249 | after a run the pump is in the state the last tick decided from its own readings, whatever edges followed |
| Control.SetupEvents | sensors_v2.py:221-224 | start-up makes three pin operations: both outputs set up, then the pump written |
| Control.ShutdownEvents | sensors_v2.py:274-277 | the `finally` block makes three pin operations: two writes and the cleanup |
| Control.RunController | sensors_v2.py:200-277 | with no sensor discovered nothing is set up; otherwise the first three are assigned, the rows are exactly the ticks' rows numbered from 1, and the pin record is the setup writes, the stimuli's writes in order, then both outputs driven inactive and a cleanup |
| Dashboard.DictSet | app2.py:58 | an assignment adds at most one entry to the dictionary |
| Dashboard.DictSetNew | app2.py:58 | assigning to a key not yet present appends the pair at the end of the insertion order |
| Dashboard.DictSetExisting | app2.py:58 | assigning to a present key replaces its value in place, keeping its position and every other entry |
| Dashboard.DictSetDistinct | app2.py:58 | an assignment never makes a key appear twice |
| Dashboard.DictSlots | app2.py:49-58 | assigning distinct keys in order gives one entry per key, in slot order, each with its slot's value |
| Dashboard.TempsSlots | app2.py:49-58 | with distinct slot keys the dictionary has exactly three entries, slot `idx` under its alias (or `sensor_{idx+1}`) with the reader's result, or `None` past the stored sensors |
| Dashboard.DictDistinct | app2.py:49-58 | the dictionary never holds a key twice and has between one and as many entries as slots |
| Dashboard.SensorAliasesDistinct | sensors_v2.py:62 | the configured aliases give three distinct keys |
| Dashboard.FallbackCollision | app2.py:50 | a fallback key can coincide with a configured alias, leaving fewer than three entries |
| Dashboard.RoundedAverage | app2.py:59-60 | the average is `None` exactly when no value is present, and otherwise within half a millidegree of the exact mean of the present values |
| Dashboard.Dashboard.constructor | app2.py:21-22 | the shared sensor list starts empty |
| Dashboard.Dashboard.DiscoverOnce | app2.py:63-65 | the discovered IDs are the sorted `28-` entries; the stored list has min(aliases, IDs, 3) entries, entry `i` pairing alias `i` with ID `i` |
| Dashboard.Dashboard.ReadAllTemperatures | app2.py:45-61 | the dictionary is the three slots stored in order with Python dict assignment, and the average is the rounded mean of its values |
| Dashboard.ActionOf | app2.py:114 | looking up `action` fails exactly for a truthy non-object body, and finds a value exactly when the body is an object with that key; the value found is the body's `action` |
| Dashboard.Dispatch | app2.py:115-121 | the reply is 200 exactly for `on` or `off`, with a single write of the matching level to the pin; anything else writes nothing; a failed lookup is a 500 |
| Dashboard.ApiBombaDispatch | app2.py:112-121 | success exactly for an `on`/`off` action; `on` makes exactly the one write `bomba_on` makes (pump pin active), `off` exactly the one `bomba_off` makes (inactive); any other body writes nothing and is a 400, or a 500 for a truthy non-object body; relay V is never written |
| Dashboard.ApiRelevUnavailable | app2.py:125-126 | without `rele_v_on` every request is a 400 with no write, whatever its body |
| Dashboard.ApiRelevDispatch | app2.py:127-134 | with relay V available the status matches the pump endpoint's; `on` makes exactly the one write `rele_v_on` makes (relay V active), `off` exactly the one `rele_v_off` makes; a refused request writes nothing; the pump pin is never written |

## Left out

- File I/O is not modelled. This covers creating `mediciones/`, the timestamped
  file name, the header-exists check and the appends themselves. The header and
  rows are values, and the controller keeps them as a ghost log.
- Each sensor read is a parameter: the sequence of outcomes its `w1_slave` file
  would give, each a text or an I/O error.
- Other things that become parameters: the directory listing, whether the bus
  exists, timestamps (opaque strings) and what `GPIO.input` returns.
- GPIO calls are recorded as a ghost list of setup, write and cleanup events,
  not performed. The trigger pin's input setup, its event detection and the
  150 ms debounce (sensors_v2.py:181-185) are not modelled. The trigger
  callback is a method that can be interleaved with ticks.
- `time.sleep` between retries and between ticks is not modelled, and neither
  is `datetime.now()`.
- The endless `while True` loop becomes a finite list of stimuli processed
  until the interrupt.
- Console output is not modelled, including the fewer-than-3-sensors warning.
- Floating point is replaced by exact millidegrees:
  - `milic / 1000.0` then `:.3f` is taken to print the millidegrees exactly;
  - the float mean and `avg > 22.0` are taken to be exact, so binary rounding
    of the float sum at the threshold is not modelled;
  - `round(x, 3)` and `:.3f` are modelled as "within half a millidegree", so
    the tie direction is not modelled (`RoundDiv` rounds halves away from zero).
- Aggregate.RoundMean: does not state which way a tie goes, because the
  float `round` the dashboard uses rounds binary values and cannot be
  expressed exactly on millidegrees.
- PyText.PyInt and the digit check recognise ASCII digits only. Python's
  `isdigit` also accepts other Unicode digits, and `int()` accepts underscores
  between digits; neither is modelled.
- `gpio_status`, the web routes `/` and `/api/status`, `render_template`,
  `jsonify`, Socket.IO emission, the background reader thread and
  `start_bg` are not modelled; they are web plumbing and concurrency.
- Two details of the dashboard are not modelled:
  - its module-level GPIO setup, which drives both outputs LOW at import;
  - Flask's handling of a request with a non-JSON content type.
- The code has no time- or change-based gating of telemetry and no pump
  hysteresis, so the model has none either. With no sensor discovered,
  `main` returns before the CSV header and the GPIO setup
  (sensors_v2.py:212-214).
- The edge callback runs on its own thread and stays armed until
  `GPIO.cleanup()` (sensors_v2.py:185, 277). In the model an edge is a
  stimulus handled between ticks, and `Shutdown` is one atomic step. An edge
  between `rele_v_off()` and `GPIO.cleanup()` (sensors_v2.py:276-277) would
  switch relay V back on; `RunController`'s claim that both outputs end
  inactive relies on that atomic shutdown.
- GPIO calls never fail in the model. In the code, a raise in `bomba_on()`
  (sensors_v2.py:245) leaves the loop, and a raise in `bomba_off()` inside
  `finally` (sensors_v2.py:275) skips `rele_v_off()` and `GPIO.cleanup()`.
- The interrupt is taken only between stimuli. A `KeyboardInterrupt`
  between the pump write and the CSV append (sensors_v2.py:245-257) leaves a
  pump write with no row; the model does not produce that state.
- `pi_dashboard/app.py` is line-for-line the same as `app2.py`, so the
  dashboard model covers it.
