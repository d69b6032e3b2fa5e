/**
 * The sampling loop of the standalone controller: slot assignment, the
 * per-tick read / average / pump decision / CSV row, the trigger callback
 * that makes relay V follow the input pin, and the shutdown in `finally`.
 */
module Control {
  import opened Optional
  import opened PyText
  import opened Ds18b20
  import opened Discovery
  import opened Aggregate
  import opened CsvLog
  import opened Gpio

  /**
   * What the sensor files would give on one tick: for each of the three
   * slots, the results of successive reads of its `w1_slave` file.
   */
  predicate Probes(env: seq<seq<RawRead>>) {
    |env| == 3 && forall i :: 0 <= i < 3 ==> |env[i]| >= Reintentos
  }

  /** A tick's `lecturas` when `assignedCount` sensors are assigned. */
  function SlotReadings(assignedCount: nat, env: seq<seq<RawRead>>): (lecturas: seq<Option<int>>)
    requires Probes(env)
  {
    seq(3, i requires 0 <= i < 3 => if i < assignedCount then Reading(env[i]) else None)
  }

  /**
   * Every tick has exactly three readings; the slots past the assigned
   * sensors are always absent, and with no reading at all the pump is OFF
   * and the row's mean is empty.
   */
  lemma SlotPadding(assignedCount: nat, env: seq<seq<RawRead>>)
    requires Probes(env)
    ensures |SlotReadings(assignedCount, env)| == |SensorAliases|
    ensures forall i :: assignedCount <= i < 3 ==> SlotReadings(assignedCount, env)[i].None?
    ensures assignedCount == 0 ==> Average(SlotReadings(assignedCount, env)).None?
    ensures assignedCount == 0 ==> !PumpOn(Average(SlotReadings(assignedCount, env)))
  {
  }

  /** Step 4 of the loop: read the assigned slots in order, padding the rest with `None`. */
  method ReadSlots(assignedCount: nat, env: seq<seq<RawRead>>) returns (lecturas: seq<Option<int>>)
    requires Probes(env)
    ensures lecturas == SlotReadings(assignedCount, env)
  {
    lecturas := [];
    for i := 0 to 3
      invariant |lecturas| == i
      invariant forall j :: 0 <= j < i ==> lecturas[j] == SlotReadings(assignedCount, env)[j]
    {
      var t: Option<int>;
      if i < assignedCount {
        var attempts;
        t, attempts := ReadDs18b20(env[i]);
      } else {
        t := None;
      }
      lecturas := lecturas + [t];
    }
  }

  /** The number of sampling ticks among the stimuli. */
  function CountSamples(stimuli: seq<Stimulus>): (n: nat)
    ensures n <= |stimuli|
  {
    if |stimuli| == 0 then 0
    else CountSamples(stimuli[..|stimuli| - 1]) + (if stimuli[|stimuli| - 1].Sample? then 1 else 0)
  }

  /**
   * What happens to a running controller, in order: a sampling tick at a
   * timestamp with what the sensor files give, or an edge on the trigger pin
   * with what `GPIO.input` returned (`None` when it raised).
   */
  datatype Stimulus = Sample(ts: string, env: seq<seq<RawRead>>) | Edge(input: Option<Level>)

  /** Rows of the 7 header columns, the `k`-th numbered `k + 1`. */
  ghost predicate Numbered(rows: seq<seq<string>>) {
    forall k :: 0 <= k < |rows| ==> |rows[k]| == 7 && rows[k][6] == NatToDigits(k + 1)
  }

  lemma NumberedAppend(rows: seq<seq<string>>, row: seq<string>)
    requires Numbered(rows)
    requires |row| == 7 && row[6] == NatToDigits(|rows| + 1)
    ensures Numbered(rows + [row])
  {
  }

  class Controller {
    /** `sensores_asignados`: at most the first three discovered sensors. */
    const assignedIds: seq<string>
    /** `BOMBA_ACTIVE_LEVEL`. */
    const activeLevel: int
    /** `estado_bomba`. */
    var pumpOn: bool
    /** The logical state of relay V. */
    var releVOn: bool
    /** `consecutivo`: the number of the last row written. */
    var consecutivo: nat
    /** The header line's columns and the rows appended to the CSV log, in order. */
    ghost var header: seq<string>
    ghost var rows: seq<seq<string>>
    /** Every pin setup and write, in order. */
    ghost var trace: seq<Event>

    ghost predicate Valid()
      reads this
    {
      && 1 <= |assignedIds| <= 3
      && header == Header(SensorAliases)
      && |rows| == consecutivo
      && Numbered(rows)
      && LastLevel(trace, BombaPin) == Some(LevelFor(activeLevel, pumpOn))
      && LastLevel(trace, ReleVPin) == Some(LevelFor(activeLevel, releVOn))
    }

    /**
     * Step 3 of `main`: the header is written, both outputs are configured
     * at their inactive level, and the pump is switched off.
     */
    constructor (sensors: seq<string>, activeLevel: int)
      requires 1 <= |sensors| <= 3
      ensures Valid()
      ensures assignedIds == sensors && this.activeLevel == activeLevel
      ensures !pumpOn && !releVOn && consecutivo == 0 && rows == []
      ensures trace == SetupEvents(activeLevel)
    {
      assignedIds := sensors;
      this.activeLevel := activeLevel;
      header := Header(SensorAliases);
      rows := [];
      consecutivo := 0;
      releVOn := false;
      pumpOn := false;
      trace := SetupEvents(activeLevel);
    }

    /**
     * One pass of the sampling loop: read the three slots, average the
     * present readings, switch the pump ON exactly when the mean exceeds the
     * threshold, number the row one past the previous one and append it.
     */
    method Tick(ts: string, env: seq<seq<RawRead>>) returns (row: seq<string>)
      requires Valid() && Probes(env)
      modifies this
      ensures Valid()
      ensures var lecturas := SlotReadings(|assignedIds|, env);
        && pumpOn == PumpOn(Average(lecturas))
        && row == Row(ts, lecturas, Average(lecturas), pumpOn, consecutivo)
      ensures consecutivo == old(consecutivo) + 1
      ensures rows == old(rows) + [row]
      ensures trace == old(trace) + [Drive(BombaPin, LevelFor(activeLevel, pumpOn))]
      ensures releVOn == old(releVOn) && header == old(header)
    {
      var lecturas := ReadSlots(|assignedIds|, env);
      var avg := Average(lecturas);
      SetPump(avg.Some? && avg.value.sum > UmbralMilli * avg.value.count);
      row := Row(ts, lecturas, avg, pumpOn, consecutivo + 1);
      RowMatchesHeader(ts, lecturas, avg, pumpOn, consecutivo + 1);
      AppendRow(row);
    }

    /** `bomba_on` / `bomba_off`. */
    method SetPump(on: bool)
      requires Valid()
      modifies this
      ensures Valid()
      ensures pumpOn == on && trace == old(trace) + [Drive(BombaPin, LevelFor(activeLevel, on))]
      ensures releVOn == old(releVOn) && consecutivo == old(consecutivo)
      ensures rows == old(rows) && header == old(header)
    {
      if on {
        trace := trace + [Drive(BombaPin, NivelActivo(activeLevel))];
      } else {
        trace := trace + [Drive(BombaPin, NivelInactivo(activeLevel))];
      }
      pumpOn := on;
      LastLevelOther(old(trace), [Drive(BombaPin, LevelFor(activeLevel, on))], ReleVPin);
    }

    /** Step 7: count the row and append it to the log. */
    method AppendRow(row: seq<string>)
      requires Valid()
      requires |row| == 7 && row[6] == NatToDigits(consecutivo + 1)
      modifies this
      ensures Valid()
      ensures consecutivo == old(consecutivo) + 1 && rows == old(rows) + [row]
      ensures pumpOn == old(pumpOn) && releVOn == old(releVOn)
      ensures trace == old(trace) && header == old(header)
    {
      NumberedAppend(rows, row);
      consecutivo := consecutivo + 1;
      rows := rows + [row];
    }

    /**
     * `_on_trigger_edge`: relay V is driven active when the input reads high
     * and inactive when it reads low, whatever the pump is doing; a failed
     * read is swallowed and changes nothing.
     */
    method OnTriggerEdge(input: Option<Level>)
      requires Valid()
      modifies this
      ensures Valid()
      ensures input.None? ==> releVOn == old(releVOn) && trace == old(trace)
      ensures input.Some? ==>
        && releVOn == (input.value == High)
        && trace == old(trace) + [Drive(ReleVPin, LevelFor(activeLevel, releVOn))]
      ensures pumpOn == old(pumpOn) && consecutivo == old(consecutivo)
      ensures rows == old(rows) && header == old(header)
    {
      match input
      case None =>
      case Some(val) =>
        if val == High {
          trace := trace + [Drive(ReleVPin, NivelActivo(activeLevel))];
          releVOn := true;
        } else {
          trace := trace + [Drive(ReleVPin, NivelInactivo(activeLevel))];
          releVOn := false;
        }
        LastLevelOther(old(trace), [Drive(ReleVPin, LevelFor(activeLevel, releVOn))], BombaPin);
    }

    /** The `finally` block: both outputs driven inactive, then the pins released. */
    method Shutdown()
      requires Valid()
      modifies this
      ensures Valid()
      ensures !pumpOn && !releVOn
      ensures trace == old(trace) + ShutdownEvents(activeLevel)
      ensures consecutivo == old(consecutivo) && rows == old(rows) && header == old(header)
    {
      trace := trace + [Drive(BombaPin, NivelInactivo(activeLevel))];
      pumpOn := false;
      trace := trace + [Drive(ReleVPin, NivelInactivo(activeLevel))];
      releVOn := false;
      LastLevelOther(old(trace) + [Drive(BombaPin, NivelInactivo(activeLevel))],
                     [Drive(ReleVPin, NivelInactivo(activeLevel))], BombaPin);
      LastLevelOther(trace, [Cleanup], BombaPin);
      LastLevelOther(trace, [Cleanup], ReleVPin);
      trace := trace + [Cleanup];
    }
  }

  /** Every sampling tick among the stimuli comes with what the three sensor files give. */
  predicate Ready(stimuli: seq<Stimulus>) {
    forall k :: 0 <= k < |stimuli| && stimuli[k].Sample? ==> Probes(stimuli[k].env)
  }

  /** The row a sampling tick writes as row `number` when `assignedCount` sensors are assigned. */
  function SampleRow(assignedCount: nat, ts: string, env: seq<seq<RawRead>>, number: nat): seq<string>
    requires Probes(env)
  {
    var lecturas := SlotReadings(assignedCount, env);
    Row(ts, lecturas, Average(lecturas), PumpOn(Average(lecturas)), number)
  }

  /** The rows a stimulus writes: a tick writes its row as row `number`, an edge none. */
  function StepRows(assignedCount: nat, stimulus: Stimulus, number: nat): seq<seq<string>>
    requires stimulus.Sample? ==> Probes(stimulus.env)
  {
    match stimulus
    case Sample(ts, env) => [SampleRow(assignedCount, ts, env, number)]
    case Edge(_) => []
  }

  /** The pump state after a stimulus: a tick decides it afresh, an edge leaves it. */
  function NextPump(assignedCount: nat, stimulus: Stimulus, pumpOn: bool): bool
    requires stimulus.Sample? ==> Probes(stimulus.env)
  {
    match stimulus
    case Sample(_, env) => PumpOn(Average(SlotReadings(assignedCount, env)))
    case Edge(_) => pumpOn
  }

  /** Relay V after a stimulus: an edge with a read level sets it, anything else leaves it. */
  function NextReleV(stimulus: Stimulus, releVOn: bool): bool {
    match stimulus
    case Edge(Some(level)) => level == High
    case _ => releVOn
  }

  /** The pin writes a stimulus makes. */
  function StepEvents(activeLevel: int, assignedCount: nat, stimulus: Stimulus): seq<Event>
    requires stimulus.Sample? ==> Probes(stimulus.env)
  {
    match stimulus
    case Sample(_, env) => [Drive(BombaPin, LevelFor(activeLevel, PumpOn(Average(SlotReadings(assignedCount, env)))))]
    case Edge(None) => []
    case Edge(Some(level)) => [Drive(ReleVPin, LevelFor(activeLevel, level == High))]
  }

  /** The rows the ticks among the stimuli write, numbered on from `start`. */
  function SampleRows(assignedCount: nat, stimuli: seq<Stimulus>, start: nat): seq<seq<string>>
    requires Ready(stimuli)
  {
    if |stimuli| == 0 then []
    else
      var front := stimuli[..|stimuli| - 1];
      SampleRows(assignedCount, front, start)
        + StepRows(assignedCount, stimuli[|stimuli| - 1], start + CountSamples(front) + 1)
  }

  /** The pump state after the stimuli, starting from `pumpOn`. */
  function PumpAfter(assignedCount: nat, stimuli: seq<Stimulus>, pumpOn: bool): bool
    requires Ready(stimuli)
  {
    if |stimuli| == 0 then pumpOn
    else NextPump(assignedCount, stimuli[|stimuli| - 1], PumpAfter(assignedCount, stimuli[..|stimuli| - 1], pumpOn))
  }

  /** Relay V after the stimuli, starting from `releVOn`. */
  function ReleVAfter(stimuli: seq<Stimulus>, releVOn: bool): bool {
    if |stimuli| == 0 then releVOn
    else NextReleV(stimuli[|stimuli| - 1], ReleVAfter(stimuli[..|stimuli| - 1], releVOn))
  }

  /** The pin writes the stimuli make, in order. */
  function RunEvents(activeLevel: int, assignedCount: nat, stimuli: seq<Stimulus>): seq<Event>
    requires Ready(stimuli)
  {
    if |stimuli| == 0 then []
    else
      RunEvents(activeLevel, assignedCount, stimuli[..|stimuli| - 1])
        + StepEvents(activeLevel, assignedCount, stimuli[|stimuli| - 1])
  }

  /** Every tick writes exactly one row. */
  lemma {:induction false} SampleRowsCount(assignedCount: nat, stimuli: seq<Stimulus>, start: nat)
    requires Ready(stimuli)
    ensures |SampleRows(assignedCount, stimuli, start)| == CountSamples(stimuli)
    decreases |stimuli|
  {
    if |stimuli| > 0 {
      SampleRowsCount(assignedCount, stimuli[..|stimuli| - 1], start);
    }
  }

  /**
   * After a run, relay V is where the last edge with a successful read put
   * it, whatever ticks came later.
   */
  lemma {:induction false} ReleVFollowsLastEdge(stimuli: seq<Stimulus>, releVOn: bool, k: nat)
    requires k < |stimuli| && stimuli[k].Edge? && stimuli[k].input.Some?
    requires forall j :: k < j < |stimuli| ==> stimuli[j].Sample? || stimuli[j].input.None?
    ensures ReleVAfter(stimuli, releVOn) == (stimuli[k].input.value == High)
    decreases |stimuli|
  {
    var front := stimuli[..|stimuli| - 1];
    if k < |stimuli| - 1 {
      assert front[k] == stimuli[k];
      assert forall j :: k < j < |front| ==> front[j] == stimuli[j];
      ReleVFollowsLastEdge(front, releVOn, k);
    }
  }

  /**
   * After a run, the pump is in the state the last tick decided from its own
   * readings, whatever edges came later.
   */
  lemma {:induction false} PumpFollowsLastTick(assignedCount: nat, stimuli: seq<Stimulus>, pumpOn: bool, k: nat)
    requires Ready(stimuli) && k < |stimuli| && stimuli[k].Sample?
    requires forall j :: k < j < |stimuli| ==> stimuli[j].Edge?
    ensures PumpAfter(assignedCount, stimuli, pumpOn) == PumpOn(Average(SlotReadings(assignedCount, stimuli[k].env)))
    decreases |stimuli|
  {
    var front := stimuli[..|stimuli| - 1];
    assert Ready(front) by {
      assert forall j :: 0 <= j < |front| ==> front[j] == stimuli[j];
    }
    if k < |stimuli| - 1 {
      assert front[k] == stimuli[k];
      assert forall j :: k < j < |front| ==> front[j] == stimuli[j];
      PumpFollowsLastTick(assignedCount, front, pumpOn, k);
    }
  }

  /** Handling one more stimulus extends the run's rows, states and writes by that stimulus' own. */
  lemma RunOneMore(assignedCount: nat, activeLevel: int, stimuli: seq<Stimulus>, k: nat, start: nat, pumpOn: bool, releVOn: bool)
    requires Ready(stimuli) && k < |stimuli|
    ensures Ready(stimuli[..k]) && Ready(stimuli[..k + 1])
    ensures var before, s := stimuli[..k], stimuli[k];
      && CountSamples(stimuli[..k + 1]) == CountSamples(before) + (if s.Sample? then 1 else 0)
      && SampleRows(assignedCount, stimuli[..k + 1], start) == SampleRows(assignedCount, before, start) +
           StepRows(assignedCount, s, start + CountSamples(before) + 1)
      && PumpAfter(assignedCount, stimuli[..k + 1], pumpOn) == NextPump(assignedCount, s, PumpAfter(assignedCount, before, pumpOn))
      && ReleVAfter(stimuli[..k + 1], releVOn) == NextReleV(s, ReleVAfter(before, releVOn))
      && RunEvents(activeLevel, assignedCount, stimuli[..k + 1]) ==
           RunEvents(activeLevel, assignedCount, before) + StepEvents(activeLevel, assignedCount, s)
  {
    assert stimuli[..k + 1][..k] == stimuli[..k] && stimuli[..k + 1][k] == stimuli[k];
  }

  lemma Associative<T>(a: seq<T>, b: seq<T>, d: seq<T>)
    ensures a + b + d == a + (b + d)
  {
  }

  /** Hands one stimulus to a running controller. */
  method Step(c: Controller, stimulus: Stimulus)
    requires c.Valid()
    requires stimulus.Sample? ==> Probes(stimulus.env)
    modifies c
    ensures c.Valid()
    ensures c.consecutivo == old(c.consecutivo) + (if stimulus.Sample? then 1 else 0)
    ensures c.pumpOn == NextPump(|c.assignedIds|, stimulus, old(c.pumpOn))
    ensures c.releVOn == NextReleV(stimulus, old(c.releVOn))
    ensures c.rows == old(c.rows) + StepRows(|c.assignedIds|, stimulus, old(c.consecutivo) + 1)
    ensures c.trace == old(c.trace) + StepEvents(c.activeLevel, |c.assignedIds|, stimulus)
  {
    match stimulus
    case Sample(ts, env) =>
      var row := c.Tick(ts, env);
    case Edge(input) =>
      c.OnTriggerEdge(input);
  }

  /** Handles the stimuli in order: the body of the `while True` loop, until the interrupt. */
  method Run(c: Controller, stimuli: seq<Stimulus>)
    requires c.Valid() && Ready(stimuli)
    modifies c
    ensures c.Valid()
    ensures c.consecutivo == old(c.consecutivo) + CountSamples(stimuli)
    ensures c.rows == old(c.rows) + SampleRows(|c.assignedIds|, stimuli, old(c.consecutivo))
    ensures c.pumpOn == PumpAfter(|c.assignedIds|, stimuli, old(c.pumpOn))
    ensures c.releVOn == ReleVAfter(stimuli, old(c.releVOn))
    ensures c.trace == old(c.trace) + RunEvents(c.activeLevel, |c.assignedIds|, stimuli)
  {
    ghost var start, rows, pumpOn, releVOn, trace := c.consecutivo, c.rows, c.pumpOn, c.releVOn, c.trace;
    var k := 0;
    RunStateStart(|c.assignedIds|, c.activeLevel, start, rows, pumpOn, releVOn, trace);
    assert stimuli[..0] == [];
    while k < |stimuli|
      invariant 0 <= k <= |stimuli|
      invariant RunSoFar(c, stimuli, k, start, rows, pumpOn, releVOn, trace)
    {
      Advance(c, stimuli, k, start, rows, pumpOn, releVOn, trace);
      k := k + 1;
    }
    assert stimuli[..k] == stimuli;
  }

  /** The controller's state after the first `k` stimuli of a run that started in the given state. */
  ghost predicate RunSoFar(c: Controller, stimuli: seq<Stimulus>, k: nat, start: nat, rows: seq<seq<string>>,
                           pumpOn: bool, releVOn: bool, trace: seq<Event>)
    reads c
  {
    && k <= |stimuli| && Ready(stimuli)
    && c.Valid()
    && RunState(|c.assignedIds|, c.activeLevel, stimuli[..k], start, rows, pumpOn, releVOn, trace,
                c.consecutivo, c.rows, c.pumpOn, c.releVOn, c.trace)
  }

  /**
   * The values `consecutivo`, the rows, `estado_bomba`, relay V and the
   * trace hold after `handled`, for a run that started from `start`,
   * `rows`, `pumpOn`, `releVOn` and `trace`.
   */
  ghost predicate RunState(assignedCount: nat, activeLevel: int, handled: seq<Stimulus>, start: nat, rows: seq<seq<string>>,
                           pumpOn: bool, releVOn: bool, trace: seq<Event>, consecutivoNow: nat,
                           rowsNow: seq<seq<string>>, pumpNow: bool, releVNow: bool, traceNow: seq<Event>)
  {
    && Ready(handled)
    && consecutivoNow == start + CountSamples(handled)
    && rowsNow == rows + SampleRows(assignedCount, handled, start)
    && pumpNow == PumpAfter(assignedCount, handled, pumpOn)
    && releVNow == ReleVAfter(handled, releVOn)
    && traceNow == trace + RunEvents(activeLevel, assignedCount, handled)
  }

  /** Before any stimulus the run's state is the state it started in. */
  lemma RunStateStart(assignedCount: nat, activeLevel: int, start: nat, rows: seq<seq<string>>, pumpOn: bool,
                      releVOn: bool, trace: seq<Event>)
    ensures RunState(assignedCount, activeLevel, [], start, rows, pumpOn, releVOn, trace,
                     start, rows, pumpOn, releVOn, trace)
  {
    assert rows + [] == rows && trace + [] == trace;
  }

  /** One more stimulus, handled as `Step` handles it, extends the run's state by that stimulus. */
  lemma RunStateStep(assignedCount: nat, activeLevel: int, stimuli: seq<Stimulus>, k: nat, start: nat,
                     rows: seq<seq<string>>, pumpOn: bool, releVOn: bool, trace: seq<Event>,
                     cons0: nat, rows0: seq<seq<string>>, pump0: bool, releV0: bool, trace0: seq<Event>,
                     cons1: nat, rows1: seq<seq<string>>, pump1: bool, releV1: bool, trace1: seq<Event>)
    requires Ready(stimuli) && k < |stimuli|
    requires RunState(assignedCount, activeLevel, stimuli[..k], start, rows, pumpOn, releVOn, trace,
                      cons0, rows0, pump0, releV0, trace0)
    requires cons1 == cons0 + (if stimuli[k].Sample? then 1 else 0)
    requires pump1 == NextPump(assignedCount, stimuli[k], pump0)
    requires releV1 == NextReleV(stimuli[k], releV0)
    requires rows1 == rows0 + StepRows(assignedCount, stimuli[k], cons0 + 1)
    requires trace1 == trace0 + StepEvents(activeLevel, assignedCount, stimuli[k])
    ensures RunState(assignedCount, activeLevel, stimuli[..k + 1], start, rows, pumpOn, releVOn, trace,
                     cons1, rows1, pump1, releV1, trace1)
  {
    RunOneMore(assignedCount, activeLevel, stimuli, k, start, pumpOn, releVOn);
    Associative(rows, SampleRows(assignedCount, stimuli[..k], start), StepRows(assignedCount, stimuli[k], cons0 + 1));
    Associative(trace, RunEvents(activeLevel, assignedCount, stimuli[..k]), StepEvents(activeLevel, assignedCount, stimuli[k]));
  }

  /** One pass of the loop: handling stimulus `k` extends the run by it. */
  method Advance(c: Controller, stimuli: seq<Stimulus>, k: nat, ghost start: nat, ghost rows: seq<seq<string>>,
                 ghost pumpOn: bool, ghost releVOn: bool, ghost trace: seq<Event>)
    requires k < |stimuli| && RunSoFar(c, stimuli, k, start, rows, pumpOn, releVOn, trace)
    modifies c
    ensures RunSoFar(c, stimuli, k + 1, start, rows, pumpOn, releVOn, trace)
  {
    ghost var cons0, rows0, pump0, releV0, trace0 := c.consecutivo, c.rows, c.pumpOn, c.releVOn, c.trace;
    Step(c, stimuli[k]);
    RunStateStep(|c.assignedIds|, c.activeLevel, stimuli, k, start, rows, pumpOn, releVOn, trace,
                 cons0, rows0, pump0, releV0, trace0, c.consecutivo, c.rows, c.pumpOn, c.releVOn, c.trace);
  }

  /**
   * `main`: discover the sensors and assign the first three; with none, stop
   * before any log or pin is touched. Otherwise set up, handle the stimuli
   * in order until the run is interrupted, and shut down.
   */
  method RunController(busPresent: bool, entries: seq<string>, activeLevel: int, stimuli: seq<Stimulus>)
    returns (sensors: seq<string>, c: Controller?)
    requires Ready(stimuli)
    ensures !busPresent ==> sensors == []
    ensures busPresent ==> Sorted(sensors) && multiset(sensors) == multiset(Family28(entries))
    ensures c == null <==> sensors == []
    ensures c != null ==>
      && fresh(c) && c.Valid()
      && c.assignedIds == (if |sensors| < 3 then sensors else sensors[..3])
      && c.consecutivo == CountSamples(stimuli)
      && c.rows == SampleRows(|c.assignedIds|, stimuli, 0)
      && !c.pumpOn && !c.releVOn
      && c.trace == SetupEvents(activeLevel) + RunEvents(activeLevel, |c.assignedIds|, stimuli)
           + ShutdownEvents(activeLevel)
  {
    sensors := Discover(busPresent, entries);
    var chosen := if |sensors| < 3 then sensors else sensors[..3];
    if |chosen| == 0 {
      return sensors, null;
    }
    c := new Controller(chosen, activeLevel);
    Run(c, stimuli);
    c.Shutdown();
  }

  /** The setup writes of `main`: both outputs set up inactive, then `bomba_off`. */
  function SetupEvents(activeLevel: int): (events: seq<Event>)
    ensures |events| == 3
  {
    [Setup(BombaPin, NivelInactivo(activeLevel)), Setup(ReleVPin, NivelInactivo(activeLevel)),
     Drive(BombaPin, NivelInactivo(activeLevel))]
  }

  /** The writes of the `finally` block: pump, then relay V inactive, then the cleanup. */
  function ShutdownEvents(activeLevel: int): (events: seq<Event>)
    ensures |events| == 3
  {
    [Drive(BombaPin, NivelInactivo(activeLevel)), Drive(ReleVPin, NivelInactivo(activeLevel)), Cleanup]
  }
}
