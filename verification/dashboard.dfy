/**
 * The web dashboard's side of the controller: the shared sensor list filled
 * by `discover_once`, the three-slot temperature dictionary and rounded mean
 * of `read_all_temperatures`, and the action dispatch of the pump and relay V
 * endpoints.
 */
module Dashboard {
  import opened Optional
  import opened PyText
  import opened Ds18b20
  import opened Discovery
  import opened Aggregate
  import opened Gpio

  /** An entry of `_state["sensors"]`. */
  datatype Slot = Slot(alias: string, path: string)

  /** What calling the sensor reader on a slot's path does: raise, or read the file with these outcomes. */
  datatype Probe = Raises | Returns(outcomes: seq<RawRead>)

  predicate ProbeReady(p: Probe) {
    p.Returns? ==> |p.outcomes| >= Reintentos
  }

  /** The reader's value for a slot, `None` when it raised. */
  function ProbeValue(p: Probe): Option<int>
    requires ProbeReady(p)
  {
    match p
    case Raises => None
    case Returns(outcomes) => Reading(outcomes)
  }

  /** A Python dict as its (key, value) pairs in insertion order. */
  type Dict = seq<(string, Option<int>)>

  ghost predicate DistinctKeys(d: Dict) {
    forall i, j :: 0 <= i < j < |d| ==> d[i].0 != d[j].0
  }

  /** `d[key] = value`. */
  function DictSet(d: Dict, key: string, value: Option<int>): (r: Dict)
    ensures |d| <= |r| <= |d| + 1
  {
    if |d| == 0 then [(key, value)]
    else if d[0].0 == key then [(key, value)] + d[1..]
    else [d[0]] + DictSet(d[1..], key, value)
  }

  /** A new key goes last, after every existing entry. */
  lemma {:induction false} DictSetNew(d: Dict, key: string, value: Option<int>)
    requires forall i :: 0 <= i < |d| ==> d[i].0 != key
    ensures DictSet(d, key, value) == d + [(key, value)]
  {
    if |d| > 0 {
      assert d[0].0 != key;
      DictSetNew(d[1..], key, value);
      assert d == [d[0]] + d[1..];
    }
  }

  /** An existing key keeps its place and takes the new value; every other entry stays. */
  lemma {:induction false} DictSetExisting(d: Dict, key: string, value: Option<int>, k: nat)
    requires k < |d| && d[k].0 == key
    requires forall i :: 0 <= i < k ==> d[i].0 != key
    ensures DictSet(d, key, value) == d[k := (key, value)]
  {
    if k > 0 {
      assert d[0].0 != key;
      DictSetExisting(d[1..], key, value, k - 1);
      assert d[1..][k - 1 := (key, value)] == d[k := (key, value)][1..];
    }
  }

  /** Storing under a key never duplicates it. */
  lemma DictSetDistinct(d: Dict, key: string, value: Option<int>)
    requires DistinctKeys(d)
    ensures DistinctKeys(DictSet(d, key, value))
  {
    if k :| 0 <= k < |d| && d[k].0 == key {
      DictSetExisting(d, key, value, k);
      var r := DictSet(d, key, value);
      forall i, j | 0 <= i < j < |r| ensures r[i].0 != r[j].0 {
        assert r[i].0 == d[i].0 && r[j].0 == d[j].0;
      }
    } else {
      DictSetNew(d, key, value);
    }
  }

  /** The dictionary key of slot `idx`: its alias, or `sensor_{idx+1}` past the end of the alias list. */
  function AliasAt(aliases: seq<string>, idx: nat): string {
    if idx < |aliases| then aliases[idx] else "sensor_" + NatToDigits(idx + 1)
  }

  /** Slot `idx`'s value: the reader's result for an assigned slot, `None` otherwise. */
  function SlotValue(count: nat, probes: seq<Probe>, idx: nat): Option<int>
    requires idx < |probes| && ProbeReady(probes[idx])
  {
    if idx < count then ProbeValue(probes[idx]) else None
  }

  predicate ProbesReady(probes: seq<Probe>) {
    |probes| == 3 && forall i :: 0 <= i < 3 ==> ProbeReady(probes[i])
  }

  /** The three slot keys. */
  function SlotKeys(aliases: seq<string>): (keys: seq<string>)
    ensures |keys| == 3 && forall i :: 0 <= i < 3 ==> keys[i] == AliasAt(aliases, i)
  {
    [AliasAt(aliases, 0), AliasAt(aliases, 1), AliasAt(aliases, 2)]
  }

  /** The three slot values. */
  function SlotValues(count: nat, probes: seq<Probe>): (vals: seq<Option<int>>)
    requires ProbesReady(probes)
    ensures |vals| == 3 && forall i :: 0 <= i < 3 ==> vals[i] == SlotValue(count, probes, i)
  {
    [SlotValue(count, probes, 0), SlotValue(count, probes, 1), SlotValue(count, probes, 2)]
  }

  /** The dictionary after storing the first `n` values under their keys, in order. */
  function DictFrom(keys: seq<string>, vals: seq<Option<int>>, n: nat): Dict
    requires n <= |keys| == |vals|
  {
    if n == 0 then [] else DictSet(DictFrom(keys, vals, n - 1), keys[n - 1], vals[n - 1])
  }

  /** `temps.values()`. */
  function Values(d: Dict): (vs: seq<Option<int>>)
    ensures |vs| == |d| && forall i :: 0 <= i < |d| ==> vs[i] == d[i].1
  {
    seq(|d|, i requires 0 <= i < |d| => d[i].1)
  }

  /** `round(sum(valid) / len(valid), 3)` over the dictionary's present values, `None` when there are none. */
  function RoundedAverage(d: Dict): (avg: Option<int>)
    ensures avg.None? <==> forall i :: 0 <= i < |d| ==> d[i].1.None?
    ensures avg.Some? ==>
      var m := Average(Values(d)).value;
      -(m.count as int) <= 2 * (avg.value * m.count - m.sum) <= m.count
  {
    match Average(Values(d))
    case None => None
    case Some(m) => Some(RoundMean(m))
  }

  /**
   * With distinct keys, the dictionary holds one entry per stored slot, in
   * slot order: the slot's key with the slot's value.
   */
  lemma {:induction false} DictSlots(keys: seq<string>, vals: seq<Option<int>>, n: nat)
    requires n <= |keys| == |vals|
    requires forall i, j :: 0 <= i < j < |keys| ==> keys[i] != keys[j]
    ensures var d := DictFrom(keys, vals, n);
      |d| == n && forall i :: 0 <= i < n ==> d[i] == (keys[i], vals[i])
  {
    if n > 0 {
      DictSlots(keys, vals, n - 1);
      var d := DictFrom(keys, vals, n - 1);
      forall i | 0 <= i < |d| ensures d[i].0 != keys[n - 1] {
        assert d[i] == (keys[i], vals[i]);
      }
      DictSetNew(d, keys[n - 1], vals[n - 1]);
      var r := DictSet(d, keys[n - 1], vals[n - 1]);
      forall i | 0 <= i < n ensures r[i] == (keys[i], vals[i]) {
        if i < n - 1 {
          assert r[i] == d[i];
        }
      }
    }
  }

  /** The dictionary never holds a key twice, and has between one and `n` entries. */
  lemma {:induction false} DictDistinct(keys: seq<string>, vals: seq<Option<int>>, n: nat)
    requires n <= |keys| == |vals|
    ensures DistinctKeys(DictFrom(keys, vals, n))
    ensures 1 <= n ==> 1 <= |DictFrom(keys, vals, n)| <= n
  {
    if n > 0 {
      DictDistinct(keys, vals, n - 1);
      DictSetDistinct(DictFrom(keys, vals, n - 1), keys[n - 1], vals[n - 1]);
    }
  }

  /**
   * `read_all_temperatures`' dictionary with the three slot keys distinct:
   * three entries, slot `idx` under `AliasAt(idx)` with the slot's value.
   */
  lemma TempsSlots(aliases: seq<string>, count: nat, probes: seq<Probe>)
    requires ProbesReady(probes)
    requires forall i, j :: 0 <= i < j < 3 ==> AliasAt(aliases, i) != AliasAt(aliases, j)
    ensures var d := DictFrom(SlotKeys(aliases), SlotValues(count, probes), 3);
      && |d| == 3
      && forall i :: 0 <= i < 3 ==> d[i] == (AliasAt(aliases, i), SlotValue(count, probes, i))
  {
    DictSlots(SlotKeys(aliases), SlotValues(count, probes), 3);
  }

  /** With `SENSOR_ALIASES` of `sensor_1`..`sensor_3`, the three keys differ. */
  lemma SensorAliasesDistinct(aliases: seq<string>)
    requires aliases == ["sensor_1", "sensor_2", "sensor_3"]
    ensures forall i, j :: 0 <= i < j < 3 ==> AliasAt(aliases, i) != AliasAt(aliases, j)
  {
    assert aliases[0][7] == '1' && aliases[1][7] == '2' && aliases[2][7] == '3';
  }

  /**
   * A fallback key can collide with a configured alias: with the single alias
   * `sensor_2`, slots 0 and 1 share a key and the dictionary has two entries.
   */
  lemma FallbackCollision(vals: seq<Option<int>>)
    requires |vals| == 3
    ensures |DictFrom(SlotKeys(["sensor_2"]), vals, 3)| == 2
  {
    var keys := SlotKeys(["sensor_2"]);
    assert NatToDigits(2) == "2" && NatToDigits(3) == "3";
    assert "sensor_" + "2" == "sensor_2" && "sensor_" + "3" == "sensor_3";
    assert keys == ["sensor_2", "sensor_2", "sensor_3"];
    assert DictFrom(keys, vals, 0) == [];
    var d1 := DictFrom(keys, vals, 1);
    assert d1 == [("sensor_2", vals[0])];
    var d2 := DictFrom(keys, vals, 2);
    DictSetExisting(d1, "sensor_2", vals[1], 0);
    assert d2 == [("sensor_2", vals[1])];
    assert "sensor_3" != "sensor_2" by { assert "sensor_3"[7] != "sensor_2"[7]; }
    DictSetNew(d2, "sensor_3", vals[2]);
    assert DictFrom(keys, vals, 3) == DictSet(d2, "sensor_3", vals[2]);
  }

  class Dashboard {
    /** `_state["sensors"]`. */
    var sensors: seq<Slot>

    constructor ()
      ensures sensors == []
    {
      sensors := [];
    }

    /**
     * `discover_once`: discover the sensors and pair the aliases with the
     * first three IDs, stopping at the shorter list.
     */
    method DiscoverOnce(aliases: seq<string>, busPresent: bool, entries: seq<string>) returns (ids: seq<string>)
      modifies this
      ensures !busPresent ==> ids == []
      ensures busPresent ==> Sorted(ids) && multiset(ids) == multiset(Family28(entries))
      ensures |sensors| == Min(Min(|aliases|, |ids|), 3)
      ensures forall i :: 0 <= i < |sensors| ==> sensors[i] == Slot(aliases[i], ids[i])
    {
      ids := Discover(busPresent, entries);
      var first := if |ids| < 3 then ids else ids[..3];
      var n := Min(|aliases|, |first|);
      sensors := seq(n, i requires 0 <= i < n => Slot(aliases[i], first[i]));
    }

    /**
     * `read_all_temperatures`: one dictionary entry per slot under its key,
     * the reader's result for the stored sensors and `None` for the rest,
     * and the rounded mean of the present values.
     */
    method ReadAllTemperatures(aliases: seq<string>, probes: seq<Probe>) returns (temps: Dict, avg: Option<int>)
      requires ProbesReady(probes)
      ensures temps == DictFrom(SlotKeys(aliases), SlotValues(|sensors|, probes), 3)
      ensures avg == RoundedAverage(temps)
    {
      temps := [];
      for idx := 0 to 3
        invariant temps == DictFrom(SlotKeys(aliases), SlotValues(|sensors|, probes), idx)
      {
        var alias := if idx < |aliases| then aliases[idx] else "sensor_" + NatToDigits(idx + 1);
        var t: Option<int>;
        if idx < |sensors| {
          match probes[idx]
          case Raises =>
            t := None;
          case Returns(outcomes) =>
            var attempts;
            t, attempts := ReadDs18b20(outcomes);
        } else {
          t := None;
        }
        assert alias == SlotKeys(aliases)[idx];
        assert t == SlotValues(|sensors|, probes)[idx];
        temps := DictSet(temps, alias, t);
      }
      avg := RoundedAverage(temps);
    }
  }

  function Min(a: nat, b: nat): nat {
    if a < b then a else b
  }

  /** A request's JSON body, as far as the endpoints look at it. */
  datatype Json = JStr(s: string) | JOther
  datatype Body = NoBody | Object(fields: map<string, Json>) | OtherJson(truthy: bool)

  /** `(request.json or {}).get("action")`: absent, a value, or an exception (a truthy non-object body). */
  datatype ActionLookup = Missing | Found(value: Json) | Fails

  function ActionOf(body: Body): (a: ActionLookup)
    ensures a.Fails? <==> body.OtherJson? && body.truthy
    ensures a.Found? <==> body.Object? && "action" in body.fields
    ensures a.Found? ==> a.value == body.fields["action"]
  {
    match body
    case NoBody => Missing
    case OtherJson(truthy) => if truthy then Fails else Missing
    case Object(fields) => if "action" in fields then Found(fields["action"]) else Missing
  }

  /** An HTTP status and the pin writes the request caused. */
  datatype Reply = Reply(status: nat, writes: seq<Event>)

  /** The shared on/off dispatch onto one relay pin. */
  function Dispatch(action: ActionLookup, pin: int, activeLevel: int): (r: Reply)
    ensures r.status == 200 <==> action in {Found(JStr("on")), Found(JStr("off"))}
    ensures r.status == 200 ==> r.writes == [Drive(pin, LevelFor(activeLevel, action == Found(JStr("on"))))]
    ensures r.status != 200 ==> r.writes == []
    ensures r.status == 500 <==> action.Fails?
  {
    match action
    case Fails => Reply(500, [])
    case Found(JStr(s)) =>
      if s == "on" then Reply(200, [Drive(pin, NivelActivo(activeLevel))])
      else if s == "off" then Reply(200, [Drive(pin, NivelInactivo(activeLevel))])
      else Reply(400, [])
    case _ => Reply(400, [])
  }

  /** `POST /api/bomba`. */
  function ApiBomba(body: Body, activeLevel: int): Reply {
    Dispatch(ActionOf(body), BombaPin, activeLevel)
  }

  /** `POST /api/relev`; `hasReleV` is whether the sensor module provides `rele_v_on`. */
  function ApiRelev(hasReleV: bool, body: Body, activeLevel: int): Reply {
    if !hasReleV then Reply(400, []) else Dispatch(ActionOf(body), ReleVPin, activeLevel)
  }

  /**
   * The pump endpoint: action `on` makes the one write `bomba_on` makes
   * (the pump pin driven active), `off` the one write `bomba_off` makes
   * (driven inactive); any other action, no action or no body is a 400, and
   * a truthy non-object body a 500, with no pin written.
   */
  lemma ApiBombaDispatch(body: Body, activeLevel: int)
    ensures var r := ApiBomba(body, activeLevel);
      && (r.status == 200 <==> body.Object? && "action" in body.fields && body.fields["action"] in {JStr("on"), JStr("off")})
      && (r.status == 200 && body.fields["action"] == JStr("on") ==> r.writes == [Drive(BombaPin, NivelActivo(activeLevel))])
      && (r.status == 200 && body.fields["action"] == JStr("off") ==> r.writes == [Drive(BombaPin, NivelInactivo(activeLevel))])
      && (r.status != 200 ==> r.writes == [])
      && (r.status == 400 <==> !(body.OtherJson? && body.truthy) && r.status != 200)
      && (r.status == 500 <==> body.OtherJson? && body.truthy)
      && (forall k :: 0 <= k < |r.writes| ==> r.writes[k].Drive? && r.writes[k].pin == BombaPin)
      && LastLevel(r.writes, ReleVPin).None?
  {
  }

  /** Without `rele_v_on` the relay endpoint refuses every request without looking at it. */
  lemma ApiRelevUnavailable(body: Body, activeLevel: int)
    ensures ApiRelev(false, body, activeLevel) == Reply(400, [])
  {
  }

  /**
   * With relay V available, its endpoint dispatches exactly like the pump's,
   * onto relay V's pin: `on` is the one write `rele_v_on` makes, `off` the
   * one `rele_v_off` makes, and a refused request writes nothing.
   */
  lemma ApiRelevDispatch(body: Body, activeLevel: int)
    ensures var r := ApiRelev(true, body, activeLevel);
      && r.status == ApiBomba(body, activeLevel).status
      && (r.status == 200 <==> body.Object? && "action" in body.fields && body.fields["action"] in {JStr("on"), JStr("off")})
      && (r.status == 200 ==> LastLevel(r.writes, ReleVPin) == Some(LevelFor(activeLevel, body.fields["action"] == JStr("on"))))
      && (r.status == 200 && body.fields["action"] == JStr("on") ==> r.writes == [Drive(ReleVPin, NivelActivo(activeLevel))])
      && (r.status == 200 && body.fields["action"] == JStr("off") ==> r.writes == [Drive(ReleVPin, NivelInactivo(activeLevel))])
      && (r.status != 200 ==> r.writes == [])
      && LastLevel(r.writes, BombaPin).None?
  {
  }
}
