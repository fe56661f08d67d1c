/** The energy side of the house monitor: simulated sensors emit power
    readings, and the monitor keeps the latest reading of every device and
    derives a snapshot (total, per room, per device) after each one.
    Watts are exact reals; the merged stream of all sensors is given as an
    already-interleaved sequence of readings. */
module Energia {
  import opened Wrappers
  import opened Utf16
  import opened LinkedMap

  /** `java.time.Instant`: carried along, never inspected. */
  datatype Instant = Instant(epochSecond: int, nano: int)

  /** One power reading of one device; the room is nullable. */
  datatype LeituraEnergia = LeituraEnergia(
    timestamp: Instant,
    deviceId: KStr,
    comodo: Option<KStr>,
    watts: real)

  /** Aggregate of the latest known readings. */
  datatype SnapshotEnergia = SnapshotEnergia(
    totalWatts: real,
    porComodo: Entries<KStr, real>,
    porDispositivo: Entries<KStr, real>)

  // ===== SensorSimulado =====

  datatype SensorSimulado = SensorSimulado(
    deviceId: KStr,
    comodo: KStr,
    baseW: real,
    variacao: real,
    intervaloMs: int,
    ligado: bool)

  /** The constructor with its default arguments: variance 10% of the base,
      one reading per second, switched on. */
  function NovoSensor(deviceId: KStr, comodo: KStr, baseW: real): SensorSimulado {
    SensorSimulado(deviceId, comodo, baseW, baseW * 0.1, 1000, true)
  }

  function Ligar(s: SensorSimulado): SensorSimulado { s.(ligado := true) }

  function Desligar(s: SensorSimulado): SensorSimulado { s.(ligado := false) }

  /** `Random.nextDouble(-variacao, variacao)` only accepts a non-empty range. */
  predicate PodeSortear(s: SensorSimulado) { -s.variacao < s.variacao }

  /** `delta` is a value that call can return: it lies in `[-variacao, variacao)`. */
  predicate DeltaValido(s: SensorSimulado, delta: real) {
    -s.variacao <= delta < s.variacao
  }

  /** Kotlin `x.coerceAtLeast(0.0)`. */
  function CoerceAtLeastZero(x: real): real { if x < 0.0 then 0.0 else x }

  /** The watts of one emission: 0 when switched off, otherwise the base
      plus the random fluctuation, floored at 0. */
  function Watts(s: SensorSimulado, delta: real): (w: real)
    requires DeltaValido(s, delta)
    ensures w >= 0.0
    ensures !s.ligado ==> w == 0.0
    ensures s.ligado ==> w >= s.baseW + delta && (w == s.baseW + delta || w == 0.0)
    ensures w == 0.0 || (s.baseW - s.variacao <= w < s.baseW + s.variacao)
  {
    var wBase := CoerceAtLeastZero(s.baseW + delta);
    if s.ligado then wBase else 0.0
  }

  /** The exception thrown by `nextDouble` on an empty range. */
  datatype ErroSensor = IntervaloVazio(de: real, ate: real)

  /** One emission of the sensor's flow at time `ts`; `delta` is the random draw.
      The draw happens whether or not the sensor is on, so an empty range
      fails even when it is off. */
  function Emitir(s: SensorSimulado, ts: Instant, delta: real): (r: Result<LeituraEnergia, ErroSensor>)
    requires PodeSortear(s) ==> DeltaValido(s, delta)
    ensures r.Success? <==> PodeSortear(s)
    ensures r.Failure? ==> r.error == IntervaloVazio(-s.variacao, s.variacao)
    ensures r.Success? ==>
      && r.value.timestamp == ts
      && r.value.deviceId == s.deviceId
      && r.value.comodo == Some(s.comodo)
      && r.value.watts == Watts(s, delta)
      && r.value.watts >= 0.0
      && (!s.ligado ==> r.value.watts == 0.0)
  {
    if !PodeSortear(s) then Failure(IntervaloVazio(-s.variacao, s.variacao))
    else Success(LeituraEnergia(ts, s.deviceId, Some(s.comodo), Watts(s, delta)))
  }

  /** What happens to a sensor over time: an emission with its random draw,
      or a switch of its on/off flag (seen by the next emission). */
  datatype EventoSensor =
    | Emissao(timestamp: Instant, delta: real)
    | ComandoLigar
    | ComandoDesligar

  function NumEmissoes(evs: seq<EventoSensor>): nat {
    if |evs| == 0 then 0 else (if evs[0].Emissao? then 1 else 0) + NumEmissoes(evs[1..])
  }

  predicate DeltasValidos(s: SensorSimulado, evs: seq<EventoSensor>) {
    forall i :: 0 <= i < |evs| && evs[i].Emissao? ==> DeltaValido(s, evs[i].delta)
  }

  /** The readings the sensor's flow emits for a run of events; the flow
      fails at its first emission when the random range is empty. */
  function AoVivoSensor(s: SensorSimulado, evs: seq<EventoSensor>): (r: Result<seq<LeituraEnergia>, ErroSensor>)
    requires PodeSortear(s) ==> DeltasValidos(s, evs)
    decreases |evs|
    ensures r.Success? <==> PodeSortear(s) || NumEmissoes(evs) == 0
    ensures r.Success? ==> |r.value| == NumEmissoes(evs)
    ensures r.Success? ==> forall i :: 0 <= i < |r.value| ==>
      && r.value[i].deviceId == s.deviceId
      && r.value[i].comodo == Some(s.comodo)
      && r.value[i].watts >= 0.0
  {
    if |evs| == 0 then Success([])
    else
      assert PodeSortear(s) ==> DeltasValidos(s, evs[1..]) by {
        if PodeSortear(s) {
          forall i | 0 <= i < |evs[1..]| && evs[1..][i].Emissao?
            ensures DeltaValido(s, evs[1..][i].delta)
          {
            assert evs[1..][i] == evs[i + 1];
          }
        }
      }
      match evs[0]
      case ComandoLigar => AoVivoSensor(Ligar(s), evs[1..])
      case ComandoDesligar => AoVivoSensor(Desligar(s), evs[1..])
      case Emissao(ts, delta) =>
        assert PodeSortear(s) ==> DeltaValido(s, evs[0].delta);
        match Emitir(s, ts, delta)
        case Failure(e) => Failure(e)
        case Success(l) =>
          match AoVivoSensor(s, evs[1..])
          case Failure(e) => Failure(e)
          case Success(ls) => Success([l] + ls)
  }

  /** The on/off flag after an event: a command sets it, an emission keeps it. */
  function Aplicar(ligado: bool, e: EventoSensor): bool {
    match e
    case ComandoLigar => true
    case ComandoDesligar => false
    case Emissao(_, _) => ligado
  }

  /** The on/off flag after a run of events, starting from `ligado`: the
      last command wins. */
  function LigadoApos(ligado: bool, evs: seq<EventoSensor>): bool {
    if |evs| == 0 then ligado else Aplicar(LigadoApos(ligado, evs[..|evs| - 1]), evs[|evs| - 1])
  }

  lemma {:induction false} LigadoAposCons(ligado: bool, e: EventoSensor, evs: seq<EventoSensor>)
    ensures LigadoApos(ligado, [e] + evs) == LigadoApos(Aplicar(ligado, e), evs)
    decreases |evs|
  {
    if |evs| > 0 {
      assert ([e] + evs)[..|[e] + evs| - 1] == [e] + evs[..|evs| - 1];
      LigadoAposCons(ligado, e, evs[..|evs| - 1]);
    }
  }

  lemma DeltasValidosCauda(s: SensorSimulado, evs: seq<EventoSensor>)
    requires |evs| > 0 && DeltasValidos(s, evs)
    ensures DeltasValidos(s, evs[1..])
  {
    forall i | 0 <= i < |evs[1..]| && evs[1..][i].Emissao?
      ensures DeltaValido(s, evs[1..][i].delta)
    {
      assert evs[1..][i] == evs[i + 1];
    }
  }

  /** The reading for the emission at event `i` comes right after the
      readings of the earlier emissions, carries that emission's timestamp
      and is computed from its draw with the on/off flag the earlier
      commands left. */
  lemma {:induction false} AoVivoSensorLeitura(s: SensorSimulado, evs: seq<EventoSensor>, i: nat)
    requires PodeSortear(s) && DeltasValidos(s, evs)
    requires i < |evs| && evs[i].Emissao?
    decreases i
    ensures AoVivoSensor(s, evs).Success?
    ensures NumEmissoes(evs[..i]) < |AoVivoSensor(s, evs).value|
    ensures AoVivoSensor(s, evs).value[NumEmissoes(evs[..i])]
      == LeituraEnergia(evs[i].timestamp, s.deviceId, Some(s.comodo),
                        Watts(s.(ligado := LigadoApos(s.ligado, evs[..i])), evs[i].delta))
  {
    DeltasValidosCauda(s, evs);
    if i > 0 {
      var t := Aplicar(s.ligado, evs[0]);
      var s' := s.(ligado := t);
      assert DeltasValidos(s', evs[1..]);
      AoVivoSensorLeitura(s', evs[1..], i - 1);
      assert evs[..i] == [evs[0]] + evs[1..][..i - 1];
      LigadoAposCons(s.ligado, evs[0], evs[1..][..i - 1]);
      assert evs[..i][1..] == evs[1..][..i - 1];
      match evs[0]
      case ComandoLigar => assert Ligar(s) == s';
      case ComandoDesligar => assert Desligar(s) == s';
      case Emissao(_, _) => assert s' == s;
    }
  }

  /** A switched-off sensor that is not switched back on reads 0 W. */
  lemma {:induction false} DesligadoEmiteZero(s: SensorSimulado, evs: seq<EventoSensor>)
    requires PodeSortear(s) && DeltasValidos(s, evs)
    decreases |evs|
    requires !s.ligado
    requires forall i :: 0 <= i < |evs| ==> !evs[i].ComandoLigar?
    ensures AoVivoSensor(s, evs).Success?
    ensures forall i :: 0 <= i < |AoVivoSensor(s, evs).value| ==> AoVivoSensor(s, evs).value[i].watts == 0.0
  {
    if |evs| > 0 {
      assert DeltasValidos(s, evs[1..]) by {
        forall i | 0 <= i < |evs[1..]| && evs[1..][i].Emissao?
          ensures DeltaValido(s, evs[1..][i].delta)
        {
          assert evs[1..][i] == evs[i + 1];
        }
      }
      assert forall i :: 0 <= i < |evs[1..]| ==> !evs[1..][i].ComandoLigar? by {
        forall i | 0 <= i < |evs[1..]| ensures !evs[1..][i].ComandoLigar? {
          assert evs[1..][i] == evs[i + 1];
        }
      }
      match evs[0]
      case ComandoDesligar => DesligadoEmiteZero(Desligar(s), evs[1..]);
      case Emissao(ts, delta) => DesligadoEmiteZero(s, evs[1..]);
    }
  }

  /** With the default variance, a sensor whose base is not positive has an
      empty random range, so its flow fails at the first emission. */
  lemma SensorPadraoSemBaseFalha(deviceId: KStr, comodo: KStr, baseW: real, ts: Instant, delta: real)
    requires baseW <= 0.0
    ensures Emitir(NovoSensor(deviceId, comodo, baseW), ts, delta).Failure?
  {
  }

  // ===== MonitorEnergia =====

  /** The monitor's state: device id to that device's latest reading. */
  type Atuais = Entries<KStr, LeituraEnergia>

  /** Every entry is keyed by its own reading's device id, once. */
  ghost predicate Consistente(a: Atuais) {
    && Distinct(a)
    && var w := ToMap(a); forall d :: d in w ==> w[d].deviceId == d
  }

  /** Room bucket of a reading: a null room becomes "desconhecido". */
  const Desconhecido: KStr := Bmp("desconhecido")

  function Comodo(l: LeituraEnergia): KStr { l.comodo.GetOr(Desconhecido) }

  /** One step of the live flow: `atuais + (l.deviceId to l)`. */
  function Registrar(a: Atuais, l: LeituraEnergia): Atuais {
    Put(a, l.deviceId, l)
  }

  /** Recording a reading binds its device to it and leaves every other
      device's entry unchanged. */
  lemma RegistrarMap(a: Atuais, l: LeituraEnergia)
    ensures ToMap(Registrar(a, l)) == ToMap(a)[l.deviceId := l]
    ensures Consistente(a) ==> Consistente(Registrar(a, l))
  {
    PutMap(a, l.deviceId, l);
  }

  /** Kotlin `ls.sumOf { it.watts }`. */
  function SomaWatts(ls: seq<LeituraEnergia>): real {
    if |ls| == 0 then 0.0 else ls[0].watts + SomaWatts(ls[1..])
  }

  /** The rooms that occur among the readings. */
  function Comodos(ls: seq<LeituraEnergia>): set<KStr> {
    set l | l in ls :: Comodo(l)
  }

  /** The readings in room `c`, in their original order. */
  function NoComodo(ls: seq<LeituraEnergia>, c: KStr): (r: seq<LeituraEnergia>)
    ensures forall i :: 0 <= i < |r| ==> r[i] in ls && Comodo(r[i]) == c
    ensures c !in Comodos(ls) ==> r == []
  {
    if |ls| == 0 then []
    else NoComodo(ls[..|ls| - 1], c) + (if Comodo(ls[|ls| - 1]) == c then [ls[|ls| - 1]] else [])
  }

  /** Nothing of room `c` is left out: the group holds every reading of that
      room as often as the input does, and nothing else. */
  lemma {:induction false} NoComodoCompleto(ls: seq<LeituraEnergia>, c: KStr)
    ensures forall l :: multiset(NoComodo(ls, c))[l] == if Comodo(l) == c then multiset(ls)[l] else 0
  {
    if |ls| > 0 {
      var init := ls[..|ls| - 1];
      var u := ls[|ls| - 1];
      assert ls == init + [u];
      NoComodoCompleto(init, c);
      assert multiset(ls) == multiset(init) + multiset{u};
    }
  }

  /** The watts of the readings in room `c`, summed. */
  function SomaNoComodo(ls: seq<LeituraEnergia>, c: KStr): real {
    SomaWatts(NoComodo(ls, c))
  }

  /** Kotlin `ls.groupBy { it.comodo ?: "desconhecido" }`: one group per
      room in order of first occurrence, each group in reading order. */
  function Agrupar(ls: seq<LeituraEnergia>): Entries<KStr, seq<LeituraEnergia>> {
    if |ls| == 0 then []
    else
      var l := ls[|ls| - 1];
      Upsert(Agrupar(ls[..|ls| - 1]), Comodo(l), AnexarA(l))
  }

  /** The group update for reading `l`: append it to its group, or start one. */
  function AnexarA(l: LeituraEnergia): Option<seq<LeituraEnergia>> -> seq<LeituraEnergia> {
    (o: Option<seq<LeituraEnergia>>) => o.GetOr([]) + [l]
  }

  /** The groups are exactly the rooms present, each holding that room's readings. */
  lemma {:induction false} AgruparCorreto(ls: seq<LeituraEnergia>)
    ensures Distinct(Agrupar(ls))
    ensures Keys(Agrupar(ls)) == Comodos(ls)
    ensures forall c :: Get(Agrupar(ls), c) == (if c in Comodos(ls) then Some(NoComodo(ls, c)) else None)
  {
    if |ls| > 0 {
      var init := ls[..|ls| - 1];
      var l := ls[|ls| - 1];
      assert ls == init + [l];
      AgruparCorreto(init);
      ComodosSnoc(init, l);
      var g := Agrupar(init);
      var r := Agrupar(ls);
      assert r == Upsert(g, Comodo(l), AnexarA(l));
      UpsertGet(g, Comodo(l), AnexarA(l));
      forall c
        ensures Get(r, c) == (if c in Comodos(ls) then Some(NoComodo(ls, c)) else None)
      {
        if c == Comodo(l) {
          assert Get(r, c) == Some(AnexarA(l)(Get(g, c)));
          assert NoComodo(ls, c) == NoComodo(init, c) + [l];
        } else {
          assert Get(r, c) == Get(g, c);
          assert NoComodo(ls, c) == NoComodo(init, c);
        }
      }
    }
  }

  lemma ComodosSnoc(ls: seq<LeituraEnergia>, l: LeituraEnergia)
    ensures Comodos(ls + [l]) == Comodos(ls) + {Comodo(l)}
  {
    var a := Comodos(ls + [l]);
    var b := Comodos(ls) + {Comodo(l)};
    forall c | c in a ensures c in b {
      var x :| x in ls + [l] && Comodo(x) == c;
      if x != l { assert x in ls; }
    }
    forall c | c in b ensures c in a {
      if c != Comodo(l) {
        var x :| x in ls && Comodo(x) == c;
        assert x in ls + [l];
      } else {
        assert l in ls + [l];
      }
    }
  }

  /** `snapshot()`: per-device watts, per-room sums and the total of the
      current readings. It only reads the state. */
  function Snapshot(a: Atuais): (s: SnapshotEnergia)
    ensures |a| == 0 ==> s == SnapshotEnergia(0.0, [], [])
  {
    var porDisp := MapValues(a, (l: LeituraEnergia) => l.watts);
    var porComodo := MapValues(Agrupar(Values(a)), SomaWatts);
    SnapshotEnergia(SumValues(porDisp), porComodo, porDisp)
  }

  /** The per-device figures are the current readings' watts, for exactly
      the devices in the state. */
  lemma SnapshotPorDispositivo(a: Atuais)
    ensures Keys(Snapshot(a).porDispositivo) == Keys(a)
    ensures forall d :: Get(Snapshot(a).porDispositivo, d) == WattsDe(Get(a, d))
  {
    MapValuesGet(a, (l: LeituraEnergia) => l.watts);
  }

  /** The per-room figures are for exactly the rooms among the current
      readings, a null room counted as "desconhecido". */
  lemma SnapshotComodos(a: Atuais)
    ensures Keys(Snapshot(a).porComodo) == Comodos(Values(a))
  {
    AgruparCorreto(Values(a));
    MapValuesGet(Agrupar(Values(a)), SomaWatts);
  }

  /** Each per-room figure is the sum of the watts of that room's readings. */
  lemma SnapshotPorComodo(a: Atuais)
    ensures forall c :: c in Comodos(Values(a)) ==>
      Get(Snapshot(a).porComodo, c) == Some(SomaNoComodo(Values(a), c))
  {
    AgruparCorreto(Values(a));
    MapValuesGet(Agrupar(Values(a)), SomaWatts);
  }

  // ----- totals -----

  lemma {:induction false} SomaWattsAppend(ls: seq<LeituraEnergia>, l: LeituraEnergia)
    ensures SomaWatts(ls + [l]) == SomaWatts(ls) + l.watts
  {
    if |ls| > 0 {
      assert (ls + [l])[1..] == ls[1..] + [l];
      SomaWattsAppend(ls[1..], l);
    }
  }

  /** The total is the sum of the watts of the current readings. */
  lemma {:induction false} TotalSomaLeituras(a: Atuais)
    ensures Snapshot(a).totalWatts == SomaWatts(Values(a))
  {
    if |a| > 0 {
      TotalSomaLeituras(a[1..]);
      assert Values(a)[1..] == Values(a[1..]);
    }
  }

  /** Adding a reading to its room's group adds its watts to the sum of group sums. */
  lemma {:induction false} SomaGruposUpsert(g: Entries<KStr, seq<LeituraEnergia>>, l: LeituraEnergia)
    ensures SumValues(MapValues(Upsert(g, Comodo(l), AnexarA(l)), SomaWatts))
      == SumValues(MapValues(g, SomaWatts)) + l.watts
  {
    var u := Upsert(g, Comodo(l), AnexarA(l));
    if |g| == 0 {
      assert AnexarA(l)(None) == [l];
      assert u == [(Comodo(l), [l])];
    } else if g[0].0 == Comodo(l) {
      assert u == [(Comodo(l), g[0].1 + [l])] + g[1..];
      SomaWattsAppend(g[0].1, l);
      assert MapValues(u, SomaWatts)[1..] == MapValues(g, SomaWatts)[1..];
    } else {
      var rest := Upsert(g[1..], Comodo(l), AnexarA(l));
      assert u == [g[0]] + rest;
      SomaGruposUpsert(g[1..], l);
      assert MapValues(u, SomaWatts)[1..] == MapValues(rest, SomaWatts);
    }
  }

  /** Grouping by room loses and duplicates no watts. */
  lemma {:induction false} SomaPorComodo(ls: seq<LeituraEnergia>)
    ensures SumValues(MapValues(Agrupar(ls), SomaWatts)) == SomaWatts(ls)
  {
    if |ls| > 0 {
      var init := ls[..|ls| - 1];
      var l := ls[|ls| - 1];
      assert ls == init + [l];
      SomaPorComodo(init);
      SomaGruposUpsert(Agrupar(init), l);
      SomaWattsAppend(init, l);
    }
  }

  /** In exact arithmetic the room sums add up to the total. */
  lemma TotalIgualSomaPorComodo(a: Atuais)
    ensures Snapshot(a).totalWatts == SumValues(Snapshot(a).porComodo)
  {
    TotalSomaLeituras(a);
    SomaPorComodo(Values(a));
  }

  /** The total is the sum of the per-device map, whatever its iteration order. */
  lemma TotalIgualSomaPorDispositivo(a: Atuais)
    requires Distinct(a)
    ensures Snapshot(a).totalWatts == SumMap(ToMap(Snapshot(a).porDispositivo))
  {
    MapValuesGet(a, (l: LeituraEnergia) => l.watts);
    SumValuesIsSumMap(Snapshot(a).porDispositivo);
  }

  lemma {:induction false} SomaWattsNaoNegativa(ls: seq<LeituraEnergia>)
    requires forall i :: 0 <= i < |ls| ==> ls[i].watts >= 0.0
    ensures SomaWatts(ls) >= 0.0
  {
    if |ls| > 0 {
      SomaWattsNaoNegativa(ls[1..]);
    }
  }

  /** No recorded reading is negative (true of every simulated sensor's). */
  predicate LeiturasNaoNegativas(a: Atuais) {
    forall i :: 0 <= i < |a| ==> a[i].1.watts >= 0.0
  }

  /** Non-negative readings give a snapshot with no negative figure. */
  lemma SnapshotNaoNegativo(a: Atuais)
    requires LeiturasNaoNegativas(a)
    ensures Snapshot(a).totalWatts >= 0.0
    ensures forall i :: 0 <= i < |Snapshot(a).porDispositivo| ==> Snapshot(a).porDispositivo[i].1 >= 0.0
    ensures forall i :: 0 <= i < |Snapshot(a).porComodo| ==> Snapshot(a).porComodo[i].1 >= 0.0
  {
    TotalNaoNegativo(a);
    PorDispositivoNaoNegativo(a);
    PorComodoNaoNegativo(a);
  }

  lemma TotalNaoNegativo(a: Atuais)
    requires LeiturasNaoNegativas(a)
    ensures Snapshot(a).totalWatts >= 0.0
  {
    TotalSomaLeituras(a);
    ValuesAt(a);
    SomaWattsNaoNegativa(Values(a));
  }

  lemma PorDispositivoNaoNegativo(a: Atuais)
    requires LeiturasNaoNegativas(a)
    ensures forall i :: 0 <= i < |Snapshot(a).porDispositivo| ==> Snapshot(a).porDispositivo[i].1 >= 0.0
  {
    MapValuesGet(a, (l: LeituraEnergia) => l.watts);
  }

  lemma PorComodoNaoNegativo(a: Atuais)
    requires LeiturasNaoNegativas(a)
    ensures forall i :: 0 <= i < |Snapshot(a).porComodo| ==> Snapshot(a).porComodo[i].1 >= 0.0
  {
    ValuesAt(a);
    GruposNaoNegativos(Values(a));
    MapValuesGet(Agrupar(Values(a)), SomaWatts);
  }

  /** Every room's group of non-negative readings sums to a non-negative figure. */
  lemma GruposNaoNegativos(ls: seq<LeituraEnergia>)
    requires forall j :: 0 <= j < |ls| ==> ls[j].watts >= 0.0
    ensures forall i :: 0 <= i < |Agrupar(ls)| ==> SomaWatts(Agrupar(ls)[i].1) >= 0.0
  {
    var g := Agrupar(ls);
    AgruparCorreto(ls);
    forall i | 0 <= i < |g|
      ensures SomaWatts(g[i].1) >= 0.0
    {
      GetAt(g, i);
      var grupo := NoComodo(ls, g[i].0);
      assert g[i].1 == grupo;
      forall j | 0 <= j < |grupo| ensures grupo[j].watts >= 0.0 {
        var n :| 0 <= n < |ls| && ls[n] == grupo[j];
      }
      SomaWattsNaoNegativa(grupo);
    }
  }

  lemma {:induction false} ValuesAt<K, V>(m: Entries<K, V>)
    ensures forall i :: 0 <= i < |m| ==> Values(m)[i] == m[i].1
  {
    if |m| > 0 {
      ValuesAt(m[1..]);
    }
  }

  // ----- the live flow -----

  /** The monitor's state after a run of readings (starting from empty). */
  function Estado(ls: seq<LeituraEnergia>): Atuais {
    if |ls| == 0 then [] else Registrar(Estado(ls[..|ls| - 1]), ls[|ls| - 1])
  }

  /** The last reading of device `d` in the run, if any. */
  function Ultima(ls: seq<LeituraEnergia>, d: KStr): Option<LeituraEnergia> {
    if |ls| == 0 then None
    else if ls[|ls| - 1].deviceId == d then Some(ls[|ls| - 1])
    else Ultima(ls[..|ls| - 1], d)
  }

  /** The device ids that occur in the run. */
  function Vistos(ls: seq<LeituraEnergia>): set<KStr> {
    set l | l in ls :: l.deviceId
  }

  function WattsDe(o: Option<LeituraEnergia>): Option<real> {
    match o
    case Some(l) => Some(l.watts)
    case None => None
  }

  /** After any run the state holds exactly the devices seen, each with its
      last reading (last writer wins); unseen devices are absent. */
  lemma {:induction false} EstadoGuardaUltimas(ls: seq<LeituraEnergia>)
    ensures Consistente(Estado(ls))
    ensures Keys(Estado(ls)) == Vistos(ls)
    ensures forall d :: Get(Estado(ls), d) == Ultima(ls, d)
  {
    var e := Estado(ls);
    if |ls| == 0 {
      forall d ensures Get(e, d) == Ultima(ls, d) { }
    } else {
      var init := ls[..|ls| - 1];
      var l := ls[|ls| - 1];
      assert ls == init + [l];
      assert Vistos(ls) == Vistos(init) + {l.deviceId};
      EstadoGuardaUltimas(init);
      RegistrarMap(Estado(init), l);
      ToMapGet(Estado(init));
      ToMapGet(e);
    }
  }

  /** The per-device figures of the snapshot after a run: exactly the
      devices seen, each with the watts of its last reading. */
  lemma PorDispositivoAposLeituras(ls: seq<LeituraEnergia>)
    ensures Keys(Snapshot(Estado(ls)).porDispositivo) == Vistos(ls)
    ensures forall d :: Get(Snapshot(Estado(ls)).porDispositivo, d) == WattsDe(Ultima(ls, d))
  {
    EstadoGuardaUltimas(ls);
    SnapshotPorDispositivo(Estado(ls));
  }

  /** A reading changes the snapshot's figure for its own device only. */
  lemma RegistrarAlteraUmDispositivo(a: Atuais, l: LeituraEnergia)
    ensures Get(Snapshot(Registrar(a, l)).porDispositivo, l.deviceId) == Some(l.watts)
    ensures forall d :: d != l.deviceId ==>
      Get(Snapshot(Registrar(a, l)).porDispositivo, d) == Get(Snapshot(a).porDispositivo, d)
  {
    var r := Registrar(a, l);
    SnapshotPorDispositivo(a);
    SnapshotPorDispositivo(r);
    RegistrarMap(a, l);
    ToMapGet(a);
    ToMapGet(r);
  }

  /** The states a live run passes through, one per reading. */
  function Estados(ls: seq<LeituraEnergia>): (es: seq<Atuais>)
    ensures |es| == |ls|
  {
    if |ls| == 0 then [] else Estados(ls[..|ls| - 1]) + [Estado(ls)]
  }

  /** `xs.map(f)`, written from the end like the run functions above. */
  function Mapear<A, B>(f: A -> B, xs: seq<A>): (ys: seq<B>)
    ensures |ys| == |xs|
  {
    if |xs| == 0 then [] else Mapear(f, xs[..|xs| - 1]) + [f(xs[|xs| - 1])]
  }

  lemma MapearSnoc<A, B>(f: A -> B, xs: seq<A>, x: A)
    ensures Mapear(f, xs + [x]) == Mapear(f, xs) + [f(x)]
  {
    assert (xs + [x])[..|xs|] == xs;
  }

  lemma {:induction false} MapearAt<A, B>(f: A -> B, xs: seq<A>, k: nat)
    requires k < |xs|
    ensures Mapear(f, xs)[k] == f(xs[k])
    decreases |xs|
  {
    if k < |xs| - 1 {
      MapearAt(f, xs[..|xs| - 1], k);
    }
  }

  /** The snapshots a live run emits, one per reading. */
  function Historico(ls: seq<LeituraEnergia>): (h: seq<SnapshotEnergia>)
    ensures |h| == |ls|
  {
    Mapear(Snapshot, Estados(ls))
  }

  lemma {:induction false} EstadosAt(ls: seq<LeituraEnergia>, k: nat)
    requires k < |ls|
    ensures Estados(ls)[k] == Estado(ls[..k + 1])
    decreases |ls|
  {
    var init := ls[..|ls| - 1];
    if k < |ls| - 1 {
      assert init[..k + 1] == ls[..k + 1];
      EstadosAt(init, k);
    } else {
      assert ls[..k + 1] == ls;
    }
  }

  /** One snapshot per reading, the k-th being the snapshot of the state
      after the first k + 1 readings. */
  lemma HistoricoAt(ls: seq<LeituraEnergia>, k: nat)
    requires k < |ls|
    ensures Historico(ls)[k] == Snapshot(Estado(ls[..k + 1]))
  {
    EstadosAt(ls, k);
    MapearAt(Snapshot, Estados(ls), k);
  }

  /** The k-th emitted snapshot shows exactly the devices seen in the first
      k + 1 readings, each with the watts of its latest reading so far. */
  lemma HistoricoPorDispositivo(ls: seq<LeituraEnergia>, k: nat)
    requires k < |ls|
    ensures Keys(Historico(ls)[k].porDispositivo) == Vistos(ls[..k + 1])
    ensures forall d :: Get(Historico(ls)[k].porDispositivo, d) == WattsDe(Ultima(ls[..k + 1], d))
  {
    HistoricoAt(ls, k);
    PorDispositivoAposLeituras(ls[..k + 1]);
  }

  /** One more reading extends the fold by one `Registrar` step. */
  lemma PassoEstado(ls: seq<LeituraEnergia>, i: nat)
    requires i < |ls|
    ensures Estado(ls[..i + 1]) == Registrar(Estado(ls[..i]), ls[i])
    ensures Estados(ls[..i + 1]) == Estados(ls[..i]) + [Estado(ls[..i + 1])]
  {
    assert ls[..i + 1][..i] == ls[..i];
  }

  /** `aoVivo()` over the merged readings: the map of latest readings is
      updated per reading and a snapshot of it emitted each time. */
  method AoVivo(ls: seq<LeituraEnergia>) returns (snaps: seq<SnapshotEnergia>, atuais: Atuais)
    ensures atuais == Estado(ls)
    ensures snaps == Historico(ls)
  {
    atuais := [];
    snaps := [];
    ghost var estados: seq<Atuais> := [];
    var i := 0;
    while i < |ls|
      invariant 0 <= i <= |ls|
      invariant atuais == Estado(ls[..i])
      invariant estados == Estados(ls[..i])
      invariant snaps == Mapear(Snapshot, estados)
    {
      PassoEstado(ls, i);
      MapearSnoc(Snapshot, estados, Registrar(atuais, ls[i]));
      atuais := Registrar(atuais, ls[i]);
      estados := estados + [atuais];
      snaps := snaps + [Snapshot(atuais)];
      i := i + 1;
    }
    assert ls[..|ls|] == ls;
  }
}
