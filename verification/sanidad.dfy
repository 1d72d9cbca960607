/** The sanidad wage-scale robot (FATSA CCT 122/75, 108/75): for each of
    the 24 jurisdictions, in list order, scale the stored record by the
    IPC, keep it with a fresh time stamp, or create it from the default
    profile. */
module Sanidad {
  import opened Common
  import Money
  import IpcSource

  datatype Jurisdiccion = Jurisdiccion(key: string, nombre: string, esPatagonica: bool)

  /** The 24 jurisdictions, in the order records are produced. */
  const Jurisdicciones: seq<Jurisdiccion> := [
    Jurisdiccion("buenosAires", "Buenos Aires", false),
    Jurisdiccion("caba", "Ciudad Autónoma de Buenos Aires", false),
    Jurisdiccion("catamarca", "Catamarca", false),
    Jurisdiccion("chaco", "Chaco", false),
    Jurisdiccion("chubut", "Chubut", true),
    Jurisdiccion("cordoba", "Córdoba", false),
    Jurisdiccion("corrientes", "Corrientes", false),
    Jurisdiccion("entreRios", "Entre Ríos", false),
    Jurisdiccion("formosa", "Formosa", false),
    Jurisdiccion("jujuy", "Jujuy", false),
    Jurisdiccion("laPampa", "La Pampa", true),
    Jurisdiccion("laRioja", "La Rioja", false),
    Jurisdiccion("mendoza", "Mendoza", false),
    Jurisdiccion("misiones", "Misiones", false),
    Jurisdiccion("neuquen", "Neuquén", true),
    Jurisdiccion("rioNegro", "Río Negro", true),
    Jurisdiccion("salta", "Salta", false),
    Jurisdiccion("sanJuan", "San Juan", false),
    Jurisdiccion("sanLuis", "San Luis", false),
    Jurisdiccion("santaCruz", "Santa Cruz", true),
    Jurisdiccion("santaFe", "Santa Fe", false),
    Jurisdiccion("santiagoDelEstero", "Santiago del Estero", false),
    Jurisdiccion("tierraDelFuego", "Tierra del Fuego", true),
    Jurisdiccion("tucuman", "Tucumán", false)
  ]

  /** The five role basics (`basico_profesional` … `basico_maestranza`). */
  datatype Basicos = Basicos(
    profesional: int,
    tecnico: int,
    servicios: int,
    administrativo: int,
    maestranza: int)

  const BasicosNormal: Basicos := Basicos(850000, 680000, 580000, 520000, 480000)
  const BasicosPatagonica: Basicos := Basicos(1020000, 816000, 696000, 624000, 576000)

  /** The percentage columns that describe the scale; never adjusted. */
  datatype Porcentajes = Porcentajes(
    antiguedadPorAno: real,
    tituloAuxiliar: real,
    tituloTecnico: real,
    tituloUniversitario: real,
    tareaCriticaRiesgo: real,
    zonaPatagonica: real,
    nocturnas: real)

  /** The deduction percentage columns; never adjusted. */
  datatype Descuentos = Descuentos(
    jubilacion: real,
    ley19032: real,
    obraSocial: real,
    cuotaSindicalAtsa: real,
    seguroSepelio: real,
    aporteSolidarioFatsa: real)

  datatype Metadata = Metadata(tipoAjuste: string, esPatagonica: bool)

  /** One row of `maestro_paritarias_sanidad`. */
  datatype Escala = Escala(
    jurisdiccion: string,
    nombreMostrar: string,
    basicos: Basicos,
    porcentajes: Porcentajes,
    montoFalloCaja: int,
    descuentos: Descuentos,
    topeBasePrevisional: int,
    fuenteLegal: string,
    updatedAt: Timestamp,
    metadata: Metadata)

  const FuenteDefault: string := "FATSA CCT 122/75 - Paritarias 2026"

  /** The base table a new record of `j` starts from. */
  function BasicosPara(j: Jurisdiccion): Basicos
  {
    if j.esPatagonica then BasicosPatagonica else BasicosNormal
  }

  /** `generarRegistroJurisdiccion`: the default profile of a jurisdiction. */
  function Generar(j: Jurisdiccion, b: Basicos, now: Timestamp): (r: Escala)
    ensures r.jurisdiccion == j.key && r.nombreMostrar == j.nombre && r.basicos == b
    ensures r.porcentajes.zonaPatagonica == 20.0 <==> j.esPatagonica
    ensures r.porcentajes.zonaPatagonica == 0.0 <==> !j.esPatagonica
    ensures r.metadata == Metadata("ipc", j.esPatagonica)
    ensures r.updatedAt == now
  {
    Escala(
      jurisdiccion := j.key,
      nombreMostrar := j.nombre,
      basicos := b,
      porcentajes := Porcentajes(2.0, 5.0, 7.0, 10.0, 10.0, if j.esPatagonica then 20.0 else 0.0, 15.0),
      montoFalloCaja := 20000,
      descuentos := Descuentos(11.0, 3.0, 3.0, 2.0, 1.0, 1.0),
      topeBasePrevisional := 2500000,
      fuenteLegal := FuenteDefault,
      updatedAt := now,
      metadata := Metadata("ipc", j.esPatagonica))
  }

  /** Apart from identity, base table, regional bonus and flag, every
      generated record carries the same constants. */
  lemma GeneratedConstantsShared(j: Jurisdiccion, j': Jurisdiccion, b: Basicos, b': Basicos, now: Timestamp, now': Timestamp)
    ensures var r, r' := Generar(j, b, now), Generar(j', b', now');
      && r.porcentajes.(zonaPatagonica := 0.0) == r'.porcentajes.(zonaPatagonica := 0.0)
      && r.descuentos == r'.descuentos
      && r.montoFalloCaja == r'.montoFalloCaja == 20000
      && r.topeBasePrevisional == r'.topeBasePrevisional == 2500000
      && r.fuenteLegal == r'.fuenteLegal == FuenteDefault
  {
  }

  /** `find`: the index of the first stored record of `key`, if any. */
  function FirstMatch(existentes: seq<Escala>, key: string): (r: Option<nat>)
    ensures r.None? <==> forall i :: 0 <= i < |existentes| ==> existentes[i].jurisdiccion != key
    ensures r.Some? ==> IsFirstMatch(existentes, key, r.value)
  {
    if existentes == [] then None
    else if existentes[0].jurisdiccion == key then Some(0)
    else match FirstMatch(existentes[1..], key)
      case None => None
      case Some(k) => Some(k + 1)
  }

  /** `k` is the position of the first record of `key` in `existentes`. */
  ghost predicate IsFirstMatch(existentes: seq<Escala>, key: string, k: int)
  {
    && 0 <= k < |existentes|
    && existentes[k].jurisdiccion == key
    && forall i :: 0 <= i < k ==> existentes[i].jurisdiccion != key
  }

  /** The seven monetary columns the IPC adjusts. */
  function Montos(e: Escala): seq<int>
  {
    [e.basicos.profesional, e.basicos.tecnico, e.basicos.servicios,
     e.basicos.administrativo, e.basicos.maestranza,
     e.montoFalloCaja, e.topeBasePrevisional]
  }

  /** `{...existente, <seven amounts scaled>, fuente_legal, updated_at}`. */
  function Ajustar(e: Escala, ipc: int, fuente: string, now: Timestamp): Escala
  {
    e.(basicos := Basicos(
         Money.Scale(e.basicos.profesional, ipc),
         Money.Scale(e.basicos.tecnico, ipc),
         Money.Scale(e.basicos.servicios, ipc),
         Money.Scale(e.basicos.administrativo, ipc),
         Money.Scale(e.basicos.maestranza, ipc)),
       montoFalloCaja := Money.Scale(e.montoFalloCaja, ipc),
       topeBasePrevisional := Money.Scale(e.topeBasePrevisional, ipc),
       fuenteLegal := fuente,
       updatedAt := now)
  }

  /** One iteration of the reconciliation loop. */
  function ReconciliarJurisdiccion(j: Jurisdiccion, existentes: seq<Escala>, ipc: int, fuente: string, now: Timestamp): (r: Escala)
    ensures r.jurisdiccion == j.key
    ensures r.updatedAt == now
  {
    match FirstMatch(existentes, j.key)
    case Some(k) =>
      if ipc > 0 then Ajustar(existentes[k], ipc, fuente, now)
      else existentes[k].(updatedAt := now)
    case None =>
      Generar(j, BasicosPara(j), now).(fuenteLegal := if fuente != "" then fuente else FuenteDefault)
  }

  /** The reconciliation loop: one record per listed jurisdiction, pushed
      in list order. */
  function Reconcile(js: seq<Jurisdiccion>, existentes: seq<Escala>, ipc: int, fuente: string, now: Timestamp): (out: seq<Escala>)
    ensures |out| == |js|
    ensures forall i :: 0 <= i < |js| ==> out[i].jurisdiccion == js[i].key
    ensures forall i :: 0 <= i < |js| ==> out[i] == ReconciliarJurisdiccion(js[i], existentes, ipc, fuente, now)
  {
    if js == [] then []
    else Reconcile(js[..|js| - 1], existentes, ipc, fuente, now)
         + [ReconciliarJurisdiccion(js[|js| - 1], existentes, ipc, fuente, now)]
  }

  /** A whole run of the sanidad robot once the I/O is stripped: the
      fetch outcome (with its fallback) and the stored records (empty
      when the read failed) give the records to save. */
  function RunSanidad(reading: Option<IpcSource.IpcReading>, existentes: seq<Escala>, now: Timestamp): (out: seq<Escala>)
    ensures |out| == |Jurisdicciones| == 24
    ensures forall i :: 0 <= i < 24 ==> out[i].jurisdiccion == Jurisdicciones[i].key
    ensures forall i, i' :: 0 <= i < i' < 24 ==> out[i].jurisdiccion != out[i'].jurisdiccion
    ensures forall r :: r in out ==> exists i :: 0 <= i < 24 && r.jurisdiccion == Jurisdicciones[i].key
  {
    JurisdiccionesDistinct();
    var a := IpcSource.SanidadAdjustment(reading);
    Reconcile(Jurisdicciones, existentes, a.ipc, a.fuente, now)
  }

  /** The 24 keys are pairwise distinct. */
  lemma JurisdiccionesDistinct()
    ensures |Jurisdicciones| == 24
    ensures forall i, i' :: 0 <= i < i' < |Jurisdicciones| ==> Jurisdicciones[i].key != Jurisdicciones[i'].key
  {
  }

  /** Exactly six jurisdictions are Patagonian. */
  lemma PatagonicasExactly()
    ensures forall i :: 0 <= i < |Jurisdicciones| ==>
      (Jurisdicciones[i].esPatagonica <==>
       Jurisdicciones[i].key in {"chubut", "laPampa", "neuquen", "rioNegro", "santaCruz", "tierraDelFuego"})
  {
  }

  /** Each Patagonian basic is the normal one plus 20 %, exactly. */
  lemma PatagonicaIsSixFifths()
    ensures 5 * BasicosPatagonica.profesional == 6 * BasicosNormal.profesional
    ensures 5 * BasicosPatagonica.tecnico == 6 * BasicosNormal.tecnico
    ensures 5 * BasicosPatagonica.servicios == 6 * BasicosNormal.servicios
    ensures 5 * BasicosPatagonica.administrativo == 6 * BasicosNormal.administrativo
    ensures 5 * BasicosPatagonica.maestranza == 6 * BasicosNormal.maestranza
  {
  }

  lemma FirstMatchIs(existentes: seq<Escala>, key: string, k: nat)
    requires IsFirstMatch(existentes, key, k)
    ensures FirstMatch(existentes, key) == Some(k)
  {
  }

  /** `out` is `e` adjusted by `ipc`: each of the seven amounts is the
      rounding of amount times `1 + ipc/100`, the legal source and time
      stamp are new, and every other column is `e`'s. */
  ghost predicate AdjustedFrom(e: Escala, out: Escala, ipc: int, fuente: string, now: Timestamp)
  {
    && |Montos(out)| == 7
    && (forall m :: 0 <= m < 7 ==> Money.IsRoundingOf(Montos(out)[m], Montos(e)[m] as real * Money.Factor(ipc)))
    && out.fuenteLegal == fuente
    && out.updatedAt == now
    && out.jurisdiccion == e.jurisdiccion
    && out.nombreMostrar == e.nombreMostrar
    && out.porcentajes == e.porcentajes
    && out.descuentos == e.descuentos
    && out.metadata == e.metadata
  }

  lemma AjustarAdjusts(e: Escala, ipc: int, fuente: string, now: Timestamp)
    ensures AdjustedFrom(e, Ajustar(e, ipc, fuente, now), ipc, fuente, now)
    ensures ipc > 0 ==> forall m :: 0 <= m < 7 && Montos(e)[m] >= 0 ==> Montos(Ajustar(e, ipc, fuente, now))[m] >= Montos(e)[m]
  {
    var out := Ajustar(e, ipc, fuente, now);
    var before, after := Montos(e), Montos(out);
    assert after == [Money.Scale(before[0], ipc), Money.Scale(before[1], ipc), Money.Scale(before[2], ipc),
                     Money.Scale(before[3], ipc), Money.Scale(before[4], ipc), Money.Scale(before[5], ipc),
                     Money.Scale(before[6], ipc)];
    forall m | 0 <= m < 7
      ensures after[m] == Money.Scale(before[m], ipc)
      ensures Money.IsRoundingOf(after[m], before[m] as real * Money.Factor(ipc))
      ensures ipc > 0 && before[m] >= 0 ==> after[m] >= before[m]
    {
      if ipc > 0 && before[m] >= 0 {
        Money.ScaleNeverLowers(before[m], ipc);
      }
    }
  }

  /** Stored record found and a positive IPC: the record is adjusted (no
      non-negative amount goes down); the record's adjustment tag is not
      consulted. */
  lemma ScaledCase(existentes: seq<Escala>, ipc: int, fuente: string, now: Timestamp, i: nat, k: nat)
    requires i < |Jurisdicciones|
    requires IsFirstMatch(existentes, Jurisdicciones[i].key, k)
    requires ipc > 0
    ensures var out, e := Reconcile(Jurisdicciones, existentes, ipc, fuente, now)[i], existentes[k];
      && AdjustedFrom(e, out, ipc, fuente, now)
      && forall m :: 0 <= m < 7 && Montos(e)[m] >= 0 ==> Montos(out)[m] >= Montos(e)[m]
  {
    FirstMatchIs(existentes, Jurisdicciones[i].key, k);
    assert Reconcile(Jurisdicciones, existentes, ipc, fuente, now)[i] == Ajustar(existentes[k], ipc, fuente, now);
    AjustarAdjusts(existentes[k], ipc, fuente, now);
  }

  /** Stored record found and an IPC of zero or less (a negative one
      included): the record is kept as stored, with a fresh time stamp. */
  lemma KeptCase(existentes: seq<Escala>, ipc: int, fuente: string, now: Timestamp, i: nat, k: nat)
    requires i < |Jurisdicciones|
    requires IsFirstMatch(existentes, Jurisdicciones[i].key, k)
    requires ipc <= 0
    ensures Reconcile(Jurisdicciones, existentes, ipc, fuente, now)[i] == existentes[k].(updatedAt := now)
  {
    FirstMatchIs(existentes, Jurisdicciones[i].key, k);
  }

  /** No stored record: a new one from the Patagonian table exactly for
      Patagonian jurisdictions, carrying the fetched text when it is not
      empty and the fixed default otherwise; in every other column it is
      the jurisdiction's whole default profile. */
  lemma CreatedCase(existentes: seq<Escala>, ipc: int, fuente: string, now: Timestamp, i: nat)
    requires i < |Jurisdicciones|
    requires forall m :: 0 <= m < |existentes| ==> existentes[m].jurisdiccion != Jurisdicciones[i].key
    ensures var out, j := Reconcile(Jurisdicciones, existentes, ipc, fuente, now)[i], Jurisdicciones[i];
      && (out.basicos == BasicosPatagonica <==> j.esPatagonica)
      && (out.basicos == BasicosNormal <==> !j.esPatagonica)
      && (out.porcentajes.zonaPatagonica == 20.0 <==> j.esPatagonica)
      && out.metadata == Metadata("ipc", j.esPatagonica)
      && out.nombreMostrar == j.nombre
      && out.fuenteLegal == (if fuente != "" then fuente else FuenteDefault)
      && out.montoFalloCaja == 20000
      && out.topeBasePrevisional == 2500000
      && out.updatedAt == now
      && out == Generar(j, BasicosPara(j), now).(fuenteLegal := if fuente != "" then fuente else FuenteDefault)
  {
  }

  /** When the IPC could not be read, no amount is scaled: stored records
      are kept and new records are stamped with the "no adjustment" text. */
  lemma FailedFetchScalesNothing(existentes: seq<Escala>, now: Timestamp)
    ensures var out := RunSanidad(None, existentes, now);
      && (forall i, k :: 0 <= i < 24 && IsFirstMatch(existentes, Jurisdicciones[i].key, k) ==>
            out[i] == existentes[k].(updatedAt := now))
      && (forall i :: 0 <= i < 24 && FirstMatch(existentes, Jurisdicciones[i].key).None? ==>
            out[i].basicos == BasicosPara(Jurisdicciones[i]) && out[i].fuenteLegal == IpcSource.SinAjuste)
  {
    var out := RunSanidad(None, existentes, now);
    forall i, k | 0 <= i < 24 && IsFirstMatch(existentes, Jurisdicciones[i].key, k)
      ensures out[i] == existentes[k].(updatedAt := now)
    {
      KeptCase(existentes, 0, IpcSource.SinAjuste, now, i, k);
    }
  }

  /** A reading of zero or less leaves stored records exactly as a failed
      fetch does; only newly created records tell the two apart, through
      their legal source. */
  lemma NonPositiveReadingLikeFailure(r: IpcSource.IpcReading, existentes: seq<Escala>, now: Timestamp)
    requires r.hundredths <= 0
    ensures var got, failed := RunSanidad(Some(r), existentes, now), RunSanidad(None, existentes, now);
      forall i :: 0 <= i < 24 ==>
        if FirstMatch(existentes, Jurisdicciones[i].key).Some? then got[i] == failed[i]
        else got[i] == failed[i].(fuenteLegal := IpcSource.SanidadDescription(r)) && got[i] != failed[i]
  {
    IpcSource.FallbackIsNotADescription(r);
  }

  /** The fixed default legal source is never used by a run: the fetch
      step always yields a non-empty text. */
  lemma NewRecordsCarryRunSource(reading: Option<IpcSource.IpcReading>, existentes: seq<Escala>, now: Timestamp)
    ensures var out := RunSanidad(reading, existentes, now);
      forall i :: 0 <= i < 24 && FirstMatch(existentes, Jurisdicciones[i].key).None? ==>
        out[i].fuenteLegal == IpcSource.SanidadAdjustment(reading).fuente && out[i].fuenteLegal != FuenteDefault
  {
    match reading
    case None =>
      assert IpcSource.SinAjuste[0] != FuenteDefault[0];
    case Some(r) =>
      assert IpcSource.SanidadDescription(r)[0] != FuenteDefault[0];
  }

  /** Reconciling the output of a run again with an IPC of zero or less
      finds every record and changes nothing but the time stamps. */
  lemma {:induction false} SecondRunOnlyRefreshes(
    existentes: seq<Escala>, ipc: int, fuente: string, now: Timestamp,
    ipc': int, fuente': string, now': Timestamp)
    requires ipc' <= 0
    ensures var first := Reconcile(Jurisdicciones, existentes, ipc, fuente, now);
      var second := Reconcile(Jurisdicciones, first, ipc', fuente', now');
      && |second| == |first|
      && forall i :: 0 <= i < |first| ==> second[i] == first[i].(updatedAt := now')
  {
    JurisdiccionesDistinct();
    var first := Reconcile(Jurisdicciones, existentes, ipc, fuente, now);
    forall i | 0 <= i < |first|
      ensures Reconcile(Jurisdicciones, first, ipc', fuente', now')[i] == first[i].(updatedAt := now')
    {
      assert IsFirstMatch(first, Jurisdicciones[i].key, i);
      KeptCase(first, ipc', fuente', now', i, i);
    }
  }

  /** The worked example: a stored 850000 professional basic at 2.50 %
      becomes 871250, even when the record is tagged as not index-linked. */
  lemma StaticRecordIsScaledToo(e: Escala, fuente: string, now: Timestamp)
    requires e.jurisdiccion == "caba" && e.basicos.profesional == 850000
    requires e.metadata.tipoAjuste != "ipc"
    ensures Reconcile(Jurisdicciones, [e], 250, fuente, now)[1].basicos.profesional == 871250
  {
    assert IsFirstMatch([e], Jurisdicciones[1].key, 0);
    FirstMatchIs([e], Jurisdicciones[1].key, 0);
    Money.ScaleExample();
  }
}
