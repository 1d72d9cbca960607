/** The federal robot: one IPC reading is propagated to every row of
    `maestro_paritarias` whose adjustment tag is 'ipc'; every row read is
    written back, keyed by its jurisdiction. */
module Federal {
  import opened Common
  import Money
  import IpcSource
  import Sanidad

  /** One row of `maestro_paritarias`: the columns the robot reads or
      writes, and the remaining columns as an opaque map. */
  datatype Fila = Fila(
    jurisdiccion: string,
    valorIndice: real,
    fuenteLegal: string,
    updatedAt: Timestamp,
    tipoAjuste: Option<string>,
    otras: map<string, string>)

  /** The three columns sent by one `.update({...}).eq('jurisdiccion', key)`. */
  datatype Cambio = Cambio(jurisdiccion: string, valorIndice: real, updatedAt: Timestamp, fuenteLegal: string)

  /** The update computed for one row: index-linked rows are scaled,
      unrounded, and take the fetched legal source; all others keep both. */
  function CambioPara(p: Fila, ipc: int, fuente: string, now: Timestamp): (c: Cambio)
    ensures c.jurisdiccion == p.jurisdiccion && c.updatedAt == now
  {
    if p.tipoAjuste == Some("ipc") then
      Cambio(p.jurisdiccion, p.valorIndice * Money.Factor(ipc), now, fuente)
    else
      Cambio(p.jurisdiccion, p.valorIndice, now, p.fuenteLegal)
  }

  /** The update loop: one update per row read, in the order read. */
  function Cambios(ps: seq<Fila>, ipc: int, fuente: string, now: Timestamp): (cs: seq<Cambio>)
    ensures |cs| == |ps|
    ensures forall i :: 0 <= i < |ps| ==> cs[i].jurisdiccion == ps[i].jurisdiccion
    ensures forall i :: 0 <= i < |ps| ==> cs[i] == CambioPara(ps[i], ipc, fuente, now)
  {
    if ps == [] then []
    else Cambios(ps[..|ps| - 1], ipc, fuente, now) + [CambioPara(ps[|ps| - 1], ipc, fuente, now)]
  }

  /** What an update writes into a row it matches: three columns, the
      rest untouched. */
  function Escribir(p: Fila, c: Cambio): Fila
  {
    p.(valorIndice := c.valorIndice, updatedAt := c.updatedAt, fuenteLegal := c.fuenteLegal)
  }

  /** One update applied to the table: every row of its jurisdiction is
      written. */
  function Aplicar(t: seq<Fila>, c: Cambio): (t': seq<Fila>)
    ensures |t'| == |t|
    ensures forall i :: 0 <= i < |t| ==> t'[i].jurisdiccion == t[i].jurisdiccion
  {
    seq(|t|, i requires 0 <= i < |t| => if t[i].jurisdiccion == c.jurisdiccion then Escribir(t[i], c) else t[i])
  }

  /** The updates applied one after another, as the loop awaits each. */
  function AplicarTodos(t: seq<Fila>, cs: seq<Cambio>): (t': seq<Fila>)
    ensures |t'| == |t|
    ensures forall i :: 0 <= i < |t| ==> t'[i].jurisdiccion == t[i].jurisdiccion
  {
    if cs == [] then t else Aplicar(AplicarTodos(t, cs[..|cs| - 1]), cs[|cs| - 1])
  }

  /** The position of the last update for `key`, if any. */
  function LastWrite(cs: seq<Cambio>, key: string): (r: Option<nat>)
    ensures r.None? <==> forall m :: 0 <= m < |cs| ==> cs[m].jurisdiccion != key
    ensures r.Some? ==> r.value < |cs| && cs[r.value].jurisdiccion == key
    ensures r.Some? ==> forall m :: r.value < m < |cs| ==> cs[m].jurisdiccion != key
  {
    if cs == [] then None
    else if cs[|cs| - 1].jurisdiccion == key then Some(|cs| - 1)
    else LastWrite(cs[..|cs| - 1], key)
  }

  /** Every row ends up as written by the last update for its
      jurisdiction, or untouched when there is none; columns other than
      the three written ones never change. */
  lemma {:induction false} AplicarTodosRows(t: seq<Fila>, cs: seq<Cambio>)
    ensures forall i :: 0 <= i < |t| ==>
      AplicarTodos(t, cs)[i] ==
        match LastWrite(cs, t[i].jurisdiccion)
        case None => t[i]
        case Some(k) => Escribir(t[i], cs[k])
  {
    if cs != [] {
      var init := cs[..|cs| - 1];
      var c := cs[|cs| - 1];
      AplicarTodosRows(t, init);
      forall i | 0 <= i < |t|
        ensures AplicarTodos(t, cs)[i] ==
          match LastWrite(cs, t[i].jurisdiccion)
          case None => t[i]
          case Some(k) => Escribir(t[i], cs[k])
      {
        var key := t[i].jurisdiccion;
        if c.jurisdiccion != key {
          assert LastWrite(cs, key) == LastWrite(init, key);
          match LastWrite(init, key)
          case None =>
          case Some(k) => assert cs[k] == init[k];
        }
      }
    }
  }

  /** How a run ends. */
  datatype Resultado =
    | FetchFailed           // request failed or fewer than two points
    | IpcZero               // `!ipcMensual`: nothing to apply
    | ReadFailed            // the table could not be read
    | Written(cambios: seq<Cambio>)

  /** A whole run once the I/O is stripped: the reading (None when the
      fetch failed) and the rows read (None when the read failed). */
  function RunFederal(reading: Option<IpcSource.IpcReading>, provincias: Option<seq<Fila>>, now: Timestamp): Resultado
  {
    match reading
    case None => FetchFailed
    case Some(r) =>
      if r.hundredths == 0 then IpcZero
      else match provincias
        case None => ReadFailed
        case Some(ps) => Written(Cambios(ps, r.hundredths, IpcSource.FederalDescription(r), now))
  }

  /** The table after a run. */
  function TablaFinal(o: Resultado, t: seq<Fila>): seq<Fila>
  {
    if o.Written? then AplicarTodos(t, o.cambios) else t
  }

  /** A failed fetch or an IPC of zero ends the run before the table is
      read: the outcome does not depend on it, and nothing is written. */
  lemma AbortsBeforeReading(reading: Option<IpcSource.IpcReading>, read: Option<seq<Fila>>, read': Option<seq<Fila>>, now: Timestamp, t: seq<Fila>)
    requires reading.None? || reading.value.hundredths == 0
    ensures RunFederal(reading, read, now) == RunFederal(reading, read', now)
    ensures !RunFederal(reading, read, now).Written?
    ensures TablaFinal(RunFederal(reading, read, now), t) == t
  {
  }

  /** A request that failed or answered with fewer than two points ends
      the run with nothing written. */
  lemma ShortResponseAborts(resp: IpcSource.SeriesResponse, variation: (real, real) -> int, read: Option<seq<Fila>>, now: Timestamp)
    requires resp.RequestFailed? || |resp.points| < 2
    ensures RunFederal(IpcSource.ReadIpc(resp, variation), read, now) == FetchFailed
  {
  }

  /** Every row read is written back exactly once, in order, keyed by its
      own jurisdiction and stamped with the run's time. */
  lemma EachRowWrittenOnce(r: IpcSource.IpcReading, ps: seq<Fila>, now: Timestamp)
    requires r.hundredths != 0
    ensures var o := RunFederal(Some(r), Some(ps), now);
      && o.Written?
      && |o.cambios| == |ps|
      && forall i :: 0 <= i < |ps| ==> o.cambios[i].jurisdiccion == ps[i].jurisdiccion && o.cambios[i].updatedAt == now
  {
  }

  /** An index-linked row is multiplied by `1 + ipc/100` without rounding
      and records the applied IPC in its legal source; with no sign check,
      a negative IPC lowers a positive index. */
  lemma IndexLinkedRowFollowsIpc(r: IpcSource.IpcReading, ps: seq<Fila>, now: Timestamp, i: nat)
    requires r.hundredths != 0
    requires i < |ps| && ps[i].tipoAjuste == Some("ipc")
    ensures var o := RunFederal(Some(r), Some(ps), now);
      && o.Written? && |o.cambios| == |ps|
      && IndexLinkedMove(ps[i].valorIndice, o.cambios[i].valorIndice, r.hundredths)
      && IpcSource.DescribedIpc(IpcSource.FederalPrefix, o.cambios[i].fuenteLegal) == Some(r.hundredths)
  {
    var fuente := IpcSource.FederalDescription(r);
    var cs := Cambios(ps, r.hundredths, fuente, now);
    assert RunFederal(Some(r), Some(ps), now) == Written(cs);
    assert cs[i] == CambioPara(ps[i], r.hundredths, fuente, now);
    IpcSource.DescriptionRecordsIpc(IpcSource.FederalPrefix, r);
    IndexLinkedUpdate(ps[i], r.hundredths, fuente, now);
  }

  /** `v'` is `v` times `1 + ipc/100`, exactly, and so lies above a
      positive `v` exactly for a positive IPC and below it exactly for a
      negative one. */
  ghost predicate IndexLinkedMove(v: real, v': real, ipc: int)
  {
    && v' * 10000.0 == v * (10000 + ipc) as real
    && (v > 0.0 ==> (v' < v <==> ipc < 0))
    && (v > 0.0 ==> (v' > v <==> ipc > 0))
  }

  lemma IndexLinkedUpdate(p: Fila, ipc: int, fuente: string, now: Timestamp)
    requires p.tipoAjuste == Some("ipc")
    ensures IndexLinkedMove(p.valorIndice, CambioPara(p, ipc, fuente, now).valorIndice, ipc)
    ensures CambioPara(p, ipc, fuente, now).fuenteLegal == fuente
  {
    Money.UnroundedScale(p.valorIndice, ipc);
  }

  /** A row with any other tag, or none, keeps its index and legal
      source whatever the IPC. */
  lemma OtherRowsKeepValues(r: IpcSource.IpcReading, ps: seq<Fila>, now: Timestamp, i: nat)
    requires r.hundredths != 0
    requires i < |ps| && ps[i].tipoAjuste != Some("ipc")
    ensures var c := RunFederal(Some(r), Some(ps), now).cambios[i];
      c.valorIndice == ps[i].valorIndice && c.fuenteLegal == ps[i].fuenteLegal
  {
  }

  lemma LastWriteOfDistinct(ps: seq<Fila>, cs: seq<Cambio>, i: nat)
    requires forall i, j :: 0 <= i < j < |ps| ==> ps[i].jurisdiccion != ps[j].jurisdiccion
    requires |cs| == |ps| && i < |ps|
    requires forall m :: 0 <= m < |ps| ==> cs[m].jurisdiccion == ps[m].jurisdiccion
    ensures LastWrite(cs, ps[i].jurisdiccion) == Some(i)
  {
    assert forall m :: i < m < |cs| ==> cs[m].jurisdiccion != ps[i].jurisdiccion;
    LastWriteIs(cs, ps[i].jurisdiccion, i);
  }

  lemma LastWriteIs(cs: seq<Cambio>, key: string, k: nat)
    requires k < |cs| && cs[k].jurisdiccion == key
    requires forall m :: k < m < |cs| ==> cs[m].jurisdiccion != key
    ensures LastWrite(cs, key) == Some(k)
  {
  }

  /** With distinct jurisdictions, the table after the run holds each
      row's own update and nothing else changed; the tag and the other
      columns are never written. */
  lemma WrittenTable(r: IpcSource.IpcReading, ps: seq<Fila>, now: Timestamp)
    requires r.hundredths != 0
    requires forall i, j :: 0 <= i < j < |ps| ==> ps[i].jurisdiccion != ps[j].jurisdiccion
    ensures var o := RunFederal(Some(r), Some(ps), now);
      var t := TablaFinal(o, ps);
      && |t| == |ps|
      && forall i :: 0 <= i < |ps| ==>
        && t[i] == Escribir(ps[i], o.cambios[i])
        && t[i].jurisdiccion == ps[i].jurisdiccion
        && t[i].tipoAjuste == ps[i].tipoAjuste
        && t[i].otras == ps[i].otras
  {
    var cs := Cambios(ps, r.hundredths, IpcSource.FederalDescription(r), now);
    assert RunFederal(Some(r), Some(ps), now) == Written(cs);
    AplicarTodosRows(ps, cs);
    forall i | 0 <= i < |ps|
      ensures LastWrite(cs, ps[i].jurisdiccion) == Some(i)
    {
      LastWriteOfDistinct(ps, cs, i);
    }
  }

  /** The two robots part ways on a zero IPC: the federal one aborts,
      the sanidad one still produces all 24 records. */
  lemma ZeroIpcContrast(periodo: string, read: Option<seq<Fila>>, existentes: seq<Sanidad.Escala>, now: Timestamp)
    ensures RunFederal(Some(IpcSource.IpcReading(0, periodo)), read, now) == IpcZero
    ensures |Sanidad.RunSanidad(Some(IpcSource.IpcReading(0, periodo)), existentes, now)| == 24
  {
  }
}
