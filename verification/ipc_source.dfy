/** The outcome of the IPC query and the legal-source text built from it.

    The HTTP request itself is not modelled: its outcome is an input.
    The float arithmetic that turns the two index values into a
    percentage is a parameter, `variation`, returning hundredths. */
module IpcSource {
  import opened Common
  import DecimalText

  /** One `[period, value]` pair of the series payload. */
  datatype Point = Point(periodo: string, valor: real)

  /** The series request: failed (network error, timeout, missing
      `data`), or answered with its points, the most recent first. */
  datatype SeriesResponse = RequestFailed | Series(points: seq<Point>)

  /** A usable reading: the monthly IPC in hundredths of a percent and
      the period of the latest observation. */
  datatype IpcReading = IpcReading(hundredths: int, periodo: string)

  /** A reading exists exactly when the request answered with at least
      two points; the IPC compares the latest point with the one before
      it, and the period is the latest point's. */
  function ReadIpc(resp: SeriesResponse, variation: (real, real) -> int): (r: Option<IpcReading>)
    ensures r.Some? <==> resp.Series? && |resp.points| >= 2
    ensures r.Some? ==> r.value.periodo == resp.points[0].periodo
    ensures r.Some? ==> r.value.hundredths == variation(resp.points[0].valor, resp.points[1].valor)
  {
    if resp.Series? && |resp.points| >= 2 then
      Some(IpcReading(variation(resp.points[0].valor, resp.points[1].valor), resp.points[0].periodo))
    else None
  }

  /** Only the two most recent points are ever consulted. */
  lemma ReadIpcUsesTwoPoints(ps: seq<Point>, variation: (real, real) -> int)
    requires |ps| >= 2
    ensures ReadIpc(Series(ps), variation) == ReadIpc(Series(ps[..2]), variation)
  {
  }

  const SanidadPrefix: string := "Ajuste automático IPC INDEC: "
  const FederalPrefix: string := "Ajuste automático IPC INDEC (Oficial): "

  /** Legal source written by the sanidad script when no IPC could be read. */
  const SinAjuste: string := "Sin ajuste IPC - Valores base"

  /** `${prefix}${ipcMensual}% (Mes: ${fecha})`. */
  function Description(prefix: string, r: IpcReading): string
  {
    prefix + DecimalText.HundredthsText(r.hundredths) + "% (Mes: " + r.periodo + ")"
  }

  function SanidadDescription(r: IpcReading): string
  {
    Description(SanidadPrefix, r)
  }

  function FederalDescription(r: IpcReading): string
  {
    Description(FederalPrefix, r)
  }

  /** Reads the IPC back out of a legal-source text with the given prefix. */
  function DescribedIpc(prefix: string, s: string): Option<int>
  {
    if |s| < |prefix| || s[..|prefix|] != prefix then None
    else
      var rest := s[|prefix|..];
      DecimalText.ParseHundredths(rest[..DecimalText.IndexOf(rest, '%')])
  }

  /** A legal-source text records the IPC that was applied, exactly. */
  lemma DescriptionRecordsIpc(prefix: string, r: IpcReading)
    ensures DescribedIpc(prefix, Description(prefix, r)) == Some(r.hundredths)
  {
    var t := DecimalText.HundredthsText(r.hundredths);
    var s := Description(prefix, r);
    var rest := s[|prefix|..];
    assert s[..|prefix|] == prefix;
    assert rest == t + "% (Mes: " + r.periodo + ")";
    assert forall i :: 0 <= i < |t| ==> rest[i] == t[i];
    assert rest[|t|] == '%';
    assert DecimalText.IndexOf(rest, '%') == |t|;
    assert rest[..|t|] == t;
    DecimalText.HundredthsRoundTrip(r.hundredths);
  }

  /** The IPC and legal source the sanidad script proceeds with: a
      failed or insufficient fetch degrades to an IPC of zero and the
      fixed "no adjustment" text. */
  datatype Adjustment = Adjustment(ipc: int, fuente: string)

  function SanidadAdjustment(reading: Option<IpcReading>): (a: Adjustment)
    ensures reading.None? ==> a == Adjustment(0, SinAjuste)
    ensures reading.Some? ==> a.ipc == reading.value.hundredths
    ensures reading.Some? ==> DescribedIpc(SanidadPrefix, a.fuente) == Some(a.ipc)
    ensures |a.fuente| > 0
  {
    match reading
    case None => Adjustment(0, SinAjuste)
    case Some(r) =>
      DescriptionRecordsIpc(SanidadPrefix, r);
      Adjustment(r.hundredths, SanidadDescription(r))
  }

  /** The fallback text can never be mistaken for a fetched reading, even
      one of zero percent. */
  lemma FallbackIsNotADescription(r: IpcReading)
    ensures SanidadDescription(r) != SinAjuste
  {
    assert SanidadDescription(r)[0] == 'A';
  }
}
