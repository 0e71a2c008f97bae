/** The proposal record the model call returns and the PDF builders read.
    Only the fields the builders, the review screen and the export names use
    are modelled. A JSON field that is absent or `null` is `None`; numbers that
    are only ever printed are kept as primitives (`Scalar`), money amounts as
    reals. */
module Proposal {
  import opened Base

  datatype Meta = Meta(
    bureauNaam: Option<string>,
    bureauTagline: Option<string>,
    projectnaam: Option<string>,
    offerteNummer: Option<string>,
    offerteDatum: Option<string>,
    geldigTot: Option<string>,
    opdrachtgever: Option<string>,
    contactpersoon: Option<string>)

  datatype Doelgroep = Doelgroep(
    omschrijving: Option<string>,
    screeningcriteria: Option<seq<string>>,
    incidenceRate: Option<string>,
    irToelichting: Option<string>)

  datatype Land = Land(land: string, completes: Scalar, taal: string)

  datatype Quota = Quota(variabele: string, verdeling: string)

  datatype Steekproef = Steekproef(
    totaalCompletes: Scalar,
    landen: Option<seq<Land>>,
    quotas: Option<seq<Quota>>,
    opmerkingen: Option<string>)

  datatype Methodologie = Methodologie(
    onderzoekstype: Option<string>,
    loiMinuten: Scalar,
    wervingsaanpak: Option<string>,
    kwaliteitsmaatregelen: Option<seq<string>>)

  datatype Fase = Fase(fase: string, duur: string, omschrijving: string)

  datatype Planning = Planning(
    doorlooptijdWerkdagen: Scalar,
    fases: Option<seq<Fase>>,
    verwachteStart: Option<string>,
    verwachteOplevering: Option<string>)

  /** A line of the one-off costs table. */
  datatype OneOffCost = OneOffCost(omschrijving: string, toelichting: Option<string>, bedrag: real)

  /** A line of the per-country variable costs table. */
  datatype VariableCost = VariableCost(
    land: string,
    cpi: real,
    incentivePerRespondent: real,
    aantalCompletes: Scalar,
    subtotaal: real)

  datatype Kosten = Kosten(
    eenmaligeKosten: Option<seq<OneOffCost>>,
    subtotaalEenmalig: Option<real>,
    variabeleKosten: Option<seq<VariableCost>>,
    subtotaalVariabel: Option<real>,
    totaalExclBtw: Option<real>,
    btwPercentage: Option<int>,
    btwBedrag: Option<real>,
    totaalInclBtw: Option<real>,
    btwOpmerking: Option<string>)

  datatype Verantwoordelijkheden = Verantwoordelijkheden(
    bureau: Option<seq<string>>,
    opdrachtgever: Option<seq<string>>)

  datatype Proposal = Proposal(
    meta: Option<Meta>,
    managementSummary: Option<string>,
    doelgroep: Option<Doelgroep>,
    steekproef: Option<Steekproef>,
    methodologie: Option<Methodologie>,
    planning: Option<Planning>,
    kosten: Option<Kosten>,
    deliverables: Option<seq<string>>,
    verantwoordelijkheden: Option<Verantwoordelijkheden>,
    kwaliteitsgaranties: Option<seq<string>>,
    voorwaarden: Option<seq<string>>,
    disclaimers: Option<seq<string>>,
    aannames: Option<seq<string>>)

  // `data.x || {}`: a missing sub-record reads as one whose fields are all missing.

  function DoelgroepOf(p: Proposal): Doelgroep {
    if p.doelgroep.Some? then p.doelgroep.value else Doelgroep(None, None, None, None)
  }

  function SteekproefOf(p: Proposal): Steekproef {
    if p.steekproef.Some? then p.steekproef.value else Steekproef(Undefined, None, None, None)
  }

  function MethodologieOf(p: Proposal): Methodologie {
    if p.methodologie.Some? then p.methodologie.value else Methodologie(None, Undefined, None, None)
  }

  function PlanningOf(p: Proposal): Planning {
    if p.planning.Some? then p.planning.value else Planning(Undefined, None, None, None)
  }

  function KostenOf(p: Proposal): Kosten {
    if p.kosten.Some? then p.kosten.value else Kosten(None, None, None, None, None, None, None, None, None)
  }

  function VerantwoordelijkhedenOf(p: Proposal): Verantwoordelijkheden {
    if p.verantwoordelijkheden.Some? then p.verantwoordelijkheden.value else Verantwoordelijkheden(None, None)
  }

  /** `k.btw_percentage || 21`: the VAT percentage shown, 21 when missing or 0. */
  function VatPercent(k: Kosten): (r: int)
    ensures r != 0
    ensures k.btwPercentage.Some? && k.btwPercentage.value != 0 ==> r == k.btwPercentage.value
    ensures k.btwPercentage.None? || k.btwPercentage.value == 0 ==> r == 21
  {
    if k.btwPercentage.Some? && k.btwPercentage.value != 0 then k.btwPercentage.value else 21
  }

  /** The label of a row of a totals table; its wording differs between the
      PDF and the browser, its meaning does not. */
  datatype TotalLabel = SubtotalOneOff | SubtotalVariable | ExclVat | Vat(percent: int) | InclVat

  datatype TotalRow = TotalRow(kind: TotalLabel, amount: real)

  /** The three rows of the totals table: excluding VAT, the VAT amount and
      including VAT, each the stated amount or 0. */
  function TotalsRows(k: Kosten): (rows: seq<TotalRow>)
    ensures |rows| == 3
    ensures rows[0].kind == ExclVat && rows[1].kind.Vat? && rows[2].kind == InclVat
  {
    [ TotalRow(ExclVat, OrZero(k.totaalExclBtw)),
      TotalRow(Vat(VatPercent(k)), OrZero(k.btwBedrag)),
      TotalRow(InclVat, OrZero(k.totaalInclBtw)) ]
  }

  /** The stated totals of a cost overview: everything except its line items. */
  predicate SameStatedTotals(k1: Kosten, k2: Kosten) {
    && k1.totaalExclBtw == k2.totaalExclBtw
    && k1.btwPercentage == k2.btwPercentage
    && k1.btwBedrag == k2.btwBedrag
    && k1.totaalInclBtw == k2.totaalInclBtw
  }

  /** The totals rows show the stated amounts verbatim (0 when missing) and the
      stated VAT percentage (21 when missing or 0); they are never computed
      from the line items, so overviews with the same stated totals but any
      line items show the same rows. */
  lemma TotalsRowsStated(k1: Kosten, k2: Kosten)
    ensures TotalsRows(k1)[0].amount == (if k1.totaalExclBtw.Some? then k1.totaalExclBtw.value else 0.0)
    ensures TotalsRows(k1)[1].amount == (if k1.btwBedrag.Some? then k1.btwBedrag.value else 0.0)
    ensures TotalsRows(k1)[2].amount == (if k1.totaalInclBtw.Some? then k1.totaalInclBtw.value else 0.0)
    ensures k1.btwPercentage.None? || k1.btwPercentage.value == 0 ==> TotalsRows(k1)[1].kind == Vat(21)
    ensures SameStatedTotals(k1, k2) ==> TotalsRows(k1) == TotalsRows(k2)
  {
  }
}
