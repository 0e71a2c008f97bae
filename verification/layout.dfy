/** The PDF document definition built from a proposal: a cover page, ten
    numbered sections separated by dividers and page breaks, an optional
    assumptions block, and a running header and footer. Blocks are abstract
    layout elements; fonts, margins and colours belong to the renderer. */
module Layout {
  import opened Base
  import opened Decimal
  import opened JsText
  import opened Format
  import opened Proposal

  datatype Style = Body | BodyBold | AccentBold | SmallNote

  /** A table cell: plain text, or an amount shown in euros. */
  datatype Cell = Text(text: string) | Money(amount: real)

  datatype Block =
    | Cover(bureau: string, tagline: string, project: string, details: seq<(string, string)>)
    | PageBreak
    | Divider
    | SectionTitle(number: nat, title: string)
    | Para(style: Style, text: string)
    | Figure(caption: string, value: string)
    | Bullets(items: seq<string>)
    | Callout(caption: string, value: string, note: string)
    | Details(pairs: seq<(string, string)>)
    | Table(header: seq<string>, body: seq<seq<Cell>>, subtotal: Option<TotalRow>)
    | Totals(totals: seq<TotalRow>)
    | Columns(left: seq<Block>, right: seq<Block>)

  /** `x || '—'`. */
  function OrDash(field: Option<string>): string {
    OrText(field, "—")
  }

  /** A printed number with a fallback: `${v || fallback}`. */
  function ScalarOr(v: Scalar, fallback: string): string {
    if Truthy(v) then ScalarText(v) else fallback
  }

  /** A bold label followed by a bullet list, or nothing when the list is
      missing or empty. */
  function LabelledBullets(heading: string, list: Option<seq<string>>): (r: seq<Block>)
    ensures !HasItems(list) <==> r == []
    ensures HasItems(list) ==> r == [Para(BodyBold, heading), Bullets(list.value)]
  {
    if HasItems(list) then [Para(BodyBold, heading), Bullets(list.value)] else []
  }

  // ---------------------------------------------------------------- sections

  function BuildCoverPage(meta: Meta): seq<Block> {
    [ Cover(
        OrText(meta.bureauNaam, "[BUREAUNAAM]"),
        OrText(meta.bureauTagline, "Intelligent Respondent Recruitment"),
        OrText(meta.projectnaam, "Projectnaam"),
        [ ("Offertenummer", OrDash(meta.offerteNummer)),
          ("Datum", FmtDate(meta.offerteDatum)),
          ("Geldig tot", FmtDate(meta.geldigTot)),
          ("Opdrachtgever", OrDash(meta.opdrachtgever)),
          ("Contactpersoon", OrDash(meta.contactpersoon)) ]),
      PageBreak ]
  }

  function BuildManagementSummary(p: Proposal): seq<Block> {
    [SectionTitle(1, "Management Summary"), Para(Body, OrText(p.managementSummary, ""))]
  }

  function BuildDoelgroep(p: Proposal): seq<Block> {
    var dg := DoelgroepOf(p);
    [SectionTitle(2, "Doelgroep & Screening"), Para(Body, OrText(dg.omschrijving, ""))]
    + LabelledBullets("Screeningcriteria:", dg.screeningcriteria)
    + [Callout("Geschatte Incidence Rate", OrDash(dg.incidenceRate), OrText(dg.irToelichting, ""))]
  }

  function LandRow(l: Land): seq<Cell> {
    [Text(l.land), Text(ScalarText(l.completes)), Text(l.taal)]
  }

  function QuotaRow(q: Quota): seq<Cell> {
    [Text(q.variabele), Text(q.verdeling)]
  }

  function BuildSteekproef(p: Proposal): seq<Block> {
    var sp := SteekproefOf(p);
    [SectionTitle(3, "Steekproefopzet"), Figure("Totaal aantal completes: ", ScalarOr(sp.totaalCompletes, "0"))]
    + (if HasItems(sp.landen)
       then [Table(["Land", "Completes", "Taal"], seq(|sp.landen.value|, i requires 0 <= i < |sp.landen.value| => LandRow(sp.landen.value[i])), None)]
       else [])
    + (if HasItems(sp.quotas)
       then [ Para(BodyBold, "Quota-verdeling:"),
              Table(["Variabele", "Verdeling"], seq(|sp.quotas.value|, i requires 0 <= i < |sp.quotas.value| => QuotaRow(sp.quotas.value[i])), None) ]
       else [])
    + (if sp.opmerkingen.Some? && sp.opmerkingen.value != "" then [Para(SmallNote, sp.opmerkingen.value)] else [])
  }

  function BuildMethodologie(p: Proposal): seq<Block> {
    var m := MethodologieOf(p);
    [ SectionTitle(4, "Methodologie"),
      Details([ ("Onderzoekstype", OrDash(m.onderzoekstype)),
                ("Lengte interview (LOI)", ScalarOr(m.loiMinuten, "—") + " minuten") ]) ]
    + (if m.wervingsaanpak.Some? && m.wervingsaanpak.value != ""
       then [Para(BodyBold, "Wervingsaanpak:"), Para(Body, m.wervingsaanpak.value)]
       else [])
    + LabelledBullets("Kwaliteitsmaatregelen:", m.kwaliteitsmaatregelen)
  }

  function FaseRow(f: Fase): seq<Cell> {
    [Text(f.fase), Text(f.duur), Text(f.omschrijving)]
  }

  function BuildPlanning(p: Proposal): seq<Block> {
    var pl := PlanningOf(p);
    [SectionTitle(5, "Planning"), Figure("Totale doorlooptijd: ", ScalarOr(pl.doorlooptijdWerkdagen, "—") + " werkdagen")]
    + (if HasItems(pl.fases)
       then [Table(["Fase", "Duur", "Omschrijving"], seq(|pl.fases.value|, i requires 0 <= i < |pl.fases.value| => FaseRow(pl.fases.value[i])), None)]
       else [])
    + (if pl.verwachteStart.Some? && pl.verwachteStart.value != ""
       then [Details([("Verwachte start", pl.verwachteStart.value), ("Verwachte oplevering", OrDash(pl.verwachteOplevering))])]
       else [])
  }

  function OneOffRow(e: OneOffCost): seq<Cell> {
    [Text(e.omschrijving), Text(OrText(e.toelichting, "")), Money(e.bedrag)]
  }

  function VariableRow(v: VariableCost): seq<Cell> {
    [Text(v.land), Money(v.cpi), Money(v.incentivePerRespondent), Text(ScalarText(v.aantalCompletes)), Money(v.subtotaal)]
  }

  /** The one-off costs table with its subtotal row, when there are one-off costs. */
  function OneOffBlocks(k: Kosten): seq<Block> {
    if HasItems(k.eenmaligeKosten) then
      var items := k.eenmaligeKosten.value;
      [ Para(BodyBold, "Eenmalige kosten"),
        Table(["Omschrijving", "Toelichting", "Bedrag"],
              seq(|items|, i requires 0 <= i < |items| => OneOffRow(items[i])),
              Some(TotalRow(SubtotalOneOff, OrZero(k.subtotaalEenmalig)))) ]
    else []
  }

  /** The variable costs table with its subtotal row, when there are variable costs. */
  function VariableBlocks(k: Kosten): seq<Block> {
    if HasItems(k.variabeleKosten) then
      var items := k.variabeleKosten.value;
      [ Para(BodyBold, "Variabele kosten (per land)"),
        Table(["Land", "CPI", "Incentive", "Completes", "Subtotaal"],
              seq(|items|, i requires 0 <= i < |items| => VariableRow(items[i])),
              Some(TotalRow(SubtotalVariable, OrZero(k.subtotaalVariabel)))) ]
    else []
  }

  function BuildKosten(p: Proposal): seq<Block> {
    var k := KostenOf(p);
    [SectionTitle(6, "Kostenoverzicht")]
    + OneOffBlocks(k)
    + VariableBlocks(k)
    + [Totals(TotalsRows(k))]
    + (if k.btwOpmerking.Some? && k.btwOpmerking.value != "" then [Para(SmallNote, k.btwOpmerking.value)] else [])
  }

  function BuildDeliverables(p: Proposal): seq<Block> {
    [SectionTitle(7, "Deliverables")] + (if HasItems(p.deliverables) then [Bullets(p.deliverables.value)] else [])
  }

  function BuildVerantwoordelijkheden(p: Proposal): seq<Block> {
    var v := VerantwoordelijkhedenOf(p);
    [ SectionTitle(8, "Verantwoordelijkheden"),
      Columns(LabelledBullets("Ons bureau", v.bureau), LabelledBullets("Opdrachtgever", v.opdrachtgever)) ]
  }

  function BuildKwaliteitsgaranties(p: Proposal): seq<Block> {
    [SectionTitle(9, "Kwaliteitsgaranties")] + (if HasItems(p.kwaliteitsgaranties) then [Bullets(p.kwaliteitsgaranties.value)] else [])
  }

  function BuildVoorwaardenDiscl(p: Proposal): seq<Block> {
    [SectionTitle(10, "Voorwaarden & Disclaimers")]
    + LabelledBullets("Voorwaarden:", p.voorwaarden)
    + LabelledBullets("Disclaimers:", p.disclaimers)
  }

  const AannamesNote := "De volgende aannames zijn gemaakt bij het opstellen van deze offerte:"

  /** The assumptions block: nothing when there are no assumptions, otherwise
      a divider, a heading, a note and the assumptions as bullets. */
  function BuildAannames(p: Proposal): (r: seq<Block>)
    ensures !HasItems(p.aannames) <==> r == []
    ensures HasItems(p.aannames) ==> |r| == 4 && r[0] == Divider && r[3] == Bullets(p.aannames.value)
  {
    if !HasItems(p.aannames) then []
    else [Divider, Para(AccentBold, "Aannames"), Para(SmallNote, AannamesNote), Bullets(p.aannames.value)]
  }

  // ---------------------------------------------------------------- document

  /** The page content, in the order the sections appear. */
  function Content(meta: Meta, p: Proposal): seq<Block> {
    BuildCoverPage(meta)
    + BuildManagementSummary(p) + [Divider]
    + BuildDoelgroep(p) + [Divider]
    + BuildSteekproef(p) + [Divider]
    + BuildMethodologie(p) + [Divider]
    + BuildPlanning(p) + [PageBreak]
    + BuildKosten(p) + [Divider]
    + BuildDeliverables(p) + [Divider]
    + BuildVerantwoordelijkheden(p) + [Divider]
    + BuildKwaliteitsgaranties(p) + [Divider]
    + BuildVoorwaardenDiscl(p)
    + BuildAannames(p)
  }

  /** A document definition: the content and the texts of the running header
      and footer. */
  datatype Document = Document(content: seq<Block>, bureauNaam: string, projectnaam: string, offerteNummer: string)

  /** The message JavaScript throws when the cover page reads a field of a
      missing `meta`. */
  const MissingMetaError := "Cannot read properties of undefined (reading 'bureau_naam')"

  /** `buildDocument`: the cover page reads `meta` unguarded, so a proposal
      without it throws. */
  function BuildDocument(p: Proposal): (r: Result<Document>)
    ensures p.meta.None? <==> r.Err?
    ensures r.Ok? ==> r.value.content == Content(p.meta.value, p)
  {
    if p.meta.None? then Err(MissingMetaError)
    else
      var meta := p.meta.value;
      Ok(Document(Content(meta, p), OrText(meta.bureauNaam, ""), OrText(meta.projectnaam, ""), OrText(meta.offerteNummer, "")))
  }

  /** The running header of page `page`: none on the first page, otherwise
      the bureau name on the left and the project name on the right. */
  function Header(d: Document, page: nat): (r: Option<(string, string)>)
    ensures r.None? <==> page == 1
  {
    if page == 1 then None else Some((d.bureauNaam, d.projectnaam))
  }

  /** The running footer of page `page` of `count`: none on the first page,
      otherwise the proposal number marked confidential on the left and
      "page / count" on the right. */
  function Footer(d: Document, page: nat, count: nat): (r: Option<(string, string)>)
    ensures r.None? <==> page == 1
  {
    if page == 1 then None
    else Some((d.offerteNummer + " | Vertrouwelijk", NatToString(page) + " / " + NatToString(count)))
  }

  /** The footer's page counter reads back as the page number and the page count. */
  lemma FooterReadsPageOfCount(d: Document, page: nat, count: nat)
    requires page != 1
    ensures var right := Footer(d, page, count).value.1;
            var parts := Split(right, " / ");
            |parts| == 2 && AllDigits(parts[0]) && AllDigits(parts[1])
            && ParseNat(parts[0]) == page && ParseNat(parts[1]) == count
  {
    var a := NatToString(page);
    var b := NatToString(count);
    assert forall i :: 0 <= i < |a| ==> a[i] != ' ';
    assert forall i :: 0 <= i < |b| ==> b[i] != ' ';
    SplitWithoutSeparator(b, " / ");
    SplitAfterPiece(a, " / ", b);
    ParseNatToString(page);
    ParseNatToString(count);
  }

  // ---------------------------------------------------------------- skeleton

  /** The blocks that give the document its shape. */
  datatype Mark = CoverMark | BreakMark | DividerMark | TitleMark(n: nat) | TotalsMark

  function MarkOf(b: Block): seq<Mark> {
    match b
    case Cover(_, _, _, _) => [CoverMark]
    case PageBreak => [BreakMark]
    case Divider => [DividerMark]
    case SectionTitle(n, _) => [TitleMark(n)]
    case Totals(_) => [TotalsMark]
    case _ => []
  }

  /** The shape-giving blocks of `blocks`, in order. */
  function Marks(blocks: seq<Block>): seq<Mark>
    decreases |blocks|
  {
    if |blocks| == 0 then [] else MarkOf(blocks[0]) + Marks(blocks[1..])
  }

  lemma {:induction false} MarksAppend(a: seq<Block>, b: seq<Block>)
    ensures Marks(a + b) == Marks(a) + Marks(b)
    decreases |a|
  {
    if |a| == 0 {
      assert a + b == b;
    } else {
      assert (a + b)[0] == a[0];
      assert (a + b)[1..] == a[1..] + b;
      MarksAppend(a[1..], b);
    }
  }

  /** A section whose only shape-giving block is its first one. */
  lemma MarksOfLeading(s: seq<Block>)
    requires |s| > 0
    requires forall i :: 1 <= i < |s| ==> MarkOf(s[i]) == []
    ensures Marks(s) == MarkOf(s[0])
  {
    MarksOfPlain(s[1..]);
  }

  /** Blocks without any shape-giving block. */
  lemma {:induction false} MarksOfPlain(a: seq<Block>)
    requires forall i :: 0 <= i < |a| ==> MarkOf(a[i]) == []
    ensures Marks(a) == []
    decreases |a|
  {
    if |a| > 0 {
      MarksOfPlain(a[1..]);
    }
  }

  lemma MarksOfPair(x: Block, y: Block)
    ensures Marks([x, y]) == MarkOf(x) + MarkOf(y)
  {
    assert [x, y][1..] == [y];
    MarksOfLeading([y]);
  }

  /** A leading block, plain blocks, then blocks shaped only by their first. */
  lemma MarksOfLeaderPlainTail(t: Block, a: seq<Block>, tail: seq<Block>)
    requires forall i :: 0 <= i < |a| ==> MarkOf(a[i]) == []
    requires |tail| > 0 && forall i :: 1 <= i < |tail| ==> MarkOf(tail[i]) == []
    ensures Marks([t] + a + tail) == MarkOf(t) + MarkOf(tail[0])
  {
    MarksOfLeaderPlain(t, a);
    MarksOfLeading(tail);
    MarksAppend([t] + a, tail);
  }

  /** A leading block followed by plain blocks. */
  lemma MarksOfLeaderPlain(t: Block, a: seq<Block>)
    requires forall i :: 0 <= i < |a| ==> MarkOf(a[i]) == []
    ensures Marks([t] + a) == MarkOf(t)
  {
    MarksOfPlain(a);
    assert ([t] + a)[1..] == a;
  }

  /** A title, plain blocks, one more shape-giving block and plain blocks. */
  lemma MarksOfTwoLeaders(t: Block, a1: seq<Block>, a2: seq<Block>, x: Block, b: seq<Block>)
    requires forall i :: 0 <= i < |a1| ==> MarkOf(a1[i]) == []
    requires forall i :: 0 <= i < |a2| ==> MarkOf(a2[i]) == []
    requires forall i :: 0 <= i < |b| ==> MarkOf(b[i]) == []
    ensures Marks([t] + a1 + a2 + [x] + b) == MarkOf(t) + MarkOf(x)
  {
    var a := a1 + a2;
    forall i | 0 <= i < |a| ensures MarkOf(a[i]) == [] {
      if i < |a1| { assert a[i] == a1[i]; } else { assert a[i] == a2[i - |a1|]; }
    }
    var tail := [x] + b;
    forall i | 1 <= i < |tail| ensures MarkOf(tail[i]) == [] {
      assert tail[i] == b[i - 1];
    }
    MarksOfLeaderPlainTail(t, a, tail);
    Regroup(t, a1, a2, x, b);
  }

  lemma Regroup(t: Block, a1: seq<Block>, a2: seq<Block>, x: Block, b: seq<Block>)
    ensures [t] + a1 + a2 + [x] + b == [t] + (a1 + a2) + ([x] + b)
  {
  }

  /** The cover contributes the cover and a page break. */
  lemma CoverMarks(meta: Meta)
    ensures Marks(BuildCoverPage(meta)) == [CoverMark, BreakMark]
  {
    MarksOfPair(BuildCoverPage(meta)[0], PageBreak);
  }

  /** The assumptions block contributes a divider exactly when there are
      assumptions. */
  lemma AannamesMarks(p: Proposal)
    ensures Marks(BuildAannames(p)) == (if HasItems(p.aannames) then [DividerMark] else [])
  {
    if HasItems(p.aannames) {
      MarksOfLeading(BuildAannames(p));
    }
  }

  lemma SummaryMarks(p: Proposal)
    ensures Marks(BuildManagementSummary(p)) == [TitleMark(1)]
  {
    MarksOfLeading(BuildManagementSummary(p));
  }

  lemma DoelgroepMarks(p: Proposal)
    ensures Marks(BuildDoelgroep(p)) == [TitleMark(2)]
  {
    MarksOfLeading(BuildDoelgroep(p));
  }

  lemma SteekproefMarks(p: Proposal)
    ensures Marks(BuildSteekproef(p)) == [TitleMark(3)]
  {
    MarksOfLeading(BuildSteekproef(p));
  }

  lemma MethodologieMarks(p: Proposal)
    ensures Marks(BuildMethodologie(p)) == [TitleMark(4)]
  {
    MarksOfLeading(BuildMethodologie(p));
  }

  lemma PlanningMarks(p: Proposal)
    ensures Marks(BuildPlanning(p)) == [TitleMark(5)]
  {
    MarksOfLeading(BuildPlanning(p));
  }

  /** The costs section contributes its title and then its totals table. */
  lemma KostenMarks(p: Proposal)
    ensures Marks(BuildKosten(p)) == [TitleMark(6), TotalsMark]
  {
    var k := KostenOf(p);
    MarksOfTwoLeaders(SectionTitle(6, "Kostenoverzicht"), OneOffBlocks(k), VariableBlocks(k), Totals(TotalsRows(k)),
      if k.btwOpmerking.Some? && k.btwOpmerking.value != "" then [Para(SmallNote, k.btwOpmerking.value)] else []);
  }

  lemma DeliverablesMarks(p: Proposal)
    ensures Marks(BuildDeliverables(p)) == [TitleMark(7)]
  {
    MarksOfLeading(BuildDeliverables(p));
  }

  lemma VerantwoordelijkhedenMarks(p: Proposal)
    ensures Marks(BuildVerantwoordelijkheden(p)) == [TitleMark(8)]
  {
    MarksOfLeading(BuildVerantwoordelijkheden(p));
  }

  lemma KwaliteitsgarantiesMarks(p: Proposal)
    ensures Marks(BuildKwaliteitsgaranties(p)) == [TitleMark(9)]
  {
    MarksOfLeading(BuildKwaliteitsgaranties(p));
  }

  lemma VoorwaardenMarks(p: Proposal)
    ensures Marks(BuildVoorwaardenDiscl(p)) == [TitleMark(10)]
  {
    MarksOfLeading(BuildVoorwaardenDiscl(p));
  }

  lemma MarksOfSingle(b: Block)
    ensures Marks([b]) == MarkOf(b)
  {
    MarksOfLeading([b]);
  }

  /** The shape of every document: the cover and a page break, sections 1 to
      5 separated by dividers, a page break, section 6 with its totals table,
      sections 7 to 10 separated by dividers, and a final divider when there
      are assumptions. */
  function Skeleton(withAannames: bool): seq<Mark> {
    FrontSkeleton()
    + [TitleMark(6), TotalsMark] + [DividerMark] + [TitleMark(7)] + [DividerMark]
    + [TitleMark(8)] + [DividerMark] + [TitleMark(9)] + [DividerMark] + [TitleMark(10)]
    + (if withAannames then [DividerMark] else [])
  }

  /** The shape up to the page break before the costs. */
  function FrontSkeleton(): seq<Mark> {
    [CoverMark, BreakMark]
    + [TitleMark(1)] + [DividerMark] + [TitleMark(2)] + [DividerMark] + [TitleMark(3)] + [DividerMark]
    + [TitleMark(4)] + [DividerMark] + [TitleMark(5)] + [BreakMark]
  }

  /** Marks of the first half of the content: cover through planning and the
      page break after it. */
  lemma FrontMarks(cover: seq<Block>, s1: seq<Block>, s2: seq<Block>, s3: seq<Block>, s4: seq<Block>, s5: seq<Block>)
    requires Marks(cover) == [CoverMark, BreakMark]
    requires Marks(s1) == [TitleMark(1)] && Marks(s2) == [TitleMark(2)] && Marks(s3) == [TitleMark(3)]
    requires Marks(s4) == [TitleMark(4)] && Marks(s5) == [TitleMark(5)]
    ensures Marks(cover + s1 + [Divider] + s2 + [Divider] + s3 + [Divider] + s4 + [Divider] + s5 + [PageBreak])
         == FrontSkeleton()
  {
    MarksOfSingle(Divider); MarksOfSingle(PageBreak);
    var c := cover;
    MarksAppend(c, s1); c := c + s1;
    MarksAppend(c, [Divider]); c := c + [Divider];
    MarksAppend(c, s2); c := c + s2;
    MarksAppend(c, [Divider]); c := c + [Divider];
    MarksAppend(c, s3); c := c + s3;
    MarksAppend(c, [Divider]); c := c + [Divider];
    MarksAppend(c, s4); c := c + s4;
    MarksAppend(c, [Divider]); c := c + [Divider];
    MarksAppend(c, s5); c := c + s5;
    MarksAppend(c, [PageBreak]);
  }

  /** Marks of the content given the marks of its first half and of the
      remaining sections. */
  lemma BackMarks(front: seq<Block>, s6: seq<Block>, s7: seq<Block>, s8: seq<Block>, s9: seq<Block>, s10: seq<Block>,
                  aannames: seq<Block>, withAannames: bool)
    requires Marks(front) == FrontSkeleton()
    requires Marks(s6) == [TitleMark(6), TotalsMark] && Marks(s7) == [TitleMark(7)] && Marks(s8) == [TitleMark(8)]
    requires Marks(s9) == [TitleMark(9)] && Marks(s10) == [TitleMark(10)]
    requires Marks(aannames) == (if withAannames then [DividerMark] else [])
    ensures Marks(front + s6 + [Divider] + s7 + [Divider] + s8 + [Divider] + s9 + [Divider] + s10 + aannames)
         == Skeleton(withAannames)
  {
    MarksOfSingle(Divider);
    var c := front;
    MarksAppend(c, s6); c := c + s6;
    MarksAppend(c, [Divider]); c := c + [Divider];
    MarksAppend(c, s7); c := c + s7;
    MarksAppend(c, [Divider]); c := c + [Divider];
    MarksAppend(c, s8); c := c + s8;
    MarksAppend(c, [Divider]); c := c + [Divider];
    MarksAppend(c, s9); c := c + s9;
    MarksAppend(c, [Divider]); c := c + [Divider];
    MarksAppend(c, s10); c := c + s10;
    MarksAppend(c, aannames);
  }

  /** Whatever the proposal holds, the content has the fixed skeleton: every
      section title 1 to 10 exactly once and in order after the cover, page
      breaks after the cover and before the costs, one divider between every
      other pair of neighbouring sections, and exactly one totals table. */
  lemma DocumentSkeleton(meta: Meta, p: Proposal)
    ensures Marks(Content(meta, p)) == Skeleton(HasItems(p.aannames))
  {
    CoverMarks(meta); SummaryMarks(p); DoelgroepMarks(p); SteekproefMarks(p); MethodologieMarks(p);
    PlanningMarks(p); KostenMarks(p); DeliverablesMarks(p); VerantwoordelijkhedenMarks(p);
    KwaliteitsgarantiesMarks(p); VoorwaardenMarks(p); AannamesMarks(p);
    FrontMarks(BuildCoverPage(meta), BuildManagementSummary(p), BuildDoelgroep(p), BuildSteekproef(p),
               BuildMethodologie(p), BuildPlanning(p));
    BackMarks(BuildCoverPage(meta) + BuildManagementSummary(p) + [Divider] + BuildDoelgroep(p) + [Divider]
                + BuildSteekproef(p) + [Divider] + BuildMethodologie(p) + [Divider] + BuildPlanning(p) + [PageBreak],
              BuildKosten(p), BuildDeliverables(p), BuildVerantwoordelijkheden(p), BuildKwaliteitsgaranties(p),
              BuildVoorwaardenDiscl(p), BuildAannames(p), HasItems(p.aannames));
  }

  /** The assumptions, when there are any, are the last four blocks: a
      divider, the heading, the note and the assumptions as bullets in their
      own order; otherwise the document ends with the terms and disclaimers. */
  lemma AannamesAtEnd(meta: Meta, p: Proposal)
    ensures var c := Content(meta, p);
            HasItems(p.aannames) ==>
              |c| >= 4 && c[|c| - 4..] == [Divider, Para(AccentBold, "Aannames"), Para(SmallNote, AannamesNote), Bullets(p.aannames.value)]
    ensures var c := Content(meta, p);
            var last := BuildVoorwaardenDiscl(p);
            !HasItems(p.aannames) ==> |c| >= |last| && c[|c| - |last|..] == last
  {
    var front := BuildCoverPage(meta)
      + BuildManagementSummary(p) + [Divider]
      + BuildDoelgroep(p) + [Divider]
      + BuildSteekproef(p) + [Divider]
      + BuildMethodologie(p) + [Divider]
      + BuildPlanning(p) + [PageBreak]
      + BuildKosten(p) + [Divider]
      + BuildDeliverables(p) + [Divider]
      + BuildVerantwoordelijkheden(p) + [Divider]
      + BuildKwaliteitsgaranties(p) + [Divider];
    var c := Content(meta, p);
    assert c == front + BuildVoorwaardenDiscl(p) + BuildAannames(p);
    if HasItems(p.aannames) {
      assert c[|c| - 4..] == BuildAannames(p);
    } else {
      assert c == front + BuildVoorwaardenDiscl(p);
    }
  }

  /** The costs section's totals table, with the stated totals, is part of
      every document. */
  lemma TotalsInContent(meta: Meta, p: Proposal)
    ensures Totals(TotalsRows(KostenOf(p))) in Content(meta, p)
  {
    var k := KostenOf(p);
    assert Totals(TotalsRows(k)) in BuildKosten(p);
  }
}
