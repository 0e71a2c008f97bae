/** Small text transforms of the proposal tool: the display date, the file
    name slugs of the PDF and JSON exports, the `Content-Disposition` header,
    and the system prompt read from its file. */
module Format {
  import opened Base
  import opened JsText

  // ---------------------------------------------------------------- dates

  /** `fmtDate`: a missing or empty date shows as an em dash; a date made of
      exactly three '-'-separated parts has its first and last part swapped
      (year-month-day becomes day-month-year); anything else is shown as is. */
  function FmtDate(date: Option<string>): (r: string)
    ensures date.None? || date.value == "" ==> r == "—"
    ensures date.Some? && date.value != "" && |Split(date.value, "-")| != 3 ==> r == date.value
    ensures date.Some? && date.value != "" && |Split(date.value, "-")| == 3 ==>
              var parts := Split(date.value, "-");
              Split(r, "-") == [parts[2], parts[1], parts[0]]
  {
    if date.None? || date.value == "" then "—"
    else
      var parts := Split(date.value, "-");
      if |parts| == 3 then
        SplitPiecesFree(date.value, "-");
        SplitJoin([parts[2], parts[1], parts[0]], "-");
        Join([parts[2], parts[1], parts[0]], "-")
      else date.value
  }

  /** Formatting a formatted three-part date gives back the original date. */
  lemma FmtDateTwice(date: string)
    requires date != "" && |Split(date, "-")| == 3
    ensures FmtDate(Some(FmtDate(Some(date)))) == date
  {
    var parts := Split(date, "-");
    var once := FmtDate(Some(date));
    assert |Split(once, "-")| == 3;
    SplitWithoutSeparator("", "-");
    assert once != "";
    assert Split(once, "-") == [parts[2], parts[1], parts[0]];
    assert [parts[0], parts[1], parts[2]] == parts;
    JoinSplit(date, "-");
  }

  // ---------------------------------------------------------------- slugs

  predicate IsAlnum(c: char) {
    ('a' <= c <= 'z') || ('0' <= c <= '9')
  }

  predicate IsSlugChar(c: char) {
    IsAlnum(c) || c == '-'
  }

  predicate SlugChars(s: string) {
    forall i :: 0 <= i < |s| ==> IsSlugChar(s[i])
  }

  predicate NoDoubleHyphen(s: string) {
    forall i :: 0 <= i < |s| - 1 ==> !(s[i] == '-' && s[i + 1] == '-')
  }

  /** `replace(/[^a-z0-9]/g, '-')`. */
  function Hyphenate(s: string): (r: string)
    ensures |r| == |s| && SlugChars(r)
    ensures forall i :: 0 <= i < |s| ==> r[i] == (if IsAlnum(s[i]) then s[i] else '-')
    decreases |s|
  {
    if |s| == 0 then "" else [if IsAlnum(s[0]) then s[0] else '-'] + Hyphenate(s[1..])
  }

  /** The text with every hyphen removed. */
  function WithoutHyphens(s: string): string
    decreases |s|
  {
    if |s| == 0 then "" else (if s[0] == '-' then "" else [s[0]]) + WithoutHyphens(s[1..])
  }

  /** `replace(/-+/g, '-')`: every run of hyphens becomes a single hyphen. */
  function Collapse(s: string): (r: string)
    ensures |r| <= |s|
    ensures |s| > 0 ==> |r| > 0 && r[0] == s[0]
    ensures NoDoubleHyphen(r)
    ensures forall i :: 0 <= i < |r| ==> r[i] in s
    decreases |s|
  {
    if |s| == 0 then ""
    else if |s| >= 2 && s[0] == '-' && s[1] == '-' then Collapse(s[1..])
    else [s[0]] + Collapse(s[1..])
  }

  /** Collapsing removes hyphens only. */
  lemma {:induction false} CollapseKeepsLetters(s: string)
    ensures WithoutHyphens(Collapse(s)) == WithoutHyphens(s)
    decreases |s|
  {
    if |s| > 0 {
      CollapseKeepsLetters(s[1..]);
      if !(|s| >= 2 && s[0] == '-' && s[1] == '-') {
        var x := Collapse(s[1..]);
        assert ([s[0]] + x)[1..] == x;
      }
    }
  }

  /** Text without a run of hyphens is left as it is. */
  lemma {:induction false} CollapseFixesCollapsed(s: string)
    requires NoDoubleHyphen(s)
    ensures Collapse(s) == s
    decreases |s|
  {
    if |s| > 0 {
      NoDoubleHyphenTail(s);
      CollapseFixesCollapsed(s[1..]);
      if |s| >= 2 {
        assert !(s[0] == '-' && s[1] == '-');
      }
    }
  }

  /** Dropping one hyphen of a run does not change the collapse: every run of
      hyphens, whatever its length, ends up as the same single hyphen.
      With `CollapseFixesCollapsed` this fixes `Collapse` completely. */
  lemma {:induction false} CollapseRun(s: string, i: nat)
    requires i + 1 < |s| && s[i] == '-' && s[i + 1] == '-'
    ensures Collapse(s[..i] + s[i + 1..]) == Collapse(s)
    decreases i
  {
    var t := s[..i] + s[i + 1..];
    if i == 0 {
      assert t == s[1..];
    } else {
      var u := s[1..];
      assert u[i - 1] == '-' && u[i] == '-';
      CollapseRun(u, i - 1);
      assert t[1..] == u[..i - 1] + u[i..];
      assert t[0] == s[0] && t[1] == s[1];
    }
  }

  lemma NoDoubleHyphenTail(s: string)
    requires |s| > 0 && NoDoubleHyphen(s)
    ensures NoDoubleHyphen(s[1..])
  {
    var t := s[1..];
    forall i | 0 <= i < |t| - 1 ensures !(t[i] == '-' && t[i + 1] == '-') {
      assert t[i] == s[i + 1] && t[i + 1] == s[i + 2];
    }
  }

  /** Collapsing twice collapses no further. */
  lemma CollapseIdempotent(s: string)
    ensures Collapse(Collapse(s)) == Collapse(s)
  {
    CollapseFixesCollapsed(Collapse(s));
  }

  /** The lower-cased, hyphenated file name stem shared by both exports, from
      the proposal number or the fallback 'offerte'. */
  function SlugStem(number: Option<string>): (r: string)
    ensures SlugChars(r)
    ensures |r| >= |OrText(number, "offerte")|
  {
    Hyphenate(ToLower(OrText(number, "offerte")))
  }

  /** The slug of the PDF file name: the stem with hyphen runs collapsed. */
  function PdfSlug(number: Option<string>): (r: string)
    ensures r == Collapse(SlugStem(number))
    ensures SlugChars(r) && NoDoubleHyphen(r) && |r| > 0
    ensures WithoutHyphens(r) == WithoutHyphens(SlugStem(number))
  {
    CollapseKeepsLetters(SlugStem(number));
    Collapse(SlugStem(number))
  }

  /** For an ASCII proposal number the stem is the number, character by
      character lower-cased, with every character outside `[a-z0-9]` turned
      into a hyphen. */
  lemma SlugStemAscii(number: string)
    requires number != "" && IsAscii(number)
    ensures |SlugStem(Some(number))| == |number|
    ensures forall i :: 0 <= i < |number| ==>
              SlugStem(Some(number))[i] == (if IsAlnum(AsciiLower(number[i])) then AsciiLower(number[i]) else '-')
  {
    ToLowerAscii(number);
  }

  /** Without a proposal number both exports are named after 'offerte'. */
  lemma SlugFallback(number: Option<string>)
    requires number.None? || number.value == ""
    ensures SlugStem(number) == "offerte"
    ensures PdfSlug(number) == "offerte"
  {
    var o := "offerte";
    assert forall i :: 0 <= i < |o| ==> IsAlnum(o[i]);
    ToLowerKeepsLowerAscii(o);
    HyphenateKeepsAlnum(o);
    assert NoDoubleHyphen(o);
    CollapseFixesCollapsed(o);
  }

  /** Lower-case letters and digits are kept by the hyphenation. */
  lemma HyphenateKeepsAlnum(s: string)
    requires forall i :: 0 <= i < |s| ==> IsAlnum(s[i])
    ensures Hyphenate(s) == s
  {
    var r := Hyphenate(s);
    assert forall i :: 0 <= i < |s| ==> r[i] == s[i];
  }

  /** The download name of the PDF: the slug plus '.pdf'. */
  function PdfFileName(number: Option<string>): (r: string)
    ensures |r| > 4 && r[|r| - 4..] == ".pdf"
    ensures r[..|r| - 4] == PdfSlug(number)
    ensures SlugChars(r[..|r| - 4]) && NoDoubleHyphen(r[..|r| - 4])
  {
    var r := PdfSlug(number) + ".pdf";
    assert r[..|r| - 4] == PdfSlug(number);
    r
  }

  /** The browser's JSON export name: the stem, runs not collapsed, plus '.json'. */
  function JsonFileName(number: Option<string>): (r: string)
    ensures |r| >= 5 && r[|r| - 5..] == ".json"
    ensures r[..|r| - 5] == SlugStem(number)
    ensures SlugChars(r[..|r| - 5])
    ensures Collapse(r[..|r| - 5]) == PdfSlug(number)
  {
    var r := SlugStem(number) + ".json";
    assert r[..|r| - 5] == SlugStem(number);
    r
  }

  /** For an ASCII proposal number the export name keeps one character per
      character of the number, runs of hyphens included, then '.json'. */
  lemma JsonFileNameAscii(number: string)
    requires number != "" && IsAscii(number)
    ensures var r := JsonFileName(Some(number));
            && |r| == |number| + 5
            && forall i :: 0 <= i < |number| ==>
                 r[i] == (if IsAlnum(AsciiLower(number[i])) then AsciiLower(number[i]) else '-')
  {
    SlugStemAscii(number);
    var r := JsonFileName(Some(number));
    assert r[..|r| - 5] == SlugStem(Some(number));
  }

  /** The `Content-Disposition` header value of the PDF response. */
  function ContentDisposition(number: Option<string>): string
  {
    AttachmentHeader(PdfFileName(number))
  }

  /** `attachment; filename="<name>"`. */
  function AttachmentHeader(name: string): string
  {
    "attachment; filename=" + "\"" + (name + "\"")
  }

  /** The quoted part of the header is exactly the PDF file name: the name
      holds no quote, so splitting the header on '"' recovers it. */
  lemma ContentDispositionQuotesFileName(number: Option<string>)
    ensures Split(ContentDisposition(number), "\"") == ["attachment; filename=", PdfFileName(number), ""]
  {
    FileNameHasNoQuote(number);
    AttachmentHeaderQuotesName(PdfFileName(number));
  }

  /** A quote-free name is read back from the header by splitting on '"'. */
  lemma AttachmentHeaderQuotesName(name: string)
    requires '"' !in name
    ensures Split(AttachmentHeader(name), "\"") == ["attachment; filename=", name, ""]
  {
    SplitQuoted("attachment; filename=", name);
  }

  lemma FileNameHasNoQuote(number: Option<string>)
    ensures '"' !in PdfFileName(number)
  {
    NoQuoteInSlug(PdfSlug(number));
  }

  lemma NoQuoteInSlug(slug: string)
    requires SlugChars(slug)
    ensures '"' !in slug + ".pdf"
  {
    assert forall i :: 0 <= i < |slug| ==> slug[i] != '"';
  }

  /** Splitting `prefix"name"` on '"' when neither part holds a quote. */
  lemma SplitQuoted(prefix: string, name: string)
    requires '"' !in prefix && '"' !in name
    ensures Split(prefix + "\"" + (name + "\""), "\"") == [prefix, name, ""]
  {
    SplitWithoutSeparator("", "\"");
    SplitAfterPiece(name, "\"", "");
    assert name + "\"" + "" == name + "\"";
    SplitAfterPiece(prefix, "\"", name + "\"");
  }

  // ---------------------------------------------------------------- system prompt

  /** `raw.split('---').slice(1).join('---').trim()`: the prompt file without
      its header. */
  function SystemPrompt(raw: string): string
  {
    Trim(Join(Split(raw, "---")[1..], "---"))
  }

  /** The system prompt is the trimmed text after the first '---' (later
      '---' are kept), and empty when the file has no '---'. */
  lemma SystemPromptAfterFirstSeparator(raw: string)
    ensures (forall j :: !OccursAt(raw, "---", j)) ==> SystemPrompt(raw) == ""
    ensures forall i :: FirstAt(raw, "---", i) ==> SystemPrompt(raw) == Trim(raw[i + 3..])
  {
    if IndexOf(raw, "---").None? {
      PromptWithoutSeparator(raw);
    }
    forall i | FirstAt(raw, "---", i) ensures SystemPrompt(raw) == Trim(raw[i + 3..]) {
      IndexOfFromIs(raw, "---", 0, i);
      PromptAfter(raw, i);
    }
  }

  lemma PromptWithoutSeparator(raw: string)
    requires IndexOf(raw, "---").None?
    ensures SystemPrompt(raw) == ""
  {
    assert Split(raw, "---") == [raw];
    assert Split(raw, "---")[1..] == [];
  }

  /** The prompt after the separator `indexOf` finds. */
  lemma PromptAfter(raw: string, i: nat)
    requires IndexOf(raw, "---") == Some(i)
    ensures SystemPrompt(raw) == Trim(raw[i + 3..])
  {
    var rest := raw[i + 3..];
    assert Split(raw, "---") == [raw[..i]] + Split(rest, "---");
    assert Split(raw, "---")[1..] == Split(rest, "---");
    JoinSplit(rest, "---");
  }
}
