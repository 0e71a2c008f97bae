/** The review screen's HTML helpers: escaping of text placed in markup, the
    mini table of cost lines and the cost summary rows. */
module Html {
  import opened Base
  import opened Decimal
  import opened JsText
  import opened Proposal

  // ---------------------------------------------------------------- escaping

  /** The characters that are significant in markup. */
  predicate Special(c: char) {
    c == '&' || c == '<' || c == '>' || c == '"'
  }

  /** No character of `s` is `c`. */
  predicate Free(s: string, c: char) {
    forall i :: 0 <= i < |s| ==> s[i] != c
  }

  /** The entity a markup-significant character is written as, or the
      character itself. */
  function EscChar(c: char): (r: string)
    ensures |r| >= 1
    ensures !Special(c) ==> r == [c]
    ensures Special(c) ==> r[0] == '&'
  {
    if c == '&' then "&amp;"
    else if c == '<' then "&lt;"
    else if c == '>' then "&gt;"
    else if c == '"' then "&quot;"
    else [c]
  }

  /** `s` begins with one of the four entities `esc` writes. */
  predicate StartsWithEntity(s: string) {
    || (|s| >= 5 && s[..5] == "&amp;")
    || (|s| >= 4 && s[..4] == "&lt;")
    || (|s| >= 4 && s[..4] == "&gt;")
    || (|s| >= 6 && s[..6] == "&quot;")
  }

  /** Text safe to place in markup: no raw '<', '>' or '"', and every '&'
      begins an entity. */
  predicate Escaped(s: string) {
    forall i :: 0 <= i < |s| ==> s[i] != '<' && s[i] != '>' && s[i] != '"' && (s[i] == '&' ==> StartsWithEntity(s[i..]))
  }

  lemma EscCharEscaped(c: char)
    ensures Escaped(EscChar(c))
  {
    if c == '&' {
      EntityEscaped("&amp;");
    } else if c == '<' {
      EntityEscaped("&lt;");
    } else if c == '>' {
      EntityEscaped("&gt;");
    } else if c == '"' {
      EntityEscaped("&quot;");
    }
  }

  /** An entity is escaped text: its '&' begins it and nothing after is
      significant. */
  lemma EntityEscaped(e: string)
    requires |e| > 0 && e[0] == '&' && StartsWithEntity(e)
    requires forall i :: 1 <= i < |e| ==> !Special(e[i])
    ensures Escaped(e)
  {
    assert e[0..] == e;
  }

  lemma {:induction false} EscapedAppend(a: string, b: string)
    requires Escaped(a) && Escaped(b)
    ensures Escaped(a + b)
  {
    var s := a + b;
    forall i | 0 <= i < |s| ensures s[i] != '<' && s[i] != '>' && s[i] != '"' && (s[i] == '&' ==> StartsWithEntity(s[i..])) {
      if i < |a| {
        assert s[i] == a[i];
        if a[i] == '&' {
          var t := a[i..];
          assert StartsWithEntity(t);
          assert s[i..] == t + b;
          assert (t + b)[..|t|] == t;
        }
      } else {
        assert s[i] == b[i - |a|];
        assert s[i..] == b[i - |a|..];
      }
    }
  }

  /** The escaped text: each character replaced by its entity. */
  function Esc(s: string): (r: string)
    ensures |r| >= |s|
    ensures Escaped(r)
    decreases |s|
  {
    if |s| == 0 then ""
    else
      var r := EscChar(s[0]) + Esc(s[1..]);
      EscCharEscaped(s[0]);
      EscapedAppend(EscChar(s[0]), Esc(s[1..]));
      r
  }

  /** `replace(/c/g, rep)`: every occurrence of the character `c` replaced. */
  function ReplaceAll(s: string, c: char, rep: string): (r: string)
    decreases |s|
  {
    if |s| == 0 then "" else (if s[0] == c then rep else [s[0]]) + ReplaceAll(s[1..], c, rep)
  }

  lemma {:induction false} ReplaceAllAppend(a: string, b: string, c: char, rep: string)
    ensures ReplaceAll(a + b, c, rep) == ReplaceAll(a, c, rep) + ReplaceAll(b, c, rep)
    decreases |a|
  {
    if |a| == 0 {
      assert a + b == b;
    } else {
      assert (a + b)[0] == a[0];
      assert (a + b)[1..] == a[1..] + b;
      ReplaceAllAppend(a[1..], b, c, rep);
    }
  }

  /** Replacing a character the text does not hold changes nothing. */
  lemma {:induction false} ReplaceAllAbsent(s: string, c: char, rep: string)
    requires Free(s, c)
    ensures ReplaceAll(s, c, rep) == s
    decreases |s|
  {
    if |s| > 0 {
      ReplaceAllAbsent(s[1..], c, rep);
      assert s == [s[0]] + s[1..];
    }
  }

  /** `esc`'s four passes, '&' first. */
  function FourPasses(s: string): string {
    ReplaceAll(ReplaceAll(ReplaceAll(ReplaceAll(s, '&', "&amp;"), '<', "&lt;"), '>', "&gt;"), '"', "&quot;")
  }

  lemma ReplaceAllSingle(c: char, d: char, rep: string)
    ensures ReplaceAll([c], d, rep) == if c == d then rep else [c]
  {
    assert [c][1..] == [];
  }

  lemma FourPassesChar(c: char)
    ensures FourPasses([c]) == EscChar(c)
  {
    ReplaceAllSingle(c, '&', "&amp;");
    if c == '&' {
      assert Free("&amp;", '<') && Free("&amp;", '>') && Free("&amp;", '"');
      LastPassesKeep("&amp;");
    } else {
      SecondPassChar(c);
    }
  }

  /** The passes after the first leave text without '<', '>' and '"' alone. */
  lemma LastPassesKeep(e: string)
    requires Free(e, '<') && Free(e, '>') && Free(e, '"')
    ensures ReplaceAll(ReplaceAll(ReplaceAll(e, '<', "&lt;"), '>', "&gt;"), '"', "&quot;") == e
  {
    ReplaceAllAbsent(e, '<', "&lt;");
    ReplaceAllAbsent(e, '>', "&gt;");
    ReplaceAllAbsent(e, '"', "&quot;");
  }

  /** The passes from the second on, for a character other than '&'. */
  lemma SecondPassChar(c: char)
    requires c != '&'
    ensures ReplaceAll(ReplaceAll(ReplaceAll([c], '<', "&lt;"), '>', "&gt;"), '"', "&quot;") == EscChar(c)
  {
    ReplaceAllSingle(c, '<', "&lt;");
    if c == '<' {
      assert Free("&lt;", '>') && Free("&lt;", '"');
      ReplaceAllAbsent("&lt;", '>', "&gt;");
      ReplaceAllAbsent("&lt;", '"', "&quot;");
    } else {
      ThirdPassChar(c);
    }
  }

  lemma ThirdPassChar(c: char)
    requires c != '&' && c != '<'
    ensures ReplaceAll(ReplaceAll([c], '>', "&gt;"), '"', "&quot;") == EscChar(c)
  {
    ReplaceAllSingle(c, '>', "&gt;");
    if c == '>' {
      assert Free("&gt;", '"');
      ReplaceAllAbsent("&gt;", '"', "&quot;");
    } else {
      ReplaceAllSingle(c, '"', "&quot;");
    }
  }

  lemma FourPassesAppend(a: string, b: string)
    ensures FourPasses(a + b) == FourPasses(a) + FourPasses(b)
  {
    var a1 := ReplaceAll(a, '&', "&amp;");
    var b1 := ReplaceAll(b, '&', "&amp;");
    ReplaceAllAppend(a, b, '&', "&amp;");
    var a2 := ReplaceAll(a1, '<', "&lt;");
    var b2 := ReplaceAll(b1, '<', "&lt;");
    ReplaceAllAppend(a1, b1, '<', "&lt;");
    var a3 := ReplaceAll(a2, '>', "&gt;");
    var b3 := ReplaceAll(b2, '>', "&gt;");
    ReplaceAllAppend(a2, b2, '>', "&gt;");
    ReplaceAllAppend(a3, b3, '"', "&quot;");
  }

  /** Escaping '&' first means the later passes never touch the entities the
      earlier ones wrote: the four passes escape each character on its own. */
  lemma {:induction false} FourPassesIsEsc(s: string)
    ensures FourPasses(s) == Esc(s)
    decreases |s|
  {
    if |s| == 0 {
    } else {
      assert s == [s[0]] + s[1..];
      FourPassesAppend([s[0]], s[1..]);
      FourPassesChar(s[0]);
      FourPassesIsEsc(s[1..]);
    }
  }

  /** Reads the four entities back. */
  function Unescape(s: string): string
    decreases |s|
  {
    if |s| == 0 then ""
    else if |s| >= 5 && s[..5] == "&amp;" then "&" + Unescape(s[5..])
    else if |s| >= 4 && s[..4] == "&lt;" then "<" + Unescape(s[4..])
    else if |s| >= 4 && s[..4] == "&gt;" then ">" + Unescape(s[4..])
    else if |s| >= 6 && s[..6] == "&quot;" then "\"" + Unescape(s[6..])
    else [s[0]] + Unescape(s[1..])
  }

  lemma UnescapeAmp(rest: string)
    ensures Unescape("&amp;" + rest) == "&" + Unescape(rest)
  {
    var t := "&amp;" + rest;
    assert t[..5] == "&amp;";
    assert t[5..] == rest;
  }

  lemma UnescapeLt(rest: string)
    ensures Unescape("&lt;" + rest) == "<" + Unescape(rest)
  {
    var t := "&lt;" + rest;
    assert t[..4] == "&lt;";
    assert t[4..] == rest;
    assert |t| >= 5 ==> t[..5][1] == 'l';
  }

  lemma UnescapeGt(rest: string)
    ensures Unescape("&gt;" + rest) == ">" + Unescape(rest)
  {
    var t := "&gt;" + rest;
    assert t[..4] == "&gt;";
    assert t[4..] == rest;
    assert |t| >= 5 ==> t[..5][1] == 'g';
    assert t[..4][1] == 'g';
  }

  lemma UnescapeQuot(rest: string)
    ensures Unescape("&quot;" + rest) == "\"" + Unescape(rest)
  {
    var t := "&quot;" + rest;
    assert t[..6] == "&quot;";
    assert t[6..] == rest;
    assert t[..5][1] == 'q';
    assert t[..4][1] == 'q';
  }

  lemma UnescapePlain(c: char, rest: string)
    requires c != '&'
    ensures Unescape([c] + rest) == [c] + Unescape(rest)
  {
    var t := [c] + rest;
    assert t[1..] == rest;
    assert t[0] == c;
  }

  /** Reading back an escaped character followed by more text. */
  lemma UnescapeStep(c: char, rest: string)
    ensures Unescape(EscChar(c) + rest) == [c] + Unescape(rest)
  {
    if c == '&' {
      UnescapeAmp(rest);
    } else if c == '<' {
      UnescapeLt(rest);
    } else if c == '>' {
      UnescapeGt(rest);
    } else if c == '"' {
      UnescapeQuot(rest);
    } else {
      UnescapePlain(c, rest);
    }
  }

  /** Escaping loses nothing: reading the entities back gives the text. */
  lemma {:induction false} UnescapeEsc(s: string)
    ensures Unescape(Esc(s)) == s
    decreases |s|
  {
    if |s| > 0 {
      UnescapeEsc(s[1..]);
      UnescapeStep(s[0], Esc(s[1..]));
      assert s == [s[0]] + s[1..];
    }
  }

  /** `esc(s)` applied to a primitive: `String(s || '')`, escaped. */
  function EscValue(v: Scalar): (r: string)
    ensures !Truthy(v) ==> r == ""
    ensures Truthy(v) ==> Unescape(r) == ScalarText(v)
    ensures Escaped(r)
  {
    if Truthy(v) then UnescapeEsc(ScalarText(v)); Esc(ScalarText(v)) else Esc("")
  }

  // ---------------------------------------------------------------- mini table

  /** A piece of markup: a tag (its text between '<' and '>') or text. */
  datatype Token = Tag(name: string) | Chars(text: string)

  function TokenText(t: Token): string {
    match t
    case Tag(n) => "<" + n + ">"
    case Chars(x) => x
  }

  /** The markup the tokens are written as. */
  function Render(toks: seq<Token>): string
    decreases |toks|
  {
    if |toks| == 0 then "" else TokenText(toks[0]) + Render(toks[1..])
  }

  /** A tag whose name holds no angle bracket, or non-empty escaped text. */
  predicate GoodToken(t: Token) {
    match t
    case Tag(n) => Free(n, '<') && Free(n, '>')
    case Chars(x) => x != "" && Escaped(x)
  }

  /** Tokens a reader can tell apart: every token good, and no two texts
      next to each other. */
  predicate Readable(toks: seq<Token>) {
    && (forall i :: 0 <= i < |toks| ==> GoodToken(toks[i]))
    && (forall i :: 0 <= i < |toks| - 1 ==> toks[i].Tag? || toks[i + 1].Tag?)
  }

  /** Reads markup as tags and text. */
  function Lex(s: string): seq<Token>
    decreases |s|
  {
    if |s| == 0 then []
    else if s[0] == '<' then
      match IndexOf(s, ">")
      case None => [Chars(s)]
      case Some(j) => [Tag(s[1..j])] + Lex(s[j + 1..])
    else
      match IndexOf(s, "<")
      case None => [Chars(s)]
      case Some(k) => [Chars(s[..k])] + Lex(s[k..])
  }

  /** Reading a tag followed by more markup. */
  lemma LexTag(n: string, tail: string)
    requires Free(n, '<') && Free(n, '>')
    ensures Lex("<" + n + ">" + tail) == [Tag(n)] + Lex(tail)
  {
    var s := "<" + n + ">" + tail;
    assert forall i :: 0 <= i < |"<" + n| ==> ("<" + n)[i] != '>';
    IndexOfAfterPiece("<" + n, ">", tail);
    assert s[1..|n| + 1] == n;
    assert s[|n| + 2..] == tail;
  }

  /** Reading text followed by a tag. */
  lemma LexCharsBeforeTag(x: string, tail: string)
    requires x != "" && Free(x, '<') && |tail| > 0 && tail[0] == '<'
    ensures Lex(x + tail) == [Chars(x)] + Lex(tail)
  {
    var s := x + tail;
    assert s[0] == x[0];
    assert tail == "<" + tail[1..];
    IndexOfAfterPiece(x, "<", tail[1..]);
    assert x + "<" + tail[1..] == s;
    assert s[..|x|] == x;
    assert s[|x|..] == tail;
  }

  /** Reading text that ends the markup. */
  lemma LexCharsAtEnd(x: string)
    requires x != "" && Free(x, '<')
    ensures Lex(x) == [Chars(x)]
  {
    assert x[0] != '<';
    assert forall j :: OccursAt(x, "<", j) ==> x[j] == '<';
  }

  /** Markup written from readable tokens reads back as those tokens. */
  lemma {:induction false} LexRender(toks: seq<Token>)
    requires Readable(toks)
    ensures Lex(Render(toks)) == toks
    decreases |toks|
  {
    if |toks| > 0 {
      var rest := toks[1..];
      assert forall i :: 0 <= i < |rest| ==> rest[i] == toks[i + 1];
      LexRender(rest);
      var tail := Render(rest);
      assert Render(toks) == TokenText(toks[0]) + tail;
      assert GoodToken(toks[0]);
      match toks[0]
      case Tag(n) =>
        LexTag(n, tail);
      case Chars(x) =>
        if |rest| == 0 {
          assert Render(toks) == x;
          LexCharsAtEnd(x);
        } else {
          assert rest[0].Tag?;
          assert tail == "<" + rest[0].name + ">" + Render(rest[1..]);
          LexCharsBeforeTag(x, tail);
        }
    }
  }

  /** The text of a cell: `String(cell ?? '')`, escaped; `null` and
      `undefined` cells are empty. */
  function CellText(v: Scalar): (r: string)
    ensures v.Undefined? || v.Null? ==> r == ""
    ensures !(v.Undefined? || v.Null?) ==> Unescape(r) == ScalarText(v)
  {
    if v.Undefined? || v.Null? then Esc("")
    else UnescapeEsc(ScalarText(v)); Esc(ScalarText(v))
  }

  /** `cellClasses?.[i] ? ` class="…"` : ''`. */
  function ClassAttr(classes: seq<Option<string>>, i: nat): string {
    if i < |classes| && classes[i].Some? && classes[i].value != "" then " class=\"" + classes[i].value + "\"" else ""
  }

  /** Readable tokens that begin and end with a tag, or none. */
  predicate Clean(toks: seq<Token>) {
    && Readable(toks)
    && (|toks| == 0 || (toks[0].Tag? && toks[|toks| - 1].Tag?))
  }

  lemma CleanAppend(a: seq<Token>, b: seq<Token>)
    requires Clean(a) && Clean(b)
    ensures Clean(a + b)
  {
    var s := a + b;
    forall i | 0 <= i < |s| ensures GoodToken(s[i]) {
      if i < |a| { assert s[i] == a[i]; } else { assert s[i] == b[i - |a|]; }
    }
    forall i | 0 <= i < |s| - 1 ensures s[i].Tag? || s[i + 1].Tag? {
      if i < |a| - 1 {
        assert s[i] == a[i] && s[i + 1] == a[i + 1];
      } else if i == |a| - 1 {
        assert s[i] == a[i];
      } else {
        assert s[i] == b[i - |a|] && s[i + 1] == b[i + 1 - |a|];
      }
    }
  }

  /** Text between tags; empty text writes nothing and is no token. */
  function TextToken(x: string): (r: seq<Token>)
    requires Escaped(x)
    ensures |r| <= 1 && Render(r) == x
    ensures forall i :: 0 <= i < |r| ==> r[i].Chars? && GoodToken(r[i])
  {
    if x == "" then [] else [Chars(x)]
  }

  /** A tag, text and a tag are clean when the tags' names are plain. */
  lemma CleanCell(open: string, x: string, close: string)
    requires Escaped(x)
    requires Free(open, '<') && Free(open, '>') && Free(close, '<') && Free(close, '>')
    ensures Clean([Tag(open)] + TextToken(x) + [Tag(close)])
  {
    var t := TextToken(x);
    var s := [Tag(open)] + t + [Tag(close)];
    assert forall i :: 0 <= i < |s| ==> s[i] == (if i == 0 then Tag(open) else if i <= |t| then t[i - 1] else Tag(close));
  }

  /** Each header cell: `<th>`, the escaped header, `</th>`. */
  function HeaderTokens(headers: seq<string>): (r: seq<Token>)
    ensures Clean(r)
    decreases |headers|
  {
    if |headers| == 0 then []
    else
      var cell := [Tag("th")] + TextToken(Esc(headers[0])) + [Tag("/th")];
      CleanCell("th", Esc(headers[0]), "/th");
      CleanAppend(cell, HeaderTokens(headers[1..]));
      cell + HeaderTokens(headers[1..])
  }

  /** Class names a reader can tell apart from the tag around them. */
  predicate PlainClasses(classes: seq<Option<string>>) {
    forall i :: 0 <= i < |classes| && classes[i].Some? ==> Free(classes[i].value, '<') && Free(classes[i].value, '>')
  }

  /** The opening tag of the cell in column `i`. */
  function CellTag(classes: seq<Option<string>>, i: nat): (r: string)
    ensures |r| >= 2 && r[..2] == "td"
    ensures PlainClasses(classes) ==> Free(r, '<') && Free(r, '>')
  {
    "td" + ClassAttr(classes, i)
  }

  /** Each cell: the opening tag with its class, the escaped text, `</td>`. */
  function CellTokens(row: seq<Scalar>, classes: seq<Option<string>>, from: nat): (r: seq<Token>)
    ensures PlainClasses(classes) ==> Clean(r)
    decreases |row|
  {
    if |row| == 0 then []
    else
      var cell := [Tag(CellTag(classes, from))] + TextToken(CellText(row[0])) + [Tag("/td")];
      var rest := CellTokens(row[1..], classes, from + 1);
      CleanCellThen(CellTag(classes, from), CellText(row[0]), rest);
      cell + rest
  }

  /** A clean cell before clean tokens. */
  lemma CleanCellThen(t: string, x: string, rest: seq<Token>)
    requires Escaped(x)
    ensures Free(t, '<') && Free(t, '>') && Clean(rest) ==> Clean([Tag(t)] + TextToken(x) + [Tag("/td")] + rest)
  {
    if Free(t, '<') && Free(t, '>') && Clean(rest) {
      CleanCell(t, x, "/td");
      CleanAppend([Tag(t)] + TextToken(x) + [Tag("/td")], rest);
    }
  }

  /** Each row: `<tr>`, its cells, `</tr>`. */
  function RowTokens(rows: seq<seq<Scalar>>, classes: seq<Option<string>>): (r: seq<Token>)
    ensures PlainClasses(classes) ==> Clean(r)
    decreases |rows|
  {
    if |rows| == 0 then []
    else
      var cells := CellTokens(rows[0], classes, 0);
      var rest := RowTokens(rows[1..], classes);
      CleanRowThen(cells, rest);
      [Tag("tr")] + cells + [Tag("/tr")] + rest
  }

  /** A clean row before clean tokens. */
  lemma CleanRowThen(cells: seq<Token>, rest: seq<Token>)
    ensures Clean(cells) && Clean(rest) ==> Clean([Tag("tr")] + cells + [Tag("/tr")] + rest)
  {
    if Clean(cells) && Clean(rest) {
      CleanWrap("tr", cells, "/tr");
      CleanAppend([Tag("tr")] + cells + [Tag("/tr")], rest);
    }
  }

  /** The table's tag names are pairwise different. */
  lemma TagNamesDiffer()
    ensures Tag("th") != Tag("tr") && Tag("/th") != Tag("tr") && Tag("th") != Tag("/tr") && Tag("/th") != Tag("/tr")
    ensures Tag("/td") != Tag("tr") && Tag("/td") != Tag("/tr") && Tag("/td") != Tag("th")
    ensures Tag("tr") != Tag("/tr") && Tag("th") != Tag("/th")
  {
    assert "th"[1] != "tr"[1];
    assert "/th"[1] != "tr"[1];
    assert "/th"[2] != "/tr"[2];
    assert "/td"[2] != "/tr"[2];
    assert |"tr"| != |"/tr"| && |"th"| != |"/th"| && |"/td"| != |"tr"| && |"/td"| != |"th"| && |"th"| != |"/tr"|;
  }

  /** Tags around clean tokens. */
  lemma CleanWrap(open: string, inner: seq<Token>, close: string)
    requires Clean(inner)
    requires Free(open, '<') && Free(open, '>') && Free(close, '<') && Free(close, '>')
    ensures Clean([Tag(open)] + inner + [Tag(close)])
  {
    CleanAppend([Tag(open)], inner);
    CleanAppend([Tag(open)] + inner, [Tag(close)]);
  }

  /** One `<th>` per header, and no row tag. */
  lemma {:induction false} HeaderCounts(headers: seq<string>)
    ensures multiset(HeaderTokens(headers))[Tag("th")] == |headers|
    ensures multiset(HeaderTokens(headers))[Tag("tr")] == 0
    ensures multiset(HeaderTokens(headers))[Tag("/tr")] == 0
    decreases |headers|
  {
    if |headers| > 0 {
      HeaderCounts(headers[1..]);
      var text := TextToken(Esc(headers[0]));
      assert HeaderTokens(headers) == [Tag("th")] + text + [Tag("/th")] + HeaderTokens(headers[1..]);
      TagNamesDiffer();
      assert multiset(text)[Tag("tr")] == 0 && multiset(text)[Tag("/tr")] == 0 && multiset(text)[Tag("th")] == 0;
    }
  }

  /** No cell tag is a row or header tag; one `</td>` per cell. */
  lemma {:induction false} CellCounts(row: seq<Scalar>, classes: seq<Option<string>>, from: nat)
    ensures multiset(CellTokens(row, classes, from))[Tag("tr")] == 0
    ensures multiset(CellTokens(row, classes, from))[Tag("/tr")] == 0
    ensures multiset(CellTokens(row, classes, from))[Tag("th")] == 0
    ensures multiset(CellTokens(row, classes, from))[Tag("/td")] == |row|
    decreases |row|
  {
    if |row| > 0 {
      var rest := CellTokens(row[1..], classes, from + 1);
      CellCounts(row[1..], classes, from + 1);
      var cell := [Tag(CellTag(classes, from))] + TextToken(CellText(row[0])) + [Tag("/td")];
      assert CellTokens(row, classes, from) == cell + rest;
      OneCellCounts(CellTag(classes, from), CellText(row[0]));
      assert multiset(cell + rest) == multiset(cell) + multiset(rest);
    }
  }

  /** The tags of one cell: its opening tag and `</td>`. */
  lemma OneCellCounts(t: string, x: string)
    requires |t| >= 2 && t[..2] == "td" && Escaped(x)
    ensures var m := multiset([Tag(t)] + TextToken(x) + [Tag("/td")]);
            m[Tag("tr")] == 0 && m[Tag("/tr")] == 0 && m[Tag("th")] == 0 && m[Tag("/td")] == 1
  {
    var text := TextToken(x);
    CellTagIsNoOther(t);
    TagNamesDiffer();
    CountBetween(Tag(t), text, Tag("/td"), Tag("tr"));
    CountBetween(Tag(t), text, Tag("/td"), Tag("/tr"));
    CountBetween(Tag(t), text, Tag("/td"), Tag("th"));
    CountBetween(Tag(t), text, Tag("/td"), Tag("/td"));
  }

  /** A cell's opening tag is none of the table's other tags. */
  lemma CellTagIsNoOther(t: string)
    requires |t| >= 2 && t[..2] == "td"
    ensures Tag(t) != Tag("tr") && Tag(t) != Tag("/tr") && Tag(t) != Tag("th") && Tag(t) != Tag("/td")
  {
    assert t[0] == 't' && t[1] == 'd';
    assert "tr"[1] != 'd' && "/tr"[0] != 't' && "th"[1] != 'd' && "/td"[0] != 't';
  }

  /** The count of a tag among two tags around text tokens. */
  lemma CountBetween(a: Token, text: seq<Token>, c: Token, k: Token)
    requires k.Tag? && forall i :: 0 <= i < |text| ==> text[i].Chars?
    ensures multiset([a] + text + [c])[k] == (if a == k then 1 else 0) + (if c == k then 1 else 0)
  {
    assert k !in text;
    assert multiset([a] + text + [c]) == multiset([a]) + multiset(text) + multiset([c]);
  }

  /** One `<tr>` and one `</tr>` per row, and no header cell. */
  lemma {:induction false} RowCounts(rows: seq<seq<Scalar>>, classes: seq<Option<string>>)
    ensures multiset(RowTokens(rows, classes))[Tag("tr")] == |rows|
    ensures multiset(RowTokens(rows, classes))[Tag("/tr")] == |rows|
    ensures multiset(RowTokens(rows, classes))[Tag("th")] == 0
    decreases |rows|
  {
    if |rows| > 0 {
      RowCounts(rows[1..], classes);
      CellCounts(rows[0], classes, 0);
      var cells := CellTokens(rows[0], classes, 0);
      var row := [Tag("tr")] + cells + [Tag("/tr")];
      var rest := RowTokens(rows[1..], classes);
      assert RowTokens(rows, classes) == row + rest;
      TagNamesDiffer();
      CountAround(Tag("tr"), cells, Tag("/tr"), Tag("tr"));
      CountAround(Tag("tr"), cells, Tag("/tr"), Tag("/tr"));
      CountAround(Tag("tr"), cells, Tag("/tr"), Tag("th"));
      assert multiset(row + rest) == multiset(row) + multiset(rest);
    }
  }

  /** The count of a token among two tokens around others. */
  lemma CountAround(a: Token, mid: seq<Token>, c: Token, k: Token)
    ensures multiset([a] + mid + [c])[k] == (if a == k then 1 else 0) + multiset(mid)[k] + (if c == k then 1 else 0)
  {
    assert multiset([a] + mid + [c]) == multiset([a]) + multiset(mid) + multiset([c]);
  }

  /** The tags and texts of `buildMiniTable`, in the order it writes them. */
  function MiniTableTokens(headers: seq<string>, rows: seq<seq<Scalar>>, classes: seq<Option<string>>): seq<Token> {
    TableOpen() + HeaderTokens(headers) + TableMiddle() + RowTokens(rows, classes) + TableClose()
  }

  /** `buildMiniTable`: the markup of a table with a header row and one row
      per cost line. */
  function MiniTable(headers: seq<string>, rows: seq<seq<Scalar>>, classes: seq<Option<string>>): string {
    Render(MiniTableTokens(headers, rows, classes))
  }

  /** The fixed tags of the mini table: the opening of the table and its
      header row, the switch to the body, and the closing. */
  function TableOpen(): seq<Token> {
    [Tag(MiniTableTag), Tag("thead"), Tag("tr")]
  }

  /** `table class="mini-table"`. */
  const MiniTableTag := "table class=" + "\"mini-table\""

  function TableMiddle(): seq<Token> {
    [Tag("/tr"), Tag("/thead"), Tag("tbody")]
  }

  function TableClose(): seq<Token> {
    [Tag("/tbody"), Tag("/table")]
  }

  lemma TableOpenClean()
    ensures Clean(TableOpen())
  {
    FreeConcat("table class=", "\"mini-table\"", '<');
    FreeConcat("table class=", "\"mini-table\"", '>');
  }

  lemma FreeConcat(a: string, b: string, c: char)
    requires Free(a, c) && Free(b, c)
    ensures Free(a + b, c)
  {
    forall i | 0 <= i < |a + b| ensures (a + b)[i] != c {
      if i >= |a| { assert (a + b)[i] == b[i - |a|]; }
    }
  }

  lemma TableMiddleClean()
    ensures Clean(TableMiddle())
  {
  }

  lemma TableCloseClean()
    ensures Clean(TableClose())
  {
  }

  /** Counts of the row and header-cell tags among the fixed tags. */
  lemma TableOpenCounts()
    ensures multiset(TableOpen())[Tag("tr")] == 1 && multiset(TableOpen())[Tag("/tr")] == 0
    ensures multiset(TableOpen())[Tag("th")] == 0
  {
    assert MiniTableTag[1] != "tr"[1] && |MiniTableTag| != |"/tr"|;
    assert "thead"[1] != "tr"[1] && "thead"[1] != "/tr"[1];
    assert MiniTableTag[1] != "th"[1] && |"thead"| != |"th"|;
    assert "tr"[1] != "th"[1] && |"tr"| != |"/tr"|;
  }

  lemma TableMiddleCounts()
    ensures multiset(TableMiddle())[Tag("tr")] == 0 && multiset(TableMiddle())[Tag("/tr")] == 1
    ensures multiset(TableMiddle())[Tag("th")] == 0
  {
    assert "/thead"[2] != "/tr"[2] && "tbody"[1] != "tr"[1] && "tbody"[1] != "/tr"[1];
    assert |"/thead"| != |"tr"| && |"/tr"| != |"tr"| && |"tbody"| != |"th"| && |"/thead"| != |"th"| && |"/tr"| != |"th"|;
    assert "/thead"[2] != "/tr"[2];
  }

  lemma TableCloseCounts()
    ensures multiset(TableClose())[Tag("tr")] == 0 && multiset(TableClose())[Tag("/tr")] == 0
    ensures multiset(TableClose())[Tag("th")] == 0
  {
    assert "/tbody"[2] != "/tr"[2] && "/table"[2] != "/tr"[2];
    assert |"/tbody"| != |"tr"| && |"/table"| != |"tr"| && |"/tbody"| != |"th"| && |"/table"| != |"th"|;
  }

  lemma CleanAppend5(a: seq<Token>, b: seq<Token>, c: seq<Token>, d: seq<Token>, e: seq<Token>)
    requires Clean(a) && Clean(b) && Clean(c) && Clean(d) && Clean(e)
    ensures Clean(a + b + c + d + e)
  {
    CleanAppend(a, b);
    CleanAppend(a + b, c);
    CleanAppend(a + b + c, d);
    CleanAppend(a + b + c + d, e);
  }

  lemma MiniTableClean(headers: seq<string>, rows: seq<seq<Scalar>>, classes: seq<Option<string>>)
    requires PlainClasses(classes)
    ensures Clean(MiniTableTokens(headers, rows, classes))
  {
    TableOpenClean();
    TableMiddleClean();
    TableCloseClean();
    CleanAppend5(TableOpen(), HeaderTokens(headers), TableMiddle(), RowTokens(rows, classes), TableClose());
  }

  lemma MiniTableCounts(headers: seq<string>, rows: seq<seq<Scalar>>, classes: seq<Option<string>>)
    ensures var m := multiset(MiniTableTokens(headers, rows, classes));
            m[Tag("th")] == |headers| && m[Tag("tr")] == |rows| + 1 && m[Tag("/tr")] == |rows| + 1
  {
    HeaderCounts(headers);
    RowCounts(rows, classes);
    TableOpenCounts();
    TableMiddleCounts();
    TableCloseCounts();
  }

  /** Clean tokens read back as themselves, and their texts are non-empty
      and escaped. */
  lemma ReadBack(toks: seq<Token>)
    requires Clean(toks)
    ensures Lex(Render(toks)) == toks
    ensures forall i :: 0 <= i < |toks| && toks[i].Chars? ==> toks[i].text != "" && Escaped(toks[i].text)
  {
    LexRender(toks);
    assert forall i :: 0 <= i < |toks| ==> GoodToken(toks[i]);
  }

  /** Read back, the mini table's markup is its tags and escaped texts: one
      header cell per header, one header row plus one row per line, and no
      cell text can open a tag. */
  lemma MiniTableStructure(headers: seq<string>, rows: seq<seq<Scalar>>, classes: seq<Option<string>>)
    requires PlainClasses(classes)
    ensures var toks := Lex(MiniTable(headers, rows, classes));
            && toks == MiniTableTokens(headers, rows, classes)
            && multiset(toks)[Tag("th")] == |headers|
            && multiset(toks)[Tag("tr")] == |rows| + 1
            && multiset(toks)[Tag("/tr")] == |rows| + 1
            && (forall i :: 0 <= i < |toks| && toks[i].Chars? ==> toks[i].text != "" && Escaped(toks[i].text))
  {
    var toks := MiniTableTokens(headers, rows, classes);
    MiniTableClean(headers, rows, classes);
    ReadBack(toks);
    MiniTableCounts(headers, rows, classes);
  }

  // ---------------------------------------------------------------- cost summary

  /** The summary table under the review screen's cost overview: the two
      stated subtotals, then the stated totals, each 0 when missing. It shows
      the same three totals, with the same VAT percentage, as the PDF's totals
      table. */
  function CostSummaryRows(k: Kosten): (rows: seq<TotalRow>)
    ensures |rows| == 5
    ensures rows[0] == TotalRow(SubtotalOneOff, OrZero(k.subtotaalEenmalig))
    ensures rows[1] == TotalRow(SubtotalVariable, OrZero(k.subtotaalVariabel))
    ensures rows[2..] == TotalsRows(k)
  {
    [ TotalRow(SubtotalOneOff, OrZero(k.subtotaalEenmalig)),
      TotalRow(SubtotalVariable, OrZero(k.subtotaalVariabel)),
      TotalRow(ExclVat, OrZero(k.totaalExclBtw)),
      TotalRow(Vat(if k.btwPercentage.Some? && k.btwPercentage.value != 0 then k.btwPercentage.value else 21), OrZero(k.btwBedrag)),
      TotalRow(InclVat, OrZero(k.totaalInclBtw)) ]
  }
}
