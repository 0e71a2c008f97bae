/** The JavaScript string primitives the proposal tool relies on:
    `trim` (and the regex class `\s`, which matches the same characters),
    `split` and `join` with a non-empty separator, string accumulation with
    `+=`, and `toLowerCase`. */
module JsText {
  import opened Base

  /** ECMAScript WhiteSpace and LineTerminator code points: exactly the
      characters `String.prototype.trim` removes and `\s` matches. */
  predicate IsSpace(c: char) {
    || ('\t' <= c <= '\r') || c == ' ' || c == '\U{00A0}' || c == '\U{1680}'
    || ('\U{2000}' <= c <= '\U{200A}')
    || c == '\U{2028}' || c == '\U{2029}' || c == '\U{202F}' || c == '\U{205F}' || c == '\U{3000}' || c == '\U{FEFF}'
  }

  predicate AllSpace(s: string) {
    forall i :: 0 <= i < |s| ==> IsSpace(s[i])
  }

  /** The length of the leading run of white space. */
  function Lead(s: string): (n: nat)
    ensures n <= |s| && AllSpace(s[..n])
    ensures n == |s| || !IsSpace(s[n])
    decreases |s|
  {
    if |s| > 0 && IsSpace(s[0]) then
      var n := Lead(s[1..]);
      SpaceThenSpaces(s, n + 1);
      assert n + 1 == |s| || s[n + 1] == s[1..][n];
      n + 1
    else
      0
  }

  /** `trimStart`: drops the leading run of white space. */
  function TrimStart(s: string): (r: string)
    ensures |r| == 0 || !IsSpace(r[0])
  {
    s[Lead(s)..]
  }

  /** A white-space character followed by white space. */
  lemma SpaceThenSpaces(s: string, k: nat)
    requires 1 <= k <= |s| && IsSpace(s[0]) && AllSpace(s[1..][..k - 1])
    ensures AllSpace(s[..k])
  {
    forall i | 0 <= i < k ensures IsSpace(s[..k][i]) {
      if i > 0 {
        assert s[..k][i] == s[1..][..k - 1][i - 1];
      }
    }
  }

  /** The length of the trailing run of white space. */
  function Trail(s: string): (n: nat)
    ensures n <= |s| && AllSpace(s[|s| - n..])
    ensures n == |s| || !IsSpace(s[|s| - n - 1])
    decreases |s|
  {
    if |s| > 0 && IsSpace(s[|s| - 1]) then
      var t := s[..|s| - 1];
      var n := Trail(t);
      assert s[|s| - n - 1..] == t[|t| - n..] + [s[|s| - 1]];
      AllSpaceConcat(t[|t| - n..], [s[|s| - 1]]);
      assert n + 1 == |s| || s[|s| - n - 2] == t[|t| - n - 1];
      n + 1
    else
      0
  }

  /** `trimEnd`: drops the trailing run of white space. */
  function TrimEnd(s: string): (r: string)
    ensures |r| == 0 || !IsSpace(r[|r| - 1])
  {
    s[..|s| - Trail(s)]
  }

  /** `trim`: the longest slice of `s` that neither starts nor ends with white
      space, with only white space around it. */
  function Trim(s: string): (r: string)
    ensures Lead(s) + |r| <= |s| && r == s[Lead(s)..Lead(s) + |r|]
    ensures AllSpace(s[..Lead(s)]) && AllSpace(s[Lead(s) + |r|..])
    ensures |r| == 0 || (!IsSpace(r[0]) && !IsSpace(r[|r| - 1]))
  {
    var a := TrimStart(s);
    var r := TrimEnd(a);
    var i := Lead(s);
    assert a == s[i..];
    assert r == a[..|r|] == s[i..i + |r|];
    assert a[|r|..] == s[i + |r|..];
    r
  }

  /** A string trims to nothing exactly when it is all white space. */
  lemma TrimEmptyIffAllSpace(s: string)
    ensures Trim(s) == "" <==> AllSpace(s)
  {
    if Trim(s) == "" {
      EmptyTrimAllSpace(s);
    } else {
      TrimNonEmptyNotAllSpace(s);
    }
  }

  lemma EmptyTrimAllSpace(s: string)
    requires Trim(s) == ""
    ensures AllSpace(s)
  {
    var i := Lead(s);
    AllSpaceConcat(s[..i], s[i..]);
    assert s[..i] + s[i..] == s;
  }

  lemma TrimNonEmptyNotAllSpace(s: string)
    requires Trim(s) != ""
    ensures !AllSpace(s)
  {
    var r := Trim(s);
    var i := Lead(s);
    assert r[0] == s[i];
  }

  lemma AllSpaceConcat(a: string, b: string)
    requires AllSpace(a) && AllSpace(b)
    ensures AllSpace(a + b)
  {
    forall j | 0 <= j < |a + b| ensures IsSpace((a + b)[j]) {
      if j >= |a| { assert (a + b)[j] == b[j - |a|]; }
    }
  }

  /** Trimming twice trims no further. */
  lemma TrimIdempotent(s: string)
    ensures Trim(Trim(s)) == Trim(s)
  {
    var r := Trim(s);
    if |r| > 0 {
      assert TrimStart(r) == r;
      assert TrimEnd(r) == r;
    }
  }

  /** `sep` occurs in `s` starting at index `i`. */
  predicate OccursAt(s: string, sep: string, i: int) {
    0 <= i && i + |sep| <= |s| && s[i..i + |sep|] == sep
  }

  /** `sep` occurs at `i` and nowhere before. */
  predicate FirstAt(s: string, sep: string, i: nat) {
    OccursAt(s, sep, i) && forall j :: 0 <= j < i ==> !OccursAt(s, sep, j)
  }

  predicate Contains(s: string, sep: string) {
    exists i :: 0 <= i <= |s| && OccursAt(s, sep, i)
  }

  /** `indexOf(sep, k)`: the first occurrence of `sep` at or after `k`. */
  function IndexOfFrom(s: string, sep: string, k: nat): (r: Option<nat>)
    ensures r.Some? ==> k <= r.value && OccursAt(s, sep, r.value)
    ensures r.Some? ==> forall j :: k <= j < r.value ==> !OccursAt(s, sep, j)
    ensures r.None? ==> forall j :: k <= j ==> !OccursAt(s, sep, j)
    decreases |s| - k
  {
    if k + |sep| > |s| then None
    else if s[k..k + |sep|] == sep then Some(k)
    else IndexOfFrom(s, sep, k + 1)
  }

  /** An occurrence with none before it, from `k` on, is the one `indexOf` finds. */
  lemma IndexOfFromIs(s: string, sep: string, k: nat, m: nat)
    requires k <= m && OccursAt(s, sep, m)
    requires forall j :: k <= j < m ==> !OccursAt(s, sep, j)
    ensures IndexOfFrom(s, sep, k) == Some(m)
  {
  }

  /** `indexOf(sep)`: the first occurrence of `sep` in `s`. */
  function IndexOf(s: string, sep: string): (r: Option<nat>)
    ensures r.Some? ==> OccursAt(s, sep, r.value)
    ensures r.Some? ==> forall j :: 0 <= j < r.value ==> !OccursAt(s, sep, j)
    ensures r.None? ==> forall j :: 0 <= j ==> !OccursAt(s, sep, j)
  {
    IndexOfFrom(s, sep, 0)
  }

  /** `s.split(sep)` for a non-empty separator: the pieces between the
      non-overlapping occurrences of `sep`, scanned left to right. */
  function Split(s: string, sep: string): (parts: seq<string>)
    requires |sep| > 0
    ensures |parts| >= 1
    decreases |s|
  {
    match IndexOf(s, sep)
    case None => [s]
    case Some(i) => [s[..i]] + Split(s[i + |sep|..], sep)
  }

  /** `parts.join(sep)`. */
  function Join(parts: seq<string>, sep: string): string
    decreases |parts|
  {
    if |parts| == 0 then ""
    else if |parts| == 1 then parts[0]
    else parts[0] + sep + Join(parts[1..], sep)
  }

  /** The accumulation `text += delta` over a sequence of deltas. */
  function Concat(parts: seq<string>): string
    decreases |parts|
  {
    if |parts| == 0 then "" else Concat(parts[..|parts| - 1]) + parts[|parts| - 1]
  }

  /** Joining the pieces of a split with the same separator gives back the
      original text. */
  lemma {:induction false} JoinSplit(s: string, sep: string)
    requires |sep| > 0
    ensures Join(Split(s, sep), sep) == s
    decreases |s|
  {
    match IndexOf(s, sep)
    case None =>
      assert Split(s, sep) == [s];
    case Some(i) =>
      var rest := s[i + |sep|..];
      var tail := Split(rest, sep);
      assert Split(s, sep) == [s[..i]] + tail;
      JoinSplit(rest, sep);
      JoinAfterFirstPiece(s, sep, i, tail);
  }

  /** One step of `JoinSplit`: the first piece, the separator, then the rest. */
  lemma JoinAfterFirstPiece(s: string, sep: string, i: nat, tail: seq<string>)
    requires OccursAt(s, sep, i) && |tail| >= 1
    requires Join(tail, sep) == s[i + |sep|..]
    ensures Join([s[..i]] + tail, sep) == s
  {
    JoinCons(s[..i], tail, sep);
    AroundOccurrence(s, sep, i);
  }

  lemma JoinCons(x: string, tail: seq<string>, sep: string)
    requires |tail| >= 1
    ensures Join([x] + tail, sep) == x + sep + Join(tail, sep)
  {
    assert ([x] + tail)[1..] == tail;
  }

  /** A text is the part before an occurrence, the occurrence, and the rest. */
  lemma AroundOccurrence(s: string, sep: string, i: nat)
    requires OccursAt(s, sep, i)
    ensures s == s[..i] + sep + s[i + |sep|..]
  {
    assert s == s[..i] + s[i..i + |sep|] + s[i + |sep|..];
  }

  /** A text without the separator's first character is not split. */
  lemma SplitWithoutSeparator(s: string, sep: string)
    requires |sep| > 0 && sep[0] !in s
    ensures Split(s, sep) == [s]
  {
    assert forall j :: OccursAt(s, sep, j) ==> s[j] == sep[0];
  }

  /** When the separator's first character does not occur in `p`, the first
      occurrence of the separator in `p + sep + rest` is right after `p`. */
  lemma IndexOfAfterPiece(p: string, sep: string, rest: string)
    requires |sep| > 0 && sep[0] !in p
    ensures IndexOf(p + sep + rest, sep) == Some(|p|)
  {
    var s := p + sep + rest;
    assert s[|p|..|p| + |sep|] == sep;
    assert OccursAt(s, sep, |p|);
    forall j | 0 <= j < |p| ensures !OccursAt(s, sep, j) {
      assert s[j] == p[j];
    }
  }

  /** When the separator's first character does not occur in `p`, splitting
      `p + sep + rest` yields `p` followed by the pieces of `rest`. */
  lemma SplitAfterPiece(p: string, sep: string, rest: string)
    requires |sep| > 0 && sep[0] !in p
    ensures Split(p + sep + rest, sep) == [p] + Split(rest, sep)
  {
    var s := p + sep + rest;
    IndexOfAfterPiece(p, sep, rest);
    assert s[..|p|] == p;
    assert s[|p| + |sep|..] == rest;
  }

  /** Splitting a join gives back the pieces, provided no piece contains the
      separator's first character. */
  lemma {:induction false} SplitJoin(parts: seq<string>, sep: string)
    requires |sep| > 0 && |parts| >= 1
    requires forall k :: 0 <= k < |parts| ==> sep[0] !in parts[k]
    ensures Split(Join(parts, sep), sep) == parts
    decreases |parts|
  {
    if |parts| == 1 {
      SplitWithoutSeparator(parts[0], sep);
    } else {
      var tail := parts[1..];
      SplitJoin(tail, sep);
      SplitAfterPiece(parts[0], sep, Join(tail, sep));
      assert parts == [parts[0]] + tail;
    }
  }

  /** No piece of a split on a one-character separator contains that character. */
  lemma {:induction false} SplitPiecesFree(s: string, sep: string)
    requires |sep| == 1
    ensures forall k :: 0 <= k < |Split(s, sep)| ==> sep[0] !in Split(s, sep)[k]
    decreases |s|
  {
    match IndexOf(s, sep)
    case None =>
      assert forall j :: 0 <= j < |s| && s[j] == sep[0] ==> OccursAt(s, sep, j) by {
        forall j | 0 <= j < |s| && s[j] == sep[0] ensures s[j..j + 1] == sep { }
      }
    case Some(i) =>
      var rest := s[i + 1..];
      SplitPiecesFree(rest, sep);
      assert forall j :: 0 <= j < i && s[j] == sep[0] ==> OccursAt(s, sep, j) by {
        forall j | 0 <= j < i && s[j] == sep[0] ensures s[j..j + 1] == sep { }
      }
      assert forall j :: 0 <= j < i ==> s[..i][j] == s[j];
      assert Split(s, sep) == [s[..i]] + Split(rest, sep);
  }

  /** `toLowerCase` of one character. ASCII letters are folded; the two
      non-ASCII characters whose lower case contains ASCII letters (KELVIN SIGN
      and LATIN CAPITAL LETTER I WITH DOT ABOVE) are folded as JavaScript does;
      every other character is kept, standing for its non-ASCII lower case. */
  function LowerChar(c: char): (r: string)
    ensures |r| >= 1
    ensures 'A' <= c <= 'Z' ==> r == [(c as int + 32) as char]
  {
    if 'A' <= c <= 'Z' then [(c as int + 32) as char]
    else if c == '\U{212A}' then "k"
    else if c == '\U{0130}' then ['i', '\U{0307}']
    else [c]
  }

  /** `toLowerCase`. */
  function ToLower(s: string): (r: string)
    ensures |r| >= |s|
    ensures forall i :: 0 <= i < |r| ==> !('A' <= r[i] <= 'Z')
    decreases |s|
  {
    if |s| == 0 then "" else LowerChar(s[0]) + ToLower(s[1..])
  }

  /** The lower case of an ASCII character. */
  function AsciiLower(c: char): char {
    if 'A' <= c <= 'Z' then (c as int + 32) as char else c
  }

  predicate IsAscii(s: string) {
    forall i :: 0 <= i < |s| ==> s[i] < '\U{0080}'
  }

  /** On ASCII text `toLowerCase` maps each character to its lower case, one
      for one. */
  lemma {:induction false} ToLowerAscii(s: string)
    requires IsAscii(s)
    ensures |ToLower(s)| == |s|
    ensures forall i :: 0 <= i < |s| ==> ToLower(s)[i] == AsciiLower(s[i])
    decreases |s|
  {
    if |s| > 0 {
      ToLowerAscii(s[1..]);
      assert LowerChar(s[0]) == [AsciiLower(s[0])];
      var r := ToLower(s);
      assert r == [AsciiLower(s[0])] + ToLower(s[1..]);
      forall i | 0 <= i < |s| ensures r[i] == AsciiLower(s[i]) {
        if i > 0 {
          assert r[i] == ToLower(s[1..])[i - 1] && s[1..][i - 1] == s[i];
        }
      }
    }
  }

  /** Text made of lower-case ASCII letters and digits is its own lower case. */
  lemma {:induction false} ToLowerKeepsLowerAscii(s: string)
    requires forall i :: 0 <= i < |s| ==> ('a' <= s[i] <= 'z') || ('0' <= s[i] <= '9')
    ensures ToLower(s) == s
    decreases |s|
  {
    if |s| > 0 {
      ToLowerKeepsLowerAscii(s[1..]);
      assert s == [s[0]] + s[1..];
    }
  }
}
