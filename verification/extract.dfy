/** Reading the proposal out of the model's reply: the body of the first
    fenced code block when the reply has one (the pattern
    /```(?:json)?\s*([\s\S]*?)```/), otherwise the whole reply, trimmed; and
    the message a failed analysis reports. */
module Extract {
  import opened Base
  import opened JsText

  const Fence := "```"

  /** A fence is three backticks in a row. */
  lemma FenceChars(s: string, j: int)
    ensures OccursAt(s, Fence, j) <==> 0 <= j && j + 3 <= |s| && s[j] == '`' && s[j + 1] == '`' && s[j + 2] == '`'
  {
    if 0 <= j && j + 3 <= |s| {
      assert s[j..j + 3] == [s[j], s[j + 1], s[j + 2]];
    }
  }

  /** `s` holds no fence. */
  predicate NoFence(s: string) {
    forall j :: 0 <= j < |s| ==> !OccursAt(s, Fence, j)
  }

  /** Text that can sit before a fence without moving it: no fence inside and
      no backtick at its end. */
  predicate Plain(s: string) {
    NoFence(s) && (|s| == 0 || s[|s| - 1] != '`')
  }

  /** `s` starts with the `json` language tag at index `i`, before `q`. */
  predicate JsonTagAt(s: string, i: nat, q: nat) {
    i + 4 <= q <= |s| && s[i..i + 4] == "json"
  }

  /** The capture group of the first match: a match starts at the first fence
      and ends at the next fence that begins after it; the optional `json` tag
      and the white space after the opening fence are not captured. The `json`
      tag cannot reach past the closing fence, whose first character is a
      backtick. */
  function FenceBody(s: string): (r: Option<string>)
    ensures r.Some? ==> NoFence(r.value)
    ensures r.Some? ==> |r.value| == 0 || !IsSpace(r.value[0])
    ensures r.None? <==> (IndexOf(s, Fence).None? || IndexOfFrom(s, Fence, IndexOf(s, Fence).value + 3).None?)
  {
    match IndexOf(s, Fence)
    case None => None
    case Some(p) =>
      match IndexOfFrom(s, Fence, p + 3)
      case None => None
      case Some(q) => Some(Captured(s, p, q))
  }

  /** Where the captured text begins: after the opening fence and its tag. */
  function BodyStart(s: string, p: nat, q: nat): (b: nat)
    requires p + 3 <= q <= |s|
    ensures p + 3 <= b <= q
  {
    if JsonTagAt(s, p + 3, q) then p + 7 else p + 3
  }

  /** The capture group between the fence at `p` and the next fence, at `q`. */
  function Captured(s: string, p: nat, q: nat): (r: string)
    requires IndexOfFrom(s, Fence, p + 3) == Some(q)
    ensures NoFence(r)
    ensures |r| == 0 || !IsSpace(r[0])
  {
    CapturedClean(s, p, q, BodyStart(s, p, q));
    TrimStart(s[BodyStart(s, p, q)..q])
  }

  /** The text after the tag, without its leading white space, holds no
      fence and starts with no white space. */
  lemma CapturedClean(s: string, p: nat, q: nat, b: nat)
    requires IndexOfFrom(s, Fence, p + 3) == Some(q) && p + 3 <= b <= q
    ensures NoFence(TrimStart(s[b..q]))
    ensures |TrimStart(s[b..q])| == 0 || !IsSpace(TrimStart(s[b..q])[0])
  {
    var body := s[b..q];
    NoFenceBefore(s, b, q);
    var r := TrimStart(body);
    NoFenceSuffix(body, |body| - |r|);
  }

  /** Between `b` and the first fence at or after it there is no fence. */
  lemma NoFenceBefore(s: string, b: nat, q: nat)
    requires b <= q <= |s|
    requires forall j :: b <= j < q ==> !OccursAt(s, Fence, j)
    ensures NoFence(s[b..q])
  {
    var t := s[b..q];
    forall j | 0 <= j < |t| ensures !OccursAt(t, Fence, j) {
      FenceChars(t, j);
      FenceChars(s, b + j);
    }
  }

  /** A text without a fence has none in any slice. */
  lemma NoFenceSlice(s: string, a: nat, b: nat)
    requires NoFence(s) && a <= b <= |s|
    ensures NoFence(s[a..b])
  {
    var t := s[a..b];
    forall j | 0 <= j < |t| ensures !OccursAt(t, Fence, j) {
      FenceChars(t, j);
      FenceChars(s, a + j);
      if j + 3 <= |t| {
        assert t[j] == s[a + j] && t[j + 1] == s[a + j + 1] && t[j + 2] == s[a + j + 2];
      }
    }
  }

  /** A text without a fence has none in any suffix. */
  lemma NoFenceSuffix(s: string, k: nat)
    requires NoFence(s) && k <= |s|
    ensures NoFence(s[k..])
  {
    NoFenceSlice(s, k, |s|);
    assert s[k..|s|] == s[k..];
  }

  /** A reply contains a fenced block exactly when it has two fences, the
      second beginning after the first ends. */
  lemma FenceMatchesIffTwoFences(s: string)
    ensures FenceBody(s).Some? <==> exists p, q :: OccursAt(s, Fence, p) && OccursAt(s, Fence, q) && p + 3 <= q
  {
    match IndexOf(s, Fence)
    case None =>
    case Some(p0) =>
      match IndexOfFrom(s, Fence, p0 + 3)
      case None =>
        forall p, q | OccursAt(s, Fence, p) && p + 3 <= q ensures !OccursAt(s, Fence, q) {
          assert p0 <= p;
        }
      case Some(q0) =>
        assert OccursAt(s, Fence, p0) && OccursAt(s, Fence, q0) && p0 + 3 <= q0;
  }

  /** The text parsed as the proposal: the fenced body when there is one,
      otherwise the whole reply; trimmed either way and never altered
      otherwise. */
  function ExtractJson(s: string): (r: string)
    ensures |r| == 0 || (!IsSpace(r[0]) && !IsSpace(r[|r| - 1]))
    ensures FenceBody(s).None? ==> r == Trim(s)
    ensures FenceBody(s).Some? ==> NoFence(r)
  {
    match FenceBody(s)
    case None => Trim(s)
    case Some(body) =>
      TrimmedNoFence(body);
      Trim(body)
  }

  /** Trimming keeps a fence-free text fence-free. */
  lemma TrimmedNoFence(s: string)
    requires NoFence(s)
    ensures NoFence(Trim(s))
  {
    var r := Trim(s);
    NoFenceSlice(s, Lead(s), Lead(s) + |r|);
  }

  /** A reply without any fence is parsed whole, trimmed. */
  lemma UnfencedReplyTrimmed(s: string)
    requires NoFence(s)
    ensures ExtractJson(s) == Trim(s)
  {
    NoFenceNotFound(s);
    assert FenceBody(s).None?;
  }

  lemma NoFenceNotFound(s: string)
    requires NoFence(s)
    ensures IndexOf(s, Fence).None?
  {
    forall j | 0 <= j ensures !OccursAt(s, Fence, j) {
      if j < |s| {
        assert !OccursAt(s, Fence, j);
      }
    }
  }

  /** The first fence at or after `|x|` in `x + a + fence + rest` is the one
      after `a`, when `a` is plain. */
  lemma FenceAfterPlain(x: string, a: string, rest: string)
    requires Plain(a)
    ensures IndexOfFrom(x + a + Fence + rest, Fence, |x|) == Some(|x| + |a|)
  {
    var s := x + a + Fence + rest;
    var m := |x| + |a|;
    assert s[m..m + 3] == Fence;
    forall j | |x| <= j < m ensures !OccursAt(s, Fence, j) {
      FenceChars(s, j);
      FenceChars(a, j - |x|);
      if j + 3 > m {
        assert s[m - 1] == a[|a| - 1];
      }
    }
    IndexOfFromIs(s, Fence, |x|, m);
  }

  /** Backticks do not occur in the `json` tag. */
  lemma TaggedPlain(body: string)
    requires Plain(body)
    ensures Plain("json" + body)
  {
    var t := "json" + body;
    forall j | 0 <= j < |t| ensures !OccursAt(t, Fence, j) {
      FenceChars(t, j);
      if j < 4 {
        assert t[j] != '`';
      } else {
        FenceChars(body, j - 4);
      }
    }
    if |body| == 0 {
      assert t[|t| - 1] == 'n';
    } else {
      assert t[|t| - 1] == body[|body| - 1];
    }
  }

  /** Trimming after dropping leading white space trims the same. */
  lemma TrimAfterTrimStart(s: string)
    ensures Trim(TrimStart(s)) == Trim(s)
  {
    var a := TrimStart(s);
    assert TrimStart(a) == a;
  }

  /** The text parsed when the first match runs from the fence at `p` to the
      fence at `q`. */
  lemma ExtractBetween(s: string, p: nat, q: nat)
    requires IndexOf(s, Fence) == Some(p) && IndexOfFrom(s, Fence, p + 3) == Some(q)
    ensures JsonTagAt(s, p + 3, q) ==> ExtractJson(s) == Trim(s[p + 7..q])
    ensures !JsonTagAt(s, p + 3, q) ==> ExtractJson(s) == Trim(s[p + 3..q])
  {
    var b := BodyStart(s, p, q);
    FenceBodyIs(s, p, q);
    ExtractFenced(s, Captured(s, p, q));
    CapturedIs(s, p, q);
    TrimAfterTrimStart(s[b..q]);
  }

  /** The first match runs from the fence at `p` to the fence at `q`. */
  lemma FenceBodyIs(s: string, p: nat, q: nat)
    requires IndexOf(s, Fence) == Some(p) && IndexOfFrom(s, Fence, p + 3) == Some(q)
    ensures FenceBody(s) == Some(Captured(s, p, q))
  {
  }

  /** The capture is the text after the tag, without leading white space. */
  lemma CapturedIs(s: string, p: nat, q: nat)
    requires IndexOfFrom(s, Fence, p + 3) == Some(q)
    ensures Captured(s, p, q) == TrimStart(s[BodyStart(s, p, q)..q])
  {
  }

  /** The parsed text of a reply with a fenced block is its body, trimmed. */
  lemma ExtractFenced(s: string, body: string)
    requires FenceBody(s) == Some(body)
    ensures ExtractJson(s) == Trim(body)
  {
  }

  /** The first fence of `a + fence + rest` when `a` is plain. */
  lemma FirstFence(a: string, rest: string)
    requires Plain(a)
    ensures IndexOf(a + Fence + rest, Fence) == Some(|a|)
  {
    FenceAfterPlain("", a, rest);
    assert "" + a == a;
  }

  lemma Regroup(pre: string, a: string, post: string)
    ensures pre + Fence + (a + Fence + post) == pre + Fence + a + Fence + post
  {
  }

  /** In `pre + fence + a + fence + post` with `pre` and `a` plain, the
      match opens at the fence after `pre`, ... */
  lemma OpeningFence(pre: string, a: string, post: string)
    requires Plain(pre) && Plain(a)
    ensures IndexOf(pre + Fence + a + Fence + post, Fence) == Some(|pre|)
  {
    Regroup(pre, a, post);
    FirstFence(pre, a + Fence + post);
  }

  /** ... closes at the fence after `a`, ... */
  lemma ClosingFence(pre: string, a: string, post: string)
    requires Plain(pre) && Plain(a)
    ensures IndexOfFrom(pre + Fence + a + Fence + post, Fence, |pre| + 3) == Some(|pre| + 3 + |a|)
  {
    FenceAfterPlain(pre + Fence, a, post);
  }

  /** ... and holds `a` between the two. */
  lemma BetweenFences(pre: string, a: string, post: string)
    ensures (pre + Fence + a + Fence + post)[|pre| + 3..|pre| + 3 + |a|] == a
  {
  }

  /** A reply with a `json`-tagged fenced block yields the block's body,
      trimmed, whatever plain text comes before it and whatever follows. */
  lemma TaggedFenceRoundTrip(pre: string, body: string, post: string)
    requires Plain(pre) && Plain(body)
    ensures ExtractJson(pre + Fence + ("json" + body) + Fence + post) == Trim(body)
  {
    var a := "json" + body;
    var s := pre + Fence + a + Fence + post;
    var p := |pre|;
    var q := p + 3 + |a|;
    TaggedPlain(body);
    OpeningFence(pre, a, post);
    ClosingFence(pre, a, post);
    BetweenFences(pre, a, post);
    assert s[p + 3..q][..4] == a[..4] == "json";
    assert s[p + 3..p + 7] == s[p + 3..q][..4];
    assert s[p + 7..q] == s[p + 3..q][4..] == body;
    ExtractBetween(s, p, q);
  }

  /** A body that does not begin with `json` carries no tag. */
  lemma UntaggedBody(s: string, b: nat, q: nat, body: string)
    requires b <= q <= |s| && s[b..q] == body
    requires !(|body| >= 4 && body[..4] == "json")
    ensures !JsonTagAt(s, b, q)
  {
    if b + 4 <= q {
      assert s[b..b + 4] == s[b..q][..4];
    }
  }

  /** The same for an untagged block whose body does not itself begin with
      `json`. */
  lemma BareFenceRoundTrip(pre: string, body: string, post: string)
    requires Plain(pre) && Plain(body)
    requires !(|body| >= 4 && body[..4] == "json")
    ensures ExtractJson(pre + Fence + body + Fence + post) == Trim(body)
  {
    var s := pre + Fence + body + Fence + post;
    var p := |pre|;
    var q := p + 3 + |body|;
    OpeningFence(pre, body, post);
    ClosingFence(pre, body, post);
    BetweenFences(pre, body, post);
    UntaggedBody(s, p + 3, q, body);
    ExtractBetween(s, p, q);
  }

  // ---------------------------------------------------------------- errors

  /** What an analysis can fail with: `JSON.parse` throws a SyntaxError; the
      model call throws any other error. */
  datatype Failure = SyntaxError(message: string) | OtherError(message: string)

  const InvalidJsonMessage := "Claude gaf geen geldig JSON terug." + " Probeer opnieuw."

  const ApiErrorPrefix := "API fout: "

  /** The message reported for a failure. */
  function ErrorMessage(f: Failure): (r: string)
    ensures f.SyntaxError? ==> r == InvalidJsonMessage
    ensures f.OtherError? ==> |r| >= |ApiErrorPrefix| && r[..|ApiErrorPrefix|] == ApiErrorPrefix
  {
    if f.SyntaxError? then InvalidJsonMessage else ApiErrorPrefix + f.message
  }

  /** Reads a reported message back: which kind of failure it was, and for
      other errors the original message. */
  function ReadErrorMessage(m: string): (f: Failure)
    ensures f.OtherError? <==> |m| >= |ApiErrorPrefix| && m[..|ApiErrorPrefix|] == ApiErrorPrefix
  {
    if |m| >= |ApiErrorPrefix| && m[..|ApiErrorPrefix|] == ApiErrorPrefix then OtherError(m[|ApiErrorPrefix|..])
    else SyntaxError(m)
  }

  /** The reported message tells a syntax error from any other error, and
      keeps the other error's message. */
  lemma ErrorMessageReadsBack(f: Failure)
    ensures ReadErrorMessage(ErrorMessage(f)).SyntaxError? <==> f.SyntaxError?
    ensures f.OtherError? ==> ReadErrorMessage(ErrorMessage(f)) == f
  {
    var m := InvalidJsonMessage;
    assert m[0] != ApiErrorPrefix[0];
    assert |m| >= |ApiErrorPrefix| ==> m[..|ApiErrorPrefix|][0] == m[0];
  }
}
