/** The post-processing of services/aiService.js: `cleanJSONResponse`, which
    digs the JSON object out of a model reply, and `extractCodeFromResponse`,
    which takes the body of the first fenced code block. The regular
    expressions are written out as scans over the text. */
module AiService {
  import opened Wrappers
  import opened JsString

  const Fence := "```"
  const JsonFence := "```json"

  // ---------------------------------------------------- removing the fences

  /** `s.replace(/<marker>\s?/g, '')`: from left to right, every copy of the
      marker is cut out together with one white-space character right after
      it, if there is one; the scan resumes after what was cut. */
  function StripAll(s: string, marker: string): string
    requires |marker| > 0
    decreases |s|
  {
    if |s| == 0 then ""
    else if StartsWith(s, marker) then
      var rest := s[|marker|..];
      if |rest| > 0 && IsSpace(rest[0]) then StripAll(rest[1..], marker) else StripAll(rest, marker)
    else [s[0]] + StripAll(s[1..], marker)
  }

  /** Stripping never lengthens the text, and the text left can start with
      the marker's first character only if the text itself did: the cut
      never moves such a character to the front. */
  lemma {:induction false} StripAllFirst(s: string, marker: string)
    requires |marker| > 0
    ensures |StripAll(s, marker)| <= |s|
    ensures |StripAll(s, marker)| > 0 && StripAll(s, marker)[0] == marker[0] ==> |s| > 0 && s[0] == marker[0]
    decreases |s|
  {
    if |s| > 0 && StartsWith(s, marker) {
      var rest := s[|marker|..];
      if |rest| > 0 && IsSpace(rest[0]) {
        StripAllFirst(rest[1..], marker);
      } else {
        StripAllFirst(rest, marker);
      }
    } else if |s| > 0 {
      StripAllFirst(s[1..], marker);
    }
  }

  /** Text without the marker comes through the pass unchanged. */
  lemma {:induction false} StripAllUnmarked(s: string, marker: string)
    requires |marker| > 0
    ensures !Contains(s, marker) ==> StripAll(s, marker) == s
    decreases |s|
  {
    if |s| > 0 && !Contains(s, marker) {
      assert !OccursAt(s, marker, 0);
      if Contains(s[1..], marker) {
        var i :| 0 <= i <= |s[1..]| && OccursAt(s[1..], marker, i);
        assert s[i + 1..i + 1 + |marker|] == s[1..][i..i + |marker|];
        assert OccursAt(s, marker, i + 1);
      }
      StripAllUnmarked(s[1..], marker);
    }
  }

  /** An occurrence in `[c] + t` is at the front or inside `t`. */
  lemma ContainsCons(c: char, t: string, u: string)
    requires |u| > 0
    ensures Contains([c] + t, u) ==> OccursAt([c] + t, u, 0) || Contains(t, u)
  {
    if Contains([c] + t, u) && !OccursAt([c] + t, u, 0) {
      var i :| 0 <= i <= |[c] + t| && OccursAt([c] + t, u, i);
      assert ([c] + t)[i..i + |u|] == t[i - 1..i - 1 + |u|];
      assert OccursAt(t, u, i - 1);
    }
  }

  /** No fence survives the fence pass: cutting one out never joins
      backquotes on either side of it into a new one, because a backquote
      just before a fence would itself have started the earlier fence. */
  lemma {:induction false} NoFenceLeft(s: string)
    ensures !Contains(StripAll(s, Fence), Fence)
    decreases |s|
  {
    if |s| > 0 {
      if StartsWith(s, Fence) {
        var rest := s[|Fence|..];
        if |rest| > 0 && IsSpace(rest[0]) {
          NoFenceLeft(rest[1..]);
        } else {
          NoFenceLeft(rest);
        }
      } else {
        var t := s[1..];
        var r := StripAll(t, Fence);
        NoFenceLeft(t);
        ContainsCons(s[0], r, Fence);
        if OccursAt([s[0]] + r, Fence, 0) {
          assert false;
        }
      }
    }
  }

  // ------------------------------------------------------ cleanJSONResponse

  /** What `cleanJSONResponse(text)` returns: JSON text, or the fallback
      object it builds with `JSON.stringify`, kept as its three fields. */
  datatype Cleaned =
    | JsonText(json: string)
    | Fallback(explanation: string, keyPoints: seq<string>, complexity: string)

  /** Both fence passes, then `trim()`. */
  function Unfenced(text: string): string
  {
    Trim(StripAll(StripAll(text, JsonFence), Fence))
  }

  /** The last position of `c`. */
  function LastIndexOf(s: string, c: char): (j: nat)
    requires c in s
    ensures j < |s| && s[j] == c && c !in s[j + 1..]
  {
    if s[|s| - 1] == c then |s| - 1 else LastIndexOf(s[..|s| - 1], c)
  }

  /** Some `{` has a `}` after it: what `/\{[\s\S]*\}/` needs to match. */
  predicate HasBracePair(s: string)
  {
    exists i, j :: 0 <= i < j < |s| && s[i] == '{' && s[j] == '}'
  }

  /** The choice `cleanJSONResponse` makes on the cleaned text. */
  function Pick(cleaned: string, text: string): Cleaned
  {
    if |cleaned| > 0 && cleaned[0] == '{' && cleaned[|cleaned| - 1] == '}' then JsonText(cleaned)
    else if '{' in cleaned && '}' in cleaned && IndexOf(cleaned, '{') < LastIndexOf(cleaned, '}') then
      JsonText(cleaned[IndexOf(cleaned, '{')..LastIndexOf(cleaned, '}') + 1])
    else Fallback(text, [], "Unable to analyze complexity")
  }

  /** `cleanJSONResponse(text)`. */
  function CleanJson(text: string): Cleaned
  {
    Pick(Unfenced(text), text)
  }

  /** The greedy match starts at the first `{` and ends at the last `}`,
      and there is one exactly when some `{` comes before some `}`. */
  lemma BracePairSpan(s: string)
    ensures HasBracePair(s) <==> '{' in s && '}' in s && IndexOf(s, '{') < LastIndexOf(s, '}')
  {
    if HasBracePair(s) {
      var i, j :| 0 <= i < j < |s| && s[i] == '{' && s[j] == '}';
      var a := IndexOf(s, '{');
      var b := LastIndexOf(s, '}');
      assert a <= i;
      assert j <= b;
    }
  }

  /** The JSON found is a slice of the cleaned text that opens with `{` and
      closes with `}`. */
  lemma PickIsBraced(cleaned: string, text: string)
    ensures Pick(cleaned, text).JsonText? ==>
      var t := Pick(cleaned, text).json;
      |t| >= 2 && t[0] == '{' && t[|t| - 1] == '}' && Contains(cleaned, t)
  {
    if Pick(cleaned, text).JsonText? {
      var t := Pick(cleaned, text).json;
      if |cleaned| > 0 && cleaned[0] == '{' && cleaned[|cleaned| - 1] == '}' {
        assert cleaned[0..|cleaned|] == cleaned;
        assert OccursAt(cleaned, t, 0);
      } else {
        assert OccursAt(cleaned, t, IndexOf(cleaned, '{'));
      }
    }
  }

  /** Cleaned text that opens with `{` and closes with `}` is returned as it
      is; otherwise the span runs from its first `{` to its last `}`. */
  lemma PickSpan(cleaned: string, text: string)
    ensures |cleaned| > 0 && cleaned[0] == '{' && cleaned[|cleaned| - 1] == '}' ==> Pick(cleaned, text) == JsonText(cleaned)
    ensures Pick(cleaned, text).JsonText? && Pick(cleaned, text).json != cleaned ==>
      var a, b := IndexOf(cleaned, '{'), LastIndexOf(cleaned, '}');
      '{' !in cleaned[..a] && '}' !in cleaned[b + 1..] && Pick(cleaned, text).json == cleaned[a..b + 1]
  {
    if !(|cleaned| > 0 && cleaned[0] == '{' && cleaned[|cleaned| - 1] == '}') && Pick(cleaned, text).JsonText? {
      assert '{' in cleaned && '}' in cleaned;
    }
  }

  /** The fallback is taken exactly when the cleaned text has no `{` before
      a `}`; it carries the reply as it came, before any cleaning. */
  lemma PickFallback(cleaned: string, text: string)
    ensures Pick(cleaned, text).Fallback? <==> !HasBracePair(cleaned)
    ensures Pick(cleaned, text).Fallback? ==> Pick(cleaned, text) == Fallback(text, [], "Unable to analyze complexity")
  {
    BracePairSpan(cleaned);
    if |cleaned| > 0 && cleaned[0] == '{' && cleaned[|cleaned| - 1] == '}' {
      assert 0 < |cleaned| - 1;
    }
  }

  /** The cleaned text has no white space at either end and no fence. */
  lemma UnfencedSpec(text: string)
    ensures IsTrimmed(Unfenced(text))
    ensures !Contains(Unfenced(text), Fence)
  {
    var s := StripAll(StripAll(text, JsonFence), Fence);
    NoFenceLeft(StripAll(text, JsonFence));
    TrimSpec(s);
    var i, j :| 0 <= i <= j <= |s| && Unfenced(text) == s[i..j]
             && (forall k :: 0 <= k < i ==> IsSpace(s[k]))
             && (forall k :: j <= k < |s| ==> IsSpace(s[k]));
    ContainsSlice(s, i, j, Fence);
  }

  /** JSON text picked from fence-free text is fence-free. */
  lemma PickUnfenced(cleaned: string, text: string)
    ensures !Contains(cleaned, Fence) && Pick(cleaned, text).JsonText? ==> !Contains(Pick(cleaned, text).json, Fence)
  {
    PickIsBraced(cleaned, text);
    if Pick(cleaned, text).JsonText? {
      ContainsTrans(cleaned, Pick(cleaned, text).json, Fence);
    }
  }

  /** `cleanJSONResponse` hands on braced JSON text free of fences, found in
      the cleaned reply. */
  lemma {:induction false} CleanJsonBraced(text: string)
    ensures CleanJson(text).JsonText? ==>
      var t := CleanJson(text).json;
      |t| >= 2 && t[0] == '{' && t[|t| - 1] == '}' && !Contains(t, Fence) && Contains(Unfenced(text), t)
  {
    UnfencedSpec(text);
    PickIsBraced(Unfenced(text), text);
    PickUnfenced(Unfenced(text), text);
  }

  /** When the cleaned reply has no `{` before a `}`, and only then,
      `cleanJSONResponse` falls back to an object carrying the reply as it
      came. */
  lemma CleanJsonFallback(text: string)
    ensures CleanJson(text).Fallback? <==> !HasBracePair(Unfenced(text))
    ensures CleanJson(text).Fallback? ==> CleanJson(text) == Fallback(text, [], "Unable to analyze complexity")
  {
    PickFallback(Unfenced(text), text);
  }

  // ------------------------------------------------- extractCodeFromResponse

  /** `\w`: an ASCII letter, digit or underscore. */
  predicate IsWordChar(c: char)
  {
    ('a' <= c <= 'z') || ('A' <= c <= 'Z') || ('0' <= c <= '9') || c == '_'
  }

  /** The end of the run of word characters from `p`. */
  function WordRunEnd(s: string, p: nat): (q: nat)
    requires p <= |s|
    ensures p <= q <= |s|
    ensures forall k :: p <= k < q ==> IsWordChar(s[k])
    ensures q == |s| || !IsWordChar(s[q])
    decreases |s| - p
  {
    if p < |s| && IsWordChar(s[p]) then WordRunEnd(s, p + 1) else p
  }

  /** Where the body starts if an opening ```` ```<word>?\n ```` starts at
      `p`: the greedy word run, then a line break. */
  function OpeningAt(s: string, p: nat): Option<nat>
  {
    if OccursAt(s, Fence, p) then
      var q := WordRunEnd(s, p + 3);
      if q < |s| && s[q] == '\n' then Some(q + 1) else None
    else None
  }

  /** The first fence at or after `k`: where the lazy body stops. */
  function ClosingFrom(s: string, k: nat): (e: Option<nat>)
    ensures e.Some? ==> k <= e.value && OccursAt(s, Fence, e.value)
    ensures e.Some? ==> forall m :: k <= m < e.value ==> !OccursAt(s, Fence, m)
    ensures e.None? ==> forall m :: k <= m ==> !OccursAt(s, Fence, m)
    decreases |s| - k
  {
    if k + 3 > |s| then None
    else if OccursAt(s, Fence, k) then Some(k)
    else ClosingFrom(s, k + 1)
  }

  /** A fenced block: its opening at `p`, and the body from `b` to the
      closing fence at `e`. */
  datatype Block = Block(p: nat, b: nat, e: nat)

  predicate IsBlockAt(s: string, blk: Block)
  {
    OpeningAt(s, blk.p) == Some(blk.b) && ClosingFrom(s, blk.b) == Some(blk.e)
  }

  /** The leftmost block at or after `p`: the position the regular
      expression's search tries first and succeeds at. */
  function FirstBlock(s: string, p: nat): (r: Option<Block>)
    ensures r.Some? ==> r.value.p >= p && IsBlockAt(s, r.value)
    ensures r.Some? ==> forall p' :: p <= p' < r.value.p ==> OpeningAt(s, p').None? || ClosingFrom(s, OpeningAt(s, p').value).None?
    ensures r.None? ==> forall p' :: p <= p' ==> OpeningAt(s, p').None? || ClosingFrom(s, OpeningAt(s, p').value).None?
    decreases |s| - p
  {
    if p + 3 > |s| then
      assert forall p' :: p <= p' ==> !OccursAt(s, Fence, p');
      None
    else match OpeningAt(s, p)
      case Some(b) =>
        (match ClosingFrom(s, b)
         case Some(e) => Some(Block(p, b, e))
         case None => FirstBlock(s, p + 1))
      case None => FirstBlock(s, p + 1)
  }

  /** `extractCodeFromResponse(text)`: the first block's body, trimmed, when
      that body is not empty (an empty capture is falsy); the text itself
      otherwise. */
  function ExtractCode(text: string): string
  {
    match FirstBlock(text, 0)
    case Some(blk) => if blk.b < blk.e then Trim(text[blk.b..blk.e]) else text
    case None => text
  }

  /** A block opens with a fence and a line break, and its body holds no
      fence: the lazy body stops at the first closing one. */
  lemma BlockShape(s: string, blk: Block)
    requires IsBlockAt(s, blk)
    ensures OccursAt(s, Fence, blk.p) && blk.p + 3 < blk.b <= blk.e && OccursAt(s, Fence, blk.e)
    ensures s[blk.b - 1] == '\n'
    ensures !Contains(s[blk.b..blk.e], Fence)
  {
    forall m | 0 <= m <= blk.e - blk.b
      ensures OccursAt(s[blk.b..blk.e], Fence, m) ==> OccursAt(s, Fence, blk.b + m)
    {
      OccursInSlice(s, blk.b, blk.e, Fence, m);
    }
  }

  /** The leftmost complete block's body comes back trimmed when it is not
      empty; with no block, or an empty body, the text comes back
      unchanged. */
  lemma ExtractCodeSpec(text: string)
    ensures FirstBlock(text, 0).Some? && FirstBlock(text, 0).value.b < FirstBlock(text, 0).value.e ==>
      var blk := FirstBlock(text, 0).value;
      ExtractCode(text) == Trim(text[blk.b..blk.e]) && IsTrimmed(ExtractCode(text))
    ensures FirstBlock(text, 0).Some? && FirstBlock(text, 0).value.b == FirstBlock(text, 0).value.e ==> ExtractCode(text) == text
    ensures FirstBlock(text, 0).None? ==> ExtractCode(text) == text
  {
    if FirstBlock(text, 0).Some? {
      var blk := FirstBlock(text, 0).value;
      if blk.b < blk.e {
        TrimSpec(text[blk.b..blk.e]);
      }
    }
  }

  lemma {:induction false} WordRunEndAt(s: string, p: nat, q: nat)
    requires p <= q < |s|
    requires forall k :: p <= k < q ==> IsWordChar(s[k])
    requires !IsWordChar(s[q])
    ensures WordRunEnd(s, p) == q
    decreases q - p
  {
    if p < q {
      WordRunEndAt(s, p + 1, q);
    }
  }

  /** A fence, a language word and a line break open a block whose body
      starts right after them. */
  lemma OpeningOfFence(lang: string, rest: string)
    requires forall k :: 0 <= k < |lang| ==> IsWordChar(lang[k])
    ensures OpeningAt(Fence + lang + "\n" + rest, 0) == Some(|lang| + 4)
  {
    var s := Fence + lang + "\n" + rest;
    assert s[..3] == Fence;
    forall k | 3 <= k < 3 + |lang|
      ensures IsWordChar(s[k])
    {
      assert s[k] == lang[k - 3];
    }
    assert s[3 + |lang|] == '\n';
    WordRunEndAt(s, 3, 3 + |lang|);
  }

  /** The first fence at or after `k` is the one at `e` when none lies in
      between. */
  lemma ClosingAt(s: string, k: nat, e: nat)
    requires k <= e && OccursAt(s, Fence, e)
    requires forall m :: k <= m < e ==> !OccursAt(s, Fence, m)
    ensures ClosingFrom(s, k) == Some(e)
  {
  }

  lemma OccursAtHead(s: string, t: string, m: int)
    ensures OccursAt(s, t, m) && |t| > 0 ==> s[m] == t[0]
  {
    if OccursAt(s, t, m) && |t| > 0 {
      assert s[m..m + |t|][0] == s[m];
    }
  }

  /** With no backquote in the body, the first fence after it closes it. */
  lemma ClosingOfBody(head: string, body: string)
    requires '`' !in body
    ensures ClosingFrom(head + body + Fence, |head|) == Some(|head| + |body|)
  {
    var s := head + body + Fence;
    var e := |head| + |body|;
    assert s[e..] == Fence;
    forall m | |head| <= m < e
      ensures !OccursAt(s, Fence, m)
    {
      assert s[m] == body[m - |head|];
      OccursAtHead(s, Fence, m);
    }
    ClosingAt(s, |head|, e);
  }

  /** A fenced body with no backquote is the first block of the text. */
  lemma FencedBodyIsFirstBlock(lang: string, body: string)
    requires forall k :: 0 <= k < |lang| ==> IsWordChar(lang[k])
    requires '`' !in body
    ensures var s := Fence + lang + "\n" + body + Fence;
      FirstBlock(s, 0) == Some(Block(0, |lang| + 4, |lang| + 4 + |body|))
  {
    var head := Fence + lang + "\n";
    var s := head + body + Fence;
    assert s == Fence + lang + "\n" + (body + Fence);
    OpeningOfFence(lang, body + Fence);
    ClosingOfBody(head, body);
  }

  /** Round trip: a body with no backquote, fenced with an optional
      language word, is extracted back, trimmed. */
  lemma FencedBodyRoundTrip(lang: string, body: string)
    requires forall k :: 0 <= k < |lang| ==> IsWordChar(lang[k])
    requires '`' !in body && body != ""
    ensures ExtractCode(Fence + lang + "\n" + body + Fence) == Trim(body)
  {
    var s := Fence + lang + "\n" + body + Fence;
    FencedBodyIsFirstBlock(lang, body);
    assert s[|lang| + 4..|lang| + 4 + |body|] == body;
  }

  /** A reply with no fence at all comes back unchanged. */
  lemma UnfencedReplyUnchanged(text: string)
    ensures !Contains(text, Fence) ==> ExtractCode(text) == text
  {
  }
}
