/**
 * `MainAgent._extract_json`: how the agent picks, from raw LLM text, the
 * string it hands to the JSON decoder, and in which order it falls back.
 * The decoder itself (`json.loads`) is a parameter: a total function from a
 * candidate string to a decoded value or the message of the error it raises.
 */
module JsonExtraction {
  import opened Results
  import opened PyStrings
  import opened PyValues

  /** The markdown code fence. */
  const Fence: string := "```"
  /** The opening fence of a block tagged `json`. */
  const JsonTag: string := "```json"

  /** `json.loads`: the decoded value, or the message of the `JSONDecodeError`. */
  type Decoder = string -> Result<Value, string>

  /** What `_extract_json` raises: `ValueError("Empty response")` or a decoder error. */
  datatype ExtractError = EmptyResponse | DecodeError(msg: string)

  /** `str(e)` for an error raised by `_extract_json`. */
  function Message(e: ExtractError): string
  {
    match e
    case EmptyResponse => "Empty response"
    case DecodeError(msg) => msg
  }

  /** A decoder outcome, as seen by the caller of `_extract_json`. */
  function Decoded(p: Result<Value, string>): Result<Value, ExtractError>
  {
    match p
    case Success(v) => Success(v)
    case Failure(msg) => Failure(DecodeError(msg))
  }

  /** `c` is a contiguous piece of `text`, possibly with surrounding whitespace stripped. */
  ghost predicate Excerpt(text: string, c: string)
  {
    exists i, j :: 0 <= i <= j <= |text| && (c == text[i..j] || c == Strip(text[i..j]))
  }

  /** The first occurrence of `pat` in `t` ends at position `s`. */
  ghost predicate FirstEndsAt(t: string, pat: string, s: nat)
  {
    |pat| <= s && OccursAt(t, pat, s - |pat|) && forall k: nat :: k < s - |pat| ==> !OccursAt(t, pat, k)
  }

  /** The first occurrence of `pat` in `t` at or after `from` starts at `e`. */
  ghost predicate NextAt(t: string, pat: string, from: nat, e: nat)
  {
    from <= e && OccursAt(t, pat, e) && forall k: nat :: from <= k < e ==> !OccursAt(t, pat, k)
  }

  /** `pat` does not occur in `t` at or after `from`. */
  ghost predicate NoneFrom(t: string, pat: string, from: nat)
  {
    forall k: nat :: from <= k ==> !OccursAt(t, pat, k)
  }

  /**
   * The `end = text.find("```", start)` and `candidate = ...` statements of
   * both fenced branches: the stripped text from `start` to the next "```",
   * or the whole text when no fence follows `start`.
   */
  function BlockFrom(text: string, start: nat): string
    requires start <= |text|
  {
    var end := Find(text, Fence, start);
    if end != -1 then Strip(text[start..end]) else text
  }

  /** The block, characterised by the position of the closing fence rather than by `find`. */
  lemma BlockFromSpec(text: string, start: nat)
    requires start <= |text|
    ensures NoneFrom(text, Fence, start) ==> BlockFrom(text, start) == text
    ensures forall e: nat :: NextAt(text, Fence, start, e) ==> BlockFrom(text, start) == Strip(text[start..e])
  {
    forall e: nat | NextAt(text, Fence, start, e)
      ensures BlockFrom(text, start) == Strip(text[start..e])
    {
      FindFirst(text, Fence, start, e);
    }
  }

  /** When `find` locates the closing fence at `end`, the block is the stripped text up to it. */
  lemma BlockFromClosed(text: string, start: nat, end: nat)
    requires start <= |text| && Find(text, Fence, start) == end
    ensures start <= end <= |text| && BlockFrom(text, start) == Strip(text[start..end])
  {
  }

  /** The block is a piece of the text. */
  lemma BlockFromExcerpt(text: string, start: nat)
    requires start <= |text|
    ensures Excerpt(text, BlockFrom(text, start))
  {
    var end := Find(text, Fence, start);
    if end != -1 {
      assert BlockFrom(text, start) == Strip(text[start..end]);
    } else {
      assert BlockFrom(text, start) == text[0..|text|];
    }
  }

  /**
   * The candidate of a fenced branch: the block after the first occurrence of
   * the opening fence `open`: `start_marker = "```json"` in the preferred
   * branch, "```" in the first-fenced-block fallback.
   */
  function BlockAfter(text: string, open: string): string
    requires Contains(text, open)
  {
    BlockFrom(text, Find(text, open, 0) + |open|)
  }

  /** The block after `open` starts where `find` says `open` ends. */
  lemma BlockAfterStart(text: string, open: string, s: nat)
    requires |open| <= s <= |text| && Find(text, open, 0) == s - |open|
    ensures Contains(text, open) && BlockAfter(text, open) == BlockFrom(text, s)
  {
  }

  /**
   * The candidate is the stripped text between the end of the first `open`
   * and the next "```" after it, or the whole text when no fence closes the
   * block.
   */
  lemma BlockAfterSpec(text: string, open: string, s: nat)
    requires FirstEndsAt(text, open, s)
    ensures Contains(text, open)
    ensures NoneFrom(text, Fence, s) ==> BlockAfter(text, open) == text
    ensures forall e: nat :: NextAt(text, Fence, s, e) ==> BlockAfter(text, open) == Strip(text[s..e])
  {
    FindFirst(text, open, 0, s - |open|);
    BlockAfterStart(text, open, s);
    BlockFromSpec(text, s);
  }

  /** `t[i..j]` is a match of the regular expression `\{[\s\S]*\}`. */
  ghost predicate BraceMatch(t: string, i: int, j: int)
  {
    0 <= i && i + 2 <= j <= |t| && t[i] == '{' && t[j - 1] == '}'
  }

  /** `t[i..j]` is the match `re.search` reports: the leftmost start, and the longest (greedy) match there. */
  ghost predicate SearchHit(t: string, i: int, j: int)
  {
    BraceMatch(t, i, j) && forall i', j' :: BraceMatch(t, i', j') ==> i <= i' && (i' == i ==> j' <= j)
  }

  /** `re.search(r"\{[\s\S]*\}", text)`: from the first `{` to the last `}` after it, if any. */
  function BraceSpan(text: string): Option<string>
  {
    var i := IndexOf(text, '{');
    var k := LastIndexOf(text, '}');
    if i != -1 && i < k then Some(text[i..k + 1]) else None
  }

  /** `BraceSpan` is exactly what the regular-expression search finds, and finds nothing only when there is no match. */
  lemma BraceSpanIsSearch(text: string)
    ensures BraceSpan(text).None? <==> forall i, j :: !BraceMatch(text, i, j)
    ensures forall i, j :: SearchHit(text, i, j) ==> BraceSpan(text) == Some(text[i..j])
    ensures BraceSpan(text).Some? ==> exists i, j :: SearchHit(text, i, j)
  {
    var i0 := IndexOf(text, '{');
    var k0 := LastIndexOf(text, '}');
    IndexOfIsFirst(text, '{');
    LastIndexOfIsLast(text, '}');
    forall i, j | BraceMatch(text, i, j)
      ensures i0 != -1 && i0 <= i && j - 1 <= k0
    {
    }
    if i0 != -1 && i0 < k0 {
      assert BraceMatch(text, i0, k0 + 1);
      assert SearchHit(text, i0, k0 + 1);
    }
  }

  /**
   * The "try direct parse" step: decode the whole text; failing that, decode the
   * regular-expression span; with no span, re-raise the first error.
   */
  function DirectParse(text: string, parse: Decoder): Result<Value, ExtractError>
  {
    match parse(text)
    case Success(v) => Success(v)
    case Failure(msg) =>
      match BraceSpan(text)
      case Some(span) => Decoded(parse(span))
      case None => Failure(DecodeError(msg))
  }

  /**
   * A text that decodes is taken as it is; otherwise the match of
   * `\{[\s\S]*\}` is decoded, and with no match the first decoder error is
   * re-raised.
   */
  lemma DirectParseSpec(text: string, parse: Decoder)
    ensures parse(text).Success? ==> DirectParse(text, parse) == Success(parse(text).value)
    ensures parse(text).Failure? && (forall i, j :: !BraceMatch(text, i, j)) ==>
              DirectParse(text, parse) == Failure(DecodeError(parse(text).error))
    ensures forall i, j :: parse(text).Failure? && SearchHit(text, i, j) ==>
              DirectParse(text, parse) == Decoded(parse(text[i..j]))
  {
    BraceSpanIsSearch(text);
  }

  /**
   * `MainAgent._extract_json`. Empty text is rejected before anything is
   * decoded; a `json` block decides the outcome on its own; an untagged block
   * is tried first and then the whole text; the regular-expression span is
   * the last resort.
   */
  function ExtractJson(text: string, parse: Decoder): (r: Result<Value, ExtractError>)
    ensures r == Failure(EmptyResponse) <==> text == []
  {
    TagHasFence(text);
    if text == [] then Failure(EmptyResponse)
    else if Contains(text, Fence) && Contains(text, JsonTag) then
      Decoded(parse(BlockAfter(text, JsonTag)))
    else if Contains(text, Fence) && parse(BlockAfter(text, Fence)).Success? then
      Success(parse(BlockAfter(text, Fence)).value)
    else
      DirectParse(text, parse)
  }

  /** Empty text raises "Empty response" whatever the decoder would say: nothing is decoded. */
  lemma EmptyResponseDecodesNothing(parse: Decoder, other: Decoder)
    ensures ExtractJson("", parse) == ExtractJson("", other) == Failure(EmptyResponse)
    ensures Message(EmptyResponse) == "Empty response"
  {
  }

  /** With a "```json" in the text, decoding the tagged candidate decides the outcome; its error propagates. */
  lemma TaggedBranchDecides(text: string, parse: Decoder)
    requires Contains(text, JsonTag)
    ensures ExtractJson(text, parse) == Decoded(parse(BlockAfter(text, JsonTag)))
  {
    TagHasFence(text);
  }

  /** With "```" but no "```json", the untagged candidate is tried first, then the direct parse. */
  lemma FencedBranchFallsBack(text: string, parse: Decoder)
    requires Contains(text, Fence) && !Contains(text, JsonTag)
    ensures parse(BlockAfter(text, Fence)).Success? ==> ExtractJson(text, parse) == Success(parse(BlockAfter(text, Fence)).value)
    ensures parse(BlockAfter(text, Fence)).Failure? ==> ExtractJson(text, parse) == DirectParse(text, parse)
  {
  }

  /** Without any fence, a non-empty text goes straight to the direct parse. */
  lemma UnfencedIsDirect(text: string, parse: Decoder)
    requires text != [] && !Contains(text, Fence)
    ensures ExtractJson(text, parse) == DirectParse(text, parse)
  {
    TagHasFence(text);
  }

  /** The candidate of a fenced branch is a piece of the text. */
  lemma BlockAfterExcerpt(text: string, open: string)
    requires Contains(text, open)
    ensures Excerpt(text, BlockAfter(text, open))
  {
    var s: nat := Find(text, open, 0) + |open|;
    BlockAfterStart(text, open, s);
    BlockFromExcerpt(text, s);
  }

  /** The direct parse decodes the whole text or the brace span; its error is the decoder's complaint about the whole text. */
  lemma DirectParseNeverInvents(text: string, parse: Decoder)
    ensures DirectParse(text, parse).Success? ==>
              exists c :: Excerpt(text, c) && parse(c) == Success(DirectParse(text, parse).value)
    ensures DirectParse(text, parse).Failure? ==>
              exists c :: Excerpt(text, c) && parse(c) == Failure(Message(DirectParse(text, parse).error))
  {
    assert Excerpt(text, text) by {
      assert text == text[0..|text|];
    }
    var i := IndexOf(text, '{');
    var k := LastIndexOf(text, '}');
    if parse(text).Failure? && i != -1 && i < k {
      assert Excerpt(text, text[i..k + 1]);
    }
  }

  /**
   * `_extract_json` never invents a value: what it returns was decoded from a
   * piece of the text, and the error it raises for non-empty text is the
   * decoder's complaint about a piece of the text.
   */
  lemma ExtractJsonNeverInvents(text: string, parse: Decoder)
    ensures ExtractJson(text, parse).Success? ==>
              exists c :: Excerpt(text, c) && parse(c) == Success(ExtractJson(text, parse).value)
    ensures ExtractJson(text, parse).Failure? && text != [] ==>
              exists c :: Excerpt(text, c) && parse(c) == Failure(Message(ExtractJson(text, parse).error))
  {
    if text == [] {
    } else if Contains(text, JsonTag) {
      TaggedBranchDecides(text, parse);
      BlockAfterExcerpt(text, JsonTag);
    } else if Contains(text, Fence) {
      FencedBranchFallsBack(text, parse);
      BlockAfterExcerpt(text, Fence);
      DirectParseNeverInvents(text, parse);
    } else {
      UnfencedIsDirect(text, parse);
      DirectParseNeverInvents(text, parse);
    }
  }

  /** A text containing "```json" also contains "```". */
  lemma TagHasFence(text: string)
    ensures Contains(text, JsonTag) ==> Contains(text, Fence)
  {
    if Contains(text, JsonTag) {
      var k: nat :| OccursAt(text, JsonTag, k);
      assert text[k..k + 3] == text[k..k + 7][..3];
      assert OccursAt(text, Fence, k);
    }
  }

  /** With no backtick before it, the "```json" after `pre` is the first one. */
  lemma TagFirstAt(pre: string, rest: string)
    requires '`' !in pre
    ensures FirstEndsAt(pre + JsonTag + rest, JsonTag, |pre| + |JsonTag|)
  {
    var text := pre + JsonTag + rest;
    assert text[|pre|..|pre| + |JsonTag|] == JsonTag;
    forall k: nat | k < |pre| ensures !OccursAt(text, JsonTag, k) {
      assert text[k] == pre[k];
      assert k + |JsonTag| <= |text| ==> text[k..k + |JsonTag|][0] == text[k];
    }
  }

  /** With no backtick in `body`, the first "```" from the start of `body` is the one right after it. */
  lemma FenceNextAt(head: string, body: string, rest: string)
    requires '`' !in body
    ensures NextAt(head + body + Fence + rest, Fence, |head|, |head| + |body|)
  {
    var text := head + body + Fence + rest;
    var e := |head| + |body|;
    assert text[e..e + |Fence|] == Fence;
    forall k: nat | |head| <= k < e ensures !OccursAt(text, Fence, k) {
      assert text[k] == body[k - |head|];
      assert text[k..k + |Fence|][0] == text[k];
    }
  }

  /** With no backtick in `rest`, no "```" starts inside it. */
  lemma NoFenceIn(head: string, rest: string)
    requires '`' !in rest
    ensures NoneFrom(head + rest, Fence, |head|)
  {
    var text := head + rest;
    forall k: nat | |head| <= k ensures !OccursAt(text, Fence, k) {
      if k < |text| {
        assert text[k] == rest[k - |head|];
        assert k + |Fence| <= |text| ==> text[k..k + |Fence|][0] == text[k];
      }
    }
  }

  /** With no backtick before it, `find` locates the "```json" right after `pre`. */
  lemma FindTagAfter(pre: string, rest: string)
    requires '`' !in pre
    ensures Find(pre + JsonTag + rest, JsonTag, 0) == |pre|
  {
    TagFirstAt(pre, rest);
    FindFirst(pre + JsonTag + rest, JsonTag, 0, |pre|);
  }

  /** With no backtick in `body`, `find` from the start of `body` locates the "```" right after it. */
  lemma FindFenceAfter(head: string, body: string, rest: string)
    requires '`' !in body
    ensures Find(head + body + Fence + rest, Fence, |head|) == |head| + |body|
  {
    FenceNextAt(head, body, rest);
    FindFirst(head + body + Fence + rest, Fence, |head|, |head| + |body|);
  }

  /** When `find` puts the end of `open` at `s` and the next fence right after `body`, the candidate is `body` stripped. */
  lemma BlockAfterClosed(text: string, open: string, s: nat, body: string)
    requires |open| <= s && s + |body| <= |text|
    requires Find(text, open, 0) == s - |open| && Find(text, Fence, s) == s + |body|
    requires text[s..s + |body|] == body
    ensures Contains(text, open) && BlockAfter(text, open) == Strip(body)
  {
    BlockAfterStart(text, open, s);
    BlockFromClosed(text, s, s + |body|);
  }

  /** Where `find` locates the two fences of a `json` block with no backticks around or inside it. */
  lemma TaggedBlockFences(pre: string, body: string, post: string)
    requires '`' !in pre && '`' !in body
    ensures Find(pre + JsonTag + body + Fence + post, JsonTag, 0) == |pre|
    ensures Find(pre + JsonTag + body + Fence + post, Fence, |pre| + |JsonTag|) == |pre| + |JsonTag| + |body|
    ensures (pre + JsonTag + body + Fence + post)[|pre| + |JsonTag|..|pre| + |JsonTag| + |body|] == body
  {
    assert pre + JsonTag + body + Fence + post == pre + JsonTag + (body + Fence + post);
    FindTagAfter(pre, body + Fence + post);
    FindFenceAfter(pre + JsonTag, body, post);
  }

  /** In a `json` block with no backticks around or inside it, the candidate is the stripped interior. */
  lemma TaggedBlockCandidate(pre: string, body: string, post: string)
    requires '`' !in pre && '`' !in body
    ensures Contains(pre + JsonTag + body + Fence + post, JsonTag)
    ensures BlockAfter(pre + JsonTag + body + Fence + post, JsonTag) == Strip(body)
  {
    TaggedBlockFences(pre, body, post);
    BlockAfterClosed(pre + JsonTag + body + Fence + post, JsonTag, |pre| + |JsonTag|, body);
  }

  /** A reply consisting of a `json` block (with no backticks around or inside it) yields exactly the decoded, stripped interior. */
  lemma TaggedBlockInterior(pre: string, body: string, post: string, parse: Decoder)
    requires '`' !in pre && '`' !in body
    ensures ExtractJson(pre + JsonTag + body + Fence + post, parse) == Decoded(parse(Strip(body)))
  {
    TaggedBlockCandidate(pre, body, post);
    TaggedBranchDecides(pre + JsonTag + body + Fence + post, parse);
  }

  /** An unclosed `json` block makes the whole text, opening fence included, the candidate. */
  lemma UnclosedTagCandidate(pre: string, rest: string)
    requires '`' !in pre && '`' !in rest
    ensures Contains(pre + JsonTag + rest, JsonTag)
    ensures BlockAfter(pre + JsonTag + rest, JsonTag) == pre + JsonTag + rest
  {
    TagFirstAt(pre, rest);
    NoFenceIn(pre + JsonTag, rest);
    BlockAfterSpec(pre + JsonTag + rest, JsonTag, |pre| + |JsonTag|);
  }

  /** An unclosed `json` block makes the whole text, opening fence included, the one string decoded. */
  lemma UnclosedTagDecodesWholeText(pre: string, rest: string, parse: Decoder)
    requires '`' !in pre && '`' !in rest
    ensures ExtractJson(pre + JsonTag + rest, parse) == Decoded(parse(pre + JsonTag + rest))
  {
    UnclosedTagCandidate(pre, rest);
    TaggedBranchDecides(pre + JsonTag + rest, parse);
  }
}
