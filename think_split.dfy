/**
 * The reasoning/answer split the playground applies to the accumulated stream
 * buffer on every chunk: `fullContent.match(/<think>([\s\S]*?)<\/think>/)` for the
 * reasoning and `fullContent.replace(/<think>[\s\S]*?<\/think>/, '').trim()` for
 * the visible answer. Both regexes are the same non-global, lazy pattern, so
 * they see the same (first) match.
 */
module ThinkSplit {
  import opened Wrappers
  import opened Text

  const OpenTag: string := "<think>"
  const CloseTag: string := "</think>"

  /** What one split yields: the reasoning text and the visible answer. */
  datatype Split = Split(thinking: string, content: string)

  /** Where a match of the pattern sits: the index of `<think>` and of the `</think>` that ends it. */
  datatype Span = Span(open: nat, close: nat)

  /** Some `<think>` is followed, at or after its end, by some `</think>`. */
  ghost predicate HasPair(buf: string) {
    exists i, j :: OccursAt(buf, OpenTag, i) && OccursAt(buf, CloseTag, j) && i + |OpenTag| <= j
  }

  /**
   * The match a JavaScript regex engine reports for the lazy pattern: the
   * leftmost `<think>`, closed by the nearest `</think>` that starts after it.
   */
  ghost predicate IsFirstMatch(buf: string, i: nat, j: nat) {
    && OccursAt(buf, OpenTag, i)
    && (forall k :: 0 <= k < i ==> !OccursAt(buf, OpenTag, k))
    && i + |OpenTag| <= j
    && OccursAt(buf, CloseTag, j)
    && (forall k :: i + |OpenTag| <= k < j ==> !OccursAt(buf, CloseTag, k))
  }

  /** The regex match, found by searching for the two literal tags. */
  function FindSpan(buf: string): Option<Span> {
    match FindFrom(buf, OpenTag, 0)
    case None => None
    case Some(i) =>
      match FindFrom(buf, CloseTag, i + |OpenTag|)
      case None => None
      case Some(j) => Some(Span(i, j))
  }

  /** The search finds the regex's match when there is one, and reports none exactly when no pair exists. */
  lemma FindSpanCorrect(buf: string)
    ensures var r := FindSpan(buf);
      && (r.Some? ==> IsFirstMatch(buf, r.value.open, r.value.close))
      && (r.None? <==> !HasPair(buf))
  {
    match FindFrom(buf, OpenTag, 0)
    case None =>
    case Some(i) =>
      match FindFrom(buf, CloseTag, i + |OpenTag|)
      case None =>
        forall i', j' | OccursAt(buf, OpenTag, i') && OccursAt(buf, CloseTag, j')
          ensures i' + |OpenTag| > j'
        {
          assert i <= i';
        }
      case Some(j) =>
  }

  /** The buffer with the matched span removed, before trimming (the `replace` call). */
  function Strip(buf: string): string {
    match FindSpan(buf)
    case None => buf
    case Some(sp) => buf[..sp.open] + buf[sp.close + |CloseTag|..]
  }

  /** The split recomputed from the whole buffer on every chunk. */
  function SplitBuffer(buf: string): Split {
    match FindSpan(buf)
    case None => Split("", Trim(buf))
    case Some(sp) => Split(buf[sp.open + |OpenTag|..sp.close], Trim(Strip(buf)))
  }

  /**
   * Without a complete pair there is no reasoning and the whole buffer, trimmed,
   * is the answer; an unterminated `<think>` stays visible in it.
   */
  lemma SplitWithoutPair(buf: string)
    requires !HasPair(buf)
    ensures SplitBuffer(buf) == Split("", Trim(buf))
  {
  }

  /**
   * With a pair, the reasoning is the text between the leftmost `<think>` and the
   * nearest `</think>` after it, and the answer is the rest, trimmed; anything after
   * that `</think>`, a second pair included, is kept verbatim.
   */
  lemma SplitWithPair(buf: string, i: nat, j: nat)
    requires IsFirstMatch(buf, i, j)
    ensures SplitBuffer(buf) == Split(buf[i + |OpenTag|..j], Trim(buf[..i] + buf[j + |CloseTag|..]))
  {
    FindSpanOfFirstMatch(buf, i, j);
    StripAt(buf, Span(i, j));
    SplitBufferAt(buf, Span(i, j));
  }

  /** `FindSpan` reports the first match. */
  lemma FindSpanOfFirstMatch(buf: string, i: nat, j: nat)
    requires IsFirstMatch(buf, i, j)
    ensures FindSpan(buf) == Some(Span(i, j))
  {
    assert OccursAt(buf, OpenTag, i) && OccursAt(buf, CloseTag, j);
    var sp := FindSpan(buf).value;
    FirstMatchUnique(buf, i, j, sp.open, sp.close);
  }

  /** With a match, the reasoning is the text inside it and the answer is the trimmed rest. */
  lemma SplitBufferAt(buf: string, sp: Span)
    requires FindSpan(buf) == Some(sp)
    ensures sp.open + |OpenTag| <= sp.close <= |buf|
    ensures SplitBuffer(buf) == Split(buf[sp.open + |OpenTag|..sp.close], Trim(Strip(buf)))
  {
  }

  /** The first match is unique. */
  lemma FirstMatchUnique(buf: string, i: nat, j: nat, i': nat, j': nat)
    requires IsFirstMatch(buf, i, j) && IsFirstMatch(buf, i', j')
    ensures i == i' && j == j'
  {
  }

  /** A match found in the buffer is still the match once a chunk is appended. */
  lemma SpanStableUnderAppend(buf: string, chunk: string)
    requires FindSpan(buf).Some?
    ensures FindSpan(buf + chunk) == FindSpan(buf)
  {
    var sp := FindSpan(buf).value;
    assert FindFrom(buf, OpenTag, 0) == Some(sp.open);
    assert FindFrom(buf, CloseTag, sp.open + |OpenTag|) == Some(sp.close);
    FindFromAppend(buf, chunk, OpenTag, 0);
    FindFromAppend(buf, chunk, CloseTag, sp.open + |OpenTag|);
  }

  /** Once the buffer holds a complete pair, later chunks never change the reasoning. */
  lemma ThinkingStableUnderAppend(buf: string, chunk: string)
    requires HasPair(buf)
    ensures SplitBuffer(buf + chunk).thinking == SplitBuffer(buf).thinking
  {
    var sp := FindSpan(buf).value;
    SpanStableUnderAppend(buf, chunk);
    var b := buf + chunk;
    assert b[sp.open + |OpenTag|..sp.close] == buf[sp.open + |OpenTag|..sp.close];
  }

  /** Once the buffer holds a complete pair, later chunks reach the untrimmed answer only by being appended to it. */
  lemma StripStableUnderAppend(buf: string, chunk: string)
    requires HasPair(buf)
    ensures Strip(buf + chunk) == Strip(buf) + chunk
  {
    SpanStableUnderAppend(buf, chunk);
    StripSpanAppend(buf, chunk, FindSpan(buf).value);
  }

  /** An appended chunk that leaves the match in place lands after the stripped text. */
  lemma StripSpanAppend(buf: string, chunk: string, sp: Span)
    requires FindSpan(buf) == Some(sp) && FindSpan(buf + chunk) == Some(sp)
    ensures Strip(buf + chunk) == Strip(buf) + chunk
  {
    StripAt(buf, sp);
    StripAt(buf + chunk, sp);
    CutAppend(buf, chunk, sp.open, sp.close + |CloseTag|);
  }

  /** Strip cuts out exactly the span `FindSpan` reports. */
  lemma StripAt(buf: string, sp: Span)
    requires FindSpan(buf) == Some(sp)
    ensures sp.open <= sp.close + |CloseTag| <= |buf|
    ensures Strip(buf) == buf[..sp.open] + buf[sp.close + |CloseTag|..]
  {
  }

  /** Cutting a range out of a buffer commutes with appending after it. */
  lemma CutAppend(buf: string, chunk: string, a: nat, b: nat)
    requires a <= b <= |buf|
    ensures (buf + chunk)[..a] + (buf + chunk)[b..] == buf[..a] + buf[b..] + chunk
  {
    assert (buf + chunk)[..a] == buf[..a];
    assert (buf + chunk)[b..] == buf[b..] + chunk;
  }

  /**
   * A buffer that opens with `<think>`, holds reasoning `r` without a `</think>`,
   * closes it and continues with `rest`, splits into `r` and the trimmed `rest`.
   */
  lemma SplitOfLeadingPair(r: string, rest: string)
    requires !Contains(r, CloseTag)
    ensures SplitBuffer(OpenTag + r + CloseTag + rest) == Split(r, Trim(rest))
  {
    var head := OpenTag + r + CloseTag;
    var buf := head + rest;
    var j := |OpenTag| + |r|;
    assert buf[|head|..] == rest;
    assert buf[..0] + buf[j + |CloseTag|..] == rest;
    assert buf[|OpenTag|..j] == r;
    assert buf[..|OpenTag|] == OpenTag;
    assert buf[j..j + |CloseTag|] == CloseTag;
    forall k | |OpenTag| <= k < j ensures !OccursAt(buf, CloseTag, k) {
      CloseTagNotInside(r, rest, k);
    }
    SplitWithPair(buf, 0, j);
  }

  /**
   * No `</think>` of `<think>r</think>rest` starts inside `r`: one wholly inside would
   * be in `r`, and one that runs into the closing tag cannot exist, since `<` appears
   * in `</think>` only as its first character.
   */
  lemma CloseTagNotInside(r: string, rest: string, k: nat)
    requires !Contains(r, CloseTag)
    requires |OpenTag| <= k < |OpenTag| + |r|
    ensures !OccursAt(OpenTag + r + CloseTag + rest, CloseTag, k)
  {
    var buf := OpenTag + r + CloseTag + rest;
    var j := |OpenTag| + |r|;
    var p := k - |OpenTag|;
    if k + |CloseTag| <= j {
      assert r[p..p + |CloseTag|] == buf[k..k + |CloseTag|];
      ContainsIff(r, CloseTag);
      assert !OccursAt(r, CloseTag, p);
    } else {
      assert buf[k..k + |CloseTag|][j - k] == buf[j] == '<';
      assert CloseTag[j - k] != '<';
    }
  }

  /** After the first chunk `"<think>ab"` the unterminated tag is shown as answer text. */
  lemma UnterminatedExample()
    ensures SplitBuffer("<think>ab") == Split("", "<think>ab")
  {
    TrimUnpadded("<think>ab");
    assert !HasPair("<think>ab");
  }

  /**
   * The stream `"<think>ab"`, `"cd</think>answer text"` ends with reasoning `"abcd"`
   * and answer `"answer text"`.
   */
  lemma StreamedPairExample()
    ensures SplitBuffer("<think>ab" + "cd</think>answer text") == Split("abcd", "answer text")
  {
    StreamedPairLayout();
    TrimUnpadded("answer text");
    SplitOfLeadingPair("abcd", "answer text");
  }

  /** Only the first pair is taken out: a second pair stays in the answer verbatim. */
  lemma SecondPairExample()
    ensures SplitBuffer("<think>a</think>b<think>c</think>") == Split("a", "b<think>c</think>")
  {
    SecondPairLayout();
    TrimUnpadded("b<think>c</think>");
    SplitOfLeadingPair("a", "b<think>c</think>");
  }

  /** The two chunks of the streamed example, read as tags and text. */
  lemma StreamedPairLayout()
    ensures "<think>ab" + "cd</think>answer text" == OpenTag + "abcd" + CloseTag + "answer text"
  {
  }

  /** The buffer of the second-pair example, read as its first pair and the rest. */
  lemma SecondPairLayout()
    ensures "<think>a</think>b<think>c</think>" == OpenTag + "a" + CloseTag + "b<think>c</think>"
  {
  }
}
