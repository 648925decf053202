/** rag.py, RagIngestionPipeline._split: overlapping token windows that prefer to end at a
    sentence or heading. A chunk is the list of its tokens; the source joins them with spaces. */
module Chunker {
  import opened Sequences
  import opened Arithmetic

  type Token = string

  datatype Span = Span(start: nat, end: nat)

  predicate EndsSentence(t: Token) {
    t != "" && t[|t| - 1] in {'.', '!', '?', ':'}
  }

  /** `b` is a position just after a sentence end. */
  predicate IsBoundary(tokens: seq<Token>, b: nat) {
    1 <= b <= |tokens| && EndsSentence(tokens[b - 1])
  }

  /** The boundaries of tokens[start..end], in order. */
  function Boundaries(tokens: seq<Token>, start: nat, end: nat): seq<nat>
    requires start <= end <= |tokens|
  {
    if start == end then [] else
      Boundaries(tokens, start, end - 1) + if EndsSentence(tokens[end - 1]) then [end] else []
  }

  lemma {:induction false} BoundariesMember(tokens: seq<Token>, start: nat, end: nat)
    requires start <= end <= |tokens|
    ensures forall b :: b in Boundaries(tokens, start, end) <==> start < b <= end && IsBoundary(tokens, b)
  {
    if start < end {
      BoundariesMember(tokens, start, end - 1);
    }
  }

  function MaxOr(s: seq<nat>, default: nat): nat {
    if s == [] then default
    else if |s| == 1 then s[0]
    else if Last(s) > MaxOr(Init(s), default) then Last(s)
    else MaxOr(Init(s), default)
  }

  lemma {:induction false} MaxOrMax(s: seq<nat>, default: nat)
    requires s != []
    ensures MaxOr(s, default) in s && forall x :: x in s ==> x <= MaxOr(s, default)
  {
    assert s == Init(s) + [Last(s)];
    if |s| > 1 {
      MaxOrMax(Init(s), default);
    }
  }

  function AtLeast(floor: nat): nat -> bool { (b: nat) => b >= floor }

  /** The end the source picks: the last boundary in the latter half, else the last one, else the window. */
  function PickEnd(tokens: seq<Token>, start: nat, end: nat, size: nat): nat
    requires start <= end <= |tokens|
  {
    var floor := start + if size / 2 > 1 then size / 2 else 1;
    var bs := Boundaries(tokens, start, end);
    MaxOr(Filter(AtLeast(floor), bs), MaxOr(bs, end))
  }

  /** The half-window floor never changes the choice: it is always the last boundary. */
  lemma FloorIsIrrelevant(tokens: seq<Token>, start: nat, end: nat, size: nat)
    requires start <= end <= |tokens|
    ensures PickEnd(tokens, start, end, size) == MaxOr(Boundaries(tokens, start, end), end)
  {
    var floor := start + if size / 2 > 1 then size / 2 else 1;
    var bs := Boundaries(tokens, start, end);
    var late := Filter(AtLeast(floor), bs);
    FilterMember(AtLeast(floor), bs);
    if late != [] {
      MaxOrMax(late, MaxOr(bs, end));
      MaxOrMax(bs, end);
    }
  }

  /** Where a chunk from `start` ends: at the end of the text if that is within reach, else
      at the last boundary within reach, else at the full window. */
  ghost predicate IsEnd(tokens: seq<Token>, size: nat, start: nat, e: nat) {
    if start + size >= |tokens| then e == |tokens|
    else
      && start < e <= start + size
      && (forall b :: e < b <= start + size ==> !IsBoundary(tokens, b))
      && (IsBoundary(tokens, e) || (e == start + size && forall b :: start < b <= e ==> !IsBoundary(tokens, b)))
  }

  predicate Stop(c: char) { c == '.' || c == '!' || c == '?' || c == ':' }

  /** A window is cut right after the last word in reach that is written with a stop at its
      end, and taken whole when no word in reach is. */
  lemma CutAfterLastStop(tokens: seq<Token>, size: nat, start: nat, e: nat, k: nat, word: string, mark: char)
    requires start + size < |tokens| && IsEnd(tokens, size, start, e)
    requires start <= k < start + size && Stop(mark)
    requires forall j :: k < j < start + size ==> tokens[j] == "" || !Stop(tokens[j][|tokens[j]| - 1])
    ensures tokens[k] == word + [mark] ==> e == k + 1
    ensures k == start && (tokens[k] == "" || !Stop(tokens[k][|tokens[k]| - 1])) ==> e == start + size
  {
    if tokens[k] == word + [mark] {
      assert tokens[k][|tokens[k]| - 1] == mark;
      assert IsBoundary(tokens, k + 1);
    }
  }

  lemma PickEndIsEnd(tokens: seq<Token>, size: nat, start: nat)
    requires size >= 1 && start + size < |tokens|
    ensures IsEnd(tokens, size, start, PickEnd(tokens, start, start + size, size))
  {
    FloorIsIrrelevant(tokens, start, start + size, size);
    LastBoundary(tokens, start, start + size);
  }

  lemma LastBoundary(tokens: seq<Token>, start: nat, end: nat)
    requires start < end <= |tokens|
    ensures var e := MaxOr(Boundaries(tokens, start, end), end);
            && start < e <= end
            && (forall b :: e < b <= end ==> !IsBoundary(tokens, b))
            && (IsBoundary(tokens, e) || (e == end && forall b :: start < b <= e ==> !IsBoundary(tokens, b)))
  {
    var bs := Boundaries(tokens, start, end);
    BoundariesMember(tokens, start, end);
    if bs != [] {
      MaxOrMax(bs, end);
    } else {
      forall b | start < b <= end ensures !IsBoundary(tokens, b) {
        assert b !in bs;
      }
    }
  }

  function NextStart(span: Span, overlap: nat): nat {
    if span.end - overlap >= span.start + 1 then span.end - overlap else span.start + 1
  }

  predicate Fits(span: Span, tokens: seq<Token>) { span.start < span.end <= |tokens| }

  /** Where the chunk after `before` starts: at 0, or past the overlap of one that is not the last. */
  predicate Follows(tokens: seq<Token>, overlap: nat, before: seq<Span>, start: nat) {
    if before == [] then start == 0 else Last(before).end < |tokens| && start == NextStart(Last(before), overlap)
  }

  /** The spans the loop visits, in order. */
  ghost predicate Linked(tokens: seq<Token>, size: nat, overlap: nat, spans: seq<Span>) {
    spans == [] ||
    (&& Linked(tokens, size, overlap, Init(spans)) && Follows(tokens, overlap, Init(spans), Last(spans).start)
     && Fits(Last(spans), tokens) && IsEnd(tokens, size, Last(spans).start, Last(spans).end))
  }

  lemma {:induction false} LinkedAt(tokens: seq<Token>, size: nat, overlap: nat, spans: seq<Span>, i: nat)
    requires Linked(tokens, size, overlap, spans) && i < |spans|
    ensures Fits(spans[i], tokens) && IsEnd(tokens, size, spans[i].start, spans[i].end)
    ensures i == 0 ==> spans[i].start == 0
    ensures i > 0 ==> spans[i - 1].end < |tokens| && spans[i].start == NextStart(spans[i - 1], overlap)
  {
    if i < |spans| - 1 {
      LinkedAt(tokens, size, overlap, Init(spans), i);
    }
  }

  ghost predicate Chunking(tokens: seq<Token>, size: nat, overlap: nat, spans: seq<Span>) {
    && Linked(tokens, size, overlap, spans)
    && (tokens == [] <==> spans == [])
    && (spans != [] ==> Last(spans).end == |tokens|)
  }

  lemma LinkedSnoc(tokens: seq<Token>, size: nat, overlap: nat, spans: seq<Span>, span: Span)
    requires Linked(tokens, size, overlap, spans) && Fits(span, tokens) && IsEnd(tokens, size, span.start, span.end)
    requires Follows(tokens, overlap, spans, span.start)
    ensures Linked(tokens, size, overlap, spans + [span])
  {
    assert Init(spans + [span]) == spans && Last(spans + [span]) == span;
  }

  lemma TextsSnoc(tokens: seq<Token>, spans: seq<Span>, span: Span)
    requires Fits(span, tokens)
    ensures Texts(tokens, spans + [span]) == Texts(tokens, spans) + [tokens[span.start..span.end]]
  {
  }

  /** The end of the chunk that starts at `start`. */
  method EndFrom(tokens: seq<Token>, start: nat, size: nat) returns (end: nat)
    requires start < |tokens| && size >= 1
    ensures Fits(Span(start, end), tokens) && IsEnd(tokens, size, start, end)
  {
    end := if start + size <= |tokens| then start + size else |tokens|;
    if end < |tokens| {
      PickEndIsEnd(tokens, size, start);
      end := PickEnd(tokens, start, end, size);
    }
  }

  /** Between two rounds of the loop: the spans so far, their texts, and the next start. */
  ghost predicate Building(tokens: seq<Token>, size: nat, overlap: nat, spans: seq<Span>, chunks: seq<seq<Token>>, start: nat) {
    && Linked(tokens, size, overlap, spans) && chunks == Texts(tokens, spans)
    && Follows(tokens, overlap, spans, start) && (spans != [] ==> start < |tokens|)
  }

  lemma BuildingNext(tokens: seq<Token>, size: nat, overlap: nat, spans: seq<Span>, chunks: seq<seq<Token>>, span: Span)
    requires Building(tokens, size, overlap, spans, chunks, span.start)
    requires Fits(span, tokens) && IsEnd(tokens, size, span.start, span.end)
    ensures var spans', chunks' := spans + [span], chunks + [tokens[span.start..span.end]];
            && Linked(tokens, size, overlap, spans') && chunks' == Texts(tokens, spans')
            && (span.end < |tokens| ==> Building(tokens, size, overlap, spans', chunks', NextStart(span, overlap)))
  {
    LinkedSnoc(tokens, size, overlap, spans, span);
    TextsSnoc(tokens, spans, span);
  }

  method Split(tokens: seq<Token>, size: nat, overlap: nat) returns (chunks: seq<seq<Token>>)
    requires overlap < size
    ensures exists spans :: Chunking(tokens, size, overlap, spans) && chunks == Texts(tokens, spans)
    ensures Rebuild(chunks, overlap) == tokens
  {
    chunks := [];
    ghost var spans: seq<Span> := [];
    var start := 0;
    while start < |tokens|
      invariant Building(tokens, size, overlap, spans, chunks, start)
      decreases |tokens| - start
    {
      var end := EndFrom(tokens, start, size);
      BuildingNext(tokens, size, overlap, spans, chunks, Span(start, end));
      chunks := chunks + [tokens[start..end]];
      spans := spans + [Span(start, end)];
      if end == |tokens| {
        break;
      }
      start := NextStart(Span(start, end), overlap);
    }
    assert Chunking(tokens, size, overlap, spans);
    RebuildsTokens(tokens, size, overlap, spans);
  }

  /* ---- what every chunking satisfies ---- */

  /** The window after the next start never ends before the current one. */
  lemma EndsNeverDecrease(tokens: seq<Token>, size: nat, overlap: nat, start: nat, e: nat, e': nat)
    requires start < e < |tokens| && overlap < size && IsEnd(tokens, size, start, e)
    requires IsEnd(tokens, size, NextStart(Span(start, e), overlap), e')
    ensures start < NextStart(Span(start, e), overlap) <= e <= e'
  {
  }

  /** Every chunk has 1 to `size` tokens, starts strictly increase, ends never decrease, and
      neighbours share exactly min(overlap, length - 1) tokens. */
  lemma ChunkShape(tokens: seq<Token>, size: nat, overlap: nat, spans: seq<Span>, i: nat)
    requires overlap < size && Chunking(tokens, size, overlap, spans) && i < |spans|
    ensures 1 <= spans[i].end - spans[i].start <= size
    ensures i + 1 < |spans| ==>
              && spans[i].start < spans[i + 1].start && spans[i].end <= spans[i + 1].end
              && spans[i].end - spans[i + 1].start == Min(overlap, spans[i].end - spans[i].start - 1)
  {
    LinkedAt(tokens, size, overlap, spans, i);
    if i + 1 < |spans| {
      LinkedAt(tokens, size, overlap, spans, i + 1);
      EndsNeverDecrease(tokens, size, overlap, spans[i].start, spans[i].end, spans[i + 1].end);
    }
  }

  /** Put the chunks back together: drop from each what it shares with the one before. */
  function Rebuild(chunks: seq<seq<Token>>, overlap: nat): seq<Token>
  {
    if chunks == [] then []
    else if |chunks| == 1 then chunks[0]
    else
      var shared := Min(overlap, |chunks[|chunks| - 2]| - 1);
      Rebuild(Init(chunks), overlap) + if 0 <= shared <= |Last(chunks)| then Last(chunks)[shared..] else []
  }

  function Text(tokens: seq<Token>): Span -> seq<Token> {
    (s: Span) => if Fits(s, tokens) then tokens[s.start..s.end] else []
  }

  function Texts(tokens: seq<Token>, spans: seq<Span>): seq<seq<Token>> { Map(Text(tokens), spans) }

  lemma {:induction false} RebuildLinked(tokens: seq<Token>, size: nat, overlap: nat, spans: seq<Span>)
    requires overlap < size && Linked(tokens, size, overlap, spans) && spans != []
    ensures Last(spans).end <= |tokens| && Rebuild(Texts(tokens, spans), overlap) == tokens[..Last(spans).end]
  {
    var before, b := Init(spans), Last(spans);
    assert spans == before + [b];
    TextsSnoc(tokens, before, b);
    if before != [] {
      RebuildLinked(tokens, size, overlap, before);
      LastText(tokens, before);
      EndsNeverDecrease(tokens, size, overlap, Last(before).start, Last(before).end, b.end);
      RebuildStep(tokens, Texts(tokens, before), overlap, Last(before), b);
    }
  }

  lemma LastText(tokens: seq<Token>, spans: seq<Span>)
    requires spans != [] && Fits(Last(spans), tokens)
    ensures Texts(tokens, spans) != [] && Last(Texts(tokens, spans)) == tokens[Last(spans).start..Last(spans).end]
  {
  }

  lemma RebuildStep(tokens: seq<Token>, chunks: seq<seq<Token>>, overlap: nat, a: Span, b: Span)
    requires Fits(a, tokens) && Fits(b, tokens) && b.start <= a.end <= b.end
    requires chunks != [] && Last(chunks) == tokens[a.start..a.end] && Rebuild(chunks, overlap) == tokens[..a.end]
    requires a.end - b.start == Min(overlap, a.end - a.start - 1)
    ensures Rebuild(chunks + [tokens[b.start..b.end]], overlap) == tokens[..b.end]
  {
    var chunk, shared := tokens[b.start..b.end], a.end - b.start;
    assert Init(chunks + [chunk]) == chunks;
    assert chunk[shared..] == tokens[a.end..b.end];
    assert tokens[..a.end] + tokens[a.end..b.end] == tokens[..b.end];
  }

  /** No token is lost or reordered: the chunks without their overlaps are the token list. */
  lemma RebuildsTokens(tokens: seq<Token>, size: nat, overlap: nat, spans: seq<Span>)
    requires overlap < size && Chunking(tokens, size, overlap, spans)
    ensures Rebuild(Texts(tokens, spans), overlap) == tokens
  {
    if spans != [] {
      RebuildLinked(tokens, size, overlap, spans);
    }
  }

  /* ---- how many chunks ---- */

  function CeilDiv(a: nat, b: nat): nat
    requires b >= 1
  {
    (a + b - 1) / b
  }

  lemma CeilDivUnique(a: nat, b: nat, k: nat)
    requires b >= 1 && k >= 1 && (k - 1) * b < a <= k * b
    ensures CeilDiv(a, b) == k
  {
    var y := a + b - 1;
    var q, r := y / b, y % b;
    assert y == b * q + r;
    assert (k - 1) * b == k * b - b;
    if q > k {
      MultipleGrows(q - k, b);
    } else if q < k {
      MultipleGrows(k - q, b);
    }
  }

  lemma MultipleGrows(m: nat, b: nat)
    requires m >= 1
    ensures m * b >= b
  {
  }

  lemma {:induction false} PlainStarts(tokens: seq<Token>, size: nat, overlap: nat, spans: seq<Span>, i: nat)
    requires overlap < size && Chunking(tokens, size, overlap, spans) && i < |spans|
    requires forall k :: 0 <= k < |tokens| ==> !EndsSentence(tokens[k])
    ensures spans[i].start == i * (size - overlap)
    ensures spans[i].end == Min(spans[i].start + size, |tokens|)
  {
    LinkedAt(tokens, size, overlap, spans, i);
    assert !IsBoundary(tokens, spans[i].end);
    if i > 0 {
      PlainStarts(tokens, size, overlap, spans, i - 1);
      assert i * (size - overlap) == (i - 1) * (size - overlap) + (size - overlap);
    }
  }

  /** Text without sentence ends: 1 + ceil((n - size) / (size - overlap)) chunks. */
  lemma PlainChunkCount(tokens: seq<Token>, size: nat, overlap: nat, spans: seq<Span>)
    requires overlap < size && Chunking(tokens, size, overlap, spans) && |tokens| > size
    requires forall k :: 0 <= k < |tokens| ==> !EndsSentence(tokens[k])
    ensures |spans| == 1 + CeilDiv(|tokens| - size, size - overlap)
  {
    var k := |spans| - 1;
    PlainStarts(tokens, size, overlap, spans, k);
    if k == 0 {
      assert false;
    }
    PlainStarts(tokens, size, overlap, spans, k - 1);
    LinkedAt(tokens, size, overlap, spans, k);
    CeilDivUnique(|tokens| - size, size - overlap, k);
  }

  /** When a chunk adds no token: it overlaps a chunk that ended at a sentence, and its own
      window (not the last) holds no later sentence end. The floor does not prevent this. */
  lemma RepeatedEnd(tokens: seq<Token>, size: nat, overlap: nat, spans: seq<Span>, i: nat)
    requires overlap < size && Chunking(tokens, size, overlap, spans) && i + 1 < |spans|
    ensures spans[i + 1].end == spans[i].end <==>
              && spans[i + 1].start < spans[i].end && IsBoundary(tokens, spans[i].end)
              && spans[i + 1].start + size < |tokens|
              && forall b :: spans[i].end < b <= spans[i + 1].start + size ==> !IsBoundary(tokens, b)
  {
    var e, s, e' := spans[i].end, spans[i + 1].start, spans[i + 1].end;
    ChunkShape(tokens, size, overlap, spans, i);
    LinkedAt(tokens, size, overlap, spans, i);
    LinkedAt(tokens, size, overlap, spans, i + 1);
    if s + size < |tokens| && e' > e && IsBoundary(tokens, e) && s < e {
      assert IsBoundary(tokens, e') || (e' == s + size && !IsBoundary(tokens, e));
    }
  }

  /** Such chunks occur: here the second of three repeats the end of the first. */
  lemma RepeatedEndOccurs() returns (tokens: seq<Token>, spans: seq<Span>)
    ensures Chunking(tokens, 4, 2, spans) && |spans| > 2 && spans[1].end == spans[0].end
  {
    tokens := ["a", "b.", "c", "d", "e", "f", "g"];
    assert IsBoundary(tokens, 2) && forall b :: 0 <= b <= 7 && b != 2 ==> !IsBoundary(tokens, b);
    LinkedSnoc(tokens, 4, 2, [], Span(0, 2));
    LinkedSnoc(tokens, 4, 2, [] + [Span(0, 2)], Span(1, 2));
    LinkedSnoc(tokens, 4, 2, [] + [Span(0, 2)] + [Span(1, 2)], Span(2, 6));
    LinkedSnoc(tokens, 4, 2, [] + [Span(0, 2)] + [Span(1, 2)] + [Span(2, 6)], Span(4, 7));
    spans := [] + [Span(0, 2)] + [Span(1, 2)] + [Span(2, 6)] + [Span(4, 7)];
  }
}
