/** Chunk assembly across the Go/Python boundary and the greedy segmentation it amounts to. */
module Chunks {
  import opened Options

  datatype IndexMessage = IndexMessage(
    id: string, channel: string, sender: string, text: string, day: string,
    ordinal: int, mediaIds: seq<string>)

  datatype Assembled = Assembled(text: string, messageIds: seq<string>, mediaIds: seq<string>, tokenCount: nat)

  datatype Chunk = Chunk(
    firstMessageId: string, channel: string, index: nat, messageIds: seq<string>, mediaIds: seq<string>,
    day: string, text: string, tokenCount: nat, lastOrdinal: int, open: bool)

  /** The limits and the tokenizer, which stays uninterpreted. */
  datatype Env = Env(maxMessages: nat, maxTokens: nat, tokens: string -> nat)

  // ---------------------------------------------------------------- media ids

  /** First occurrences, in order. */
  function Dedup(s: seq<string>): seq<string> {
    if s == [] then [] else AddNew(Dedup(s[..|s| - 1]), s[|s| - 1])
  }

  function AddNew(d: seq<string>, x: string): seq<string> {
    if x in d then d else d + [x]
  }

  method Deduplicate(values: seq<string>) returns (result: seq<string>)
    ensures result == Dedup(values)
  {
    var seen: set<string> := {};
    result := [];
    for i := 0 to |values|
      invariant result == Dedup(values[..i])
      invariant forall x :: x in seen <==> x in result
    {
      assert values[..i + 1][..i] == values[..i];
      if values[i] !in seen {
        seen := seen + {values[i]};
        result := result + [values[i]];
      }
    }
    assert values[..|values|] == values;
  }

  ghost predicate NoDuplicates(s: seq<string>) {
    forall i, j :: 0 <= i < j < |s| ==> s[i] != s[j]
  }

  /** `Dedup` keeps every value once, and the first occurrences keep their order. */
  lemma {:induction false} DedupIsFirstOccurrences(s: seq<string>)
    ensures NoDuplicates(Dedup(s)) && forall x :: x in Dedup(s) <==> x in s
    ensures forall k :: 0 <= k <= |s| ==> Dedup(s[..k]) <= Dedup(s)
  {
    if s != [] {
      var init := s[..|s| - 1];
      DedupIsFirstOccurrences(init);
      assert s == init + [s[|s| - 1]];
      forall k | 0 <= k <= |s| ensures Dedup(s[..k]) <= Dedup(s) {
        if k < |s| {
          assert s[..k] == init[..k];
        } else {
          assert s[..k] == s;
        }
      }
    }
  }

  lemma {:induction false} DedupIdempotent(s: seq<string>)
    requires NoDuplicates(s)
    ensures Dedup(s) == s
  {
    if s != [] {
      DedupIdempotent(s[..|s| - 1]);
      assert s == s[..|s| - 1] + [s[|s| - 1]];
    }
  }

  lemma DedupSnoc(s: seq<string>, x: string)
    ensures Dedup(s + [x]) == AddNew(Dedup(s), x)
  {
    assert (s + [x])[..|s|] == s;
  }

  /** Deduplicating the prior list first changes nothing. */
  lemma {:induction false} DedupLeft(a: seq<string>, b: seq<string>)
    ensures Dedup(Dedup(a) + b) == Dedup(a + b)
    decreases |b|
  {
    if b == [] {
      DedupIsFirstOccurrences(a);
      DedupIdempotent(Dedup(a));
      assert a + [] == a && Dedup(a) + [] == Dedup(a);
    } else {
      var init, x := b[..|b| - 1], b[|b| - 1];
      DedupLeft(a, init);
      DedupSnoc(Dedup(a) + init, x);
      DedupSnoc(a + init, x);
      assert Dedup(a) + b == (Dedup(a) + init) + [x] && a + b == (a + init) + [x];
    }
  }

  /** Deduplicating the new list first changes nothing. */
  lemma {:induction false} DedupRight(a: seq<string>, b: seq<string>)
    ensures Dedup(a + Dedup(b)) == Dedup(a + b)
    decreases |b|
  {
    if b != [] {
      var init, x := b[..|b| - 1], b[|b| - 1];
      DedupRight(a, init);
      DedupRightSnoc(a, init, x);
      assert b == init + [x] && a + b == a + (init + [x]);
    }
  }

  lemma DedupRightSnoc(a: seq<string>, b: seq<string>, x: string)
    requires Dedup(a + Dedup(b)) == Dedup(a + b)
    ensures Dedup(a + Dedup(b + [x])) == Dedup(a + (b + [x]))
  {
    hide Dedup;
    DedupSnoc(b, x);
    DedupSnoc(a + b, x);
    assert a + (b + [x]) == (a + b) + [x];
    if x in Dedup(b) {
      DedupIsFirstOccurrences(b);
      DedupIsFirstOccurrences(a + b);
    } else {
      DedupSnoc(a + Dedup(b), x);
      assert a + (Dedup(b) + [x]) == (a + Dedup(b)) + [x];
    }
  }

  // ---------------------------------------------------------------- assembly

  function Images(ids: seq<string>): string {
    if ids == [] then ""
    else if |ids| == 1 then "[image:" + ids[0] + "]"
    else Images(ids[..|ids| - 1]) + " [image:" + ids[|ids| - 1] + "]"
  }

  function MessageLine(m: IndexMessage): string {
    var media := Images(m.mediaIds);
    m.sender + ": " + m.text + (if media != "" then " " + media else "")
  }

  function Header(m: IndexMessage): string {
    "[conversation:" + m.channel + "] [day:" + m.day + "]\n"
  }

  /** The Python endpoint: text and message ids of the extended chunk, media of the new message only. */
  function AppendChunk(env: Env, m: IndexMessage, text: Option<string>, ids: seq<string>): Assembled {
    var assembled := match text
      case None => Header(m) + MessageLine(m)
      case Some(t) => t + "\n" + MessageLine(m);
    Assembled(assembled, (if text.None? then [] else ids) + [m.id], Dedup(m.mediaIds), env.tokens(assembled))
  }

  /** The Go client: merge the media of the open chunk back in. */
  function Append(env: Env, m: IndexMessage, open: Option<Chunk>): Assembled {
    match open
    case None =>
      var response := AppendChunk(env, m, None, []);
      response.(mediaIds := Dedup(response.mediaIds))
    case Some(c) =>
      var response := AppendChunk(env, m, Some(c.text), c.messageIds);
      response.(mediaIds := Dedup(c.mediaIds + response.mediaIds))
  }

  predicate Fits(env: Env, a: Assembled) {
    |a.messageIds| <= env.maxMessages && a.tokenCount <= env.maxTokens
  }

  function NewChunk(m: IndexMessage, a: Assembled, index: nat): Chunk {
    Chunk(m.id, m.channel, index, a.messageIds, a.mediaIds, m.day, a.text, a.tokenCount, m.ordinal, true)
  }

  function Extended(c: Chunk, m: IndexMessage, a: Assembled): Chunk {
    c.(messageIds := a.messageIds, mediaIds := a.mediaIds, text := a.text, tokenCount := a.tokenCount, lastOrdinal := m.ordinal)
  }

  /** One message through the open/append/close decision, on one channel's chunks. */
  function Place(env: Env, cs: seq<Chunk>, m: IndexMessage): seq<Chunk> {
    if cs == [] then [NewChunk(m, Append(env, m, None), 0)]
    else
      var last := |cs| - 1;
      var candidate := Append(env, m, Some(cs[last]));
      if Fits(env, candidate) then cs[..last] + [Extended(cs[last], m, candidate)]
      else cs[..last] + [cs[last].(open := false), NewChunk(m, Append(env, m, None), cs[last].index + 1)]
  }

  function Fold(env: Env, ms: seq<IndexMessage>): seq<Chunk> {
    if ms == [] then [] else Place(env, Fold(env, ms[..|ms| - 1]), ms[|ms| - 1])
  }

  // ---------------------------------------------------------------- runs of messages

  type Run = r: seq<IndexMessage> | r != [] witness [IndexMessage("", "", "", "", "", 0, [])]

  function RunText(r: Run): string {
    if |r| == 1 then Header(r[0]) + MessageLine(r[0])
    else RunText(r[..|r| - 1]) + "\n" + MessageLine(r[|r| - 1])
  }

  function RunIds(r: seq<IndexMessage>): seq<string> {
    seq(|r|, i requires 0 <= i < |r| => r[i].id)
  }

  function RunMedia(r: seq<IndexMessage>): seq<string> {
    if r == [] then [] else RunMedia(r[..|r| - 1]) + r[|r| - 1].mediaIds
  }

  /** The row a run of messages deserves, independently of how it was accumulated. */
  function ChunkOf(env: Env, r: Run, index: nat, open: bool): Chunk {
    Chunk(r[0].id, r[0].channel, index, RunIds(r), Dedup(RunMedia(r)), r[0].day,
          RunText(r), env.tokens(RunText(r)), r[|r| - 1].ordinal, open)
  }

  predicate RunFits(env: Env, r: Run) {
    |r| <= env.maxMessages && env.tokens(RunText(r)) <= env.maxTokens
  }

  lemma SingleChunk(env: Env, m: IndexMessage, index: nat)
    ensures NewChunk(m, Append(env, m, None), index) == ChunkOf(env, [m], index, true)
  {
    assert RunIds([m]) == [m.id];
    assert [m][..0] == [];
    assert [] + m.mediaIds == m.mediaIds;
    assert RunMedia([m]) == m.mediaIds;
    DedupIsFirstOccurrences(m.mediaIds);
    DedupIdempotent(Dedup(m.mediaIds));
  }

  lemma ExtendChunk(env: Env, r: Run, m: IndexMessage, index: nat)
    ensures var c := ChunkOf(env, r, index, true);
            var a := Append(env, m, Some(c));
            Extended(c, m, a) == ChunkOf(env, r + [m], index, true) && (Fits(env, a) <==> RunFits(env, r + [m]))
  {
    var c, r' := ChunkOf(env, r, index, true), r + [m];
    assert r'[..|r'| - 1] == r;
    assert RunIds(r') == RunIds(r) + [m.id];
    DedupLeft(RunMedia(r), Dedup(m.mediaIds));
    DedupRight(RunMedia(r), m.mediaIds);
  }

  // ---------------------------------------------------------------- greedy segmentation

  function Segment(env: Env, segs: seq<Run>, m: IndexMessage): seq<Run> {
    if segs == [] then [[m]]
    else
      var last := |segs| - 1;
      if RunFits(env, segs[last] + [m]) then segs[..last] + [segs[last] + [m]] else segs + [[m]]
  }

  function Segments(env: Env, ms: seq<IndexMessage>): seq<Run> {
    if ms == [] then [] else Segment(env, Segments(env, ms[..|ms| - 1]), ms[|ms| - 1])
  }

  /** Rows of a segmentation: all closed except the last. */
  function Table(env: Env, segs: seq<Run>): (t: seq<Chunk>)
    ensures |t| == |segs|
  {
    seq(|segs|, i requires 0 <= i < |segs| => ChunkOf(env, segs[i], i, i == |segs| - 1))
  }

  /** The worker's fold computes exactly the rows of the greedy segmentation: same boundaries, indices,
      ids, deduplicated media, text and token counts. */
  lemma {:induction false} FoldIsSegmentation(env: Env, ms: seq<IndexMessage>)
    ensures Fold(env, ms) == Table(env, Segments(env, ms))
  {
    if ms != [] {
      var init, m := ms[..|ms| - 1], ms[|ms| - 1];
      FoldIsSegmentation(env, init);
      PlaceIsSegment(env, Segments(env, init), m);
    }
  }

  lemma PlaceIsSegment(env: Env, segs: seq<Run>, m: IndexMessage)
    ensures Place(env, Table(env, segs), m) == Table(env, Segment(env, segs, m))
  {
    hide ChunkOf, Append, Fits, RunFits, RunText, NewChunk, Extended;
    if segs == [] {
      SingleChunk(env, m, 0);
    } else {
      var last := |segs| - 1;
      ExtendChunk(env, segs[last], m, last);
      SingleChunk(env, m, last + 1);
      ChunkRow(env, segs[last], last, true);
      if RunFits(env, segs[last] + [m]) {
        TableExtends(env, segs, segs[last] + [m]);
      } else {
        TableCloses(env, segs, [m]);
      }
    }
  }

  lemma ChunkRow(env: Env, r: Run, index: nat, open: bool)
    ensures ChunkOf(env, r, index, open).index == index
    ensures ChunkOf(env, r, index, open).(open := false) == ChunkOf(env, r, index, false)
  {
  }

  lemma TableExtends(env: Env, segs: seq<Run>, r: Run)
    requires segs != []
    ensures var last := |segs| - 1;
            Table(env, segs[..last] + [r]) == Table(env, segs)[..last] + [ChunkOf(env, r, last, true)]
  {
    hide ChunkOf;
  }

  lemma TableCloses(env: Env, segs: seq<Run>, r: Run)
    requires segs != []
    ensures var last := |segs| - 1;
            Table(env, segs + [r])
            == Table(env, segs)[..last] + [ChunkOf(env, segs[last], last, false), ChunkOf(env, r, last + 1, true)]
  {
    hide ChunkOf;
  }

  function Flatten(segs: seq<Run>): seq<IndexMessage> {
    if segs == [] then [] else Flatten(segs[..|segs| - 1]) + segs[|segs| - 1]
  }

  lemma FlattenSnoc(segs: seq<Run>, r: Run)
    ensures Flatten(segs + [r]) == Flatten(segs) + r
  {
    assert (segs + [r])[..|segs|] == segs;
  }

  predicate Allowed(env: Env, r: Run) {
    RunFits(env, r) || |r| == 1
  }

  /** A run is closed only when the next message would break a limit. */
  ghost predicate Greedy(env: Env, segs: seq<Run>) {
    && (forall i :: 0 <= i < |segs| ==> Allowed(env, segs[i]))
    && (forall i :: 0 < i < |segs| ==> !RunFits(env, segs[i - 1] + [segs[i][0]]))
  }

  lemma {:induction false} SegmentsAreGreedy(env: Env, ms: seq<IndexMessage>)
    ensures Flatten(Segments(env, ms)) == ms && Greedy(env, Segments(env, ms))
  {
    hide RunFits;
    if ms != [] {
      var init, m := ms[..|ms| - 1], ms[|ms| - 1];
      SegmentsAreGreedy(env, init);
      SegmentKeeps(env, Segments(env, init), m);
      assert ms == init + [m];
    }
  }

  lemma SegmentKeeps(env: Env, segs: seq<Run>, m: IndexMessage)
    requires Greedy(env, segs)
    ensures Flatten(Segment(env, segs, m)) == Flatten(segs) + [m] && Greedy(env, Segment(env, segs, m))
  {
    hide RunFits;
    if segs == [] {
      FlattenSnoc([], [m]);
    } else {
      var last := |segs| - 1;
      assert segs == segs[..last] + [segs[last]];
      FlattenSnoc(segs[..last], segs[last]);
      FlattenSnoc(segs[..last], segs[last] + [m]);
      FlattenSnoc(segs, [m]);
      assert Flatten(segs[..last]) + (segs[last] + [m]) == Flatten(segs) + [m];
    }
  }

  /** Hypothesis on the tokenizer and the stream: a contiguous part of a run of the stream never costs
      more than the run. */
  ghost predicate PartsCostLess(env: Env, ms: seq<IndexMessage>) {
    forall a, i, j, b :: 0 <= a <= i < j <= b <= |ms| ==> env.tokens(RunText(ms[i..j])) <= env.tokens(RunText(ms[a..b]))
  }

  lemma PartFits(env: Env, ms: seq<IndexMessage>, a: nat, i: nat, j: nat, b: nat)
    requires PartsCostLess(env, ms) && a <= i < j <= b <= |ms| && RunFits(env, ms[a..b])
    ensures RunFits(env, ms[i..j])
  {
  }

  lemma PrefixCostsLess(env: Env, ms: seq<IndexMessage>, n: nat)
    requires PartsCostLess(env, ms) && n <= |ms|
    ensures PartsCostLess(env, ms[..n])
  {
    var init := ms[..n];
    forall a, i, j, b | 0 <= a <= i < j <= b <= |init| ensures env.tokens(RunText(init[i..j])) <= env.tokens(RunText(init[a..b])) {
      assert init[i..j] == ms[i..j] && init[a..b] == ms[a..b];
    }
  }

  function LinesLength(r: seq<IndexMessage>): nat {
    if r == [] then 0 else LinesLength(r[..|r| - 1]) + |MessageLine(r[|r| - 1])| + 1
  }

  lemma {:induction false} RunTextLength(r: Run)
    ensures |RunText(r)| + 1 == |Header(r[0])| + LinesLength(r)
  {
    if |r| > 1 {
      RunTextLength(r[..|r| - 1]);
    } else {
      assert LinesLength(r[..0]) == 0;
    }
  }

  lemma {:induction false} LinesLengthCut(a: seq<IndexMessage>, b: seq<IndexMessage>)
    ensures LinesLength(a + b) == LinesLength(a) + LinesLength(b)
  {
    if b == [] {
      assert a + b == a;
    } else {
      LinesLengthCut(a, b[..|b| - 1]);
      assert (a + b)[..|a + b| - 1] == a + b[..|b| - 1];
    }
  }

  /** Counting characters meets the hypothesis on every stream of one channel, whose dates are all
      written with the same length. */
  lemma LengthCostsLess(env: Env, ms: seq<IndexMessage>)
    requires forall text :: env.tokens(text) == |text|
    requires forall i, j :: 0 <= i < |ms| && 0 <= j < |ms| ==> ms[i].channel == ms[j].channel && |ms[i].day| == |ms[j].day|
    ensures PartsCostLess(env, ms)
  {
    hide RunText, MessageLine, LinesLength;
    forall a, i, j, b | 0 <= a <= i < j <= b <= |ms| ensures env.tokens(RunText(ms[i..j])) <= env.tokens(RunText(ms[a..b])) {
      assert |Header(ms[i])| == |Header(ms[a])|;
      PartIsShorter(ms, a, i, j, b);
    }
  }

  lemma PartIsShorter(ms: seq<IndexMessage>, a: nat, i: nat, j: nat, b: nat)
    requires a <= i < j <= b <= |ms| && |Header(ms[i])| == |Header(ms[a])|
    ensures |RunText(ms[i..j])| <= |RunText(ms[a..b])|
  {
    hide RunText, MessageLine, LinesLength, Header;
    RunTextLength(ms[i..j]);
    RunTextLength(ms[a..b]);
    LinesLengthCut(ms[a..i], ms[i..b]);
    LinesLengthCut(ms[i..j], ms[j..b]);
    assert ms[a..b] == ms[a..i] + ms[i..b] && ms[i..b] == ms[i..j] + ms[j..b];
  }

  /** No contiguous partition of the messages into allowed runs is shorter than the greedy one; and
      one that is as short has a last run at least as long. */
  lemma {:induction false} GreedyIsMinimal(env: Env, parts: seq<Run>)
    requires PartsCostLess(env, Flatten(parts)) && forall i :: 0 <= i < |parts| ==> Allowed(env, parts[i])
    ensures var segs := Segments(env, Flatten(parts));
            && |segs| <= |parts|
            && (parts != [] && |segs| == |parts| ==> |segs[|segs| - 1]| <= |parts[|parts| - 1]|)
    decreases |Flatten(parts)|
  {
    hide RunFits, PartsCostLess, Segments;
    if parts != [] {
      var last := |parts| - 1;
      var run, m := parts[last], parts[last][|parts[last]| - 1];
      var shorter := if |run| == 1 then parts[..last] else parts[..last] + [run[..|run| - 1]];
      DropLastMessage(parts);
      ShorterToo(env, parts, shorter);
      GreedyIsMinimal(env, shorter);
      GreedyStep(env, parts, shorter, Segments(env, Flatten(shorter)), m);
    } else {
      NoSegments(env);
    }
  }

  /** Without its last message the partition is still allowed, and the hypothesis holds for it. */
  lemma ShorterToo(env: Env, parts: seq<Run>, shorter: seq<Run>)
    requires parts != [] && PartsCostLess(env, Flatten(parts)) && forall i :: 0 <= i < |parts| ==> Allowed(env, parts[i])
    requires var last := |parts| - 1;
             shorter == if |parts[last]| == 1 then parts[..last] else parts[..last] + [parts[last][..|parts[last]| - 1]]
    ensures PartsCostLess(env, Flatten(shorter)) && forall i :: 0 <= i < |shorter| ==> Allowed(env, shorter[i])
  {
    hide RunFits, PartsCostLess, Flatten;
    var run, ms := parts[|parts| - 1], Flatten(parts);
    DropLastMessage(parts);
    assert ms[..|ms| - 1] == Flatten(shorter);
    PrefixCostsLess(env, ms, |ms| - 1);
    assert Allowed(env, run);
    if |run| > 1 {
      LastRunIsSuffix(parts);
      assert ms[|ms| - |run|..|ms| - 1] == run[..|run| - 1] && ms[|ms| - |run|..|ms|] == run;
      PartFits(env, ms, |ms| - |run|, |ms| - |run|, |ms| - 1, |ms|);
    }
  }

  lemma LastRunIsSuffix(parts: seq<Run>)
    requires parts != []
    ensures var ms, run := Flatten(parts), parts[|parts| - 1]; |run| <= |ms| && ms[|ms| - |run|..] == run
  {
    var last := |parts| - 1;
    assert parts == parts[..last] + [parts[last]];
    FlattenSnoc(parts[..last], parts[last]);
  }

  lemma NoSegments(env: Env)
    ensures Segments(env, []) == []
  {
  }

  lemma DropLastMessage(parts: seq<Run>)
    requires parts != []
    ensures var last := |parts| - 1;
            var run := parts[last];
            var shorter := if |run| == 1 then parts[..last] else parts[..last] + [run[..|run| - 1]];
            Flatten(parts) == Flatten(shorter) + [run[|run| - 1]]
  {
    var last := |parts| - 1;
    var run := parts[last];
    assert parts == parts[..last] + [run];
    FlattenSnoc(parts[..last], run);
    assert run == run[..|run| - 1] + [run[|run| - 1]];
    if |run| > 1 {
      FlattenSnoc(parts[..last], run[..|run| - 1]);
    }
  }

  lemma GreedyStep(env: Env, parts: seq<Run>, shorter: seq<Run>, segs: seq<Run>, m: IndexMessage)
    requires parts != [] && PartsCostLess(env, Flatten(parts))
    requires var last := |parts| - 1; var run := parts[last];
             && Allowed(env, run) && m == run[|run| - 1]
             && shorter == if |run| == 1 then parts[..last] else parts[..last] + [run[..|run| - 1]]
    requires Flatten(parts) == Flatten(shorter) + [m]
    requires segs == Segments(env, Flatten(shorter)) && |segs| <= |shorter|
    requires shorter != [] && |segs| == |shorter| ==> |segs[|segs| - 1]| <= |shorter[|shorter| - 1]|
    ensures var next := Segments(env, Flatten(parts));
            && |next| <= |parts|
            && (|next| == |parts| ==> |next[|next| - 1]| <= |parts[|parts| - 1]|)
  {
    hide RunFits, PartsCostLess;
    var run := parts[|parts| - 1];
    assert Flatten(parts)[..|Flatten(parts)| - 1] == Flatten(shorter);
    assert Segments(env, Flatten(parts)) == Segment(env, segs, m);
    if |run| > 1 && |segs| == |parts| {
      LastRunIsSuffix(parts);
      SuffixFits(env, segs, shorter, Flatten(parts), run, m);
    }
  }

  /** The greedy tail is a suffix of the other partition's tail, so it can be extended whenever that can. */
  lemma SuffixFits(env: Env, segs: seq<Run>, shorter: seq<Run>, ms: seq<IndexMessage>, run: Run, m: IndexMessage)
    requires PartsCostLess(env, ms) && RunFits(env, run) && |run| > 1 && m == run[|run| - 1]
    requires ms == Flatten(shorter) + [m] && |run| <= |ms| && ms[|ms| - |run|..] == run
    requires segs == Segments(env, Flatten(shorter)) && segs != []
    requires |segs[|segs| - 1]| <= |run| - 1
    ensures RunFits(env, segs[|segs| - 1] + [m])
  {
    hide RunFits, PartsCostLess, Segments;
    var tail := segs[|segs| - 1];
    SegmentsAreGreedy(env, Flatten(shorter));
    LastRunIsSuffix(segs);
    var n := |ms|;
    assert tail + [m] == ms[n - |tail| - 1..n];
    assert ms[n - |run|..n] == run;
    PartFits(env, ms, n - |run|, n - |tail| - 1, n, n);
  }

  /** The chunk table of a message stream is as short as any allowed segmentation of it can be. */
  lemma FewestChunks(env: Env, ms: seq<IndexMessage>, parts: seq<Run>)
    requires PartsCostLess(env, ms) && Flatten(parts) == ms
    requires forall i :: 0 <= i < |parts| ==> Allowed(env, parts[i])
    ensures |Fold(env, ms)| <= |parts|
  {
    hide PartsCostLess, Allowed, Segments;
    FoldIsSegmentation(env, ms);
    GreedyIsMinimal(env, parts);
  }

  /** Every row respects the limits; only a single over-long message may exceed the token limit. */
  lemma RowsWithinLimits(env: Env, ms: seq<IndexMessage>, i: nat)
    requires env.maxMessages >= 1 && i < |Fold(env, ms)|
    ensures var c := Fold(env, ms)[i];
            && 1 <= |c.messageIds| <= env.maxMessages
            && (c.tokenCount <= env.maxTokens || |c.messageIds| == 1)
            && c.tokenCount == env.tokens(c.text)
  {
    hide Segments, RunText;
    FoldIsSegmentation(env, ms);
    SegmentsAreGreedy(env, ms);
    assert Allowed(env, Segments(env, ms)[i]);
  }
}
