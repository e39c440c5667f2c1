/** Splitting long Telegram messages: a text longer than the limit is cut
    into parts at the last newline before the limit (or hard at the limit),
    and a list of game texts is grouped greedily into chunks joined by
    newlines. Sending is represented by the list of parts or chunks that
    would be sent, in order. */
module MessageHelpers {

  const TelegramLimit: nat := 4096
  const ChunkLimit: nat := 3900

  // ---------------------------------------------------------------------
  // send_long_message
  // ---------------------------------------------------------------------

  /** `text.rfind('\n', 0, limit)`: the last newline among the first `limit`
      characters. */
  function LastNewlineBefore(text: string, limit: nat): (r: int)
    requires limit <= |text|
    ensures -1 <= r < limit
    ensures r >= 0 ==> text[r] == '\n' && forall k :: r < k < limit ==> text[k] != '\n'
    ensures r == -1 ==> forall k :: 0 <= k < limit ==> text[k] != '\n'
  {
    if limit == 0 then -1
    else if text[limit - 1] == '\n' then limit - 1
    else LastNewlineBefore(text, limit - 1)
  }

  /** Where an over-long text is cut: at that newline, or at the limit. */
  function CutAt(text: string, maxLength: nat): (r: nat)
    requires |text| > maxLength
    ensures r <= maxLength
  {
    var pos := LastNewlineBefore(text, maxLength);
    if pos == -1 then maxLength else pos
  }

  /** How many newlines `s` starts with (what `lstrip('\n')` removes). */
  function LeadingNewlines(s: string): (r: nat)
    ensures r <= |s|
    ensures forall k :: 0 <= k < r ==> s[k] == '\n'
    ensures r < |s| ==> s[r] != '\n'
  {
    if s != [] && s[0] == '\n' then 1 + LeadingNewlines(s[1..]) else 0
  }

  function Newlines(n: nat): (r: string)
    ensures |r| == n && forall k :: 0 <= k < n ==> r[k] == '\n'
  {
    if n == 0 then [] else Newlines(n - 1) + "\n"
  }

  /** One produced part and the number of newlines dropped after it. */
  datatype Piece = Piece(part: string, dropped: nat)

  /** The parts of the splitting loop, for a positive limit. */
  function SplitLoop(text: string, maxLength: nat): (r: seq<Piece>)
    requires maxLength > 0
    ensures forall p :: p in r ==> |p.part| <= maxLength
    decreases |text|
  {
    if text == [] then []
    else if |text| <= maxLength then [Piece(text, 0)]
    else
      var pos := CutAt(text, maxLength);
      var rest := text[pos..];
      var k := LeadingNewlines(rest);
      assert pos == 0 ==> k >= 1;
      [Piece(text[..pos], k)] + SplitLoop(rest[k..], maxLength)
  }

  function Parts(pieces: seq<Piece>): (r: seq<string>)
    ensures |r| == |pieces|
    ensures forall k :: 0 <= k < |pieces| ==> r[k] == pieces[k].part
  {
    if pieces == [] then [] else [pieces[0].part] + Parts(pieces[1..])
  }

  /** The parts with the dropped newlines put back. */
  function Reassemble(pieces: seq<Piece>): string {
    if pieces == [] then [] else pieces[0].part + Newlines(pieces[0].dropped) + Reassemble(pieces[1..])
  }

  /** Nothing but newlines is lost: the parts, with the dropped newlines put
      back between them, are the original text. */
  lemma {:induction false} SplitLoopReassembles(text: string, maxLength: nat)
    requires maxLength > 0
    ensures Reassemble(SplitLoop(text, maxLength)) == text
    decreases |text|
  {
    if text != [] && |text| > maxLength {
      var pos := CutAt(text, maxLength);
      var rest := text[pos..];
      var k := LeadingNewlines(rest);
      var tail := rest[k..];
      SplitLoopReassembles(tail, maxLength);
      assert SplitLoop(text, maxLength) == [Piece(text[..pos], k)] + SplitLoop(tail, maxLength);
      assert Reassemble(SplitLoop(text, maxLength)) == text[..pos] + Newlines(k) + tail by {
        ReassembleCons(Piece(text[..pos], k), SplitLoop(tail, maxLength));
      }
      RejoinCut(text, pos, k);
    }
  }

  /** Cutting at `pos` and dropping `k` newlines loses only those newlines. */
  lemma RejoinCut(text: string, pos: nat, k: nat)
    requires pos + k <= |text|
    requires forall i :: 0 <= i < k ==> text[pos..][i] == '\n'
    ensures text[..pos] + Newlines(k) + text[pos..][k..] == text
  {
    var rest := text[pos..];
    assert rest[..k] == Newlines(k);
    assert rest == rest[..k] + rest[k..];
    assert text == text[..pos] + rest;
  }

  lemma ReassembleCons(p: Piece, ps: seq<Piece>)
    ensures Reassemble([p] + ps) == p.part + Newlines(p.dropped) + Reassemble(ps)
  {
    assert ([p] + ps)[1..] == ps;
  }

  /** After the first, every part is non-empty and does not start with a
      newline; the first part is cut at the last newline within the limit,
      or at the limit when there is none. */
  lemma {:induction false} SplitLoopShape(text: string, maxLength: nat)
    requires maxLength > 0
    requires text == [] || text[0] != '\n'
    ensures forall p :: p in SplitLoop(text, maxLength) ==> p.part != [] && p.part[0] != '\n'
    decreases |text|
  {
    if text != [] && |text| > maxLength {
      var pos := CutAt(text, maxLength);
      var rest := text[pos..];
      var k := LeadingNewlines(rest);
      assert pos > 0;
      SplitLoopShape(rest[k..], maxLength);
    }
  }

  /** The parts `send_long_message` sends: the text itself when it fits,
      otherwise the parts of the splitting loop. */
  function LongMessageParts(text: string, maxLength: nat): (r: seq<string>)
    requires maxLength > 0
    ensures |text| <= maxLength ==> r == [text]
    ensures forall p :: p in r ==> |p| <= maxLength
    ensures |text| > maxLength ==> r == Parts(SplitLoop(text, maxLength))
  {
    if |text| <= maxLength then [text] else Parts(SplitLoop(text, maxLength))
  }

  /** Where the first cut of an over-long text falls. */
  lemma FirstCut(text: string, maxLength: nat)
    requires 0 < maxLength < |text|
    ensures var first := LongMessageParts(text, maxLength)[0];
            (exists k :: 0 <= k < maxLength && text[k] == '\n') ==>
              |first| < maxLength && text[|first|] == '\n' &&
              first == text[..|first|] &&
              forall k :: |first| < k < maxLength ==> text[k] != '\n'
    ensures var first := LongMessageParts(text, maxLength)[0];
            (forall k :: 0 <= k < maxLength ==> text[k] != '\n') ==> first == text[..maxLength]
  {
  }

  /** A text that starts with its only newline within the limit produces an
      empty first part. */
  lemma EmptyFirstPart()
    ensures LongMessageParts("\nab", 2) == ["", "ab"]
  {
    assert LastNewlineBefore("\nab", 2) == 0;
    assert LeadingNewlines("\nab") == 1;
    assert "\nab"[0..][1..] == "ab";
  }

  /** One turn of the splitting loop: the cut-off part, then the parts of
      what is left once its leading newlines are dropped. */
  lemma SplitLoopStep(text: string, maxLength: nat)
    requires 0 < maxLength < |text|
    ensures var rest := text[CutAt(text, maxLength)..];
            Parts(SplitLoop(text, maxLength)) ==
              [text[..CutAt(text, maxLength)]] + Parts(SplitLoop(rest[LeadingNewlines(rest)..], maxLength))
  {
    var pieces := SplitLoop(text, maxLength);
    var rest := text[CutAt(text, maxLength)..];
    assert pieces[1..] == SplitLoop(rest[LeadingNewlines(rest)..], maxLength);
    assert Parts(pieces)[1..] == Parts(pieces[1..]);
  }

  /** The splitting loop of `send_long_message`. The limit must be positive:
      with a limit of 0 the source loop never ends. */
  method SendLongMessage(text: string, maxLength: nat) returns (parts: seq<string>)
    requires maxLength > 0
    ensures parts == LongMessageParts(text, maxLength)
  {
    if |text| <= maxLength {
      return [text];
    }
    parts := [];
    var remaining := text;
    while |remaining| > 0
      invariant parts + Parts(SplitLoop(remaining, maxLength)) == Parts(SplitLoop(text, maxLength))
      decreases |remaining|
    {
      if |remaining| <= maxLength {
        assert Parts(SplitLoop(remaining, maxLength)) == [remaining];
        parts := parts + [remaining];
        return;
      }
      var splitPos := LastNewlineBefore(remaining, maxLength);
      if splitPos == -1 {
        splitPos := maxLength;
      }
      var rest := remaining[splitPos..];
      var next := rest[LeadingNewlines(rest)..];
      SplitLoopCut(remaining, maxLength, splitPos, parts);
      parts := parts + [remaining[..splitPos]];
      remaining := next;
    }
    assert SplitLoop(remaining, maxLength) == [];
  }

  /** The loop step of `SendLongMessage`, cut at `splitPos`: the sent parts
      followed by the parts still to come are unchanged. */
  lemma SplitLoopCut(remaining: string, maxLength: nat, splitPos: nat, parts: seq<string>)
    requires 0 < maxLength < |remaining|
    requires splitPos == (if LastNewlineBefore(remaining, maxLength) == -1 then maxLength
                          else LastNewlineBefore(remaining, maxLength))
    ensures splitPos <= |remaining|
    ensures var rest := remaining[splitPos..];
            (parts + [remaining[..splitPos]]) + Parts(SplitLoop(rest[LeadingNewlines(rest)..], maxLength)) ==
              parts + Parts(SplitLoop(remaining, maxLength))
  {
    assert splitPos == CutAt(remaining, maxLength);
    SplitLoopStep(remaining, maxLength);
  }

  // ---------------------------------------------------------------------
  // send_games_in_chunks
  // ---------------------------------------------------------------------

  /** `"\n".join(texts)` */
  function JoinLines(texts: seq<string>): string {
    if texts == [] then []
    else if |texts| == 1 then texts[0]
    else JoinLines(texts[..|texts| - 1]) + "\n" + texts[|texts| - 1]
  }

  function Flatten(chunks: seq<seq<string>>): seq<string> {
    if chunks == [] then [] else Flatten(chunks[..|chunks| - 1]) + chunks[|chunks| - 1]
  }

  lemma FlattenSnoc(chunks: seq<seq<string>>, c: seq<string>)
    ensures Flatten(chunks + [c]) == Flatten(chunks) + c
  {
    assert (chunks + [c])[..|chunks|] == chunks;
  }

  /** The state of the grouping loop after the texts `done`: the closed
      chunks followed by the open one are `done`; closed chunks are
      non-empty, fit the budget when they hold two texts or more, and were
      each closed because the next text did not fit; `currentLength` tracks
      the open chunk's joined length with at most one character of slack. */
  ghost predicate Grouping(done: seq<string>, chunks: seq<seq<string>>, current: seq<string>, currentLength: nat) {
    && Flatten(chunks) + current == done
    && (forall j :: 0 <= j < |chunks| ==> chunks[j] != [])
    && (forall c :: c in chunks && |c| >= 2 ==> |JoinLines(c)| <= ChunkLimit)
    && (forall j :: 0 <= j < |chunks| - 1 ==>
          |JoinLines(chunks[j])| + |chunks[j + 1][0]| + 2 > ChunkLimit)
    && (current == [] <==> done == [])
    && (current == [] ==> currentLength == 0)
    && (current != [] ==> |JoinLines(current)| <= currentLength <= |JoinLines(current)| + 1)
    && (|current| >= 2 ==> currentLength <= ChunkLimit)
    && (chunks != [] && current != [] ==>
          |JoinLines(chunks[|chunks| - 1])| + |current[0]| + 2 > ChunkLimit)
  }

  /** The first text opens the first chunk, whether it fits or not. */
  lemma OpenFirstChunk(done: seq<string>, chunks: seq<seq<string>>, current: seq<string>, currentLength: nat, t: string)
    requires Grouping(done, chunks, current, currentLength)
    requires current == []
    ensures Grouping(done + [t], chunks, [t], |t|)
  {
  }

  /** The next text does not fit: the open chunk is closed and the text
      opens a new one. */
  lemma CloseChunk(done: seq<string>, chunks: seq<seq<string>>, current: seq<string>, currentLength: nat, t: string)
    requires Grouping(done, chunks, current, currentLength)
    requires current != [] && currentLength + |t| + 1 > ChunkLimit
    ensures Grouping(done + [t], chunks + [current], [t], |t|)
  {
    FlattenSnoc(chunks, current);
    AppendChunk(chunks, current);
  }

  /** Closing a non-empty chunk that was closed for want of room keeps the
      properties of the closed chunks. */
  lemma AppendChunk(chunks: seq<seq<string>>, current: seq<string>)
    requires current != []
    requires forall j :: 0 <= j < |chunks| ==> chunks[j] != []
    requires forall j :: 0 <= j < |chunks| - 1 ==>
               |JoinLines(chunks[j])| + |chunks[j + 1][0]| + 2 > ChunkLimit
    requires chunks != [] ==> |JoinLines(chunks[|chunks| - 1])| + |current[0]| + 2 > ChunkLimit
    ensures forall j :: 0 <= j < |chunks + [current]| ==> (chunks + [current])[j] != []
    ensures forall j :: 0 <= j < |chunks + [current]| - 1 ==>
              |JoinLines((chunks + [current])[j])| + |(chunks + [current])[j + 1][0]| + 2 > ChunkLimit
    ensures (chunks + [current])[|chunks|] == current
  {
    var chunks' := chunks + [current];
    forall j | 0 <= j < |chunks'| - 1
      ensures |JoinLines(chunks'[j])| + |chunks'[j + 1][0]| + 2 > ChunkLimit
    {
      if j < |chunks| - 1 {
        assert chunks'[j] == chunks[j] && chunks'[j + 1] == chunks[j + 1];
      } else {
        assert chunks'[j] == chunks[|chunks| - 1] && chunks'[j + 1] == current;
      }
    }
  }

  /** The next text fits: it joins the open chunk. */
  lemma ExtendChunk(done: seq<string>, chunks: seq<seq<string>>, current: seq<string>, currentLength: nat, t: string)
    requires Grouping(done, chunks, current, currentLength)
    requires currentLength + |t| + 1 <= ChunkLimit
    ensures Grouping(done + [t], chunks, current + [t], currentLength + |t| + 1)
  {
    JoinLinesSnoc(current, t);
  }

  /** What `ChunkGames` promises of its chunks. */
  ghost predicate Chunked(texts: seq<string>, chunks: seq<seq<string>>) {
    && Flatten(chunks) == texts
    && (forall j :: 0 <= j < |chunks| ==> chunks[j] != [])
    && (forall c :: c in chunks && |c| >= 2 ==> |JoinLines(c)| <= ChunkLimit)
    && (forall j :: 0 <= j < |chunks| - 1 ==>
          |JoinLines(chunks[j])| + |chunks[j + 1][0]| + 2 > ChunkLimit)
  }

  /** When the texts run out, the open chunk (if any) is closed. */
  lemma FinishGrouping(texts: seq<string>, chunks: seq<seq<string>>, current: seq<string>, currentLength: nat)
    requires Grouping(texts, chunks, current, currentLength)
    ensures current != [] ==> Chunked(texts, chunks + [current])
    ensures current == [] ==> Chunked(texts, chunks)
  {
    if current != [] {
      CloseChunk(texts, chunks, current, currentLength, Newlines(ChunkLimit));
    }
  }

  /** The variables of the grouping loop. */
  datatype GroupingState = GroupingState(chunks: seq<seq<string>>, current: seq<string>, currentLength: nat)

  /** One turn of the grouping loop: a text that would push the open chunk
      past the budget closes it (when it holds anything) and opens a new
      one; otherwise it joins the open chunk. */
  function GroupStep(s: GroupingState, t: string): GroupingState {
    if s.currentLength + |t| + 1 > ChunkLimit then
      GroupingState(if s.current != [] then s.chunks + [s.current] else s.chunks, [t], |t|)
    else
      GroupingState(s.chunks, s.current + [t], s.currentLength + |t| + 1)
  }

  /** The loop's variables after the texts `done`. */
  function GroupAll(done: seq<string>): GroupingState
    decreases |done|
  {
    if done == [] then GroupingState([], [], 0)
    else GroupStep(GroupAll(done[..|done| - 1]), done[|done| - 1])
  }

  /** The chunks sent: the closed ones, then the open one if it holds anything. */
  function Chunks(texts: seq<string>): seq<seq<string>> {
    var s := GroupAll(texts);
    if s.current != [] then s.chunks + [s.current] else s.chunks
  }

  lemma GroupAllSnoc(done: seq<string>, t: string)
    ensures GroupAll(done + [t]) == GroupStep(GroupAll(done), t)
  {
    assert (done + [t])[..|done|] == done;
  }

  /** Every state the loop reaches satisfies `Grouping`. */
  lemma {:induction false} GroupAllGrouping(done: seq<string>)
    ensures var s := GroupAll(done); Grouping(done, s.chunks, s.current, s.currentLength)
    decreases |done|
  {
    if done != [] {
      var before := done[..|done| - 1];
      var t := done[|done| - 1];
      GroupAllGrouping(before);
      TakeOneMore(done, |done| - 1);
      assert done[..|done|] == done;
      GroupStepGrouping(before, GroupAll(before), t);
    }
  }

  /** One turn of the loop keeps `Grouping`. */
  lemma GroupStepGrouping(before: seq<string>, s: GroupingState, t: string)
    requires Grouping(before, s.chunks, s.current, s.currentLength)
    ensures var s' := GroupStep(s, t); Grouping(before + [t], s'.chunks, s'.current, s'.currentLength)
  {
    if s.currentLength + |t| + 1 > ChunkLimit {
      if s.current != [] {
        CloseChunk(before, s.chunks, s.current, s.currentLength, t);
      } else {
        OpenFirstChunk(before, s.chunks, s.current, s.currentLength, t);
      }
    } else {
      ExtendChunk(before, s.chunks, s.current, s.currentLength, t);
    }
  }

  /** Every text lands in exactly one chunk, in order; no chunk is empty; a
      chunk of two or more texts fits the 3900-character budget; and each
      chunk but the last was closed only because the next text (with its
      newline) would have pushed it past the budget, counting at most one
      character of slack. */
  lemma ChunksShape(texts: seq<string>)
    ensures Flatten(Chunks(texts)) == texts
    ensures forall j :: 0 <= j < |Chunks(texts)| ==> Chunks(texts)[j] != []
    ensures forall c :: c in Chunks(texts) && |c| >= 2 ==> |JoinLines(c)| <= ChunkLimit
    ensures forall j :: 0 <= j < |Chunks(texts)| - 1 ==>
              |JoinLines(Chunks(texts)[j])| + |Chunks(texts)[j + 1][0]| + 2 > ChunkLimit
  {
    var s := GroupAll(texts);
    GroupAllGrouping(texts);
    FinishGrouping(texts, s.chunks, s.current, s.currentLength);
  }

  /** The grouping loop of `send_games_in_chunks` over already formatted
      game texts; each chunk is sent joined by newlines. */
  method ChunkGames(texts: seq<string>) returns (chunks: seq<seq<string>>)
    ensures chunks == Chunks(texts)
  {
    chunks := [];
    var current: seq<string> := [];
    var currentLength: nat := 0;
    var i := 0;
    while i < |texts|
      invariant 0 <= i <= |texts|
      invariant GroupingState(chunks, current, currentLength) == GroupAll(texts[..i])
    {
      var gameText := texts[i];
      TakeOneMore(texts, i);
      GroupAllSnoc(texts[..i], gameText);
      if currentLength + |gameText| + 1 > ChunkLimit {
        if current != [] {
          chunks := chunks + [current];
        }
        current := [gameText];
        currentLength := |gameText|;
      } else {
        current := current + [gameText];
        currentLength := currentLength + |gameText| + 1;
      }
      i := i + 1;
    }
    assert texts[..i] == texts;
    if current != [] {
      chunks := chunks + [current];
    }
  }

  lemma TakeOneMore<T>(s: seq<T>, i: nat)
    requires i < |s|
    ensures s[..i + 1] == s[..i] + [s[i]]
  {
  }

  lemma JoinLinesSnoc(texts: seq<string>, t: string)
    ensures texts == [] ==> JoinLines(texts + [t]) == t
    ensures texts != [] ==> |JoinLines(texts + [t])| == |JoinLines(texts)| + 1 + |t|
    ensures (texts + [t])[0] == if texts == [] then t else texts[0]
  {
    assert (texts + [t])[..|texts|] == texts;
  }
}
