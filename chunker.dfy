/**
 * `chunk_message` of the Discord bot: cuts a reply into pieces that fit the
 * platform's per-message limit, preferring a newline in the second half of
 * the window and dropping the newlines at every cut.
 */
module Chunker {
  import opened Text

  /** Discord's per-message length limit. */
  const DiscordMaxLen: int := 2000

  /**
   * Where one iteration of the loop cuts a text that does not fit:
   * `text.rfind("\n", 0, limit)` when that index is at least `limit // 2`,
   * otherwise `limit` itself.
   */
  function SplitPoint(text: string, limit: int): (s: nat)
    requires 0 < limit < |text|
    ensures limit / 2 <= s <= limit
    ensures s < limit ==> text[s] == '\n'
  {
    var found := RFind(text, '\n', limit);
    if found == -1 || found < limit / 2 then limit else found
  }

  /**
   * The cut is at the last newline before `limit` when that newline sits at
   * index `limit // 2` or later; otherwise the second half of the window holds
   * no newline and the cut is exactly at `limit`. The newline cut at is not
   * part of the chunk `text[..s]`.
   */
  lemma SplitPointCut(text: string, limit: int)
    requires 0 < limit < |text|
    ensures var s := SplitPoint(text, limit);
      && (s < limit ==> text[s] == '\n' && forall j | s < j < limit :: text[j] != '\n')
      && (s == limit ==> forall j | limit / 2 <= j < limit :: text[j] != '\n')
      && (s < limit <==> exists j :: limit / 2 <= j < limit && text[j] == '\n')
  {
  }

  /** What the loop keeps after cutting at `s`: `text[s:].lstrip("\n")`. */
  function Remainder(text: string, s: nat): (rest: string)
    requires s <= |text|
    ensures |rest| <= |text| - s
    ensures rest == [] || rest[0] != '\n'
    ensures s < |text| && text[s] == '\n' ==> |rest| < |text| - s
  {
    LStripChar(text[s..], '\n')
  }

  /** The chunks that the `while text:` loop appends, starting from `text`. */
  function ChunkLoop(text: string, limit: int): seq<string>
    requires 0 < limit || text == []
    decreases |text|
  {
    if text == [] then []
    else if |text| <= limit then [text]
    else
      var s := SplitPoint(text, limit);
      [text[..s]] + ChunkLoop(Remainder(text, s), limit)
  }

  /** The state of that loop: `done` already appended, `text` still to cut. */
  function ChunkLoopFrom(done: seq<string>, text: string, limit: int): seq<string>
    requires 0 < limit || text == []
    decreases |text|
  {
    if text == [] then done
    else if |text| <= limit then done + [text]
    else
      var s := SplitPoint(text, limit);
      ChunkLoopFrom(done + [text[..s]], Remainder(text, s), limit)
  }

  /** `chunk_message(text, limit)` as a value. */
  function ChunkMessageSpec(text: string, limit: int): seq<string>
    requires 0 < limit || text == []
  {
    if |text| <= limit then [text] else ChunkLoop(text, limit)
  }

  /**
   * `chunk_message` itself. With `limit <= 0` the source's loop need not
   * end (`limit == 0` and `"a"` cycles forever) and negative limits index
   * from the end; the only caller passes `DiscordMaxLen`, so a positive limit
   * is required unless the text is empty.
   */
  method ChunkMessage(text: string, limit: int) returns (chunks: seq<string>)
    requires 0 < limit || text == []
    ensures chunks == ChunkMessageSpec(text, limit)
    ensures |text| <= limit ==> chunks == [text]
    ensures 0 < limit ==> |chunks| >= 1 && forall i | 0 <= i < |chunks| :: |chunks[i]| <= limit
  {
    if |text| <= limit {
      return [text];
    }
    chunks := [];
    var rest := text;
    while rest != []
      invariant 0 < limit || rest == []
      invariant ChunkLoopFrom(chunks, rest, limit) == ChunkLoopFrom([], text, limit)
      decreases |rest|
    {
      if |rest| <= limit {
        chunks := chunks + [rest];
        break;
      }
      var splitAt := RFind(rest, '\n', limit);
      if splitAt == -1 || splitAt < limit / 2 {
        splitAt := limit;
      }
      assert splitAt == SplitPoint(rest, limit);
      chunks := chunks + [rest[..splitAt]];
      rest := LStripChar(rest[splitAt..], '\n');
    }
    assert chunks == ChunkMessageSpec(text, limit) by {
      ChunkLoopFromAppend([], text, limit);
      assert [] + ChunkLoop(text, limit) == ChunkLoop(text, limit);
    }
    if 0 < limit {
      ChunksFit(text, limit);
    }
  }

  /** Resuming the loop with `done` emitted yields `done` followed by the chunks of `text`. */
  lemma {:induction false} ChunkLoopFromAppend(done: seq<string>, text: string, limit: int)
    requires 0 < limit || text == []
    ensures ChunkLoopFrom(done, text, limit) == done + ChunkLoop(text, limit)
    decreases |text|
  {
    if text == [] {
      assert done + [] == done;
    } else if |text| > limit {
      var s := SplitPoint(text, limit);
      var c := text[..s];
      var rest := Remainder(text, s);
      calc {
        ChunkLoopFrom(done, text, limit);
        ChunkLoopFrom(done + [c], rest, limit);
        { ChunkLoopFromAppend(done + [c], rest, limit); }
        (done + [c]) + ChunkLoop(rest, limit);
        { AppendAssoc(done, [c], ChunkLoop(rest, limit)); }
        done + ([c] + ChunkLoop(rest, limit));
        { ChunkLoopStep(text, limit); }
        done + ChunkLoop(text, limit);
      }
    }
  }

  lemma AppendAssoc(a: seq<string>, b: seq<string>, c: seq<string>)
    ensures (a + b) + c == a + (b + c)
  {
  }

  /** One iteration of the loop on a text that does not fit. */
  lemma ChunkLoopStep(text: string, limit: int)
    requires 0 < limit < |text|
    ensures var s := SplitPoint(text, limit);
      ChunkLoop(text, limit) == [text[..s]] + ChunkLoop(Remainder(text, s), limit)
  {
  }

  /** Every chunk fits the limit, and there is at least one chunk. */
  lemma ChunksFit(text: string, limit: int)
    requires 0 < limit
    ensures var chunks := ChunkMessageSpec(text, limit);
      |chunks| >= 1 && forall i | 0 <= i < |chunks| :: |chunks[i]| <= limit
  {
    if |text| > limit {
      ChunkLoopFits(text, limit);
    }
  }

  lemma {:induction false} ChunkLoopFits(text: string, limit: int)
    requires 0 < limit
    ensures text != [] ==> |ChunkLoop(text, limit)| >= 1
    ensures forall c | c in ChunkLoop(text, limit) :: |c| <= limit
    decreases |text|
  {
    if text != [] && |text| > limit {
      var s := SplitPoint(text, limit);
      ChunkLoopStep(text, limit);
      ChunkLoopFits(Remainder(text, s), limit);
    }
  }

  /** True when every string of `runs` consists of newlines only. */
  predicate NewlineRuns(runs: seq<string>) {
    forall k, i | 0 <= k < |runs| && 0 <= i < |runs[k]| :: runs[k][i] == '\n'
  }

  /** `chunks[0] + gaps[0] + chunks[1] + gaps[1] + ...` */
  function Interleave(chunks: seq<string>, gaps: seq<string>): string
    requires |chunks| == |gaps|
  {
    if chunks == [] then "" else chunks[0] + gaps[0] + Interleave(chunks[1..], gaps[1..])
  }

  /**
   * Only newlines at the cuts are lost: the text is the chunks, in order,
   * each followed by a (possibly empty) run of newlines. The run after the
   * final chunk is non-empty when a cut leaves nothing but newlines.
   */
  lemma Reassembly(text: string, limit: int)
    requires 0 < limit || text == []
    ensures exists gaps :: (|gaps| == |ChunkMessageSpec(text, limit)| && NewlineRuns(gaps)
                            && Interleave(ChunkMessageSpec(text, limit), gaps) == text)
  {
    if |text| <= limit {
      var gaps := [""];
      assert Interleave([text], gaps) == text;
    } else {
      var gaps := ChunkLoopGaps(text, limit);
    }
  }

  /** The newline runs dropped at the cuts of `ChunkLoop`, one after each chunk. */
  lemma {:induction false} ChunkLoopGaps(text: string, limit: int) returns (gaps: seq<string>)
    requires 0 < limit || text == []
    ensures |gaps| == |ChunkLoop(text, limit)|
    ensures NewlineRuns(gaps)
    ensures Interleave(ChunkLoop(text, limit), gaps) == text
    decreases |text|
  {
    if text == [] {
      gaps := [];
    } else if |text| <= limit {
      gaps := [""];
      assert Interleave([text], gaps) == text;
    } else {
      var s := SplitPoint(text, limit);
      var c := text[..s];
      var rest := Remainder(text, s);
      var chunks := ChunkLoop(rest, limit);
      var gap := CutDecomposes(text, s);
      var later := ChunkLoopGaps(rest, limit);
      gaps := [gap] + later;
      assert NewlineRuns(gaps) by {
        NewlineRunsCons(gap, later);
      }
      assert ChunkLoop(text, limit) == [c] + chunks by {
        ChunkLoopStep(text, limit);
      }
      assert Interleave([c] + chunks, gaps) == c + gap + rest by {
        InterleaveCons(c, chunks, gap, later);
      }
    }
  }

  /** Cutting at `s` splits the text into the chunk, a run of newlines and the remainder. */
  lemma CutDecomposes(text: string, s: nat) returns (gap: string)
    requires s <= |text|
    ensures text == text[..s] + gap + Remainder(text, s)
    ensures forall i | 0 <= i < |gap| :: gap[i] == '\n'
  {
    var t := text[s..];
    var rest := LStripChar(t, '\n');
    var k := |t| - |rest|;
    gap := t[..k];
    assert t == gap + rest by {
      TakeDrop(t, k);
    }
    assert text == text[..s] + t by {
      TakeDrop(text, s);
    }
    StringAssoc(text[..s], gap, rest);
  }

  lemma TakeDrop(t: string, k: nat)
    requires k <= |t|
    ensures t == t[..k] + t[k..]
  {
  }

  lemma StringAssoc(a: string, b: string, c: string)
    ensures a + (b + c) == a + b + c
  {
  }

  lemma InterleaveCons(c: string, chunks: seq<string>, g: string, gaps: seq<string>)
    requires |chunks| == |gaps|
    ensures Interleave([c] + chunks, [g] + gaps) == c + g + Interleave(chunks, gaps)
  {
    assert ([c] + chunks)[1..] == chunks;
    assert ([g] + gaps)[1..] == gaps;
  }

  lemma NewlineRunsCons(g: string, gaps: seq<string>)
    requires forall i | 0 <= i < |g| :: g[i] == '\n'
    requires NewlineRuns(gaps)
    ensures NewlineRuns([g] + gaps)
  {
    forall k, i | 0 <= k < |[g] + gaps| && 0 <= i < |([g] + gaps)[k]|
      ensures ([g] + gaps)[k][i] == '\n'
    {
      if k > 0 {
        assert ([g] + gaps)[k] == gaps[k - 1];
      }
    }
  }

  /** No chunk after the first is empty or starts with a newline. */
  lemma LaterChunksStartClean(text: string, limit: int)
    requires 0 < limit
    ensures var chunks := ChunkMessageSpec(text, limit);
      forall i | 0 < i < |chunks| :: chunks[i] != [] && chunks[i][0] != '\n'
  {
    if |text| > limit {
      var s := SplitPoint(text, limit);
      var rest := Remainder(text, s);
      ChunkLoopStep(text, limit);
      ChunkLoopStartsClean(rest, limit);
      var chunks := ChunkMessageSpec(text, limit);
      forall i | 0 < i < |chunks| ensures chunks[i] != [] && chunks[i][0] != '\n' {
        assert chunks[i] == ChunkLoop(rest, limit)[i - 1];
      }
    }
  }

  /** A text that does not start with a newline yields non-empty chunks none of which does. */
  lemma {:induction false} ChunkLoopStartsClean(text: string, limit: int)
    requires 0 < limit
    requires text == [] || text[0] != '\n'
    ensures forall c | c in ChunkLoop(text, limit) :: c != [] && c[0] != '\n'
    decreases |text|
  {
    if text != [] && |text| > limit {
      var s := SplitPoint(text, limit);
      assert s > 0;
      ChunkLoopStep(text, limit);
      ChunkLoopStartsClean(Remainder(text, s), limit);
    }
  }

  /**
   * Every chunk but the last consumes at least `limit // 2` characters, so a
   * non-empty text of length `n` gives fewer than `n / (limit // 2) + 1`
   * chunks, that is at most `ceil(n / (limit // 2))`.
   */
  lemma ChunkCount(text: string, limit: int)
    requires 2 <= limit && text != []
    ensures (|ChunkMessageSpec(text, limit)| - 1) * (limit / 2) < |text|
  {
    if |text| > limit {
      ChunkLoopCount(text, limit);
    }
  }

  lemma {:induction false} ChunkLoopCount(text: string, limit: int)
    requires 2 <= limit && text != []
    ensures (|ChunkLoop(text, limit)| - 1) * (limit / 2) < |text|
    decreases |text|
  {
    if |text| > limit {
      var s := SplitPoint(text, limit);
      var rest := Remainder(text, s);
      var h := limit / 2;
      ChunkLoopStep(text, limit);
      var k := |ChunkLoop(rest, limit)|;
      assert |ChunkLoop(text, limit)| == k + 1;
      if rest == [] {
        assert k == 0;
      } else {
        ChunkLoopCount(rest, limit);
        MulStep(k, h, |rest|, |text|);
      }
    }
  }

  lemma MulStep(k: int, h: int, a: int, b: int)
    requires (k - 1) * h < a && a + h <= b
    ensures k * h < b
  {
    assert k * h == (k - 1) * h + h;
  }
}
