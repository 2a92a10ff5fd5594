/**
 How far the stream translator's output depends on where the byte chunks were cut: it does not, exactly when no line
 after the finish line says anything.
 */
module StreamChunking {
  import opened Sequences
  import opened AnthropicStream
  import opened StreamGrammar
  import opened StreamContent

  function OnePerChunk(lines: seq<Line>): seq<Chunk> {
    seq(|lines|, i requires 0 <= i < |lines| => [lines[i]])
  }

  /** The line yields no event once the tool calls in `seen` have been started. */
  predicate Quiet(line: Line, seen: set<int>) {
    line.Data? ==>
      && line.choice.reasoning == "" && line.choice.content == "" && line.choice.finish == ""
      && forall i | 0 <= i < |line.choice.tools| ::
           line.choice.tools[i].args == "" && line.choice.tools[i].index in seen
  }

  predicate QuietAfterFinish(lines: seq<Line>) {
    forall k | 0 <= k < |lines| && HasFinish(lines[..k]) :: Quiet(lines[k], ToolsIn(lines[..k]))
  }

  // ---- A quiet line changes nothing; any other line yields something -----------------------------------------------

  lemma {:induction false} QuietTools(st: State, ts: seq<ToolDelta>)
    requires st.tools.Keys == st.buffers.Keys
    requires forall i | 0 <= i < |ts| :: ts[i].args == "" && ts[i].index in st.tools
    ensures OnTools(st, ts) == st
  {
    if ts != [] {
      QuietTools(st, ts[..|ts| - 1]);
    }
  }

  lemma QuietLine(st: State, line: Line)
    requires st.tools.Keys == st.buffers.Keys && Quiet(line, st.tools.Keys)
    ensures OnLine(st, line) == st
  {
    if line.Data? {
      QuietTools(st, line.choice.tools);
    }
  }

  lemma {:induction false} ToolsYield(st: State, ts: seq<ToolDelta>)
    requires st.tools.Keys == st.buffers.Keys
    ensures |OnTools(st, ts).out| >= |st.out|
    ensures !(forall i | 0 <= i < |ts| :: ts[i].args == "" && ts[i].index in st.tools) ==>
              |OnTools(st, ts).out| > |st.out|
    ensures |OnTools(st, ts).out| == |st.out| ==> OnTools(st, ts).tools.Keys == st.tools.Keys
  {
    if ts != [] {
      var init := ts[..|ts| - 1];
      ToolsYield(st, init);
      assert forall i | 0 <= i < |init| :: init[i] == ts[i];
      ToolYields(OnTools(st, init), ts[|ts| - 1]);
    }
  }

  lemma ToolYields(st: State, t: ToolDelta)
    requires st.tools.Keys == st.buffers.Keys
    ensures |OnTool(st, t).out| >= |st.out|
    ensures !(t.args == "" && t.index in st.tools) ==> |OnTool(st, t).out| > |st.out|
    ensures |OnTool(st, t).out| == |st.out| ==> OnTool(st, t).tools.Keys == st.tools.Keys
  {
    if t.index in st.tools {
      assert st.tools.Keys + {t.index} == st.tools.Keys;
    } else {
      assert |OpenTool(st, t).out| > |st.out|;
    }
  }

  lemma LineYields(st: State, line: Line)
    requires st.tools.Keys == st.buffers.Keys
    ensures |OnLine(st, line).out| >= |st.out|
    ensures !Quiet(line, st.tools.Keys) ==> |OnLine(st, line).out| > |st.out|
  {
    if line.Data? {
      var c := line.choice;
      var st1 := OnReasoning(st, c.reasoning);
      var st2 := OnContent(st1, c.content);
      assert |st1.out| >= |st.out| && (c.reasoning != "" ==> |st1.out| > |st.out|);
      assert |st2.out| >= |st1.out| && (c.content != "" ==> |st2.out| > |st1.out|);
      ToolsYield(st2, c.tools);
    }
  }

  lemma {:induction false} LinesYield(st: State, lines: seq<Line>)
    requires st.tools.Keys == st.buffers.Keys
    ensures |OnLines(st, lines).out| >= |st.out|
  {
    if lines != [] {
      LinesYield(st, lines[..|lines| - 1]);
      LineYields(OnLines(st, lines[..|lines| - 1]), lines[|lines| - 1]);
    }
  }

  // ---- Sufficiency -------------------------------------------------------------------------------------------------

  lemma FinishGrows(a: seq<Line>, b: seq<Line>)
    requires HasFinish(a)
    ensures HasFinish(a + b)
  {
    var i :| 0 <= i < |a| && IsFinish(a[i]);
    assert (a + b)[i] == a[i];
  }

  lemma QuietPrefix(a: seq<Line>, b: seq<Line>)
    requires QuietAfterFinish(a + b)
    ensures QuietAfterFinish(a)
  {
    assert forall k | 0 <= k < |a| :: a[..k] == (a + b)[..k] && a[k] == (a + b)[k];
  }

  lemma QuietLast(lines: seq<Line>, line: Line)
    requires QuietAfterFinish(lines + [line]) && HasFinish(lines)
    ensures OnLines(Initial, lines + [line]) == OnLines(Initial, lines)
  {
    var all := lines + [line];
    assert all[..|lines|] == lines && all[|lines|] == line && all[..|all| - 1] == lines;
    KeptLines(lines);
    QuietLine(OnLines(Initial, lines), line);
  }

  lemma {:induction false} QuietTail(lines: seq<Line>, tail: seq<Line>)
    requires QuietAfterFinish(lines + tail) && HasFinish(lines)
    ensures OnLines(Initial, lines + tail) == OnLines(Initial, lines)
    decreases |tail|
  {
    if tail == [] {
      assert lines + tail == lines;
    } else {
      var init, last := tail[..|tail| - 1], tail[|tail| - 1];
      assert lines + tail == (lines + init) + [last];
      QuietPrefix(lines + init, [last]);
      QuietTail(lines, init);
      FinishGrows(lines, init);
      QuietLast(lines + init, last);
    }
  }

  lemma {:induction false} ChunksDoNotMatter(chunks: seq<Chunk>)
    requires QuietAfterFinish(Flatten(chunks))
    ensures OnChunks(Initial, chunks) == OnLines(Initial, Flatten(chunks))
  {
    if chunks != [] {
      var init, last := chunks[..|chunks| - 1], chunks[|chunks| - 1];
      QuietPrefix(Flatten(init), last);
      ChunksDoNotMatter(init);
      FinishedByLines(Flatten(init));
      if HasFinish(Flatten(init)) {
        QuietTail(Flatten(init), last);
      } else {
        LinesAppend(Initial, Flatten(init), last);
      }
    }
  }

  // ---- Necessity ---------------------------------------------------------------------------------------------------

  lemma {:induction false} FlattenOnePerChunk(lines: seq<Line>)
    ensures Flatten(OnePerChunk(lines)) == lines
  {
    if lines != [] {
      var n := |lines| - 1;
      FlattenOnePerChunk(lines[..n]);
      assert OnePerChunk(lines)[..n] == OnePerChunk(lines[..n]);
    }
  }

  /** With one line to a chunk, nothing after the first finish line is looked at. */
  lemma {:induction false} OnePerChunkStops(lines: seq<Line>, k: nat)
    requires k <= |lines| && HasFinish(lines[..k])
    ensures OnChunks(Initial, OnePerChunk(lines)) == OnChunks(Initial, OnePerChunk(lines[..k]))
    decreases |lines|
  {
    if k == |lines| {
      assert lines[..k] == lines;
    } else {
      var n := |lines| - 1;
      assert lines[..n][..k] == lines[..k];
      OnePerChunkStops(lines[..n], k);
      assert OnePerChunk(lines)[..n] == OnePerChunk(lines[..n]);
      OnePerChunkBound(lines[..n]);
      FinishedStays(lines[..k], lines[..n]);
    }
  }

  lemma FinishedStays(a: seq<Line>, b: seq<Line>)
    requires HasFinish(a) && a <= b
    ensures OnChunks(Initial, OnePerChunk(b)).finished
  {
    FinishGrows(a, b[|a|..]);
    assert a + b[|a|..] == b;
    OnePerChunkBound(b);
  }

  /** One line to a chunk: finished as soon as a finish line was there, and never more output than all lines give. */
  lemma {:induction false} OnePerChunkBound(lines: seq<Line>)
    ensures OnChunks(Initial, OnePerChunk(lines)).finished <==> HasFinish(lines)
    ensures |OnChunks(Initial, OnePerChunk(lines)).out| <= |OnLines(Initial, lines).out|
    ensures !HasFinish(lines) ==> OnChunks(Initial, OnePerChunk(lines)) == OnLines(Initial, lines)
  {
    if lines != [] {
      var n := |lines| - 1;
      var init := lines[..n];
      OnePerChunkBound(init);
      assert OnePerChunk(lines)[..n] == OnePerChunk(init);
      var st := OnChunks(Initial, OnePerChunk(init));
      assert init + [lines[n]] == lines;
      if st.finished {
        FinishGrows(init, [lines[n]]);
        LineYields(OnLines(Initial, init), lines[n]);
      } else {
        assert [lines[n]][..0] == [];
        assert OnLines(st, [lines[n]]) == OnLine(st, lines[n]);
        FinishedByLines(lines);
      }
    }
  }

  lemma NoisyDiffers(lines: seq<Line>, k: nat)
    requires k < |lines| && HasFinish(lines[..k]) && !Quiet(lines[k], ToolsIn(lines[..k]))
    ensures |OnChunks(Initial, OnePerChunk(lines)).out| < |OnLines(Initial, lines).out|
  {
    var a, b := lines[..k], lines[k + 1..];
    OnePerChunkStops(lines, k);
    OnePerChunkBound(a);
    NoisyGrows(a, lines[k], b);
    assert a + [lines[k]] + b == lines;
  }

  lemma NoisyGrows(a: seq<Line>, line: Line, b: seq<Line>)
    requires !Quiet(line, ToolsIn(a))
    ensures |OnLines(Initial, a).out| < |OnLines(Initial, a + [line] + b).out|
  {
    KeptLines(a);
    LineYields(OnLines(Initial, a), line);
    assert (a + [line])[..|a|] == a;
    LinesAppend(Initial, a + [line], b);
    LinesYield(OnLines(Initial, a + [line]), b);
  }

  lemma Alone(lines: seq<Line>)
    ensures OnChunks(Initial, [lines]) == OnLines(Initial, lines)
    ensures Flatten([lines]) == lines
  {
    assert [lines][..0] == [] && [] + lines == lines;
  }

  lemma NoisyTranslation(lines: seq<Line>, k: nat)
    requires k < |lines| && HasFinish(lines[..k]) && !Quiet(lines[k], ToolsIn(lines[..k]))
    ensures Translate(OnePerChunk(lines)) != Translate([lines])
  {
    NoisyDiffers(lines, k);
    Alone(lines);
    BothFinished(lines, k);
    LongerDiffers(OnChunks(Initial, OnePerChunk(lines)), OnChunks(Initial, [lines]));
  }

  lemma BothFinished(lines: seq<Line>, k: nat)
    requires k <= |lines| && HasFinish(lines[..k])
    ensures OnChunks(Initial, OnePerChunk(lines)).finished && OnLines(Initial, lines).finished
  {
    FinishGrows(lines[..k], lines[k..]);
    assert lines[..k] + lines[k..] == lines;
    OnePerChunkBound(lines);
    FinishedByLines(lines);
  }

  lemma LongerDiffers(st: State, st1: State)
    requires st.finished && st1.finished && |st.out| < |st1.out|
    ensures OnEnd(st).out != OnEnd(st1).out
  {
  }

  /** The same lines give the same events in every cut into chunks, if and only if the finish line is the last word. */
  lemma RegroupingLines(lines: seq<Line>)
    ensures QuietAfterFinish(lines) <==>
            forall chunks | Flatten(chunks) == lines :: Translate(chunks) == Translate([lines])
  {
    Alone(lines);
    if QuietAfterFinish(lines) {
      forall chunks | Flatten(chunks) == lines ensures Translate(chunks) == Translate([lines]) {
        ChunksDoNotMatter(chunks);
      }
    } else {
      var k :| 0 <= k < |lines| && HasFinish(lines[..k]) && !Quiet(lines[k], ToolsIn(lines[..k]));
      NoisyTranslation(lines, k);
      FlattenOnePerChunk(lines);
    }
  }
}
