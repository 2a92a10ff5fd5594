/**
 What the stream translator carries over from its input, and how far it depends on the cut into byte chunks.
 Nothing here assumes that the input is disciplined.
 */
module StreamContent {
  import opened Options
  import opened Sequences
  import opened AnthropicStream
  import opened StreamGrammar

  // ---- The lines that are looked at --------------------------------------------------------------------------------

  predicate IsFinish(line: Line) {
    line.Data? && line.choice.finish != ""
  }

  predicate HasFinish(lines: seq<Line>) {
    exists i | 0 <= i < |lines| :: IsFinish(lines[i])
  }

  /** All lines up to the end of the chunk that holds the first finish line. */
  function Processed(chunks: seq<Chunk>): seq<Line> {
    if chunks == [] then [] else
      var before := Processed(chunks[..|chunks| - 1]);
      if HasFinish(before) then before else before + chunks[|chunks| - 1]
  }

  lemma {:induction false} LinesAppend(st: State, a: seq<Line>, b: seq<Line>)
    requires st.tools.Keys == st.buffers.Keys
    ensures OnLines(st, a + b) == OnLines(OnLines(st, a), b)
    decreases |b|
  {
    if b == [] {
      assert a + b == a;
    } else {
      assert (a + b)[..|a + b| - 1] == a + b[..|b| - 1];
      LinesAppend(st, a, b[..|b| - 1]);
    }
  }

  lemma {:induction false} ToolsKeepFinished(st: State, ts: seq<ToolDelta>)
    requires st.tools.Keys == st.buffers.Keys
    ensures OnTools(st, ts).finished == st.finished
  {
    if ts != [] {
      ToolsKeepFinished(st, ts[..|ts| - 1]);
    }
  }

  lemma FinishedByLine(st: State, line: Line)
    requires st.tools.Keys == st.buffers.Keys
    ensures OnLine(st, line).finished <==> st.finished || IsFinish(line)
  {
    if line.Data? {
      var c := line.choice;
      ToolsKeepFinished(OnContent(OnReasoning(st, c.reasoning), c.content), c.tools);
    }
  }

  lemma {:induction false} FinishedByLines(lines: seq<Line>)
    ensures OnLines(Initial, lines).finished <==> HasFinish(lines)
  {
    if lines != [] {
      var init, last := lines[..|lines| - 1], lines[|lines| - 1];
      FinishedByLines(init);
      FinishedByLine(OnLines(Initial, init), last);
      assert HasFinish(lines) <==> HasFinish(init) || IsFinish(last) by {
        if i :| 0 <= i < |lines| && IsFinish(lines[i]) {
          assert i < |init| ==> init[i] == lines[i];
        }
        if i :| 0 <= i < |init| && IsFinish(init[i]) {
          assert init[i] == lines[i];
        }
      }
    }
  }

  lemma {:induction false} ChunksAreLines(chunks: seq<Chunk>)
    ensures OnChunks(Initial, chunks) == OnLines(Initial, Processed(chunks))
  {
    if chunks != [] {
      var init := chunks[..|chunks| - 1];
      ChunksAreLines(init);
      FinishedByLines(Processed(init));
      LinesAppend(Initial, Processed(init), chunks[|chunks| - 1]);
    }
  }

  // ---- Content preservation ----------------------------------------------------------------------------------------

  datatype Channel = TextChannel | ThinkingChannel | JsonChannel(index: int)

  /** What one event adds to a channel of the output. */
  function Piece(e: Event, ch: Channel): string {
    if !e.BlockDelta? then "" else
    match e.delta
    case TextDelta(s) => if ch.TextChannel? then s else ""
    case ThinkingDelta(s) => if ch.ThinkingChannel? then s else ""
    case InputJsonDelta(s) => if ch == JsonChannel(e.index) then s else ""
  }

  function Payload(es: seq<Event>, ch: Channel): string {
    if es == [] then "" else Payload(es[..|es| - 1], ch) + Piece(es[|es| - 1], ch)
  }

  function ContentOf(lines: seq<Line>): string {
    if lines == [] then "" else
      ContentOf(lines[..|lines| - 1]) + var l := lines[|lines| - 1]; if l.Data? then l.choice.content else ""
  }

  function ReasoningOf(lines: seq<Line>): string {
    if lines == [] then "" else
      ReasoningOf(lines[..|lines| - 1]) + var l := lines[|lines| - 1]; if l.Data? then l.choice.reasoning else ""
  }

  function ToolArgs(ts: seq<ToolDelta>, index: int): string {
    if ts == [] then "" else
      ToolArgs(ts[..|ts| - 1], index) + if ts[|ts| - 1].index == index then ts[|ts| - 1].args else ""
  }

  function ArgsOf(lines: seq<Line>, index: int): string {
    if lines == [] then "" else
      ArgsOf(lines[..|lines| - 1], index)
      + var l := lines[|lines| - 1]; if l.Data? then ToolArgs(l.choice.tools, index) else ""
  }

  function ToolsOf(ts: seq<ToolDelta>): set<int> {
    set i | 0 <= i < |ts| :: ts[i].index
  }

  function ToolsIn(lines: seq<Line>): set<int> {
    if lines == [] then {} else
      ToolsIn(lines[..|lines| - 1]) + var l := lines[|lines| - 1]; if l.Data? then ToolsOf(l.choice.tools) else {}
  }

  lemma PayloadOne(es: seq<Event>, e: Event, ch: Channel)
    ensures Payload(es + [e], ch) == Payload(es, ch) + Piece(e, ch)
  {
    assert (es + [e])[..|es + [e]| - 1] == es;
  }

  /** The arguments kept for each call are exactly what was sent on its block, and no other block carries arguments. */
  ghost predicate JsonKept(st: State) {
    && Tidy(st)
    && (forall t | t in st.tools :: Payload(st.out, JsonChannel(st.tools[t])) == st.buffers[t])
    && (forall i | i !in ToolIndices(st.tools) :: Payload(st.out, JsonChannel(i)) == "")
  }

  /** From `st` to `st1`, `text` and `thinking` have come out, and nothing on a tool block. */
  ghost predicate Adds(st: State, st1: State, text: string, thinking: string) {
    && st1.tools == st.tools && st1.buffers == st.buffers && st1.index >= st.index
    && Payload(st1.out, TextChannel) == Payload(st.out, TextChannel) + text
    && Payload(st1.out, ThinkingChannel) == Payload(st.out, ThinkingChannel) + thinking
    && forall i :: Payload(st1.out, JsonChannel(i)) == Payload(st.out, JsonChannel(i))
  }

  lemma AddsOne(st: State, e: Event, st1: State)
    requires !(e.BlockDelta? && e.delta.InputJsonDelta?)
    requires st1.out == st.out + [e] && st1.tools == st.tools && st1.buffers == st.buffers && st1.index >= st.index
    ensures Adds(st, st1, Piece(e, TextChannel), Piece(e, ThinkingChannel))
  {
    forall ch: Channel ensures Payload(st1.out, ch) == Payload(st.out, ch) + Piece(e, ch) {
      PayloadOne(st.out, e, ch);
    }
  }

  lemma AddsBoth(a: State, b: State, c: State, text: string, thinking: string)
    requires Adds(a, b, "", "") && Adds(b, c, text, thinking)
    ensures Adds(a, c, text, thinking)
  {
    assert Payload(a.out, TextChannel) + "" == Payload(a.out, TextChannel);
    assert Payload(a.out, ThinkingChannel) + "" == Payload(a.out, ThinkingChannel);
  }

  lemma AddsNothing(st: State)
    ensures Adds(st, st, "", "")
  {
    assert Payload(st.out, TextChannel) + "" == Payload(st.out, TextChannel);
    assert Payload(st.out, ThinkingChannel) + "" == Payload(st.out, ThinkingChannel);
  }

  lemma AddsKeep(st: State, st1: State, text: string, thinking: string)
    requires JsonKept(st) && Adds(st, st1, text, thinking)
    ensures JsonKept(st1)
  {
  }

  lemma AddsReasoning(st: State, s: string)
    ensures Adds(st, OnReasoning(st, s), "", s)
  {
    AddsNothing(st);
    if s != "" {
      var st1 := if st.thinking then st
                 else st.(out := st.out + [BlockStart(st.index, Thinking)], thinking := true);
      if !st.thinking {
        AddsOne(st, BlockStart(st.index, Thinking), st1);
      }
      AddsOne(st1, BlockDelta(st1.index, ThinkingDelta(s)), OnReasoning(st, s));
      AddsBoth(st, st1, OnReasoning(st, s), "", s);
    }
  }

  lemma AddsContent(st: State, s: string)
    ensures Adds(st, OnContent(st, s), s, "")
  {
    AddsNothing(st);
    if s != "" {
      var st1 := if !st.text && st.thinking
                 then st.(out := st.out + [BlockStop(st.index)], index := st.index + 1, thinking := false)
                 else st;
      if !st.text && st.thinking {
        AddsOne(st, BlockStop(st.index), st1);
      }
      var st2 := if st1.text then st1 else st1.(out := st1.out + [BlockStart(st1.index, Text)], text := true);
      if st1.text {
        AddsNothing(st1);
      } else {
        AddsOne(st1, BlockStart(st1.index, Text), st2);
      }
      AddsBoth(st, st1, st2, "", "");
      AddsOne(st2, BlockDelta(st2.index, TextDelta(s)), OnContent(st, s));
      AddsBoth(st, st2, OnContent(st, s), s, "");
    }
  }

  lemma OpeningCarriesNothing(st: State, t: ToolDelta, ch: Channel)
    ensures Payload(OpenTool(st, t).out, ch) == Payload(st.out, ch)
  {
    var out := if st.text then st.out + [BlockStop(st.index)] else st.out;
    PayloadOne(st.out, BlockStop(st.index), ch);
    PayloadOne(out, BlockStart(OpenedAt(st), ToolBlock(t)), ch);
    assert Payload(st.out, ch) + "" == Payload(st.out, ch);
  }

  lemma KeptOpenTool(st: State, t: ToolDelta)
    requires JsonKept(st) && t.index !in st.tools
    ensures JsonKept(OpenTool(st, t)) && OpenTool(st, t).buffers[t.index] == ""
    ensures Payload(OpenTool(st, t).out, TextChannel) == Payload(st.out, TextChannel)
    ensures Payload(OpenTool(st, t).out, ThinkingChannel) == Payload(st.out, ThinkingChannel)
  {
    TidyOpenTool(st, t);
    var r := OpenTool(st, t);
    forall ch: Channel ensures Payload(r.out, ch) == Payload(st.out, ch) {
      OpeningCarriesNothing(st, t, ch);
    }
    assert OpenedAt(st) !in ToolIndices(st.tools);
    assert forall u | u in st.tools :: u in r.tools && r.tools[u] == st.tools[u];
    assert t.index in r.tools && r.tools[t.index] == OpenedAt(st);
    assert ToolIndices(r.tools) == ToolIndices(st.tools) + {OpenedAt(st) as int};
  }

  lemma KeptArgs(st: State, t: ToolDelta)
    requires JsonKept(st) && t.index in st.tools && t.args != ""
    ensures
      var r := OnTool(st, t);
      && JsonKept(r)
      && Payload(r.out, TextChannel) == Payload(st.out, TextChannel)
      && Payload(r.out, ThinkingChannel) == Payload(st.out, ThinkingChannel)
  {
    var r := OnTool(st, t);
    var e := BlockDelta(st.tools[t.index], InputJsonDelta(t.args));
    assert r.out == st.out + [e] && r.tools == st.tools;
    forall ch: Channel ensures Payload(r.out, ch) == Payload(st.out, ch) + Piece(e, ch) {
      PayloadOne(st.out, e, ch);
    }
    assert Payload(st.out, TextChannel) + "" == Payload(st.out, TextChannel);
    assert Payload(st.out, ThinkingChannel) + "" == Payload(st.out, ThinkingChannel);
    assert st.tools[t.index] as int in ToolIndices(st.tools);
  }

  lemma KeptTool(st: State, t: ToolDelta)
    requires JsonKept(st)
    ensures ToolEffect(st, OnTool(st, t), {t.index})
  {
    if t.index !in st.tools {
      KeptOpenTool(st, t);
      if t.args != "" {
        KeptArgs(OpenTool(st, t), t);
        assert OnTool(OpenTool(st, t), t) == OnTool(st, t);
      }
    } else if t.args != "" {
      KeptArgs(st, t);
    }
  }

  function ArgsSoFar(st: State, index: int): string
    requires st.tools.Keys == st.buffers.Keys
  {
    if index in st.buffers then st.buffers[index] else ""
  }

  lemma ToolsOfOne(ts: seq<ToolDelta>)
    requires ts != []
    ensures ToolsOf(ts) == ToolsOf(ts[..|ts| - 1]) + {ts[|ts| - 1].index}
  {
    var init, t := ts[..|ts| - 1], ts[|ts| - 1];
    forall x | x in ToolsOf(ts) ensures x in ToolsOf(init) + {t.index} {
      var i :| 0 <= i < |ts| && ts[i].index == x;
      assert i < |init| ==> init[i] == ts[i];
    }
    forall x | x in ToolsOf(init) ensures x in ToolsOf(ts) {
      var i :| 0 <= i < |init| && init[i].index == x;
      assert init[i] == ts[i];
    }
    assert ts[|ts| - 1].index in ToolsOf(ts);
  }

  /** Tool deltas of the calls in `indices` add nothing to the text and thinking channels. */
  ghost predicate ToolEffect(st: State, r: State, indices: set<int>) {
    && JsonKept(r)
    && Payload(r.out, TextChannel) == Payload(st.out, TextChannel)
    && Payload(r.out, ThinkingChannel) == Payload(st.out, ThinkingChannel)
    && r.tools.Keys == st.tools.Keys + indices
  }

  lemma {:induction false} KeptTools(st: State, ts: seq<ToolDelta>)
    requires JsonKept(st)
    ensures ToolEffect(st, OnTools(st, ts), ToolsOf(ts))
  {
    if ts != [] {
      KeptTools(st, ts[..|ts| - 1]);
      ToolsOfOne(ts);
      KeptTool(OnTools(st, ts[..|ts| - 1]), ts[|ts| - 1]);
    }
  }

  lemma {:induction false} ArgsOfTools(st: State, ts: seq<ToolDelta>, u: int)
    requires st.tools.Keys == st.buffers.Keys
    ensures ArgsSoFar(OnTools(st, ts), u) == ArgsSoFar(st, u) + ToolArgs(ts, u)
  {
    if ts == [] {
      assert ArgsSoFar(st, u) + "" == ArgsSoFar(st, u);
    } else {
      var init, t := ts[..|ts| - 1], ts[|ts| - 1];
      ArgsOfTools(st, init, u);
      var piece := if t.index == u then t.args else "";
      ArgsOfTool(OnTools(st, init), t, u);
      Reassociate(ArgsSoFar(st, u), ToolArgs(init, u), piece);
    }
  }

  lemma ArgsOfTool(st: State, t: ToolDelta, u: int)
    requires st.tools.Keys == st.buffers.Keys
    ensures ArgsSoFar(OnTool(st, t), u) == ArgsSoFar(st, u) + if t.index == u then t.args else ""
  {
  }

  lemma {:induction false} StopsCarryNothing(es: seq<Event>, tools: map<int, nat>, order: seq<int>, ch: Channel)
    requires forall i | 0 <= i < |order| :: order[i] in tools
    ensures Payload(es + ToolStops(tools, order), ch) == Payload(es, ch)
  {
    if order == [] {
      assert es + ToolStops(tools, order) == es;
    } else {
      var n := |order| - 1;
      StopsCarryNothing(es, tools, order[..n], ch);
      var e := BlockStop(tools[order[n]]);
      Reassociate(es, ToolStops(tools, order[..n]), [e]);
      PayloadOne(es + ToolStops(tools, order[..n]), e, ch);
    }
  }

  lemma ClosingCarriesNothing(st: State, stop: StopReason, tokens: int, ch: Channel)
    ensures Payload(st.out + Stops(st) + [MessageDelta(stop, tokens)] + [MessageStop], ch) == Payload(st.out, ch)
  {
    StopsOut(st, ch);
    PayloadOne(st.out + Stops(st), MessageDelta(stop, tokens), ch);
    PayloadOne(st.out + Stops(st) + [MessageDelta(stop, tokens)], MessageStop, ch);
    assert Payload(st.out, ch) + "" == Payload(st.out, ch);
  }

  lemma StopsOut(st: State, ch: Channel)
    ensures Payload(st.out + Stops(st), ch) == Payload(st.out, ch)
  {
    var order := Sorting.Sorted(st.tools.Keys);
    SortedInTools(st.tools, order);
    var out := if st.text then st.out + [BlockStop(st.index)] else st.out;
    PayloadOne(st.out, BlockStop(st.index), ch);
    assert Payload(st.out, ch) + "" == Payload(st.out, ch);
    StopsCarryNothing(out, st.tools, order, ch);
    StopsAre(st, order);
  }

  lemma StopsAre(st: State, order: seq<int>)
    requires order == Sorting.Sorted(st.tools.Keys)
    requires forall i | 0 <= i < |order| :: order[i] in st.tools
    ensures st.out + Stops(st)
         == (if st.text then st.out + [BlockStop(st.index)] else st.out) + ToolStops(st.tools, order)
  {
    Reassociate(st.out, if st.text then [BlockStop(st.index)] else [], ToolStops(st.tools, order));
    assert st.out + [] == st.out;
  }

  /** What has come out agrees with what has gone in. */
  ghost predicate Kept(st: State, lines: seq<Line>) {
    && JsonKept(st)
    && Payload(st.out, TextChannel) == ContentOf(lines)
    && Payload(st.out, ThinkingChannel) == ReasoningOf(lines)
    && st.tools.Keys == ToolsIn(lines)
    && forall u :: ArgsSoFar(st, u) == ArgsOf(lines, u)
  }

  lemma KeptSame(st: State, st1: State, lines: seq<Line>)
    requires Kept(st, lines) && st1.tools == st.tools && st1.buffers == st.buffers && st1.index == st.index
    requires forall ch: Channel :: Payload(st1.out, ch) == Payload(st.out, ch)
    ensures Kept(st1, lines)
  {
    assert forall u :: ArgsSoFar(st1, u) == ArgsSoFar(st, u);
  }

  lemma KeptFinish(st: State, lines: seq<Line>, finish: string, completionTokens: Option<int>)
    requires Kept(st, lines)
    ensures Kept(OnFinish(st, finish, completionTokens), lines)
  {
    if finish != "" {
      var tokens := if completionTokens.Some? then completionTokens.value else st.tokens;
      var st1 := OnFinish(st, finish, completionTokens);
      forall ch: Channel ensures Payload(st1.out, ch) == Payload(st.out, ch) {
        ClosingCarriesNothing(st, Mapped(finish), tokens, ch);
      }
      KeptSame(st, st1, lines);
    }
  }

  lemma KeptLine(st: State, lines: seq<Line>, line: Line)
    requires Kept(st, lines) && line.Data?
    ensures
      var c := line.choice;
      Kept(OnTools(OnContent(OnReasoning(st, c.reasoning), c.content), c.tools), lines + [line])
  {
    var c := line.choice;
    assert (lines + [line])[..|lines + [line]| - 1] == lines;
    var st1 := OnReasoning(st, c.reasoning);
    AddsReasoning(st, c.reasoning);
    AddsKeep(st, st1, "", c.reasoning);
    var st2 := OnContent(st1, c.content);
    AddsContent(st1, c.content);
    AddsKeep(st1, st2, c.content, "");
    assert Payload(st.out, TextChannel) + "" == Payload(st.out, TextChannel);
    assert Payload(st1.out, ThinkingChannel) + "" == Payload(st1.out, ThinkingChannel);
    assert forall u :: ArgsSoFar(st2, u) == ArgsSoFar(st, u);
    KeptTools(st2, c.tools);
    forall u ensures ArgsSoFar(OnTools(st2, c.tools), u) == ArgsSoFar(st, u) + ToolArgs(c.tools, u) {
      ArgsOfTools(st2, c.tools, u);
    }
  }

  lemma KeptSkipped(st: State, lines: seq<Line>)
    requires Kept(st, lines)
    ensures Kept(st, lines + [Skipped])
  {
    assert (lines + [Skipped])[..|lines + [Skipped]| - 1] == lines;
    assert ContentOf(lines) + "" == ContentOf(lines) && ReasoningOf(lines) + "" == ReasoningOf(lines);
    assert forall u :: ArgsOf(lines, u) + "" == ArgsOf(lines, u);
  }

  lemma {:induction false} KeptLines(lines: seq<Line>)
    ensures Kept(OnLines(Initial, lines), lines)
  {
    if lines == [] {
      PayloadNothing();
    } else {
      var init, last := lines[..|lines| - 1], lines[|lines| - 1];
      assert init + [last] == lines;
      KeptLines(init);
      var st := OnLines(Initial, init);
      if last.Data? {
        var c := last.choice;
        KeptLine(st, init, last);
        KeptFinish(OnTools(OnContent(OnReasoning(st, c.reasoning), c.content), c.tools), lines, c.finish,
                   c.completionTokens);
      } else {
        KeptSkipped(st, init);
      }
    }
  }

  lemma PayloadNothing()
    ensures forall ch: Channel :: Payload([MessageStart], ch) == ""
  {
    forall ch: Channel ensures Payload([MessageStart], ch) == "" {
      PayloadOne([], MessageStart, ch);
      assert [] + [MessageStart] == [MessageStart];
    }
  }

  /** Which block each tool call got. */
  function BlocksOf(chunks: seq<Chunk>): map<int, nat> {
    OnChunks(Initial, chunks).tools
  }

  /**
   Every piece of content, reasoning and tool arguments on the lines looked at comes out once, in order: the text
   deltas spell the content, the thinking deltas the reasoning, and for each tool call the JSON deltas on its own
   block spell its arguments.
   */
  lemma ContentPreserved(chunks: seq<Chunk>)
    ensures
      var es, lines, blocks := Translate(chunks), Processed(chunks), BlocksOf(chunks);
      && Payload(es, TextChannel) == ContentOf(lines)
      && Payload(es, ThinkingChannel) == ReasoningOf(lines)
      && blocks.Keys == ToolsIn(lines) && Injective(blocks)
      && (forall t | t in blocks :: Payload(es, JsonChannel(blocks[t])) == ArgsOf(lines, t))
      && (forall i | i !in ToolIndices(blocks) :: Payload(es, JsonChannel(i)) == "")
  {
    var st := OnChunks(Initial, chunks);
    ChunksAreLines(chunks);
    KeptLines(Processed(chunks));
    forall ch: Channel ensures Payload(Translate(chunks), ch) == Payload(st.out, ch) {
      ClosingCarriesNothing(st, EndTurn, st.tokens, ch);
    }
    assert forall t | t in st.tools :: ArgsSoFar(st, t) == st.buffers[t];
  }

  function ContentLines(lines: seq<Line>): nat {
    if lines == [] then 0 else
      ContentLines(lines[..|lines| - 1])
      + var l := lines[|lines| - 1]; if l.Data? && l.choice.content != "" then 1 else 0
  }

  lemma {:induction false} ToolsKeepTokens(st: State, ts: seq<ToolDelta>)
    requires st.tools.Keys == st.buffers.Keys
    ensures OnTools(st, ts).tokens == st.tokens
  {
    if ts != [] {
      ToolsKeepTokens(st, ts[..|ts| - 1]);
    }
  }

  lemma {:induction false} TokensCountContent(lines: seq<Line>)
    ensures OnLines(Initial, lines).tokens == ContentLines(lines)
  {
    if lines != [] {
      var init, last := lines[..|lines| - 1], lines[|lines| - 1];
      TokensCountContent(init);
      if last.Data? {
        var c := last.choice;
        ToolsKeepTokens(OnContent(OnReasoning(OnLines(Initial, init), c.reasoning), c.content), c.tools);
      }
    }
  }

  /** A stream that ends without a finish reason is closed as end_turn, billed one token for each line with content. */
  lemma UnfinishedUsage(chunks: seq<Chunk>)
    requires !HasFinish(Processed(chunks))
    ensures
      var es := Translate(chunks);
      |es| >= 2 && es[|es| - 2..] == [MessageDelta(EndTurn, ContentLines(Processed(chunks))), MessageStop]
  {
    ChunksAreLines(chunks);
    FinishedByLines(Processed(chunks));
    TokensCountContent(Processed(chunks));
  }
}
