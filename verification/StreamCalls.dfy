/**
 Under which id and name the stream translator starts each tool call, and what it bills. Nothing here assumes that the
 input is disciplined.
 */
module StreamCalls {
  import opened Options
  import opened Sequences
  import opened AnthropicStream
  import opened StreamGrammar
  import opened StreamContent

  // ---- Events of one kind ------------------------------------------------------------------------------------------

  datatype Kind = ToolStarts | Bills

  predicate IsOf(e: Event, kind: Kind) {
    match kind
    case ToolStarts => e.BlockStart? && e.block.ToolUse?
    case Bills => e.MessageDelta?
  }

  /** The events of a kind, in order. */
  function Only(es: seq<Event>, kind: Kind): seq<Event> {
    if es == [] then [] else
      Only(es[..|es| - 1], kind) + if IsOf(es[|es| - 1], kind) then [es[|es| - 1]] else []
  }

  lemma OnlySnoc(es: seq<Event>, e: Event, kind: Kind)
    ensures Only(es + [e], kind) == Only(es, kind) + if IsOf(e, kind) then [e] else []
  {
    assert (es + [e])[..|es|] == es;
  }

  lemma {:induction false} OnlyConcat(a: seq<Event>, b: seq<Event>, kind: Kind)
    ensures Only(a + b, kind) == Only(a, kind) + Only(b, kind)
    decreases |b|
  {
    if b == [] {
      assert a + b == a;
    } else {
      var front, last := b[..|b| - 1], b[|b| - 1];
      OnlyConcat(a, front, kind);
      assert b == front + [last] && a + b == (a + front) + [last];
      OnlySnoc(a + front, last, kind);
      Reassociate(Only(a, kind), Only(front, kind), if IsOf(last, kind) then [last] else []);
    }
  }

  lemma {:induction false} OnlyStops(tools: map<int, nat>, order: seq<int>, kind: Kind)
    requires forall i | 0 <= i < |order| :: order[i] in tools
    ensures Only(ToolStops(tools, order), kind) == []
  {
    if order != [] {
      OnlyStops(tools, order[..|order| - 1], kind);
      OnlySnoc(ToolStops(tools, order[..|order| - 1]), BlockStop(tools[order[|order| - 1]]), kind);
    }
  }

  lemma OnlyTextStop(st: State, kind: Kind)
    ensures Only(if st.text then [BlockStop(st.index)] else [], kind) == []
  {
    OnlySnoc([], BlockStop(st.index), kind);
    assert [] + [BlockStop(st.index)] == [BlockStop(st.index)];
  }

  lemma OnlyAllStops(st: State, kind: Kind)
    ensures Only(Stops(st), kind) == []
  {
    var order := Sorting.Sorted(st.tools.Keys);
    SortedKeys(st.tools, order);
    OnlyStops(st.tools, order, kind);
    OnlyTextStop(st, kind);
    OnlyConcat(if st.text then [BlockStop(st.index)] else [], ToolStops(st.tools, order), kind);
  }

  lemma OnlyEnd(out: seq<Event>, stops: seq<Event>, stop: StopReason, tokens: int, kind: Kind)
    requires Only(stops, kind) == []
    ensures Only(out + stops + [MessageDelta(stop, tokens)] + [MessageStop], kind)
            == Only(out, kind) + if kind.Bills? then [MessageDelta(stop, tokens)] else []
  {
    OnlyConcat(out, stops, kind);
    OnlySnoc(out + stops, MessageDelta(stop, tokens), kind);
    OnlySnoc(out + stops + [MessageDelta(stop, tokens)], MessageStop, kind);
  }

  lemma OnlyClosing(st: State, stop: StopReason, tokens: int, kind: Kind)
    ensures Only(st.out + Stops(st) + [MessageDelta(stop, tokens)] + [MessageStop], kind)
            == Only(st.out, kind) + if kind.Bills? then [MessageDelta(stop, tokens)] else []
  {
    OnlyAllStops(st, kind);
    OnlyEnd(st.out, Stops(st), stop, tokens, kind);
  }

  lemma OnlyReasoning(st: State, s: string, kind: Kind)
    ensures Only(OnReasoning(st, s).out, kind) == Only(st.out, kind)
  {
    var e := BlockStart(st.index, Thinking);
    OnlySnoc(st.out, e, kind);
    OnlySnoc(if st.thinking then st.out else st.out + [e], BlockDelta(st.index, ThinkingDelta(s)), kind);
  }

  lemma OnlyContent(st: State, s: string, kind: Kind)
    ensures Only(OnContent(st, s).out, kind) == Only(st.out, kind)
  {
    var closing := !st.text && st.thinking;
    var i := if closing then st.index + 1 else st.index;
    OnlySnoc(st.out, BlockStop(st.index), kind);
    var out1 := if closing then st.out + [BlockStop(st.index)] else st.out;
    OnlySnoc(out1, BlockStart(i, Text), kind);
    OnlySnoc(if st.text then out1 else out1 + [BlockStart(i, Text)], BlockDelta(i, TextDelta(s)), kind);
  }

  lemma OnlyOpen(st: State, t: ToolDelta, kind: Kind)
    ensures Only(OpenTool(st, t).out, kind)
            == Only(st.out, kind) + if kind.ToolStarts? then [BlockStart(OpenedAt(st), ToolBlock(t))] else []
  {
    OnlySnoc(st.out, BlockStop(st.index), kind);
    OnlySnoc(if st.text then st.out + [BlockStop(st.index)] else st.out, BlockStart(OpenedAt(st), ToolBlock(t)), kind);
  }

  lemma OnlyArgs(st: State, t: ToolDelta, kind: Kind)
    requires st.tools.Keys == st.buffers.Keys && t.index in st.tools
    ensures Only(OnTool(st, t).out, kind) == Only(st.out, kind)
  {
    OnlySnoc(st.out, BlockDelta(st.tools[t.index], InputJsonDelta(t.args)), kind);
  }

  /** A delta of a new call opens its block and then acts as a delta of a known call. */
  lemma OpenFirst(st: State, t: ToolDelta)
    requires st.tools.Keys == st.buffers.Keys && t.index !in st.tools
    ensures OpenTool(st, t).tools.Keys == OpenTool(st, t).buffers.Keys && t.index in OpenTool(st, t).tools
    ensures OnTool(st, t) == OnTool(OpenTool(st, t), t)
  {
  }

  // ---- Tool calls --------------------------------------------------------------------------------------------------

  function Indices(ds: seq<ToolDelta>): set<int> {
    if ds == [] then {} else Indices(ds[..|ds| - 1]) + {ds[|ds| - 1].index}
  }

  /** The first delta of each call, in order; `before` are those that came earlier. */
  function FirstOf(before: seq<ToolDelta>, ts: seq<ToolDelta>): seq<ToolDelta> {
    if ts == [] then before else
      var firsts, t := FirstOf(before, ts[..|ts| - 1]), ts[|ts| - 1];
      if t.index in Indices(firsts) then firsts else firsts + [t]
  }

  function FirstDeltas(lines: seq<Line>): seq<ToolDelta> {
    if lines == [] then [] else
      var before, line := FirstDeltas(lines[..|lines| - 1]), lines[|lines| - 1];
      if line.Data? then FirstOf(before, line.choice.tools) else before
  }

  /** The starts of the tool blocks that belong to these deltas. */
  function StartsFor(ds: seq<ToolDelta>, blocks: map<int, nat>): seq<Event>
    requires Indices(ds) <= blocks.Keys
  {
    if ds == [] then [] else
      var d := ds[|ds| - 1];
      StartsFor(ds[..|ds| - 1], blocks) + [BlockStart(blocks[d.index], ToolBlock(d))]
  }

  lemma {:induction false} StartsAgree(ds: seq<ToolDelta>, a: map<int, nat>, b: map<int, nat>)
    requires Indices(ds) <= a.Keys && Indices(ds) <= b.Keys && forall t | t in Indices(ds) :: a[t] == b[t]
    ensures StartsFor(ds, a) == StartsFor(ds, b)
  {
    if ds != [] {
      StartsAgree(ds[..|ds| - 1], a, b);
    }
  }

  /** The tool blocks started so far are those of the first deltas `ds`. */
  ghost predicate Started(st: State, ds: seq<ToolDelta>) {
    st.tools.Keys == st.buffers.Keys == Indices(ds) && Only(st.out, ToolStarts) == StartsFor(ds, st.tools)
  }

  lemma StartedOpen(st: State, ds: seq<ToolDelta>, t: ToolDelta)
    requires Started(st, ds) && t.index !in st.tools
    ensures Started(OpenTool(st, t), ds + [t])
  {
    var r := OpenTool(st, t);
    assert (ds + [t])[..|ds|] == ds;
    OnlyOpen(st, t, ToolStarts);
    StartsAgree(ds, st.tools, r.tools);
  }

  lemma StartedTool(st: State, ds: seq<ToolDelta>, t: ToolDelta)
    requires Started(st, ds)
    ensures Started(OnTool(st, t), if t.index in Indices(ds) then ds else ds + [t])
  {
    if t.index in st.tools {
      OnlyArgs(st, t, ToolStarts);
    } else {
      StartedOpen(st, ds, t);
      OpenFirst(st, t);
      OnlyArgs(OpenTool(st, t), t, ToolStarts);
    }
  }

  lemma {:induction false} StartedTools(st: State, ds: seq<ToolDelta>, ts: seq<ToolDelta>)
    requires Started(st, ds)
    ensures Started(OnTools(st, ts), FirstOf(ds, ts))
  {
    if ts != [] {
      StartedTools(st, ds, ts[..|ts| - 1]);
      StartedTool(OnTools(st, ts[..|ts| - 1]), FirstOf(ds, ts[..|ts| - 1]), ts[|ts| - 1]);
    }
  }

  /** Nothing has happened to the calls between `st` and `st1`. */
  predicate SameCalls(st: State, st1: State) {
    st1.tools == st.tools && st1.buffers == st.buffers && Only(st1.out, ToolStarts) == Only(st.out, ToolStarts)
  }

  lemma StartedSame(st: State, st1: State, ds: seq<ToolDelta>)
    requires Started(st, ds) && SameCalls(st, st1)
    ensures Started(st1, ds)
  {
  }

  lemma StartedFinish(st: State, ds: seq<ToolDelta>, finish: string, completionTokens: Option<int>)
    requires Started(st, ds)
    ensures Started(OnFinish(st, finish, completionTokens), ds)
  {
    if finish != "" {
      OnlyClosing(st, Mapped(finish), if completionTokens.Some? then completionTokens.value else st.tokens, ToolStarts);
      StartedSame(st, OnFinish(st, finish, completionTokens), ds);
    }
  }

  lemma StartedContent(st: State, ds: seq<ToolDelta>, reasoning: string, content: string)
    requires Started(st, ds)
    ensures Started(OnContent(OnReasoning(st, reasoning), content), ds)
  {
    var st1 := OnReasoning(st, reasoning);
    StartedReasoning(st, ds, reasoning);
    OnlyContent(st1, content, ToolStarts);
    ContentKeepsTools(st1, content);
    StartedSame(st1, OnContent(st1, content), ds);
  }

  lemma ContentKeepsTools(st: State, content: string)
    ensures OnContent(st, content).tools == st.tools && OnContent(st, content).buffers == st.buffers
  {
  }

  lemma StartedReasoning(st: State, ds: seq<ToolDelta>, reasoning: string)
    requires Started(st, ds)
    ensures Started(OnReasoning(st, reasoning), ds)
  {
    OnlyReasoning(st, reasoning, ToolStarts);
    StartedSame(st, OnReasoning(st, reasoning), ds);
  }

  lemma StartedLine(st: State, ds: seq<ToolDelta>, c: Choice)
    requires Started(st, ds)
    ensures Started(OnLine(st, Data(c)), FirstOf(ds, c.tools))
  {
    StartedContent(st, ds, c.reasoning, c.content);
    var st2 := OnContent(OnReasoning(st, c.reasoning), c.content);
    StartedTools(st2, ds, c.tools);
    StartedFinish(OnTools(st2, c.tools), FirstOf(ds, c.tools), c.finish, c.completionTokens);
  }

  lemma {:induction false} StartedLines(lines: seq<Line>)
    ensures Started(OnLines(Initial, lines), FirstDeltas(lines))
  {
    if lines == [] {
      OnlySnoc([], MessageStart, ToolStarts);
      assert [] + [MessageStart] == [MessageStart];
    } else {
      var init, last := lines[..|lines| - 1], lines[|lines| - 1];
      StartedLines(init);
      if last.Data? {
        StartedLine(OnLines(Initial, init), FirstDeltas(init), last.choice);
      }
    }
  }

  /**
   The tool blocks of the output are exactly those of the calls, in the order in which the calls first occur, each
   started once with the id and name of the call's first delta.
   */
  lemma CallsAreNamed(chunks: seq<Chunk>)
    ensures
      var es, firsts, blocks := Translate(chunks), FirstDeltas(Processed(chunks)), BlocksOf(chunks);
      blocks.Keys == Indices(firsts) && Only(es, ToolStarts) == StartsFor(firsts, blocks)
  {
    var st := OnChunks(Initial, chunks);
    ChunksAreLines(chunks);
    StartedLines(Processed(chunks));
    OnlyClosing(st, EndTurn, st.tokens, ToolStarts);
  }

  /** The first deltas are of different calls, and each is the first of its call. */
  lemma {:induction false} FirstDeltasDiffer(before: seq<ToolDelta>, ts: seq<ToolDelta>)
    requires forall i, j | 0 <= i < j < |before| :: before[i].index != before[j].index
    ensures forall i, j | 0 <= i < j < |FirstOf(before, ts)| ::
              FirstOf(before, ts)[i].index != FirstOf(before, ts)[j].index
    ensures before <= FirstOf(before, ts)
  {
    if ts != [] {
      FirstDeltasDiffer(before, ts[..|ts| - 1]);
      var firsts := FirstOf(before, ts[..|ts| - 1]);
      forall i | 0 <= i < |firsts| ensures firsts[i].index in Indices(firsts) {
        IndexOccurs(firsts, i);
      }
    }
  }

  lemma {:induction false} IndexOccurs(ds: seq<ToolDelta>, i: nat)
    requires i < |ds|
    ensures ds[i].index in Indices(ds)
  {
    if i < |ds| - 1 {
      IndexOccurs(ds[..|ds| - 1], i);
    }
  }

  // ---- Usage -------------------------------------------------------------------------------------------------------

  /** What a line with this finish reason is billed, after `tokens` lines with content. */
  function BillFor(finish: string, completionTokens: Option<int>, tokens: nat): seq<Event> {
    if finish == "" then []
    else [MessageDelta(Mapped(finish), if completionTokens.Some? then completionTokens.value else tokens)]
  }

  /**
   What the finish lines among `lines` are billed: the reported completion tokens, or the lines with content so far.
   */
  function BillsOf(lines: seq<Line>): seq<Event> {
    if lines == [] then [] else
      var before, line := BillsOf(lines[..|lines| - 1]), lines[|lines| - 1];
      if line.Skipped? then before
      else before + BillFor(line.choice.finish, line.choice.completionTokens, ContentLines(lines))
  }

  lemma {:induction false} OnlyTools(st: State, ts: seq<ToolDelta>)
    requires st.tools.Keys == st.buffers.Keys
    ensures Only(OnTools(st, ts).out, Bills) == Only(st.out, Bills)
  {
    if ts != [] {
      OnlyTools(st, ts[..|ts| - 1]);
      OnlyTool(OnTools(st, ts[..|ts| - 1]), ts[|ts| - 1]);
    }
  }

  lemma OnlyTool(st: State, t: ToolDelta)
    requires st.tools.Keys == st.buffers.Keys
    ensures Only(OnTool(st, t).out, Bills) == Only(st.out, Bills)
  {
    if t.index in st.tools {
      OnlyArgs(st, t, Bills);
    } else {
      OnlyOpen(st, t, Bills);
      OpenFirst(st, t);
      OnlyArgs(OpenTool(st, t), t, Bills);
    }
  }

  lemma BilledFinish(st: State, finish: string, completionTokens: Option<int>)
    ensures OnFinish(st, finish, completionTokens).tokens == st.tokens
    ensures Only(OnFinish(st, finish, completionTokens).out, Bills)
            == Only(st.out, Bills) + BillFor(finish, completionTokens, st.tokens)
  {
    if finish != "" {
      OnlyClosing(st, Mapped(finish), if completionTokens.Some? then completionTokens.value else st.tokens, Bills);
    }
  }

  lemma BilledLine(st: State, c: Choice)
    requires st.tools.Keys == st.buffers.Keys
    ensures Only(OnLine(st, Data(c)).out, Bills)
            == Only(st.out, Bills) + BillFor(c.finish, c.completionTokens, OnLine(st, Data(c)).tokens)
  {
    var st2 := OnContent(OnReasoning(st, c.reasoning), c.content);
    UnbilledContent(st, c.reasoning, c.content);
    OnlyTools(st2, c.tools);
    BilledFinish(OnTools(st2, c.tools), c.finish, c.completionTokens);
  }

  lemma UnbilledContent(st: State, reasoning: string, content: string)
    requires st.tools.Keys == st.buffers.Keys
    ensures
      var st2 := OnContent(OnReasoning(st, reasoning), content);
      Only(st2.out, Bills) == Only(st.out, Bills) && st2.tools.Keys == st2.buffers.Keys
  {
    OnlyReasoning(st, reasoning, Bills);
    OnlyContent(OnReasoning(st, reasoning), content, Bills);
    ContentKeepsTools(OnReasoning(st, reasoning), content);
  }

  lemma {:induction false} BilledLines(lines: seq<Line>)
    ensures Only(OnLines(Initial, lines).out, Bills) == BillsOf(lines)
  {
    if lines == [] {
      OnlySnoc([], MessageStart, Bills);
      assert [] + [MessageStart] == [MessageStart];
    } else {
      var init, last := lines[..|lines| - 1], lines[|lines| - 1];
      BilledLines(init);
      TokensCountContent(lines);
      if last.Data? {
        BilledLine(OnLines(Initial, init), last.choice);
      }
    }
  }

  /**
   The usage reported: for each finish line among those looked at, its completion tokens, or the number of lines with
   content up to it; and for a stream without one, the number of lines with content.
   */
  lemma UsageIsBilled(chunks: seq<Chunk>)
    ensures
      var lines := Processed(chunks);
      Only(Translate(chunks), Bills)
      == if HasFinish(lines) then BillsOf(lines) else [MessageDelta(EndTurn, ContentLines(lines))]
  {
    var st, lines := OnChunks(Initial, chunks), Processed(chunks);
    ChunksAreLines(chunks);
    FinishedByLines(lines);
    BilledLines(lines);
    TokensCountContent(lines);
    OnlyClosing(st, EndTurn, st.tokens, Bills);
    if !HasFinish(lines) {
      NoFinishNoBill(lines);
    }
  }

  lemma {:induction false} NoFinishNoBill(lines: seq<Line>)
    requires !HasFinish(lines)
    ensures BillsOf(lines) == []
  {
    if lines != [] {
      assert !IsFinish(lines[|lines| - 1]);
      assert forall i | 0 <= i < |lines| - 1 :: lines[..|lines| - 1][i] == lines[i];
      NoFinishNoBill(lines[..|lines| - 1]);
    }
  }
}
