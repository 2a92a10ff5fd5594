/**
 The OpenAI-to-Anthropic stream translator of backend/app/api/anthropic_api.py.

 The input is a sequence of byte chunks, each already cut into parsed lines.  `OnLine` and the functions under it
 say what one line does to the translator's variables; class `Translator` is the generator itself.
 */
module AnthropicStream {
  import opened Options
  import opened Sequences
  import opened Sorting

  /** One entry of `delta.tool_calls`; `args == ""` stands for an absent fragment. */
  datatype ToolDelta = ToolDelta(index: int, id: Option<string>, name: string, args: string)

  /** The first choice of a data line; "" stands for an absent (or null) text, and for no finish reason. */
  datatype Choice = Choice(reasoning: string, content: string, tools: seq<ToolDelta>, finish: string,
                           completionTokens: Option<int>)

  /** `Skipped` is a line the generator passes over: no data prefix, [DONE], bad JSON, or no choices. */
  datatype Line = Skipped | Data(choice: Choice)

  type Chunk = seq<Line>

  datatype ToolId = Given(id: string) | Generated(index: int)

  datatype Block = Thinking | Text | ToolUse(id: ToolId, name: string)

  datatype Delta = ThinkingDelta(text: string) | TextDelta(text: string) | InputJsonDelta(text: string)

  /** `Mapped(f)` is the translator's mapping of finish reason `f`, which is not interpreted here. */
  datatype StopReason = Mapped(finish: string) | EndTurn

  datatype Event =
    | MessageStart
    | BlockStart(index: int, block: Block)
    | BlockDelta(index: int, delta: Delta)
    | BlockStop(index: int)
    | MessageDelta(stop: StopReason, outputTokens: int)
    | MessageStop

  /** The generator's local variables, and everything it has yielded. */
  datatype State = State(
    out: seq<Event>,
    tokens: nat,
    index: nat,
    thinking: bool,
    text: bool,
    finished: bool,
    tools: map<int, nat>,
    buffers: map<int, string>)

  const Initial := State([MessageStart], 0, 0, false, false, false, map[], map[])

  function OnReasoning(st: State, reasoning: string): State {
    if reasoning == "" then st else
      var st1 := if st.thinking then st
                 else st.(out := st.out + [BlockStart(st.index, Thinking)], thinking := true);
      st1.(out := st1.out + [BlockDelta(st1.index, ThinkingDelta(reasoning))])
  }

  function OnContent(st: State, content: string): State {
    if content == "" then st else
      var st1 := if !st.text && st.thinking
                 then st.(out := st.out + [BlockStop(st.index)], index := st.index + 1, thinking := false)
                 else st;
      var st2 := if st1.text then st1
                 else st1.(out := st1.out + [BlockStart(st1.index, Text)], text := true);
      st2.(out := st2.out + [BlockDelta(st2.index, TextDelta(content))], tokens := st2.tokens + 1)
  }

  function OpenTool(st: State, t: ToolDelta): State {
    var st1 := if st.text
               then st.(out := st.out + [BlockStop(st.index)], index := st.index + 1, text := false)
               else st;
    var id := if t.id.Some? then Given(t.id.value) else Generated(t.index);
    st1.(out := st1.out + [BlockStart(st1.index, ToolUse(id, t.name))],
         tools := st1.tools[t.index := st1.index],
         buffers := st1.buffers[t.index := ""],
         index := st1.index + 1)
  }

  function OnTool(st: State, t: ToolDelta): (r: State)
    requires st.tools.Keys == st.buffers.Keys
    ensures r.tools.Keys == r.buffers.Keys == st.tools.Keys + {t.index}
  {
    var st1 := if t.index in st.tools then st else OpenTool(st, t);
    if t.args == "" then st1 else
      st1.(out := st1.out + [BlockDelta(st1.tools[t.index], InputJsonDelta(t.args))],
           buffers := st1.buffers[t.index := st1.buffers[t.index] + t.args])
  }

  function OnTools(st: State, ts: seq<ToolDelta>): (r: State)
    requires st.tools.Keys == st.buffers.Keys
    ensures r.tools.Keys == r.buffers.Keys
  {
    if ts == [] then st else OnTool(OnTools(st, ts[..|ts| - 1]), ts[|ts| - 1])
  }

  function ToolStops(tools: map<int, nat>, order: seq<int>): seq<Event>
    requires forall i | 0 <= i < |order| :: order[i] in tools
  {
    if order == [] then []
    else ToolStops(tools, order[..|order| - 1]) + [BlockStop(tools[order[|order| - 1]])]
  }

  function Stops(st: State): seq<Event> {
    (if st.text then [BlockStop(st.index)] else []) + ToolStops(st.tools, Sorted(st.tools.Keys))
  }

  function OnFinish(st: State, finish: string, completionTokens: Option<int>): State {
    if finish == "" then st else
      var tokens := if completionTokens.Some? then completionTokens.value else st.tokens;
      st.(out := st.out + Stops(st) + [MessageDelta(Mapped(finish), tokens)] + [MessageStop], finished := true)
  }

  /** What one line of a chunk does; `finished` is not looked at here. */
  function OnLine(st: State, line: Line): (r: State)
    requires st.tools.Keys == st.buffers.Keys
    ensures r.tools.Keys == r.buffers.Keys
  {
    if line.Skipped? then st else
      var c := line.choice;
      OnFinish(OnTools(OnContent(OnReasoning(st, c.reasoning), c.content), c.tools), c.finish, c.completionTokens)
  }

  function OnLines(st: State, lines: seq<Line>): (r: State)
    requires st.tools.Keys == st.buffers.Keys
    ensures r.tools.Keys == r.buffers.Keys
  {
    if lines == [] then st else OnLine(OnLines(st, lines[..|lines| - 1]), lines[|lines| - 1])
  }

  function OnChunk(st: State, chunk: Chunk): (r: State)
    requires st.tools.Keys == st.buffers.Keys
    ensures r.tools.Keys == r.buffers.Keys
  {
    if st.finished then st else OnLines(st, chunk)
  }

  function OnChunks(st: State, chunks: seq<Chunk>): (r: State)
    requires st.tools.Keys == st.buffers.Keys
    ensures r.tools.Keys == r.buffers.Keys
  {
    if chunks == [] then st else OnChunk(OnChunks(st, chunks[..|chunks| - 1]), chunks[|chunks| - 1])
  }

  function OnEnd(st: State): State {
    if st.finished then st else
      st.(out := st.out + Stops(st) + [MessageDelta(EndTurn, st.tokens)] + [MessageStop])
  }

  /** Everything the generator yields for a whole input stream. */
  function Translate(chunks: seq<Chunk>): seq<Event> {
    OnEnd(OnChunks(Initial, chunks)).out
  }

  lemma SortedKeys(tools: map<int, nat>, order: seq<int>)
    requires order == Sorted(tools.Keys)
    ensures forall i | 0 <= i < |order| :: order[i] in tools
  {
    assert forall i | 0 <= i < |order| :: order[i] in order;
  }

  /** The generator: its local variables are fields, and `out` collects what it yields. */
  class Translator {
    var out: seq<Event>
    var outputTokens: nat
    var contentBlockIndex: nat
    var thinkingBlockStarted: bool
    var textBlockStarted: bool
    var finished: bool
    var activeToolBlocks: map<int, nat>
    var toolArgBuffers: map<int, string>

    ghost function View(): State
      reads this
    {
      State(out, outputTokens, contentBlockIndex, thinkingBlockStarted, textBlockStarted, finished,
            activeToolBlocks, toolArgBuffers)
    }

    ghost predicate Valid()
      reads this
    {
      activeToolBlocks.Keys == toolArgBuffers.Keys
    }

    constructor ()
      ensures Valid() && View() == Initial
    {
      out := [MessageStart];
      outputTokens, contentBlockIndex := 0, 0;
      thinkingBlockStarted, textBlockStarted, finished := false, false, false;
      activeToolBlocks, toolArgBuffers := map[], map[];
    }

    method Yield(e: Event)
      modifies this`out
      ensures out == old(out) + [e]
    {
      out := out + [e];
    }

    method HandleReasoning(reasoning: string)
      requires Valid()
      modifies this
      ensures Valid() && View() == OnReasoning(old(View()), reasoning)
    {
      if reasoning != "" {
        if !thinkingBlockStarted {
          Yield(BlockStart(contentBlockIndex, Thinking));
          thinkingBlockStarted := true;
        }
        Yield(BlockDelta(contentBlockIndex, ThinkingDelta(reasoning)));
      }
    }

    method HandleContent(content: string)
      requires Valid()
      modifies this
      ensures Valid() && View() == OnContent(old(View()), content)
    {
      if content != "" {
        if !textBlockStarted {
          if thinkingBlockStarted {
            Yield(BlockStop(contentBlockIndex));
            contentBlockIndex := contentBlockIndex + 1;
            thinkingBlockStarted := false;
          }
          Yield(BlockStart(contentBlockIndex, Text));
          textBlockStarted := true;
        }
        outputTokens := outputTokens + 1;
        Yield(BlockDelta(contentBlockIndex, TextDelta(content)));
      }
    }

    /** A new tool call: the text block is closed if open, and the call gets the next block. */
    method HandleNewTool(t: ToolDelta)
      requires Valid()
      modifies this
      ensures Valid() && View() == OpenTool(old(View()), t)
    {
      if textBlockStarted {
        Yield(BlockStop(contentBlockIndex));
        contentBlockIndex := contentBlockIndex + 1;
        textBlockStarted := false;
      }
      activeToolBlocks := activeToolBlocks[t.index := contentBlockIndex];
      toolArgBuffers := toolArgBuffers[t.index := ""];
      contentBlockIndex := contentBlockIndex + 1;
      var id := if t.id.Some? then Given(t.id.value) else Generated(t.index);
      Yield(BlockStart(activeToolBlocks[t.index], ToolUse(id, t.name)));
    }

    method HandleTool(t: ToolDelta)
      requires Valid()
      modifies this
      ensures Valid() && View() == OnTool(old(View()), t)
    {
      if t.index !in activeToolBlocks {
        HandleNewTool(t);
      }
      if t.args != "" {
        toolArgBuffers := toolArgBuffers[t.index := toolArgBuffers[t.index] + t.args];
        Yield(BlockDelta(activeToolBlocks[t.index], InputJsonDelta(t.args)));
      }
    }

    method HandleTools(toolCalls: seq<ToolDelta>)
      requires Valid()
      modifies this
      ensures Valid() && View() == OnTools(old(View()), toolCalls)
    {
      for i := 0 to |toolCalls|
        invariant Valid() && View() == OnTools(old(View()), toolCalls[..i])
      {
        assert toolCalls[..i + 1][..i] == toolCalls[..i];
        HandleTool(toolCalls[i]);
      }
      assert toolCalls[..|toolCalls|] == toolCalls;
    }

    method CloseTools(order: seq<int>)
      requires forall i | 0 <= i < |order| :: order[i] in activeToolBlocks
      modifies this`out
      ensures out == old(out) + ToolStops(activeToolBlocks, order)
    {
      for i := 0 to |order|
        invariant out == old(out) + ToolStops(activeToolBlocks, order[..i])
      {
        assert order[..i + 1][..i] == order[..i];
        Yield(BlockStop(activeToolBlocks[order[i]]));
      }
      assert order[..|order|] == order;
    }

    method CloseBlocks()
      requires Valid()
      modifies this`out
      ensures out == old(out) + Stops(old(View()))
    {
      ghost var st := View();
      if textBlockStarted {
        Yield(BlockStop(contentBlockIndex));
      }
      ghost var head := if textBlockStarted then [BlockStop(contentBlockIndex)] else [];
      assert out == old(out) + head;
      var order := Sorted(activeToolBlocks.Keys);
      SortedKeys(st.tools, order);
      CloseTools(order);
      Reassociate(old(out), head, ToolStops(st.tools, order));
    }

    method HandleFinish(finish: string, completionTokens: Option<int>)
      requires Valid()
      modifies this
      ensures Valid() && View() == OnFinish(old(View()), finish, completionTokens)
    {
      if finish != "" {
        CloseBlocks();
        Yield(MessageDelta(Mapped(finish), if completionTokens.Some? then completionTokens.value else outputTokens));
        Yield(MessageStop);
        finished := true;
      }
    }

    /** One line of a chunk. */
    method HandleLine(line: Line)
      requires Valid()
      modifies this
      ensures Valid() && View() == OnLine(old(View()), line)
    {
      if line.Data? {
        var c := line.choice;
        HandleReasoning(c.reasoning);
        HandleContent(c.content);
        HandleTools(c.tools);
        HandleFinish(c.finish, c.completionTokens);
      }
    }

    /** The body of the outer loop: one byte chunk. */
    method Feed(chunk: Chunk)
      requires Valid()
      modifies this
      ensures Valid() && View() == OnChunk(old(View()), chunk)
    {
      if finished {
        return;
      }
      for i := 0 to |chunk|
        invariant Valid() && View() == OnLines(old(View()), chunk[..i])
      {
        assert chunk[..i + 1][..i] == chunk[..i];
        HandleLine(chunk[i]);
      }
      assert chunk[..|chunk|] == chunk;
    }

    method End()
      requires Valid()
      modifies this
      ensures Valid() && View() == OnEnd(old(View()))
    {
      if !finished {
        CloseBlocks();
        Yield(MessageDelta(EndTurn, outputTokens));
        Yield(MessageStop);
      }
    }
  }

  /** The whole generator, run to the end of its input. */
  method StreamEvents(chunks: seq<Chunk>) returns (events: seq<Event>)
    ensures events == Translate(chunks)
  {
    var t := new Translator();
    for i := 0 to |chunks|
      invariant t.Valid() && t.View() == OnChunks(Initial, chunks[..i])
    {
      assert chunks[..i + 1][..i] == chunks[..i];
      t.Feed(chunks[i]);
    }
    assert chunks[..|chunks|] == chunks;
    t.End();
    events := t.out;
  }
}
