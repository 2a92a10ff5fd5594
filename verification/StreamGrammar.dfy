/**
 The output grammar of the stream translator.

 `Check` is an acceptor for Anthropic Messages streams, written without reference to the translator.  `Disciplined`
 looks only at the input.  The two agree: the translator's output is accepted exactly when its input is disciplined.
 */
module StreamGrammar {
  import opened Options
  import opened AnthropicStream
  import opened Sorting

  // ---- Acceptor for event streams ----------------------------------------------------------------------------------

  datatype Phase = Fresh | Body | Closing | Ended

  /** `next` is the number of blocks started, `open` the blocks started and not yet stopped. */
  datatype Checker = Rejected | Checker(phase: Phase, next: nat, open: map<int, Block>)

  predicate Fits(block: Block, delta: Delta) {
    match delta
    case ThinkingDelta(_) => block.Thinking?
    case TextDelta(_) => block.Text?
    case InputJsonDelta(_) => block.ToolUse?
  }

  function Check(c: Checker, e: Event): Checker {
    if c.Rejected? then Rejected else
    match e
    case MessageStart =>
      if c.phase.Fresh? then c.(phase := Body) else Rejected
    case BlockStart(i, b) =>
      if c.phase.Body? && i == c.next then c.(next := c.next + 1, open := c.open[i := b]) else Rejected
    case BlockDelta(i, d) =>
      if c.phase.Body? && i in c.open && Fits(c.open[i], d) then c else Rejected
    case BlockStop(i) =>
      if c.phase.Body? && i in c.open then c.(open := c.open - {i}) else Rejected
    case MessageDelta(_, _) =>
      if c.phase.Body? && c.open == map[] then c.(phase := Closing) else Rejected
    case MessageStop =>
      if c.phase.Closing? then c.(phase := Ended) else Rejected
  }

  function CheckFrom(c: Checker, es: seq<Event>): Checker {
    if es == [] then c else Check(CheckFrom(c, es[..|es| - 1]), es[|es| - 1])
  }

  function CheckAll(es: seq<Event>): Checker {
    CheckFrom(Checker(Fresh, 0, map[]), es)
  }

  predicate Conforms(es: seq<Event>) {
    var c := CheckAll(es);
    c.Checker? && c.phase.Ended?
  }

  lemma {:induction false} CheckAppend(c: Checker, a: seq<Event>, b: seq<Event>)
    ensures CheckFrom(c, a + b) == CheckFrom(CheckFrom(c, a), b)
    decreases |b|
  {
    if b == [] {
      assert a + b == a;
    } else {
      assert (a + b)[..|a + b| - 1] == a + b[..|b| - 1];
      CheckAppend(c, a, b[..|b| - 1]);
    }
  }

  lemma CheckOne(c: Checker, a: seq<Event>, e: Event)
    ensures CheckFrom(c, a + [e]) == Check(CheckFrom(c, a), e)
  {
    assert (a + [e])[..|a + [e]| - 1] == a;
  }

  lemma {:induction false} RejectedForever(es: seq<Event>)
    ensures CheckFrom(Rejected, es) == Rejected
  {
    if es != [] {
      RejectedForever(es[..|es| - 1]);
    }
  }

  // ---- Discipline of the input -------------------------------------------------------------------------------------

  /** Which kind of text the reader is in the middle of. */
  datatype Mode = Neither | InReasoning | InText | Done | Broken

  datatype Reading = Reading(mode: Mode, seen: set<int>)

  function ReadReasoning(r: Reading, reasoning: string): Reading {
    if reasoning == "" then r
    else r.(mode := if r.mode.Neither? || r.mode.InReasoning? then InReasoning else Broken)
  }

  function ReadContent(r: Reading, content: string): Reading {
    if content == "" then r
    else r.(mode := if r.mode.Done? || r.mode.Broken? then Broken else InText)
  }

  function ReadTool(r: Reading, t: ToolDelta): Reading {
    if t.index !in r.seen then
      Reading(if r.mode.Neither? || r.mode.InText? then Neither else Broken, r.seen + {t.index})
    else if t.args == "" then r
    else r.(mode := if r.mode.Done? then Broken else r.mode)
  }

  function ReadTools(r: Reading, ts: seq<ToolDelta>): Reading {
    if ts == [] then r else ReadTool(ReadTools(r, ts[..|ts| - 1]), ts[|ts| - 1])
  }

  function ReadFinish(r: Reading, finish: string): Reading {
    if finish == "" then r
    else r.(mode := if r.mode.Neither? || r.mode.InText? then Done else Broken)
  }

  function ReadLine(r: Reading, line: Line): Reading {
    if line.Skipped? then r else
      var c := line.choice;
      ReadFinish(ReadTools(ReadContent(ReadReasoning(r, c.reasoning), c.content), c.tools), c.finish)
  }

  function ReadLines(r: Reading, lines: seq<Line>): Reading {
    if lines == [] then r else ReadLine(ReadLines(r, lines[..|lines| - 1]), lines[|lines| - 1])
  }

  function ReadChunks(chunks: seq<Chunk>): Reading {
    if chunks == [] then Reading(Neither, {}) else
      var r := ReadChunks(chunks[..|chunks| - 1]);
      if r.mode.Done? || r.mode.Broken? then r else ReadLines(r, chunks[|chunks| - 1])
  }

  /**
   No reasoning while text is being streamed, every run of reasoning followed by text before a new tool call, the finish
   or the end, and nothing that says anything after the finish line within its own chunk.
   */
  predicate Disciplined(chunks: seq<Chunk>) {
    var m := ReadChunks(chunks).mode;
    m.Neither? || m.InText? || m.Done?
  }

  // ---- Simulation --------------------------------------------------------------------------------------------------

  ghost function ToolIndices(tools: map<int, nat>): set<int> {
    set t | t in tools :: tools[t] as int
  }

  ghost predicate AllTools(open: map<int, Block>, indices: set<int>) {
    forall i | i in indices :: i in open && open[i].ToolUse?
  }

  /** What the translator's variables and the acceptor's agree on while the input is in `mode`. */
  ghost predicate Agrees(st: State, mode: Mode, c: Checker) {
    match mode
    case Broken => c.Rejected?
    case Done => c.Checker? && c.phase.Ended? && st.finished
    case _ =>
      && c.Checker? && c.phase.Body? && !st.finished
      && st.thinking == mode.InReasoning? && st.text == mode.InText?
      && (forall i | i in ToolIndices(st.tools) :: i < st.index)
      && AllTools(c.open, ToolIndices(st.tools))
      && (mode.Neither? ==> c.next == st.index && c.open.Keys == ToolIndices(st.tools))
      && (!mode.Neither? ==> c.next == st.index + 1 && c.open.Keys == ToolIndices(st.tools) + {st.index as int}
                             && c.open[st.index] == if mode.InText? then Text else Thinking)
  }

  lemma AgreesReasoning(st: State, r: Reading, reasoning: string, c: Checker)
    requires Agrees(st, r.mode, c) && reasoning != ""
    ensures
      var c1 := if st.thinking then c else Check(c, BlockStart(st.index, Thinking));
      Agrees(OnReasoning(st, reasoning), ReadReasoning(r, reasoning).mode,
             Check(c1, BlockDelta(st.index, ThinkingDelta(reasoning))))
  {
  }

  lemma AgreesContent(st: State, r: Reading, content: string, c: Checker)
    requires Agrees(st, r.mode, c) && content != ""
    ensures
      var closing := !st.text && st.thinking;
      var i := if closing then st.index + 1 else st.index;
      var c1 := if closing then Check(c, BlockStop(st.index)) else c;
      var c2 := if st.text then c1 else Check(c1, BlockStart(i, Text));
      Agrees(OnContent(st, content), ReadContent(r, content).mode, Check(c2, BlockDelta(i, TextDelta(content))))
  {
  }

  function OpenedAt(st: State): nat {
    if st.text then st.index + 1 else st.index
  }

  function ToolBlock(t: ToolDelta): Block {
    ToolUse(if t.id.Some? then Given(t.id.value) else Generated(t.index), t.name)
  }

  lemma AgreesOpenTool(st: State, r: Reading, t: ToolDelta, c: Checker)
    requires Agrees(st, r.mode, c) && t.index !in st.tools && t.index !in r.seen
    ensures
      var c1 := if st.text then Check(c, BlockStop(st.index)) else c;
      Agrees(OpenTool(st, t), ReadTool(r, t).mode, Check(c1, BlockStart(OpenedAt(st), ToolBlock(t))))
  {
    var tools := st.tools[t.index := OpenedAt(st)];
    assert ToolIndices(tools) == ToolIndices(st.tools) + {OpenedAt(st) as int} by {
      assert t.index in tools;
      assert forall u | u in st.tools :: u in tools && tools[u] == st.tools[u];
    }
  }

  lemma AgreesToolArgs(st: State, mode: Mode, t: ToolDelta, c: Checker)
    requires Agrees(st, mode, c) && t.index in st.tools && t.index in st.buffers
    ensures
      var st1 := st.(out := st.out + [BlockDelta(st.tools[t.index], InputJsonDelta(t.args))],
                     buffers := st.buffers[t.index := st.buffers[t.index] + t.args]);
      Agrees(st1, if mode.Done? then Broken else mode, Check(c, BlockDelta(st.tools[t.index], InputJsonDelta(t.args))))
  {
    assert st.tools[t.index] in ToolIndices(st.tools);
  }

  ghost function Stopped(tools: map<int, nat>, order: seq<int>): set<int>
    requires forall i | 0 <= i < |order| :: order[i] in tools
  {
    if order == [] then {} else Stopped(tools, order[..|order| - 1]) + {tools[order[|order| - 1]] as int}
  }

  lemma {:induction false} StoppedHas(tools: map<int, nat>, order: seq<int>, i: nat)
    requires forall k | 0 <= k < |order| :: order[k] in tools
    requires i < |order|
    ensures tools[order[i]] as int in Stopped(tools, order)
  {
    var n := |order| - 1;
    if i < n {
      StoppedHas(tools, order[..n], i);
    }
  }

  lemma {:induction false} StoppedWithin(tools: map<int, nat>, order: seq<int>)
    requires forall k | 0 <= k < |order| :: order[k] in tools
    ensures Stopped(tools, order) <= ToolIndices(tools)
  {
    if order != [] {
      var t := order[|order| - 1];
      StoppedWithin(tools, order[..|order| - 1]);
      assert t in tools && tools[t] as int in ToolIndices(tools);
    }
  }

  ghost predicate Injective(tools: map<int, nat>) {
    forall t, u | t in tools && u in tools && t != u :: tools[t] != tools[u]
  }

  lemma {:induction false} StoppedNot(tools: map<int, nat>, order: seq<int>, t: int)
    requires Injective(tools) && t in tools && t !in order && forall k | 0 <= k < |order| :: order[k] in tools
    ensures tools[t] as int !in Stopped(tools, order)
  {
    if order != [] {
      var n := |order| - 1;
      StoppedNot(tools, order[..n], t);
      assert order[n] in order && order[n] != t;
      assert tools[order[n]] != tools[t];
    }
  }

  /** Stopping the tool blocks of distinct calls, in any order, leaves exactly the other blocks open. */
  lemma {:induction false} ToolStopsClose(c: Checker, tools: map<int, nat>, order: seq<int>)
    requires c.Checker? && c.phase.Body? && Injective(tools)
    requires forall i | 0 <= i < |order| :: order[i] in tools && tools[order[i]] as int in c.open
    requires forall i, j | 0 <= i < j < |order| :: order[i] != order[j]
    ensures CheckFrom(c, ToolStops(tools, order)) == c.(open := c.open - Stopped(tools, order))
  {
    if order == [] {
      assert c.open - {} == c.open;
    } else {
      var n := |order| - 1;
      ToolStopsClose(c, tools, order[..n]);
      CheckOne(c, ToolStops(tools, order[..n]), BlockStop(tools[order[n]]));
      StoppedNot(tools, order[..n], order[n]);
      var i := tools[order[n]] as int;
      assert (c.open - Stopped(tools, order[..n])) - {i} == c.open - Stopped(tools, order);
    }
  }

  lemma SortedInTools(tools: map<int, nat>, order: seq<int>)
    requires order == Sorted(tools.Keys)
    ensures forall i | 0 <= i < |order| :: order[i] in tools && tools[order[i]] as int in ToolIndices(tools)
    ensures forall t | t in tools :: exists i | 0 <= i < |order| :: order[i] == t
  {
    assert forall i | 0 <= i < |order| :: order[i] in order;
    assert forall t | t in tools :: t in order;
  }

  lemma SortedCoversTools(tools: map<int, nat>, order: seq<int>)
    requires order == Sorted(tools.Keys)
    requires forall i | 0 <= i < |order| :: order[i] in tools
    ensures Stopped(tools, order) == ToolIndices(tools)
  {
    StoppedWithin(tools, order);
    forall x | x in ToolIndices(tools) ensures x in Stopped(tools, order) {
      var t :| t in tools && tools[t] as int == x;
      assert t in order;
      var i :| 0 <= i < |order| && order[i] == t;
      StoppedHas(tools, order, i);
    }
  }

  function CloseText(st: State, c: Checker): Checker {
    if st.text then Check(c, BlockStop(st.index)) else c
  }

  lemma StopsSplit(st: State, c: Checker)
    ensures forall i | 0 <= i < |Sorted(st.tools.Keys)| :: Sorted(st.tools.Keys)[i] in st.tools
    ensures CheckFrom(c, Stops(st)) == CheckFrom(CloseText(st, c), ToolStops(st.tools, Sorted(st.tools.Keys)))
  {
    SortedInTools(st.tools, Sorted(st.tools.Keys));
    var head: seq<Event> := if st.text then [BlockStop(st.index)] else [];
    CheckAppend(c, head, ToolStops(st.tools, Sorted(st.tools.Keys)));
    CheckOne(c, [], BlockStop(st.index));
    assert [] + [BlockStop(st.index)] == [BlockStop(st.index)];
  }

  lemma LastBlock(st: State, mode: Mode, c: Checker)
    requires Agrees(st, mode, c)
    requires mode.Neither? || mode.InText? || mode.InReasoning?
    ensures CloseText(st, c).Checker?
    ensures CloseText(st, c).open - ToolIndices(st.tools)
         == if mode.InReasoning? then map[st.index as int := Thinking] else map[]
  {
  }

  /** After all the stops, only a thinking block can still be open. */
  lemma StopsClose(st: State, mode: Mode, c: Checker)
    requires Agrees(st, mode, c) && Injective(st.tools)
    requires mode.Neither? || mode.InText? || mode.InReasoning?
    ensures CheckFrom(c, Stops(st)) == c.(open := if mode.InReasoning? then map[st.index as int := Thinking] else map[])
  {
    StopsSplit(st, c);
    var order, c1 := Sorted(st.tools.Keys), CloseText(st, c);
    SortedInTools(st.tools, order);
    SortedCoversTools(st.tools, order);
    assert c1.Checker? && ToolIndices(st.tools) <= c1.open.Keys;
    ToolStopsClose(c1, st.tools, order);
    LastBlock(st, mode, c);
  }

  lemma {:induction false} EndedOnlyOnce(c: Checker, es: seq<Event>)
    requires c.Checker? && c.phase.Ended?
    ensures CheckFrom(c, es) == if es == [] then c else Rejected
  {
    if es != [] {
      EndedOnlyOnce(c, es[..|es| - 1]);
    }
  }

  /** The finish sequence is accepted exactly when no thinking block is open. */
  lemma FinishCheck(st: State, mode: Mode, c: Checker, stop: StopReason, tokens: int)
    requires Agrees(st, mode, c) && Injective(st.tools)
    ensures
      var c1 := Check(Check(CheckFrom(c, Stops(st)), MessageDelta(stop, tokens)), MessageStop);
      if mode.Neither? || mode.InText? then c1.Checker? && c1.phase.Ended? else c1.Rejected?
  {
    if mode.Broken? {
      RejectedForever(Stops(st));
    } else if mode.Done? {
      EndedOnlyOnce(c, Stops(st));
    } else {
      StopsClose(st, mode, c);
      assert st.index as int in map[st.index as int := Thinking];
    }
  }

  /** What holds of the tool map on every input: distinct calls have distinct block indices, all of them used up. */
  ghost predicate Tidy(st: State) {
    && st.tools.Keys == st.buffers.Keys
    && Injective(st.tools)
    && forall t | t in st.tools :: st.tools[t] < st.index
  }

  ghost predicate Sim(st: State, r: Reading) {
    && Tidy(st)
    && (!r.mode.Broken? ==> r.seen == st.tools.Keys)
    && Agrees(st, r.mode, CheckAll(st.out))
  }

  const Start := Checker(Fresh, 0, map[])

  lemma SimReasoning(st: State, r: Reading, reasoning: string)
    requires Sim(st, r)
    ensures Sim(OnReasoning(st, reasoning), ReadReasoning(r, reasoning))
  {
    if reasoning != "" {
      AgreesReasoning(st, r, reasoning, CheckAll(st.out));
      var start, delta := BlockStart(st.index, Thinking), BlockDelta(st.index, ThinkingDelta(reasoning));
      var out := if st.thinking then st.out else st.out + [start];
      CheckOne(Start, st.out, start);
      CheckOne(Start, out, delta);
      assert OnReasoning(st, reasoning).out == out + [delta];
    }
  }

  lemma SimContent(st: State, r: Reading, content: string)
    requires Sim(st, r)
    ensures Sim(OnContent(st, content), ReadContent(r, content))
  {
    if content != "" {
      AgreesContent(st, r, content, CheckAll(st.out));
      var closing := !st.text && st.thinking;
      var i := if closing then st.index + 1 else st.index;
      var out1 := if closing then st.out + [BlockStop(st.index)] else st.out;
      var out2 := if st.text then out1 else out1 + [BlockStart(i, Text)];
      CheckOne(Start, st.out, BlockStop(st.index));
      CheckOne(Start, out1, BlockStart(i, Text));
      CheckOne(Start, out2, BlockDelta(i, TextDelta(content)));
      assert OnContent(st, content).out == out2 + [BlockDelta(i, TextDelta(content))];
    }
  }

  lemma TidyOpenTool(st: State, t: ToolDelta)
    requires Tidy(st) && t.index !in st.tools
    ensures Tidy(OpenTool(st, t))
  {
  }

  lemma SimOpenTool(st: State, r: Reading, t: ToolDelta)
    requires Sim(st, r) && t.index !in st.tools
    ensures Sim(OpenTool(st, t), if r.mode.Broken? then r else ReadTool(r, t))
  {
    TidyOpenTool(st, t);
    var out := if st.text then st.out + [BlockStop(st.index)] else st.out;
    var start := BlockStart(OpenedAt(st), ToolBlock(t));
    CheckOne(Start, st.out, BlockStop(st.index));
    CheckOne(Start, out, start);
    assert OpenTool(st, t).out == out + [start];
    if !r.mode.Broken? {
      AgreesOpenTool(st, r, t, CheckAll(st.out));
    }
  }

  lemma SimTool(st: State, r: Reading, t: ToolDelta)
    requires Sim(st, r)
    ensures Sim(OnTool(st, t), ReadTool(r, t))
  {
    var st1 := if t.index in st.tools then st else OpenTool(st, t);
    var mode1 := if t.index in st.tools then r.mode else if r.mode.Broken? then Broken else ReadTool(r, t).mode;
    if t.index !in st.tools {
      SimOpenTool(st, r, t);
    }
    assert Agrees(st1, mode1, CheckAll(st1.out));
    if t.args != "" {
      AgreesToolArgs(st1, mode1, t, CheckAll(st1.out));
      CheckOne(Start, st1.out, BlockDelta(st1.tools[t.index], InputJsonDelta(t.args)));
    }
  }

  lemma {:induction false} SimTools(st: State, r: Reading, ts: seq<ToolDelta>)
    requires Sim(st, r)
    ensures Sim(OnTools(st, ts), ReadTools(r, ts))
  {
    if ts != [] {
      SimTools(st, r, ts[..|ts| - 1]);
      SimTool(OnTools(st, ts[..|ts| - 1]), ReadTools(r, ts[..|ts| - 1]), ts[|ts| - 1]);
    }
  }

  lemma CheckFinish(es: seq<Event>, stops: seq<Event>, stop: StopReason, tokens: int)
    ensures CheckAll(es + stops + [MessageDelta(stop, tokens)] + [MessageStop])
         == Check(Check(CheckFrom(CheckAll(es), stops), MessageDelta(stop, tokens)), MessageStop)
  {
    CheckAppend(Start, es, stops);
    CheckOne(Start, es + stops, MessageDelta(stop, tokens));
    CheckOne(Start, es + stops + [MessageDelta(stop, tokens)], MessageStop);
  }

  lemma SimFinish(st: State, r: Reading, finish: string, completionTokens: Option<int>)
    requires Sim(st, r)
    ensures Sim(OnFinish(st, finish, completionTokens), ReadFinish(r, finish))
  {
    if finish != "" {
      var tokens := if completionTokens.Some? then completionTokens.value else st.tokens;
      FinishCheck(st, r.mode, CheckAll(st.out), Mapped(finish), tokens);
      CheckFinish(st.out, Stops(st), Mapped(finish), tokens);
    }
  }

  lemma SimLine(st: State, r: Reading, line: Line)
    requires Sim(st, r)
    ensures Sim(OnLine(st, line), ReadLine(r, line))
  {
    if line.Data? {
      var c := line.choice;
      var st1, r1 := OnReasoning(st, c.reasoning), ReadReasoning(r, c.reasoning);
      SimReasoning(st, r, c.reasoning);
      var st2, r2 := OnContent(st1, c.content), ReadContent(r1, c.content);
      SimContent(st1, r1, c.content);
      SimTools(st2, r2, c.tools);
      SimFinish(OnTools(st2, c.tools), ReadTools(r2, c.tools), c.finish, c.completionTokens);
    }
  }

  lemma {:induction false} SimLines(st: State, r: Reading, lines: seq<Line>)
    requires Sim(st, r)
    ensures Sim(OnLines(st, lines), ReadLines(r, lines))
  {
    if lines != [] {
      SimLines(st, r, lines[..|lines| - 1]);
      SimLine(OnLines(st, lines[..|lines| - 1]), ReadLines(r, lines[..|lines| - 1]), lines[|lines| - 1]);
    }
  }

  /** Once a reading is broken, so is the output, whatever follows. */
  lemma {:induction false} BrokenStays(r: Reading, lines: seq<Line>)
    requires r.mode.Broken?
    ensures ReadLines(r, lines).mode.Broken?
  {
    if lines != [] {
      BrokenStays(r, lines[..|lines| - 1]);
      var r1 := ReadLines(r, lines[..|lines| - 1]);
      if lines[|lines| - 1].Data? {
        var c := lines[|lines| - 1].choice;
        BrokenTools(ReadContent(ReadReasoning(r1, c.reasoning), c.content), c.tools);
      }
    }
  }

  lemma {:induction false} BrokenTools(r: Reading, ts: seq<ToolDelta>)
    requires r.mode.Broken?
    ensures ReadTools(r, ts).mode.Broken?
  {
    if ts != [] {
      BrokenTools(r, ts[..|ts| - 1]);
    }
  }

  lemma {:induction false} SimChunks(chunks: seq<Chunk>)
    ensures Sim(OnChunks(Initial, chunks), ReadChunks(chunks)) 
  {
    if chunks == [] {
      CheckOne(Start, [], MessageStart);
      assert [] + [MessageStart] == [MessageStart];
      assert ToolIndices(Initial.tools) == {};
    } else {
      var n := |chunks| - 1;
      SimChunks(chunks[..n]);
      var st, r := OnChunks(Initial, chunks[..n]), ReadChunks(chunks[..n]);
      if !st.finished {
        SimLines(st, r, chunks[n]);
        if r.mode.Broken? {
          BrokenStays(r, chunks[n]);
        }
      }
    }
  }

  /** The output is well formed exactly when the input is disciplined. */
  lemma OutputGrammar(chunks: seq<Chunk>)
    ensures Conforms(Translate(chunks)) <==> Disciplined(chunks)
  {
    SimChunks(chunks);
    var st, r := OnChunks(Initial, chunks), ReadChunks(chunks);
    if !st.finished {
      FinishCheck(st, r.mode, CheckAll(st.out), EndTurn, st.tokens);
      CheckFinish(st.out, Stops(st), EndTurn, st.tokens);
    }
  }
}
