/**
 How the stream translator closes a message: which stops come right before each message_delta, and in which order.
 Nothing here assumes that the input is disciplined.
 */
module StreamStops {
  import opened Options
  import opened Sequences
  import opened AnthropicStream
  import opened StreamGrammar
  import opened StreamContent
  import opened StreamCalls

  // ---- What is open, by the input ----------------------------------------------------------------------------------

  predicate HasContent(line: Line) {
    line.Data? && line.choice.content != ""
  }

  /** Line `i` has content, and there has been no new call since, in that line or later. */
  predicate LastContent(lines: seq<Line>, i: nat) {
    i < |lines| && HasContent(lines[i]) && ToolsIn(lines[..i]) == ToolsIn(lines)
  }

  predicate TextOpen(lines: seq<Line>) {
    exists i: nat | i < |lines| :: LastContent(lines, i)
  }

  predicate StartsText(e: Event) {
    e.BlockStart? && e.block.Text?
  }

  /** The last text block started in `es` has index `i`. */
  predicate LastText(es: seq<Event>, i: int) {
    exists j | 0 <= j < |es| :: es[j] == BlockStart(i, Text) && forall k | j < k < |es| :: !StartsText(es[k])
  }

  // ---- What the stops are ------------------------------------------------------------------------------------------

  /** `stop` stops the block that was started for call `t`; the `m`-th start belongs to the `m`-th first delta. */
  predicate StopsCall(stop: Event, t: int, firsts: seq<ToolDelta>, starts: seq<Event>) {
    exists m | 0 <= m < |firsts| && m < |starts| ::
      firsts[m].index == t && starts[m].BlockStart? && stop == BlockStop(starts[m].index)
  }

  predicate StopsCallAt(stops: seq<Event>, order: seq<int>, k: nat, firsts: seq<ToolDelta>, starts: seq<Event>) {
    k < |order| && k < |stops| && StopsCall(stops[k], order[k], firsts, starts)
  }

  /** One stop for each of the calls, in strictly ascending order of the calls. */
  ghost predicate StopsInOrder(stops: seq<Event>, order: seq<int>, calls: set<int>, firsts: seq<ToolDelta>,
                               starts: seq<Event>) {
    && |order| == |stops|
    && (forall i, j | 0 <= i < j < |order| :: order[i] < order[j])
    && (forall t :: t in order <==> t in calls)
    && forall k | 0 <= k < |order| :: StopsCallAt(stops, order, k, firsts, starts)
  }

  /** There is a last event, and it is not a stop. */
  predicate EndsPlain(es: seq<Event>) {
    es != [] && !es[|es| - 1].BlockStop?
  }

  /** If a text block is open, the first stop is that of the last text block. */
  predicate StopsText(before: seq<Event>, stops: seq<Event>, open: bool) {
    open ==> stops != [] && stops[0].BlockStop? && LastText(before, stops[0].index)
  }

  /** The stop of the text block if one is open, and then those of all calls, ascending. */
  ghost predicate ClosesAll(before: seq<Event>, stops: seq<Event>, lines: seq<Line>) {
    && EndsPlain(before)
    && StopsText(before, stops, TextOpen(lines))
    && var rest := if TextOpen(lines) then stops[1..] else stops;
       exists order :: StopsInOrder(rest, order, ToolsIn(lines), FirstDeltas(lines), Only(before, ToolStarts))
  }

  /**
   At position `p`, for the finish line at position `n`, the message is closed: all stops, and right after them `p`.
   */
  ghost predicate ClosedFor(es: seq<Event>, p: nat, lines: seq<Line>, q: nat, n: nat) {
    q <= p < |es| && n < |lines| && IsFinish(lines[n]) && ClosesAll(es[..q], es[q..p], lines[..n + 1])
  }

  ghost predicate ClosedAt(es: seq<Event>, p: nat, lines: seq<Line>) {
    exists q: nat, n: nat :: ClosedFor(es, p, lines, q, n)
  }

  predicate Ends(es: seq<Event>, p: nat) {
    p < |es| && es[p].MessageDelta?
  }

  ghost predicate ClosedEverywhere(es: seq<Event>, lines: seq<Line>) {
    forall p: nat | Ends(es, p) :: ClosedAt(es, p, lines)
  }

  lemma ClosedLater(es: seq<Event>, es1: seq<Event>, p: nat, lines: seq<Line>, lines1: seq<Line>)
    requires ClosedAt(es, p, lines) && es <= es1 && lines <= lines1
    ensures ClosedAt(es1, p, lines1)
  {
    var q: nat, n: nat :| ClosedFor(es, p, lines, q, n);
    assert es1[..q] == es[..q] && es1[q..p] == es[q..p] && lines1[..n + 1] == lines[..n + 1];
    assert ClosedFor(es1, p, lines1, q, n);
  }

  /** More events without a message_delta change nothing. */
  lemma ClosedMore(es: seq<Event>, es1: seq<Event>, lines: seq<Line>, lines1: seq<Line>)
    requires ClosedEverywhere(es, lines) && es <= es1 && lines <= lines1
    requires forall k | |es| <= k < |es1| :: !es1[k].MessageDelta?
    ensures ClosedEverywhere(es1, lines1)
  {
    forall p: nat | Ends(es1, p) ensures ClosedAt(es1, p, lines1) {
      assert Ends(es, p);
      ClosedLater(es, es1, p, lines, lines1);
    }
  }

  // ---- The stops of a state ----------------------------------------------------------------------------------------

  /** The last event is not a stop; an open text block is the last that was started. */
  ghost predicate Steady(st: State) {
    && EndsPlain(st.out)
    && (st.text ==> LastText(st.out, st.index))
  }

  lemma {:induction false} ToolStopsAre(tools: map<int, nat>, order: seq<int>)
    requires forall i | 0 <= i < |order| :: order[i] in tools
    ensures |ToolStops(tools, order)| == |order|
    ensures forall k | 0 <= k < |order| :: ToolStops(tools, order)[k] == BlockStop(tools[order[k]])
  {
    if order != [] {
      ToolStopsAre(tools, order[..|order| - 1]);
    }
  }

  lemma {:induction false} StartOf(ds: seq<ToolDelta>, blocks: map<int, nat>, t: int) returns (m: nat)
    requires Indices(ds) <= blocks.Keys && t in Indices(ds)
    ensures m < |ds| == |StartsFor(ds, blocks)| && ds[m].index == t
    ensures StartsFor(ds, blocks)[m] == BlockStart(blocks[t], ToolBlock(ds[m]))
  {
    var n := |ds| - 1;
    if ds[n].index == t {
      StartsForLength(ds, blocks);
      m := n;
    } else {
      StartsForLength(ds, blocks);
      m := StartOf(ds[..n], blocks, t);
    }
  }

  lemma {:induction false} StartsForLength(ds: seq<ToolDelta>, blocks: map<int, nat>)
    requires Indices(ds) <= blocks.Keys
    ensures |StartsFor(ds, blocks)| == |ds|
  {
    if ds != [] {
      StartsForLength(ds[..|ds| - 1], blocks);
    }
  }

  lemma ToolStopsInOrder(st: State, ds: seq<ToolDelta>)
    requires Started(st, ds)
    ensures
      var order := Sorting.Sorted(st.tools.Keys);
      && (forall i | 0 <= i < |order| :: order[i] in st.tools)
      && StopsInOrder(ToolStops(st.tools, order), order, st.tools.Keys, ds, Only(st.out, ToolStarts))
  {
    var order := Sorting.Sorted(st.tools.Keys);
    SortedKeys(st.tools, order);
    ToolStopsAre(st.tools, order);
    var stops := ToolStops(st.tools, order);
    forall k | 0 <= k < |order| ensures StopsCallAt(stops, order, k, ds, Only(st.out, ToolStarts)) {
      var m := StartOf(ds, st.tools, order[k]);
      assert ds[m].index == order[k];
    }
  }

  lemma AllStops(st: State, lines: seq<Line>)
    requires Started(st, FirstDeltas(lines)) && Steady(st)
    requires st.tools.Keys == ToolsIn(lines) && (st.text <==> TextOpen(lines))
    ensures ClosesAll(st.out, Stops(st), lines)
  {
    var order := Sorting.Sorted(st.tools.Keys);
    ToolStopsInOrder(st, FirstDeltas(lines));
    StopsParts(st);
  }

  lemma StopsParts(st: State)
    ensures
      var order := Sorting.Sorted(st.tools.Keys);
      && (forall i | 0 <= i < |order| :: order[i] in st.tools)
      && (st.text ==> Stops(st) != [] && Stops(st)[0] == BlockStop(st.index))
      && (if st.text then Stops(st)[1..] else Stops(st)) == ToolStops(st.tools, order)
  {
    SortedKeys(st.tools, Sorting.Sorted(st.tools.Keys));
  }

  // ---- One line ----------------------------------------------------------------------------------------------------

  /** From `st` to `st1` events are added, none of them a message_delta. */
  ghost predicate Goes(st: State, st1: State) {
    && st.out <= st1.out && (forall k | |st.out| <= k < |st1.out| :: !st1.out[k].MessageDelta?)
    && (Steady(st) ==> Steady(st1))
  }

  lemma LastTextMore(es: seq<Event>, e: Event, i: int)
    ensures LastText(es, i) && !StartsText(e) ==> LastText(es + [e], i)
    ensures e == BlockStart(i, Text) ==> LastText(es + [e], i)
  {
    var all := es + [e];
    if LastText(es, i) && !StartsText(e) {
      var j :| 0 <= j < |es| && es[j] == BlockStart(i, Text) && forall k | j < k < |es| :: !StartsText(es[k]);
      assert all[j] == es[j] && forall k | j < k < |all| :: !StartsText(all[k]);
    }
    if e == BlockStart(i, Text) {
      assert all[|es|] == e;
    }
  }

  lemma GoesReasoning(st: State, s: string)
    ensures Goes(st, OnReasoning(st, s)) && OnReasoning(st, s).text == st.text
  {
    if s != "" {
      var start := BlockStart(st.index, Thinking);
      LastTextMore(st.out, start, st.index);
      LastTextMore(if st.thinking then st.out else st.out + [start], BlockDelta(st.index, ThinkingDelta(s)), st.index);
    }
  }

  lemma GoesContent(st: State, s: string)
    ensures Goes(st, OnContent(st, s)) && (OnContent(st, s).text <==> st.text || s != "")
  {
    if s != "" {
      var closing := !st.text && st.thinking;
      var i := if closing then st.index + 1 else st.index;
      var out1 := if closing then st.out + [BlockStop(st.index)] else st.out;
      var out2 := if st.text then out1 else out1 + [BlockStart(i, Text)];
      LastTextMore(out1, BlockStart(i, Text), i);
      LastTextMore(out2, BlockDelta(i, TextDelta(s)), i);
      assert OnContent(st, s).out == out2 + [BlockDelta(i, TextDelta(s))] && OnContent(st, s).index == i;
      assert forall k | |st.out| <= k < |out2| :: !out2[k].MessageDelta?;
    }
  }

  lemma GoesTool(st: State, t: ToolDelta)
    requires st.tools.Keys == st.buffers.Keys
    ensures Goes(st, OnTool(st, t)) && (OnTool(st, t).text <==> st.text && t.index in st.tools)
  {
    if t.index in st.tools {
      LastTextMore(st.out, BlockDelta(st.tools[t.index], InputJsonDelta(t.args)), st.index);
    }
  }

  lemma GoesBoth(a: State, b: State, c: State)
    requires Goes(a, b) && Goes(b, c)
    ensures Goes(a, c)
  {
  }

  lemma {:induction false} GoesTools(st: State, ts: seq<ToolDelta>)
    requires st.tools.Keys == st.buffers.Keys
    ensures Goes(st, OnTools(st, ts)) && OnTools(st, ts).tools.Keys == st.tools.Keys + ToolsOf(ts)
    ensures OnTools(st, ts).text <==> st.text && ToolsOf(ts) <= st.tools.Keys
  {
    if ts != [] {
      var init, t := ts[..|ts| - 1], ts[|ts| - 1];
      GoesTools(st, init);
      ToolsOfOne(ts);
      GoesTool(OnTools(st, init), t);
      GoesBoth(st, OnTools(st, init), OnTools(st, ts));
    } else {
      assert ToolsOf(ts) == {};
    }
  }

  lemma {:induction false} ToolsGrow(lines: seq<Line>, i: nat)
    requires i <= |lines|
    ensures ToolsIn(lines[..i]) <= ToolsIn(lines)
    decreases |lines|
  {
    if i < |lines| {
      ToolsGrow(lines[..|lines| - 1], i);
      assert lines[..|lines| - 1][..i] == lines[..i];
    } else {
      assert lines[..i] == lines;
    }
  }

  /** One more line leaves the text open, or opens it, unless it has a new call. */
  lemma TextOpenMore(lines: seq<Line>, line: Line)
    ensures TextOpen(lines + [line])
            <==> (TextOpen(lines) || HasContent(line)) && ToolsIn(lines + [line]) == ToolsIn(lines)
  {
    var all := lines + [line];
    assert all[..|lines|] == lines;
    if TextOpen(all) {
      var i: nat :| i < |all| && LastContent(all, i);
      LastContentMore(lines, line, i);
      ToolsGrow(all, |lines|);
      ToolsGrow(all, i);
      assert i < |lines| ==> TextOpen(lines);
    }
    if TextOpen(lines) && ToolsIn(all) == ToolsIn(lines) {
      var i: nat :| i < |lines| && LastContent(lines, i);
      LastContentMore(lines, line, i);
    }
    LastContentMore(lines, line, |lines|);
  }

  lemma LastContentMore(lines: seq<Line>, line: Line, i: nat)
    requires i <= |lines|
    ensures
      var all := lines + [line];
      if i < |lines| then
        && (LastContent(all, i) ==> LastContent(lines, i) && ToolsIn(all) == ToolsIn(lines))
        && (LastContent(lines, i) && ToolsIn(all) == ToolsIn(lines) ==> LastContent(all, i))
      else LastContent(all, i) <==> HasContent(line) && ToolsIn(all) == ToolsIn(lines)
  {
    var all := lines + [line];
    assert all[..i] == lines[..i] && all[..|lines|] == lines;
    assert i < |lines| ==> all[i] == lines[i];
    ToolsGrow(lines, i);
    ToolsGrow(all, |lines|);
  }

  /** What the state and its output agree on once the lines have been handled. */
  ghost predicate Closing(st: State, lines: seq<Line>) {
    && st.tools.Keys == st.buffers.Keys == ToolsIn(lines) && (st.text <==> TextOpen(lines))
    && Steady(st) && ClosedEverywhere(st.out, lines)
  }

  /** The state of a line before its finish reason is looked at. */
  function Unfinished(st: State, c: Choice): (r: State)
    requires st.tools.Keys == st.buffers.Keys
    ensures r.tools.Keys == r.buffers.Keys
  {
    OnTools(OnContent(OnReasoning(st, c.reasoning), c.content), c.tools)
  }

  lemma LineGoes(st: State, c: Choice)
    requires st.tools.Keys == st.buffers.Keys
    ensures Goes(st, Unfinished(st, c)) && Unfinished(st, c).tools.Keys == st.tools.Keys + ToolsOf(c.tools)
    ensures Unfinished(st, c).text <==> (st.text || c.content != "") && ToolsOf(c.tools) <= st.tools.Keys
  {
    var st1 := OnReasoning(st, c.reasoning);
    var st2 := OnContent(st1, c.content);
    GoesReasoning(st, c.reasoning);
    GoesContent(st1, c.content);
    GoesTools(st2, c.tools);
    GoesBoth(st, st1, st2);
    GoesBoth(st, st2, Unfinished(st, c));
  }

  lemma ClosingUnfinished(st: State, lines: seq<Line>, c: Choice)
    requires Closing(st, lines)
    ensures Closing(Unfinished(st, c), lines + [Data(c)])
  {
    var all, st1 := lines + [Data(c)], Unfinished(st, c);
    assert all[..|all| - 1] == lines;
    LineGoes(st, c);
    TextOpenMore(lines, Data(c));
    ClosedMore(st.out, st1.out, lines, all);
  }

  lemma ClosingFinish(st: State, lines: seq<Line>, finish: string, completionTokens: Option<int>)
    requires Closing(st, lines) && Started(st, FirstDeltas(lines))
    requires finish != "" ==> lines != [] && IsFinish(lines[|lines| - 1])
    ensures Closing(OnFinish(st, finish, completionTokens), lines)
  {
    if finish != "" {
      var tokens := if completionTokens.Some? then completionTokens.value else st.tokens;
      AllStops(st, lines);
      StopsAreStops(st);
      ClosedByFinish(st.out, Stops(st), Mapped(finish), tokens, lines);
      SteadyEnd(st, Mapped(finish), tokens);
    }
  }

  predicate AllBlockStops(es: seq<Event>) {
    forall k | 0 <= k < |es| :: es[k].BlockStop?
  }

  lemma StopsAreStops(st: State)
    ensures AllBlockStops(Stops(st))
  {
    var order := Sorting.Sorted(st.tools.Keys);
    SortedKeys(st.tools, order);
    OnlyToolStops(st.tools, order);
    BlockStopsJoin(if st.text then [BlockStop(st.index)] else [], ToolStops(st.tools, order));
  }

  lemma BlockStopsJoin(a: seq<Event>, b: seq<Event>)
    requires AllBlockStops(a) && AllBlockStops(b)
    ensures AllBlockStops(a + b)
  {
  }

  lemma {:induction false} OnlyToolStops(tools: map<int, nat>, order: seq<int>)
    requires forall i | 0 <= i < |order| :: order[i] in tools
    ensures AllBlockStops(ToolStops(tools, order))
  {
    if order != [] {
      OnlyToolStops(tools, order[..|order| - 1]);
    }
  }

  /** The parts of a closed output. */
  lemma EndParts(out: seq<Event>, stops: seq<Event>, d: Event, s: Event)
    ensures
      var es, p := out + stops + [d] + [s], |out| + |stops|;
      && |es| == p + 2 && out <= es && es[..|out|] == out && es[|out|..p] == stops && es[p] == d && es[p + 1] == s
      && (AllBlockStops(stops) && !s.MessageDelta? ==> forall k: nat | Ends(es, k) :: k < |out| || k == p)
  {
    var es, p := out + stops + [d] + [s], |out| + |stops|;
    if AllBlockStops(stops) && !s.MessageDelta? {
      assert forall k | |out| <= k < p :: es[k] == stops[k - |out|];
      assert es[p + 1] == s;
    }
  }

  lemma ClosedByFinish(out: seq<Event>, stops: seq<Event>, stop: StopReason, tokens: int, lines: seq<Line>)
    requires ClosedEverywhere(out, lines) && ClosesAll(out, stops, lines)
    requires lines != [] && IsFinish(lines[|lines| - 1]) && AllBlockStops(stops)
    ensures ClosedEverywhere(out + stops + [MessageDelta(stop, tokens)] + [MessageStop], lines)
  {
    EndParts(out, stops, MessageDelta(stop, tokens), MessageStop);
    var es := out + stops + [MessageDelta(stop, tokens)] + [MessageStop];
    ClosedHere(out, stops, es, |out| + |stops|, lines);
    ClosedOnceMore(out, es, |out| + |stops|, lines);
  }

  lemma ClosedOnceMore(out: seq<Event>, es: seq<Event>, p: nat, lines: seq<Line>)
    requires ClosedEverywhere(out, lines) && ClosedAt(es, p, lines)
    requires out <= es && forall k: nat | Ends(es, k) :: k < |out| || k == p
    ensures ClosedEverywhere(es, lines)
  {
    forall k: nat | Ends(es, k) ensures ClosedAt(es, k, lines) {
      if k < |out| {
        ClosedBefore(out, es, k, lines);
      }
    }
  }

  lemma ClosedHere(out: seq<Event>, stops: seq<Event>, es: seq<Event>, p: nat, lines: seq<Line>)
    requires ClosesAll(out, stops, lines) && lines != [] && IsFinish(lines[|lines| - 1])
    requires |out| <= p < |es| && es[..|out|] == out && es[|out|..p] == stops
    ensures ClosedAt(es, p, lines)
  {
    assert lines[..|lines| - 1 + 1] == lines;
    assert ClosedFor(es, p, lines, |out|, |lines| - 1);
  }

  lemma ClosedBefore(out: seq<Event>, es: seq<Event>, k: nat, lines: seq<Line>)
    requires ClosedEverywhere(out, lines) && out <= es
    ensures k < |out| && Ends(es, k) ==> ClosedAt(es, k, lines)
  {
    if k < |out| && Ends(es, k) {
      assert Ends(out, k);
      ClosedLater(out, es, k, lines, lines);
    }
  }

  lemma SteadyEnd(st: State, stop: StopReason, tokens: int)
    requires Steady(st) && AllBlockStops(Stops(st))
    ensures Steady(st.(out := st.out + Stops(st) + [MessageDelta(stop, tokens)] + [MessageStop], finished := true))
  {
    EndParts(st.out, Stops(st), MessageDelta(stop, tokens), MessageStop);
    if st.text {
      LastTextAfter(st.out, st.out + Stops(st) + [MessageDelta(stop, tokens)] + [MessageStop], st.index);
    }
  }

  lemma LastTextAfter(es: seq<Event>, es1: seq<Event>, i: int)
    requires LastText(es, i) && es <= es1 && forall k | |es| <= k < |es1| :: !StartsText(es1[k])
    ensures LastText(es1, i)
  {
    var j :| 0 <= j < |es| && es[j] == BlockStart(i, Text) && forall k | j < k < |es| :: !StartsText(es[k]);
    assert es1[j] == es[j] && forall k | j < k < |es1| :: !StartsText(es1[k]);
  }

  lemma {:induction false} ClosingLines(lines: seq<Line>)
    ensures Closing(OnLines(Initial, lines), lines)
  {
    if lines != [] {
      var init, last := lines[..|lines| - 1], lines[|lines| - 1];
      var st := OnLines(Initial, init);
      assert lines == init + [last];
      ClosingLines(init);
      if last.Data? {
        ClosingUnfinished(st, init, last.choice);
        StartedUnfinished(init, last.choice);
        ClosingFinish(Unfinished(st, last.choice), lines, last.choice.finish, last.choice.completionTokens);
      } else {
        TextOpenMore(init, last);
        ClosedMore(st.out, st.out, init, lines);
      }
    }
  }

  lemma StartedUnfinished(init: seq<Line>, c: Choice)
    ensures Started(Unfinished(OnLines(Initial, init), c), FirstDeltas(init + [Data(c)]))
  {
    var st, all := OnLines(Initial, init), init + [Data(c)];
    assert all[..|all| - 1] == init;
    StartedLines(init);
    StartedContent(st, FirstDeltas(init), c.reasoning, c.content);
    StartedTools(OnContent(OnReasoning(st, c.reasoning), c.content), FirstDeltas(init), c.tools);
  }

  // ---- The whole output --------------------------------------------------------------------------------------------

  /**
   Right before each message_delta of the output, behind the last event that is no stop, come the stop of the text block
   if one is open, and then the stops of the blocks of all calls so far, in strictly ascending order of the calls. This
   is so for each finish line that is looked at, and for the end of a stream without one.
   */
  lemma StopsAscend(chunks: seq<Chunk>, p: nat)
    requires Ends(Translate(chunks), p)
    ensures
      var es, lines := Translate(chunks), Processed(chunks);
      if HasFinish(lines) then ClosedAt(es, p, lines)
      else p == |es| - 2 && exists q: nat | q <= p :: ClosesAll(es[..q], es[q..p], lines)
  {
    var st, lines := OnChunks(Initial, chunks), Processed(chunks);
    ChunksAreLines(chunks);
    FinishedByLines(lines);
    ClosingLines(lines);
    StartedLines(lines);
    if !HasFinish(lines) {
      AllStops(st, lines);
      StopsAreStops(st);
      ClosedByEnd(st.out, Stops(st), st.tokens, lines, p);
    }
  }

  lemma ClosedByEnd(out: seq<Event>, stops: seq<Event>, tokens: int, lines: seq<Line>, p: nat)
    requires ClosedEverywhere(out, lines) && ClosesAll(out, stops, lines) && !HasFinish(lines)
    requires AllBlockStops(stops)
    requires Ends(out + stops + [MessageDelta(EndTurn, tokens)] + [MessageStop], p)
    ensures
      var es := out + stops + [MessageDelta(EndTurn, tokens)] + [MessageStop];
      p == |es| - 2 && exists q: nat | q <= p :: ClosesAll(es[..q], es[q..p], lines)
  {
    EndParts(out, stops, MessageDelta(EndTurn, tokens), MessageStop);
    ClosedOnlyByEnd(out, stops, out + stops + [MessageDelta(EndTurn, tokens)] + [MessageStop], |out| + |stops|, lines,
                    p);
  }

  lemma ClosedOnlyByEnd(out: seq<Event>, stops: seq<Event>, es: seq<Event>, n: nat, lines: seq<Line>, p: nat)
    requires ClosedEverywhere(out, lines) && ClosesAll(out, stops, lines) && !HasFinish(lines)
    requires |out| <= n && |es| == n + 2 && out <= es && es[..|out|] == out && es[|out|..n] == stops
    requires forall k: nat | Ends(es, k) :: k < |out| || k == n
    requires Ends(es, p)
    ensures p == n && exists q: nat | q <= p :: ClosesAll(es[..q], es[q..p], lines)
  {
    ClosedBefore(out, es, p, lines);
    NoFinishNoClose(es, p, lines);
    assert p == n;
    assert ClosesAll(es[..|out|], es[|out|..n], lines);
  }

  lemma NoFinishNoClose(es: seq<Event>, p: nat, lines: seq<Line>)
    requires !HasFinish(lines)
    ensures !ClosedAt(es, p, lines)
  {
    forall q: nat, n: nat ensures !ClosedFor(es, p, lines, q, n) {
      assert n < |lines| ==> !IsFinish(lines[n]);
    }
  }
}
