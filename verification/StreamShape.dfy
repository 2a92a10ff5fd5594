/**
 What the acceptor of StreamGrammar means, position by position, and the grammar theorem in those words.
 */
module StreamShape {
  import opened Options
  import opened AnthropicStream
  import opened StreamGrammar

  function Starts(es: seq<Event>): nat {
    if es == [] then 0 else Starts(es[..|es| - 1]) + if es[|es| - 1].BlockStart? then 1 else 0
  }

  /** The block started at position `j` has not been stopped in `es`. */
  ghost predicate Live(es: seq<Event>, j: int) {
    0 <= j < |es| && es[j].BlockStart? && forall m | j < m < |es| :: es[m] != BlockStop(es[j].index)
  }

  /** Event `e` may follow the events `before` inside a message. */
  ghost predicate Allowed(before: seq<Event>, e: Event) {
    match e
    case BlockStart(i, _) => i == Starts(before)
    case BlockDelta(i, d) => exists j :: Live(before, j) && before[j].index == i && Fits(before[j].block, d)
    case BlockStop(i) => exists j :: Live(before, j) && before[j].index == i
    case _ => false
  }

  ghost predicate MessageSoFar(es: seq<Event>) {
    |es| > 0 && es[0] == MessageStart && forall k | 0 < k < |es| :: Allowed(es[..k], es[k])
  }

  /**
   A whole Anthropic message: one message_start; then blocks started with indices 0, 1, 2, ... in this order, every
   delta inside a live block of its own kind, every stop for a live block; no block left live; then one message_delta
   and one message_stop.
   */
  ghost predicate WholeMessage(es: seq<Event>) {
    var n := |es| - 2;
    && n > 0 && es[n].MessageDelta? && es[n + 1] == MessageStop
    && MessageSoFar(es[..n])
    && forall j :: !Live(es[..n], j)
  }

  ghost predicate Mirrors(es: seq<Event>, c: Checker) {
    && c.Checker? && c.phase.Body?
    && c.next == Starts(es)
    && (forall j | 0 <= j < |es| && es[j].BlockStart? :: es[j].index < c.next)
    && (forall i | i in c.open :: exists j :: Live(es, j) && es[j] == BlockStart(i, c.open[i]))
    && (forall j | Live(es, j) :: es[j].index in c.open && c.open[es[j].index] == es[j].block)
  }

  lemma LiveOneMore(es: seq<Event>, e: Event, j: int)
    ensures Live(es + [e], j) <==>
            (j == |es| && e.BlockStart?) || (Live(es, j) && e != BlockStop(es[j].index))
  {
    var all := es + [e];
    if 0 <= j < |es| && es[j].BlockStart? {
      assert all[j] == es[j];
      if Live(es, j) && e != BlockStop(es[j].index) {
        assert forall m | j < m < |all| :: all[m] == if m < |es| then es[m] else e;
      }
      if Live(all, j) {
        assert all[|es|] == e;
        assert forall m | j < m < |es| :: all[m] == es[m];
      }
    }
  }

  lemma MirrorStep(es: seq<Event>, c: Checker, e: Event)
    requires Mirrors(es, c)
    ensures Allowed(es, e) ==> Mirrors(es + [e], Check(c, e))
    ensures !Allowed(es, e) ==> !(Check(c, e).Checker? && Check(c, e).phase.Body?)
  {
    var all, c1 := es + [e], Check(c, e);
    if Allowed(es, e) {
      assert all[..|all| - 1] == es;
      assert c1.Checker? && c1.next == Starts(all);
      forall i | i in c1.open ensures exists j :: Live(all, j) && all[j] == BlockStart(i, c1.open[i]) {
        if e.BlockStart? && e.index == i {
          LiveOneMore(es, e, |es|);
          assert all[|es|] == e;
        } else {
          var j :| Live(es, j) && es[j] == BlockStart(i, c.open[i]);
          LiveOneMore(es, e, j);
          assert all[j] == es[j];
        }
      }
      forall j | Live(all, j) ensures all[j].index in c1.open && c1.open[all[j].index] == all[j].block {
        LiveOneMore(es, e, j);
      }
    }
  }

  lemma SoFarSnoc(es: seq<Event>, e: Event)
    requires es != []
    ensures MessageSoFar(es + [e]) <==> MessageSoFar(es) && Allowed(es, e)
  {
    var all, n := es + [e], |es|;
    assert all[..n] == es && all[n] == e;
    assert forall k | 0 < k < n :: es[..k] == all[..k] && es[k] == all[k];
  }

  lemma {:induction false} CheckMeans(es: seq<Event>)
    requires es != []
    ensures MessageSoFar(es) ==> Mirrors(es, CheckAll(es))
    ensures !MessageSoFar(es) ==> !(CheckAll(es).Checker? && CheckAll(es).phase.Body?)
  {
    var n := |es| - 1;
    var init := es[..n];
    assert es == init + [es[n]];
    CheckOne(Start, init, es[n]);
    if n == 0 {
      assert Starts(init) == 0 && init == [];
      assert es[0] == MessageStart ==> forall j :: !Live(es, j);
    } else {
      CheckMeans(init);
      SoFarSnoc(init, es[n]);
      if MessageSoFar(init) {
        MirrorStep(init, CheckAll(init), es[n]);
      } else {
        NotYetStarted(init);
      }
    }
  }

  /** The acceptor is in its first phase only before the first event. */
  lemma NotYetStarted(es: seq<Event>)
    requires es != []
    ensures !(CheckAll(es).Checker? && CheckAll(es).phase.Fresh?)
  {
  }

  lemma EndsWith(body: seq<Event>, d: Event, s: Event)
    ensures Conforms(body + [d] + [s]) <==>
            var c := CheckAll(body);
            d.MessageDelta? && s.MessageStop? && c.Checker? && c.phase.Body? && c.open == map[]
  {
    CheckOne(Start, body, d);
    CheckOne(Start, body + [d], s);
  }

  lemma NothingOpen(es: seq<Event>, c: Checker)
    requires Mirrors(es, c)
    ensures c.open == map[] <==> forall j :: !Live(es, j)
  {
    if forall j :: !Live(es, j) {
      assert forall i :: i !in c.open;
      assert c.open == map[];
    }
  }

  /** The acceptor accepts exactly the whole messages. */
  lemma ConformsMeans(es: seq<Event>)
    ensures Conforms(es) <==> WholeMessage(es)
  {
    var n := |es| - 2;
    if n >= 0 {
      var body := es[..n];
      assert es == body + [es[n]] + [es[n + 1]];
      EndsWith(body, es[n], es[n + 1]);
      if n > 0 {
        CheckMeans(body);
        if MessageSoFar(body) {
          NothingOpen(body, CheckAll(body));
        }
      }
    } else if |es| == 1 {
      CheckOne(Start, [], es[0]);
      assert [] + [es[0]] == es;
    }
  }

  /** The grammar theorem: a whole, well formed message comes out exactly when the input is disciplined. */
  lemma WellFormedOutput(chunks: seq<Chunk>)
    ensures WholeMessage(Translate(chunks)) <==> Disciplined(chunks)
  {
    OutputGrammar(chunks);
    ConformsMeans(Translate(chunks));
  }

  lemma {:induction false} StartsGrow(es: seq<Event>, i: nat, j: nat)
    requires i < j <= |es| && es[i].BlockStart?
    ensures Starts(es[..i]) < Starts(es[..j])
    decreases j
  {
    assert es[..j][..j - 1] == es[..j - 1];
    if i < j - 1 {
      StartsGrow(es, i, j - 1);
    }
  }

  /** No two blocks of a whole message carry the same index, and no block is stopped twice. */
  lemma EachBlockOnce(es: seq<Event>, a: nat, b: nat)
    requires WholeMessage(es) && 0 < a < b < |es| - 2
    ensures es[a].BlockStart? && es[b].BlockStart? ==> es[a].index != es[b].index
    ensures es[a].BlockStop? ==> es[a] != es[b]
  {
    var body := es[..|es| - 2];
    assert Allowed(body[..a], body[a]) && Allowed(body[..b], body[b]);
    if es[a].BlockStart? {
      StartsGrow(body, a, b);
    } else if es[a].BlockStop? && es[a] == es[b] {
      var i :| Live(body[..a], i) && body[..a][i].index == es[a].index;
      var j :| Live(body[..b], j) && body[..b][j].index == es[a].index;
      assert body[..b][a] == es[a];
      assert i < a < j;
      assert i > 0 && Allowed(body[..i], body[i]) && Allowed(body[..j], body[j]);
      StartsGrow(body, i, j);
      assert false;
    }
  }

  const SomeReasoning := Data(Choice("r", "", [], "", None))
  const SomeContent := Data(Choice("", "c", [], "", None))
  const SomeTool := Data(Choice("", "", [ToolDelta(0, None, "f", "")], "", None))
  const SomeFinish := Data(Choice("", "", [], "stop", None))

  /** The translator is not safe on every input: a tool call, the finish or the end right after reasoning, reasoning
      inside text, or content after the finish line of the same chunk, each gives a malformed message. */
  lemma MalformedMessages()
    ensures !WholeMessage(Translate([[SomeReasoning], [SomeTool]]))
    ensures !WholeMessage(Translate([[SomeReasoning], [SomeFinish]]))
    ensures !WholeMessage(Translate([[SomeReasoning]]))
    ensures !WholeMessage(Translate([[SomeContent], [SomeReasoning]]))
    ensures !WholeMessage(Translate([[SomeFinish, SomeContent]]))
  {
    TwoChunks(SomeReasoning, SomeTool);
    TwoChunks(SomeReasoning, SomeFinish);
    TwoChunks(SomeContent, SomeReasoning);
    OneLine(SomeReasoning);
    OneChunk(SomeFinish, SomeContent);
  }

  lemma OneChunk(a: Line, b: Line)
    ensures WholeMessage(Translate([[a, b]])) <==> Disciplined([[a, b]])
    ensures ReadChunks([[a, b]]) == ReadLine(ReadLine(Reading(Neither, {}), a), b)
  {
    WellFormedOutput([[a, b]]);
    assert [[a, b]][..0] == [] && [a, b][..1] == [a] && [a][..0] == [];
    var r := Reading(Neither, {});
    assert ReadLines(r, [a]) == ReadLine(r, a);
    assert ReadLines(r, [a, b]) == ReadLine(ReadLines(r, [a]), b);
  }

  lemma OneLine(a: Line)
    ensures WholeMessage(Translate([[a]])) <==> Disciplined([[a]])
    ensures ReadChunks([[a]]) == ReadLine(Reading(Neither, {}), a)
  {
    WellFormedOutput([[a]]);
    assert [[a]][..0] == [] && [a][..0] == [];
    assert ReadLines(Reading(Neither, {}), [a]) == ReadLine(Reading(Neither, {}), a);
  }

  lemma TwoChunks(a: Line, b: Line)
    ensures WholeMessage(Translate([[a], [b]])) <==> Disciplined([[a], [b]])
    ensures
      var r := ReadLine(Reading(Neither, {}), a);
      ReadChunks([[a], [b]]) == if r.mode.Done? || r.mode.Broken? then r else ReadLine(r, b)
  {
    WellFormedOutput([[a], [b]]);
    OneLine(a);
    assert [[a], [b]][..1] == [[a]] && [b][..0] == [];
    var r := ReadLine(Reading(Neither, {}), a);
    assert ReadLines(r, [b]) == ReadLine(r, b);
  }
}
