/**
 The incremental line splitter of the stream readers (`run_turn` in chat_bench.py, `_send` in dlp_harness/load.py).
 */
module SseFraming {
  import opened Sequences

  newtype byte = x: int | 0 <= x < 256

  type Line = seq<byte>

  const NL: byte := 10

  // ---- What splitting means ----------------------------------------------------------------------------------------

  /** `lines`, each ended by a newline, and then `rest`. */
  function Join(lines: seq<Line>, rest: Line): seq<byte> {
    if lines == [] then rest else lines[0] + [NL] + Join(lines[1..], rest)
  }

  predicate IsSplit(s: seq<byte>, lines: seq<Line>, rest: Line) {
    Join(lines, rest) == s && NL !in rest && NoNewlines(lines)
  }

  predicate NoNewlines(lines: seq<Line>) {
    forall i | 0 <= i < |lines| :: NL !in lines[i]
  }

  /** The position of the first newline, or the length. */
  function FirstNewline(s: seq<byte>): (i: nat)
    ensures i <= |s| && NL !in s[..i] && (i < |s| ==> s[i] == NL) && (i == |s| <==> NL !in s)
  {
    if s == [] then 0
    else if s[0] == NL then 0
    else
      var i := 1 + FirstNewline(s[1..]);
      assert s[..i] == [s[0]] + s[1..][..i - 1];
      assert s == [s[0]] + s[1..];
      i
  }

  lemma {:induction false} FirstNewlineAfter(line: Line, t: seq<byte>)
    requires NL !in line
    ensures FirstNewline(line + [NL] + t) == |line|
  {
    if line != [] {
      FirstNewlineAfter(line[1..], t);
      assert (line + [NL] + t)[1..] == line[1..] + [NL] + t;
    }
  }

  /** The lines that `s` completes, and the unfinished one. */
  function Split(s: seq<byte>): (r: (seq<Line>, Line))
    ensures IsSplit(s, r.0, r.1)
  {
    var i := FirstNewline(s);
    if i == |s| then ([], s) else
      var after := Split(s[i + 1..]);
      assert s == s[..i] + [NL] + s[i + 1..];
      ([s[..i]] + after.0, after.1)
  }

  lemma SplitOne(line: Line, t: seq<byte>)
    requires NL !in line
    ensures Split(line + [NL] + t) == ([line] + Split(t).0, Split(t).1)
  {
    FirstNewlineAfter(line, t);
    var s := line + [NL] + t;
    assert s[..|line|] == line && s[|line| + 1..] == t;
  }

  /** Every byte sequence splits in exactly one way. */
  lemma {:induction false} SplitUnique(s: seq<byte>, lines: seq<Line>, rest: Line)
    requires IsSplit(s, lines, rest)
    ensures Split(s) == (lines, rest)
    decreases |lines|
  {
    if lines != [] {
      SplitUnique(Join(lines[1..], rest), lines[1..], rest);
      SplitOne(lines[0], Join(lines[1..], rest));
      assert lines == [lines[0]] + lines[1..];
    } else {
      assert FirstNewline(s) == |s|;
    }
  }

  // ---- The reader --------------------------------------------------------------------------------------------------

  lemma {:induction false} JoinSnoc(lines: seq<Line>, line: Line, rest: Line)
    ensures Join(lines + [line], rest) == Join(lines, line + [NL] + rest)
  {
    if lines == [] {
      assert Join([line], rest) == line + [NL] + Join([], rest);
      assert [] + [line] == [line];
    } else {
      JoinSnoc(lines[1..], line, rest);
      assert (lines + [line])[1..] == lines[1..] + [line];
    }
  }

  lemma {:induction false} JoinAppend(lines: seq<Line>, rest: Line, more: seq<byte>)
    ensures Join(lines, rest) + more == Join(lines, rest + more)
  {
    if lines != [] {
      JoinAppend(lines[1..], rest, more);
      assert lines[0] + [NL] + Join(lines[1..], rest) + more == lines[0] + [NL] + (Join(lines[1..], rest) + more);
    }
  }

  /** `received` and `lines` record the history: what has come in, and the lines handed on so far. */
  class LineReader {
    var buf: seq<byte>
    ghost var received: seq<byte>
    ghost var lines: seq<Line>

    ghost predicate Valid()
      reads this
    {
      IsSplit(received, lines, buf)
    }

    constructor ()
      ensures Valid() && received == [] && lines == [] && buf == []
    {
      buf, received, lines := [], [], [];
    }

    /** One read: all lines that are now complete are handed on, in order. */
    method Feed(raw: seq<byte>) returns (complete: seq<Line>)
      requires Valid()
      modifies this
      ensures Valid() && NL !in buf
      ensures received == old(received) + raw && lines == old(lines) + complete
    {
      JoinAppend(lines, buf, raw);
      buf, received, complete := buf + raw, received + raw, [];
      assert lines + complete == lines;
      while NL in buf
        invariant lines == old(lines) && received == old(received) + raw
        invariant Join(lines + complete, buf) == received && NoNewlines(lines + complete)
        decreases |buf|
      {
        var i := FirstNewline(buf);
        var line, after := buf[..i], buf[i + 1..];
        assert buf == line + [NL] + after;
        JoinSnoc(lines + complete, line, after);
        Reassociate(lines, complete, [line]);
        complete, buf := complete + [line], after;
      }
      lines := lines + complete;
    }
  }

  /** All reads of one response; what is left in the buffer at the end is dropped. */
  method ReadAll(chunks: seq<seq<byte>>) returns (lines: seq<Line>, dropped: Line)
    ensures IsSplit(Flatten(chunks), lines, dropped)
  {
    var reader := new LineReader();
    lines := [];
    for i := 0 to |chunks|
      invariant fresh(reader) && reader.Valid() && reader.lines == lines && reader.received == Flatten(chunks[..i])
    {
      assert chunks[..i + 1][..i] == chunks[..i];
      var complete := reader.Feed(chunks[i]);
      lines := lines + complete;
    }
    assert chunks[..|chunks|] == chunks;
    dropped := reader.buf;
  }

  // ---- What is read from the lines ---------------------------------------------------------------------------------

  predicate IsSpace(b: byte) {
    b == 32 || 9 <= b <= 13
  }

  function StripLeft(s: Line): Line {
    if s != [] && IsSpace(s[0]) then StripLeft(s[1..]) else s
  }

  function StripRight(s: Line): Line {
    if s != [] && IsSpace(s[|s| - 1]) then StripRight(s[..|s| - 1]) else s
  }

  function Strip(s: Line): Line {
    StripRight(StripLeft(s))
  }

  datatype Item = Skipped | Done | Payload(data: Line)

  const DATA: Line := [100, 97, 116, 97, 58]

  const DONE: Line := [91, 68, 79, 78, 69, 93]

  function ItemOf(line: Line): Item {
    var stripped := Strip(line);
    if !(DATA <= stripped) then Skipped
    else if Strip(stripped[5..]) == DONE then Done
    else Payload(Strip(stripped[5..]))
  }

  /** The payloads handed to the JSON parser, in order. */
  function Payloads(lines: seq<Line>): seq<Line> {
    if lines == [] then [] else
      Payloads(lines[..|lines| - 1]) + PayloadOf(lines[|lines| - 1])
  }

  function PayloadOf(line: Line): seq<Line> {
    match ItemOf(line)
    case Payload(data) => [data]
    case _ => []
  }

  predicate AllSpace(s: Line) {
    forall i | 0 <= i < |s| :: IsSpace(s[i])
  }

  lemma {:induction false} StripLeftMeans(s: Line) returns (n: nat)
    ensures n <= |s| && StripLeft(s) == s[n..] && AllSpace(s[..n])
    ensures StripLeft(s) != [] ==> !IsSpace(StripLeft(s)[0])
  {
    if s != [] && IsSpace(s[0]) {
      var m := StripLeftMeans(s[1..]);
      n := m + 1;
      assert s[1..][m..] == s[n..];
      assert forall i | 0 < i < n :: s[i] == s[1..][..m][i - 1];
    } else {
      n := 0;
    }
  }

  lemma {:induction false} StripRightMeans(s: Line) returns (n: nat)
    ensures n <= |s| && StripRight(s) == s[..n] && AllSpace(s[n..])
    ensures StripRight(s) != [] ==> !IsSpace(StripRight(s)[|StripRight(s)| - 1])
  {
    if s != [] && IsSpace(s[|s| - 1]) {
      n := StripRightMeans(s[..|s| - 1]);
      assert s[..|s| - 1][..n] == s[..n];
      assert forall i | n <= i < |s| - 1 :: s[i] == s[..|s| - 1][n..][i - n];
    } else {
      n := |s|;
    }
  }

  /** Stripping leaves a stretch of the line with white space only around it, and none at its ends. */
  lemma StripMeans(s: Line) returns (a: nat, b: nat)
    ensures a <= b <= |s| && Strip(s) == s[a..b] && AllSpace(s[..a]) && AllSpace(s[b..])
    ensures a < b ==> !IsSpace(s[a]) && !IsSpace(s[b - 1])
  {
    a := StripLeftMeans(s);
    var n := StripRightMeans(s[a..]);
    b := a + n;
    assert s[a..][..n] == s[a..b] && s[a..][n..] == s[b..];
    assert n > 0 ==> s[a..][0] == s[a];
  }

  /**
   What is read from a line: nothing unless its first non-blank bytes are those of the data prefix; behind that, the end
   mark or the payload, without blanks around it.
   */
  lemma ItemMeans(line: Line) returns (a: nat, b: nat, c: nat, d: nat)
    ensures a <= b <= |line| && AllSpace(line[..a]) && AllSpace(line[b..])
    ensures a < b ==> !IsSpace(line[a]) && !IsSpace(line[b - 1])
    ensures ItemOf(line).Skipped? <==> !(b - a >= 5 && line[a..a + 5] == [100, 97, 116, 97, 58])
    ensures !ItemOf(line).Skipped? ==>
              && a + 5 <= c <= d <= b && AllSpace(line[a + 5..c]) && AllSpace(line[d..b])
              && (c < d ==> !IsSpace(line[c]) && !IsSpace(line[d - 1]))
              && ItemOf(line) == if line[c..d] == [91, 68, 79, 78, 69, 93] then Done else Payload(line[c..d])
  {
    a, b := StripMeans(line);
    c, d := a, b;
    var stripped := Strip(line);
    assert |stripped| >= 5 ==> stripped[..5] == line[a..a + 5];
    if !ItemOf(line).Skipped? {
      var m, n := StripMeans(stripped[5..]);
      c, d := a + 5 + m, a + 5 + n;
      InnerPart(line, a, b, m, n);
    }
  }

  lemma InnerPart(line: Line, a: nat, b: nat, m: nat, n: nat)
    requires a + 5 <= b <= |line| && m <= n <= b - a - 5
    ensures
      var inner := line[a..b][5..];
      && inner[m..n] == line[a + 5 + m..a + 5 + n] && inner[..m] == line[a + 5..a + 5 + m]
      && inner[n..] == line[a + 5 + n..b]
      && (m < n ==> inner[m] == line[a + 5 + m] && inner[n - 1] == line[a + 5 + n - 1])
  {
    var inner, k := line[a..b][5..], a + 5;
    assert inner == line[k..b];
    SliceOfSlice(line, k, b, m, n);
    SliceOfSlice(line, k, b, 0, m);
    SliceOfSlice(line, k, b, n, b - k);
  }

  lemma SliceOfSlice(s: Line, k: nat, b: nat, m: nat, n: nat)
    requires k <= b <= |s| && m <= n <= b - k
    ensures s[k..b][m..n] == s[k + m..k + n]
  {
    var inner := s[k..b];
    assert forall i | m <= i < n :: inner[i] == s[k + i];
  }

  // ---- Chunk boundaries do not matter ------------------------------------------------------------------------------

  lemma {:induction false} JoinJoins(lines: seq<Line>, more: seq<Line>, rest: Line)
    ensures Join(lines + more, rest) == Join(lines, Join(more, rest))
  {
    if lines == [] {
      assert lines + more == more;
    } else {
      JoinJoins(lines[1..], more, rest);
      assert (lines + more)[1..] == lines[1..] + more;
    }
  }

  /** Splitting can be resumed: more bytes only add lines, and only the unfinished line matters for them. */
  lemma SplitResumes(s: seq<byte>, more: seq<byte>)
    ensures Split(s + more).0 == Split(s).0 + Split(Split(s).1 + more).0
    ensures Split(s + more).1 == Split(Split(s).1 + more).1
  {
    var (lines, rest) := Split(s);
    var (lines1, rest1) := Split(rest + more);
    JoinAppend(lines, rest, more);
    JoinJoins(lines, lines1, rest1);
    SplitUnique(s + more, lines + lines1, rest1);
  }

  /**
   The lines depend only on the bytes. Two readers that have received the same bytes, in whatever chunks, have handed on
   the same lines, read the same payloads from them, and hold the same bytes back.
   */
  lemma ChunksDoNotMatter(chunks: seq<seq<byte>>, chunks1: seq<seq<byte>>, lines: seq<Line>, rest: Line,
                          lines1: seq<Line>, rest1: Line)
    requires Flatten(chunks) == Flatten(chunks1)
    requires IsSplit(Flatten(chunks), lines, rest) && IsSplit(Flatten(chunks1), lines1, rest1)
    ensures lines == lines1 && rest == rest1 && Payloads(lines) == Payloads(lines1)
  {
    SplitUnique(Flatten(chunks), lines, rest);
    SplitUnique(Flatten(chunks), lines1, rest1);
  }

  // ---- Payloads survive framing ------------------------------------------------------------------------------------

  /** The line a server sends for a payload. */
  function DataLine(payload: Line): Line {
    DATA + [32] + payload
  }

  /** A payload that the reader takes for neither padding nor the end mark. */
  predicate Plain(payload: Line) {
    payload != [] && !IsSpace(payload[0]) && !IsSpace(payload[|payload| - 1]) && payload != DONE
  }

  lemma StripNothing(s: Line)
    requires s != [] && !IsSpace(s[0]) && !IsSpace(s[|s| - 1])
    ensures Strip(s) == s
  {
  }

  /** What a server sends as a data line is read back. */
  lemma DataLineReadsBack(payload: Line)
    requires Plain(payload)
    ensures ItemOf(DataLine(payload)) == Payload(payload)
  {
    var line := DataLine(payload);
    assert line[0] == 100 && line[|line| - 1] == payload[|payload| - 1];
    StripNothing(line);
    assert line[..5] == DATA;
    var tail := line[5..];
    assert tail == [32] + payload && tail[1..] == payload;
    assert StripLeft(tail) == StripLeft(payload) == payload;
  }

  function DataLines(payloads: seq<Line>): seq<Line> {
    if payloads == [] then [] else DataLines(payloads[..|payloads| - 1]) + [DataLine(payloads[|payloads| - 1]), []]
  }

  lemma PayloadsSnoc(lines: seq<Line>, line: Line)
    ensures Payloads(lines + [line]) == Payloads(lines) + PayloadOf(line)
  {
    assert (lines + [line])[..|lines|] == lines;
  }

  lemma EventSnoc(lines: seq<Line>, payload: Line)
    requires Plain(payload)
    ensures Payloads(lines + [DataLine(payload), []]) == Payloads(lines) + [payload]
  {
    DataLineReadsBack(payload);
    var line := DataLine(payload);
    PayloadsSnoc(lines, line);
    PayloadsSnoc(lines + [line], []);
    assert lines + [line, []] == lines + [line] + [[]];
  }

  /** A server's events, each a data line and an empty line, are read back in order however the bytes are cut. */
  lemma {:induction false} EventsReadBack(payloads: seq<Line>)
    requires forall i | 0 <= i < |payloads| :: Plain(payloads[i])
    ensures Payloads(DataLines(payloads)) == payloads
  {
    if payloads != [] {
      var front, last := payloads[..|payloads| - 1], payloads[|payloads| - 1];
      EventsReadBack(front);
      EventSnoc(DataLines(front), last);
      assert payloads == front + [last];
    }
  }

  lemma {:induction false} DataLinesHaveNoNewline(payloads: seq<Line>)
    requires forall i | 0 <= i < |payloads| :: NL !in payloads[i]
    ensures forall i | 0 <= i < |DataLines(payloads)| :: NL !in DataLines(payloads)[i]
  {
    if payloads != [] {
      DataLinesHaveNoNewline(payloads[..|payloads| - 1]);
      assert NL !in payloads[|payloads| - 1];
    }
  }

  /** From the payloads through the bytes, cut into any chunks, to the payloads: a lossless channel. */
  lemma PayloadsSurvive(payloads: seq<Line>, chunks: seq<seq<byte>>, lines: seq<Line>, rest: Line)
    requires forall i | 0 <= i < |payloads| :: Plain(payloads[i]) && NL !in payloads[i]
    requires Flatten(chunks) == Join(DataLines(payloads), []) && IsSplit(Flatten(chunks), lines, rest)
    ensures Payloads(lines) == payloads && rest == []
  {
    DataLinesHaveNoNewline(payloads);
    SplitUnique(Flatten(chunks), DataLines(payloads), []);
    SplitUnique(Flatten(chunks), lines, rest);
    EventsReadBack(payloads);
  }
}
