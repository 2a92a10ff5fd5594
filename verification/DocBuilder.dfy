/**
 Building labelled documents (dlp_harness/corpus.py): text is appended piece by piece while the exact spans of planted
 entities and traps are recorded.
 */
module DocBuilder {
  import opened Sequences

  datatype Kind = Entity | Negative

  /** What is to be planted; `text` has already been generated. */
  datatype Slot = Slot(kind: Kind, category: string, text: string, generator: string, difficulty: string,
                       obfuscation: string)

  datatype Truth = Truth(category: string, text: string, start: nat, end: nat, generator: string, difficulty: string,
                         obfuscation: string)

  datatype LabeledDocument = LabeledDocument(text: string, entities: seq<Truth>, negatives: seq<Truth>)

  datatype Built = Built(doc: LabeledDocument) | SpanCorruption

  // ---- What the spans promise --------------------------------------------------------------------------------------

  predicate ReadsBack(text: string, t: Truth) {
    t.start <= t.end <= |text| && text[t.start..t.end] == t.text
  }

  /** Each span reads back its text. */
  predicate Exact(text: string, spans: seq<Truth>) {
    forall i | 0 <= i < |spans| :: ReadsBack(text, spans[i])
  }

  /** The spans come one after the other, without overlap. */
  predicate Disjoint(spans: seq<Truth>) {
    forall i, j | 0 <= i < j < |spans| :: spans[i].end <= spans[j].start
  }

  /** What a slot is recorded as when planted at `start`. A trap is always plain. */
  function TruthOf(slot: Slot, start: nat): Truth {
    match slot.kind
    case Entity =>
      Truth(slot.category, slot.text, start, start + |slot.text|, slot.generator, slot.difficulty, slot.obfuscation)
    case Negative =>
      Truth(slot.category, slot.text, start, start + |slot.text|, slot.generator, "plain", "")
  }

  /** Of everything planted, what is of one kind, in order. */
  function OfKind(slots: seq<Slot>, spans: seq<Truth>, kind: Kind): seq<Truth>
    requires |slots| == |spans|
  {
    if slots == [] then [] else
      OfKind(slots[..|slots| - 1], spans[..|spans| - 1], kind)
      + if slots[|slots| - 1].kind == kind then [spans[|spans| - 1]] else []
  }

  /** Each span is where its slot was planted. */
  predicate Planted(slots: seq<Slot>, spans: seq<Truth>) {
    |slots| == |spans| && forall i | 0 <= i < |slots| :: spans[i] == TruthOf(slots[i], spans[i].start)
  }

  lemma ExactGrows(text: string, more: string, spans: seq<Truth>)
    requires Exact(text, spans)
    ensures Exact(text + more, spans)
  {
    forall i | 0 <= i < |spans| ensures ReadsBack(text + more, spans[i]) {
      assert ReadsBack(text, spans[i]);
      assert (text + more)[spans[i].start..spans[i].end] == text[spans[i].start..spans[i].end];
    }
  }

  /** A new span at the end of the text. */
  lemma SpanSnoc(text: string, spans: seq<Truth>, t: Truth)
    requires Exact(text, spans) && Disjoint(spans) && t.start == |text| && t.end == |text| + |t.text|
    ensures Exact(text + t.text, spans + [t]) && Disjoint(spans + [t])
  {
    ExactGrows(text, t.text, spans);
    assert (text + t.text)[t.start..t.end] == t.text;
    assert forall i | 0 <= i < |spans| :: ReadsBack(text, spans[i]);
  }

  lemma OfKindSnoc(slots: seq<Slot>, spans: seq<Truth>, slot: Slot, t: Truth, kind: Kind)
    requires |slots| == |spans|
    ensures OfKind(slots + [slot], spans + [t], kind)
            == OfKind(slots, spans, kind) + if slot.kind == kind then [t] else []
  {
    assert (slots + [slot])[..|slots|] == slots && (spans + [t])[..|spans|] == spans;
  }

  lemma {:induction false} OfKindSubset(text: string, slots: seq<Slot>, spans: seq<Truth>, kind: Kind)
    requires |slots| == |spans| && Exact(text, spans)
    ensures Exact(text, OfKind(slots, spans, kind))
  {
    if slots != [] {
      OfKindSubset(text, slots[..|slots| - 1], spans[..|spans| - 1], kind);
      assert ReadsBack(text, spans[|spans| - 1]);
    }
  }

  /** What has been planted in a text: where each slot went, exactly and in order. */
  predicate Sound(text: string, slots: seq<Slot>, spans: seq<Truth>) {
    Planted(slots, spans) && Exact(text, spans) && Disjoint(spans)
  }

  lemma PlantIsSound(text: string, slots: seq<Slot>, spans: seq<Truth>, slot: Slot)
    requires Sound(text, slots, spans)
    ensures Sound(text + slot.text, slots + [slot], spans + [TruthOf(slot, |text|)])
  {
    SpanSnoc(text, spans, TruthOf(slot, |text|));
  }

  lemma FlattenSnoc(parts: seq<string>, part: string)
    ensures Flatten(parts + [part]) == Flatten(parts) + part
  {
    assert (parts + [part])[..|parts|] == parts;
  }

  // ---- The builder -------------------------------------------------------------------------------------------------

  /** `text`, `slots` and `spans` record everything appended, and everything planted of both kinds, in order. */
  class Builder {
    var parts: seq<string>
    var pos: nat
    var entities: seq<Truth>
    var negatives: seq<Truth>
    ghost var text: string
    ghost var slots: seq<Slot>
    ghost var spans: seq<Truth>

    ghost predicate Valid()
      reads this
    {
      && text == Flatten(parts) && pos == |text| && Sound(text, slots, spans)
      && entities == OfKind(slots, spans, Entity) && negatives == OfKind(slots, spans, Negative)
    }

    constructor ()
      ensures Valid() && text == "" && slots == []
    {
      parts, pos, entities, negatives, text, slots, spans := [], 0, [], [], "", [], [];
    }

    method Append(part: string)
      requires Valid()
      modifies this`parts, this`pos, this`text
      ensures Valid() && text == old(text) + part
    {
      ExactGrows(text, part, spans);
      FlattenSnoc(parts, part);
      parts, pos, text := parts + [part], pos + |part|, text + part;
    }

    /** `_plant`, with `append_entity` and `append_negative`. */
    method Plant(slot: Slot) returns (t: Truth)
      requires Valid()
      modifies this
      ensures Valid() && text == old(text) + slot.text && t == TruthOf(slot, |old(text)|)
      ensures slots == old(slots) + [slot] && spans == old(spans) + [t]
    {
      t := TruthOf(slot, pos);
      PlantIsSound(text, slots, spans, slot);
      OfKindSnoc(slots, spans, slot, t, Entity);
      OfKindSnoc(slots, spans, slot, t, Negative);
      FlattenSnoc(parts, slot.text);
      if slot.kind.Entity? {
        entities := entities + [t];
      } else {
        negatives := negatives + [t];
      }
      slots, spans, text := slots + [slot], spans + [t], text + slot.text;
      parts, pos := parts + [slot.text], pos + |slot.text|;
    }

    /** The check of `build` never fails. */
    method Build() returns (r: Built)
      requires Valid()
      ensures r == Built(LabeledDocument(text, entities, negatives))
    {
      var whole := Flatten(parts);
      OfKindSubset(text, slots, spans, Entity);
      OfKindSubset(text, slots, spans, Negative);
      var all := entities + negatives;
      for i := 0 to |all| {
        assert ReadsBack(whole, all[i]);
        if !ReadsBack(whole, all[i]) {
          return SpanCorruption;
        }
      }
      r := Built(LabeledDocument(whole, entities, negatives));
    }
  }

  // ---- Carriers ----------------------------------------------------------------------------------------------------

  /** A slot with the text that a carrier puts before and after it. */
  datatype Row = Row(lead: string, slot: Slot, tail: string)

  function SlotsOf(rows: seq<Row>): seq<Slot> {
    seq(|rows|, i requires 0 <= i < |rows| => rows[i].slot)
  }

  /** The text of a document, from the pieces that were drawn for it. */
  function Rendered(intro: string, rows: seq<Row>): string {
    if rows == [] then intro else
      var row := rows[|rows| - 1];
      Rendered(intro, rows[..|rows| - 1]) + row.lead + row.slot.text + row.tail
  }

  method AddRow(b: Builder, row: Row)
    requires b.Valid()
    modifies b
    ensures b.Valid() && b.slots == old(b.slots) + [row.slot]
    ensures b.text == old(b.text) + row.lead + row.slot.text + row.tail
  {
    b.Append(row.lead);
    var _ := b.Plant(row.slot);
    b.Append(row.tail);
  }

  /** The scheme of all ten carriers; the wording around the slots is drawn at random, and may depend on the slot. */
  method Carrier(intro: string, rows: seq<Row>, outro: string) returns (b: Builder)
    ensures fresh(b) && b.Valid() && b.slots == SlotsOf(rows)
    ensures b.text == Rendered(intro, rows) + outro
  {
    b := new Builder();
    b.Append(intro);
    for i := 0 to |rows|
      invariant fresh(b) && b.Valid() && b.slots == SlotsOf(rows[..i]) && b.text == Rendered(intro, rows[..i])
    {
      assert rows[..i + 1][..i] == rows[..i];
      AddRow(b, rows[i]);
      assert SlotsOf(rows[..i + 1]) == SlotsOf(rows[..i]) + [rows[i].slot];
    }
    assert rows[..|rows|] == rows;
    b.Append(outro);
  }

  /** From the slots to the document: every slot is planted once, in order, at a span that reads back its text. */
  method MakeDocument(intro: string, rows: seq<Row>, outro: string) returns (r: Built, ghost spans: seq<Truth>)
    ensures r.Built? && r.doc.text == Rendered(intro, rows) + outro
    ensures Planted(SlotsOf(rows), spans) && Exact(r.doc.text, spans) && Disjoint(spans)
    ensures r.doc.entities == OfKind(SlotsOf(rows), spans, Entity)
    ensures r.doc.negatives == OfKind(SlotsOf(rows), spans, Negative)
  {
    var b := Carrier(intro, rows, outro);
    spans := b.spans;
    r := b.Build();
  }

  /** The slots of a kind can be read off the document: their texts, in order. */
  lemma {:induction false} TextsReadBack(text: string, slots: seq<Slot>, spans: seq<Truth>, kind: Kind, i: nat)
    requires Planted(slots, spans) && Exact(text, spans) && i < |OfKind(slots, spans, kind)|
    ensures var t := OfKind(slots, spans, kind)[i];
            ReadsBack(text, t) && exists k | 0 <= k < |slots| ::
              slots[k].kind == kind && spans[k] == t && t.text == slots[k].text
  {
    var n := |slots| - 1;
    if i < |OfKind(slots[..n], spans[..n], kind)| {
      TextsReadBack(text, slots[..n], spans[..n], kind, i);
      var t := OfKind(slots, spans, kind)[i];
      var k :| 0 <= k < n && slots[..n][k].kind == kind && spans[..n][k] == t && t.text == slots[..n][k].text;
      assert slots[k].kind == kind && spans[k] == t;
    } else {
      assert slots[n].kind == kind && spans[n] == OfKind(slots, spans, kind)[i];
      assert ReadsBack(text, spans[n]);
    }
  }

  // ---- Reversible transforms ---------------------------------------------------------------------------------------

  const ZERO_WIDTH: char := '\U{200B}'

  /** `text` from position `k` on, with `c` inserted before each position in `at`. */
  function SpreadFrom(text: string, at: set<nat>, c: char, k: nat): string
    requires k <= |text|
    decreases |text| - k
  {
    if k == |text| then ""
    else Piece(text, at, c, k) + SpreadFrom(text, at, c, k + 1)
  }

  /** The character at `k`, with the inserted one before it if there is to be one. */
  function Piece(text: string, at: set<nat>, c: char, k: nat): string
    requires k < |text|
  {
    if k in at then [c, text[k]] else [text[k]]
  }

  function Remove(text: string, c: char): string {
    if text == "" then "" else Kept(text[0], c) + Remove(text[1..], c)
  }

  function Kept(x: char, c: char): string {
    if x == c then "" else [x]
  }

  predicate Descending(s: seq<nat>, bound: nat) {
    && (forall i | 0 <= i < |s| :: 1 <= s[i] < bound)
    && (forall i, j | 0 <= i < j < |s| :: s[i] > s[j])
  }

  function Positions(s: seq<nat>): set<nat> {
    set p | p in s
  }

  lemma {:induction false} SpreadGap(text: string, at: set<nat>, c: char, k: nat, n: nat)
    requires k <= n <= |text| && forall p | k <= p < n :: p !in at
    ensures SpreadFrom(text, at, c, k) == text[k..n] + SpreadFrom(text, at, c, n)
    decreases n - k
  {
    if k < n {
      SpreadGap(text, at, c, k + 1, n);
      assert text[k..n] == [text[k]] + text[k + 1..n];
      Reassociate([text[k]], text[k + 1..n], SpreadFrom(text, at, c, n));
    }
  }

  lemma {:induction false} SpreadIgnores(text: string, at: set<nat>, p: nat, c: char, k: nat)
    requires p < k <= |text|
    ensures SpreadFrom(text, at + {p}, c, k) == SpreadFrom(text, at, c, k)
    decreases |text| - k
  {
    if k < |text| {
      SpreadIgnores(text, at, p, c, k + 1);
    }
  }

  lemma Prepend(text: string, c: char, p: nat, n: nat, rest: string)
    requires p < n <= |text|
    ensures [c] + text[p..n] + rest == [c, text[p]] + (text[p + 1..n] + rest)
  {
    assert text[p..n] == [text[p]] + text[p + 1..n];
  }

  /** One more insertion, before all earlier ones. */
  lemma SpreadOneMore(text: string, at: set<nat>, c: char, p: nat, n: nat)
    requires p < n <= |text| && forall q | q in at :: q >= n
    ensures [c] + text[p..n] + SpreadFrom(text, at, c, n) == SpreadFrom(text, at + {p}, c, p)
  {
    SpreadIgnores(text, at, p, c, p + 1);
    SpreadGap(text, at, c, p + 1, n);
    Prepend(text, c, p, n, SpreadFrom(text, at, c, n));
  }

  lemma InsertStep(text0: string, text: string, at: set<nat>, c: char, p: nat, n: nat)
    requires p < n <= |text0| && (forall q | q in at :: q >= n) && text == text0[..n] + SpreadFrom(text0, at, c, n)
    ensures p <= |text| && text[..p] + [c] + text[p..] == text0[..p] + SpreadFrom(text0, at + {p}, c, p)
  {
    SpreadOneMore(text0, at, c, p, n);
    SplitAndInsert(text0, text, SpreadFrom(text0, at, c, n), c, p, n);
  }

  lemma SplitAndInsert(text0: string, text: string, rest: string, c: char, p: nat, n: nat)
    requires p < n <= |text0| && text == text0[..n] + rest
    ensures p <= |text| && text[..p] + [c] + text[p..] == text0[..p] + ([c] + text0[p..n] + rest)
  {
    assert text[..p] == text0[..p];
    assert text[p..] == text0[p..n] + rest;
  }

  lemma PositionsSnoc(positions: seq<nat>, i: nat)
    requires i < |positions|
    ensures Positions(positions[..i + 1]) == Positions(positions[..i]) + {positions[i]}
  {
    assert positions[..i + 1] == positions[..i] + [positions[i]];
  }

  /** `ob_zero_width_space` and `ob_newline_split`: characters inserted at drawn inner positions, from the right. */
  method InsertAt(text0: string, positions: seq<nat>, c: char) returns (text: string)
    requires Descending(positions, |text0|)
    ensures text == SpreadFrom(text0, Positions(positions), c, 0)
  {
    text := text0;
    ghost var n := |text0|;
    ghost var done: set<nat> := {};
    for i := 0 to |positions|
      invariant n == if i == 0 then |text0| else positions[i - 1]
      invariant done == Positions(positions[..i]) && forall q | q in done :: q >= n
      invariant text == text0[..n] + SpreadFrom(text0, done, c, n)
    {
      var p := positions[i];
      PositionsSnoc(positions, i);
      InsertStep(text0, text, done, c, p, n);
      text := text[..p] + [c] + text[p..];
      n, done := p, done + {p};
    }
    assert positions[..|positions|] == positions;
    SpreadGap(text0, done, c, 0, n);
  }

  lemma {:induction false} RemoveConcat(a: string, b: string, c: char)
    ensures Remove(a + b, c) == Remove(a, c) + Remove(b, c)
  {
    if a == "" {
      assert a + b == b;
    } else {
      RemoveConcat(a[1..], b, c);
      assert (a + b)[1..] == a[1..] + b && (a + b)[0] == a[0];
      Reassociate(Kept(a[0], c), Remove(a[1..], c), Remove(b, c));
    }
  }

  /** Removing the inserted character undoes the transform, up to characters of that kind that were there before. */
  lemma {:induction false} RemoveUndoesSpread(text: string, at: set<nat>, c: char, k: nat)
    requires k <= |text|
    ensures Remove(SpreadFrom(text, at, c, k), c) == Remove(text[k..], c)
    decreases |text| - k
  {
    if k < |text| {
      RemoveUndoesSpread(text, at, c, k + 1);
      RemoveConcat(Piece(text, at, c, k), SpreadFrom(text, at, c, k + 1), c);
      PieceRemoved(text, at, c, k);
      assert text[k..][1..] == text[k + 1..];
    }
  }

  lemma PieceRemoved(text: string, at: set<nat>, c: char, k: nat)
    requires k < |text|
    ensures Remove(Piece(text, at, c, k), c) == Kept(text[k], c)
  {
    RemoveOne(text[k], c);
    if k in at {
      assert [c, text[k]] == [c] + [text[k]];
      RemoveConcat([c], [text[k]], c);
      RemoveOne(c, c);
    }
  }

  lemma RemoveOne(x: char, c: char)
    ensures Remove([x], c) == Kept(x, c)
  {
    assert [x][1..] == "";
  }

  lemma {:induction false} RemoveNothing(text: string, c: char)
    requires c !in text
    ensures Remove(text, c) == text
  {
    if text != "" {
      RemoveNothing(text[1..], c);
      assert text == [text[0]] + text[1..];
    }
  }

  /** For a text without the character, the transform is undone exactly. */
  lemma TransformUndone(text: string, at: set<nat>, c: char)
    ensures Remove(SpreadFrom(text, at, c, 0), c) == text <==> c !in text
  {
    RemoveUndoesSpread(text, at, c, 0);
    assert text[0..] == text;
    if c !in text {
      RemoveNothing(text, c);
    } else {
      RemoveLosesAll(text, c);
    }
  }

  lemma {:induction false} RemoveLosesAll(text: string, c: char)
    ensures c !in Remove(text, c)
  {
    if text != "" {
      RemoveLosesAll(text[1..], c);
    }
  }
}
