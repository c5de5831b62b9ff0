/**
 * Code-block extraction (`Renderer::parse`): one pass over the markdown events that
 * returns them unchanged and collects a `CodeBlock` per fenced block, using the two
 * flags `in_block` and `first_line`.
 */
module CodeBlocks {
  import opened Wrappers
  import opened Strings
  import opened Markdown

  /** The configuration a block may carry in its first text run. */
  datatype CodeBlockOptions = CodeBlockOptions(hide: Option<bool>, name: Option<string>, cmd: Option<string>)

  /** `CodeBlockOptions::default()`: every option absent. */
  const DefaultOptions: CodeBlockOptions := CodeBlockOptions(None, None, None)

  /** The JSON decoder for block options (a partial function: `None` when the text does not decode). */
  type OptionsParser = string -> Option<CodeBlockOptions>

  datatype CodeBlock = CodeBlock(
    id: string,
    options: CodeBlockOptions,
    startIndex: nat,
    endIndex: nat,
    code: string)

  /** The identifier of the block whose start event sits at `index`. */
  function BlockId(index: nat): string
  {
    "block-" + NatToString(index)
  }

  /** Blocks that start at different positions have different identifiers. */
  lemma {:induction false} BlockIdsDistinct(i: nat, j: nat)
    requires i != j
    ensures BlockId(i) != BlockId(j)
  {
    if BlockId(i) == BlockId(j) {
      assert BlockId(i)[6..] == NatToString(i);
      assert BlockId(j)[6..] == NatToString(j);
      NatToStringInjective(i, j);
    }
  }

  /** `CodeBlock::new(index)`. */
  function NewBlock(index: nat): CodeBlock
  {
    CodeBlock(BlockId(index), DefaultOptions, index, 0, "")
  }

  /** `CodeBlock::push_code`. */
  function PushCode(b: CodeBlock, text: string): CodeBlock
  {
    b.(code := b.code + text)
  }

  /** What the parse closure carries from one event to the next. */
  datatype ParseState = ParseState(blocks: seq<CodeBlock>, inBlock: bool, firstLine: bool)

  const InitialState: ParseState := ParseState([], false, false)

  /** The effect of the event `e`, at position `index`, on the parse state. */
  function Step(st: ParseState, index: nat, e: Event, parseOptions: OptionsParser): ParseState
  {
    match e
    case CodeStart(_) => ParseState(st.blocks + [NewBlock(index)], true, true)
    case Text(t) =>
      if st.inBlock && st.blocks != [] then
        var k := |st.blocks| - 1;
        if st.firstLine then
          match parseOptions(t)
          case Some(o) => ParseState(st.blocks[k := st.blocks[k].(options := o)], true, false)
          case None => ParseState(st.blocks[k := PushCode(st.blocks[k], t)], true, false)
        else
          ParseState(st.blocks[k := PushCode(st.blocks[k], t)], true, st.firstLine)
      else st
    case CodeEnd(_) =>
      if st.inBlock then
        var bs := if st.blocks != [] then st.blocks[|st.blocks| - 1 := st.blocks[|st.blocks| - 1].(endIndex := index)]
                  else st.blocks;
        ParseState(bs, false, st.firstLine)
      else st
    case _ => st
  }

  /** The parse state after the whole of `events`. */
  function Scan(events: seq<Event>, parseOptions: OptionsParser): ParseState
  {
    if events == [] then InitialState
    else Step(Scan(events[..|events| - 1], parseOptions), |events| - 1, events[|events| - 1], parseOptions)
  }

  /** The blocks `parse` collects from `events`. */
  function ParsedBlocks(events: seq<Event>, parseOptions: OptionsParser): seq<CodeBlock>
  {
    Scan(events, parseOptions).blocks
  }

  /** `Renderer::parse`, after the markdown parser has produced `events`. */
  method Parse(events: seq<Event>, parseOptions: OptionsParser) returns (blocks: seq<CodeBlock>, out: seq<Event>)
    ensures out == events
    ensures blocks == ParsedBlocks(events, parseOptions)
  {
    blocks := [];
    var inBlock, firstLine := false, false;
    out := [];
    var index := 0;
    while index < |events|
      invariant 0 <= index <= |events|
      invariant out == events[..index]
      invariant ParseState(blocks, inBlock, firstLine) == Scan(events[..index], parseOptions)
    {
      var event := events[index];
      match event {
        case CodeStart(_) =>
          blocks := blocks + [NewBlock(index)];
          inBlock := true;
          firstLine := true;
        case Text(text) =>
          if inBlock && |blocks| > 0 {
            var k := |blocks| - 1;
            if firstLine {
              firstLine := false;
              match parseOptions(text) {
                case Some(options) => blocks := blocks[k := blocks[k].(options := options)];
                case None => blocks := blocks[k := PushCode(blocks[k], text)];
              }
            } else {
              blocks := blocks[k := PushCode(blocks[k], text)];
            }
          }
        case CodeEnd(_) =>
          if inBlock {
            if |blocks| > 0 {
              blocks := blocks[|blocks| - 1 := blocks[|blocks| - 1].(endIndex := index)];
            }
            inBlock := false;
          }
        case _ =>
      }
      out := out + [event];
      assert events[..index + 1][..index] == events[..index];
      index := index + 1;
    }
    assert events[..index] == events;
  }

  // ---------------------------------------------------------------------------------
  // An independent description of every block, by the positions of the events.
  // ---------------------------------------------------------------------------------

  /** The positions of the code-block start events, in order. */
  function StartPositions(events: seq<Event>): (s: seq<nat>)
    ensures forall k :: 0 <= k < |s| ==> s[k] < |events|
  {
    if events == [] then []
    else StartPositions(events[..|events| - 1]) + (if events[|events| - 1].CodeStart? then [|events| - 1] else [])
  }

  /** `StartPositions` lists exactly the positions of the start events, in increasing order. */
  lemma {:induction false} StartPositionsFacts(events: seq<Event>)
    ensures forall k :: 0 <= k < |StartPositions(events)| ==> events[StartPositions(events)[k]].CodeStart?
    ensures forall k, l :: 0 <= k < l < |StartPositions(events)| ==> StartPositions(events)[k] < StartPositions(events)[l]
    ensures forall j :: 0 <= j < |events| && events[j].CodeStart? ==> j in StartPositions(events)
  {
    if events != [] {
      var last := |events| - 1;
      var init := events[..last];
      var s0 := StartPositions(init);
      StartPositionsFacts(init);
      var s := StartPositions(events);
      assert s == s0 + (if events[last].CodeStart? then [last] else []);
      forall k | 0 <= k < |s|
        ensures events[s[k]].CodeStart?
      {
        if k < |s0| {
          assert init[s0[k]].CodeStart?;
          assert s[k] == s0[k] && events[s0[k]] == init[s0[k]];
        } else {
          assert events[last].CodeStart? && s[k] == last;
        }
      }
      forall k, l | 0 <= k < l < |s|
        ensures s[k] < s[l]
      {
        assert s[k] == s0[k];
        if l < |s0| {
          assert s[l] == s0[l];
        }
      }
      forall j | 0 <= j < |events| && events[j].CodeStart?
        ensures j in s
      {
        if j < last {
          assert init[j] == events[j];
          var k :| 0 <= k < |s0| && s0[k] == j;
          assert s[k] == j;
        } else {
          assert s == s0 + [last];
          assert s[|s0|] == j;
        }
      }
    }
  }

  /** The first position at or after `from` that holds a code-block start or end, or `|events|`. */
  function Boundary(events: seq<Event>, from: nat): (r: nat)
    requires from <= |events|
    ensures from <= r <= |events|
    decreases |events| - from
  {
    if from == |events| || IsDelimiter(events[from]) then from else Boundary(events, from + 1)
  }

  /** `Boundary` finds the first delimiter at or after `from`, and `|events|` when there is none. */
  lemma {:induction false} BoundaryFacts(events: seq<Event>, from: nat)
    requires from <= |events|
    ensures var r := Boundary(events, from);
      && (r < |events| ==> IsDelimiter(events[r]))
      && (forall j :: from <= j < r ==> !IsDelimiter(events[j]))
    decreases |events| - from
  {
    if from < |events| && !IsDelimiter(events[from]) {
      BoundaryFacts(events, from + 1);
    }
  }

  /** A delimiter at `j` bounds the search from any `from <= j`. */
  lemma {:induction false} BoundaryBefore(events: seq<Event>, from: nat, j: nat)
    requires from <= j < |events| && IsDelimiter(events[j])
    ensures Boundary(events, from) <= j
    decreases j - from
  {
    if !IsDelimiter(events[from]) {
      BoundaryBefore(events, from + 1, j);
    }
  }

  /** The texts of the `Text` events of `events`, in order. */
  function TextsIn(events: seq<Event>): seq<string>
  {
    if events == [] then []
    else TextsIn(events[..|events| - 1]) + (if events[|events| - 1].Text? then [events[|events| - 1].text] else [])
  }

  /** The concatenation of `ss`. */
  function Concat(ss: seq<string>): string
  {
    if ss == [] then "" else Concat(ss[..|ss| - 1]) + ss[|ss| - 1]
  }

  /**
   * The options and the code of a block whose text runs are `texts`: the first run is
   * its options if it decodes, and is code otherwise; every later run is code.
   */
  function BlockContent(texts: seq<string>, parseOptions: OptionsParser): (CodeBlockOptions, string)
  {
    if texts == [] then (DefaultOptions, "")
    else
      match parseOptions(texts[0])
      case Some(o) => (o, Concat(texts[1..]))
      case None => (DefaultOptions, Concat(texts))
  }

  /**
   * The block that opens at position `s`: it extends to the next start or end event; it
   * holds the text runs in between; its end index is that event's position if it is an
   * end event, and 0 (as `CodeBlock::new` leaves it) if it is another start or missing.
   */
  function ExpectedBlock(events: seq<Event>, s: nat, parseOptions: OptionsParser): CodeBlock
    requires s < |events|
  {
    var r := Boundary(events, s + 1);
    var content := BlockContent(TextsIn(events[s + 1..r]), parseOptions);
    CodeBlock(BlockId(s), content.0, s, if r < |events| && events[r].CodeEnd? then r else 0, content.1)
  }

  /** Every position of `S` lies inside `p`. */
  ghost predicate PositionsIn(p: seq<Event>, S: seq<nat>)
  {
    forall k :: 0 <= k < |S| ==> S[k] < |p|
  }

  /** Block `k` of `blocks` is the block that opens at `S[k]`. */
  ghost predicate BlocksMatch(blocks: seq<CodeBlock>, p: seq<Event>, S: seq<nat>, parseOptions: OptionsParser)
  {
    && PositionsIn(p, S)
    && |blocks| == |S|
    && (forall k {:trigger blocks[k]} :: 0 <= k < |S| ==> blocks[k] == ExpectedBlock(p, S[k], parseOptions))
  }

  /** The stretch of the block that opens at `s` has met its boundary inside `p`. */
  ghost predicate Closed(p: seq<Event>, s: nat)
  {
    s < |p| && Boundary(p, s + 1) < |p|
  }

  /** Every block but the last has met its boundary inside `p`. */
  ghost predicate EarlierClosed(p: seq<Event>, S: seq<nat>)
  {
    forall k {:trigger Closed(p, S[k])} :: 0 <= k < |S| - 1 ==> Closed(p, S[k])
  }

  /**
   * The flags: a block is open exactly when the last one has not met its boundary, and
   * then `firstLine` says that it has seen no text run yet.
   */
  ghost predicate FlagsMatch(st: ParseState, p: seq<Event>, S: seq<nat>)
  {
    && (st.inBlock <==> (|S| > 0 && S[|S| - 1] < |p| && Boundary(p, S[|S| - 1] + 1) == |p|))
    && (st.inBlock ==> |S| > 0 && S[|S| - 1] < |p| && (st.firstLine <==> TextsIn(p[S[|S| - 1] + 1..]) == []))
  }

  /**
   * The parse state `st` describes the events `p` whose start positions are `S`: block `k`
   * is the block that opens at `S[k]`, every block but the last has met its boundary, and
   * the flags say whether the last block is still open and has seen no text yet.
   */
  ghost predicate Describes(st: ParseState, p: seq<Event>, S: seq<nat>, parseOptions: OptionsParser)
  {
    BlocksMatch(st.blocks, p, S, parseOptions) && EarlierClosed(p, S) && FlagsMatch(st, p, S)
  }

  /** Appending an event does not move a boundary that already lies inside `p`. */
  lemma {:induction false} BoundaryStable(p: seq<Event>, e: Event, from: nat)
    requires from <= |p| && Boundary(p, from) < |p|
    ensures Boundary(p + [e], from) == Boundary(p, from)
    decreases |p| - from
  {
    assert (p + [e])[from] == p[from];
    if !IsDelimiter(p[from]) {
      BoundaryStable(p, e, from + 1);
    }
  }

  /** Appending an event to a stretch that has no boundary yet. */
  lemma {:induction false} BoundaryOpen(p: seq<Event>, e: Event, from: nat)
    requires from <= |p| && Boundary(p, from) == |p|
    ensures Boundary(p + [e], from) == if IsDelimiter(e) then |p| else |p| + 1
    decreases |p| - from
  {
    if from == |p| {
      assert (p + [e])[|p|] == e;
      if !IsDelimiter(e) {
        assert Boundary(p + [e], from + 1) == |p| + 1;
      }
    } else {
      assert (p + [e])[from] == p[from];
      BoundaryOpen(p, e, from + 1);
    }
  }

  /** A block that is already closed inside `p` is not affected by a further event. */
  lemma {:induction false} ExpectedBlockStable(p: seq<Event>, e: Event, s: nat, parseOptions: OptionsParser)
    requires s < |p| && Boundary(p, s + 1) < |p|
    ensures ExpectedBlock(p + [e], s, parseOptions) == ExpectedBlock(p, s, parseOptions)
  {
    var r := Boundary(p, s + 1);
    BoundaryStable(p, e, s + 1);
    assert (p + [e])[s + 1..r] == p[s + 1..r];
    assert (p + [e])[r] == p[r];
  }

  lemma {:induction false} TextsInSnoc(q: seq<Event>, e: Event)
    ensures TextsIn(q + [e]) == TextsIn(q) + (if e.Text? then [e.text] else [])
  {
    assert (q + [e])[..|q + [e]| - 1] == q;
  }

  lemma {:induction false} ConcatSnoc(ss: seq<string>, t: string)
    ensures Concat(ss + [t]) == Concat(ss) + t
  {
    assert (ss + [t])[..|ss|] == ss;
  }

  /** The content of a block with a single text run. */
  lemma {:induction false} BlockContentSingle(t: string, parseOptions: OptionsParser)
    ensures BlockContent([t], parseOptions) ==
      if parseOptions(t).Some? then (parseOptions(t).value, "") else (DefaultOptions, t)
  {
    assert [t][0] == t && [t][1..] == [];
    assert [t][..0] == [];
    assert Concat([t]) == t;
    match parseOptions(t) {
      case Some(o) =>
        assert BlockContent([t], parseOptions) == (o, Concat([]));
      case None =>
        assert BlockContent([t], parseOptions) == (DefaultOptions, Concat([t]));
    }
  }

  /** The content of an open block after one more text run, as `Step` computes it. */
  lemma {:induction false} BlockContentSnoc(texts: seq<string>, t: string, parseOptions: OptionsParser)
    ensures var c := BlockContent(texts, parseOptions);
      BlockContent(texts + [t], parseOptions) ==
        if texts == [] then
          (if parseOptions(t).Some? then (parseOptions(t).value, "") else (DefaultOptions, t))
        else (c.0, c.1 + t)
  {
    if texts == [] {
      assert texts + [t] == [t];
      BlockContentSingle(t, parseOptions);
    } else {
      var ts := texts + [t];
      assert ts[0] == texts[0];
      assert ts[1..] == texts[1..] + [t];
      ConcatSnoc(texts[1..], t);
      ConcatSnoc(texts, t);
    }
  }

  /** The block at `s` while no boundary has been seen after it. */
  lemma {:induction false} ExpectedBlockOpen(p: seq<Event>, s: nat, parseOptions: OptionsParser)
    requires s < |p| && Boundary(p, s + 1) == |p|
    ensures var c := BlockContent(TextsIn(p[s + 1..]), parseOptions);
      ExpectedBlock(p, s, parseOptions) == CodeBlock(BlockId(s), c.0, s, 0, c.1)
  {
    assert p[s + 1..|p|] == p[s + 1..];
  }

  /** An open stretch grows by one non-delimiter event. */
  lemma {:induction false} OpenStretchGrows(p: seq<Event>, e: Event, s: nat)
    requires s < |p| && Boundary(p, s + 1) == |p| && !IsDelimiter(e)
    ensures Boundary(p + [e], s + 1) == |p| + 1
    ensures TextsIn((p + [e])[s + 1..]) == TextsIn(p[s + 1..]) + (if e.Text? then [e.text] else [])
  {
    BoundaryOpen(p, e, s + 1);
    assert (p + [e])[s + 1..] == p[s + 1..] + [e];
    TextsInSnoc(p[s + 1..], e);
  }

  /** An open block whose stretch is ended by the delimiter `e`. */
  lemma {:induction false} ExpectedBlockClose(p: seq<Event>, e: Event, s: nat, parseOptions: OptionsParser)
    requires s < |p| && Boundary(p, s + 1) == |p| && IsDelimiter(e)
    ensures var b := ExpectedBlock(p, s, parseOptions);
      ExpectedBlock(p + [e], s, parseOptions) == if e.CodeEnd? then b.(endIndex := |p|) else b
  {
    BoundaryOpen(p, e, s + 1);
    var p' := p + [e];
    assert p'[s + 1..|p|] == p[s + 1..|p|];
  }

  /** The block that a start event at the end of `p` opens. */
  lemma {:induction false} ExpectedBlockNew(p: seq<Event>, s: nat, parseOptions: OptionsParser)
    requires s == |p| - 1 && p[s].CodeStart?
    ensures ExpectedBlock(p, s, parseOptions) == NewBlock(s)
  {
    assert p[s + 1..|p|] == [];
  }

  /** A block whose stretch is closed is left as it is by one more event. */
  lemma {:induction false} ClosedBlockStays(b: CodeBlock, q: seq<Event>, e: Event, s: nat, parseOptions: OptionsParser)
    requires Closed(q, s) && b == ExpectedBlock(q, s, parseOptions)
    ensures b == ExpectedBlock(q + [e], s, parseOptions)
  {
    ExpectedBlockStable(q, e, s, parseOptions);
  }

  /** An open block whose stretch meets a delimiter: an end event records its position. */
  lemma {:induction false} OpenBlockCloses(b: CodeBlock, q: seq<Event>, e: Event, s: nat, parseOptions: OptionsParser)
    requires s < |q| && Boundary(q, s + 1) == |q| && b == ExpectedBlock(q, s, parseOptions) && IsDelimiter(e)
    ensures (if e.CodeEnd? then b.(endIndex := |q|) else b) == ExpectedBlock(q + [e], s, parseOptions)
  {
    ExpectedBlockClose(q, e, s, parseOptions);
  }

  /** Whether its stretch was open or not, a block is closed by a start event and left as it is. */
  lemma {:induction false} BlockBeforeStart(b: CodeBlock, q: seq<Event>, e: Event, s: nat, parseOptions: OptionsParser)
    requires s < |q| && b == ExpectedBlock(q, s, parseOptions) && e.CodeStart?
    ensures b == ExpectedBlock(q + [e], s, parseOptions) && Closed(q + [e], s)
  {
    if Boundary(q, s + 1) == |q| {
      OpenBlockCloses(b, q, e, s, parseOptions);
      BoundaryOpen(q, e, s + 1);
    } else {
      ClosedBlockStays(b, q, e, s, parseOptions);
      BoundaryStable(q, e, s + 1);
    }
  }

  /** An open block after one more text run: options if it is the first that decodes, code otherwise. */
  lemma {:induction false} OpenBlockText(b: CodeBlock, q: seq<Event>, e: Event, s: nat, parseOptions: OptionsParser)
    requires s < |q| && Boundary(q, s + 1) == |q| && b == ExpectedBlock(q, s, parseOptions) && e.Text?
    ensures ExpectedBlock(q + [e], s, parseOptions) ==
      if TextsIn(q[s + 1..]) == [] && parseOptions(e.text).Some? then b.(options := parseOptions(e.text).value)
      else PushCode(b, e.text)
  {
    OpenStretchGrows(q, e, s);
    ExpectedBlockOpen(q, s, parseOptions);
    ExpectedBlockOpen(q + [e], s, parseOptions);
    ContentStep(b, ExpectedBlock(q + [e], s, parseOptions), TextsIn(q[s + 1..]), e.text, parseOptions);
  }

  /** An open block, described by its text runs, after one more run. */
  lemma {:induction false} ContentStep(b: CodeBlock, b': CodeBlock, texts: seq<string>, t: string, parseOptions: OptionsParser)
    requires b == CodeBlock(b.id, BlockContent(texts, parseOptions).0, b.startIndex, 0, BlockContent(texts, parseOptions).1)
    requires b' == CodeBlock(b.id, BlockContent(texts + [t], parseOptions).0, b.startIndex, 0, BlockContent(texts + [t], parseOptions).1)
    ensures b' == if texts == [] && parseOptions(t).Some? then b.(options := parseOptions(t).value) else PushCode(b, t)
  {
    BlockContentSnoc(texts, t, parseOptions);
    if texts == [] {
      assert BlockContent(texts, parseOptions) == (DefaultOptions, "");
      assert "" + t == t;
    }
  }

  /** An open block after an event that is neither a delimiter nor text. */
  lemma {:induction false} OpenBlockPassive(b: CodeBlock, q: seq<Event>, s: nat, e: Event, parseOptions: OptionsParser)
    requires s < |q| && Boundary(q, s + 1) == |q| && b == ExpectedBlock(q, s, parseOptions)
    requires e.Html? || e.Other?
    ensures b == ExpectedBlock(q + [e], s, parseOptions)
    ensures Boundary(q + [e], s + 1) == |q| + 1
    ensures TextsIn((q + [e])[s + 1..]) == TextsIn(q[s + 1..])
  {
    var p := q + [e];
    OpenStretchGrows(q, e, s);
    ExpectedBlockOpen(q, s, parseOptions);
    assert TextsIn(p[s + 1..]) == TextsIn(q[s + 1..]) + [] == TextsIn(q[s + 1..]);
    ExpectedBlockOpen(p, s, parseOptions);
  }

  /** The positions stay inside the events when one more is appended. */
  lemma {:induction false} PositionsGrow(q: seq<Event>, S: seq<nat>, e: Event)
    requires PositionsIn(q, S)
    ensures PositionsIn(q + [e], S)
  {
  }

  /** The stretches before the last block's are closed, and stay closed after one more event. */
  lemma {:induction false} EarlierStayClosed(q: seq<Event>, S: seq<nat>, e: Event)
    requires EarlierClosed(q, S)
    ensures EarlierClosed(q + [e], S)
  {
    forall k | 0 <= k < |S| - 1
      ensures Closed(q + [e], S[k])
    {
      assert Closed(q, S[k]);
      BoundaryStable(q, e, S[k] + 1);
    }
  }

  /** The blocks before the last one are closed, so one more event leaves them as they are. */
  lemma {:induction false} EarlierBlocksStay(blocks: seq<CodeBlock>, q: seq<Event>, S: seq<nat>, e: Event, parseOptions: OptionsParser)
    requires BlocksMatch(blocks, q, S, parseOptions) && EarlierClosed(q, S)
    ensures forall k :: 0 <= k < |S| - 1 ==> blocks[k] == ExpectedBlock(q + [e], S[k], parseOptions)
  {
    forall k | 0 <= k < |S| - 1
      ensures blocks[k] == ExpectedBlock(q + [e], S[k], parseOptions)
    {
      assert Closed(q, S[k]) && blocks[k] == ExpectedBlock(q, S[k], parseOptions);
      ClosedBlockStays(blocks[k], q, e, S[k], parseOptions);
    }
  }

  /** Blocks that match before the last position, and a last block that matches, match. */
  lemma {:induction false} MatchUpdate(blocks: seq<CodeBlock>, p: seq<Event>, S: seq<nat>, x: CodeBlock, parseOptions: OptionsParser)
    requires PositionsIn(p, S) && |blocks| == |S| > 0
    requires forall k :: 0 <= k < |S| - 1 ==> blocks[k] == ExpectedBlock(p, S[k], parseOptions)
    requires x == ExpectedBlock(p, S[|S| - 1], parseOptions)
    ensures BlocksMatch(blocks[|S| - 1 := x], p, S, parseOptions)
  {
    var blocks' := blocks[|S| - 1 := x];
    assert forall k :: 0 <= k < |S| - 1 ==> blocks'[k] == blocks[k];
  }

  /** Matching blocks, and one more block that matches a new last position. */
  lemma {:induction false} MatchAppend(blocks: seq<CodeBlock>, p: seq<Event>, S: seq<nat>, x: CodeBlock, s: nat, parseOptions: OptionsParser)
    requires PositionsIn(p, S) && |blocks| == |S| && s < |p|
    requires forall k :: 0 <= k < |S| - 1 ==> blocks[k] == ExpectedBlock(p, S[k], parseOptions)
    requires |S| > 0 ==> blocks[|S| - 1] == ExpectedBlock(p, S[|S| - 1], parseOptions)
    requires x == ExpectedBlock(p, s, parseOptions)
    ensures BlocksMatch(blocks + [x], p, S + [s], parseOptions)
  {
    var blocks', S' := blocks + [x], S + [s];
    forall k | 0 <= k < |S'|
      ensures blocks'[k] == ExpectedBlock(p, S'[k], parseOptions)
    {
      if k < |S| {
        assert blocks'[k] == blocks[k] && S'[k] == S[k];
      } else {
        assert blocks'[k] == x && S'[k] == s;
      }
    }
    assert PositionsIn(p, S');
  }

  /** While no block is open, an event other than a start changes neither the state nor its meaning. */
  lemma {:induction false} StepWhileClosed(st: ParseState, q: seq<Event>, S: seq<nat>, e: Event, parseOptions: OptionsParser)
    requires Describes(st, q, S, parseOptions) && !st.inBlock
    ensures Describes(st, q + [e], S, parseOptions)
  {
    PositionsGrow(q, S, e);
    EarlierStayClosed(q, S, e);
    if |S| > 0 {
      var n := |S| - 1;
      EarlierBlocksStay(st.blocks, q, S, e, parseOptions);
      assert st.blocks[n] == ExpectedBlock(q, S[n], parseOptions);
      ClosedBlockStays(st.blocks[n], q, e, S[n], parseOptions);
      MatchUpdate(st.blocks, q + [e], S, st.blocks[n], parseOptions);
      assert st.blocks[n := st.blocks[n]] == st.blocks;
      BoundaryStable(q, e, S[n] + 1);
    }
  }

  /** A start event opens a new block and closes the stretch of the previous one. */
  lemma {:induction false} StepStart(st: ParseState, q: seq<Event>, S: seq<nat>, e: Event, parseOptions: OptionsParser)
    requires Describes(st, q, S, parseOptions) && e.CodeStart?
    ensures Describes(ParseState(st.blocks + [NewBlock(|q|)], true, true), q + [e], S + [|q|], parseOptions)
  {
    var p, S' := q + [e], S + [|q|];
    PositionsGrow(q, S, e);
    EarlierStayClosed(q, S, e);
    EarlierBlocksStay(st.blocks, q, S, e, parseOptions);
    if |S| > 0 {
      var n := |S| - 1;
      assert st.blocks[n] == ExpectedBlock(q, S[n], parseOptions);
      BlockBeforeStart(st.blocks[n], q, e, S[n], parseOptions);
    }
    ExpectedBlockNew(p, |q|, parseOptions);
    MatchAppend(st.blocks, p, S, NewBlock(|q|), |q|, parseOptions);
    assert EarlierClosed(p, S');
    assert Boundary(p, |q| + 1) == |p|;
    assert p[|q| + 1..] == [];
  }

  /** A text run extends the open block. */
  lemma {:induction false} StepText(st: ParseState, q: seq<Event>, S: seq<nat>, e: Event, parseOptions: OptionsParser)
    requires Describes(st, q, S, parseOptions) && e.Text? && st.inBlock
    ensures Describes(Step(st, |q|, e, parseOptions), q + [e], S, parseOptions)
  {
    var p := q + [e];
    var st' := Step(st, |q|, e, parseOptions);
    var n := |S| - 1;
    var s := S[n];
    PositionsGrow(q, S, e);
    EarlierStayClosed(q, S, e);
    EarlierBlocksStay(st.blocks, q, S, e, parseOptions);
    assert st.blocks[n] == ExpectedBlock(q, s, parseOptions);
    OpenBlockText(st.blocks[n], q, e, s, parseOptions);
    assert st'.blocks == st.blocks[n := ExpectedBlock(p, s, parseOptions)];
    MatchUpdate(st.blocks, p, S, ExpectedBlock(p, s, parseOptions), parseOptions);
    OpenStretchGrows(q, e, s);
    assert st'.inBlock && !st'.firstLine;
    assert TextsIn(p[s + 1..]) != [];
  }

  /** An end event closes the open block at its own position. */
  lemma {:induction false} StepEnd(st: ParseState, q: seq<Event>, S: seq<nat>, e: Event, parseOptions: OptionsParser)
    requires Describes(st, q, S, parseOptions) && e.CodeEnd? && st.inBlock
    ensures Describes(Step(st, |q|, e, parseOptions), q + [e], S, parseOptions)
  {
    var n := |S| - 1;
    var s := S[n];
    var x := st.blocks[n].(endIndex := |q|);
    assert Step(st, |q|, e, parseOptions) == ParseState(st.blocks[n := x], false, st.firstLine);
    PositionsGrow(q, S, e);
    EarlierStayClosed(q, S, e);
    EarlierBlocksStay(st.blocks, q, S, e, parseOptions);
    assert st.blocks[n] == ExpectedBlock(q, s, parseOptions);
    OpenBlockCloses(st.blocks[n], q, e, s, parseOptions);
    MatchUpdate(st.blocks, q + [e], S, x, parseOptions);
    BoundaryOpen(q, e, s + 1);
  }

  /** An event that is neither a delimiter nor text inside the open block changes nothing. */
  lemma {:induction false} StepPassive(st: ParseState, q: seq<Event>, S: seq<nat>, e: Event, parseOptions: OptionsParser)
    requires Describes(st, q, S, parseOptions) && (e.Html? || e.Other?) && st.inBlock
    ensures Describes(st, q + [e], S, parseOptions)
  {
    var n := |S| - 1;
    PositionsGrow(q, S, e);
    EarlierStayClosed(q, S, e);
    EarlierBlocksStay(st.blocks, q, S, e, parseOptions);
    assert st.blocks[n] == ExpectedBlock(q, S[n], parseOptions);
    OpenBlockPassive(st.blocks[n], q, S[n], e, parseOptions);
    MatchUpdate(st.blocks, q + [e], S, st.blocks[n], parseOptions);
    assert st.blocks[n := st.blocks[n]] == st.blocks;
  }

  /** The parse state after one more event describes the longer sequence. */
  lemma {:induction false} StepDescribes(st: ParseState, q: seq<Event>, S: seq<nat>, e: Event, parseOptions: OptionsParser)
    requires Describes(st, q, S, parseOptions)
    ensures Describes(Step(st, |q|, e, parseOptions), q + [e], S + (if e.CodeStart? then [|q|] else []), parseOptions)
  {
    if e.CodeStart? {
      StepStart(st, q, S, e, parseOptions);
    } else {
      assert S + [] == S;
      if !st.inBlock {
        StepWhileClosed(st, q, S, e, parseOptions);
      } else if e.Text? {
        StepText(st, q, S, e, parseOptions);
      } else if e.CodeEnd? {
        StepEnd(st, q, S, e, parseOptions);
      } else {
        StepPassive(st, q, S, e, parseOptions);
      }
    }
  }

  /** The parse state after any events describes them, with their start positions. */
  lemma {:induction false} ScanDescribes(p: seq<Event>, parseOptions: OptionsParser)
    ensures Describes(Scan(p, parseOptions), p, StartPositions(p), parseOptions)
  {
    if p != [] {
      var q, e := p[..|p| - 1], p[|p| - 1];
      assert p == q + [e];
      ScanDescribes(q, parseOptions);
      StepDescribes(Scan(q, parseOptions), q, StartPositions(q), e, parseOptions);
    }
  }


  // ---------------------------------------------------------------------------------
  // What `parse` promises, read off the description above.
  // ---------------------------------------------------------------------------------

  /**
   * `parse` collects one block per start event, in order, and block `k` is the block that
   * opens at the `k`-th start event.
   */
  lemma {:induction false} ParseCharacterised(events: seq<Event>, parseOptions: OptionsParser)
    ensures |ParsedBlocks(events, parseOptions)| == |StartPositions(events)|
    ensures forall k :: 0 <= k < |StartPositions(events)| ==>
      ParsedBlocks(events, parseOptions)[k] == ExpectedBlock(events, StartPositions(events)[k], parseOptions)
  {
    ScanDescribes(events, parseOptions);
  }

  /**
   * Each collected block: it starts at a start event and is named after that position;
   * blocks are in increasing order of position; its options and code come from the text
   * runs up to the next start or end event; its end index is that event's position when
   * it is an end event, and stays 0 otherwise.
   */
  lemma {:induction false} ParsedBlockFacts(events: seq<Event>, parseOptions: OptionsParser, k: nat)
    requires k < |ParsedBlocks(events, parseOptions)|
    ensures var b := ParsedBlocks(events, parseOptions)[k];
      && b.startIndex < |events| && events[b.startIndex].CodeStart?
      && b.id == BlockId(b.startIndex)
      && (k > 0 ==> ParsedBlocks(events, parseOptions)[k - 1].startIndex < b.startIndex)
      && var r := Boundary(events, b.startIndex + 1);
      && (b.options, b.code) == BlockContent(TextsIn(events[b.startIndex + 1..r]), parseOptions)
      && (forall j :: b.startIndex < j < r ==> !IsDelimiter(events[j]))
      && (b.endIndex != 0 <==> r < |events| && events[r].CodeEnd?)
      && (b.endIndex != 0 ==> b.endIndex == r && b.startIndex < b.endIndex)
  {
    ParsedBlockAt(events, parseOptions, k);
    StartAt(events, k);
    ExpectedBlockFacts(events, StartPositions(events)[k], parseOptions);
  }

  /** Block `k`, and the one before it, are the blocks that open at their start events. */
  lemma {:induction false} ParsedBlockAt(events: seq<Event>, parseOptions: OptionsParser, k: nat)
    requires k < |ParsedBlocks(events, parseOptions)|
    ensures k < |StartPositions(events)|
    ensures ParsedBlocks(events, parseOptions)[k] == ExpectedBlock(events, StartPositions(events)[k], parseOptions)
    ensures k > 0 ==> ParsedBlocks(events, parseOptions)[k - 1] == ExpectedBlock(events, StartPositions(events)[k - 1], parseOptions)
  {
    ParseCharacterised(events, parseOptions);
  }

  /** The `k`-th start position holds a start event and follows the one before it. */
  lemma {:induction false} StartAt(events: seq<Event>, k: nat)
    requires k < |StartPositions(events)|
    ensures var S := StartPositions(events);
      S[k] < |events| && events[S[k]].CodeStart? && (k > 0 ==> S[k - 1] < S[k])
  {
    StartPositionsFacts(events);
  }

  /** The block that opens at the start event at `s`, read off its definition. */
  lemma {:induction false} ExpectedBlockFacts(events: seq<Event>, s: nat, parseOptions: OptionsParser)
    requires s < |events|
    ensures var b := ExpectedBlock(events, s, parseOptions);
      && b.startIndex == s && b.id == BlockId(s)
      && var r := Boundary(events, s + 1);
      && (b.options, b.code) == BlockContent(TextsIn(events[s + 1..r]), parseOptions)
      && (forall j :: s < j < r ==> !IsDelimiter(events[j]))
      && (b.endIndex != 0 <==> r < |events| && events[r].CodeEnd?)
      && (b.endIndex != 0 ==> b.endIndex == r && s < b.endIndex)
  {
    BoundaryFacts(events, s + 1);
  }

  /** Every start event begins a block of its own. */
  lemma {:induction false} EveryStartCollected(events: seq<Event>, parseOptions: OptionsParser, i: nat)
    requires i < |events| && events[i].CodeStart?
    ensures exists k :: 0 <= k < |ParsedBlocks(events, parseOptions)| && ParsedBlocks(events, parseOptions)[k].startIndex == i
  {
    ParseCharacterised(events, parseOptions);
    StartPositionsFacts(events);
    var S := StartPositions(events);
    var k :| 0 <= k < |S| && S[k] == i;
    assert ParsedBlocks(events, parseOptions)[k].startIndex == i;
  }

  /** Every start event is followed, before any other start, by an end event. */
  ghost predicate WellFormed(events: seq<Event>)
  {
    forall i :: 0 <= i < |events| && events[i].CodeStart? ==>
      Boundary(events, i + 1) < |events| && events[Boundary(events, i + 1)].CodeEnd?
  }

  /** In a well-formed document every block ends at the end event that closes it. */
  lemma {:induction false} WellFormedBlocksClose(events: seq<Event>, parseOptions: OptionsParser, k: nat)
    requires WellFormed(events) && k < |ParsedBlocks(events, parseOptions)|
    ensures var b := ParsedBlocks(events, parseOptions)[k];
      b.startIndex < b.endIndex < |events| && events[b.endIndex].CodeEnd?
  {
    ParsedBlockFacts(events, parseOptions, k);
  }

  /**
   * A start event inside an open block opens another block; the open one is not closed
   * by it and keeps end index 0.
   */
  lemma {:induction false} NestedStartKeepsEndZero(events: seq<Event>, parseOptions: OptionsParser, k: nat)
    requires k < |ParsedBlocks(events, parseOptions)|
    requires var s := ParsedBlocks(events, parseOptions)[k].startIndex;
      s < |events| && Boundary(events, s + 1) < |events| && events[Boundary(events, s + 1)].CodeStart?
    ensures ParsedBlocks(events, parseOptions)[k].endIndex == 0
    ensures k + 1 < |ParsedBlocks(events, parseOptions)|
    ensures ParsedBlocks(events, parseOptions)[k + 1].startIndex == Boundary(events, ParsedBlocks(events, parseOptions)[k].startIndex + 1)
  {
    ParsedBlockFacts(events, parseOptions, k);
    var s := ParsedBlocks(events, parseOptions)[k].startIndex;
    var r := Boundary(events, s + 1);
    EveryStartCollected(events, parseOptions, r);
    var k' :| 0 <= k' < |ParsedBlocks(events, parseOptions)| && ParsedBlocks(events, parseOptions)[k'].startIndex == r;
    // the block that starts at `r` comes after block `k`, and none starts in between
    if k' < k {
      ParsedOrder(events, parseOptions, k', k);
    }
    if k' > k + 1 {
      ParsedOrder(events, parseOptions, k, k + 1);
      ParsedOrder(events, parseOptions, k + 1, k');
      ParsedBlockFacts(events, parseOptions, k + 1);
    }
  }

  /** The collected blocks are strictly ordered by start position. */
  lemma {:induction false} ParsedOrder(events: seq<Event>, parseOptions: OptionsParser, k: nat, l: nat)
    requires k < l < |ParsedBlocks(events, parseOptions)|
    ensures ParsedBlocks(events, parseOptions)[k].startIndex < ParsedBlocks(events, parseOptions)[l].startIndex
  {
    ParseCharacterised(events, parseOptions);
    StartPositionsFacts(events);
  }
}
