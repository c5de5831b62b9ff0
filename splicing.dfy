/**
 * Wrapping the code blocks (`Renderer::render`, the loop after parsing): four raw HTML
 * fragments per block are inserted into the event vector, each at its target index plus
 * the number of fragments inserted before it (`insert_offset`).
 */
module Splicing {
  import opened Wrappers
  import opened Strings
  import opened Markdown
  import opened CodeBlocks

  // ---------------------------------------------------------------------------------
  // The fragments.
  // ---------------------------------------------------------------------------------

  /**
   * The four HTML fragments put around one block: the outer wrapper opening and the item
   * header go before its start event, the item closing and the outer wrapper closing after
   * its end event. The markup itself is in module Accordion; the splice does not depend on it.
   */
  datatype Wrapper = Wrapper(listOpen: string, itemOpen: string, itemClose: string, listClose: string)

  /** How a block's wrapper is built from the block. */
  type Markup = CodeBlock -> Wrapper

  // ---------------------------------------------------------------------------------
  // Insertion into the event vector.
  // ---------------------------------------------------------------------------------

  /** One `insert_html` call: the index it is given and the fragment. */
  datatype Insertion = Insertion(target: nat, html: string)

  /** The four `insert_html` calls for one block, in the order they are made. */
  function Fragments(b: CodeBlock, w: Wrapper): (f: seq<Insertion>)
    ensures |f| == 4
    ensures f[0].target == f[1].target == b.startIndex
    ensures f[2].target == f[3].target == b.endIndex + 1
  {
    [ Insertion(b.startIndex, w.listOpen),
      Insertion(b.startIndex, w.itemOpen),
      Insertion(b.endIndex + 1, w.itemClose),
      Insertion(b.endIndex + 1, w.listClose) ]
  }

  /** All the `insert_html` calls of the loop over `blocks`. */
  function Insertions(blocks: seq<CodeBlock>, markup: Markup): (ins: seq<Insertion>)
    ensures |ins| == 4 * |blocks|
  {
    if blocks == [] then [] else Fragments(blocks[0], markup(blocks[0])) + Insertions(blocks[1..], markup)
  }

  /** The message `Vec::insert` panics with when the index is past the end. */
  function InsertPanic(index: nat, len: nat): string
  {
    "insertion index (is " + NatToString(index) + ") should be <= len (is " + NatToString(len) + ")"
  }

  /** `events.insert(at, Html(html))`: shifts the tail right by one; panics past the end. */
  function InsertAt(events: seq<Event>, at: nat, html: string): (r: Outcome<seq<Event>>)
    ensures r.Returned? <==> at <= |events|
    ensures r.Panicked? ==> r.message == InsertPanic(at, |events|)
    ensures r.Returned? ==> |r.result| == |events| + 1 && r.result[at] == Html(html)
  {
    if at <= |events| then Returned(events[..at] + [Html(html)] + events[at..])
    else Panicked(InsertPanic(at, |events|))
  }

  /** An insertion keeps the events before `at` and moves the rest one place right. */
  lemma {:induction false} InsertAtShifts(events: seq<Event>, at: nat, html: string)
    requires at <= |events|
    ensures var r := InsertAt(events, at, html).result;
      r[..at] == events[..at] && r[at + 1..] == events[at..]
  {
    var r := InsertAt(events, at, html).result;
    assert r == events[..at] + [Html(html)] + events[at..];
    SplitAround(events[..at], Html(html), events[at..]);
  }

  lemma {:induction false} SplitAround(a: seq<Event>, x: Event, b: seq<Event>)
    ensures (a + [x] + b)[..|a|] == a && (a + [x] + b)[|a| + 1..] == b
  {
  }

  /**
   * The insertions `ins` made in turn, the first with `offset` earlier insertions already
   * made: each lands at its target plus the number of insertions before it.
   */
  function ApplyInsertions(events: seq<Event>, ins: seq<Insertion>, offset: nat): Outcome<seq<Event>>
    decreases |ins|
  {
    if ins == [] then Returned(events)
    else
      match InsertAt(events, ins[0].target + offset, ins[0].html)
      case Panicked(m) => Panicked(m)
      case Returned(next) => ApplyInsertions(next, ins[1..], offset + 1)
  }

  /** Carry on with `ins` after `o`, unless `o` panicked. */
  function AndThen(o: Outcome<seq<Event>>, ins: seq<Insertion>, offset: nat): Outcome<seq<Event>>
  {
    match o
    case Panicked(m) => Panicked(m)
    case Returned(events) => ApplyInsertions(events, ins, offset)
  }

  /** The wrapping loop of `render`, over the event vector it updates in place. */
  method WrapCodeBlocks(events: seq<Event>, blocks: seq<CodeBlock>, markup: Markup) returns (r: Outcome<seq<Event>>)
    ensures r == ApplyInsertions(events, Insertions(blocks, markup), 0)
  {
    ghost var goal := ApplyInsertions(events, Insertions(blocks, markup), 0);
    var ev := events;
    var insertOffset := 0;
    assert blocks[0..] == blocks;
    for i := 0 to |blocks|
      invariant ApplyInsertions(ev, Insertions(blocks[i..], markup), insertOffset) == goal
    {
      var block := blocks[i];
      InsertionsFrom(blocks, i, markup);
      ApplyAppend(ev, Fragments(block, markup(block)), Insertions(blocks[i + 1..], markup), insertOffset);
      var wrapped := WrapBlock(ev, block, markup(block), insertOffset);
      match wrapped
      case Panicked(message) =>
        return Panicked(message);
      case Returned(next) =>
        ev := next;
      insertOffset := insertOffset + 4;
    }
    assert blocks[|blocks|..] == [];
    return Returned(ev);
  }

  /**
   * The four `insert_html` calls for one block, each inserting at its index plus the
   * running offset and then bumping the offset.
   */
  method WrapBlock(events: seq<Event>, b: CodeBlock, w: Wrapper, insertOffset: nat) returns (r: Outcome<seq<Event>>)
    ensures r == ApplyInsertions(events, Fragments(b, w), insertOffset)
  {
    ghost var goal := ApplyInsertions(events, Fragments(b, w), insertOffset);
    var fragments := Fragments(b, w);
    var ev := events;
    var offset := insertOffset;
    assert fragments[0..] == fragments;
    for j := 0 to |fragments|
      invariant offset == insertOffset + j
      invariant ApplyInsertions(ev, fragments[j..], offset) == goal
    {
      ApplyAt(ev, fragments, j, offset);
      match InsertAt(ev, fragments[j].target + offset, fragments[j].html)
      case Panicked(message) =>
        return Panicked(message);
      case Returned(next) =>
        ev := next;
      offset := offset + 1;
    }
    assert fragments[|fragments|..] == [];
    return Returned(ev);
  }

  /** Making the insertions of `f` from the `j`th on: the `j`th first. */
  lemma {:induction false} ApplyAt(events: seq<Event>, f: seq<Insertion>, j: nat, offset: nat)
    requires j < |f|
    ensures ApplyInsertions(events, f[j..], offset)
         == AndThen(InsertAt(events, f[j].target + offset, f[j].html), f[j + 1..], offset + 1)
  {
    assert f[j..][0] == f[j];
    assert f[j..][1..] == f[j + 1..];
  }

  /** The insertions from block `i` on: its four, then those of the blocks after it. */
  lemma {:induction false} InsertionsFrom(blocks: seq<CodeBlock>, i: nat, markup: Markup)
    requires i < |blocks|
    ensures Insertions(blocks[i..], markup) == Fragments(blocks[i], markup(blocks[i])) + Insertions(blocks[i + 1..], markup)
  {
    assert blocks[i..][0] == blocks[i] && blocks[i..][1..] == blocks[i + 1..];
  }

  // ---------------------------------------------------------------------------------
  // What the splice does to any event vector.
  // ---------------------------------------------------------------------------------

  /** Insertions made one list after another. */
  lemma {:induction false} ApplyAppend(events: seq<Event>, a: seq<Insertion>, b: seq<Insertion>, offset: nat)
    ensures ApplyInsertions(events, a + b, offset) == AndThen(ApplyInsertions(events, a, offset), b, offset + |a|)
    decreases |a|
  {
    if a == [] {
      assert a + b == b;
      assert ApplyInsertions(events, a, offset) == Returned(events);
    } else {
      var o := ApplyAppendStep(events, a, b, offset);
      match o
      case Panicked(m) =>
        assert ApplyInsertions(events, a, offset) == Panicked(m);
      case Returned(next) =>
        ApplyAppend(next, a[1..], b, offset + 1);
        assert ApplyInsertions(events, a, offset) == ApplyInsertions(next, a[1..], offset + 1);
    }
  }

  /** The first insertion of `a`, made before the rest of `a` and before `a + b`. */
  lemma {:induction false} ApplyAppendStep(events: seq<Event>, a: seq<Insertion>, b: seq<Insertion>, offset: nat)
      returns (o: Outcome<seq<Event>>)
    requires a != []
    ensures ApplyInsertions(events, a + b, offset) == AndThen(o, a[1..] + b, offset + 1)
    ensures ApplyInsertions(events, a, offset) == AndThen(o, a[1..], offset + 1)
    ensures offset + |a| == offset + 1 + |a[1..]|
  {
    o := InsertAt(events, a[0].target + offset, a[0].html);
    assert (a + b)[0] == a[0];
    assert (a + b)[1..] == a[1..] + b;
  }

  /** No insertion panics when every target is within the vector it started from; each adds one event. */
  lemma {:induction false} ApplyInsertionsFit(events: seq<Event>, ins: seq<Insertion>, offset: nat)
    requires offset <= |events| && TargetsWithin(ins, |events| - offset)
    ensures ApplyInsertions(events, ins, offset).Returned?
    ensures |ApplyInsertions(events, ins, offset).result| == |events| + |ins|
    decreases |ins|
  {
    if ins != [] {
      var next := InsertAt(events, ins[0].target + offset, ins[0].html).result;
      assert TargetsWithin(ins[1..], |events| - offset) by {
        assert forall i :: 0 <= i < |ins[1..]| ==> ins[1..][i] == ins[i + 1];
      }
      ApplyInsertionsFit(next, ins[1..], offset + 1);
    }
  }

  /**
   * Taking the inserted fragments out again, last first: each must be the `Html` event of
   * its fragment at its target plus its offset; `None` when one is not.
   */
  function Unsplice(events: seq<Event>, ins: seq<Insertion>, offset: nat): Option<seq<Event>>
    decreases |ins|
  {
    if ins == [] then Some(events)
    else
      var k := |ins| - 1;
      var at := ins[k].target + offset + k;
      if at < |events| && events[at] == Html(ins[k].html) then Unsplice(events[..at] + events[at + 1..], ins[..k], offset)
      else None
  }

  /** The last of a list of insertions is made into the vector the others produced. */
  lemma {:induction false} ApplyLast(events: seq<Event>, front: seq<Insertion>, last: Insertion, offset: nat)
    requires ApplyInsertions(events, front + [last], offset).Returned?
    ensures ApplyInsertions(events, front, offset).Returned?
    ensures ApplyInsertions(events, front + [last], offset)
         == InsertAt(ApplyInsertions(events, front, offset).result, last.target + offset + |front|, last.html)
  {
    ApplyAppend(events, front, [last], offset);
    var mid := ApplyInsertions(events, front, offset).result;
    var off := offset + |front|;
    assert [last][0] == last && [last][1..] == [];
    match InsertAt(mid, last.target + off, last.html)
    case Panicked(m) =>
    case Returned(next) =>
      assert ApplyInsertions(mid, [last], off) == ApplyInsertions(next, [], off + 1);
  }

  /** Taking out what an insertion put in gives back the vector it was made into. */
  lemma {:induction false} RemoveInserted(events: seq<Event>, at: nat, html: string)
    requires InsertAt(events, at, html).Returned?
    ensures var r := InsertAt(events, at, html).result;
      at < |r| && r[at] == Html(html) && r[..at] + r[at + 1..] == events
  {
    InsertAtShifts(events, at, html);
    assert events[..at] + events[at..] == events;
  }

  /** Removing the inserted `Html` events gives back the original events, in order. */
  lemma {:induction false} UnspliceInverse(events: seq<Event>, ins: seq<Insertion>, offset: nat)
    requires ApplyInsertions(events, ins, offset).Returned?
    ensures Unsplice(ApplyInsertions(events, ins, offset).result, ins, offset) == Some(events)
    decreases |ins|
  {
    if ins != [] {
      var k := |ins| - 1;
      var front, last := ins[..k], ins[k];
      assert ins == front + [last];
      ApplyLast(events, front, last, offset);
      var mid := ApplyInsertions(events, front, offset).result;
      var at := last.target + offset + k;
      RemoveInserted(mid, at, last.html);
      UnspliceLast(InsertAt(mid, at, last.html).result, ins, offset, at);
      UnspliceInverse(events, front, offset);
    }
  }

  /** Taking out the last fragment, when it is there. */
  lemma {:induction false} UnspliceLast(r: seq<Event>, ins: seq<Insertion>, offset: nat, at: nat)
    requires ins != [] && at == ins[|ins| - 1].target + offset + (|ins| - 1)
    requires at < |r| && r[at] == Html(ins[|ins| - 1].html)
    ensures Unsplice(r, ins, offset) == Unsplice(r[..at] + r[at + 1..], ins[..|ins| - 1], offset)
  {
  }

  /** Each block's indices, plus one past its end, lie within a vector of `n` events. */
  predicate BlocksFit(blocks: seq<CodeBlock>, n: nat)
  {
    forall k :: 0 <= k < |blocks| ==> blocks[k].startIndex <= n && blocks[k].endIndex + 1 <= n
  }

  /** Every insertion of `ins` targets at most position `n`. */
  predicate TargetsWithin(ins: seq<Insertion>, n: nat)
  {
    forall i :: 0 <= i < |ins| ==> ins[i].target <= n
  }

  lemma {:induction false} TargetsWithinAppend(a: seq<Insertion>, b: seq<Insertion>, n: nat)
    requires TargetsWithin(a, n) && TargetsWithin(b, n)
    ensures TargetsWithin(a + b, n)
  {
    assert forall i :: 0 <= i < |a + b| ==> (a + b)[i] == if i < |a| then a[i] else b[i - |a|];
  }

  lemma {:induction false} BlocksFitTail(blocks: seq<CodeBlock>, n: nat)
    requires blocks != [] && BlocksFit(blocks, n)
    ensures BlocksFit(blocks[1..], n)
  {
    assert forall k :: 0 <= k < |blocks[1..]| ==> blocks[1..][k] == blocks[k + 1];
  }

  /** The targets of the insertions for blocks that fit lie within the vector. */
  lemma {:induction false} InsertionsFit(blocks: seq<CodeBlock>, n: nat, markup: Markup)
    requires BlocksFit(blocks, n)
    ensures TargetsWithin(Insertions(blocks, markup), n)
  {
    if blocks != [] {
      BlocksFitTail(blocks, n);
      InsertionsFit(blocks[1..], n, markup);
      TargetsWithinAppend(Fragments(blocks[0], markup(blocks[0])), Insertions(blocks[1..], markup), n);
    }
  }

  /** The blocks that `parse` collects never make the splice panic, for any input. */
  lemma {:induction false} ParsedBlocksFit(events: seq<Event>, parseOptions: OptionsParser)
    ensures BlocksFit(ParsedBlocks(events, parseOptions), |events|)
  {
    var blocks := ParsedBlocks(events, parseOptions);
    forall k | 0 <= k < |blocks|
      ensures blocks[k].startIndex <= |events| && blocks[k].endIndex + 1 <= |events|
    {
      ParsedBlockFacts(events, parseOptions, k);
    }
  }

  /**
   * Wrapping blocks that fit never panics, adds four events per block, and the original
   * events come back when the fragments are taken out.
   */
  lemma {:induction false} SpliceFacts(events: seq<Event>, blocks: seq<CodeBlock>, markup: Markup)
    requires BlocksFit(blocks, |events|)
    ensures var r := ApplyInsertions(events, Insertions(blocks, markup), 0);
      && r.Returned?
      && |r.result| == |events| + 4 * |blocks|
      && Unsplice(r.result, Insertions(blocks, markup), 0) == Some(events)
  {
    InsertionsFit(blocks, |events|, markup);
    ApplyInsertionsFit(events, Insertions(blocks, markup), 0);
    UnspliceInverse(events, Insertions(blocks, markup), 0);
  }

  // ---------------------------------------------------------------------------------
  // The layout for blocks that are closed, in order and disjoint.
  // ---------------------------------------------------------------------------------

  /** Every block closes after it opens, inside `n` events, and ends before the next one starts. */
  predicate Separated(blocks: seq<CodeBlock>, n: nat)
  {
    && (forall k :: 0 <= k < |blocks| ==> blocks[k].startIndex < blocks[k].endIndex < n)
    && (forall k :: 0 < k < |blocks| ==> blocks[k - 1].endIndex < blocks[k].startIndex)
  }

  lemma {:induction false} SeparatedTail(blocks: seq<CodeBlock>, n: nat)
    requires blocks != [] && Separated(blocks, n)
    ensures Separated(blocks[1..], n)
    ensures |blocks| > 1 ==> blocks[0].endIndex < blocks[1..][0].startIndex
  {
    assert forall k :: 0 <= k < |blocks[1..]| ==> blocks[1..][k] == blocks[k + 1];
  }

  /**
   * The intended page: from position `from`, the events up to each block's start, the
   * outer wrapper opening and the "Input" header, the block's events from its start to
   * its end, the item and outer wrapper closings, and so on.
   */
  function Wrapped(events: seq<Event>, blocks: seq<CodeBlock>, from: nat, markup: Markup): (r: seq<Event>)
    requires Separated(blocks, |events|)
    requires from <= |events| && (blocks != [] ==> from <= blocks[0].startIndex)
    ensures |r| == |events| - from + 4 * |blocks|
    decreases |blocks|
  {
    if blocks == [] then events[from..]
    else
      var b := blocks[0];
      SeparatedTail(blocks, |events|);
      WrappedBlock(events, from, b, markup(b)) + Wrapped(events, blocks[1..], b.endIndex + 1, markup)
  }

  /** The intended page starts with the first block wrapped. */
  lemma {:induction false} WrappedCons(events: seq<Event>, blocks: seq<CodeBlock>, from: nat, markup: Markup)
    requires Separated(blocks, |events|) && blocks != [] && from <= blocks[0].startIndex
    ensures Separated(blocks[1..], |events|)
    ensures |blocks| > 1 ==> blocks[0].endIndex + 1 <= blocks[1..][0].startIndex
    ensures Wrapped(events, blocks, from, markup)
         == WrappedBlock(events, from, blocks[0], markup(blocks[0])) + Wrapped(events, blocks[1..], blocks[0].endIndex + 1, markup)
  {
    SeparatedTail(blocks, |events|);
  }

  /** Inserting `Html(x)` right at the end of `a`. */
  lemma {:induction false} InsertBetween(a: seq<Event>, b: seq<Event>, x: string)
    ensures InsertAt(a + b, |a|, x) == Returned(a + [Html(x)] + b)
  {
    assert (a + b)[..|a|] == a;
    assert (a + b)[|a|..] == b;
  }

  /** Inserting `Html(x)` into `a + events[from..]` in front of the event at `at`. */
  lemma {:induction false} InsertInside(a: seq<Event>, events: seq<Event>, from: nat, at: nat, x: string)
    requires from <= at <= |events|
    ensures InsertAt(a + events[from..], |a| + (at - from), x) == Returned(a + events[from..at] + [Html(x)] + events[at..])
  {
    assert events[from..] == events[from..at] + events[at..];
    assert a + events[from..] == (a + events[from..at]) + events[at..];
    InsertBetween(a + events[from..at], events[at..], x);
  }

  lemma {:induction false} AppendRegroup(done: seq<Event>, all: seq<Event>, head: seq<Event>, tail: seq<Event>, d: seq<Event>)
    requires all == head + tail && d == done + head
    ensures done + all == d + tail
  {
  }

  /** A closed block's events between its four fragments. */
  function Framed(events: seq<Event>, b: CodeBlock, w: Wrapper): (r: seq<Event>)
    requires b.startIndex < b.endIndex < |events|
    ensures |r| == b.endIndex - b.startIndex + 5
  {
    [Html(w.listOpen), Html(w.itemOpen)] + events[b.startIndex..b.endIndex + 1] + [Html(w.itemClose), Html(w.listClose)]
  }

  /** The events from position `from` up to a closed block's start, then the framed block. */
  function WrappedBlock(events: seq<Event>, from: nat, b: CodeBlock, w: Wrapper): (r: seq<Event>)
    requires from <= b.startIndex < b.endIndex < |events|
    ensures |r| == b.endIndex + 1 - from + 4
  {
    events[from..b.startIndex] + Framed(events, b, w)
  }

  lemma {:induction false} Regroup(d: seq<Event>, p: seq<Event>, mid: seq<Event>, rest: seq<Event>, u: Event, c: Event, ce: Event, ue: Event)
    ensures d + p + [u] + [c] + mid + [ce] + [ue] + rest == d + (p + ([u, c] + mid + [ce, ue])) + rest
  {
    assert [u] + [c] == [u, c];
    assert [ce] + [ue] == [ce, ue];
  }

  /** The four fragments of one closed block land around its events. */
  lemma {:induction false} WrapOne(events: seq<Event>, done: seq<Event>, from: nat, b: CodeBlock, w: Wrapper)
    requires from <= b.startIndex < b.endIndex < |events| && from <= |done|
    ensures ApplyInsertions(done + events[from..], Fragments(b, w), |done| - from)
         == Returned(done + WrappedBlock(events, from, b, w) + events[b.endIndex + 1..])
  {
    var s, e, off := b.startIndex, b.endIndex, |done| - from;
    var f := Fragments(b, w);
    var u, c, ce, ue := Html(w.listOpen), Html(w.itemOpen), Html(w.itemClose), Html(w.listClose);
    var v0 := done + events[from..];
    InsertInside(done, events, from, s, f[0].html);
    var a1 := done + events[from..s] + [u];
    var v1 := a1 + events[s..];
    assert ApplyInsertions(v0, f, off) == ApplyInsertions(v1, f[1..], off + 1);
    InsertBetween(a1, events[s..], f[1].html);
    var a2 := a1 + [c];
    var v2 := a2 + events[s..];
    assert ApplyInsertions(v1, f[1..], off + 1) == ApplyInsertions(v2, f[2..], off + 2) by {
      assert f[1..][0] == f[1] && f[1..][1..] == f[2..];
    }
    InsertInside(a2, events, s, e + 1, f[2].html);
    var a3 := a2 + events[s..e + 1] + [ce];
    var v3 := a3 + events[e + 1..];
    assert ApplyInsertions(v2, f[2..], off + 2) == ApplyInsertions(v3, f[3..], off + 3) by {
      assert f[2..][0] == f[2] && f[2..][1..] == f[3..];
    }
    InsertBetween(a3, events[e + 1..], f[3].html);
    var v4 := a3 + [ue] + events[e + 1..];
    assert ApplyInsertions(v3, f[3..], off + 3) == Returned(v4) by {
      assert f[3..][0] == f[3] && f[3..][1..] == [];
    }
    Regroup(done, events[from..s], events[s..e + 1], events[e + 1..], u, c, ce, ue);
  }

  lemma {:induction false} SpliceSeparatedFrom(events: seq<Event>, blocks: seq<CodeBlock>, done: seq<Event>, from: nat, markup: Markup)
    requires Separated(blocks, |events|)
    requires from <= |events| && from <= |done| && (blocks != [] ==> from <= blocks[0].startIndex)
    ensures ApplyInsertions(done + events[from..], Insertions(blocks, markup), |done| - from)
         == Returned(done + Wrapped(events, blocks, from, markup))
    decreases |blocks|
  {
    if blocks != [] {
      var b := blocks[0];
      WrappedSplit(events, blocks, from, markup, done);
      var d := done + WrappedBlock(events, from, b, markup(b));
      SpliceSeparatedFrom(events, blocks[1..], d, b.endIndex + 1, markup);
      SpliceStep(events, blocks, done, from, markup, Wrapped(events, blocks[1..], b.endIndex + 1, markup));
    } else {
      assert Insertions(blocks, markup) == [];
    }
  }

  /** The intended page after `done`: the first block wrapped, then the page of the rest. */
  lemma {:induction false} WrappedSplit(events: seq<Event>, blocks: seq<CodeBlock>, from: nat, markup: Markup, done: seq<Event>)
    requires Separated(blocks, |events|) && blocks != [] && from <= blocks[0].startIndex
    ensures Separated(blocks[1..], |events|)
    ensures |blocks| > 1 ==> blocks[0].endIndex + 1 <= blocks[1..][0].startIndex
    ensures done + Wrapped(events, blocks, from, markup)
         == (done + WrappedBlock(events, from, blocks[0], markup(blocks[0]))) + Wrapped(events, blocks[1..], blocks[0].endIndex + 1, markup)
  {
    WrappedCons(events, blocks, from, markup);
    AppendRegroup(done, Wrapped(events, blocks, from, markup), WrappedBlock(events, from, blocks[0], markup(blocks[0])),
                  Wrapped(events, blocks[1..], blocks[0].endIndex + 1, markup), done + WrappedBlock(events, from, blocks[0], markup(blocks[0])));
  }

  /** The first block's fragments, then the rest of the splice from after its end. */
  lemma {:induction false} SpliceStep(events: seq<Event>, blocks: seq<CodeBlock>, done: seq<Event>, from: nat, markup: Markup, rest: seq<Event>)
    requires blocks != [] && from <= blocks[0].startIndex < blocks[0].endIndex < |events| && from <= |done|
    requires var d := done + WrappedBlock(events, from, blocks[0], markup(blocks[0]));
      ApplyInsertions(d + events[blocks[0].endIndex + 1..], Insertions(blocks[1..], markup), |d| - (blocks[0].endIndex + 1))
        == Returned(d + rest)
    ensures ApplyInsertions(done + events[from..], Insertions(blocks, markup), |done| - from)
         == Returned(done + WrappedBlock(events, from, blocks[0], markup(blocks[0])) + rest)
  {
    var b := blocks[0];
    var d := done + WrappedBlock(events, from, b, markup(b));
    WrapOne(events, done, from, b, markup(b));
    ApplyBoth(done + events[from..], Fragments(b, markup(b)), Insertions(blocks[1..], markup), |done| - from,
              d + events[b.endIndex + 1..], |d| - (b.endIndex + 1), d + rest);
    assert Insertions(blocks, markup) == Fragments(b, markup(b)) + Insertions(blocks[1..], markup);
  }

  /** Two runs of insertions, the second starting where the first left off. */
  lemma {:induction false} ApplyBoth(events: seq<Event>, a: seq<Insertion>, b: seq<Insertion>, offset: nat,
                                     mid: seq<Event>, offset': nat, last: seq<Event>)
    requires ApplyInsertions(events, a, offset) == Returned(mid)
    requires ApplyInsertions(mid, b, offset') == Returned(last) && offset' == offset + |a|
    ensures ApplyInsertions(events, a + b, offset) == Returned(last)
  {
    ApplyAppend(events, a, b, offset);
  }

  /** For separated blocks the splice produces exactly the intended page. */
  lemma {:induction false} SpliceSeparated(events: seq<Event>, blocks: seq<CodeBlock>, markup: Markup)
    requires Separated(blocks, |events|)
    ensures ApplyInsertions(events, Insertions(blocks, markup), 0) == Returned(Wrapped(events, blocks, 0, markup))
  {
    SpliceSeparatedFrom(events, blocks, [], 0, markup);
    assert [] + events[0..] == events;
    assert [] + Wrapped(events, blocks, 0, markup) == Wrapped(events, blocks, 0, markup);
  }

  /** The `n` events of `r` from position `at` on, if there are that many. */
  function Window(r: seq<Event>, at: int, n: nat): (o: Option<seq<Event>>)
    ensures o.Some? <==> 0 <= at && at + n <= |r|
    ensures o.Some? ==> |o.value| == n
  {
    if 0 <= at && at + n <= |r| then Some(r[at..at + n]) else None
  }

  /** Block `b` with its fragments sits in `r` from position `at` on. */
  predicate PlacedAt(r: seq<Event>, events: seq<Event>, b: CodeBlock, w: Wrapper, at: int)
    requires b.startIndex < b.endIndex < |events|
  {
    Window(r, at, b.endIndex - b.startIndex + 5) == Some(Framed(events, b, w))
  }

  lemma {:induction false} SliceAfter(a: seq<Event>, t: seq<Event>, i: nat, n: nat)
    requires i + n <= |t|
    ensures (a + t)[|a| + i..|a| + i + n] == t[i..i + n]
  {
  }

  /** A block placed in `tail` is placed in `head + tail`, `|head|` further on. */
  lemma {:induction false} PlacedAfter(head: seq<Event>, tail: seq<Event>, events: seq<Event>, b: CodeBlock, w: Wrapper, i: int, at: int)
    requires b.startIndex < b.endIndex < |events|
    requires PlacedAt(tail, events, b, w, i) && at == |head| + i
    ensures PlacedAt(head + tail, events, b, w, at)
  {
    SliceAfter(head, tail, i, b.endIndex - b.startIndex + 5);
  }

  /** The first block wrapped, then anything: the block is placed at its start, less `from`. */
  lemma {:induction false} PlacedFirst(events: seq<Event>, from: nat, b: CodeBlock, w: Wrapper, tail: seq<Event>, at: int)
    requires from <= b.startIndex < b.endIndex < |events| && at == b.startIndex - from
    ensures PlacedAt(WrappedBlock(events, from, b, w) + tail, events, b, w, at)
  {
    var f := Framed(events, b, w);
    var p := events[from..b.startIndex];
    assert WrappedBlock(events, from, b, w) + tail == p + f + tail;
    assert (p + f + tail)[|p|..|p| + |f|] == f;
  }

  /**
   * In the intended page from `from` on, block `b`, the `k`th, and its fragments sit at
   * its start index, moved on by the four fragments of each earlier block.
   */
  lemma {:induction false} WrappedPlacement(events: seq<Event>, blocks: seq<CodeBlock>, from: nat, markup: Markup, k: nat, b: CodeBlock)
    requires Separated(blocks, |events|)
    requires k < |blocks| && blocks[k] == b && from <= blocks[0].startIndex
    ensures PlacedAt(Wrapped(events, blocks, from, markup), events, b, markup(b), b.startIndex + 4 * k - from)
    decreases k
  {
    var b0 := blocks[0];
    WrappedCons(events, blocks, from, markup);
    var head := WrappedBlock(events, from, b0, markup(b0));
    var tail := Wrapped(events, blocks[1..], b0.endIndex + 1, markup);
    assert Wrapped(events, blocks, from, markup) == head + tail;
    if k == 0 {
      assert b == b0;
      PlacedFirst(events, from, b0, markup(b0), tail, b0.startIndex - from);
    } else {
      assert blocks[1..][k - 1] == b;
      WrappedPlacement(events, blocks[1..], b0.endIndex + 1, markup, k - 1, b);
      PlacedAfter(head, tail, events, b, markup(b), b.startIndex + 4 * (k - 1) - (b0.endIndex + 1), b.startIndex + 4 * k - from);
    }
  }

  /**
   * When the blocks are separated, the splice never panics, and each block, between its
   * outer wrapper opening and item header and its item closing and outer wrapper closing,
   * sits at its start index moved on by the four fragments of each earlier block.
   */
  lemma {:induction false} SplicePlacement(events: seq<Event>, blocks: seq<CodeBlock>, k: nat, markup: Markup)
    requires Separated(blocks, |events|) && k < |blocks|
    ensures var r := ApplyInsertions(events, Insertions(blocks, markup), 0);
      && r.Returned? && |r.result| == |events| + 4 * |blocks|
      && PlacedAt(r.result, events, blocks[k], markup(blocks[k]), blocks[k].startIndex + 4 * k)
  {
    SpliceSeparated(events, blocks, markup);
    WrappedPlacement(events, blocks, 0, markup, k, blocks[k]);
  }

  /** In a well-formed document each collected block ends before the next one starts. */
  lemma {:induction false} ParsedBlocksApart(events: seq<Event>, parseOptions: OptionsParser, k: nat)
    requires WellFormed(events) && 0 < k < |ParsedBlocks(events, parseOptions)|
    ensures var blocks := ParsedBlocks(events, parseOptions);
      blocks[k - 1].endIndex < blocks[k].startIndex
  {
    var blocks := ParsedBlocks(events, parseOptions);
    var j := k - 1;
    ParsedBlockFacts(events, parseOptions, j);
    ParsedBlockFacts(events, parseOptions, k);
    ParsedOrder(events, parseOptions, j, k);
    WellFormedBlocksClose(events, parseOptions, j);
    BoundaryBefore(events, blocks[j].startIndex + 1, blocks[k].startIndex);
  }

  /** In a well-formed document the collected blocks are separated. */
  lemma {:induction false} ParsedBlocksSeparated(events: seq<Event>, parseOptions: OptionsParser)
    requires WellFormed(events)
    ensures Separated(ParsedBlocks(events, parseOptions), |events|)
  {
    var blocks := ParsedBlocks(events, parseOptions);
    forall k | 0 <= k < |blocks|
      ensures blocks[k].startIndex < blocks[k].endIndex < |events|
    {
      WellFormedBlocksClose(events, parseOptions, k);
    }
    forall k | 0 < k < |blocks|
      ensures blocks[k - 1].endIndex < blocks[k].startIndex
    {
      ParsedBlocksApart(events, parseOptions, k);
    }
  }
}
