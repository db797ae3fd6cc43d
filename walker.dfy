/** The instruction walker `njs_disassemble` (njs_disassembler.c:164-339):
    a cursor moves over `[start, end)` one instruction at a time, and each
    pass prints at most one line. */
module Walker {
  import opened Format
  import opened Vm
  import opened Catalog
  import opened Listing
  import opened Decoder

  /** The loop's view of the decoder: for each cursor position, the line
      printed there, if any, and how far the cursor moves. */
  type Decoding = nat -> Decoded

  /** Every pass moves the cursor forward. */
  ghost predicate Advances(step: Decoding) {
    forall q :: step(q).size > 0
  }

  /** `step` decodes as `Step` does, for a fixed layout and memory. */
  ghost predicate Decodes(abi: Abi, mem: Memory, step: Decoding)
    requires abi.SizesPositive()
  {
    forall q {:trigger Step(abi, mem, q)} :: step(q) == Step(abi, mem, q)
  }

  /** The decoder of `Step`, for a fixed layout and memory. */
  function Steps(abi: Abi, mem: Memory): (step: Decoding)
    requires abi.SizesPositive()
    ensures Advances(step) && Decodes(abi, mem, step)
  {
    (q: nat) => Step(abi, mem, q)
  }

  /** The lines printed while the cursor moves from `p` until it reaches `end`. */
  function Walk(step: Decoding, p: nat, end: nat): seq<Line>
    requires Advances(step)
    decreases end - p
  {
    if p >= end then []
    else
      var d := step(p);
      (if d.line.Some? then [d.line.value] else []) + Walk(step, p + d.size, end)
  }

  /** Where the cursor stops: the first position it reaches at or past `end`. */
  function FinalCursor(step: Decoding, p: nat, end: nat): (q: nat)
    requires Advances(step)
    ensures q >= end && q >= p
    ensures p >= end ==> q == p
    decreases end - p
  {
    if p >= end then p else FinalCursor(step, p + step(p).size, end)
  }

  /** The positions at which the loop decodes an instruction, one per pass.
      They start at `p`, stay inside `[p, end)`, and each is the one before
      it plus the size decoded there. */
  function Cursors(step: Decoding, p: nat, end: nat): (cs: seq<nat>)
    requires Advances(step)
    ensures p < end <==> |cs| >= 1
    ensures |cs| >= 1 ==> cs[0] == p
    ensures forall k :: 0 <= k < |cs| ==> p <= cs[k] < end
    ensures forall k :: 0 <= k < |cs| - 1 ==> cs[k + 1] == cs[k] + step(cs[k]).size
    decreases end - p
  {
    if p >= end then []
    else [p] + Cursors(step, p + step(p).size, end)
  }

  /** The size decoded at the last cursor takes it to where the loop stops. */
  lemma {:induction false} LastCursor(step: Decoding, p: nat, end: nat)
    requires Advances(step) && p < end
    ensures var cs := Cursors(step, p, end);
            FinalCursor(step, p, end) == cs[|cs| - 1] + step(cs[|cs| - 1]).size
    decreases end - p
  {
    var q := p + step(p).size;
    var cs := Cursors(step, p, end);
    var rest := Cursors(step, q, end);
    assert cs == [p] + rest;
    assert FinalCursor(step, p, end) == FinalCursor(step, q, end);
    if q < end {
      LastCursor(step, q, end);
      assert cs[|cs| - 1] == rest[|rest| - 1];
    } else {
      assert cs == [p];
    }
  }

  /** Each pass prints at most one line. */
  lemma {:induction false} LinesPerPass(step: Decoding, p: nat, end: nat)
    requires Advances(step)
    ensures |Walk(step, p, end)| <= |Cursors(step, p, end)|
    decreases end - p
  {
    if p < end {
      LinesPerPass(step, p + step(p).size, end);
    }
  }

  /** Every line the decoder prints shows its catalog name, if any, 16
      characters wide. */
  ghost predicate PrintsAligned(step: Decoding) {
    forall q :: step(q).line.Some? ==> NameAligned(step(q).line.value)
  }

  lemma StepsAligned(abi: Abi, mem: Memory)
    requires abi.SizesPositive()
    ensures PrintsAligned(Steps(abi, mem))
  {
    forall q: nat
      ensures Steps(abi, mem)(q).line.Some? ==> NameAligned(Steps(abi, mem)(q).line.value)
    {
      StepAligned(abi, mem, q);
    }
  }

  /** Every line of the walk is laid out in the columns of `LineLayout`. */
  lemma {:induction false} WalkAligned(step: Decoding, p: nat, end: nat)
    requires Advances(step) && PrintsAligned(step)
    ensures forall k :: 0 <= k < |Walk(step, p, end)| ==> NameAligned(Walk(step, p, end)[k])
    decreases end - p
  {
    if p < end {
      WalkAligned(step, p + step(p).size, end);
    }
  }

  /** A pass that decodes `line` and `size` at `p` moves its line, if any,
      from what is left to print onto what is printed. */
  lemma WalkPass(step: Decoding, start: nat, end: nat, out: seq<Line>, p: nat,
                 line: Option<Line>, size: nat)
    requires Advances(step) && p < end
    requires Walk(step, start, end) == out + Walk(step, p, end)
    requires Decoded(line, size) == step(p)
    ensures line.Some? ==> Walk(step, start, end) == (out + [line.value]) + Walk(step, p + size, end)
    ensures line.None? ==> Walk(step, start, end) == out + Walk(step, p + size, end)
  {
    var rest := Walk(step, p + size, end);
    if line.Some? {
      assert Walk(step, p, end) == [line.value] + rest;
      assert out + ([line.value] + rest) == (out + [line.value]) + rest;
    } else {
      assert Walk(step, p, end) == [] + rest;
      assert [] + rest == rest;
    }
  }

  /** A pass at `p` adds `p` to the positions decoded so far. */
  lemma CursorsPass(step: Decoding, start: nat, end: nat, visited: seq<nat>, p: nat, size: nat)
    requires Advances(step) && p < end
    requires Cursors(step, start, end) == visited + Cursors(step, p, end)
    requires size == step(p).size
    ensures Cursors(step, start, end) == (visited + [p]) + Cursors(step, p + size, end)
  {
    var rest := Cursors(step, p + size, end);
    calc {
      Cursors(step, start, end);
      visited + Cursors(step, p, end);
      visited + ([p] + rest);
      (visited + [p]) + rest;
    }
  }

  /** What the loop of `njs_disassemble` has done once its cursor is at `p`:
      `out` and `visited` are the lines printed and the positions decoded
      so far, and what is left to do is the walk from `p`. */
  ghost predicate Progress(step: Decoding, start: nat, end: nat, out: seq<Line>, visited: seq<nat>, p: nat)
    requires Advances(step)
  {
    && Walk(step, start, end) == out + Walk(step, p, end)
    && Cursors(step, start, end) == visited + Cursors(step, p, end)
    && FinalCursor(step, start, end) == FinalCursor(step, p, end)
  }

  /** One pass keeps `Progress`: it prints its line, if any, records its
      position and moves the cursor by the size decoded. */
  lemma PassProgress(step: Decoding, start: nat, end: nat, out: seq<Line>, visited: seq<nat>, p: nat,
                     line: Option<Line>, size: nat)
    requires Advances(step) && p < end
    requires Progress(step, start, end, out, visited, p)
    requires Decoded(line, size) == step(p)
    ensures line.Some? ==> Progress(step, start, end, out + [line.value], visited + [p], p + size)
    ensures line.None? ==> Progress(step, start, end, out, visited + [p], p + size)
  {
    WalkPass(step, start, end, out, p, line, size);
    CursorsPass(step, start, end, visited, p, size);
  }

  /** One pass of the loop body of `njs_disassemble`, lines 189-333: the
      special forms are tested first, then `code_names` is scanned row by
      row; a tag found nowhere is `UNKNOWN` and skipped by the width of one
      tag. The line the pass prints, if any, and the distance the cursor
      moves are those of `step`, which decodes as `Step`. */
  method Pass(abi: Abi, mem: Memory, p: nat, ghost step: Decoding) returns (line: Option<Line>, size: nat)
    requires abi.SizesPositive() && Decodes(abi, mem, step)
    ensures Decoded(line, size) == step(p)
  {
    assert step(p) == Step(abi, mem, p);
    var operation := TagAt(mem, p);

    var special := SpecialForm(abi, operation);
    if special.Some? {
      var op := special.value;
      return Some(DecodeSpecial(abi, mem, p, op)), abi.sizeOf(SpecialStruct(op));
    }

    // The do-while scan of `code_names`; the table is not empty, so it runs
    // as a while loop.
    var i: nat := 0;
    var n: nat := CATALOG_SIZE;
    while n != 0
      invariant i + n == CATALOG_SIZE
      invariant Lookup(abi, operation) == LookupFrom(abi, operation, i)
    {
      var row := Row(i);
      if abi.tagOf(row.operation) == operation {
        return DecodeRegular(abi, mem, p, row), abi.sizeOf(row.size);  // goto next
      }
      i := i + 1;
      n := n - 1;
    }

    return Some(UnknownLine(operation)), abi.sizeOf(OperationT);
  }

  /** `njs_disassemble`: the loop of lines 188-338. Each pass prints at most
      one line and moves the cursor on until it reaches `end`. Each `printf`
      call is recorded as the line it prints; `Render` gives its text. The
      ghost `step` is the decoder the result is stated by, `Steps(abi, mem)`;
      the ghost `visited` and `stop` record the positions the loop decodes
      and the cursor it stops at. */
  method Disassemble(abi: Abi, mem: Memory, start: nat, end: nat, ghost step: Decoding)
    returns (out: seq<Line>, ghost visited: seq<nat>, ghost stop: nat)
    requires abi.SizesPositive() && Advances(step) && Decodes(abi, mem, step)
    ensures out == Walk(step, start, end)
    ensures visited == Cursors(step, start, end)
    ensures stop == FinalCursor(step, start, end)
  {
    var p: nat := start;
    out := [];
    visited := [];
    while p < end
      invariant Progress(step, start, end, out, visited, p)
      decreases end - p
    {
      var line, size := Pass(abi, mem, p, step);
      PassProgress(step, start, end, out, visited, p, line, size);
      if line.Some? {
        out := out + [line.value];
      }
      visited := visited + [p];
      p := p + size;
    }
    stop := p;
  }
}
