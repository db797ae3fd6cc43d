/** The driver `njs_disassembler` (njs_disassembler.c:147-161): it walks
    every code object the VM holds, in the order they are stored, and lists
    each one in turn on the same output. */
module Driver {
  import opened Vm
  import opened Listing
  import opened Decoder
  import opened Walker

  /** A compiled code object: the bytes `[start, end)` of its instructions. */
  datatype CodeObject = CodeObject(start: nat, end: nat)

  /** The listing of a sequence of code objects: each one's lines, in the
      order the objects are stored. No objects list nothing, and one object
      is listed exactly as the walker lists it. */
  function Listings(step: Decoding, codes: seq<CodeObject>): (r: seq<Line>)
    requires Advances(step)
    ensures codes == [] ==> r == []
    ensures |codes| == 1 ==> r == Walk(step, codes[0].start, codes[0].end)
    decreases |codes|
  {
    if codes == [] then []
    else
      var last := codes[|codes| - 1];
      Listings(step, codes[..|codes| - 1]) + Walk(step, last.start, last.end)
  }

  /** The listing of two runs of code objects is the first run's listing
      followed by the second's: no object's lines come before those of an
      object stored ahead of it. */
  lemma {:induction false} ListingsInOrder(step: Decoding, a: seq<CodeObject>, b: seq<CodeObject>)
    requires Advances(step)
    ensures Listings(step, a + b) == Listings(step, a) + Listings(step, b)
    decreases |b|
  {
    if b == [] {
      assert a + b == a;
    } else {
      var init := b[..|b| - 1];
      var last := b[|b| - 1];
      var lines := Walk(step, last.start, last.end);
      assert (a + b)[..|a + b| - 1] == a + init;
      calc {
        Listings(step, a + b);
        Listings(step, a + init) + lines;
        { ListingsInOrder(step, a, init); }
        (Listings(step, a) + Listings(step, init)) + lines;
        Listings(step, a) + (Listings(step, init) + lines);
        Listings(step, a) + Listings(step, b);
      }
    }
  }

  /** `njs_disassembler`: the code objects are visited one after another,
      counting `n` down from their number, and each is handed to the walker. */
  method Disassembler(abi: Abi, mem: Memory, codes: seq<CodeObject>) returns (out: seq<Line>)
    requires abi.SizesPositive()
    ensures out == Listings(Steps(abi, mem), codes)
  {
    ghost var step := Steps(abi, mem);
    var i: nat := 0;
    var n: nat := |codes|;
    out := [];
    while n != 0
      invariant i + n == |codes|
      invariant out == Listings(step, codes[..i])
    {
      var code := codes[i];
      var lines, _, _ := Disassemble(abi, mem, code.start, code.end, step);
      assert codes[..i + 1][..i] == codes[..i];
      out := out + lines;
      i := i + 1;
      n := n - 1;
    }
    assert codes[..i] == codes;
  }
}
