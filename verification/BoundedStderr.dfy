/** The bounded stderr ring as a window on an unbounded log. */
module BoundedStderr {
  import opened ProofProtocol

  const MAX_STDERR_BYTES: nat := 256 * 1024
  const U64_LIMIT := 0x1_0000_0000_0000_0000

  /** Where the retained window of a log begins. */
  function WindowStart(log: seq<Byte>): nat {
    if |log| > MAX_STDERR_BYTES then |log| - MAX_STDERR_BYTES else 0
  }

  /** What of the log after `offset` is still there. */
  function Since(log: seq<Byte>, offset: nat): seq<Byte> {
    if offset >= |log| then [] else if offset >= WindowStart(log) then log[offset..] else log[WindowStart(log)..]
  }

  function SaturatingAdd(a: nat, b: nat): nat {
    if a + b < U64_LIMIT then a + b else U64_LIMIT - 1
  }

  class Ring {
    var bytes: seq<Byte>
    var startOffset: nat
    var endOffset: nat
    ghost var log: seq<Byte>

    /** The ring holds exactly the window of everything ever appended. */
    ghost predicate Valid()
      reads this
    {
      && |log| < U64_LIMIT && endOffset == |log|
      && startOffset == WindowStart(log) && bytes == log[startOffset..]
    }

    constructor ()
      ensures Valid() && log == []
    {
      bytes, startOffset, endOffset, log := [], 0, 0, [];
    }

    method Append(chunk: seq<Byte>)
      requires Valid() && |log| + |chunk| < U64_LIMIT
      modifies this
      ensures Valid() && log == old(log) + chunk
      ensures endOffset == |log| && startOffset == (if |log| > 262_144 then |log| - 262_144 else 0)
      ensures bytes == log[startOffset..]
    {
      ghost var before := log;
      bytes := bytes + chunk;
      endOffset := SaturatingAdd(endOffset, |chunk|);
      log := log + chunk;
      assert bytes == log[startOffset..];
      var excess := if |bytes| > MAX_STDERR_BYTES then |bytes| - MAX_STDERR_BYTES else 0;
      if excess > 0 {
        assert bytes[excess..] == log[startOffset + excess..];
        bytes := bytes[excess..];
        startOffset := SaturatingAdd(startOffset, excess);
      }
    }

    method Offset() returns (offset: nat)
      requires Valid()
      ensures offset == |log|
    {
      offset := endOffset;
    }

    method BytesSince(offset: nat) returns (tail: seq<Byte>)
      requires Valid()
      ensures tail == Since(log, offset)
      ensures offset >= |log| ==> tail == []
      ensures offset < |log| ==> tail == log[if |log| <= 262_144 + offset then offset else |log| - 262_144..]
    {
      var retained := if offset > startOffset then offset else startOffset;
      if retained > endOffset { retained := endOffset; }
      tail := bytes[retained - startOffset..];
    }
  }

  /** Reading from a saved offset, after any further output: the last MAX bytes of what came after the
      offset was taken, hence all of it exactly when no more than MAX bytes came. */
  lemma SavedOffsetReadsTheTail(before: seq<Byte>, after: seq<Byte>)
    ensures Since(before + after, |before|) == after[if |after| > 262_144 then |after| - 262_144 else 0..]
    ensures Since(before + after, |before|) == after <==> |after| <= 262_144
  {
    var log := before + after;
    if |after| > MAX_STDERR_BYTES {
      assert log[WindowStart(log)..] == after[WindowStart(after)..];
    } else {
      assert log[|before|..] == after;
    }
  }
}
