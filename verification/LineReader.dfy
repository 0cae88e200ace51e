/** The chunked reader of newline-terminated protocol lines. */
module LineReader {
  import opened Wrappers
  import opened ProofProtocol

  const NEWLINE: Byte := 10

  datatype ReadOutcome = Line(bytes: seq<Byte>) | TooLong | Eof | NotUtf8

  predicate NoNewline(bytes: seq<Byte>) {
    forall i :: 0 <= i < |bytes| ==> bytes[i] != NEWLINE
  }

  function FirstNewline(bytes: seq<Byte>): (at: Option<nat>)
    ensures at.Some? ==> at.value < |bytes| && bytes[at.value] == NEWLINE
    ensures at.Some? ==> forall i :: 0 <= i < at.value ==> bytes[i] != NEWLINE
    ensures at.None? ==> NoNewline(bytes)
  {
    if bytes == [] then None
    else if bytes[0] == NEWLINE then Some(0)
    else
      var rest := FirstNewline(bytes[1..]);
      if rest.Some? then
        assert forall i :: 1 <= i < |bytes| ==> bytes[i] == bytes[1..][i - 1];
        Some(rest.value + 1)
      else
        assert forall i :: 1 <= i < |bytes| ==> bytes[i] == bytes[1..][i - 1];
        None
  }

  lemma FirstNewlineIs(bytes: seq<Byte>, at: nat)
    requires at < |bytes| && bytes[at] == NEWLINE && forall i :: 0 <= i < at ==> bytes[i] != NEWLINE
    ensures FirstNewline(bytes) == Some(at)
  {
  }

  /** A newline in the next buffer, with none before it, is the first of the stream. */
  lemma NewlineInBuffer(line: seq<Byte>, buffer: seq<Byte>, rest: seq<Byte>)
    requires NoNewline(line)
    ensures FirstNewline(buffer).Some? ==>
              FirstNewline(line + (buffer + rest)) == Some(|line| + FirstNewline(buffer).value)
    ensures FirstNewline(buffer).None? ==> NoNewline(line + buffer)
  {
    var all := line + (buffer + rest);
    assert forall i :: 0 <= i < |line| ==> all[i] == line[i];
    assert forall i :: 0 <= i < |buffer| ==> all[|line| + i] == buffer[i];
    if FirstNewline(buffer).Some? {
      FirstNewlineIs(all, |line| + FirstNewline(buffer).value);
    }
  }

  /** The outcome as a function of the bytes still to come and the limit alone. */
  function OutcomeOf(bytes: seq<Byte>, limit: nat, utf8: seq<Byte> -> bool): ReadOutcome {
    OutcomeAt(bytes, FirstNewline(bytes), limit, utf8)
  }

  function OutcomeAt(bytes: seq<Byte>, at: Option<nat>, limit: nat, utf8: seq<Byte> -> bool): ReadOutcome
    requires at.Some? ==> at.value < |bytes|
  {
    if at.None? then (if |bytes| > limit then TooLong else Eof)
    else if at.value + 1 > limit then TooLong
    else if utf8(bytes[..at.value + 1]) then Line(bytes[..at.value + 1])
    else NotUtf8
  }

  /** What the outcome says about the bytes: a line is the shortest prefix that ends in a newline, no longer than
      the limit and valid UTF-8; if it is not valid that is said; without any newline within the limit the bytes are
      too long if there are more of them, else at their end. */
  lemma OutcomeExactly(bytes: seq<Byte>, limit: nat, utf8: seq<Byte> -> bool, n: nat)
    requires n <= |bytes| && NoNewline(bytes[..n]) && (n < |bytes| ==> bytes[n] == 10)
    ensures OutcomeOf(bytes, limit, utf8) ==
              if n == |bytes| then (if |bytes| > limit then TooLong else Eof)
              else if n >= limit then TooLong
              else if utf8(bytes[..n + 1]) then Line(bytes[..n + 1])
              else NotUtf8
  {
    assert forall i :: 0 <= i < n ==> bytes[..n][i] == bytes[i];
    if n < |bytes| {
      FirstNewlineIs(bytes, n);
    } else {
      assert FirstNewline(bytes).None?;
    }
  }

  function Flatten(buffers: seq<seq<Byte>>): seq<Byte> {
    if buffers == [] then [] else buffers[0] + Flatten(buffers[1..])
  }

  /** A buffered byte stream: the buffers `fill_buf` will present, none of them empty. */
  class Stream {
    var buffers: seq<seq<Byte>>

    ghost predicate Valid()
      reads this
    {
      forall i :: 0 <= i < |buffers| ==> buffers[i] != []
    }

    ghost function Remaining(): seq<Byte>
      reads this
    {
      Flatten(buffers)
    }

    constructor (buffers: seq<seq<Byte>>)
      requires forall i :: 0 <= i < |buffers| ==> buffers[i] != []
      ensures Valid() && this.buffers == buffers
    {
      this.buffers := buffers;
    }

    /** Consumes `take` bytes of the current buffer. */
    method Consume(take: nat)
      requires Valid() && buffers != [] && take <= |buffers[0]|
      modifies this
      ensures Valid() && take <= |old(Remaining())| && Remaining() == old(Remaining())[take..]
      ensures old(buffers[0])[..take] == old(Remaining())[..take]
      ensures buffers == if take == |old(buffers[0])| then old(buffers[1..])
                         else [old(buffers[0])[take..]] + old(buffers[1..])
    {
      ghost var all := Remaining();
      var head, rest := buffers[0], buffers[1..];
      if take == |head| {
        buffers := rest;
        assert all[take..] == Flatten(rest);
      } else {
        buffers := [head[take..]] + rest;
        assert buffers[1..] == rest;
        assert all[take..] == head[take..] + Flatten(rest);
      }
    }

    /** `read_protocol_line_with_limit`. However the stream is cut into buffers, the outcome is that of
        its bytes; a line, valid UTF-8 or not, consumes exactly through its newline; a line that is too long
        keeps its newline and loses no more than the limit. */
    method ReadLine(limit: nat, utf8: seq<Byte> -> bool) returns (r: ReadOutcome)
      requires Valid()
      modifies this
      ensures Valid()
      ensures r == OutcomeOf(old(Remaining()), limit, utf8)
      ensures r.Line? ==> old(Remaining()) == r.bytes + Remaining()
      ensures r.NotUtf8? ==> Remaining() == old(Remaining())[FirstNewline(old(Remaining())).value + 1..]
      ensures r.Eof? ==> Remaining() == []
      ensures r.TooLong? ==> exists read :: old(Remaining()) == read + Remaining() && NoNewline(read) && |read| <= limit
    {
      ghost var all := Remaining();
      var line: seq<Byte> := [];
      while true
        invariant Valid() && all == line + Remaining()
        invariant NoNewline(line) && |line| <= limit
        decreases |buffers|
      {
        if buffers == [] {
          assert all == line;
          return Eof;
        }
        var buffer := buffers[0];
        var position := FirstNewline(buffer);
        var take := if position.None? then |buffer| else position.value + 1;
        if |line| + take > limit {
          TooLongWhen(line, buffer, Flatten(buffers[1..]), limit);
          return TooLong;
        }
        assert buffer[..take] == Remaining()[..take];
        var grown := line + buffer[..take];
        TakeKeeps(line, buffer, take);
        TakeFromRest(line, Remaining(), take);
        Consume(take);
        assert all == grown + Remaining();
        if grown[|grown| - 1] == NEWLINE {
          LineFound(line, buffer[..take], Remaining(), limit, utf8);
          return if utf8(grown) then Line(grown) else NotUtf8;
        }
        line := grown;
      }
    }
  }

  /** What the loop takes of a buffer ends with its first newline, or has none. */
  lemma TakeKeeps(line: seq<Byte>, buffer: seq<Byte>, take: nat)
    requires NoNewline(line) && buffer != []
    requires take == if FirstNewline(buffer).None? then |buffer| else FirstNewline(buffer).value + 1
    ensures 0 < take <= |buffer|
    ensures FirstNewline(buffer).None? ==> NoNewline(line + buffer[..take]) && buffer[take - 1] != NEWLINE
    ensures FirstNewline(buffer).Some? ==> NoNewline(buffer[..take][..take - 1]) && buffer[take - 1] == NEWLINE
  {
  }

  /** The first newline of a stream ends the line read so far. */
  lemma LineFound(line: seq<Byte>, head: seq<Byte>, rest: seq<Byte>, limit: nat, utf8: seq<Byte> -> bool)
    requires NoNewline(line) && head != [] && NoNewline(head[..|head| - 1]) && head[|head| - 1] == NEWLINE
    requires |line + head| <= limit
    ensures FirstNewline(line + head + rest) == Some(|line + head| - 1)
    ensures (line + head + rest)[|line + head|..] == rest
    ensures OutcomeOf(line + head + rest, limit, utf8) == if utf8(line + head) then Line(line + head) else NotUtf8
  {
    var all, n := line + head + rest, |line + head|;
    assert forall i :: 0 <= i < |head| - 1 ==> head[..|head| - 1][i] == head[i];
    FirstNewlineIs(all, n - 1);
    assert all[..n] == line + head;
  }

  lemma TakeFromRest(line: seq<Byte>, rest: seq<Byte>, take: nat)
    requires take <= |rest|
    ensures line + rest == line + rest[..take] + rest[take..]
  {
  }

  lemma TooLongWhen(line: seq<Byte>, buffer: seq<Byte>, rest: seq<Byte>, limit: nat)
    requires NoNewline(line)
    requires var position := FirstNewline(buffer);
             |line| + (if position.None? then |buffer| else position.value + 1) > limit
    ensures var at := FirstNewline(line + (buffer + rest));
            if at.None? then |line + (buffer + rest)| > limit else at.value + 1 > limit
  {
    NewlineInBuffer(line, buffer, rest);
    var all := line + (buffer + rest);
    if FirstNewline(buffer).None? && FirstNewline(all).Some? {
      assert forall i :: 0 <= i < |line + buffer| ==> all[i] == (line + buffer)[i];
    }
  }

  /** Bytes without a newline, dropped, bring the first newline that much nearer. */
  lemma NewlineShifts(bytes: seq<Byte>, gone: nat)
    requires gone <= |bytes| && NoNewline(bytes[..gone])
    ensures var (at, at') := (FirstNewline(bytes), FirstNewline(bytes[gone..]));
            (at.None? <==> at'.None?) && (at.Some? ==> gone <= at.value && at'.value == at.value - gone)
  {
    var rest := bytes[gone..];
    assert forall i :: 0 <= i < gone ==> bytes[..gone][i] == bytes[i];
    assert forall i :: 0 <= i < |rest| ==> rest[i] == bytes[gone + i];
    if FirstNewline(bytes).Some? {
      FirstNewlineIs(rest, FirstNewline(bytes).value - gone);
    }
  }

  /** What the rest of a line reads as, the newline being at `at`. */
  lemma RestReadsAs(bytes: seq<Byte>, at: nat, gone: nat, limit: nat, utf8: seq<Byte> -> bool)
    requires gone <= at < |bytes|
    ensures var (whole, next) := (OutcomeAt(bytes, Some(at), limit, utf8), OutcomeAt(bytes[gone..], Some(at - gone), limit, utf8));
            && (whole.Line? ==> (next.Line? || next.NotUtf8?) && (next == whole <==> gone == 0))
            && (next.Line? ==> next.bytes == bytes[gone..at + 1] && bytes[gone..][|next.bytes|..] == bytes[at + 1..])
            && (next.TooLong? <==> at + 1 - gone > limit)
            && (next.TooLong? ==> whole.TooLong?)
  {
    assert bytes[gone..][..at - gone + 1] == bytes[gone..at + 1];
    assert bytes[gone..][at - gone + 1..] == bytes[at + 1..];
    assert bytes[0..at + 1] == bytes[..at + 1];
  }

  /** Dropping a half-done read, after consuming `gone` bytes but not the newline, as a heartbeat tick
      does. The next read ends at the same newline, so no later line is shifted. But it sees only the rest:
      of a line that would have been returned, the whole exactly when nothing had been consumed, else a tail
      or, cut inside a character, no UTF-8; and a line that was too long can pass. */
  lemma CancelledReadStaysAligned(bytes: seq<Byte>, gone: nat, limit: nat, utf8: seq<Byte> -> bool)
    requires gone <= |bytes| && NoNewline(bytes[..gone])
    ensures var (at, whole, next) := (FirstNewline(bytes), OutcomeOf(bytes, limit, utf8), OutcomeOf(bytes[gone..], limit, utf8));
            && (whole.Line? ==> (next.Line? || next.NotUtf8?) && (next == whole <==> gone == 0))
            && (next.Line? ==> at.Some? && gone <= at.value && next.bytes == bytes[gone..at.value + 1]
                               && bytes[gone..][|next.bytes|..] == bytes[at.value + 1..])
            && (next.TooLong? <==> (if at.Some? then at.value + 1 else |bytes|) - gone > limit)
            && (next.TooLong? ==> whole.TooLong?)
  {
    NewlineShifts(bytes, gone);
    if FirstNewline(bytes).Some? {
      RestReadsAs(bytes, FirstNewline(bytes).value, gone, limit, utf8);
    }
  }
}
