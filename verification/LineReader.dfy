/**
 BoundedUtf8LineReader of ReluMcpStdioEntryPoint.cs: reading bounded lines from a stream that arrives in
 pieces of any size. Decoding UTF-8 is a parameter.
 */
module LineReader {
  import opened Optional

  newtype byte = x: int | 0 <= x < 256

  const LF: byte := 10
  const CR: byte := 13
  const BUFFER_BYTES: nat := 8192

  type Decoder = seq<byte> -> Option<string>

  /** What a call of `ReadLineAsync` gives: null, a line, or one of its two InvalidData errors. */
  datatype Outcome = End | Line(text: string) | TooLong | NotUtf8

  // ---- splitting on line feeds ---------------------------------------------------------------

  /** The index of the first line feed; the length if there is none. */
  function Newline(input: seq<byte>): (n: nat)
    ensures n <= |input| && LF !in input[..n]
    ensures n < |input| ==> input[n] == LF
  {
    if input == [] || input[0] == LF then 0
    else
      var n := Newline(input[1..]);
      assert input[..n + 1] == [input[0]] + input[1..][..n];
      n + 1
  }

  /** The input after its first line. */
  function Rest(input: seq<byte>): (rest: seq<byte>)
    ensures |rest| <= |input| && (input != [] ==> |rest| < |input|)
  {
    if Newline(input) < |input| then input[Newline(input) + 1..] else []
  }

  /** The lines of an input, without their line feeds; an unterminated rest is a line of its own. */
  function Lines(input: seq<byte>): seq<seq<byte>>
    decreases |input|
  {
    if input == [] then [] else [input[..Newline(input)]] + Lines(Rest(input))
  }

  function Join(lines: seq<seq<byte>>): seq<byte> {
    if lines == [] then [] else lines[0] + [LF] + Join(lines[1..])
  }

  predicate Terminated(input: seq<byte>) {
    input == [] || input[|input| - 1] == LF
  }

  lemma JoinFirst(line: seq<byte>, lines: seq<seq<byte>>)
    ensures Join([line] + lines) == line + [LF] + Join(lines)
  {
    assert ([line] + lines)[1..] == lines;
  }

  lemma SplitAt<T>(s: seq<T>, n: nat)
    requires n < |s|
    ensures s == s[..n] + [s[n]] + s[n + 1..]
    ensures s[n + 1..] != [] ==> s[n + 1..][|s| - n - 2] == s[|s| - 1]
  {
  }

  lemma InputSplits(input: seq<byte>)
    requires Newline(input) < |input|
    ensures input == input[..Newline(input)] + [LF] + Rest(input)
    ensures Terminated(input) <==> Terminated(Rest(input))
  {
    SplitAt(input, Newline(input));
    EndsLikeRest(input, Newline(input));
  }

  lemma EndsLikeRest(input: seq<byte>, n: nat)
    requires n < |input| && input[n] == LF
    ensures Terminated(input) <==> Terminated(input[n + 1..])
  {
    var rest := input[n + 1..];
    assert |rest| == |input| - n - 1;
    if rest != [] {
      assert rest[|rest| - 1] == input[|input| - 1];
    }
  }

  lemma {:induction false} NoFeedInLines(input: seq<byte>, i: nat)
    requires i < |Lines(input)|
    ensures LF !in Lines(input)[i]
    decreases |input|
  {
    assert Lines(input) == [input[..Newline(input)]] + Lines(Rest(input));
    if i > 0 {
      NoFeedInLines(Rest(input), i - 1);
      assert Lines(input)[i] == Lines(Rest(input))[i - 1];
    } else {
      assert Lines(input)[0] == input[..Newline(input)];
    }
  }

  lemma NoFeedNoSplit(input: seq<byte>)
    requires input != [] && Newline(input) == |input|
    ensures Lines(input) == [input] && !Terminated(input) && Join([input]) == input + [LF]
  {
    assert input[..|input|] == input;
    assert LF !in input;
    assert Rest(input) == [] && Lines([]) == [];
    JoinFirst(input, []);
    assert [input] + [] == [input];
  }

  /** The lines are what the line feeds separate: putting the line feeds back gives the input. */
  lemma {:induction false} LinesJoin(input: seq<byte>)
    ensures Join(Lines(input)) == if Terminated(input) then input else input + [LF]
    decreases |input|
  {
    if input != [] {
      var line, rest := input[..Newline(input)], Rest(input);
      LinesJoin(rest);
      JoinFirst(line, Lines(rest));
      if Newline(input) < |input| {
        InputSplits(input);
        if !Terminated(input) {
          Associate(line + [LF], rest, [LF]);
        }
      } else {
        NoFeedNoSplit(input);
      }
    }
  }

  function WithoutReturn(line: seq<byte>): seq<byte> {
    if line != [] && line[|line| - 1] == CR then line[..|line| - 1] else line
  }

  /** What one line of the input should give. */
  function Verdict(decode: Decoder, maximumBytes: nat, line: seq<byte>): (r: Outcome)
    ensures !r.End?
  {
    if |line| > maximumBytes then TooLong
    else
      var text := decode(WithoutReturn(line));
      if text.None? then NotUtf8 else Line(text.value)
  }

  /** A line within the limit is decoded, without one carriage return at its end; a longer one is refused. */
  lemma VerdictMeans(decode: Decoder, maximumBytes: nat, line: seq<byte>)
    ensures |line| > maximumBytes ==> Verdict(decode, maximumBytes, line) == TooLong
    ensures |line| + 1 <= maximumBytes ==>
      Verdict(decode, maximumBytes, line + [CR]) == if decode(line).Some? then Line(decode(line).value) else NotUtf8
    ensures |line| <= maximumBytes && (line == [] || line[|line| - 1] != CR) ==>
      Verdict(decode, maximumBytes, line) == if decode(line).Some? then Line(decode(line).value) else NotUtf8
  {
    assert (line + [CR])[..|line|] == line;
  }

  /** What reading an input to its end should give: one verdict for each line. */
  function Verdicts(decode: Decoder, maximumBytes: nat, input: seq<byte>): seq<Outcome>
    decreases |input|
  {
    if input == [] then []
    else [Verdict(decode, maximumBytes, input[..Newline(input)])] + Verdicts(decode, maximumBytes, Rest(input))
  }

  lemma {:induction false} VerdictForEachLine(decode: Decoder, maximumBytes: nat, input: seq<byte>, i: nat)
    requires i < |Lines(input)| || i < |Verdicts(decode, maximumBytes, input)|
    ensures |Verdicts(decode, maximumBytes, input)| == |Lines(input)|
    ensures Verdicts(decode, maximumBytes, input)[i] == Verdict(decode, maximumBytes, Lines(input)[i])
    decreases |input|
  {
    if i > 0 {
      VerdictForEachLine(decode, maximumBytes, Rest(input), i - 1);
    } else if Rest(input) != [] {
      VerdictForEachLine(decode, maximumBytes, Rest(input), 0);
    }
  }

  /** The outcomes so far and the verdicts on what is left make up all verdicts. */
  ghost predicate Halfway(all: seq<Outcome>, outcomes: seq<Outcome>, left: seq<Outcome>) {
    all == outcomes + left
  }

  /** All verdicts, or all but one for a line that is too long at the end. */
  ghost predicate AllButTooLong(all: seq<Outcome>, outcomes: seq<Outcome>) {
    all == outcomes + [TooLong]
  }

  lemma OneMore(all: seq<Outcome>, outcomes: seq<Outcome>, next: Outcome, left: seq<Outcome>)
    requires Halfway(all, outcomes, [next] + left)
    ensures Halfway(all, outcomes + [next], left)
  {
  }

  lemma OverlongTail(decode: Decoder, maximumBytes: nat, input: seq<byte>)
    requires LF !in input && |input| > maximumBytes
    ensures Verdicts(decode, maximumBytes, input) == [TooLong]
  {
    assert input[..Newline(input)] == input;
    assert Verdicts(decode, maximumBytes, Rest(input)) == [];
  }

  lemma TerminationStays(input: seq<byte>)
    requires Newline(input) < |input|
    ensures Terminated(input) <==> Terminated(Rest(input))
  {
    InputSplits(input);
  }

  // ---- streams -------------------------------------------------------------------------------

  function Concat(chunks: seq<seq<byte>>): seq<byte> {
    if chunks == [] then [] else chunks[0] + Concat(chunks[1..])
  }

  predicate Deliverable(chunks: seq<seq<byte>>) {
    forall i | 0 <= i < |chunks| :: 1 <= |chunks[i]| <= BUFFER_BYTES
  }

  /** A stream that delivers its bytes in given chunks. */
  class InputStream {
    var chunks: seq<seq<byte>>

    constructor (chunks: seq<seq<byte>>)
      ensures this.chunks == chunks
    {
      this.chunks := chunks;
    }

    method Read(buffer: array<byte>) returns (count: nat)
      requires Deliverable(chunks) && buffer.Length == BUFFER_BYTES
      modifies this, buffer
      ensures old(chunks) == [] ==> count == 0 && chunks == []
      ensures old(chunks) != [] ==>
        chunks == old(chunks)[1..] && 1 <= count <= buffer.Length && buffer[..count] == old(chunks)[0]
    {
      if chunks == [] {
        return 0;
      }
      var chunk := chunks[0];
      forall i | 0 <= i < |chunk| {
        buffer[i] := chunk[i];
      }
      chunks := chunks[1..];
      return |chunk|;
    }
  }

  /** `Array.IndexOf` for a line feed: -1 if there is none. */
  method IndexOfNewline(buffer: array<byte>, start: nat, end: nat) returns (index: int)
    requires start <= end <= buffer.Length
    ensures Newline(buffer[start..end]) == if index < 0 then end - start else index - start
    ensures index < 0 || start <= index < end
  {
    index := start;
    while index < end && buffer[index] != LF
      invariant start <= index <= end
      invariant LF !in buffer[start..index]
    {
      index := index + 1;
    }
    assert buffer[start..end][..index - start] == buffer[start..index];
    NewlineIs(buffer[start..end], index - start);
    if index == end {
      index := -1;
    }
  }

  lemma {:induction false} NewlineIs(input: seq<byte>, n: nat)
    requires n <= |input| && LF !in input[..n] && (n < |input| ==> input[n] == LF)
    ensures Newline(input) == n
  {
  }

  /** The line ends in the buffered bytes: it is what was taken so far and the bytes before the line feed. */
  lemma SegmentEnds(input: seq<byte>, taken: seq<byte>, buffered: seq<byte>, later: seq<byte>)
    requires input == taken + buffered + later && LF !in taken && Newline(buffered) < |buffered|
    ensures var line := taken + buffered[..Newline(buffered)];
      && LF in input && input[..Newline(input)] == line
      && Rest(input) == buffered[Newline(buffered) + 1..] + later
  {
    assert input[|taken| + Newline(buffered)] == LF;
    var n := Newline(buffered);
    var before, after := buffered[..n], buffered[n + 1..];
    assert buffered == before + [LF] + after;
    Regroup(taken, before, [LF], after, later);
    NoFeedIn(taken, before);
    LineThenRest(input, taken + before, after + later);
  }

  lemma Regroup<T>(a: seq<T>, b: seq<T>, c: seq<T>, d: seq<T>, e: seq<T>)
    ensures a + (b + c + d) + e == (a + b) + c + (d + e)
  {
  }

  lemma Associate<T>(a: seq<T>, b: seq<T>, c: seq<T>)
    ensures a + (b + c) == (a + b) + c
  {
  }

  lemma NothingBuffered<T>(a: seq<T>, b: seq<T>)
    requires a == []
    ensures a + b == b
  {
  }

  lemma NoFeedIn(a: seq<byte>, b: seq<byte>)
    requires LF !in a && LF !in b
    ensures LF !in a + b
  {
  }

  lemma InputEnds(input: seq<byte>, taken: seq<byte>, left: seq<byte>)
    requires input == taken + left && left == [] && LF !in taken
    ensures taken == input && input[..Newline(input)] == input && Rest(input) == []
  {
    assert taken == input;
    NewlineIs(input, |input|);
  }

  lemma LineThenRest(input: seq<byte>, line: seq<byte>, rest: seq<byte>)
    requires LF !in line && input == line + [LF] + rest
    ensures input[..Newline(input)] == line && Rest(input) == rest
  {
    assert input[..|line|] == line;
    NewlineIs(input, |line|);
  }

  /** What the reader keeps of the bytes it has taken of a line: all of them, until they exceed the limit. */
  ghost predicate Keeping(maximumBytes: nat, taken: seq<byte>, line: seq<byte>, oversized: bool) {
    (oversized <==> |taken| > maximumBytes) && (!oversized ==> line == taken)
  }

  /** When the limit is exceeded nothing was kept exactly if the first piece alone exceeded it. */
  ghost predicate KeptSome(maximumBytes: nat, taken: seq<byte>, line: seq<byte>, oversized: bool, first: nat) {
    (taken != [] ==> |taken| >= first) && (oversized ==> (line == [] <==> first > maximumBytes))
  }

  /** `Write` to the line unless that would exceed the limit. */
  function Kept(maximumBytes: nat, line: seq<byte>, oversized: bool, segment: seq<byte>): (seq<byte>, bool) {
    if oversized || |line| + |segment| > maximumBytes then (line, true) else (line + segment, false)
  }

  lemma KeepsMore(maximumBytes: nat, taken: seq<byte>, line: seq<byte>, oversized: bool, segment: seq<byte>)
    requires Keeping(maximumBytes, taken, line, oversized)
    ensures var (l, o) := Kept(maximumBytes, line, oversized, segment);
      Keeping(maximumBytes, taken + segment, l, o)
  {
  }

  lemma KeepsSome(maximumBytes: nat, taken: seq<byte>, line: seq<byte>, oversized: bool, first: nat, segment: seq<byte>)
    requires Keeping(maximumBytes, taken, line, oversized) && KeptSome(maximumBytes, taken, line, oversized, first)
    requires segment != [] && (taken == [] ==> first == |segment|)
    ensures var (l, o) := Kept(maximumBytes, line, oversized, segment);
      KeptSome(maximumBytes, taken + segment, l, o, first)
  {
  }

  // ---- the reader ----------------------------------------------------------------------------

  class BoundedUtf8LineReader {
    const stream: InputStream
    const maximumBytes: nat
    const decode: Decoder
    const buffer: array<byte>
    var offset: nat
    var count: nat

    predicate Valid()
      reads this, stream, buffer
    {
      buffer.Length == BUFFER_BYTES && offset <= count <= buffer.Length && Deliverable(stream.chunks)
    }

    ghost function Remaining(): seq<byte>
      requires Valid()
      reads this, stream, buffer
    {
      buffer[offset..count] + Concat(stream.chunks)
    }

    /** How many bytes the reader looks at first: what is buffered, or else the next chunk. */
    ghost function FirstPiece(): seq<byte>
      requires Valid()
      reads this, stream, buffer
    {
      if offset < count then buffer[offset..count] else if stream.chunks == [] then [] else stream.chunks[0]
    }

    constructor (stream: InputStream, maximumBytes: nat, decode: Decoder)
      requires maximumBytes >= 1 && Deliverable(stream.chunks)
      ensures Valid() && Remaining() == Concat(stream.chunks)
      ensures this.stream == stream && this.maximumBytes == maximumBytes && this.decode == decode
      ensures fresh(buffer)
    {
      this.stream, this.maximumBytes, this.decode := stream, maximumBytes, decode;
      buffer := new byte[BUFFER_BYTES];
      offset, count := 0, 0;
    }

    /** An unterminated last line is lost when its first piece alone is over the limit. */
    ghost predicate Loses()
      requires Valid()
      reads this, stream, buffer
    {
      LF !in Remaining() && |FirstPiece()| > maximumBytes
    }

    ghost predicate Reading(input: seq<byte>, taken: seq<byte>, line: seq<byte>, oversized: bool, first: nat)
      requires Valid()
      reads this, stream, buffer
    {
      && input == taken + Remaining() && LF !in taken
      && Keeping(maximumBytes, taken, line, oversized) && KeptSome(maximumBytes, taken, line, oversized, first)
      && (taken == [] ==> first == |FirstPiece()|)
    }

    /** Reads the next chunk when the buffer is used up. */
    method Fill() returns (more: bool)
      requires Valid()
      modifies this, stream, buffer
      ensures Valid() && Remaining() == old(Remaining()) && FirstPiece() == old(FirstPiece())
      ensures more <==> offset < count
      ensures !more ==> Remaining() == []
      ensures |stream.chunks| < old(|stream.chunks|) ||
              (stream.chunks == old(stream.chunks) && (more ==> count - offset == old(count - offset)))
    {
      if offset == count {
        count := stream.Read(buffer);
        offset := 0;
      }
      more := offset < count;
    }

    /** Takes the buffered bytes up to the next line feed, and the line feed. */
    method TakeSegment() returns (segment: seq<byte>, ended: bool)
      requires Valid() && offset < count
      modifies this
      ensures Valid() && count == old(count) && offset > old(offset)
      ensures var buffered := old(buffer[offset..count]);
        && segment == buffered[..Newline(buffered)] && (ended <==> Newline(buffered) < |buffered|)
        && buffer[offset..count] == (if ended then buffered[Newline(buffered) + 1..] else [])
      ensures !ended ==> offset == count
    {
      ghost var buffered := buffer[offset..count];
      var newline := IndexOfNewline(buffer, offset, count);
      var segmentLength := if newline >= 0 then newline - offset else count - offset;
      segment := buffer[offset..offset + segmentLength];
      assert segmentLength == Newline(buffered) == |segment|;
      assert forall i | 0 <= i < segmentLength :: segment[i] == buffered[i];
      assert newline >= 0 ==> buffer[newline + 1..count] == buffered[segmentLength + 1..];
      offset := offset + segmentLength;
      ended := newline >= 0;
      if ended {
        offset := offset + 1;
      }
    }

    /** Takes the next segment and keeps it if it fits; `ended` says that it completes the line. */
    method Consume(line: seq<byte>, oversized: bool, ghost input: seq<byte>, ghost taken: seq<byte>, ghost first: nat)
      returns (kept: seq<byte>, over: bool, ended: bool, ghost more: seq<byte>)
      requires Valid() && offset < count && Reading(input, taken, line, oversized, first)
      modifies this
      ensures Valid() && count == old(count) && offset > old(offset)
      ensures !ended ==> Reading(input, more, kept, over, first)
      ensures ended ==> LF in input && Remaining() == Rest(input)
      ensures ended ==> Keeping(maximumBytes, input[..Newline(input)], kept, over)
    {
      ghost var buffered, later := buffer[offset..count], Concat(stream.chunks);
      Associate(taken, buffered, later);
      assert input == (taken + buffered) + later;
      var segment;
      segment, ended := TakeSegment();
      KeepsMore(maximumBytes, taken, line, oversized, segment);
      var both := Kept(maximumBytes, line, oversized, segment);
      kept, over, more := both.0, both.1, taken + segment;
      if ended {
        SegmentEnds(input, taken, buffered, later);
        assert Remaining() == buffered[Newline(buffered) + 1..] + later;
      } else {
        assert segment == buffered;
        KeepsSome(maximumBytes, taken, line, oversized, first, segment);
        NoFeedIn(taken, segment);
        NothingBuffered(buffer[offset..count], later);
      }
    }

    method ReadLine() returns (outcome: Outcome)
      requires Valid()
      modifies this, stream, buffer
      ensures Valid()
      ensures Remaining() == Rest(old(Remaining()))
      ensures outcome ==
        if old(Remaining()) == [] || old(Loses()) then End
        else Verdict(decode, maximumBytes, old(Remaining())[..Newline(old(Remaining()))])
    {
      var line: seq<byte> := [];
      var oversized := false;
      ghost var input, first := Remaining(), |FirstPiece()|;
      ghost var taken: seq<byte> := [];
      while true
        invariant Valid() && Reading(input, taken, line, oversized, first)
        decreases |stream.chunks|, count - offset
      {
        var more := Fill();
        if !more {
          InputEnds(input, taken, Remaining());
          if line == [] {
            return End;
          }
          if oversized {
            return TooLong;
          }
          outcome := Decode(line);
          return;
        }
        var ended;
        line, oversized, ended, taken := Consume(line, oversized, input, taken, first);
        if ended {
          if oversized {
            return TooLong;
          }
          outcome := Decode(line);
          return;
        }
      }
    }

    method Decode(line: seq<byte>) returns (outcome: Outcome)
      requires |line| <= maximumBytes
      ensures outcome == Verdict(decode, maximumBytes, line)
    {
      var bytes := line;
      if |bytes| > 0 && bytes[|bytes| - 1] == CR {
        bytes := bytes[..|bytes| - 1];
      }
      var text := decode(bytes);
      outcome := if text.None? then NotUtf8 else Line(text.value);
    }

    /** Losing a line takes a limit below the buffer size and an unterminated line over that limit. */
    lemma OnlyOverlongTailsAreLost()
      requires Valid() && Loses()
      ensures maximumBytes < BUFFER_BYTES && |Remaining()| > maximumBytes && !Terminated(Remaining())
    {
      if offset == count {
        NothingBuffered(buffer[offset..count], Concat(stream.chunks));
      }
      assert FirstPiece() <= Remaining();
      var last := Remaining()[|Remaining()| - 1];
      assert last in Remaining();
    }

    /** Reading until the stream ends gives a verdict for every line, whatever the chunks are. */
    method ReadAll() returns (outcomes: seq<Outcome>)
      requires Valid()
      modifies this, stream, buffer
      ensures var all := Verdicts(decode, maximumBytes, old(Remaining()));
        && (outcomes == all || AllButTooLong(all, outcomes))
        && (maximumBytes >= BUFFER_BYTES || Terminated(old(Remaining())) ==> outcomes == all)
    {
      outcomes := [];
      ghost var all := Verdicts(decode, maximumBytes, Remaining());
      ghost var safe := maximumBytes >= BUFFER_BYTES || Terminated(Remaining());
      while true
        invariant Valid()
        invariant Halfway(all, outcomes, Verdicts(decode, maximumBytes, Remaining()))
        invariant safe ==> maximumBytes >= BUFFER_BYTES || Terminated(Remaining())
        decreases |Remaining()|
      {
        ghost var input, lost := Remaining(), Loses();
        if lost {
          OnlyOverlongTailsAreLost();
          OverlongTail(decode, maximumBytes, input);
        }
        if Newline(input) < |input| {
          TerminationStays(input);
        }
        var outcome := ReadLine();
        if outcome.End? {
          return;
        }
        OneMore(all, outcomes, outcome, Verdicts(decode, maximumBytes, Remaining()));
        outcomes := outcomes + [outcome];
      }
    }
  }

  /**
   With a limit below the buffer size the chunks decide what becomes of an unterminated line over the
   limit: in one chunk it is lost, in two it is reported.
   */
  method ChunksDecide(decode: Decoder, maximumBytes: nat, line: seq<byte>) returns (whole: Outcome, split: Outcome)
    requires 1 <= maximumBytes < |line| <= BUFFER_BYTES && LF !in line
    ensures whole.End? && split.TooLong?
  {
    whole := ReadWhole(decode, maximumBytes, line);
    split := ReadSplit(decode, maximumBytes, line);
  }

  method ReadWhole(decode: Decoder, maximumBytes: nat, line: seq<byte>) returns (whole: Outcome)
    requires 1 <= maximumBytes < |line| <= BUFFER_BYTES && LF !in line
    ensures whole.End?
  {
    var stream := new InputStream([line]);
    var reader := new BoundedUtf8LineReader(stream, maximumBytes, decode);
    assert Concat([line]) == line by { assert [line][1..] == []; }
    whole := reader.ReadLine();
  }

  lemma TwoChunks(a: seq<byte>, b: seq<byte>)
    ensures Concat([a, b]) == a + b
  {
    assert [a, b][1..] == [b] && [b][1..] == [];
    assert Concat([b]) == b;
  }

  method ReadSplit(decode: Decoder, maximumBytes: nat, line: seq<byte>) returns (split: Outcome)
    requires 1 <= maximumBytes < |line| <= BUFFER_BYTES && LF !in line
    ensures split.TooLong?
  {
    var pieces := [line[..1], line[1..]];
    var stream := new InputStream(pieces);
    var reader := new BoundedUtf8LineReader(stream, maximumBytes, decode);
    TwoChunks(line[..1], line[1..]);
    assert line[..1] + line[1..] == line;
    NewlineIs(line, |line|);
    assert line[..|line|] == line;
    split := reader.ReadLine();
  }
}
