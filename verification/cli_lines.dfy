/**
 * Reading the CLI's output line by line (`take_line` and the read loop of crates/installation/src/claude_process.rs).
 * Output arrives in pieces of any size; what is handled must not depend on how it was cut up.
 */
module CliLines {
  import opened Common

  const MAX_LINE := 32_000_000
  const NEWLINE: byte := 10

  /** The lines handled so far, and the bytes of the next one. Too long a line ends the run. */
  datatype Reading = Reading(lines: seq<Bytes>, buffer: Bytes) | TooLong

  // ----- One byte at a time -----

  function Next(r: Reading, b: byte): Reading {
    if r.TooLong? || |r.buffer| + 1 > MAX_LINE then TooLong
    else if b == NEWLINE then Reading(r.lines + [r.buffer + [b]], [])
    else Reading(r.lines, r.buffer + [b])
  }

  function Feed(r: Reading, bytes: Bytes): Reading {
    if bytes == [] then r else Next(Feed(r, bytes[..|bytes| - 1]), bytes[|bytes| - 1])
  }

  lemma {:induction false} FeedAppend(r: Reading, a: Bytes, b: Bytes)
    ensures Feed(r, a + b) == Feed(Feed(r, a), b)
    decreases |b|
  {
    if b == [] {
      assert a + b == a;
    } else {
      var n := |b| - 1;
      assert (a + b)[..|a + b| - 1] == a + b[..n];
      FeedAppend(r, a, b[..n]);
    }
  }

  // ----- One read at a time -----

  /** How many bytes of a read belong to the current line: up to and with the first newline. */
  function Span(bytes: Bytes): (n: nat)
    ensures n <= |bytes| && (bytes != [] ==> n > 0)
    ensures forall i :: 0 <= i < n - 1 ==> bytes[i] != NEWLINE
    ensures n < |bytes| ==> n > 0 && bytes[n - 1] == NEWLINE
  {
    if bytes == [] then 0 else if bytes[0] == NEWLINE then 1 else 1 + Span(bytes[1..])
  }

  /** What a read gives: the end of the output, too long a line, or some bytes of the current line. */
  datatype Taken = Disconnected | Overflow | Took(count: nat, complete: bool, buffer: Bytes)

  /** `take_line`: appends to the buffer, or fails if the output has ended or the line would grow too long. */
  method TakeLine(bytes: Bytes, buffer: Bytes) returns (taken: Taken)
    ensures taken.Disconnected? <==> bytes == []
    ensures taken.Overflow? <==> bytes != [] && |buffer| + Span(bytes) > MAX_LINE
    ensures taken.Took? ==>
              && taken.count == Span(bytes) && taken.buffer == buffer + bytes[..taken.count]
              && taken.complete == (bytes[taken.count - 1] == NEWLINE)
  {
    if bytes == [] { return Disconnected; }
    var count := Span(bytes);
    if |buffer| + count > MAX_LINE { return Overflow; }
    taken := Took(count, bytes[count - 1] == NEWLINE, buffer + bytes[..count]);
  }

  lemma {:induction false} TooLongStays(bytes: Bytes)
    ensures Feed(TooLong, bytes).TooLong?
  {
    if bytes != [] { TooLongStays(bytes[..|bytes| - 1]); }
  }

  /** Within a line, bytes only lengthen the buffer. */
  lemma {:induction false} FeedWithin(r: Reading, bytes: Bytes)
    requires r.Reading? && forall i :: 0 <= i < |bytes| ==> bytes[i] != NEWLINE
    ensures Feed(r, bytes) == if bytes != [] && |r.buffer| + |bytes| > MAX_LINE then TooLong
                              else Reading(r.lines, r.buffer + bytes)
    decreases |bytes|
  {
    if bytes == [] {
      assert r.buffer + bytes == r.buffer;
    } else {
      FeedWithin(r, bytes[..|bytes| - 1]);
    }
  }

  /** Taking the rest of a line at once is feeding its bytes one by one. */
  lemma {:induction false} FeedSpan(r: Reading, bytes: Bytes)
    requires r.Reading? && bytes != []
    ensures var n := Span(bytes);
            Feed(r, bytes[..n]) ==
            if |r.buffer| + n > MAX_LINE then TooLong
            else if bytes[n - 1] == NEWLINE then Reading(r.lines + [r.buffer + bytes[..n]], [])
            else Reading(r.lines, r.buffer + bytes[..n])
  {
    var n := Span(bytes);
    var line := bytes[..n];
    FeedWithin(r, line[..n - 1]);
    assert line == line[..n - 1] + [bytes[n - 1]];
    if |r.buffer| + n <= MAX_LINE {
      assert r.buffer + line[..n - 1] + [bytes[n - 1]] == r.buffer + line;
    }
  }

  /** The loop over one read: lines are handed on as they complete. */
  method Read(r: Reading, bytes: Bytes) returns (next: Reading)
    requires r.Reading?
    ensures next == Feed(r, bytes)
  {
    next := r;
    var at := 0;
    while at < |bytes|
      invariant at <= |bytes| && next.Reading? && next == Feed(r, bytes[..at])
    {
      var taken := TakeLine(bytes[at..], next.buffer);
      TakesALine(r, bytes, at, Span(bytes[at..]));
      if taken.Overflow? { return TooLong; }
      next := if taken.complete then Reading(next.lines + [taken.buffer], []) else Reading(next.lines, taken.buffer);
      at := at + taken.count;
    }
    assert bytes[..at] == bytes;
  }

  /** Feeding the bytes up to the end of the line at `at`. */
  lemma {:induction false} TakesALine(r: Reading, bytes: Bytes, at: nat, count: nat)
    requires at < |bytes| && Feed(r, bytes[..at]).Reading? && count == Span(bytes[at..])
    ensures var before := Feed(r, bytes[..at]);
            if |before.buffer| + count > MAX_LINE then Feed(r, bytes).TooLong?
            else Feed(r, bytes[..at + count]) ==
                 (if bytes[at + count - 1] == NEWLINE then Reading(before.lines + [before.buffer + bytes[at..][..count]], [])
                  else Reading(before.lines, before.buffer + bytes[at..][..count]))
  {
    var before, line := Feed(r, bytes[..at]), bytes[at..][..count];
    FeedSpan(before, bytes[at..]);
    assert bytes[..at + count] == bytes[..at] + line;
    FeedAppend(r, bytes[..at], line);
    if |before.buffer| + count > MAX_LINE {
      assert bytes == bytes[..at + count] + bytes[at + count..];
      FeedAppend(r, bytes[..at + count], bytes[at + count..]);
      TooLongStays(bytes[at + count..]);
    }
  }

  function ReadAll(r: Reading, pieces: seq<Bytes>): Reading {
    if pieces == [] then r else Feed(ReadAll(r, pieces[..|pieces| - 1]), pieces[|pieces| - 1])
  }

  // ----- What the lines are -----

  ghost predicate IsLine(line: Bytes) {
    line != [] && line[|line| - 1] == NEWLINE && forall i :: 0 <= i < |line| - 1 ==> line[i] != NEWLINE
  }

  /** The lines and the rest are the output, cut after each newline and nowhere else. */
  ghost predicate Splits(r: Reading, output: Bytes)
    requires r.Reading?
  {
    && Flatten(r.lines) + r.buffer == output
    && (forall k :: 0 <= k < |r.lines| ==> IsLine(r.lines[k]))
    && (forall i :: 0 <= i < |r.buffer| ==> r.buffer[i] != NEWLINE)
  }

  /** A newline ends the line in the buffer. */
  lemma {:induction false} SplitsAtNewline(r: Reading, output: Bytes)
    requires r.Reading? && Splits(r, output)
    ensures Splits(Reading(r.lines + [r.buffer + [NEWLINE]], []), output + [NEWLINE])
  {
    var line := r.buffer + [NEWLINE];
    assert IsLine(line);
    FlattenSnoc(r.lines, line);
    assert Flatten(r.lines) + line + [] == output + [NEWLINE];
  }

  lemma {:induction false} SplitsWithin(r: Reading, output: Bytes, b: byte)
    requires r.Reading? && Splits(r, output) && b != NEWLINE
    ensures Splits(Reading(r.lines, r.buffer + [b]), output + [b])
  {
    assert Flatten(r.lines) + (r.buffer + [b]) == output + [b];
  }

  lemma {:induction false} FeedSplits(output: Bytes)
    requires Feed(Reading([], []), output).Reading?
    ensures Splits(Feed(Reading([], []), output), output)
    decreases |output|
  {
    if output != [] {
      var n := |output| - 1;
      var before := Feed(Reading([], []), output[..n]);
      FeedSplits(output[..n]);
      if output[n] == NEWLINE { SplitsAtNewline(before, output[..n]); } else { SplitsWithin(before, output[..n], output[n]); }
      assert output == output[..n] + [output[n]];
    }
  }

  lemma {:induction false} ReadAllFeeds(pieces: seq<Bytes>)
    ensures ReadAll(Reading([], []), pieces) == Feed(Reading([], []), Flatten(pieces))
  {
    if pieces != [] {
      var n := |pieces| - 1;
      ReadAllFeeds(pieces[..n]);
      FeedAppend(Reading([], []), Flatten(pieces[..n]), pieces[n]);
    }
  }

  /**
   * However the output is cut into pieces, the run fails or the lines handled are the output cut after each newline;
   * two ways of cutting the same output give the same result.
   */
  lemma ReadsDoNotMatter(pieces: seq<Bytes>, others: seq<Bytes>)
    requires Flatten(pieces) == Flatten(others)
    ensures ReadAll(Reading([], []), pieces) == ReadAll(Reading([], []), others)
    ensures var r := ReadAll(Reading([], []), pieces); r.Reading? ==> Splits(r, Flatten(pieces))
  {
    ReadAllFeeds(pieces);
    ReadAllFeeds(others);
    if Feed(Reading([], []), Flatten(pieces)).Reading? { FeedSplits(Flatten(pieces)); }
  }

  // ----- When reading fails -----

  /** Some line, or what has arrived of it, is longer than the limit. */
  ghost predicate HasLongLine(output: Bytes) {
    exists i, j :: TooWide(output, i, j)
  }

  /** The bytes from i to j belong to one line and are too many. */
  ghost predicate TooWide(output: Bytes, i: int, j: int) {
    0 <= i <= j <= |output| && j - i > MAX_LINE && forall k :: i <= k < j - 1 ==> output[k] != NEWLINE
  }

  /** The buffer is what follows the last newline. */
  ghost predicate Tail(buffer: Bytes, output: Bytes) {
    && |buffer| <= |output| && (|buffer| < |output| ==> output[|output| - |buffer| - 1] == NEWLINE)
    && forall i :: |output| - |buffer| <= i < |output| ==> output[i] != NEWLINE
  }

  lemma {:induction false} LongLineNext(output: Bytes, b: byte, buffer: Bytes)
    requires Tail(buffer, output)
    ensures HasLongLine(output + [b]) <==> HasLongLine(output) || |buffer| + 1 > MAX_LINE
  {
    var more, n := output + [b], |output|;
    if HasLongLine(output) {
      var i, j :| TooWide(output, i, j);
      assert TooWide(more, i, j);
    }
    if |buffer| + 1 > MAX_LINE {
      assert TooWide(more, n - |buffer|, n + 1);
    }
    if HasLongLine(more) {
      var i, j :| TooWide(more, i, j);
      if j <= n {
        assert forall k :: i <= k < j - 1 ==> output[k] == more[k];
        assert TooWide(output, i, j);
      } else if i < n - |buffer| {
        assert more[n - |buffer| - 1] == NEWLINE;
      }
    }
  }

  lemma {:induction false} TailOf(output: Bytes)
    ensures var r := Feed(Reading([], []), output);
            r.TooLong? <==> HasLongLine(output)
    ensures var r := Feed(Reading([], []), output); r.Reading? ==> Tail(r.buffer, output)
    decreases |output|
  {
    if output == [] {
      assert !HasLongLine(output);
    } else {
      var n := |output| - 1;
      TailOf(output[..n]);
      assert output == output[..n] + [output[n]];
      var before := Feed(Reading([], []), output[..n]);
      if before.Reading? {
        LongLineNext(output[..n], output[n], before.buffer);
      } else {
        var i, j :| TooWide(output[..n], i, j);
        assert TooWide(output, i, j);
      }
    }
  }

  /** Reading fails exactly if some line, or what has arrived of it, is longer than the limit. */
  lemma FailsIffALineIsTooLong(pieces: seq<Bytes>)
    ensures ReadAll(Reading([], []), pieces).TooLong? <==> HasLongLine(Flatten(pieces))
  {
    ReadAllFeeds(pieces);
    TailOf(Flatten(pieces));
  }
}
