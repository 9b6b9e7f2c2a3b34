/** Newline-delimited framing of serialized records in the log buffer. */
module Framing {
  import opened Values

  predicate NewlineFree(b: seq<byte>)
  {
    forall i :: 0 <= i < |b| ==> b[i] != Newline
  }

  /** The buffer holding `records`, each followed by one newline. */
  function Frame(records: seq<seq<byte>>): (b: seq<byte>)
  {
    if records == [] then [] else records[0] + [Newline] + Frame(records[1..])
  }

  /** Appending a record extends the framed buffer by that record and a newline. */
  lemma {:induction false} FrameAppend(records: seq<seq<byte>>, r: seq<byte>)
    ensures Frame(records + [r]) == Frame(records) + r + [Newline]
  {
    if records != [] {
      assert (records + [r])[1..] == records[1..] + [r];
      FrameAppend(records[1..], r);
    } else {
      assert records + [r] == [r];
    }
  }

  /** A framed buffer is empty or ends with a newline. */
  lemma {:induction false} FrameTerminated(records: seq<seq<byte>>)
    ensures |Frame(records)| == 0 <==> records == []
    ensures records != [] ==> Frame(records)[|Frame(records)| - 1] == Newline
  {
    if records != [] {
      FrameTerminated(records[1..]);
    }
  }

  /** The offset of the first newline in `b`, or `|b|` when there is none. */
  function FirstNewline(b: seq<byte>): (i: nat)
    ensures i <= |b|
    ensures i < |b| ==> b[i] == Newline
    ensures NewlineFree(b[..i])
  {
    if b == [] then 0
    else if b[0] == Newline then 0
    else
      var i := 1 + FirstNewline(b[1..]);
      assert b[..i] == [b[0]] + b[1..][..i - 1];
      i
  }

  /** How a receiver reads newline-delimited records back; an unterminated
      tail counts as a last record. */
  function SplitLines(b: seq<byte>): seq<seq<byte>>
    decreases |b|
  {
    if b == [] then []
    else
      var i := FirstNewline(b);
      if i == |b| then [b] else [b[..i]] + SplitLines(b[i + 1..])
  }

  lemma FirstNewlineOfLine(r: seq<byte>, rest: seq<byte>)
    requires NewlineFree(r)
    ensures FirstNewline(r + [Newline] + rest) == |r|
    decreases |r|
  {
    if r != [] {
      assert (r + [Newline] + rest)[1..] == r[1..] + [Newline] + rest;
      FirstNewlineOfLine(r[1..], rest);
    }
  }

  /** Splitting a framed buffer gives back exactly the records, in order,
      provided no record holds a raw newline (compact JSON never does). */
  lemma {:induction false} SplitFrame(records: seq<seq<byte>>)
    requires forall k :: 0 <= k < |records| ==> NewlineFree(records[k])
    ensures SplitLines(Frame(records)) == records
  {
    if records != [] {
      var r, rest := records[0], Frame(records[1..]);
      var b := r + [Newline] + rest;
      FirstNewlineOfLine(r, rest);
      assert b[..|r|] == r;
      assert b[|r| + 1..] == rest;
      SplitFrame(records[1..]);
    }
  }
}
