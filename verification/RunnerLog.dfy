/** The bounded output log of one attempt. */
module RunnerLog {
  import opened Common

  type byte = bv8

  /** The newest `limit` bytes. */
  function Last(s: seq<byte>, limit: nat): seq<byte> {
    if |s| <= limit then s else s[|s| - limit..]
  }

  function Stream(chunks: seq<seq<byte>>): seq<byte> {
    if chunks == [] then [] else Stream(chunks[..|chunks| - 1]) + chunks[|chunks| - 1]
  }

  /** The file after the capture loop has read these chunks. */
  function Captured(chunks: seq<seq<byte>>, limit: nat): seq<byte> {
    if chunks == [] then []
    else
      var grown := Captured(chunks[..|chunks| - 1], limit) + chunks[|chunks| - 1];
      if |grown| > limit * 2 then Last(grown, limit) else grown
  }

  /** Whether the file was ever cut. */
  predicate Cut(chunks: seq<seq<byte>>, limit: nat) {
    chunks != [] &&
    (Cut(chunks[..|chunks| - 1], limit)
     || |Captured(chunks[..|chunks| - 1], limit) + chunks[|chunks| - 1]| > limit * 2)
  }

  predicate IsSuffix(s: seq<byte>, t: seq<byte>) {
    |s| <= |t| && t[|t| - |s|..] == s
  }

  lemma SuffixOfSuffix(s: seq<byte>, t: seq<byte>, u: seq<byte>)
    requires IsSuffix(s, t) && IsSuffix(t, u)
    ensures IsSuffix(s, u)
  {
  }

  lemma SuffixExtends(s: seq<byte>, t: seq<byte>, x: seq<byte>)
    requires IsSuffix(s, t)
    ensures IsSuffix(s + x, t + x)
  {
  }

  lemma LastIsASuffix(s: seq<byte>, limit: nat)
    ensures IsSuffix(Last(s, limit), s) && |Last(s, limit)| == Min(|s|, limit)
  {
  }

  lemma OneMoreChunk(chunks: seq<seq<byte>>, i: nat, limit: nat)
    requires i < |chunks|
    ensures Stream(chunks[..i + 1]) == Stream(chunks[..i]) + chunks[i]
    ensures Captured(chunks[..i + 1], limit) ==
      var grown := Captured(chunks[..i], limit) + chunks[i];
      if |grown| > limit * 2 then Last(grown, limit) else grown
    ensures Cut(chunks[..i + 1], limit) <==>
      Cut(chunks[..i], limit) || |Captured(chunks[..i], limit) + chunks[i]| > limit * 2
  {
    assert chunks[..i + 1][..i] == chunks[..i];
  }

  /** One turn of the loop, as bytes: `file` is what was kept of `stream`. */
  lemma CaptureStep(file: seq<byte>, stream: seq<byte>, x: seq<byte>, limit: nat)
    requires limit > 0 && IsSuffix(file, stream) && |file| >= Min(|stream|, limit)
    ensures var file' := if |file + x| > limit * 2 then Last(file + x, limit) else file + x;
      && IsSuffix(file', stream + x) && |file'| <= limit * 2 && |file'| >= Min(|stream + x|, limit)
      && (|file'| < |stream + x| <==> |file| < |stream| || |file + x| > limit * 2)
  {
    SuffixExtends(file, stream, x);
    LastIsASuffix(file + x, limit);
    if |file + x| > limit * 2 {
      SuffixOfSuffix(Last(file + x, limit), file + x, stream + x);
    }
  }

  /** After every chunk, for any chunking, the file is a suffix of the stream, at most twice the limit,
      never shorter than the limit allows, and shorter than the stream exactly when it was cut. */
  lemma {:induction false} CapturedIsASuffix(chunks: seq<seq<byte>>, limit: nat)
    requires limit > 0
    ensures IsSuffix(Captured(chunks, limit), Stream(chunks))
    ensures |Captured(chunks, limit)| <= limit * 2
    ensures |Captured(chunks, limit)| >= Min(|Stream(chunks)|, limit)
    ensures Cut(chunks, limit) <==> |Captured(chunks, limit)| < |Stream(chunks)|
    decreases |chunks|
  {
    if chunks != [] {
      var n := |chunks| - 1;
      CapturedIsASuffix(chunks[..n], limit);
      OneMoreChunk(chunks, n, limit);
      assert chunks[..n + 1] == chunks;
      CaptureStep(Captured(chunks[..n], limit), Stream(chunks[..n]), chunks[n], limit);
    }
  }

  /** The final compaction leaves the newest bytes of the whole stream. */
  lemma FinalCompaction(file: seq<byte>, stream: seq<byte>, limit: nat)
    requires IsSuffix(file, stream) && |file| >= Min(|stream|, limit)
    ensures Last(file, limit) == Last(stream, limit)
    ensures |file| > limit || |file| < |stream| <==> |stream| > limit
  {
  }

  /** An open binary file with a position. */
  class LogFile {
    var data: seq<byte>
    var position: nat

    predicate Valid() reads this { position <= |data| }

    predicate AtEnd() reads this { position == |data| }

    constructor ()
      ensures Valid() && data == [] && AtEnd()
    {
      data, position := [], 0;
    }

    method Seek(offset: nat)
      modifies this`position
      ensures position == offset
    {
      position := offset;
    }

    method Read(count: nat) returns (bytes: seq<byte>)
      requires Valid()
      modifies this`position
      ensures bytes == data[old(position)..Min(|data|, old(position) + count)]
      ensures position == Min(|data|, old(position) + count)
    {
      var end := Min(|data|, position + count);
      bytes := data[position..end];
      position := end;
    }

    /** Cut the file off at the position. */
    method Truncate()
      requires Valid()
      modifies this`data
      ensures data == old(data)[..position]
    {
      data := data[..position];
    }

    method Write(bytes: seq<byte>)
      requires Valid()
      modifies this
      ensures position == old(position) + |bytes| && Valid()
      ensures data == old(data)[..old(position)] + bytes
        + (if position <= |old(data)| then old(data)[position..] else [])
    {
      var end := position + |bytes|;
      data := data[..position] + bytes + (if end <= |data| then data[end..] else []);
      position := end;
    }

    /** Keep only the newest bytes of a file positioned at its end. */
    method CompactLog(maxBytes: nat) returns (cut: bool)
      requires Valid() && AtEnd()
      modifies this
      ensures Valid() && AtEnd()
      ensures data == Last(old(data), maxBytes)
      ensures cut <==> |old(data)| > maxBytes
    {
      var size := position;
      if size <= maxBytes { return false; }
      Seek(Max(0, size - maxBytes));
      var tail := Read(maxBytes);
      Seek(0);
      Truncate();
      Write(tail);
      cut := true;
    }

    /** One turn of the capture loop: write a chunk, and compact once the file passes twice the limit. */
    method AppendChunk(chunk: seq<byte>, maxLogBytes: nat) returns (cut: bool)
      requires Valid() && AtEnd()
      modifies this
      ensures Valid() && AtEnd()
      ensures cut <==> |old(data) + chunk| > maxLogBytes * 2
      ensures data == if cut then Last(old(data) + chunk, maxLogBytes) else old(data) + chunk
    {
      Write(chunk);
      assert data == old(data) + chunk;
      cut := false;
      if position > maxLogBytes * 2 {
        cut := CompactLog(maxLogBytes);
      }
    }

    /** The capture loop: chunks as the process writes them, until the end of its output. */
    method Capture(chunks: seq<seq<byte>>, maxLogBytes: nat) returns (outputBytes: nat, logTruncated: bool)
      requires Valid() && data == [] && maxLogBytes > 0
      modifies this
      ensures data == Last(Stream(chunks), maxLogBytes)
      ensures outputBytes == |Stream(chunks)|
      ensures logTruncated <==> |Stream(chunks)| > maxLogBytes
    {
      outputBytes, logTruncated := 0, false;
      var i := 0;
      while i < |chunks|
        invariant 0 <= i <= |chunks| && Valid() && AtEnd()
        invariant data == Captured(chunks[..i], maxLogBytes)
        invariant outputBytes == |Stream(chunks[..i])|
        invariant logTruncated <==> Cut(chunks[..i], maxLogBytes)
      {
        OneMoreChunk(chunks, i, maxLogBytes);
        outputBytes := outputBytes + |chunks[i]|;
        var cut := AppendChunk(chunks[i], maxLogBytes);
        logTruncated := cut || logTruncated;
        i := i + 1;
      }
      assert chunks[..i] == chunks;
      CapturedIsASuffix(chunks, maxLogBytes);
      FinalCompaction(data, Stream(chunks), maxLogBytes);
      var cut := CompactLog(maxLogBytes);
      logTruncated := cut || logTruncated;
    }

    /** Append one line to a managed job's log. */
    method AppendManagedLog(encoded: seq<byte>, maxBytes: nat) returns (truncated: bool)
      requires Valid() && AtEnd()
      modifies this
      ensures Valid() && AtEnd()
      ensures data == Last(old(data) + encoded, maxBytes)
      ensures truncated <==> |old(data)| + |encoded| > maxBytes
    {
      Write(encoded);
      assert data == old(data) + encoded;
      truncated := CompactLog(maxBytes);
    }
  }
}
