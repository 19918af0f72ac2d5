/**
 The incremental reader of a growing event file: polls read it in chunks of any size, and
 what they accept depends only on the bytes.
 */
module EventTail {
  import opened Basics
  import opened EventProtocol
  import opened EventScan
  import opened EventStream

  const MAX_OUTPUT_BYTES := 0x200_0000
  const CHUNK_BYTES := 0x8000

  /** What a poll finds at the path. */
  datatype File =
    | Absent
    /** The path cannot be examined, or no longer names the isOpen file. */
    | Elsewhere
    /** Not a regular file with mode 0600. */
    | NotPrivate
    | Present(content: seq<Byte>)

  lemma Pieces(read: seq<Byte>, content: seq<Byte>, here: nat, next: nat, end: nat)
    requires here <= next <= end <= |content|
    ensures read + content[here..end] == (read + content[here..next]) + content[next..end]
  {
    assert content[here..end] == content[here..next] + content[next..end];
  }

  class EventReader {
    const req: Request
    const decode: Decoder
    var isOpen: bool
    var offset: nat
    var pending: seq<Byte>
    var track: Track
    /** The accepted events, in the order they are relayed. */
    var evidence: seq<Event>
    ghost var consumed: seq<Byte>

    constructor (req: Request, decode: Decoder)
      ensures this.req == req && this.decode == decode && Valid() && consumed == [] && !isOpen && evidence == []
    {
      this.req, this.decode := req, decode;
      isOpen, offset, pending, track, evidence, consumed := false, 0, [], START, [], [];
    }

    /** The state is the one a byte-by-byte scan of everything consumed would be in. */
    ghost predicate Valid()
      reads this
    {
      && offset == |consumed| <= MAX_OUTPUT_BYTES
      && ScanFile(req, decode, consumed) == Scan(track, pending, evidence, None)
      && NEWLINE !in pending && |pending| < MAX_EVENT_BYTES
    }

    /** A file that is too long fails for its length, unless the reading met a fault before. */
    ghost predicate Overflow(err: Option<Fault>, bytes: seq<Byte>) {
      err == Some(OutputLimit) || (err.Some? && err == ScanFile(req, decode, bytes).fault)
    }

    method Consider(line: seq<Byte>) returns (err: Option<Fault>)
      modifies `track, `evidence
      ensures var v := Accept(req, decode, old(track), line);
              if v.Refuse? then err == Some(v.fault) && track == old(track) && evidence == old(evidence)
              else err == None && track == Advance(old(track), v.event) && evidence == old(evidence) + [v.event]
    {
      var e := decode(line);
      if e.None? {
        return Some(InvalidEvent);
      }
      err := Check(req, track, e.value);
      if err.Some? {
        return;
      }
      evidence := evidence + [e.value];
      track := Advance(track, e.value);
    }

    method IndexNewline() returns (end: int)
      ensures if NEWLINE in pending then 0 <= end < |pending| && pending[end] == NEWLINE &&
                NEWLINE !in pending[..end] else end == -1
    {
      end := 0;
      while end < |pending|
        invariant 0 <= end <= |pending| && NEWLINE !in pending[..end]
      {
        if pending[end] == NEWLINE {
          return;
        }
        end := end + 1;
      }
      return -1;
    }

    /** Splits the buffer into lines and accepts each of them. */
    method AcceptLines(ghost target: Scan) returns (err: Option<Fault>)
      requires ScanFrom(req, decode, Scan(track, [], evidence, None), pending) == target
      modifies `track, `evidence, `pending
      ensures err == target.fault && track == target.track && evidence == target.evidence
      ensures err.None? ==> pending == target.pending && NEWLINE !in pending && |pending| < MAX_EVENT_BYTES
    {
      hide Accept, Push;
      while true
        invariant ScanFrom(req, decode, Scan(track, [], evidence, None), pending) == target
        decreases |pending|
      {
        var end := IndexNewline();
        ghost var s := Scan(track, [], evidence, None);
        if end < 0 {
          break;
        }
        ghost var line, rest := pending[..end], pending[end + 1..];
        assert pending == line + ([NEWLINE] + rest);
        ScanJoins(req, decode, s, line, [NEWLINE] + rest);
        PartialLine(req, decode, s, line);
        if end >= MAX_EVENT_BYTES {
          FaultIsFinal(req, decode, ScanFrom(req, decode, s, line), [NEWLINE] + rest);
          return Some(OutputLimit);
        }
        ScanJoins(req, decode, s.(pending := line), [NEWLINE], rest);
        err := Consider(pending[..end]);
        LineEnds(req, decode, s, line, rest);
        if err.Some? {
          return;
        }
        pending := pending[end + 1..];
      }
      PartialLine(req, decode, Scan(track, [], evidence, None), pending);
      if |pending| >= MAX_EVENT_BYTES {
        return Some(OutputLimit);
      }
      return None;
    }

    /** One read: the bytes join the unfinished line and every line they complete is accepted. */
    method Take(chunk: seq<Byte>) returns (err: Option<Fault>)
      requires Valid() && offset + |chunk| <= MAX_OUTPUT_BYTES
      modifies this
      ensures consumed == old(consumed) + chunk && offset == old(offset) + |chunk| && isOpen == old(isOpen)
      ensures var whole := ScanFile(req, decode, consumed);
              && err == whole.fault && track == whole.track && evidence == whole.evidence
              && (err.None? ==> Valid() && pending == whole.pending)
    {
      hide ScanFrom, Accept, Push;
      ghost var s := Scan(track, [], evidence, None);
      ScanJoins(req, decode, SCAN_START, consumed, chunk);
      PartialLine(req, decode, s, pending);
      ScanJoins(req, decode, s, pending, chunk);
      consumed := consumed + chunk;
      offset := offset + |chunk|;
      pending := pending + chunk;
      err := AcceptLines(ScanFile(req, decode, consumed));
    }

    /** Reads to the end of the file in chunks whose sizes are not under the reader's control. */
    method ReadToEnd(content: seq<Byte>) returns (err: Option<Fault>)
      requires Valid() && offset <= |content|
      modifies this
      ensures isOpen == old(isOpen)
      ensures |content| <= MAX_OUTPUT_BYTES ==>
                var whole := ScanFile(req, decode, old(consumed) + content[old(offset)..]);
                && err == whole.fault && track == whole.track && evidence == whole.evidence
                && (err.None? ==>
                    Valid() && consumed == old(consumed) + content[old(offset)..] && pending == whole.pending)
      ensures |content| > MAX_OUTPUT_BYTES ==> Overflow(err, old(consumed) + content[old(offset)..MAX_OUTPUT_BYTES])
    {
      hide ScanFrom, ScanFile;
      ghost var end := if |content| > MAX_OUTPUT_BYTES then MAX_OUTPUT_BYTES else |content|;
      ghost var all := consumed + content[offset..end];
      assert |content| <= MAX_OUTPUT_BYTES ==> content[offset..end] == content[offset..];
      while true
        invariant Valid() && isOpen == old(isOpen) && offset <= end && all == consumed + content[offset..end]
        decreases |content| - offset
      {
        var remaining := MAX_OUTPUT_BYTES + 1 - offset;
        if offset == |content| {
          assert all == consumed;
          return None;
        }
        var most := if remaining < CHUNK_BYTES then remaining else CHUNK_BYTES;
        var n: nat :| 1 <= n <= most && n <= |content| - offset;
        if offset + n > MAX_OUTPUT_BYTES {
          offset := offset + n;
          return Some(OutputLimit);
        }
        Pieces(consumed, content, offset, offset + n, end);
        err := Take(content[offset..offset + n]);
        if err.Some? {
          FaultStays(req, decode, consumed, content[offset..end]);
          return;
        }
      }
    }

    /** One poll of the path. */
    method Poll(file: File) returns (err: Option<Fault>)
      requires Valid()
      modifies this
      ensures !file.Present? ==>
                consumed == old(consumed) && Valid()
                && err == if file.Absent? && !old(isOpen) then None else if file.NotPrivate? then Some(InvalidFile)
                    else Some(FileChanged)
      ensures file.Present? && |file.content| < old(offset) ==> err == Some(Truncated) && consumed == old(consumed)
      ensures file.Present? && old(offset) <= |file.content| <= 0x200_0000 ==>
                var whole := ScanFile(req, decode, old(consumed) + file.content[old(offset)..]);
                && err == whole.fault && track == whole.track && evidence == whole.evidence
                && (err.None? ==>
                    Valid() && isOpen && pending == whole.pending
                    && consumed == old(consumed) + file.content[old(offset)..])
      ensures file.Present? && |file.content| > 0x200_0000 ==>
                Overflow(err, old(consumed) + file.content[old(offset)..0x200_0000])
    {
      hide ScanFrom, ScanFile;
      if file.Absent? && !isOpen {
        return None;
      }
      if file.NotPrivate? {
        return Some(InvalidFile);
      }
      if !file.Present? {
        return Some(FileChanged);
      }
      isOpen := true;
      if |file.content| < offset {
        return Some(Truncated);
      }
      err := ReadToEnd(file.content);
    }

    /**
     Called once the process has exited. After polls that met no fault, finishing succeeds
     exactly when the bytes consumed are whole lines of a legal stream whose last event is a
     final one that the result repeats; otherwise the fault says what is missing.
     */
    method Finish(r: Outcome) returns (err: Option<Fault>)
      ensures Valid() ==> (err.None? <==> isOpen && Complete(req, decode, consumed, r))
      ensures Valid() && err.Some? ==>
                err.value == if !isOpen then MissingEvents
                             else if Rest(consumed) != [] then Truncated
                             else if !Ended(req, decode, consumed) then MissingFinal
                             else FinalMismatch
    {
      if Valid() {
        FinishMeans(req, decode, consumed, r);
      }
      if !isOpen {
        return Some(MissingEvents);
      }
      if |pending| > 0 {
        return Some(Truncated);
      }
      return FinishStream(track, r);
    }
  }
}
