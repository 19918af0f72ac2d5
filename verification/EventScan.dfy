/** Reading an event file one byte at a time: the specification of the incremental reader. */
module EventScan {
  import opened Basics
  import opened EventProtocol

  const NEWLINE: Byte := 10
  const MAX_EVENT_BYTES := 0x40_0000

  /** Parses a line; None covers every malformed record, timestamps included. */
  type Decoder = seq<Byte> -> Option<Event>

  datatype Scan = Scan(track: Track, pending: seq<Byte>, evidence: seq<Event>, fault: Option<Fault>)

  datatype Verdict = Refuse(fault: Fault) | Admit(event: Event)

  function Accept(req: Request, decode: Decoder, t: Track, line: seq<Byte>): Verdict {
    var e := decode(line);
    if e.None? then Refuse(InvalidEvent)
    else
      var c := Check(req, t, e.value);
      if c.Some? then Refuse(c.value) else Admit(e.value)
  }

  function Push(req: Request, decode: Decoder, s: Scan, b: Byte): Scan {
    if s.fault.Some? then s
    else if b != NEWLINE then
      var pending := s.pending + [b];
      s.(pending := pending, fault := if |pending| >= MAX_EVENT_BYTES then Some(OutputLimit) else None)
    else
      var v := Accept(req, decode, s.track, s.pending);
      if v.Refuse? then s.(fault := Some(v.fault))
          else Scan(Advance(s.track, v.event), [], s.evidence + [v.event], None)
  }

  function ScanFrom(req: Request, decode: Decoder, s: Scan, bytes: seq<Byte>): Scan {
    if bytes == [] then s else Push(req, decode, ScanFrom(req, decode, s, bytes[..|bytes| - 1]), bytes[|bytes| - 1])
  }

  const SCAN_START := Scan(START, [], [], None)

  /** Reading a whole file at once, byte by byte. */
  function ScanFile(req: Request, decode: Decoder, bytes: seq<Byte>): Scan {
    ScanFrom(req, decode, SCAN_START, bytes)
  }

  lemma {:induction false} ScanJoins(req: Request, decode: Decoder, s: Scan, a: seq<Byte>, b: seq<Byte>)
    ensures ScanFrom(req, decode, s, a + b) == ScanFrom(req, decode, ScanFrom(req, decode, s, a), b)
  {
    if b == [] {
      assert a + b == a;
    } else {
      ScanJoins(req, decode, s, a, b[..|b| - 1]);
      assert (a + b)[..|a + b| - 1] == a + b[..|b| - 1];
    }
  }

  lemma {:induction false} FaultIsFinal(req: Request, decode: Decoder, s: Scan, bytes: seq<Byte>)
    requires s.fault.Some?
    ensures ScanFrom(req, decode, s, bytes) == s
  {
    if bytes != [] {
      FaultIsFinal(req, decode, s, bytes[..|bytes| - 1]);
    }
  }

  lemma FaultStays(req: Request, decode: Decoder, bytes: seq<Byte>, more: seq<Byte>)
    requires ScanFile(req, decode, bytes).fault.Some?
    ensures ScanFile(req, decode, bytes + more) == ScanFile(req, decode, bytes)
  {
    ScanJoins(req, decode, SCAN_START, bytes, more);
    FaultIsFinal(req, decode, ScanFile(req, decode, bytes), more);
  }

  lemma ScanNext(req: Request, decode: Decoder, s: Scan, bytes: seq<Byte>, b: Byte)
    ensures ScanFrom(req, decode, s, bytes + [b]) == Push(req, decode, ScanFrom(req, decode, s, bytes), b)
  {
    hide Push;
    assert (bytes + [b])[..|bytes|] == bytes;
  }

  /** Bytes without a newline only lengthen the unfinished line, until it is too long. */
  lemma {:induction false} PartialLine(req: Request, decode: Decoder, s: Scan, bytes: seq<Byte>)
    requires s.fault.None? && s.pending == [] && NEWLINE !in bytes
    ensures var r := ScanFrom(req, decode, s, bytes);
            if |bytes| < 0x40_0000 then r == s.(pending := bytes)
            else r.fault == Some(OutputLimit) && r.track == s.track && r.evidence == s.evidence
  {
    if bytes != [] {
      hide ScanFrom, Accept, Advance;
      var init, b := bytes[..|bytes| - 1], bytes[|bytes| - 1];
      assert b in bytes;
      assert init + [b] == bytes;
      PartialLine(req, decode, s, init);
      ScanNext(req, decode, s, init, b);
    }
  }

  lemma LineEnds(req: Request, decode: Decoder, s: Scan, line: seq<Byte>, rest: seq<Byte>)
    requires s.fault.None? && s.pending == []
    ensures ScanFrom(req, decode, ScanFrom(req, decode, s.(pending := line), [NEWLINE]), rest) ==
              var v := Accept(req, decode, s.track, line);
              if v.Refuse? then s.(pending := line, fault := Some(v.fault))
              else ScanFrom(req, decode, Scan(Advance(s.track, v.event), [], s.evidence + [v.event], None), rest)
  {
    hide Accept;
    var one := [NEWLINE];
    assert one[..|one| - 1] == [];
    var t := ScanFrom(req, decode, s.(pending := line), one);
    if t.fault.Some? {
      FaultIsFinal(req, decode, t, rest);
    }
  }
}
