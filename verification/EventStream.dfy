/** What reading an event file byte by byte means for the file as a whole. */
module EventStream {
  import opened Basics
  import opened EventProtocol
  import opened EventScan

  /** The bytes after the last newline. */
  function Rest(bytes: seq<Byte>): seq<Byte> {
    if bytes == [] || bytes[|bytes| - 1] == NEWLINE then [] else Rest(bytes[..|bytes| - 1]) + [bytes[|bytes| - 1]]
  }

  /** The complete lines, without their newlines. */
  function Lines(bytes: seq<Byte>): seq<seq<Byte>> {
    if bytes == [] then []
    else if bytes[|bytes| - 1] == NEWLINE then Lines(bytes[..|bytes| - 1]) + [Rest(bytes[..|bytes| - 1])]
    else Lines(bytes[..|bytes| - 1])
  }

  function Unlines(lines: seq<seq<Byte>>): seq<Byte> {
    if lines == [] then [] else Unlines(lines[..|lines| - 1]) + lines[|lines| - 1] + [NEWLINE]
  }

  /** Lines and rest rebuild the file. */
  lemma {:induction false} LinesRebuild(bytes: seq<Byte>)
    ensures Unlines(Lines(bytes)) + Rest(bytes) == bytes
    ensures NEWLINE !in Rest(bytes) && forall l :: l in Lines(bytes) ==> NEWLINE !in l
  {
    if bytes != [] {
      var init, b := bytes[..|bytes| - 1], bytes[|bytes| - 1];
      LinesRebuild(init);
      assert init + [b] == bytes;
      if b == NEWLINE {
        assert Lines(bytes)[..|Lines(bytes)| - 1] == Lines(init);
      }
    }
  }

  predicate AllDecode(decode: Decoder, lines: seq<seq<Byte>>) {
    forall i :: 0 <= i < |lines| ==> decode(lines[i]).Some?
  }

  function Events(decode: Decoder, lines: seq<seq<Byte>>): seq<Event>
    requires AllDecode(decode, lines)
  {
    seq(|lines|, i requires 0 <= i < |lines| => decode(lines[i]).value)
  }

  predicate AllShort(bytes: seq<Byte>) {
    |Rest(bytes)| < MAX_EVENT_BYTES && forall i :: 0 <= i < |Lines(bytes)| ==> |Lines(bytes)[i]| < MAX_EVENT_BYTES
  }

  /** Every line is a record, no line is too long, and the records follow the protocol. */
  predicate WellFormed(req: Request, decode: Decoder, bytes: seq<Byte>) {
    && AllShort(bytes) && AllDecode(decode, Lines(bytes))
    && Legal(req, Events(decode, Lines(bytes)))
  }

  predicate Reads(req: Request, decode: Decoder, bytes: seq<Byte>) {
    var s := ScanFile(req, decode, bytes);
    && s.pending == Rest(bytes) && AllDecode(decode, Lines(bytes))
    && s.evidence == Events(decode, Lines(bytes)) && Run(req, s.evidence) == Some(s.track)
  }

  lemma NextEvent(decode: Decoder, bytes: seq<Byte>)
    requires bytes != [] && bytes[|bytes| - 1] == NEWLINE
    ensures var init := bytes[..|bytes| - 1];
            && (AllDecode(decode, Lines(bytes)) <==> AllDecode(decode, Lines(init)) && decode(Rest(init)).Some?)
            && (AllDecode(decode, Lines(bytes)) ==>
                  Events(decode, Lines(bytes)) == Events(decode, Lines(init)) + [decode(Rest(init)).value])
            && (AllShort(bytes) <==> AllShort(init))
  {
    var init := bytes[..|bytes| - 1];
    var before, after := Lines(init), Lines(bytes);
    assert after == before + [Rest(init)];
    assert forall i :: 0 <= i < |before| ==> after[i] == before[i];
    assert after[|before|] == Rest(init);
  }

  lemma RunNext(req: Request, es: seq<Event>, e: Event)
    ensures Run(req, es + [e]) ==
              if Run(req, es).Some? && Check(req, Run(req, es).value, e).None? then Some(Advance(Run(req, es).value, e))
                  else None
  {
    assert (es + [e])[..|es|] == es;
  }

  /** A scan succeeds exactly on well-formed files, and then its state is what the file says. */
  lemma {:induction false} ScanAcceptsExactly(req: Request, decode: Decoder, bytes: seq<Byte>)
    ensures ScanFile(req, decode, bytes).fault.None? <==> WellFormed(req, decode, bytes)
    ensures ScanFile(req, decode, bytes).fault.None? ==> Reads(req, decode, bytes)
  {
    hide Check, Advance, Legal, Run;
    if bytes == [] {
      assert Events(decode, Lines(bytes)) == [];
      AcceptsExactlyLegal(req, []);
      EmptyRun(req);
    } else {
      var init, b := bytes[..|bytes| - 1], bytes[|bytes| - 1];
      ScanAcceptsExactly(req, decode, init);
      if b == NEWLINE {
        LineScanned(req, decode, bytes);
      } else {
        assert Lines(bytes) == Lines(init) && |Rest(bytes)| == |Rest(init)| + 1;
      }
    }
  }

  lemma EmptyRun(req: Request)
    ensures Run(req, []) == Some(START)
  {
  }

  lemma LineScanned(req: Request, decode: Decoder, bytes: seq<Byte>)
    requires bytes != [] && bytes[|bytes| - 1] == NEWLINE
    requires var init := bytes[..|bytes| - 1];
             && (ScanFile(req, decode, init).fault.None? <==> WellFormed(req, decode, init))
             && (ScanFile(req, decode, init).fault.None? ==> Reads(req, decode, init))
    ensures ScanFile(req, decode, bytes).fault.None? <==> WellFormed(req, decode, bytes)
    ensures ScanFile(req, decode, bytes).fault.None? ==> Reads(req, decode, bytes)
  {
    hide Check, Advance, Legal, Run, AllShort, AllDecode, Events, Lines;
    var init := bytes[..|bytes| - 1];
    NextEvent(decode, bytes);
    assert Rest(bytes) == [];
    if AllDecode(decode, Lines(bytes)) {
      var before, e := Events(decode, Lines(init)), decode(Rest(init)).value;
      AcceptsExactlyLegal(req, before);
      AcceptsExactlyLegal(req, before + [e]);
      RunNext(req, before, e);
    }
  }

  /** The length fault is reported exactly when some line reaches the limit before anything else is wrong. */
  lemma {:induction false} LengthFaultExactly(req: Request, decode: Decoder, bytes: seq<Byte>)
    ensures ScanFile(req, decode, bytes).fault == Some(OutputLimit) <==>
              exists n :: 0 <= n < |bytes| && WellFormed(req, decode, bytes[..n]) &&
                  |Rest(bytes[..n + 1])| >= MAX_EVENT_BYTES
  {
    hide Check, Advance, WellFormed, Reads;
    if bytes != [] {
      var n := |bytes| - 1;
      var init := bytes[..n];
      LengthFaultExactly(req, decode, init);
      ScanAcceptsExactly(req, decode, init);
      assert forall m :: 0 <= m <= n ==> init[..m] == bytes[..m];
      assert bytes[..n + 1] == bytes;
      LengthFaultStep(req, decode, bytes);
      if exists m :: 0 <= m < n && WellFormed(req, decode, init[..m]) && |Rest(init[..m + 1])| >= MAX_EVENT_BYTES {
        var m :| 0 <= m < n && WellFormed(req, decode, init[..m]) && |Rest(init[..m + 1])| >= MAX_EVENT_BYTES;
        assert bytes[..m + 1] == init[..m + 1] && WellFormed(req, decode, bytes[..m]);
      }
    }
  }

  lemma LengthFaultStep(req: Request, decode: Decoder, bytes: seq<Byte>)
    requires bytes != []
    ensures var init := bytes[..|bytes| - 1];
            ScanFile(req, decode, bytes).fault == Some(OutputLimit) <==>
              ScanFile(req, decode, init).fault == Some(OutputLimit)
              || (WellFormed(req, decode, init) && |Rest(bytes)| >= MAX_EVENT_BYTES)
  {
    hide WellFormed, Legal, Run, Advance, Coherent, ValidId;
    ScanAcceptsExactly(req, decode, bytes[..|bytes| - 1]);
  }

  // ----- chunks -----

  function Concat(chunks: seq<seq<Byte>>): seq<Byte> {
    if chunks == [] then [] else Concat(chunks[..|chunks| - 1]) + chunks[|chunks| - 1]
  }

  function ScanChunks(req: Request, decode: Decoder, chunks: seq<seq<Byte>>): Scan {
    if chunks == [] then SCAN_START
    else ScanFrom(req, decode, ScanChunks(req, decode, chunks[..|chunks| - 1]), chunks[|chunks| - 1])
  }

  /** However the bytes arrive, the events, the first fault and the unfinished line are the same. */
  lemma {:induction false} ChunksDoNotMatter(req: Request, decode: Decoder, chunks: seq<seq<Byte>>,
      others: seq<seq<Byte>>)
    requires Concat(chunks) == Concat(others)
    ensures ScanChunks(req, decode, chunks) == ScanChunks(req, decode, others)
  {
    ChunksAreOneScan(req, decode, chunks);
    ChunksAreOneScan(req, decode, others);
  }

  lemma {:induction false} ChunksAreOneScan(req: Request, decode: Decoder, chunks: seq<seq<Byte>>)
    ensures ScanChunks(req, decode, chunks) == ScanFile(req, decode, Concat(chunks))
  {
    if chunks != [] {
      var init := chunks[..|chunks| - 1];
      ChunksAreOneScan(req, decode, init);
      ScanJoins(req, decode, SCAN_START, Concat(init), chunks[|chunks| - 1]);
    }
  }

  // ----- a finished execution -----

  /** Whole lines of a legal stream that ends in a final event. */
  predicate Ended(req: Request, decode: Decoder, bytes: seq<Byte>) {
    && WellFormed(req, decode, bytes) && Rest(bytes) == []
    && var es := Events(decode, Lines(bytes));
       es != [] && es[|es| - 1].kind == "final"
  }

  /** The result record repeats that final event. */
  predicate Complete(req: Request, decode: Decoder, bytes: seq<Byte>, r: Outcome) {
    && Ended(req, decode, bytes)
    && var es := Events(decode, Lines(bytes));
       Repeats(es[|es| - 1], r)
  }

  /** Reading the file and finishing with this result succeed exactly when the file is complete with it. */
  lemma ExecutionAcceptedExactly(req: Request, decode: Decoder, bytes: seq<Byte>, r: Outcome)
    ensures var s := ScanFile(req, decode, bytes);
            (s.fault.None? && s.pending == [] && FinishStream(s.track, r).None?) <==> Complete(req, decode, bytes, r)
  {
    hide Check, Advance, Legal, Run, AllShort, ScanFile;
    ScanAcceptsExactly(req, decode, bytes);
    if ScanFile(req, decode, bytes).fault.None? {
      FinishAcceptsExactly(req, Events(decode, Lines(bytes)), r);
    }
  }

  /**
   After a reading without fault, the two ways in which finishing fails tell a missing final
   event from a differing result.
   */
  lemma FinishMeans(req: Request, decode: Decoder, bytes: seq<Byte>, r: Outcome)
    ensures var s := ScanFile(req, decode, bytes);
            s.fault.None? ==>
              && s.pending == Rest(bytes)
              && (s.pending == [] ==>
                    FinishStream(s.track, r) == if Complete(req, decode, bytes, r) then None
                                                else if Ended(req, decode, bytes) then Some(FinalMismatch)
                                                else Some(MissingFinal))
  {
    hide Check, Advance, Legal, Run, AllShort, ScanFile;
    ScanAcceptsExactly(req, decode, bytes);
    if ScanFile(req, decode, bytes).fault.None? {
      var es := Events(decode, Lines(bytes));
      FinishAcceptsExactly(req, es, r);
      FinalIsTracked(req, es);
    }
  }

  lemma FinalIsTracked(req: Request, es: seq<Event>)
    requires Run(req, es).Some?
    ensures Run(req, es).value.final.Some? <==> es != [] && es[|es| - 1].kind == "final"
  {
    hide Run, Legal;
    AcceptsExactlyLegal(req, es);
  }
}
