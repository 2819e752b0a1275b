/** The bytes of an attestation response: what the daemon emits and what the client reads. */
module AttestdStream {
  import opened Options
  import opened AttestdFraming
  import opened ResponseAssembler

  // The wire form of frames

  function Wire(fs: seq<Frame>): (bytes: seq<Byte>) {
    if fs == [] then [] else Wire(fs[..|fs| - 1]) + EncodeFrame(fs[|fs| - 1].kind, fs[|fs| - 1].payload)
  }

  lemma {:induction false} WireAppend(fs: seq<Frame>, gs: seq<Frame>)
    ensures Wire(fs + gs) == Wire(fs) + Wire(gs)
  {
    hide EncodeFrame;
    if gs == [] {
      assert fs + gs == fs;
    } else {
      var n := |gs| - 1;
      assert (fs + gs)[..|fs| + n] == fs + gs[..n];
      WireAppend(fs, gs[..n]);
    }
  }

  // The emitter

  /** The chunks of some evidence, from an offset. */
  function Chunks(evidence: seq<Byte>, at: nat): (fs: seq<Frame>)
    requires at <= |evidence|
    decreases |evidence| - at
  {
    if at == |evidence| then []
    else
      var span := Span(evidence, at);
      [Frame(EVIDENCE_CHUNK, evidence[at..at + span])] + Chunks(evidence, at + span)
  }

  /** How many chunks carry so many bytes. */
  function CountOf(n: nat): nat {
    (n + MAX_FRAME_BYTES - 1) / MAX_FRAME_BYTES
  }

  function ChunkCount(evidence: seq<Byte>): nat {
    CountOf(|evidence|)
  }

  lemma {:induction false} CountStep(evidence: seq<Byte>, at: nat)
    requires at < |evidence|
    ensures CountOf(|evidence| - at) == 1 + CountOf(|evidence| - at - Span(evidence, at))
  {
  }

  function HeaderPayload(codec: Codec, bundle: Bundle): seq<Byte> {
    codec.dump(HeaderObject(codec.toHex(bundle.challengeDigest), |codec.encode(bundle.platform)|))
  }

  function EndPayload(codec: Codec, evidence: seq<Byte>): seq<Byte> {
    codec.dump(EndObject(ChunkCount(evidence), codec.toHex(codec.sha256(evidence))))
  }

  /** All frames of a bundle. */
  function BundleFrames(codec: Codec, bundle: Bundle): seq<Frame> {
    var evidence := codec.encode(bundle.platform);
    [Frame(HEADER, HeaderPayload(codec, bundle))] + Chunks(evidence, 0) + [Frame(END, EndPayload(codec, evidence))]
  }

  function Encoded(fs: seq<Frame>): (wires: seq<seq<Byte>>)
    ensures |wires| == |fs|
    ensures forall i :: 0 <= i < |fs| ==> wires[i] == EncodeFrame(fs[i].kind, fs[i].payload)
  {
    seq(|fs|, i requires 0 <= i < |fs| => EncodeFrame(fs[i].kind, fs[i].payload))
  }

  lemma {:induction false} EncodedAppend(fs: seq<Frame>, gs: seq<Frame>)
    ensures Encoded(fs + gs) == Encoded(fs) + Encoded(gs)
  {
  }

  /** What went down the socket. */
  function Joined(wires: seq<seq<Byte>>): seq<Byte> {
    if wires == [] then [] else Joined(wires[..|wires| - 1]) + wires[|wires| - 1]
  }

  lemma {:induction false} JoinedEncoded(fs: seq<Frame>)
    ensures Joined(Encoded(fs)) == Wire(fs)
  {
    hide EncodeFrame;
    if fs != [] {
      var n := |fs| - 1;
      assert Encoded(fs)[..n] == Encoded(fs[..n]);
      JoinedEncoded(fs[..n]);
    }
  }

  function Span(evidence: seq<Byte>, at: nat): nat
    requires at <= |evidence|
  {
    if |evidence| - at < MAX_FRAME_BYTES then |evidence| - at else MAX_FRAME_BYTES
  }

  /** Emit a bundle into a sink that takes `room` frames and refuses the next. */
  method EmitBundle(codec: Codec, bundle: Bundle, room: nat) returns (ok: bool, sent: seq<seq<Byte>>)
    ensures sent <= Encoded(BundleFrames(codec, bundle))
    ensures ok <==> ChunkCount(codec.encode(bundle.platform)) <= MAX_CHUNKS && |BundleFrames(codec, bundle)| <= room
    ensures ok ==> sent == Encoded(BundleFrames(codec, bundle))
    ensures MAX_CHUNKS < ChunkCount(codec.encode(bundle.platform)) ==> sent == []
  {
    hide Chunks, Encoded, EncodeFrame, HeaderPayload, EndPayload;
    var evidence := codec.encode(bundle.platform);
    ghost var end := [Frame(END, EndPayload(codec, evidence))];
    var chunks := (|evidence| + MAX_FRAME_BYTES - 1) / MAX_FRAME_BYTES;
    if MAX_CHUNKS < chunks || room == 0 {
      return false, [];
    }
    sent := [EncodeFrame(HEADER, HeaderPayload(codec, bundle))];
    ghost var frames := [Frame(HEADER, HeaderPayload(codec, bundle))];
    var at := 0;
    while at < |evidence|
      invariant 0 <= at <= |evidence|
      invariant |frames| <= room && sent == Encoded(frames)
      invariant BundleFrames(codec, bundle) == frames + Chunks(evidence, at) + end
    {
      ChunksStep(evidence, at);
      EncodedAppend(frames, Chunks(evidence, at) + end);
      if |sent| == room {
        return false, sent;
      }
      var span := Span(evidence, at);
      sent := sent + [EncodeFrame(EVIDENCE_CHUNK, evidence[at..at + span])];
      ghost var next := [Frame(EVIDENCE_CHUNK, evidence[at..at + span])];
      EncodedAppend(frames, next);
      frames := frames + next;
      at := at + span;
    }
    ChunksStep(evidence, at);
    EncodedAppend(frames, end);
    if |sent| == room {
      return false, sent;
    }
    ok, sent := true, sent + [EncodeFrame(END, EndPayload(codec, evidence))];
  }

  lemma {:induction false} ChunksStep(evidence: seq<Byte>, at: nat)
    requires at <= |evidence|
    ensures at == |evidence| ==> Chunks(evidence, at) == []
    ensures at < |evidence| ==>
      && at < at + Span(evidence, at) <= |evidence|
      && Chunks(evidence, at) == [Frame(EVIDENCE_CHUNK, evidence[at..at + Span(evidence, at)])] + Chunks(evidence, at + Span(evidence, at))
  {
  }

  // The reader

  datatype Stop = Faulted(error: FrameError) | Stopped(state: Assembly)

  /** The length that a stream declares first. */
  function DeclaredLength(s: seq<Byte>): nat
    requires FRAME_HEADER_BYTES <= |s|
  {
    DecodeLength(s[..4])
  }

  /** Read frames off a stream that ends where its peer stopped writing. Reading a bundle
      checks the running total before a payload is read; reading a single-frame answer leaves
      it to the assembler. */
  function Read(codec: Codec, total: bool, a: Assembly, s: seq<Byte>): (r: Stop)
    decreases |s|
  {
    if |s| < FRAME_HEADER_BYTES then Faulted(Truncated)
    else
      var length := DeclaredLength(s);
      var end := FRAME_HEADER_BYTES + length;
      if MAX_FRAME_BYTES < length then Faulted(Oversized)
      else if total && MAX_RESPONSE_BYTES < a.accepted + end then Faulted(TooLarge)
      else if |s| < end then Faulted(Truncated)
      else
        var b := Offered(codec, a, Frame(s[4], s[FRAME_HEADER_BYTES..end]));
        if Continues(b) then Read(codec, total, b, s[end..])
        else if !b.done then Faulted(b.error)
        else Stopped(b)
  }

  datatype Fetch = Fault(error: FrameError) | Refused(code: nat, detail: string) | Fetched(bundle: Bundle)

  /** What a finished assembly means to the caller that asked for a bundle. */
  function Fetching(codec: Codec, stop: Stop): Fetch {
    if stop.Faulted? then Fault(stop.error)
    else
      var a := stop.state;
      if a.refusal != 0 then Refused(a.refusal, a.detail)
      else
        var r := Finish(codec, a);
        if r.Some? then Fetched(r.value)
        else if a.headerSeen && |a.evidence| != a.declaredBytes then Fault(Truncated)
        else Fault(Malformed)
  }

  /** Where the reader goes once it has a frame. */
  function After(codec: Codec, total: bool, b: Assembly, s: seq<Byte>): Stop {
    if Continues(b) then Read(codec, total, b, s)
    else if !b.done then Faulted(b.error)
    else Stopped(b)
  }

  lemma {:induction false} ReadFrame(codec: Codec, total: bool, a: Assembly, f: Frame, s: seq<Byte>)
    requires |f.payload| <= MAX_FRAME_BYTES
    requires a.accepted + FRAME_HEADER_BYTES + |f.payload| <= MAX_RESPONSE_BYTES
    ensures Read(codec, total, a, EncodeFrame(f.kind, f.payload) + s) == After(codec, total, Offered(codec, a, f), s)
  {
  }

  /** An accepted sequence was accepted frame by frame, within the bounds of the reader. */
  lemma {:induction false} PrefixContinues(codec: Codec, fs: seq<Frame>, k: nat)
    requires k < |fs| && OfferedAll(codec, fs).error == NoError
    ensures Continues(OfferedAll(codec, fs[..k]))
    ensures |fs[k].payload| <= MAX_FRAME_BYTES
    ensures OfferedAll(codec, fs[..k]).accepted + FRAME_HEADER_BYTES + |fs[k].payload| <= MAX_RESPONSE_BYTES
    ensures OfferedAll(codec, fs[..k + 1]).error == NoError
    ensures OfferedAll(codec, fs[..k + 1]) == Offered(codec, OfferedAll(codec, fs[..k]), fs[k])
    decreases |fs|
  {
    hide Offered;
    var n := |fs| - 1;
    assert OfferedAll(codec, fs) == Offered(codec, OfferedAll(codec, fs[..n]), fs[n]);
    FailureIsNotDone(codec, OfferedAll(codec, fs[..n]), fs[n]);
    AcceptedBounds(codec, OfferedAll(codec, fs[..n]), fs[n]);
    if k < n {
      PrefixContinues(codec, fs[..n], k);
      assert fs[..n][..k] == fs[..k] && fs[..n][..k + 1] == fs[..k + 1];
    } else {
      assert fs[..k + 1] == fs;
    }
  }

  lemma {:induction false} AcceptedBounds(codec: Codec, a: Assembly, f: Frame)
    requires Offered(codec, a, f).error == NoError
    ensures |f.payload| <= MAX_FRAME_BYTES
    ensures a.accepted + FRAME_HEADER_BYTES + |f.payload| <= MAX_RESPONSE_BYTES
  {
  }

  /** The reader finds every complete answer at the head of a stream, whatever follows it. */
  lemma {:induction false} ReaderFindsFrames(codec: Codec, total: bool, fs: seq<Frame>, k: nat, tail: seq<Byte>)
    requires k < |fs| && OfferedAll(codec, fs).done
    ensures Read(codec, total, OfferedAll(codec, fs[..k]), Wire(fs[k..]) + tail) == Stopped(OfferedAll(codec, fs))
    decreases |fs| - k
  {
    hide Read, Offered, OfferedAll, Wire, EncodeFrame;
    OfferedIsExplained(codec, fs);
    PrefixContinues(codec, fs, k);
    var a, f, rest := OfferedAll(codec, fs[..k]), fs[k], Wire(fs[k + 1..]) + tail;
    WireFirst(fs[k..]);
    assert fs[k..][1..] == fs[k + 1..];
    assert Wire(fs[k..]) + tail == EncodeFrame(f.kind, f.payload) + rest;
    ReadFrame(codec, total, a, f, rest);
    if k + 1 == |fs| {
      assert fs[..k + 1] == fs;
    } else {
      PrefixContinues(codec, fs, k + 1);
      ReaderFindsFrames(codec, total, fs, k + 1, tail);
    }
  }

  lemma {:induction false} WireFirst(fs: seq<Frame>)
    requires fs != []
    ensures Wire(fs) == EncodeFrame(fs[0].kind, fs[0].payload) + Wire(fs[1..])
  {
    hide EncodeFrame;
    assert fs == fs[..1] + fs[1..];
    WireAppend(fs[..1], fs[1..]);
    assert fs[..1][..0] == [];
    assert Wire(fs[..1]) == Wire([]) + EncodeFrame(fs[0].kind, fs[0].payload);
  }

  /** And whenever the reader stops with an answer, frames that carry it head the stream. */
  lemma {:induction false} ReaderMeansFrames(codec: Codec, total: bool, fs: seq<Frame>, s: seq<Byte>) returns (gs: seq<Frame>)
    requires Continues(OfferedAll(codec, fs)) && Read(codec, total, OfferedAll(codec, fs), s).Stopped?
    ensures fs <= gs && Wire(gs) <= Wire(fs) + s
    ensures OfferedAll(codec, gs) == Read(codec, total, OfferedAll(codec, fs), s).state
    ensures OfferedAll(codec, gs).done
    decreases |s|
  {
    hide Offered, EncodeLength, DecodeLength, EncodeFrame;
    var end := FRAME_HEADER_BYTES + DeclaredLength(s);
    var f := Frame(s[4], s[FRAME_HEADER_BYTES..end]);
    EncodeOfSlice(s);
    assert s == EncodeFrame(f.kind, f.payload) + s[end..];
    gs := fs + [f];
    assert gs[..|fs|] == fs && gs[|fs|] == f;
    assert Wire(gs) == Wire(fs) + EncodeFrame(f.kind, f.payload);
    assert Wire(fs) + s == Wire(gs) + s[end..];
    if Continues(OfferedAll(codec, gs)) {
      gs := ReaderMeansFrames(codec, total, gs, s[end..]);
    }
  }

  lemma {:induction false} EncodeOfSlice(s: seq<Byte>)
    requires FRAME_HEADER_BYTES <= |s| && DeclaredLength(s) <= MAX_FRAME_BYTES && FRAME_HEADER_BYTES + DeclaredLength(s) <= |s|
    ensures var end := FRAME_HEADER_BYTES + DeclaredLength(s);
      EncodeFrame(s[4], s[FRAME_HEADER_BYTES..end]) == s[..end]
  {
  }

  ghost predicate HeadsWith(codec: Codec, s: seq<Byte>, a: Assembly) {
    exists fs :: Wire(fs) <= s && OfferedAll(codec, fs) == a
  }

  lemma {:induction false} NoFrames(codec: Codec)
    ensures OfferedAll(codec, []) == EMPTY && Wire([]) == []
  {
  }

  // What each fault means

  /** Frames that are accepted are read one by one. */
  lemma {:induction false} ReadThrough(codec: Codec, total: bool, fs: seq<Frame>, k: nat, s: seq<Byte>)
    requires k <= |fs| && Continues(OfferedAll(codec, fs))
    ensures Read(codec, total, OfferedAll(codec, fs[..k]), Wire(fs[k..]) + s) == Read(codec, total, OfferedAll(codec, fs), s)
    decreases |fs| - k
  {
    hide Read, Offered, OfferedAll, EncodeFrame;
    if k == |fs| {
      assert fs[..k] == fs && fs[k..] == [] && Wire([]) + s == s;
    } else {
      hide Wire;
      PrefixContinues(codec, fs, k);
      var a, f, rest := OfferedAll(codec, fs[..k]), fs[k], Wire(fs[k + 1..]) + s;
      WireFirst(fs[k..]);
      assert fs[k..][1..] == fs[k + 1..];
      assert Wire(fs[k..]) + s == EncodeFrame(f.kind, f.payload) + rest;
      ReadFrame(codec, total, a, f, rest);
      if k + 1 < |fs| {
        PrefixContinues(codec, fs, k + 1);
      } else {
        assert fs[..k + 1] == fs;
      }
      ReadThrough(codec, total, fs, k + 1, s);
    }
  }

  /** A stream that stops within an answer is truncated, wherever it stops. */
  lemma {:induction false} PrefixIsTruncated(codec: Codec, total: bool, fs: seq<Frame>, k: nat, s: seq<Byte>)
    requires k < |fs| && OfferedAll(codec, fs).error == NoError && s < Wire(fs[k..])
    ensures Read(codec, total, OfferedAll(codec, fs[..k]), s) == Faulted(Truncated)
    decreases |fs| - k
  {
    hide Read, Offered, OfferedAll, Wire, EncodeFrame;
    PrefixContinues(codec, fs, k);
    var a, f := OfferedAll(codec, fs[..k]), fs[k];
    var w, rest := EncodeFrame(f.kind, f.payload), Wire(fs[k + 1..]);
    WireFirst(fs[k..]);
    assert fs[k..][1..] == fs[k + 1..];
    assert Wire(fs[k..]) == w + rest;
    if |s| < |w| {
      assert s < w;
      CutFrame(codec, total, a, f, s);
    } else {
      var tail := s[|w|..];
      assert s == w + tail && tail < rest;
      if k + 1 == |fs| {
        assert fs[k + 1..] == [];
        NoFrames(codec);
        assert false;
      } else {
        PrefixContinues(codec, fs, k + 1);
        ReadFrame(codec, total, a, f, tail);
        PrefixIsTruncated(codec, total, fs, k + 1, tail);
      }
    }
  }

  lemma {:induction false} CutFrame(codec: Codec, total: bool, a: Assembly, f: Frame, s: seq<Byte>)
    requires |f.payload| <= MAX_FRAME_BYTES && a.accepted + FRAME_HEADER_BYTES + |f.payload| <= MAX_RESPONSE_BYTES
    requires s < EncodeFrame(f.kind, f.payload)
    ensures Read(codec, total, a, s) == Faulted(Truncated)
  {
    hide Offered, EncodeLength, DecodeLength;
    FrameDecodes(f.kind, f.payload);
    if FRAME_HEADER_BYTES <= |s| {
      assert s[..4] == EncodeFrame(f.kind, f.payload)[..4];
    }
  }

  /** The bounds bite on the declared length alone, before any of the payload is there: first
      that of a frame, then that of the response. */
  lemma {:induction false} BoundsAreFaults(codec: Codec, total: bool, fs: seq<Frame>, s: seq<Byte>)
    requires Continues(OfferedAll(codec, fs)) && FRAME_HEADER_BYTES <= |s|
    ensures var r, length := Read(codec, total, EMPTY, Wire(fs) + s), DeclaredLength(s);
      && (MAX_FRAME_BYTES < length ==> r == Faulted(Oversized))
      && (length <= MAX_FRAME_BYTES && total && MAX_RESPONSE_BYTES < WireBytes(fs) + FRAME_HEADER_BYTES + length ==> r == Faulted(TooLarge))
  {
    hide Offered, OfferedAll, Wire, WireBytes, DecodeLength;
    NoFrames(codec);
    StateOfFrames(codec, fs);
    ReadThrough(codec, total, fs, 0, s);
    assert fs[..0] == [] && fs[0..] == fs;
  }

  /** A frame that the assembler refuses is a fault of the same name. */
  lemma {:induction false} RefusedFrameIsFault(codec: Codec, total: bool, fs: seq<Frame>, f: Frame, tail: seq<Byte>)
    requires Continues(OfferedAll(codec, fs)) && OfferedAll(codec, fs + [f]).error != NoError
    requires |f.payload| <= MAX_FRAME_BYTES && WireBytes(fs) + FRAME_HEADER_BYTES + |f.payload| <= MAX_RESPONSE_BYTES
    ensures Read(codec, total, EMPTY, Wire(fs) + EncodeFrame(f.kind, f.payload) + tail) == Faulted(OfferedAll(codec, fs + [f]).error)
  {
    hide Read, Offered, OfferedAll, Wire, WireBytes, EncodeFrame;
    NoFrames(codec);
    StateOfFrames(codec, fs);
    LastOffered(codec, fs, f);
    var s := EncodeFrame(f.kind, f.payload) + tail;
    assert Wire(fs) + EncodeFrame(f.kind, f.payload) + tail == Wire(fs) + s;
    assert fs[..0] == [] && fs[0..] == fs;
    ReadThrough(codec, total, fs, 0, s);
    ReadFrame(codec, total, OfferedAll(codec, fs), f, tail);
    OfferedIsExplained(codec, fs + [f]);
  }

  /** What a complete answer other than a refusal is to the caller that asked for a bundle: the
      bundle; truncated, if the chunks are not the declared length; and else malformed. */
  lemma {:induction false} AnswerIsFetched(codec: Codec, fs: seq<Frame>)
    requires OfferedAll(codec, fs).done && fs[0].kind != REFUSAL
    ensures var a, fetched := OfferedAll(codec, fs), Fetching(codec, Stopped(OfferedAll(codec, fs)));
      if |fs| == 1 then fetched == Fault(Malformed)
      else
        var evidence := Payloads(fs[1..|fs| - 1]);
        && IsHeader(codec, fs[0], a) && IsEnd(codec, fs[|fs| - 1], a)
        && fetched == if |evidence| != a.declaredBytes then Fault(Truncated)
                      else if codec.toHex(codec.sha256(evidence)) != a.declaredDigest || codec.decode(evidence).None? then Fault(Malformed)
                      else Fetched(Bundle(a.challengeDigest, codec.decode(evidence).value))
  {
    hide OfferedAll, Payloads, WireBytes;
    OfferedIsExplained(codec, fs);
  }

  /** A refusal at the head of a stream reads as that refusal, with its code and detail. */
  lemma {:induction false} RefusalIsRead(codec: Codec, f: Frame, tail: seq<Byte>)
    requires f.kind == REFUSAL && |f.payload| <= MAX_FRAME_BYTES && codec.parse(f.payload).Object?
    requires var j := codec.parse(f.payload); j.code.Some? && 1 <= j.code.value % 65536 <= LAST_REFUSAL
    ensures var j := codec.parse(f.payload);
      Fetching(codec, Read(codec, true, EMPTY, EncodeFrame(f.kind, f.payload) + tail))
      == Refused(j.code.value % 65536, if j.detail.Some? then j.detail.value else "")
  {
    hide Read, OfferedAll, Wire, EncodeFrame;
    var fs := [f];
    assert fs[..0] == [] && fs[0..] == fs && fs[1..] == [];
    FrameGivesAnswer(codec, f);
    NoFrames(codec);
    WireFirst(fs);
    assert Wire(fs) == EncodeFrame(f.kind, f.payload);
    ReaderFindsFrames(codec, true, fs, 0, tail);
    assert Read(codec, true, EMPTY, EncodeFrame(f.kind, f.payload) + tail) == Stopped(OfferedAll(codec, fs));
  }

  /** Reading bytes is reassembling frames: over every stream, the reader stops with a state
      exactly when frames that lead to it, complete, head the stream. */
  lemma {:induction false} ReadingIsReassembly(codec: Codec, total: bool, s: seq<Byte>, a: Assembly)
    ensures Read(codec, total, EMPTY, s) == Stopped(a) <==> a.done && HeadsWith(codec, s, a)
  {
    hide Read, OfferedAll, Wire;
    NoFrames(codec);
    if Read(codec, total, EMPTY, s) == Stopped(a) {
      var fs := ReaderMeansFrames(codec, total, [], s);
      assert Wire([]) + s == s;
    }
    if a.done && HeadsWith(codec, s, a) {
      var fs :| Wire(fs) <= s && OfferedAll(codec, fs) == a;
      ReaderFindsFrames(codec, total, fs, 0, s[|Wire(fs)|..]);
      assert fs[..0] == [] && fs[0..] == fs;
      assert Wire(fs) + s[|Wire(fs)|..] == s;
    }
  }

  // Round trip

  lemma {:induction false} WireBytesAppend(fs: seq<Frame>, gs: seq<Frame>)
    ensures WireBytes(fs + gs) == WireBytes(fs) + WireBytes(gs)
  {
    if gs == [] {
      assert fs + gs == fs;
    } else {
      var n := |gs| - 1;
      assert (fs + gs)[..|fs| + n] == fs + gs[..n];
      WireBytesAppend(fs, gs[..n]);
    }
  }

  /** A bundle whose stream is within the bounds of frames, chunks and response. */
  ghost predicate Fits(codec: Codec, bundle: Bundle) {
    && |bundle.challengeDigest| == DIGEST_SIZE
    && ChunkCount(codec.encode(bundle.platform)) <= MAX_CHUNKS
    && |HeaderPayload(codec, bundle)| <= MAX_FRAME_BYTES
    && |EndPayload(codec, codec.encode(bundle.platform))| <= MAX_FRAME_BYTES
    && WireBytes(BundleFrames(codec, bundle)) <= MAX_RESPONSE_BYTES
  }

  lemma {:induction false} OfferedNext(codec: Codec, fs: seq<Frame>, f: Frame)
    ensures OfferedAll(codec, fs + [f]) == Offered(codec, OfferedAll(codec, fs), f)
    ensures WireBytes(fs + [f]) == WireBytes(fs) + FRAME_HEADER_BYTES + |f.payload|
  {
  }

  /** The state in the middle of a bundle: the header taken, evidence up to an offset. */
  ghost predicate Halfway(a: Assembly, digest: seq<Byte>, evidence: seq<Byte>, at: nat, bytes: nat) {
    && Continues(a) && a.headerSeen && a.refusal == 0 && a.challengeDigest == digest
    && at <= |evidence| && a.evidence == evidence[..at] && a.declaredBytes == |evidence|
    && a.accepted == bytes
    && a.chunks + CountOf(|evidence| - at) <= MAX_CHUNKS
  }

  ghost predicate Midway(codec: Codec, digest: seq<Byte>, evidence: seq<Byte>, fs: seq<Frame>, at: nat) {
    Halfway(OfferedAll(codec, fs), digest, evidence, at, WireBytes(fs))
  }

  lemma {:induction false} HeaderArrives(codec: Codec, bundle: Bundle)
    requires Faithful(codec) && Fits(codec, bundle)
    ensures Midway(codec, bundle.challengeDigest, codec.encode(bundle.platform), [Frame(HEADER, HeaderPayload(codec, bundle))], 0)
  {
  }

  lemma {:induction false} ChunkBytesStep(evidence: seq<Byte>, at: nat)
    requires at < |evidence|
    ensures at + Span(evidence, at) <= |evidence|
    ensures WireBytes(Chunks(evidence, at)) == FRAME_HEADER_BYTES + Span(evidence, at) + WireBytes(Chunks(evidence, at + Span(evidence, at)))
  {
    hide Chunks, WireBytes;
    var span := Span(evidence, at);
    var f := Frame(EVIDENCE_CHUNK, evidence[at..at + span]);
    ChunksStep(evidence, at);
    SingleBytes(f);
    WireBytesAppend([f], Chunks(evidence, at + span));
  }

  lemma {:induction false} HalfwayOn(codec: Codec, a: Assembly, digest: seq<Byte>, evidence: seq<Byte>, at: nat, bytes: nat)
    requires Halfway(a, digest, evidence, at, bytes) && at < |evidence|
    requires bytes + FRAME_HEADER_BYTES + Span(evidence, at) <= MAX_RESPONSE_BYTES
    ensures var span := Span(evidence, at);
      at + span <= |evidence|
      && Halfway(Offered(codec, a, Frame(EVIDENCE_CHUNK, evidence[at..at + span])), digest, evidence, at + span, bytes + FRAME_HEADER_BYTES + span)
  {
  }

  lemma {:induction false} ChunksArrive(codec: Codec, digest: seq<Byte>, evidence: seq<Byte>, fs: seq<Frame>, at: nat)
    requires at <= |evidence| && Midway(codec, digest, evidence, fs, at)
    requires WireBytes(fs) + WireBytes(Chunks(evidence, at)) <= MAX_RESPONSE_BYTES
    ensures Midway(codec, digest, evidence, fs + Chunks(evidence, at), |evidence|)
    decreases |evidence| - at
  {
    hide Halfway, WireBytes, Chunks, Offered, OfferedAll;
    ChunksStep(evidence, at);
    if at == |evidence| {
      assert fs + Chunks(evidence, at) == fs;
    } else {
      var span := Span(evidence, at);
      var f := Frame(EVIDENCE_CHUNK, evidence[at..at + span]);
      ChunkBytesStep(evidence, at);
      OfferedNext(codec, fs, f);
      HalfwayOn(codec, OfferedAll(codec, fs), digest, evidence, at, WireBytes(fs));
      ChunksArrive(codec, digest, evidence, fs + [f], at + span);
      assert fs + [f] + Chunks(evidence, at + span) == fs + Chunks(evidence, at);
    }
  }

  lemma {:induction false} EndArrives(codec: Codec, bundle: Bundle, fs: seq<Frame>)
    requires Faithful(codec)
    requires var evidence := codec.encode(bundle.platform); Midway(codec, bundle.challengeDigest, evidence, fs, |evidence|)
    requires var end := EndPayload(codec, codec.encode(bundle.platform));
      |end| <= MAX_FRAME_BYTES && WireBytes(fs) + FRAME_HEADER_BYTES + |end| <= MAX_RESPONSE_BYTES
    ensures var a := OfferedAll(codec, fs + [Frame(END, EndPayload(codec, codec.encode(bundle.platform)))]);
      a.done && a.error == NoError && a.evidence == codec.encode(bundle.platform) && Finish(codec, a) == Some(bundle)
  {
  }

  /** The emitted frames reassemble to the bundle, with no error. */
  lemma {:induction false} BundleReassembles(codec: Codec, bundle: Bundle)
    requires Faithful(codec) && Fits(codec, bundle)
    ensures var a := OfferedAll(codec, BundleFrames(codec, bundle));
      a.done && a.error == NoError && a.evidence == codec.encode(bundle.platform) && Finish(codec, a) == Some(bundle)
  {
    hide Offered, OfferedAll, Midway, Chunks, Finish;
    var evidence := codec.encode(bundle.platform);
    var head, end := [Frame(HEADER, HeaderPayload(codec, bundle))], [Frame(END, EndPayload(codec, evidence))];
    HeaderArrives(codec, bundle);
    WireBytesAppend(head + Chunks(evidence, 0), end);
    WireBytesAppend(head, Chunks(evidence, 0));
    OfferedNext(codec, [], end[0]);
    assert [] + end == end;
    ChunksArrive(codec, bundle.challengeDigest, evidence, head, 0);
    EndArrives(codec, bundle, head + Chunks(evidence, 0));
  }

  /** Round trip over the bytes: reading what was emitted, whatever follows it, gives the
      bundle. */
  lemma {:induction false} RoundTrip(codec: Codec, bundle: Bundle, tail: seq<Byte>)
    requires Faithful(codec) && Fits(codec, bundle)
    ensures Fetching(codec, Read(codec, true, EMPTY, Joined(Encoded(BundleFrames(codec, bundle))) + tail)) == Fetched(bundle)
  {
    hide Read, OfferedAll, Wire, Joined, Encoded;
    var fs := BundleFrames(codec, bundle);
    JoinedEncoded(fs);
    BundleReassembles(codec, bundle);
    assert HeadsWith(codec, Wire(fs) + tail, OfferedAll(codec, fs));
    ReadingIsReassembly(codec, true, Wire(fs) + tail, OfferedAll(codec, fs));
  }

  lemma {:induction false} ChunkBytes(evidence: seq<Byte>, at: nat)
    requires at <= |evidence|
    ensures WireBytes(Chunks(evidence, at)) == |evidence| - at + FRAME_HEADER_BYTES * CountOf(|evidence| - at)
    decreases |evidence| - at
  {
    hide Chunks, WireBytes;
    ChunksStep(evidence, at);
    if at < |evidence| {
      ChunkBytes(evidence, at + Span(evidence, at));
      ChunkBytesStep(evidence, at);
      CountStep(evidence, at);
    } else {
      NoBytes();
    }
  }

  lemma {:induction false} SingleBytes(f: Frame)
    ensures WireBytes([f]) == FRAME_HEADER_BYTES + |f.payload|
  {
  }

  lemma {:induction false} NoBytes()
    ensures WireBytes([]) == 0
  {
  }

  /** The response bound never bites a bundle within the chunk budget whose two JSON payloads
      leave room for the frame headers. */
  lemma {:induction false} SmallPayloadsFit(codec: Codec, bundle: Bundle)
    requires |bundle.challengeDigest| == DIGEST_SIZE
    requires |codec.encode(bundle.platform)| <= MAX_FRAME_BYTES * MAX_CHUNKS
    requires |HeaderPayload(codec, bundle)| <= MAX_FRAME_BYTES - 165
    requires |EndPayload(codec, codec.encode(bundle.platform))| <= MAX_FRAME_BYTES - 165
    ensures Fits(codec, bundle)
  {
    hide Chunks, HeaderPayload, EndPayload, WireBytes;
    var evidence := codec.encode(bundle.platform);
    var head, end := Frame(HEADER, HeaderPayload(codec, bundle)), Frame(END, EndPayload(codec, evidence));
    WireBytesAppend([head] + Chunks(evidence, 0), [end]);
    WireBytesAppend([head], Chunks(evidence, 0));
    SingleBytes(head);
    SingleBytes(end);
    ChunkBytes(evidence, 0);
  }

  // The reading loops

  /** One round of the reader, by position in the stream. */
  function ReadAt(codec: Codec, total: bool, a: Assembly, s: seq<Byte>, at: nat): Stop
    requires at <= |s|
  {
    if |s| - at < FRAME_HEADER_BYTES then Faulted(Truncated)
    else
      var length := DecodeLength(s[at..at + 4]);
      var end := at + FRAME_HEADER_BYTES + length;
      if MAX_FRAME_BYTES < length then Faulted(Oversized)
      else if total && MAX_RESPONSE_BYTES < a.accepted + FRAME_HEADER_BYTES + length then Faulted(TooLarge)
      else if |s| < end then Faulted(Truncated)
      else After(codec, total, Offered(codec, a, Frame(s[at + 4], s[at + FRAME_HEADER_BYTES..end])), s[end..])
  }

  lemma {:induction false} ReadIsReadAt(codec: Codec, total: bool, a: Assembly, s: seq<Byte>, at: nat)
    requires at <= |s|
    ensures Read(codec, total, a, s[at..]) == ReadAt(codec, total, a, s, at)
  {
    hide Offered;
    var t := s[at..];
    if FRAME_HEADER_BYTES <= |t| {
      assert t[..4] == s[at..at + 4];
      var end := FRAME_HEADER_BYTES + DeclaredLength(t);
      if end <= |t| {
        assert t[FRAME_HEADER_BYTES..end] == s[at + FRAME_HEADER_BYTES..at + end];
        assert t[end..] == s[at + end..];
      }
    }
  }

  lemma {:induction false} OfferedCounts(codec: Codec, a: Assembly, f: Frame)
    ensures Continues(Offered(codec, a, f)) ==> Offered(codec, a, f).accepted == a.accepted + FRAME_HEADER_BYTES + |f.payload|
  {
  }

  /** Whether a fault, or its absence, is what the reader came to. */
  ghost predicate Agrees(stop: Stop, error: FrameError, a: Assembly) {
    && (error == NoError ==> stop == Stopped(a) && a.done && a.error == NoError)
    && (error != NoError ==> stop == Faulted(error))
  }

  /** Read frames until the assembler finishes or fails, checking the running total before
      each payload. */
  method ReadFrames(assembler: Assembler, s: seq<Byte>) returns (error: FrameError)
    requires assembler.View() == EMPTY
    modifies assembler
    ensures Agrees(Read(assembler.codec, true, EMPTY, s), error, assembler.View())
  {
    hide Offered, Read, DecodeLength;
    ghost var codec := assembler.codec;
    var total, at := 0, 0;
    assert s[0..] == s;
    while true
      invariant at <= |s| && total == assembler.accepted
      invariant Read(codec, true, EMPTY, s) == Read(codec, true, assembler.View(), s[at..])
      decreases |s| - at
    {
      ReadIsReadAt(codec, true, assembler.View(), s, at);
      if |s| - at < FRAME_HEADER_BYTES {
        return Truncated;
      }
      var length := DecodeLength(s[at..at + 4]);
      if MAX_FRAME_BYTES < length {
        return Oversized;
      }
      total := total + FRAME_HEADER_BYTES + length;
      if MAX_RESPONSE_BYTES < total {
        return TooLarge;
      }
      if |s| - at < FRAME_HEADER_BYTES + length {
        return Truncated;
      }
      var end := at + FRAME_HEADER_BYTES + length;
      var f := Frame(s[at + 4], s[at + FRAME_HEADER_BYTES..end]);
      OfferedCounts(codec, assembler.View(), f);
      FailureIsNotDone(codec, assembler.View(), f);
      var more := assembler.Offer(f);
      at := end;
      if !more {
        return if assembler.done then NoError else assembler.error;
      }
    }
  }

  /** Read a bundle, or a refusal, off a stream. */
  method ReadFramedResponse(codec: Codec, s: seq<Byte>) returns (r: Fetch)
    ensures r == Fetching(codec, Read(codec, true, EMPTY, s))
  {
    hide Read;
    var assembler := new Assembler(codec);
    var error := ReadFrames(assembler, s);
    if error != NoError {
      return Fault(error);
    }
    if assembler.refusal != 0 {
      return Refused(assembler.refusal, assembler.detail);
    }
    var bundle := assembler.FinishBundle();
    if bundle.None? {
      return Fault(if assembler.error == NoError then Malformed else assembler.error);
    }
    return Fetched(bundle.value);
  }

  /** Read a single-frame answer: the same rounds, with the total left to the assembler. */
  method ReadSingleFrame(assembler: Assembler, s: seq<Byte>) returns (error: FrameError)
    requires assembler.View() == EMPTY
    modifies assembler
    ensures Agrees(Read(assembler.codec, false, EMPTY, s), error, assembler.View())
  {
    hide Offered, Read, DecodeLength;
    ghost var codec := assembler.codec;
    var at := 0;
    assert s[0..] == s;
    while true
      invariant at <= |s|
      invariant Read(codec, false, EMPTY, s) == Read(codec, false, assembler.View(), s[at..])
      decreases |s| - at
    {
      ReadIsReadAt(codec, false, assembler.View(), s, at);
      if |s| - at < FRAME_HEADER_BYTES {
        return Truncated;
      }
      var length := DecodeLength(s[at..at + 4]);
      if MAX_FRAME_BYTES < length {
        return Oversized;
      }
      if |s| - at < FRAME_HEADER_BYTES + length {
        return Truncated;
      }
      var end := at + FRAME_HEADER_BYTES + length;
      var f := Frame(s[at + 4], s[at + FRAME_HEADER_BYTES..end]);
      FailureIsNotDone(codec, assembler.View(), f);
      var more := assembler.Offer(f);
      at := end;
      if !more {
        return if assembler.done then NoError else assembler.error;
      }
    }
  }
}
