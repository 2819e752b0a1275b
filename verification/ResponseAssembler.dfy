/** The framing of the local attestation stream. */
module AttestdFraming {

  type Byte = b: int | 0 <= b < 256

  const MAX_FRAME_BYTES: nat := 65536
  const MAX_CHUNKS: nat := 64
  const MAX_RESPONSE_BYTES: nat := MAX_FRAME_BYTES * (MAX_CHUNKS + 2)
  const FRAME_HEADER_BYTES: nat := 5

  // Frame kinds, as the byte on the wire
  const HEADER: Byte := 1
  const EVIDENCE_CHUNK: Byte := 2
  const END: Byte := 3
  const REFUSAL: Byte := 4
  const RESULT: Byte := 5

  datatype FrameError = NoError | Truncated | Oversized | TooManyChunks | TooLarge | Malformed

  datatype Frame = Frame(kind: Byte, payload: seq<Byte>)

  /** The four bytes of a length, most significant first. */
  function EncodeLength(n: nat): (bytes: seq<Byte>)
    requires n < 0x1_0000_0000
    ensures |bytes| == 4 && DecodeLength(bytes) == n
  {
    var high := n / 256;
    var higher := high / 256;
    [higher / 256, higher % 256, high % 256, n % 256]
  }

  function DecodeLength(bytes: seq<Byte>): (n: nat)
    requires |bytes| == 4
  {
    bytes[0] as int * 0x100_0000 + bytes[1] as int * 0x1_0000 + bytes[2] as int * 0x100 + bytes[3] as int
  }

  /** The bytes of one frame; none when the payload is over the frame bound. */
  function EncodeFrame(kind: Byte, payload: seq<Byte>): (bytes: seq<Byte>)
    ensures |payload| <= MAX_FRAME_BYTES ==> |bytes| == FRAME_HEADER_BYTES + |payload|
    ensures MAX_FRAME_BYTES < |payload| ==> bytes == []
  {
    if MAX_FRAME_BYTES < |payload| then [] else EncodeLength(|payload|) + [kind] + payload
  }

  /** The length, the kind and the payload stand in the bytes where a reader looks for them;
      above the frame bound there are none. */
  lemma {:induction false} FrameDecodes(kind: Byte, payload: seq<Byte>)
    ensures var bytes := EncodeFrame(kind, payload);
      if MAX_FRAME_BYTES < |payload| then bytes == []
      else |bytes| == FRAME_HEADER_BYTES + |payload| && DecodeLength(bytes[..4]) == |payload|
           && bytes[4] == kind && bytes[FRAME_HEADER_BYTES..] == payload
  {
    if |payload| <= MAX_FRAME_BYTES {
      assert EncodeFrame(kind, payload)[..4] == EncodeLength(|payload|);
    }
  }
}

/** Reassembly of a framed response.

    JSON, hexadecimal text, SHA-256 and the evidence encoding are foreign: a `Codec` holds
    them, and `Faithful` states the little that is used of them. */
module ResponseAssembler {
  import opened Options
  import opened AttestdFraming

  const WIRE_VERSION: int := 4
  const DIGEST_SIZE: nat := 32
  const SEAL_KEY_BYTES: nat := 32
  const LAST_REFUSAL: nat := 16

  /** What a payload parses to: each field is present when it exists with the type that
      the reader asks for. */
  datatype Json =
    | NotAnObject
    | Object(
        version: Option<int>,
        kind: Option<string>,
        platformBytes: Option<nat>,
        challengeDigest: Option<string>,
        chunks: Option<nat>,
        platformSha256: Option<string>,
        code: Option<nat>,
        detail: Option<string>,
        sealed: Option<SealedKey>,       // exactly the seal fields, well shaped
        onlyUnsealFields: bool,
        key: Option<seq<Byte>>,          // the decoded key field
        activatedSecret: Option<string>)

  datatype SealedKey = SealedKey(pcrDigest: seq<Byte>, tpmPublic: seq<Byte>, tpmPrivate: seq<Byte>)

  const BUNDLE_TYPE: string := "platform_evidence_bundle"
  const SEAL_RESULT_TYPE: string := "sealed_key_seal_result"
  const UNSEAL_RESULT_TYPE: string := "sealed_key_unseal_result"
  const ACTIVATION_RESULT_TYPE: string := "svsm_ak_activation_result"

  datatype Platform = Platform(id: nat)
  datatype Bundle = Bundle(challengeDigest: seq<Byte>, platform: Platform)

  datatype Codec = Codec(
    parse: seq<Byte> -> Json,
    dump: Json -> seq<Byte>,
    toHex: seq<Byte> -> string,
    fromHex: string -> Option<seq<Byte>>,
    sha256: seq<Byte> -> seq<Byte>,
    encode: Platform -> seq<Byte>,
    decode: seq<Byte> -> Option<Platform>)

  // The two JSON objects of an emitted bundle

  function HeaderObject(challengeDigest: string, platformBytes: nat): Json {
    Object(Some(WIRE_VERSION), Some(BUNDLE_TYPE), Some(platformBytes), Some(challengeDigest), None, None, None, None, None, false, None, None)
  }

  function EndObject(chunks: nat, platformSha256: string): Json {
    Object(None, None, None, None, Some(chunks), Some(platformSha256), None, None, None, false, None, None)
  }

  ghost predicate Faithful(codec: Codec) {
    && (forall digest, n :: codec.parse(codec.dump(HeaderObject(digest, n))) == HeaderObject(digest, n))
    && (forall n, digest :: codec.parse(codec.dump(EndObject(n, digest))) == EndObject(n, digest))
    && (forall bytes: seq<Byte> :: codec.fromHex(codec.toHex(bytes)) == Some(bytes))
    && (forall p: Platform :: codec.decode(codec.encode(p)) == Some(p))
  }

  /** The assembler as a value. */
  datatype Assembly = Assembly(
    challengeDigest: seq<Byte>,
    evidence: seq<Byte>,
    declaredBytes: nat,
    declaredDigest: string,
    chunks: nat,
    accepted: nat,
    headerSeen: bool,
    done: bool,
    error: FrameError,
    refusal: nat,
    detail: string,
    secret: seq<Byte>,
    resultType: string,
    sealed: Option<SealedKey>,
    key: seq<Byte>)

  const EMPTY := Assembly([], [], 0, "", 0, 0, false, false, NoError, 0, "", [], "", None, [])

  function Failed(a: Assembly, e: FrameError): Assembly {
    a.(error := e, done := false)
  }

  function Wrap32(n: int): int {
    (n + 0x8000_0000) % 0x1_0000_0000 - 0x8000_0000
  }

  predicate RightVersion(j: Json)
    requires j.Object?
  {
    j.version.Some? && Wrap32(j.version.value) == WIRE_VERSION
  }

  function OfferRefusal(a: Assembly, j: Json): Assembly
    requires j.Object?
  {
    if a.headerSeen || j.code.None? then Failed(a, Malformed)
    else
      var b := a.(refusal := j.code.value % 65536);
      if LAST_REFUSAL < b.refusal then Failed(b, Malformed)
      else b.(detail := if j.detail.Some? then j.detail.value else b.detail, done := true)
  }

  function OfferHeader(codec: Codec, a: Assembly, j: Json): Assembly
    requires j.Object?
  {
    if a.headerSeen || !RightVersion(j) || j.kind != Some(BUNDLE_TYPE) || j.platformBytes.None? then Failed(a, Malformed)
    else
      var b := a.(declaredBytes := j.platformBytes.value);
      if MAX_FRAME_BYTES * MAX_CHUNKS < b.declaredBytes then Failed(b, TooLarge)
      else if j.challengeDigest.None? then Failed(b, Malformed)
      else
        var digest := codec.fromHex(j.challengeDigest.value);
        if digest.None? || |digest.value| != DIGEST_SIZE then Failed(b, Malformed)
        else b.(challengeDigest := digest.value, headerSeen := true)
  }

  function OfferChunk(a: Assembly, payload: seq<Byte>): Assembly {
    if !a.headerSeen then Failed(a, Malformed)
    else
      var b := a.(chunks := a.chunks + 1);
      if MAX_CHUNKS < b.chunks then Failed(b, TooManyChunks)
      else if b.declaredBytes < |b.evidence| + |payload| then Failed(b, TooLarge)
      else b.(evidence := b.evidence + payload)
  }

  function OfferEnd(a: Assembly, j: Json): Assembly
    requires j.Object?
  {
    if !a.headerSeen || j.platformSha256.None? then Failed(a, Malformed)
    else a.(declaredDigest := j.platformSha256.value, done := true)
  }

  function OfferResult(codec: Codec, a: Assembly, j: Json): Assembly
    requires j.Object?
  {
    if a.headerSeen || !RightVersion(j) || j.kind.None? then Failed(a, Malformed)
    else
      var keyed := j.key.Some? && |j.key.value| == SEAL_KEY_BYTES;
      if j.kind.value == SEAL_RESULT_TYPE then
        if j.sealed.None? || !keyed then Failed(a, Malformed)
        else a.(resultType := SEAL_RESULT_TYPE, sealed := j.sealed, key := j.key.value, done := true)
      else if j.kind.value == UNSEAL_RESULT_TYPE then
        if !j.onlyUnsealFields || !keyed then Failed(a, Malformed)
        else a.(resultType := UNSEAL_RESULT_TYPE, key := j.key.value, done := true)
      else if j.kind.value != ACTIVATION_RESULT_TYPE then Failed(a, Malformed)
      else if j.activatedSecret.None? || |j.activatedSecret.value| != 2 * DIGEST_SIZE then Failed(a, Malformed)
      else
        var secret := codec.fromHex(j.activatedSecret.value);
        if secret.None? then Failed(a, Malformed) else a.(secret := secret.value, done := true)
  }

  /** The state after one frame. */
  function Offered(codec: Codec, a: Assembly, f: Frame): (b: Assembly) {
    if a.done || a.error != NoError then Failed(a, Malformed)
    else if MAX_FRAME_BYTES < |f.payload| then Failed(a, Oversized)
    else
      var b := a.(accepted := a.accepted + FRAME_HEADER_BYTES + |f.payload|);
      if MAX_RESPONSE_BYTES < b.accepted then Failed(b, TooLarge)
      else if f.kind == EVIDENCE_CHUNK then OfferChunk(b, f.payload)
      else
        var j := codec.parse(f.payload);
        if j.NotAnObject? then Failed(b, Malformed)
        else if f.kind == REFUSAL then OfferRefusal(b, j)
        else if f.kind == HEADER then OfferHeader(codec, b, j)
        else if f.kind == END then OfferEnd(b, j)
        else if f.kind == RESULT then OfferResult(codec, b, j)
        else Failed(b, Malformed)
  }

  /** Whether the stream goes on. */
  predicate Continues(a: Assembly) {
    !a.done && a.error == NoError
  }

  /** The state after a whole sequence of frames. */
  function OfferedAll(codec: Codec, fs: seq<Frame>): (a: Assembly) {
    if fs == [] then EMPTY else Offered(codec, OfferedAll(codec, fs[..|fs| - 1]), fs[|fs| - 1])
  }

  function Finish(codec: Codec, a: Assembly): (r: Option<Bundle>) {
    if !a.done || a.refusal != 0 || !a.headerSeen || |a.evidence| != a.declaredBytes then None
    else if codec.toHex(codec.sha256(a.evidence)) != a.declaredDigest then None
    else
      var platform := codec.decode(a.evidence);
      if platform.None? then None else Some(Bundle(a.challengeDigest, platform.value))
  }

  // The results that can be read off

  predicate HasBundle(codec: Codec, a: Assembly) {
    Finish(codec, a).Some?
  }

  predicate HasRefusal(a: Assembly) {
    a.done && a.refusal != 0
  }

  predicate HasResultObject(a: Assembly) {
    a.done && a.error == NoError && a.resultType == SEAL_RESULT_TYPE
  }

  predicate HasResultKey(a: Assembly) {
    a.done && a.error == NoError && (a.resultType == SEAL_RESULT_TYPE || a.resultType == UNSEAL_RESULT_TYPE) && a.key != []
  }

  predicate HasSealedKey(a: Assembly) {
    HasResultObject(a) && HasResultKey(a)
  }

  predicate HasUnsealedKey(a: Assembly) {
    !HasResultObject(a) && HasResultKey(a)
  }

  predicate HasSecret(a: Assembly) {
    a.done && a.error == NoError && a.secret != []
  }

  // Over every sequence of frames

  function Payloads(fs: seq<Frame>): (bytes: seq<Byte>) {
    if fs == [] then [] else Payloads(fs[..|fs| - 1]) + fs[|fs| - 1].payload
  }

  function WireBytes(fs: seq<Frame>): nat {
    if fs == [] then 0 else WireBytes(fs[..|fs| - 1]) + FRAME_HEADER_BYTES + |fs[|fs| - 1].payload|
  }

  /** An accepted header: what it declares, and the challenge digest. */
  ghost predicate IsHeader(codec: Codec, f: Frame, a: Assembly) {
    && f.kind == HEADER
    && var j := codec.parse(f.payload);
       && j.Object? && RightVersion(j) && j.kind == Some(BUNDLE_TYPE)
       && j.platformBytes == Some(a.declaredBytes) && a.declaredBytes <= MAX_FRAME_BYTES * MAX_CHUNKS
       && j.challengeDigest.Some? && codec.fromHex(j.challengeDigest.value) == Some(a.challengeDigest)
  }

  ghost predicate AreChunks(fs: seq<Frame>) {
    forall i :: 0 <= i < |fs| ==> fs[i].kind == EVIDENCE_CHUNK
  }

  ghost predicate IsEnd(codec: Codec, f: Frame, a: Assembly) {
    f.kind == END && var j := codec.parse(f.payload); j.Object? && j.platformSha256 == Some(a.declaredDigest)
  }

  /** The fields that only the terminating frame of a single-frame answer sets. */
  ghost predicate NoAnswer(a: Assembly) {
    a.refusal == 0 && a.secret == [] && a.resultType == "" && a.key == []
  }

  /** What every sequence of frames without an error looked like, by the state it led to. */
  ghost predicate Explains(codec: Codec, fs: seq<Frame>, a: Assembly) {
    && a.accepted == WireBytes(fs) <= MAX_RESPONSE_BYTES
    && if a.headerSeen then
         var n := if a.done then |fs| - 1 else |fs|;
         && 1 <= n && NoAnswer(a)
         && IsHeader(codec, fs[0], a)
         && AreChunks(fs[1..n]) && a.chunks == n - 1 <= MAX_CHUNKS
         && a.evidence == Payloads(fs[1..n]) && |a.evidence| <= a.declaredBytes
         && (a.done ==> IsEnd(codec, fs[n], a))
       else if a.done then
         |fs| == 1 && (fs[0].kind == REFUSAL || fs[0].kind == RESULT) && a.evidence == [] && a.chunks == 0
         && (fs[0].kind == REFUSAL ==> a.secret == [] && a.resultType == "" && a.key == [])
         && (fs[0].kind == RESULT ==> a.refusal == 0 && (a.resultType == "" || a.secret == []))
       else fs == [] && a == EMPTY
  }

  /** The first frame of a sequence. */
  lemma {:induction false} FirstIsExplained(codec: Codec, f: Frame)
    requires Offered(codec, EMPTY, f).error == NoError
    ensures Explains(codec, [f], Offered(codec, EMPTY, f))
  {
  }

  /** A chunk or an end after an accepted header. */
  lemma {:induction false} NextIsExplained(codec: Codec, fs: seq<Frame>, a: Assembly, f: Frame)
    requires Explains(codec, fs, a) && Continues(a) && a.headerSeen
    requires Offered(codec, a, f).error == NoError
    ensures Explains(codec, fs + [f], Offered(codec, a, f))
  {
    hide OfferRefusal, OfferHeader, OfferResult, IsHeader;
    AfterHeader(codec, a, f);
    var n := |fs|;
    var gs := fs + [f];
    var b := Offered(codec, a, f);
    assert gs[..n] == fs && gs[0] == fs[0] && gs[n] == f;
    SameHeader(codec, fs[0], a, b);
    if f.kind == EVIDENCE_CHUNK {
      assert gs[1..n + 1] == fs[1..n] + [f];
      assert (fs[1..n] + [f])[..n - 1] == fs[1..n];
    } else {
      assert gs[1..n] == fs[1..n];
      assert b.done;
    }
  }

  lemma {:induction false} SameHeader(codec: Codec, f: Frame, a: Assembly, b: Assembly)
    requires IsHeader(codec, f, a)
    requires b.declaredBytes == a.declaredBytes && b.challengeDigest == a.challengeDigest
    ensures IsHeader(codec, f, b)
  {
  }

  /** After a header, only a chunk or an end is accepted. */
  lemma {:induction false} AfterHeader(codec: Codec, a: Assembly, f: Frame)
    requires Continues(a) && a.headerSeen
    requires Offered(codec, a, f).error == NoError
    ensures f.kind == EVIDENCE_CHUNK || (f.kind == END && codec.parse(f.payload).Object?)
  {
  }

  lemma {:induction false} OfferedIsExplained(codec: Codec, fs: seq<Frame>)
    ensures var a := OfferedAll(codec, fs);
      (a.error == NoError ==> Explains(codec, fs, a)) && (a.error != NoError ==> !a.done)
  {
    hide Explains, OfferRefusal, OfferHeader, OfferChunk, OfferEnd, OfferResult;
    if fs == [] {
      EmptyIsExplained(codec);
    } else {
      var n := |fs| - 1;
      var rest, f := fs[..n], fs[n];
      OfferedIsExplained(codec, rest);
      var a := OfferedAll(codec, rest);
      assert fs == rest + [f];
      StepIsExplained(codec, rest, a, f);
    }
  }

  lemma {:induction false} EmptyIsExplained(codec: Codec)
    ensures Explains(codec, [], EMPTY)
  {
  }

  lemma {:induction false} StepIsExplained(codec: Codec, fs: seq<Frame>, a: Assembly, f: Frame)
    requires a.error == NoError ==> Explains(codec, fs, a)
    ensures var b := Offered(codec, a, f);
      (b.error == NoError ==> Explains(codec, fs + [f], b)) && (b.error != NoError ==> !b.done)
  {
    FailureIsNotDone(codec, a, f);
    if Offered(codec, a, f).error == NoError {
      if a.headerSeen {
        NextIsExplained(codec, fs, a, f);
      } else {
        assert fs == [] && a == EMPTY;
        assert fs + [f] == [f];
        FirstIsExplained(codec, f);
      }
    }
  }

  lemma {:induction false} FailureIsNotDone(codec: Codec, a: Assembly, f: Frame)
    ensures var b := Offered(codec, a, f);
      && (b.error != NoError ==> !b.done)
      && (b.error == NoError ==> Continues(a))
  {
  }

  lemma {:induction false} AfterErrorMalformed(codec: Codec, a: Assembly, f: Frame)
    requires a.error != NoError
    ensures Offered(codec, a, f).error == Malformed
  {
  }

  /** Errors are absorbing. */
  lemma {:induction false} ErrorsAbsorb(codec: Codec, fs: seq<Frame>, k: nat)
    requires k <= |fs| && OfferedAll(codec, fs[..k]).error != NoError
    ensures OfferedAll(codec, fs).error != NoError && !OfferedAll(codec, fs).done
    ensures k < |fs| ==> OfferedAll(codec, fs).error == Malformed
    decreases |fs|
  {
    hide Offered, Explains;
    OfferedIsExplained(codec, fs);
    if k < |fs| {
      var n := |fs| - 1;
      assert fs[..n][..k] == fs[..k];
      ErrorsAbsorb(codec, fs[..n], k);
      AfterErrorMalformed(codec, OfferedAll(codec, fs[..n]), fs[n]);
      FailureIsNotDone(codec, OfferedAll(codec, fs[..n]), fs[n]);
    } else {
      assert fs[..k] == fs;
    }
  }

  /** A first frame that declares more evidence than the chunk budget holds. */
  ghost predicate DeclaresTooMuch(codec: Codec, f: Frame) {
    && f.kind == HEADER
    && var j := codec.parse(f.payload);
       j.Object? && RightVersion(j) && j.kind == Some(BUNDLE_TYPE) && j.platformBytes.Some?
       && MAX_FRAME_BYTES * MAX_CHUNKS < j.platformBytes.value
  }

  /** Evidence that overruns what was declared, or a declaration that overruns the budget. */
  ghost predicate Overruns(codec: Codec, chunks: nat, declared: nat, held: nat, first: bool, f: Frame) {
    if first then DeclaresTooMuch(codec, f)
    else f.kind == EVIDENCE_CHUNK && chunks < MAX_CHUNKS && declared < held + |f.payload|
  }

  /** The state while the stream goes on, in terms of the frames so far. */
  lemma {:induction false} StateOfFrames(codec: Codec, fs: seq<Frame>)
    requires Continues(OfferedAll(codec, fs))
    ensures var a := OfferedAll(codec, fs);
      && a.accepted == WireBytes(fs) && (a.headerSeen <==> fs != [])
      && (fs != [] ==> a.chunks == |fs| - 1 && a.evidence == Payloads(fs[1..]))
  {
    hide OfferedAll, Payloads, WireBytes, IsHeader;
    OfferedIsExplained(codec, fs);
    assert fs != [] ==> fs[1..|fs|] == fs[1..];
  }

  /** What each error says of the frame that caused it, in terms of the frames before it. */
  lemma {:induction false} ErrorsMeanFrames(codec: Codec, fs: seq<Frame>, f: Frame)
    requires Continues(OfferedAll(codec, fs))
    ensures var declared, error := OfferedAll(codec, fs).declaredBytes, OfferedAll(codec, fs + [f]).error;
      var whole, held := |f.payload| <= MAX_FRAME_BYTES, if fs == [] then 0 else |Payloads(fs[1..])|;
      var fits := whole && WireBytes(fs) + FRAME_HEADER_BYTES + |f.payload| <= MAX_RESPONSE_BYTES;
      var chunks := if fs == [] then 0 else |fs| - 1;
      && (error == Oversized <==> !whole)
      && (error == TooManyChunks <==> fits && fs != [] && f.kind == EVIDENCE_CHUNK && chunks == MAX_CHUNKS)
      && (error == TooLarge <==> whole && (!fits || Overruns(codec, chunks, declared, held, fs == [], f)))
      && error in {NoError, Oversized, TooManyChunks, TooLarge, Malformed}
  {
    hide Offered, OfferedAll, Payloads, WireBytes, Overruns, Bounded;
    StateOfFrames(codec, fs);
    LastOffered(codec, fs, f);
    EvidenceIsBounded(codec, fs);
    ChunksAreBounded(codec, fs);
    ErrorOfFrame(codec, OfferedAll(codec, fs), f);
  }

  lemma {:induction false} ChunksAreBounded(codec: Codec, fs: seq<Frame>)
    requires Continues(OfferedAll(codec, fs))
    ensures OfferedAll(codec, fs).chunks <= MAX_CHUNKS && (fs == [] ==> OfferedAll(codec, fs) == EMPTY)
  {
    EvidenceIsBounded(codec, fs);
  }

  lemma {:induction false} LastOffered(codec: Codec, fs: seq<Frame>, f: Frame)
    ensures OfferedAll(codec, fs + [f]) == Offered(codec, OfferedAll(codec, fs), f)
  {
    hide Offered;
    assert (fs + [f])[..|fs|] == fs;
  }

  lemma {:induction false} ErrorOfFrame(codec: Codec, a: Assembly, f: Frame)
    requires Continues(a) && a.chunks <= MAX_CHUNKS
    ensures var error, whole := Offered(codec, a, f).error, |f.payload| <= MAX_FRAME_BYTES;
      var fits := whole && a.accepted + FRAME_HEADER_BYTES + |f.payload| <= MAX_RESPONSE_BYTES;
      && (error == Oversized <==> !whole)
      && (error == TooManyChunks <==> fits && a.headerSeen && f.kind == EVIDENCE_CHUNK && a.chunks == MAX_CHUNKS)
      && (error == TooLarge <==> whole && (!fits || Overruns(codec, a.chunks, a.declaredBytes, |a.evidence|, !a.headerSeen, f)))
      && error in {NoError, Oversized, TooManyChunks, TooLarge, Malformed}
  {
  }

  ghost predicate Bounded(a: Assembly) {
    && |a.evidence| <= a.declaredBytes
    && |a.evidence| <= MAX_FRAME_BYTES * MAX_CHUNKS
    && (!a.headerSeen ==> a.evidence == [])
    && (a.headerSeen ==> a.declaredBytes <= MAX_FRAME_BYTES * MAX_CHUNKS)
    && a.chunks <= (if a.error == NoError then MAX_CHUNKS else MAX_CHUNKS + 1)
    && a.accepted <= (if a.error == NoError then MAX_RESPONSE_BYTES else MAX_RESPONSE_BYTES + FRAME_HEADER_BYTES + MAX_FRAME_BYTES)
  }

  lemma {:induction false} OfferStaysBounded(codec: Codec, a: Assembly, f: Frame)
    requires Bounded(a)
    ensures Bounded(Offered(codec, a, f))
  {
  }

  /** Whatever is offered, errors included: held evidence never exceeds the declared length
      nor the chunk budget, and only a header makes room for any. */
  lemma {:induction false} EvidenceIsBounded(codec: Codec, fs: seq<Frame>)
    ensures Bounded(OfferedAll(codec, fs))
  {
    hide Offered;
    if fs != [] {
      EvidenceIsBounded(codec, fs[..|fs| - 1]);
      OfferStaysBounded(codec, OfferedAll(codec, fs[..|fs| - 1]), fs[|fs| - 1]);
    }
  }

  /** At most one kind of answer is ever available. */
  lemma {:induction false} OneAnswer(codec: Codec, fs: seq<Frame>)
    ensures var a := OfferedAll(codec, fs);
      && !(HasBundle(codec, a) && (HasRefusal(a) || HasSealedKey(a) || HasUnsealedKey(a) || HasSecret(a)))
      && !(HasRefusal(a) && (HasSealedKey(a) || HasUnsealedKey(a) || HasSecret(a)))
      && !(HasSealedKey(a) && (HasUnsealedKey(a) || HasSecret(a)))
      && !(HasUnsealedKey(a) && HasSecret(a))
  {
    OfferedIsExplained(codec, fs);
  }

  /** The object of a single-frame answer. */
  ghost predicate IsResult(codec: Codec, fs: seq<Frame>, kind: string) {
    && |fs| == 1 && fs[0].kind == RESULT
    && var j := codec.parse(fs[0].payload);
       j.Object? && RightVersion(j) && j.kind == Some(kind)
  }

  /** Every other answer is the content of one frame. */
  lemma {:induction false} AnswersMeanFrames(codec: Codec, fs: seq<Frame>)
    ensures var a := OfferedAll(codec, fs);
      && (HasRefusal(a) ==>
        && |fs| == 1 && fs[0].kind == REFUSAL && 1 <= a.refusal <= LAST_REFUSAL
        && var j := codec.parse(fs[0].payload);
           j.Object? && j.code.Some? && j.code.value % 65536 == a.refusal)
      && (HasSealedKey(a) ==>
        && IsResult(codec, fs, SEAL_RESULT_TYPE) && |a.key| == SEAL_KEY_BYTES && a.sealed.Some?
        && var j := codec.parse(fs[0].payload); j.sealed == a.sealed && j.key == Some(a.key))
      && (HasUnsealedKey(a) ==>
        && IsResult(codec, fs, UNSEAL_RESULT_TYPE) && |a.key| == SEAL_KEY_BYTES
        && var j := codec.parse(fs[0].payload); j.onlyUnsealFields && j.key == Some(a.key))
      && (HasSecret(a) ==>
        && IsResult(codec, fs, ACTIVATION_RESULT_TYPE)
        && var j := codec.parse(fs[0].payload);
           j.activatedSecret.Some? && codec.fromHex(j.activatedSecret.value) == Some(a.secret))
  {
    OfferedIsExplained(codec, fs);
    var a := OfferedAll(codec, fs);
    if a.done && !a.headerSeen {
      assert OfferedAll(codec, []) == EMPTY;
      assert fs[..0] == [];
      assert a == Offered(codec, EMPTY, fs[0]);
    }
  }

  /** And one frame gives an answer exactly when it is well formed: a refusal with its code and
      detail, a sealed key, an unsealed key, or an activated secret. */
  lemma {:induction false} FrameGivesAnswer(codec: Codec, f: Frame)
    requires |f.payload| <= MAX_FRAME_BYTES && codec.parse(f.payload).Object?
    ensures var a, j := OfferedAll(codec, [f]), codec.parse(f.payload);
      var keyed := j.key.Some? && |j.key.value| == SEAL_KEY_BYTES;
      var result := f.kind == RESULT && j.version.Some? && Wrap32(j.version.value) == WIRE_VERSION && j.kind.Some?;
      && (HasRefusal(a) <==> f.kind == REFUSAL && j.code.Some? && 1 <= j.code.value % 65536 <= LAST_REFUSAL)
      && (HasRefusal(a) ==> a.refusal == j.code.value % 65536 && a.detail == if j.detail.Some? then j.detail.value else "")
      && (HasSealedKey(a) <==> result && j.kind.value == SEAL_RESULT_TYPE && j.sealed.Some? && keyed)
      && (HasUnsealedKey(a) <==> result && j.kind.value == UNSEAL_RESULT_TYPE && j.onlyUnsealFields && keyed)
      && (HasSealedKey(a) || HasUnsealedKey(a) ==> Some(a.key) == j.key)
      && (HasSealedKey(a) ==> a.sealed == j.sealed)
      && (HasSecret(a) <==> && result && j.kind.value == ACTIVATION_RESULT_TYPE
                            && j.activatedSecret.Some? && |j.activatedSecret.value| == 2 * DIGEST_SIZE
                            && var secret := codec.fromHex(j.activatedSecret.value); secret.Some? && secret.value != [])
      && (HasSecret(a) ==> codec.fromHex(j.activatedSecret.value) == Some(a.secret))
  {
    assert [f][..0] == [];
    assert OfferedAll(codec, [f]) == Offered(codec, EMPTY, f);
  }

  /** A bundle means the frames were exactly a header, chunks and an end, with the length
      and digest they declared. */
  lemma {:induction false} BundleMeansGrammar(codec: Codec, fs: seq<Frame>)
    requires HasBundle(codec, OfferedAll(codec, fs))
    ensures var a := OfferedAll(codec, fs);
      && 2 <= |fs| && |fs| - 2 <= MAX_CHUNKS
      && IsHeader(codec, fs[0], a) && AreChunks(fs[1..|fs| - 1]) && IsEnd(codec, fs[|fs| - 1], a)
      && a.evidence == Payloads(fs[1..|fs| - 1]) && |a.evidence| == a.declaredBytes
      && codec.toHex(codec.sha256(a.evidence)) == a.declaredDigest
      && Finish(codec, a).value.challengeDigest == a.challengeDigest
      && codec.decode(a.evidence) == Some(Finish(codec, a).value.platform)
  {
    OfferedIsExplained(codec, fs);
  }

  /** The assembler with its fields. */
  class Assembler {
    const codec: Codec
    var challengeDigest: seq<Byte>
    var evidence: seq<Byte>
    var declaredBytes: nat
    var declaredDigest: string
    var chunks: nat
    var accepted: nat
    var headerSeen: bool
    var done: bool
    var error: FrameError
    var refusal: nat
    var detail: string
    var secret: seq<Byte>
    var resultType: string
    var sealed: Option<SealedKey>
    var key: seq<Byte>

    function View(): Assembly
      reads this
    {
      Assembly(challengeDigest, evidence, declaredBytes, declaredDigest, chunks, accepted, headerSeen, done, error,
               refusal, detail, secret, resultType, sealed, key)
    }

    constructor (codec: Codec)
      ensures View() == EMPTY && this.codec == codec
    {
      this.codec := codec;
      challengeDigest, evidence, declaredBytes, declaredDigest, chunks, accepted := [], [], 0, "", 0, 0;
      headerSeen, done, error, refusal, detail := false, false, NoError, 0, "";
      secret, resultType, sealed, key := [], "", None, [];
    }

    method Fail(e: FrameError) returns (more: bool)
      modifies this`error, this`done
      ensures View() == Failed(old(View()), e) && !more
    {
      error, done := e, false;
      more := false;
    }

    /** Offer one frame; the result says whether the stream goes on. */
    method Offer(f: Frame) returns (more: bool)
      modifies this
      ensures View() == Offered(codec, old(View()), f)
      ensures more == Continues(View())
    {
      hide OfferRefusal, OfferHeader, OfferChunk, OfferEnd, OfferResult;
      if done || error != NoError {
        more := Fail(Malformed);
        return;
      }
      if MAX_FRAME_BYTES < |f.payload| {
        more := Fail(Oversized);
        return;
      }
      accepted := accepted + FRAME_HEADER_BYTES + |f.payload|;
      if MAX_RESPONSE_BYTES < accepted {
        more := Fail(TooLarge);
        return;
      }
      if f.kind == EVIDENCE_CHUNK {
        more := TakeChunk(f.payload);
        return;
      }
      var j := codec.parse(f.payload);
      if j.NotAnObject? {
        more := Fail(Malformed);
      } else if f.kind == REFUSAL {
        more := TakeRefusal(j);
      } else if f.kind == HEADER {
        more := TakeHeader(j);
      } else if f.kind == END {
        more := TakeEnd(j);
      } else if f.kind == RESULT {
        more := TakeResult(j);
      } else {
        more := Fail(Malformed);
      }
    }

    method TakeChunk(payload: seq<Byte>) returns (more: bool)
      requires Continues(View())
      modifies this
      ensures View() == OfferChunk(old(View()), payload) && more == Continues(View())
    {
      if !headerSeen {
        more := Fail(Malformed);
        return;
      }
      chunks := chunks + 1;
      if MAX_CHUNKS < chunks {
        more := Fail(TooManyChunks);
        return;
      }
      if declaredBytes < |evidence| + |payload| {
        more := Fail(TooLarge);
        return;
      }
      evidence := evidence + payload;
      more := true;
    }

    method TakeRefusal(j: Json) returns (more: bool)
      requires Continues(View()) && j.Object?
      modifies this
      ensures View() == OfferRefusal(old(View()), j) && more == Continues(View())
    {
      if headerSeen || j.code.None? {
        more := Fail(Malformed);
        return;
      }
      refusal := j.code.value % 65536;
      if LAST_REFUSAL < refusal {
        more := Fail(Malformed);
        return;
      }
      if j.detail.Some? {
        detail := j.detail.value;
      }
      done, more := true, false;
    }

    method TakeHeader(j: Json) returns (more: bool)
      requires Continues(View()) && j.Object?
      modifies this
      ensures View() == OfferHeader(codec, old(View()), j) && more == Continues(View())
    {
      if headerSeen || !RightVersion(j) || j.kind != Some(BUNDLE_TYPE) || j.platformBytes.None? {
        more := Fail(Malformed);
        return;
      }
      declaredBytes := j.platformBytes.value;
      if MAX_FRAME_BYTES * MAX_CHUNKS < declaredBytes {
        more := Fail(TooLarge);
        return;
      }
      if j.challengeDigest.None? {
        more := Fail(Malformed);
        return;
      }
      var digest := codec.fromHex(j.challengeDigest.value);
      if digest.None? || |digest.value| != DIGEST_SIZE {
        more := Fail(Malformed);
        return;
      }
      challengeDigest, headerSeen, more := digest.value, true, true;
    }

    method TakeEnd(j: Json) returns (more: bool)
      requires Continues(View()) && j.Object?
      modifies this
      ensures View() == OfferEnd(old(View()), j) && more == Continues(View())
    {
      if !headerSeen || j.platformSha256.None? {
        more := Fail(Malformed);
        return;
      }
      declaredDigest, done, more := j.platformSha256.value, true, false;
    }

    method TakeResult(j: Json) returns (more: bool)
      requires Continues(View()) && j.Object?
      modifies this
      ensures View() == OfferResult(codec, old(View()), j) && more == Continues(View())
    {
      if headerSeen || !RightVersion(j) || j.kind.None? {
        more := Fail(Malformed);
        return;
      }
      var keyed := j.key.Some? && |j.key.value| == SEAL_KEY_BYTES;
      if j.kind.value == SEAL_RESULT_TYPE {
        if j.sealed.None? || !keyed {
          more := Fail(Malformed);
          return;
        }
        resultType, sealed, key := SEAL_RESULT_TYPE, j.sealed, j.key.value;
        done, more := true, false;
        return;
      }
      if j.kind.value == UNSEAL_RESULT_TYPE {
        if !j.onlyUnsealFields || !keyed {
          more := Fail(Malformed);
          return;
        }
        resultType, key := UNSEAL_RESULT_TYPE, j.key.value;
        done, more := true, false;
        return;
      }
      if j.kind.value != ACTIVATION_RESULT_TYPE || j.activatedSecret.None? || |j.activatedSecret.value| != 2 * DIGEST_SIZE {
        more := Fail(Malformed);
        return;
      }
      var decoded := codec.fromHex(j.activatedSecret.value);
      if decoded.None? {
        more := Fail(Malformed);
        return;
      }
      secret := decoded.value;
      done, more := true, false;
    }

    /** Hand the key over, at most once. */
    method TakeResultKey() returns (r: seq<Byte>)
      modifies this`key
      ensures r == if old(HasResultKey(View())) then old(key) else []
      ensures old(HasResultKey(View())) ==> View() == old(View()).(key := [])
      ensures !old(HasResultKey(View())) ==> View() == old(View())
      ensures !HasResultKey(View())
    {
      if !HasResultKey(View()) {
        return [];
      }
      r := key;
      key := [];
    }

    /** Compare the evidence with what the stream committed to; a mismatch is an error. */
    method FinishBundle() returns (r: Option<Bundle>)
      modifies this`error
      ensures r == Finish(codec, old(View()))
      ensures error == if r.None? && done && refusal == 0 && headerSeen
                       then (if |evidence| != declaredBytes then Truncated else Malformed)
                       else old(error)
    {
      if !done || refusal != 0 || !headerSeen {
        return None;
      }
      if |evidence| != declaredBytes {
        error := Truncated;
        return None;
      }
      if codec.toHex(codec.sha256(evidence)) != declaredDigest {
        error := Malformed;
        return None;
      }
      var platform := codec.decode(evidence);
      if platform.None? {
        error := Malformed;
        return None;
      }
      return Some(Bundle(challengeDigest, platform.value));
    }
  }
}
