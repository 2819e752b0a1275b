/** The queue between the worker that fetches a proxied response and the thread that writes it
    out.

    Each critical section is one step. The worker appends chunks and waits while the queue is
    full, the reader takes them and waits while it is empty, and anyone may cancel. */
module ProxyPipe {
  import opened Options

  type Chunk = seq<bv8>

  const PIPE_LIMIT: nat := 0x10_0000

  /** The response writer: not started, writing, ended because there is nothing left, or broken
      off because the client takes no more. */
  datatype Reader = Idle | Writing | Ended | Broken

  datatype State = State(headers: bool, finished: bool, cancelled: bool, chunks: seq<Chunk>, buffered: nat, reader: Reader)

  datatype Step =
    | Headers                    // the response headers arrived
    | Content(chunk: Chunk)      // the worker got past its wait with a chunk
    | Finish                     // the worker ended
    | Serve                      // the response is handed to the writer
    | Take(written: bool)        // the writer got past its wait; whether the client took the chunk
    | Cancel

  const FRESH := State(false, false, false, [], 0, Idle)

  // What each thread waits for

  predicate HasRoom(s: State) {
    s.cancelled || s.buffered < PIPE_LIMIT
  }

  predicate HasWork(s: State) {
    s.chunks != [] || s.finished || s.cancelled
  }

  predicate HasAnswer(s: State) {
    s.headers || s.finished || s.cancelled
  }

  ghost predicate Enabled(s: State, step: Step) {
    match step
    case Headers => !s.finished
    case Content(_) => !s.finished && HasRoom(s)
    case Finish => !s.finished
    case Serve => s.reader == Idle && s.headers && !s.cancelled
    case Take(_) => s.reader == Writing && HasWork(s) && (s.chunks != [] ==> |s.chunks[0]| <= s.buffered)
    case Cancel => true
  }

  ghost function Next(s: State, step: Step): State
    requires Enabled(s, step)
  {
    match step
    case Headers => s.(headers := true)
    case Content(chunk) =>
      if s.cancelled then s else s.(chunks := s.chunks + [chunk], buffered := s.buffered + |chunk|)
    case Finish => s.(finished := true)
    case Serve => s.(reader := Writing)
    case Take(written) =>
      if s.chunks == [] then s.(reader := Ended)
      else s.(chunks := s.chunks[1..], buffered := s.buffered - |s.chunks[0]|, reader := if written then Writing else Broken)
    case Cancel => s.(cancelled := true)
  }

  // The queue and its size

  function Total(chunks: seq<Chunk>): nat {
    if chunks == [] then 0 else Total(chunks[..|chunks| - 1]) + |chunks[|chunks| - 1]|
  }

  lemma {:induction false} TotalOfRest(chunks: seq<Chunk>)
    requires chunks != []
    ensures Total(chunks) == |chunks[0]| + Total(chunks[1..])
  {
    var n := |chunks| - 1;
    if 0 < n {
      TotalOfRest(chunks[..n]);
      assert chunks[1..][..n - 1] == chunks[..n][1..];
    } else {
      assert chunks[..0] == [] && chunks[1..] == [];
    }
  }

  /** The count is the size of the queue, which is below the limit but for its last chunk; the
      writer ends only when nothing is left and nothing more comes. */
  ghost predicate Valid(s: State) {
    && s.buffered == Total(s.chunks)
    && (s.chunks != [] ==> Total(s.chunks[..|s.chunks| - 1]) < PIPE_LIMIT)
    && (s.reader == Ended ==> s.chunks == [] && (s.finished || s.cancelled))
    && (s.reader != Idle ==> s.headers)
  }

  lemma {:induction false} ContentKeepsValid(s: State, chunk: Chunk)
    requires Valid(s) && Enabled(s, Content(chunk))
    ensures Valid(Next(s, Content(chunk)))
  {
    assert (s.chunks + [chunk])[..|s.chunks|] == s.chunks;
  }

  lemma {:induction false} TakeKeepsValid(s: State, written: bool)
    requires Valid(s) && Enabled(s, Take(written))
    ensures Valid(Next(s, Take(written)))
  {
    if s.chunks != [] {
      var n := |s.chunks| - 1;
      TotalOfRest(s.chunks);
      if 0 < n {
        TotalOfRest(s.chunks[..n]);
        assert s.chunks[1..][..n - 1] == s.chunks[..n][1..];
      }
    }
  }

  lemma {:induction false} StepKeepsValid(s: State, step: Step)
    requires Valid(s) && Enabled(s, step)
    ensures Valid(Next(s, step))
  {
    match step
    case Content(chunk) => ContentKeepsValid(s, chunk);
    case Take(written) => TakeKeepsValid(s, written);
    case _ =>
  }

  ghost predicate IsRun(states: seq<State>, steps: seq<Step>) {
    && |states| == |steps| + 1 && states[0] == FRESH
    && forall i :: 0 <= i < |steps| ==> Enabled(states[i], steps[i]) && states[i + 1] == Next(states[i], steps[i])
  }

  /** In every interleaving the count is the size of the queue and stays within the limit and
      one chunk. */
  lemma {:induction false} RunIsValid(states: seq<State>, steps: seq<Step>, i: nat)
    requires IsRun(states, steps) && i < |states|
    ensures Valid(states[i])
  {
    hide Next;
    if 0 < i {
      RunIsValid(states, steps, i - 1);
      StepKeepsValid(states[i - 1], steps[i - 1]);
    }
  }

  // What went in and what came out, read off a run

  /** The chunks that the worker put in: those it got before it was cancelled. */
  ghost function Accepted(states: seq<State>, steps: seq<Step>, n: nat): seq<Chunk>
    requires IsRun(states, steps) && n <= |steps|
  {
    if n == 0 then []
    else Accepted(states, steps, n - 1)
         + if steps[n - 1].Content? && !states[n - 1].cancelled then [steps[n - 1].chunk] else []
  }

  /** The chunks that the writer was handed. */
  ghost function Handed(states: seq<State>, steps: seq<Step>, n: nat): seq<Chunk>
    requires IsRun(states, steps) && n <= |steps|
  {
    if n == 0 then []
    else Handed(states, steps, n - 1)
         + if steps[n - 1].Take? && states[n - 1].chunks != [] then [states[n - 1].chunks[0]] else []
  }

  lemma {:induction false} StepMoves(s: State, step: Step)
    requires Enabled(s, step)
    ensures var put := if step.Content? && !s.cancelled then [step.chunk] else [];
      var taken := if step.Take? && s.chunks != [] then [s.chunks[0]] else [];
      s.chunks + put == taken + Next(s, step).chunks
  {
  }

  lemma {:induction false} Rebracket(h: seq<Chunk>, q: seq<Chunk>, put: seq<Chunk>, taken: seq<Chunk>, q': seq<Chunk>)
    requires q + put == taken + q'
    ensures (h + q) + put == (h + taken) + q'
  {
    assert (h + q) + put == h + (q + put);
    assert (h + taken) + q' == h + (taken + q');
  }

  /** In every interleaving, cancels included, what was handed out and what is queued are
      together exactly what was put in, in order: no chunk is lost, repeated or reordered. */
  lemma {:induction false} ChunksLeaveInOrder(states: seq<State>, steps: seq<Step>, n: nat)
    requires IsRun(states, steps) && n <= |steps|
    ensures Accepted(states, steps, n) == Handed(states, steps, n) + states[n].chunks
  {
    hide Next;
    if 0 < n {
      var s, step := states[n - 1], steps[n - 1];
      ChunksLeaveInOrder(states, steps, n - 1);
      StepMoves(s, step);
      var put := if step.Content? && !s.cancelled then [step.chunk] else [];
      var taken := if step.Take? && s.chunks != [] then [s.chunks[0]] else [];
      Rebracket(Handed(states, steps, n - 1), s.chunks, put, taken, states[n].chunks);
    }
  }

  lemma {:induction false} EndsStay(s: State, step: Step)
    requires Enabled(s, step)
    ensures s.finished ==> Next(s, step).finished && !step.Content?
    ensures s.cancelled ==> Next(s, step).cancelled
  {
  }

  /** Once the worker ended or the pipe is cancelled, nothing more is put in. */
  lemma {:induction false} NothingMoreComes(states: seq<State>, steps: seq<Step>, i: nat, n: nat)
    requires IsRun(states, steps) && i <= n <= |steps| && (states[i].finished || states[i].cancelled)
    ensures states[n].finished || states[n].cancelled
    ensures Accepted(states, steps, n) == Accepted(states, steps, i)
    decreases n
  {
    hide Next;
    if i < n {
      NothingMoreComes(states, steps, i, n - 1);
      EndsStay(states[n - 1], steps[n - 1]);
    }
  }

  /** When the writer ends the response, every chunk that is ever put in was handed to it; if
      nobody cancelled, the worker had ended, so the response is whole. */
  lemma {:induction false} EndIsWhole(states: seq<State>, steps: seq<Step>, i: nat, n: nat)
    requires IsRun(states, steps) && i <= n <= |steps| && states[i].reader == Ended
    ensures Handed(states, steps, i) == Accepted(states, steps, n)
    ensures states[i].cancelled || states[i].finished
  {
    RunIsValid(states, steps, i);
    ChunksLeaveInOrder(states, steps, i);
    NothingMoreComes(states, steps, i, n);
  }

  /** Once the client takes no more, nothing more is handed out; and until then, or the end, the
      writer goes on. */
  lemma {:induction false} BrokenStays(states: seq<State>, steps: seq<Step>, i: nat, n: nat)
    requires IsRun(states, steps) && i < n <= |steps| && steps[i].Take? && states[i].chunks != []
    ensures steps[i].written ==> states[i + 1].reader == Writing
    ensures !steps[i].written ==>
      states[n].reader == Broken && Handed(states, steps, n) == Handed(states, steps, i) + [states[i].chunks[0]]
    decreases n
  {
    assert states[i + 1] == Next(states[i], steps[i]);
    if i + 1 < n {
      BrokenStays(states, steps, i, n - 1);
      assert states[n] == Next(states[n - 1], steps[n - 1]);
    }
  }

  lemma {:induction false} OneChunkRun(chunk: Chunk) returns (states: seq<State>, steps: seq<Step>)
    ensures IsRun(states, steps) && |states| == 7
    ensures steps == [Headers, Serve, Content(chunk), Take(true), Finish, Take(true)]
    ensures !states[2].cancelled && states[6].reader == Ended && !states[6].cancelled
  {
    var s1 := FRESH.(headers := true);
    var s2 := s1.(reader := Writing);
    var s3 := s2.(chunks := [chunk], buffered := |chunk|);
    var s5 := s2.(finished := true);
    states := [FRESH, s1, s2, s3, s2, s5, s5.(reader := Ended)];
    steps := [Headers, Serve, Content(chunk), Take(true), Finish, Take(true)];
  }

  /** The run of a response of one chunk. */
  lemma {:induction false} OneChunkResponse(chunk: Chunk) returns (states: seq<State>, steps: seq<Step>)
    ensures IsRun(states, steps) && |states| == 7
    ensures steps == [Headers, Serve, Content(chunk), Take(true), Finish, Take(true)]
    ensures states[6].reader == Ended && !states[6].cancelled && Handed(states, steps, 6) == [chunk]
  {
    states, steps := OneChunkRun(chunk);
    hide IsRun, Handed, Next, Enabled;
    EndIsWhole(states, steps, 6, 6);
    assert Accepted(states, steps, 0) == [] && Accepted(states, steps, 1) == [] && Accepted(states, steps, 2) == [];
    assert Accepted(states, steps, 3) == [chunk];
    assert Accepted(states, steps, 4) == [chunk];
    assert Accepted(states, steps, 5) == [chunk];
  }

  // Waiting

  /** The worker and the writer never wait for each other: a full queue has a chunk to take.
      And the count never falls below a chunk that is taken. */
  lemma {:induction false} NoDeadlock(states: seq<State>, steps: seq<Step>, i: nat)
    requires IsRun(states, steps) && i < |states|
    ensures HasRoom(states[i]) || HasWork(states[i])
    ensures states[i].reader == Writing && HasWork(states[i]) ==> forall written :: Enabled(states[i], Take(written))
  {
    RunIsValid(states, steps, i);
    if states[i].chunks != [] {
      TotalOfRest(states[i].chunks);
    }
  }

  /** The steps that notify the waiting threads. */
  ghost predicate Notifies(s: State, step: Step) {
    match step
    case Headers => true
    case Content(_) => !s.cancelled
    case Finish => true
    case Serve => false
    case Take(_) => s.chunks != []
    case Cancel => true
  }

  /** No wake-up is lost: a step that ends what a thread waits for notifies, and it stays ended
      until that thread itself goes on. */
  lemma {:induction false} WakesAreNotified(s: State, step: Step)
    requires Valid(s) && Enabled(s, step)
    ensures !HasRoom(s) && HasRoom(Next(s, step)) ==> Notifies(s, step)
    ensures !HasWork(s) && HasWork(Next(s, step)) ==> Notifies(s, step)
    ensures !HasAnswer(s) && HasAnswer(Next(s, step)) ==> Notifies(s, step)
    ensures HasRoom(s) && !step.Content? ==> HasRoom(Next(s, step))
    ensures HasWork(s) && !step.Take? ==> HasWork(Next(s, step))
    ensures HasAnswer(s) ==> HasAnswer(Next(s, step))
  {
  }

  class Pipe {
    var headers: bool
    var finished: bool
    var cancelled: bool
    var chunks: seq<Chunk>
    var buffered: nat
    ghost var reader: Reader

    ghost function View(): State
      reads this
    {
      State(headers, finished, cancelled, chunks, buffered, reader)
    }

    constructor ()
      ensures View() == FRESH
    {
      headers, finished, cancelled, chunks, buffered, reader := false, false, false, [], 0, Idle;
    }

    /** The response handler; false stops the request. */
    method ReceiveHeaders() returns (goOn: bool)
      requires Enabled(View(), Headers)
      modifies this
      ensures View() == Next(old(View()), Headers) && goOn == !cancelled
    {
      headers := true;
      goOn := !cancelled;
    }

    /** The content receiver, past its wait; false stops the request. */
    method ReceiveContent(data: Chunk) returns (goOn: bool)
      requires Valid(View()) && Enabled(View(), Content(data))
      modifies this
      ensures View() == Next(old(View()), Content(data)) && Valid(View()) && goOn == !old(cancelled)
    {
      StepKeepsValid(View(), Content(data));
      if cancelled {
        return false;
      }
      chunks := chunks + [data];
      buffered := buffered + |data|;
      return true;
    }

    method EndWorker()
      requires Enabled(View(), Finish)
      modifies this
      ensures View() == Next(old(View()), Finish)
    {
      finished := true;
    }

    method CancelPipe()
      modifies this
      ensures View() == Next(old(View()), Cancel)
    {
      cancelled := true;
    }

    /** The content provider, past its wait: the chunk to write, or none when the response is
        done. `written` is what writing it comes to. */
    method Provide(ghost written: bool) returns (chunk: Option<Chunk>)
      requires Valid(View()) && reader == Writing && HasWork(View())
      modifies this
      ensures Valid(View()) && Enabled(old(View()), Take(written)) && View() == Next(old(View()), Take(written))
      ensures chunk == if old(chunks) == [] then None else Some(old(chunks)[0])
    {
      if chunks != [] {
        TotalOfRest(chunks);
      }
      TakeKeepsValid(View(), written);
      if chunks == [] {
        reader := Ended;
        return None;
      }
      chunk := Some(chunks[0]);
      buffered := buffered - |chunks[0]|;
      chunks := chunks[1..];
      reader := if written then Writing else Broken;
    }
  }
}
