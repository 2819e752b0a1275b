/** Moving bytes between a virtual TCP socket and its bridge.

    The socket and the bridge are an arbitrary environment: a script lists what each call
    returns, so a statement about every script is one about every behaviour of both. The
    trace records every byte that crossed and both ends being closed, in order. */
module ConnectionPump {

  type Byte = bv8

  datatype Io =
    | Took(bytes: seq<Byte>)     // received from the virtual socket
    | Wrote(bytes: seq<Byte>)    // accepted by the bridge
    | ShutBridge                 // bridge write side shut down
    | Read(bytes: seq<Byte>)     // read from the bridge
    | Sent(bytes: seq<Byte>)     // accepted by the virtual socket
    | ReadEnd                    // the bridge ended or failed
    | CloseSocket                // virtual socket closed

  type Trace = seq<Io>

  datatype Conn = Conn(toBridge: seq<Byte>, toTcp: seq<Byte>, established: bool, bridgeEof: bool, finToBridge: bool)

  // What the trace says was moved

  function TookBytes(t: Trace): (b: seq<Byte>) {
    if t == [] then [] else TookBytes(t[..|t| - 1]) + if t[|t| - 1].Took? then t[|t| - 1].bytes else []
  }

  function WroteBytes(t: Trace): (b: seq<Byte>) {
    if t == [] then [] else WroteBytes(t[..|t| - 1]) + if t[|t| - 1].Wrote? then t[|t| - 1].bytes else []
  }

  function ReadBytes(t: Trace): (b: seq<Byte>) {
    if t == [] then [] else ReadBytes(t[..|t| - 1]) + if t[|t| - 1].Read? then t[|t| - 1].bytes else []
  }

  function SentBytes(t: Trace): (b: seq<Byte>) {
    if t == [] then [] else SentBytes(t[..|t| - 1]) + if t[|t| - 1].Sent? then t[|t| - 1].bytes else []
  }

  /** The bridge is shut down at most once, with everything taken from the socket written
      to it; nothing is read from the bridge after it ended; the socket is closed only then,
      with everything read from the bridge handed over. */
  ghost predicate ClosesCleanly(t: Trace) {
    && (forall i :: 0 <= i < |t| && t[i].ShutBridge? ==> TookBytes(t[..i]) == WroteBytes(t[..i]) && ShutBridge !in t[..i])
    && (forall i :: 0 <= i < |t| && (t[i].Read? || t[i].ReadEnd?) ==> ReadEnd !in t[..i])
    && (forall i :: 0 <= i < |t| && t[i].CloseSocket? ==> ReadBytes(t[..i]) == SentBytes(t[..i]) && ReadEnd in t[..i])
  }

  /** No byte is lost, invented, repeated or reordered in either direction. */
  ghost predicate Balanced(c: Conn, t: Trace) {
    && TookBytes(t) == WroteBytes(t) + c.toBridge
    && ReadBytes(t) == SentBytes(t) + c.toTcp
    && (c.finToBridge <==> ShutBridge in t)
    && (c.bridgeEof <==> ReadEnd in t)
    && ClosesCleanly(t)
  }

  function Append(t: Trace, e: Io): (r: Trace)
    ensures TookBytes(r) == TookBytes(t) + if e.Took? then e.bytes else []
    ensures WroteBytes(r) == WroteBytes(t) + if e.Wrote? then e.bytes else []
    ensures ReadBytes(r) == ReadBytes(t) + if e.Read? then e.bytes else []
    ensures SentBytes(r) == SentBytes(t) + if e.Sent? then e.bytes else []
    ensures |r| == |t| + 1 && t <= r && r[..|t|] == t && r[|t|] == e
    ensures forall i :: 0 <= i < |t| ==> r[i] == t[i] && r[..i] == t[..i]
    ensures forall x :: x in r <==> x in t || x == e
  {
    var r := t + [e];
    assert r[..|r| - 1] == t;
    r
  }

  lemma {:induction false} NothingReadFrom(t: Trace, i: nat, n: nat)
    requires i <= n <= |t| && forall j :: i <= j < n ==> !t[j].Read?
    ensures ReadBytes(t[..n]) == ReadBytes(t[..i])
    decreases n
  {
    if i < n {
      NothingReadFrom(t, i, n - 1);
      assert t[..n][..n - 1] == t[..n - 1];
    }
  }

  /** When the socket is closed, every byte that the bridge ever gives was handed over. */
  lemma {:induction false} CloseHandsOverAll(t: Trace, i: nat)
    requires ClosesCleanly(t) && i < |t| && t[i].CloseSocket?
    ensures SentBytes(t[..i]) == ReadBytes(t)
  {
    hide TookBytes, WroteBytes, ReadBytes, SentBytes;
    var end :| 0 <= end < i && t[end] == ReadEnd;
    forall j | i <= j < |t| ensures !t[j].Read? {
      assert t[..j][end] == ReadEnd;
    }
    NothingReadFrom(t, i, |t|);
    assert t[..|t|] == t;
  }

  // The environment

  datatype Recv = Data(bytes: seq<Byte>) | RecvFailed
  datatype Write = Accepts(count: nat) | WriteFailed
  datatype BridgeRead = Bytes(bytes: seq<Byte>) | Eof | WouldBlock | ReadFailed

  /** The answers of one pass, in the order they are asked for. A list that runs out
      answers "nothing now". */
  datatype Script = Script(
    maySend: bool,
    recvs: seq<Recv>,
    writes: seq<Write>,
    mayRecv: bool,
    recvQueue: nat,
    bridgeReads: seq<BridgeRead>,
    canSend: bool,
    accepted: nat,
    sendFails: bool,
    mayStillSend: bool,
    closed: bool)

  function Least(a: nat, b: nat): nat {
    if a < b then a else b
  }

  // How much each list of answers moves

  /** The bytes received before the socket has no more. */
  function Received(recvs: seq<Recv>): (b: seq<Byte>) {
    if recvs == [] || recvs[0].RecvFailed? || recvs[0].bytes == [] then []
    else recvs[0].bytes + Received(recvs[1..])
  }

  /** How many of `n` pending bytes the bridge takes before it stops. */
  function Taken(n: nat, writes: seq<Write>): (k: nat)
    ensures k <= n
  {
    if n == 0 || writes == [] || writes[0].WriteFailed? || writes[0].count == 0 then 0
    else
      var first := Least(writes[0].count, n);
      first + Taken(n - first, writes[1..])
  }

  /** The bytes read before the bridge ends, fails or would block. */
  function BridgeData(answers: seq<BridgeRead>): (b: seq<Byte>) {
    if answers == [] || !answers[0].Bytes? || answers[0].bytes == [] then []
    else answers[0].bytes + BridgeData(answers[1..])
  }

  /** Whether the bridge ends: a read of zero bytes or a failure other than blocking. */
  predicate BridgeEnds(answers: seq<BridgeRead>) {
    && answers != []
    && !answers[0].WouldBlock?
    && (!answers[0].Bytes? || answers[0].bytes == [] || BridgeEnds(answers[1..]))
  }

  /** How many bytes the bridge takes altogether before it stops, however many are pending. */
  function Room(writes: seq<Write>): nat {
    if writes == [] || writes[0].WriteFailed? || writes[0].count == 0 then 0 else writes[0].count + Room(writes[1..])
  }

  lemma {:induction false} TakenIsRoom(n: nat, writes: seq<Write>)
    ensures Taken(n, writes) == Least(n, Room(writes))
  {
    if n != 0 && writes != [] && !writes[0].WriteFailed? && writes[0].count != 0 {
      TakenIsRoom(n - Least(writes[0].count, n), writes[1..]);
    }
  }

  // The lists spelled out: answers with bytes, and then one without

  function Flat(parts: seq<seq<Byte>>): seq<Byte> {
    if parts == [] then [] else parts[0] + Flat(parts[1..])
  }

  function AllData(parts: seq<seq<Byte>>): (recvs: seq<Recv>)
    ensures |recvs| == |parts| && forall i :: 0 <= i < |parts| ==> recvs[i] == Data(parts[i])
  {
    seq(|parts|, i requires 0 <= i < |parts| => Data(parts[i]))
  }

  function AllBytes(parts: seq<seq<Byte>>): (answers: seq<BridgeRead>)
    ensures |answers| == |parts| && forall i :: 0 <= i < |parts| ==> answers[i] == Bytes(parts[i])
  {
    seq(|parts|, i requires 0 <= i < |parts| => Bytes(parts[i]))
  }

  /** The socket gives every byte before its first answer without any. */
  lemma {:induction false} ReceivedIsAll(parts: seq<seq<Byte>>, next: seq<Recv>)
    requires forall i :: 0 <= i < |parts| ==> parts[i] != []
    requires next == [] || next[0] == RecvFailed || next[0] == Data([])
    ensures Received(AllData(parts) + next) == Flat(parts)
  {
    if parts == [] {
      assert AllData(parts) + next == next;
    } else {
      ReceivedIsAll(parts[1..], next);
      assert (AllData(parts) + next)[1..] == AllData(parts[1..]) + next;
    }
  }

  /** So does the bridge, and its end is an end of file, an empty read or a failure. */
  lemma {:induction false} BridgeGivesAll(parts: seq<seq<Byte>>, next: seq<BridgeRead>)
    requires forall i :: 0 <= i < |parts| ==> parts[i] != []
    requires next == [] || next[0] in {Eof, WouldBlock, ReadFailed, Bytes([])}
    ensures BridgeData(AllBytes(parts) + next) == Flat(parts)
    ensures BridgeEnds(AllBytes(parts) + next) <==> next != [] && next[0] in {Eof, ReadFailed, Bytes([])}
  {
    if parts == [] {
      assert AllBytes(parts) + next == next;
    } else {
      BridgeGivesAll(parts[1..], next);
      assert (AllBytes(parts) + next)[1..] == AllBytes(parts[1..]) + next;
    }
  }

  lemma BridgeStep(answers: seq<BridgeRead>, i: nat)
    requires i < |answers| && answers[i].Bytes? && answers[i].bytes != []
    ensures BridgeData(answers[i..]) == answers[i].bytes + BridgeData(answers[i + 1..])
    ensures BridgeEnds(answers[i..]) <==> BridgeEnds(answers[i + 1..])
  {
  }

  /** Writes as much of `pending` as the bridge takes. */
  method Flush(pending: seq<Byte>, writes: seq<Write>) returns (rest: seq<Byte>, wrote: seq<Byte>)
    ensures wrote == pending[..Taken(|pending|, writes)]
    ensures rest == pending[Taken(|pending|, writes)..]
  {
    var count, i := 0, 0;
    while pending != [] && i < |writes|
      invariant 0 <= count <= |pending| && i <= |writes|
      invariant pending != [] ==> count < |pending|
      invariant Taken(|pending|, writes) == count + Taken(|pending| - count, writes[i..])
    {
      if writes[i].WriteFailed? || writes[i].count == 0 {
        break;
      }
      count := count + Least(writes[i].count, |pending| - count);
      assert writes[i..][1..] == writes[i + 1..];
      if count == |pending| {
        break;
      }
      i := i + 1;
    }
    rest, wrote := pending[count..], pending[..count];
  }

  /** The receive loop. */
  method Receive(recvs: seq<Recv>) returns (bytes: seq<Byte>)
    ensures bytes == Received(recvs)
  {
    bytes := [];
    var i := 0;
    while i < |recvs|
      invariant i <= |recvs| && bytes + Received(recvs[i..]) == Received(recvs)
    {
      if recvs[i].RecvFailed? || recvs[i].bytes == [] {
        break;
      }
      assert recvs[i..][1..] == recvs[i + 1..];
      bytes := bytes + recvs[i].bytes;
      i := i + 1;
    }
  }

  /** The read loop, and whether it met the end. */
  method ReadUntilBlocked(answers: seq<BridgeRead>) returns (bytes: seq<Byte>, eof: bool)
    ensures bytes == BridgeData(answers) && eof == BridgeEnds(answers)
  {
    bytes, eof := [], false;
    var i := 0;
    while i < |answers|
      invariant i <= |answers| && bytes + BridgeData(answers[i..]) == BridgeData(answers)
      invariant !eof && (BridgeEnds(answers) <==> BridgeEnds(answers[i..]))
    {
      if answers[i].WouldBlock? {
        break;
      }
      if !answers[i].Bytes? || answers[i].bytes == [] {
        eof := true;
        break;
      }
      BridgeStep(answers, i);
      bytes := bytes + answers[i].bytes;
      i := i + 1;
    }
  }

  /** Takes what the socket has. */
  method TakeAll(c: Conn, ghost t: Trace, recvs: seq<Recv>) returns (d: Conn, ghost u: Trace)
    requires Balanced(c, t)
    ensures Balanced(d, u) && t <= u
    ensures (ShutBridge in u <==> ShutBridge in t) && (CloseSocket in u <==> CloseSocket in t) && (ReadEnd in u <==> ReadEnd in t)
    ensures d == c.(toBridge := c.toBridge + Received(recvs))
    ensures TookBytes(u) == TookBytes(t) + Received(recvs)
    ensures WroteBytes(u) == WroteBytes(t) && ReadBytes(u) == ReadBytes(t) && SentBytes(u) == SentBytes(t)
  {
    hide Balanced;
    var bytes := Receive(recvs);
    BalancedTake(c, t, bytes);
    d, u := c.(toBridge := c.toBridge + bytes), Append(t, Took(bytes));
  }

  lemma BalancedTake(c: Conn, t: Trace, bytes: seq<Byte>)
    requires Balanced(c, t)
    ensures Balanced(c.(toBridge := c.toBridge + bytes), Append(t, Took(bytes)))
  {
  }

  lemma BalancedRead(c: Conn, t: Trace, bytes: seq<Byte>)
    requires Balanced(c, t) && !c.bridgeEof
    ensures Balanced(c.(toTcp := c.toTcp + bytes), Append(t, Read(bytes)))
  {
  }

  lemma BalancedWrite(c: Conn, t: Trace, n: nat)
    requires Balanced(c, t) && n <= |c.toBridge|
    ensures Balanced(c.(toBridge := c.toBridge[n..]), Append(t, Wrote(c.toBridge[..n])))
  {
  }

  lemma BalancedSend(c: Conn, t: Trace, n: nat)
    requires Balanced(c, t) && n <= |c.toTcp|
    ensures Balanced(c.(toTcp := c.toTcp[n..]), Append(t, Sent(c.toTcp[..n])))
  {
  }

  lemma BalancedEnd(c: Conn, t: Trace)
    requires Balanced(c, t) && !c.bridgeEof
    ensures Balanced(c.(bridgeEof := true), Append(t, ReadEnd))
  {
  }

  lemma BalancedShut(c: Conn, t: Trace)
    requires Balanced(c, t) && !c.finToBridge && c.toBridge == []
    ensures Balanced(c.(finToBridge := true), Append(t, ShutBridge))
  {
  }

  lemma BalancedClose(c: Conn, t: Trace)
    requires Balanced(c, t) && c.bridgeEof && c.toTcp == []
    ensures Balanced(c, Append(t, CloseSocket))
  {
  }

  /** The connection after moving bytes from the socket to the bridge. */
  function FilledIn(c: Conn, script: Script): Conn {
    var all := c.toBridge + Received(script.recvs);
    var rest := all[Taken(|all|, script.writes)..];
    var ends := c.established && rest == [] && !script.mayRecv && script.recvQueue == 0;
    c.(toBridge := rest, finToBridge := c.finToBridge || ends)
  }

  /** Of what was pending as much moved as there was room for, and only that. */
  ghost predicate Moved(before: nat, now: nat, left: seq<Byte>, room: nat) {
    before <= now <= before + room && (left == [] || now == before + room)
  }

  /** Everything pending is written, as far as the bridge takes it, and the bridge is shut down
      exactly when the peer of an established connection sends no more and nothing is left. */
  ghost predicate WritesOn(d: Conn, t: Trace, u: Trace, script: Script) {
    && Moved(|WroteBytes(t)|, |WroteBytes(u)|, d.toBridge, Room(script.writes))
    && (ShutBridge in u <==>
         ShutBridge in t || (d.established && d.toBridge == [] && !script.mayRecv && script.recvQueue == 0))
  }

  /** Everything that the bridge has is read, until it ends and not after. */
  ghost predicate ReadsOn(t: Trace, u: Trace, script: Script) {
    if ReadEnd in t then ReadEnd in u && ReadBytes(u) == ReadBytes(t)
    else ReadBytes(u) == ReadBytes(t) + BridgeData(script.bridgeReads) && (ReadEnd in u <==> BridgeEnds(script.bridgeReads))
  }

  /** Everything pending is sent, as far as the socket takes it, and the socket is closed
      exactly when the bridge of an established connection ended and nothing is left. */
  ghost predicate SendsOn(d: Conn, t: Trace, u: Trace, script: Script) {
    && (if script.canSend && !script.sendFails then Moved(|SentBytes(t)|, |SentBytes(u)|, d.toTcp, script.accepted)
        else SentBytes(u) == SentBytes(t))
    && (CloseSocket in u <==>
         CloseSocket in t || (d.established && d.bridgeEof && d.toTcp == [] && script.mayStillSend))
  }

  lemma EndsAreRecorded(c: Conn, t: Trace)
    requires Balanced(c, t)
    ensures (c.finToBridge <==> ShutBridge in t) && (c.bridgeEof <==> ReadEnd in t)
  {
  }

  /** Socket to bridge: everything the socket has is taken, as much as the bridge accepts
      is written, and the bridge is shut down exactly when the peer has half-closed an
      established connection and nothing is left to write. */
  method PumpIn(c: Conn, ghost t: Trace, script: Script) returns (d: Conn, ghost u: Trace)
    requires Balanced(c, t)
    ensures Balanced(d, u) && t <= u
    ensures d == FilledIn(c, script) && WritesOn(d, t, u, script)
    ensures (CloseSocket in u <==> CloseSocket in t) && (ReadEnd in u <==> ReadEnd in t)
    ensures TookBytes(u) == TookBytes(t) + Received(script.recvs)
    ensures ReadBytes(u) == ReadBytes(t) && SentBytes(u) == SentBytes(t)
  {
    hide Balanced, Moved, TookBytes, WroteBytes, ReadBytes, SentBytes;
    EndsAreRecorded(c, t);
    d, u := TakeAll(c, t, script.recvs);
    d, u := FlushToBridge(d, u, script.writes);
    if d.established && !d.finToBridge && d.toBridge == [] && !script.mayRecv && script.recvQueue == 0 {
      BalancedShut(d, u);
      d, u := d.(finToBridge := true), Append(u, ShutBridge);
    }
  }

  method FlushToBridge(c: Conn, ghost t: Trace, writes: seq<Write>) returns (d: Conn, ghost u: Trace)
    requires Balanced(c, t)
    ensures Balanced(d, u) && t <= u
    ensures (ShutBridge in u <==> ShutBridge in t) && (CloseSocket in u <==> CloseSocket in t) && (ReadEnd in u <==> ReadEnd in t)
    ensures var n := Taken(|c.toBridge|, writes);
      && d == c.(toBridge := c.toBridge[n..])
      && WroteBytes(u) == WroteBytes(t) + c.toBridge[..n] && Moved(|WroteBytes(t)|, |WroteBytes(u)|, d.toBridge, Room(writes))
      && TookBytes(u) == TookBytes(t) && ReadBytes(u) == ReadBytes(t) && SentBytes(u) == SentBytes(t)
  {
    hide Balanced;
    TakenIsRoom(|c.toBridge|, writes);
    var rest, wrote := Flush(c.toBridge, writes);
    BalancedWrite(c, t, Taken(|c.toBridge|, writes));
    d, u := c.(toBridge := rest), Append(t, Wrote(wrote));
  }

  function Sendable(c: Conn, script: Script): (n: nat)
    ensures n <= |c.toTcp|
  {
    if script.canSend && !script.sendFails then Least(script.accepted, |c.toTcp|) else 0
  }

  method SendToSocket(c: Conn, ghost t: Trace, script: Script) returns (d: Conn, ghost u: Trace)
    requires Balanced(c, t)
    ensures Balanced(d, u) && t <= u
    ensures (ShutBridge in u <==> ShutBridge in t) && (CloseSocket in u <==> CloseSocket in t)
    ensures var n := Sendable(c, script);
      && d == c.(toTcp := c.toTcp[n..])
      && SentBytes(u) == SentBytes(t) + c.toTcp[..n]
      && (script.canSend && !script.sendFails ==> Moved(|SentBytes(t)|, |SentBytes(u)|, d.toTcp, script.accepted))
      && (!script.canSend || script.sendFails ==> SentBytes(u) == SentBytes(t))
      && ReadBytes(u) == ReadBytes(t) && TookBytes(u) == TookBytes(t) && WroteBytes(u) == WroteBytes(t)
  {
    hide Balanced;
    var n := Sendable(c, script);
    if script.canSend && c.toTcp != [] && !script.sendFails {
      BalancedSend(c, t, n);
      d, u := c.(toTcp := c.toTcp[n..]), Append(t, Sent(c.toTcp[..n]));
    } else {
      assert c.toTcp[0..] == c.toTcp && SentBytes(t) + [] == SentBytes(t);
      d, u := c, t;
    }
  }

  function Arrived(c: Conn, script: Script): seq<Byte> {
    if c.bridgeEof then [] else BridgeData(script.bridgeReads)
  }

  /** The connection after moving bytes from the bridge to the socket. */
  function SentOut(c: Conn, script: Script): Conn {
    var all := c.toTcp + Arrived(c, script);
    c.(toTcp := all[Sendable(c.(toTcp := all), script)..], bridgeEof := c.bridgeEof || BridgeEnds(script.bridgeReads))
  }

  /** Bridge to socket: what the bridge has is read until it ends, as much as the socket
      accepts is sent, and the socket is closed exactly when the bridge of an established
      connection ended and nothing is left to send. */
  method PumpOut(c: Conn, ghost t: Trace, script: Script) returns (d: Conn, ghost u: Trace)
    requires Balanced(c, t)
    ensures Balanced(d, u) && t <= u
    ensures d == SentOut(c, script) && SendsOn(d, t, u, script) && ReadsOn(t, u, script)
    ensures ShutBridge in u <==> ShutBridge in t
    ensures ReadBytes(u) == ReadBytes(t) + Arrived(c, script)
    ensures TookBytes(u) == TookBytes(t) && WroteBytes(u) == WroteBytes(t)
  {
    hide Balanced, Moved, TookBytes, WroteBytes, ReadBytes, SentBytes;
    EndsAreRecorded(c, t);
    d, u := ReadFromBridge(c, t, script.bridgeReads);
    d, u := SendToSocket(d, u, script);
    if d.established && d.bridgeEof && d.toTcp == [] && script.mayStillSend {
      BalancedClose(d, u);
      u := Append(u, CloseSocket);
    }
    EndsAreRecorded(d, u);
  }

  method ReadFromBridge(c: Conn, ghost t: Trace, answers: seq<BridgeRead>) returns (d: Conn, ghost u: Trace)
    requires Balanced(c, t)
    ensures Balanced(d, u) && t <= u
    ensures (ShutBridge in u <==> ShutBridge in t) && (CloseSocket in u <==> CloseSocket in t)
    ensures var arrived := if c.bridgeEof then [] else BridgeData(answers);
      && d == c.(toTcp := c.toTcp + arrived, bridgeEof := c.bridgeEof || BridgeEnds(answers))
      && ReadBytes(u) == ReadBytes(t) + arrived
      && TookBytes(u) == TookBytes(t) && WroteBytes(u) == WroteBytes(t) && SentBytes(u) == SentBytes(t)
  {
    hide Balanced;
    d, u := c, t;
    if c.bridgeEof {
      assert c.toTcp + [] == c.toTcp && ReadBytes(t) + [] == ReadBytes(t);
    } else {
      var bytes, eof := ReadUntilBlocked(answers);
      BalancedRead(c, t, bytes);
      d, u := c.(toTcp := c.toTcp + bytes), Append(t, Read(bytes));
      if eof {
        BalancedEnd(d, u);
        d, u := d.(bridgeEof := true), Append(u, ReadEnd);
      }
    }
  }

  /** The connection after one pass over it. */
  function Through(c: Conn, script: Script): Conn {
    SentOut(FilledIn(c.(established := c.established || script.maySend), script), script)
  }

  /** Everything that the socket and the bridge had was taken. */
  ghost predicate Carried(c: Conn, t: Trace, u: Trace, script: Script) {
    TookBytes(u) == TookBytes(t) + Received(script.recvs) && ReadBytes(u) == ReadBytes(t) + Arrived(c, script)
  }

  /** One pass over one connection. It is given up exactly when its socket is closed and
      nothing taken from the socket is left unwritten. */
  method Pump(c: Conn, ghost t: Trace, script: Script) returns (d: Conn, ghost u: Trace, remove: bool)
    requires Balanced(c, t)
    ensures Balanced(d, u) && t <= u
    ensures d == Through(c, script) && Carried(c, t, u, script)
    ensures d.established == (c.established || script.maySend) && WritesOn(d, t, u, script) && SendsOn(d, t, u, script)
    ensures ReadsOn(t, u, script) && TookBytes(u) == TookBytes(t) + Received(script.recvs)
    ensures remove <==> script.closed && d.toBridge == []
    ensures remove <==> script.closed && TookBytes(u) == WroteBytes(u)
  {
    d := if script.maySend then c.(established := true) else c;
    d, u := PumpIn(d, t, script);
    d, u := PumpOut(d, u, script);
    remove := script.closed && d.toBridge == [];
  }

  const FRESH := Conn([], [], false, false, false)

}
