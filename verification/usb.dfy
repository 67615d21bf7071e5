/** Reassembling one device answer from bulk transfers (crates/elanprint-usb/src/lib.rs). */
module Usb {
  import opened Core

  const MAX_PACKET: nat := 64

  /** How one posted transfer ends: cancelled, still pending at the deadline, broken, or with data. */
  datatype Ending = Cancelled | Pending | Broken | Arrived(data: seq<byte>)

  /** One turn of the loop; `expired` is the deadline test made before anything is posted. */
  datatype Turn = Turn(expired: bool, ending: Ending)

  datatype RecvError = Timeout | Interrupted | TransferFailed | ShortRead(wanted: nat, got: nat, data: seq<byte>)

  type Received = Result<seq<byte>, RecvError>

  function NextMultiple(n: nat): (m: nat)
    ensures m % MAX_PACKET == 0 && n <= m < n + MAX_PACKET
  {
    if n % MAX_PACKET == 0 then n else n + (MAX_PACKET - n % MAX_PACKET)
  }

  lemma NextMultipleIsLeast(n: nat, m: nat)
    requires n <= m && m % MAX_PACKET == 0
    ensures NextMultiple(n) <= m
  {
    var least := NextMultiple(n);
    assert least == MAX_PACKET * (least / MAX_PACKET) && m == MAX_PACKET * (m / MAX_PACKET);
  }

  /** What one transfer that was posted for `len` bytes amounts to. */
  function Verdict(len: nat, ending: Ending): Received {
    match ending
    case Cancelled => Failure(Interrupted)
    case Pending => Failure(Timeout)
    case Broken => Failure(TransferFailed)
    case Arrived(data) =>
      if |data| < len then Failure(ShortRead(len, |data|, data)) else Success(data[..len])
  }

  /** An exhausted script means the deadline has passed. */
  method Recv(len: nat, script: seq<Turn>) returns (r: Received, posted: seq<nat>)
    ensures len == 0 ==> r == Success([]) && posted == []
    ensures len > 0 && (script == [] || script[0].expired) ==> r == Failure(Timeout) && posted == []
    ensures len > 0 && script != [] && !script[0].expired ==>
              && posted == [NextMultiple(len)] && r == Verdict(len, script[0].ending)
              && (r == Failure(Interrupted) <==> script[0].ending == Cancelled)
              && (r == Failure(Timeout) <==> script[0].ending == Pending)
              && (r == Failure(TransferFailed) <==> script[0].ending == Broken)
              && (r.Success? <==> script[0].ending.Arrived? && |script[0].ending.data| >= len)
              && (r.Success? ==> |r.value| == len && r.value <= script[0].ending.data)
              && (script[0].ending.Arrived? && |script[0].ending.data| < len ==>
                    r == Failure(ShortRead(len, |script[0].ending.data|, script[0].ending.data)))
  {
    var buf: seq<byte> := [];
    posted := [];
    var turn := 0;
    while |buf| < len
      invariant turn <= |script|
      invariant |buf| < len ==> turn == 0 && buf == [] && posted == []
      invariant |buf| >= len > 0 ==>
                  script != [] && script[0] == Turn(false, Arrived(buf)) && posted == [NextMultiple(len)]
      invariant len == 0 ==> buf == [] && posted == []
      decreases |script| - turn
    {
      if turn == |script| || script[turn].expired {
        return Failure(Timeout), posted;
      }
      var want := NextMultiple(len - |buf|);
      posted := posted + [want];
      var ending := script[turn].ending;
      turn := turn + 1;
      if ending.Cancelled? {
        return Failure(Interrupted), posted;
      }
      if ending.Pending? {
        return Failure(Timeout), posted;
      }
      if ending.Broken? {
        return Failure(TransferFailed), posted;
      }
      var endedEarly := |ending.data| < want;
      assert buf + ending.data == ending.data;
      buf := buf + ending.data;
      if |buf| < len && endedEarly {
        return Failure(ShortRead(len, |buf|, buf)), posted;
      }
    }
    assert |buf| == len ==> buf[..len] == buf;
    if |buf| > len {
      buf := buf[..len];
    }
    r := Success(buf);
  }

  // ---------- what the bus delivers (section 5.8.3 of the USB 2.0 specification) ----------

  /** The packets of an endpoint: a short packet ends a message, an unended message is still coming. */
  predicate Packets(ps: seq<seq<byte>>) {
    forall p :: p in ps ==> |p| <= MAX_PACKET
  }

  predicate MessageEnded(ps: seq<seq<byte>>) {
    ps != [] && (|ps[0]| < MAX_PACKET || MessageEnded(ps[1..]))
  }

  function Message(ps: seq<seq<byte>>): seq<byte> {
    if ps == [] then []
    else if |ps[0]| < MAX_PACKET then ps[0]
    else ps[0] + Message(ps[1..])
  }

  /** A bulk IN transfer takes packets until the request is filled or a short packet arrives. */
  function BulkIn(ps: seq<seq<byte>>, want: nat): Option<seq<byte>>
    requires Packets(ps)
    decreases |ps|
  {
    if want == 0 then Some([])
    else if ps == [] then None
    else if |ps[0]| < MAX_PACKET || want <= MAX_PACKET then Some(ps[0])
    else
      match BulkIn(ps[1..], want - MAX_PACKET)
      case None => None
      case Some(rest) => Some(ps[0] + rest)
  }

  function EndingOf(ps: seq<seq<byte>>, want: nat): Ending
    requires Packets(ps)
  {
    match BulkIn(ps, want)
    case None => Pending
    case Some(data) => Arrived(data)
  }

  lemma {:induction false} BulkInTakesAPrefix(ps: seq<seq<byte>>, want: nat)
    requires Packets(ps) && want % MAX_PACKET == 0
    ensures |Message(ps)| >= want ==> BulkIn(ps, want) == Some(Message(ps)[..want])
    ensures |Message(ps)| < want ==> BulkIn(ps, want) == if MessageEnded(ps) then Some(Message(ps)) else None
    decreases |ps|
  {
    if want > 0 && ps != [] && |ps[0]| == MAX_PACKET {
      assert want >= MAX_PACKET;
      var rest := Message(ps[1..]);
      BulkInTakesAPrefix(ps[1..], want - MAX_PACKET);
      if |rest| >= want - MAX_PACKET {
        assert (ps[0] + rest)[..want] == ps[0] + rest[..want - MAX_PACKET];
      }
    }
  }

  lemma {:induction false} UnendedIsWholePackets(ps: seq<seq<byte>>)
    requires Packets(ps) && !MessageEnded(ps)
    ensures |Message(ps)| == MAX_PACKET * |ps|
  {
    if ps != [] {
      UnendedIsWholePackets(ps[1..]);
    }
  }

  /**
   * Against any stream of packets the read succeeds exactly when the message has `len` bytes, and returns its
   * first `len`; otherwise it is a short read of the whole message if that has ended, and a timeout if not.
   */
  lemma RecvReadsOneMessage(len: nat, ps: seq<seq<byte>>)
    requires Packets(ps) && len > 0
    ensures
      var message, r := Message(ps), Verdict(len, EndingOf(ps, NextMultiple(len)));
      && (r.Success? <==> |message| >= len)
      && (r.Success? ==> r.value == message[..len])
      && (r.Failure? && MessageEnded(ps) ==> r.error == ShortRead(len, |message|, message))
      && (r.Failure? && !MessageEnded(ps) ==> r.error == Timeout)
  {
    var message, want := Message(ps), NextMultiple(len);
    BulkInTakesAPrefix(ps, want);
    if !MessageEnded(ps) {
      UnendedIsWholePackets(ps);
    }
    if !MessageEnded(ps) && len <= |message| {
      NextMultipleIsLeast(len, |message|);
    }
    if |message| >= want {
      assert message[..want][..len] == message[..len];
    }
  }
}
