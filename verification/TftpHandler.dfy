/** One read request from arrival to the end of its transfer. */
module TftpHandler {
  import opened Common
  import opened TftpWire
  import opened IntText
  import opened TftpServer
  import opened TftpOptions

  /** BadOption: int() raised on the blksize value, which nothing catches. */
  datatype Result = NotFound | BadOption | Ended(outcome: Outcome)

  function ErrorPacket(code: nat, message: string): (r: Packet)
    requires code < BLOCK_SPACE && IsText(message)
    ensures r == [0, 5, code / 256, code % 256] + Encode(message) + [0]
  {
    U16(ERROR) + U16(code) + Encode(message) + [0]
  }

  function Distance(x: int, y: int): nat {
    if x <= y then y - x else x - y
  }

  /** The legal block size nearest to the one asked for, or else the default. */
  ghost predicate NearestBlksize(opts: map<string, string>, blksize: nat) {
    && 8 <= blksize <= 65464
    && ("blksize" !in opts ==> blksize == DEFAULT_BLKSIZE)
    && ("blksize" in opts ==> IntValue(opts["blksize"]).Some?)
    && ("blksize" in opts ==>
          var asked := IntValue(opts["blksize"]).value;
          forall b :: 8 <= b <= 65464 ==> Distance(asked, blksize) <= Distance(asked, b))
  }

  /** The answers for blksize and tsize read back as what the transfer uses. The one
      for timeout is the request's own text, which is the transfer's wait exactly
      when the request happened to ask for five seconds. */
  predicate GoodAnswer(opts: map<string, string>, size: nat, a: Agreement, k: string, v: string) {
    match k
    case "blksize" => IntValue(v) == Some(a.blksize)
    case "tsize" => IntValue(v) == Some(size)
    case _ => k in opts && v == opts[k] && (IntValue(v) == Some(a.wait) <==> IntValue(opts[k]) == Some(5))
  }

  /** What an agreement comes to: one answer for each option that was asked for and
      is known. */
  ghost predicate Answers(opts: map<string, string>, size: nat, a: Agreement) {
    && NearestBlksize(opts, a.blksize) && a.wait == WAIT
    && (forall k :: (exists i :: 0 <= i < |a.accepted| && a.accepted[i].0 == k)
                    <==> k in opts && k in {"blksize", "tsize", "timeout"})
    && (forall i, j :: 0 <= i < j < |a.accepted| ==> a.accepted[i].0 != a.accepted[j].0)
    && (forall i :: 0 <= i < |a.accepted| ==>
          GoodAnswer(opts, size, a, a.accepted[i].0, a.accepted[i].1))
  }

  lemma AnswersAreGood(opts: map<string, string>, size: nat, i: nat)
    requires Negotiate(opts, size).Some? && i < |Negotiate(opts, size).value.accepted|
    ensures var a := Negotiate(opts, size).value;
            GoodAnswer(opts, size, a, a.accepted[i].0, a.accepted[i].1)
  {
    DecimalRoundTrip(Negotiate(opts, size).value.blksize);
    DecimalRoundTrip(size);
  }

  lemma AcceptedOnce(opts: map<string, string>, size: nat)
    requires Negotiate(opts, size).Some?
    ensures var list := Negotiate(opts, size).value.accepted;
            forall i, j :: 0 <= i < j < |list| ==> list[i].0 != list[j].0
  {
  }

  lemma NegotiationAnswers(opts: map<string, string>, size: nat)
    requires Negotiate(opts, size).Some?
    ensures Answers(opts, size, Negotiate(opts, size).value)
  {
    var a := Negotiate(opts, size).value;
    assert NearestBlksize(opts, a.blksize);
    AcceptedOnce(opts, size);
    forall k ensures (exists i :: 0 <= i < |a.accepted| && a.accepted[i].0 == k)
                     <==> k in opts && k in {"blksize", "tsize", "timeout"} {
      AcceptedKeys(opts, size, k);
    }
    forall i | 0 <= i < |a.accepted|
      ensures GoodAnswer(opts, size, a, a.accepted[i].0, a.accepted[i].1)
    {
      AnswersAreGood(opts, size, i);
    }
  }

  /** ack_opts and the block size, built option by option. */
  method Agree(opts: map<string, string>, size: nat) returns (a: Option<Agreement>)
    ensures a == Negotiate(opts, size)
    ensures a.None? <==> "blksize" in opts && !IsIntText(opts["blksize"])
    ensures a.Some? ==> Answers(opts, size, a.value)
  {
    var blksize := DEFAULT_BLKSIZE;
    var ackOpts: Options := [];
    if "blksize" in opts {
      var v := IntValue(opts["blksize"]);
      IntIff(opts["blksize"]);
      if v.None? {
        return None;
      }
      blksize := ClampBlksize(v.value);
      ackOpts := ackOpts + [("blksize", Decimal(blksize))];
    }
    if "tsize" in opts {
      ackOpts := ackOpts + [("tsize", Decimal(size))];
    }
    if "timeout" in opts {
      ackOpts := ackOpts + [("timeout", opts["timeout"])];
    }
    assert ackOpts == (if "blksize" in opts then [("blksize", Decimal(blksize))] else [])
                    + (if "tsize" in opts then [("tsize", Decimal(size))] else [])
                    + (if "timeout" in opts then [("timeout", opts["timeout"])] else []);
    NegotiationAnswers(opts, size);
    return Some(Agreement(blksize, WAIT, ackOpts));
  }

  lemma OneMoreOption(pkt: Packet, list: Options, i: nat)
    requires WellFormed(list) && i < |list|
    ensures pkt + EncodeOptions(list[i..])
         == pkt + Encode(list[i].0) + [0] + Encode(list[i].1) + [0] + EncodeOptions(list[i + 1..])
  {
    var k, v, rest := Encode(list[i].0), Encode(list[i].1), EncodeOptions(list[i + 1..]);
    assert list[i..][1..] == list[i + 1..];
    assert pkt + (k + [0] + (v + [0] + rest)) == pkt + k + [0] + v + [0] + rest;
  }

  method BuildOack(a: Agreement) returns (oack: Option<Packet>)
    requires WellFormed(a.accepted)
    ensures oack == OackOf(a)
  {
    if a.accepted == [] {
      return None;
    }
    var pkt := U16(OACK);
    for i := 0 to |a.accepted|
      invariant pkt + EncodeOptions(a.accepted[i..]) == OackOf(a).value
    {
      var (k, v) := a.accepted[i];
      OneMoreOption(pkt, a.accepted, i);
      pkt := pkt + Encode(k) + [0] + Encode(v) + [0];
    }
    assert pkt + EncodeOptions(a.accepted[|a.accepted|..]) == pkt;
    return Some(pkt);
  }

  method Handle(files: map<string, seq<byte>>, payload: Packet, sock: UdpSocket, xfer: UdpSocket)
    returns (result: Result)
    requires sock != xfer
    modifies sock, xfer
    ensures Parsed(payload).filename in files ==> xfer.wait == Some(WAIT)
    ensures result == BadOption <==>
            var request := Parsed(payload);
            request.filename in files && "blksize" in request.opts && !IsIntText(request.opts["blksize"])
    ensures var request := Parsed(payload);
            if request.filename !in files then
              && result == NotFound
              && sock.outbox == old(sock.outbox) + [ErrorPacket(1, "File not found")]
              && xfer.outbox == old(xfer.outbox)
            else
              var file := files[request.filename];
              var a := Negotiate(request.opts, |file|);
              && sock.outbox == old(sock.outbox)
              && (a.None? ==> result == BadOption && xfer.outbox == old(xfer.outbox))
              && (a.Some? ==>
                    WellFormed(a.value.accepted) &&
                    var (end, sent) := Session(Config(file, a.value.blksize), OackOf(a.value), old(xfer.inbox));
                    result == Ended(end.outcome) && xfer.outbox == old(xfer.outbox) + sent)
  {
    var filename, _, opts := ParseRequest(payload);
    if filename !in files {
      sock.SendTo(ErrorPacket(1, "File not found"));
      return NotFound;
    }
    var file := files[filename];
    xfer.SetTimeout(WAIT);
    var a := Agree(opts, |file|);
    if a.None? {
      return BadOption;
    }
    AcceptedIsWellFormed(payload, |file|);
    var oack := BuildOack(a.value);
    var outcome := Transfer(Config(file, a.value.blksize), oack, xfer);
    return Ended(outcome);
  }
}
