/** The server's loops seen from inside a run of the whole system. */
module TftpLink {
  import opened Common
  import opened TftpWire
  import opened TftpServer
  import opened TftpNetwork
  import opened TftpSafety
  import opened TftpOptions

  /** What the server's receive calls return in the course of a run. */
  function Heard(cfg: Config, oack: Option<Packet>, events: seq<Event>): seq<Received> {
    if events == [] then []
    else
      var before, e := events[..|events| - 1], events[|events| - 1];
      var n := Exec(cfg, oack, before);
      Heard(cfg, oack, before) +
      if !Enabled(n, e) then []
      else if e.ToServer? then [Datagram(n.acks[e.i].wire)]
      else if e.Expire? then [Timeout]
      else []
  }

  function Wires(s: seq<InFlight>): (r: seq<Packet>)
    ensures |r| == |s|
  {
    seq(|s|, i requires 0 <= i < |s| => s[i].wire)
  }

  /** What the server has put on the DATA channel in the course of a run. */
  function Sent(cfg: Config, oack: Option<Packet>, events: seq<Event>): seq<Packet> {
    if events == [] then Wires(Init(cfg, oack).data)
    else
      var before, e := events[..|events| - 1], events[|events| - 1];
      var n := Exec(cfg, oack, before);
      Sent(cfg, oack, before) +
      if Enabled(n, e) && (e.ToServer? || e.Expire?) then Wires(NewData(n, Next(cfg, n, e))) else []
  }

  function NewData(n: Net, n': Net): seq<InFlight> {
    if |n.data| <= |n'.data| then n'.data[|n.data|..] else []
  }

  lemma WiresOfTag(block: nat, out: seq<Packet>)
    ensures Wires(Tag(block, out)) == out
  {
  }

  lemma ServerAppends(cfg: Config, n: Net, r: Received)
    requires n.server.Valid() && !n.server.Stopped?
    ensures Wires(NewData(n, ServerHears(cfg, n, r))) == OnReceive(cfg, n.server, r).1
  {
    var (s, out) := OnReceive(cfg, n.server, r);
    assert (n.data + Tag(s.Top(), out))[|n.data|..] == Tag(s.Top(), out);
    WiresOfTag(s.Top(), out);
  }

  /** The server after a script of answers, however far that takes it, and what it
      has sent because of them. */
  function After(cfg: Config, s: Server, script: seq<Received>): (r: (Server, seq<Packet>))
    requires s.Valid()
    ensures r.0.Valid()
    decreases |script|
  {
    if s.Stopped? || script == [] then (s, [])
    else
      var (s', sent) := OnReceive(cfg, s, script[0]);
      var (end, more) := After(cfg, s', script[1..]);
      (end, sent + more)
  }

  /** One more answer, if the server is still there to take it. */
  function OneMoreAnswer(cfg: Config, before: (Server, seq<Packet>), r: Received): (Server, seq<Packet>)
    requires before.0.Valid()
  {
    if before.0.Stopped? then before
    else (OnReceive(cfg, before.0, r).0, before.1 + OnReceive(cfg, before.0, r).1)
  }

  lemma AfterOne(cfg: Config, s: Server, r: Received)
    requires s.Valid() && !s.Stopped?
    ensures After(cfg, s, [r]) == OnReceive(cfg, s, r)
  {
    var (s', sent) := OnReceive(cfg, s, r);
    assert [r][1..] == [] && After(cfg, s', []) == (s', []);
    assert sent + [] == sent;
  }

  lemma AfterCons(cfg: Config, s: Server, r: Received, script: seq<Received>)
    requires s.Valid() && !s.Stopped?
    ensures var (s', sent) := OnReceive(cfg, s, r);
            var (end, more) := After(cfg, s', script);
            After(cfg, s, [r] + script) == (end, sent + more)
  {
    assert ([r] + script)[1..] == script;
  }

  lemma {:induction false} AfterSnoc(cfg: Config, s: Server, script: seq<Received>, r: Received)
    requires s.Valid()
    ensures After(cfg, s, script + [r]) == OneMoreAnswer(cfg, After(cfg, s, script), r)
    decreases |script|
  {
    if s.Stopped? {
      assert After(cfg, s, script) == (s, []);
    } else if script == [] {
      AfterOne(cfg, s, r);
      assert [] + [r] == [r];
      assert [] + OnReceive(cfg, s, r).1 == OnReceive(cfg, s, r).1;
    } else {
      var (s', sent) := OnReceive(cfg, s, script[0]);
      var (end, more) := After(cfg, s', script[1..]);
      AfterSnoc(cfg, s', script[1..], r);
      AfterCons(cfg, s, script[0], script[1..]);
      AfterCons(cfg, s, script[0], script[1..] + [r]);
      assert [script[0]] + script[1..] == script;
      assert [script[0]] + (script[1..] + [r]) == script + [r];
      if !end.Stopped? {
        Regroup(sent, more, OnReceive(cfg, end, r).1);
      }
    }
  }

  lemma {:induction false} DriveEndsThere(cfg: Config, s: Server, script: seq<Received>)
    requires cfg.Valid() && s.Valid() && After(cfg, s, script).0.Stopped?
    ensures Drive(cfg, s, script) == After(cfg, s, script)
    decreases |script|
  {
    if !s.Stopped? {
      ClippingIsHarmless(cfg, s, script);
      DriveEndsThere(cfg, OnReceive(cfg, s, script[0]).0, script[1..]);
    }
  }

  /** Server and packets of a run are those of the step function on what the server
      heard in it. */
  ghost predicate IsScript(cfg: Config, oack: Option<Packet>, events: seq<Event>) {
    var (s, first) := Start(cfg, oack);
    var (end, more) := After(cfg, s, Heard(cfg, oack, events));
    Exec(cfg, oack, events).server == end && Sent(cfg, oack, events) == first + more
  }

  /** The event is one that the server hears, as r. */
  ghost predicate Hears(n: Net, e: Event, r: Received) {
    Enabled(n, e) && ((e == Expire && r == Timeout) || (e.ToServer? && r == Datagram(n.acks[e.i].wire)))
  }

  lemma HearingIsReceiving(cfg: Config, n: Net, e: Event, r: Received)
    requires n.server.Valid() && Hears(n, e, r)
    ensures var n' := Next(cfg, n, e); (n'.server, Wires(NewData(n, n'))) == OnReceive(cfg, n.server, r)
  {
    ServerAppends(cfg, n, r);
    assert NewData(n, Next(cfg, n, e)) == NewData(n, ServerHears(cfg, n, r));
  }

  lemma HeardOneMore(cfg: Config, oack: Option<Packet>, before: seq<Event>, e: Event, r: Received)
    requires Hears(Exec(cfg, oack, before), e, r)
    ensures Heard(cfg, oack, before + [e]) == Heard(cfg, oack, before) + [r]
    ensures var now := OnReceive(cfg, Exec(cfg, oack, before).server, r);
            && Exec(cfg, oack, before + [e]).server == now.0
            && Sent(cfg, oack, before + [e]) == Sent(cfg, oack, before) + now.1
  {
    assert (before + [e])[..|before + [e]| - 1] == before;
    HearingIsReceiving(cfg, Exec(cfg, oack, before), e, r);
  }

  lemma Regroup(a: seq<Packet>, b: seq<Packet>, c: seq<Packet>)
    ensures (a + b) + c == a + (b + c)
  {
  }

  lemma ScriptOneMore(cfg: Config, oack: Option<Packet>, before: seq<Event>, e: Event, r: Received)
    requires IsScript(cfg, oack, before) && Hears(Exec(cfg, oack, before), e, r)
    ensures IsScript(cfg, oack, before + [e])
  {
    var (s, first) := Start(cfg, oack);
    var (end, more) := After(cfg, s, Heard(cfg, oack, before));
    HeardOneMore(cfg, oack, before, e, r);
    AfterSnoc(cfg, s, Heard(cfg, oack, before), r);
    Regroup(first, more, OnReceive(cfg, end, r).1);
  }

  lemma {:induction false} RunIsScript(cfg: Config, oack: Option<Packet>, events: seq<Event>)
    ensures IsScript(cfg, oack, events)
  {
    if events == [] {
      WiresOfTag(Start(cfg, oack).0.Top(), Start(cfg, oack).1);
    } else {
      var before, e := events[..|events| - 1], events[|events| - 1];
      RunIsScript(cfg, oack, before);
      var n := Exec(cfg, oack, before);
      assert before + [e] == events;
      if Enabled(n, e) && e.ToServer? {
        ScriptOneMore(cfg, oack, before, e, Datagram(n.acks[e.i].wire));
      } else if Enabled(n, e) && e.Expire? {
        ScriptOneMore(cfg, oack, before, e, Timeout);
      } else {
        assert Heard(cfg, oack, before) + [] == Heard(cfg, oack, before);
      }
    }
  }

  /** A run of the system in which the server has stopped is a run of its loops on
      what it heard: the same end, and the same packets on the wire. */
  lemma LoopsRefineRuns(cfg: Config, oack: Option<Packet>, events: seq<Event>)
    requires cfg.Valid() && Exec(cfg, oack, events).server.Stopped?
    ensures Session(cfg, oack, Heard(cfg, oack, events)) == (Exec(cfg, oack, events).server, Sent(cfg, oack, events))
  {
    RunIsScript(cfg, oack, events);
    DriveEndsThere(cfg, Start(cfg, oack).0, Heard(cfg, oack, events));
  }

  /** So when the loops report Done after an in-order run, the client on the other
      side has the whole file. */
  lemma DoneMeansDelivered(cfg: Config, oack: Option<Packet>, events: seq<Event>)
    requires cfg.Valid() && ValidOack(oack) && AllInOrder(events)
    requires Exec(cfg, oack, events).server.Stopped?
    requires Session(cfg, oack, Heard(cfg, oack, events)).0.outcome.Done?
    ensures Exec(cfg, oack, events).client.got == cfg.file && Exec(cfg, oack, events).client.done
  {
    LoopsRefineRuns(cfg, oack, events);
    FifoSafety(cfg, oack, events);
  }

  /** The exception that ends more than the transfer: unpacking a datagram that is
      too short for its header. */
  predicate TooShort(s: Server, r: Received) {
    r.Datagram? && |r.bytes| < if s.AwaitOack? then 2 else 4
  }

  /** A session ends in that exception exactly when some answer that reaches the
      server is too short, in the OACK phase below two bytes and later below four. */
  lemma MalformedIff(cfg: Config, oack: Option<Packet>, script: seq<Received>)
    requires cfg.Valid()
    ensures Session(cfg, oack, script).0.outcome.Malformed? <==>
            exists k :: 0 <= k < |script| &&
              var s := After(cfg, Start(cfg, oack).0, script[..k]).0; !s.Stopped? && TooShort(s, script[k])
  {
    DriveMalformed(cfg, Start(cfg, oack).0, script);
  }

  ghost predicate MeetsShort(cfg: Config, s: Server, script: seq<Received>)
    requires s.Valid()
  {
    exists k :: 0 <= k < |script| && var s' := After(cfg, s, script[..k]).0; !s'.Stopped? && TooShort(s', script[k])
  }

  lemma MeetsShortNow(cfg: Config, s: Server, script: seq<Received>)
    requires s.Valid() && !s.Stopped? && script != []
    ensures MeetsShort(cfg, s, script) <==>
            TooShort(s, script[0]) || MeetsShort(cfg, OnReceive(cfg, s, script[0]).0, script[1..])
  {
    var s' := OnReceive(cfg, s, script[0]).0;
    forall k | 0 <= k < |script| - 1
      ensures After(cfg, s, script[..k + 1]).0 == After(cfg, s', script[1..][..k]).0
    {
      assert script[..k + 1][1..] == script[1..][..k];
    }
    if MeetsShort(cfg, s, script) {
      var k :| 0 <= k < |script| && !After(cfg, s, script[..k]).0.Stopped?
               && TooShort(After(cfg, s, script[..k]).0, script[k]);
      if k != 0 {
        assert script[k] == script[1..][k - 1];
        assert script[..k] == script[..(k - 1) + 1];
      }
    }
    if TooShort(s, script[0]) {
      assert After(cfg, s, script[..0]).0 == s;
    }
    if MeetsShort(cfg, s', script[1..]) {
      var k :| 0 <= k < |script[1..]| && !After(cfg, s', script[1..][..k]).0.Stopped?
               && TooShort(After(cfg, s', script[1..][..k]).0, script[1..][k]);
      assert script[k + 1] == script[1..][k];
    }
  }

  lemma SilenceIsNotMalformed(cfg: Config, s: Server)
    requires cfg.Valid() && s.Valid() && !s.Stopped?
    ensures !Drive(cfg, s, []).0.outcome.Malformed?
    decreases if s.Sending? then 5 - s.tries else 0
  {
    if s.Sending? && s.tries < 5 {
      SilenceIsNotMalformed(cfg, OnReceive(cfg, s, Timeout).0);
    }
  }

  lemma {:induction false} DriveMalformed(cfg: Config, s: Server, script: seq<Received>)
    requires cfg.Valid() && s.Valid() && (s.Stopped? ==> !s.outcome.Malformed?)
    ensures Drive(cfg, s, script).0.outcome.Malformed? <==> MeetsShort(cfg, s, script)
    decreases |script|
  {
    if s.Stopped? {
      forall k | 0 <= k < |script| ensures After(cfg, s, script[..k]).0.Stopped? {
      }
    } else if script == [] {
      SilenceIsNotMalformed(cfg, s);
    } else {
      ClippingIsHarmless(cfg, s, script);
      MeetsShortNow(cfg, s, script);
      var s' := OnReceive(cfg, s, script[0]).0;
      if TooShort(s, script[0]) {
        assert s'.outcome.Malformed?;
      } else {
        DriveMalformed(cfg, s', script[1..]);
      }
    }
  }

  lemma NegotiatedOackIsValid(a: Agreement)
    requires WellFormed(a.accepted)
    ensures ValidOack(OackOf(a))
  {
    if a.accepted != [] {
      EncodeGrows(a.accepted[0].0);
    }
  }

  /** From the request to the last byte: whatever options a request carries, if the
      server agrees to it then both ends use the same block size, and a transfer
      that the loops report as done over an in-order network has put the whole
      file into the client's hands. */
  lemma RequestIsServed(payload: Packet, file: seq<byte>, events: seq<Event>)
    requires Negotiate(Parsed(payload).opts, |file|).Some? && AllInOrder(events)
    ensures var a := Negotiate(Parsed(payload).opts, |file|).value;
            var cfg := Config(file, a.blksize);
            && WellFormed(a.accepted)
            && var oack := OackOf(a);
               var n := Exec(cfg, oack, events);
               && ClientBlksize(oack) == Some(cfg.blksize)
               && n.client.got <= file
               && (n.server.Stopped? && Session(cfg, oack, Heard(cfg, oack, events)).0.outcome.Done? ==>
                     n.client.got == file && n.client.done)
  {
    BlksizeAgreed(payload, |file|);
    var a := Negotiate(Parsed(payload).opts, |file|).value;
    var cfg := Config(file, a.blksize);
    NegotiatedOackIsValid(a);
    var oack := OackOf(a);
    FifoSafety(cfg, oack, events);
    if Exec(cfg, oack, events).server.Stopped? && Session(cfg, oack, Heard(cfg, oack, events)).0.outcome.Done? {
      DoneMeansDelivered(cfg, oack, events);
    }
  }
}
