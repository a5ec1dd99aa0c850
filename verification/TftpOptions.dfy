/** Read requests, their options (RFC 2347), and what the server agrees to. */
module TftpOptions {
  import opened Common
  import opened TftpWire
  import opened IntText

  /** bytes.split(b"\0"): always at least one field. */
  function Split(p: Packet): (r: seq<Packet>)
    ensures 1 <= |r|
  {
    if p == [] then [[]]
    else
      var r := Split(p[1..]);
      if p[0] == 0 then [[]] + r else [[p[0]] + r[0]] + r[1..]
  }

  predicate NulFree(p: Packet) {
    forall i :: 0 <= i < |p| ==> p[i] != 0
  }

  lemma {:induction false} SplitField(field: Packet, rest: Packet)
    requires NulFree(field)
    ensures Split(field + [0] + rest) == [field] + Split(rest)
  {
    var p := field + [0] + rest;
    if field == [] {
      assert p[1..] == rest;
    } else {
      assert p[1..] == field[1..] + [0] + rest;
      SplitField(field[1..], rest);
      var r := Split(p[1..]);
      assert r == [field[1..]] + Split(rest);
      assert [p[0]] + field[1..] == field;
    }
  }

  lemma SplitTwoFields(a: Packet, b: Packet, rest: Packet)
    requires NulFree(a) && NulFree(b)
    ensures Split(a + [0] + (b + [0] + rest)) == [a, b] + Split(rest)
  {
    SplitField(a, b + [0] + rest);
    SplitField(b, rest);
    assert [a] + ([b] + Split(rest)) == [a, b] + Split(rest);
  }

  const REPLACEMENT := '\U{FFFD}'

  /** decode("ascii", "replace") */
  function Ascii(p: Packet): (s: string)
    ensures |s| == |p|
  {
    seq(|p|, i requires 0 <= i < |p| => if p[i] < 128 then p[i] as char else REPLACEMENT)
  }

  function LowerChar(c: char): char {
    if 'A' <= c <= 'Z' then ((c as int) + 32) as char else c
  }

  function Lower(s: string): (r: string)
    ensures |r| == |s|
  {
    seq(|s|, i requires 0 <= i < |s| => LowerChar(s[i]))
  }

  /** The texts that decoded fields can hold. */
  predicate IsText(s: string) {
    forall i :: 0 <= i < |s| ==> (s[i] as int) < 128 || s[i] == REPLACEMENT
  }

  predicate IsAscii(s: string) {
    forall i :: 0 <= i < |s| ==> (s[i] as int) < 128
  }

  /** An ASCII text with no NUL in it: what an option key or value may be. */
  predicate IsField(s: string) {
    forall i :: 0 <= i < |s| ==> 0 < (s[i] as int) < 128
  }

  /** encode(): UTF-8, which takes three bytes for the replacement character. */
  function Encode(s: string): Packet
    requires IsText(s)
  {
    if s == [] then []
    else (if s[0] == REPLACEMENT then [0xEF, 0xBF, 0xBD] else [s[0] as int]) + Encode(s[1..])
  }

  lemma {:induction false} EncodeAscii(s: string)
    requires IsAscii(s)
    ensures |Encode(s)| == |s| && Ascii(Encode(s)) == s
    ensures forall i :: 0 <= i < |s| ==> Encode(s)[i] == s[i] as int
  {
    if s != [] {
      EncodeAscii(s[1..]);
    }
  }

  lemma {:induction false} EncodeGrows(s: string)
    requires IsText(s)
    ensures |Encode(s)| >= |s|
    ensures |Encode(s)| == |s| <==> IsAscii(s)
  {
    if s != [] {
      EncodeGrows(s[1..]);
      assert IsAscii(s) <==> (s[0] as int) < 128 && IsAscii(s[1..]);
    }
  }

  /** The option fields in pairs; a later pair wins, and an empty key is skipped.
      An odd field at the end is ignored. */
  function ParseOptions(rest: seq<Packet>): map<string, string>
    decreases |rest|
  {
    if |rest| < 2 then map[]
    else if rest[0] == [] then ParseOptions(rest[2..])
    else map[Lower(Ascii(rest[0])) := Ascii(rest[1])] + ParseOptions(rest[2..])
  }

  datatype Request = Request(filename: string, mode: string, opts: map<string, string>)

  function Parsed(payload: Packet): Request {
    var parts := Split(payload);
    Request(Ascii(parts[0]),
            if 1 < |parts| then Lower(Ascii(parts[1])) else "octet",
            if 2 < |parts| then ParseOptions(parts[2..]) else map[])
  }

  method CollectOptions(rest: seq<Packet>) returns (opts: map<string, string>)
    ensures opts == ParseOptions(rest)
  {
    opts := map[];
    var i := 0;
    while i < |rest| - 1
      invariant 0 <= i <= |rest|
      invariant opts + ParseOptions(rest[i..]) == ParseOptions(rest)
    {
      assert rest[i..][2..] == rest[i + 2..];
      if rest[i] != [] {
        opts := opts[Lower(Ascii(rest[i])) := Ascii(rest[i + 1])];
      }
      i := i + 2;
    }
    assert |rest[i..]| < 2;
  }

  method ParseRequest(payload: Packet) returns (filename: string, mode: string, opts: map<string, string>)
    ensures Request(filename, mode, opts) == Parsed(payload)
  {
    var parts := Split(payload);
    filename := Ascii(parts[0]);
    mode := if 1 < |parts| then Lower(Ascii(parts[1])) else "octet";
    opts := CollectOptions(if 2 <= |parts| then parts[2..] else []);
  }

  /** An option list in the order it goes on the wire. */
  type Options = seq<(string, string)>

  function EncodeOptions(list: Options): Packet
    requires forall i :: 0 <= i < |list| ==> IsText(list[i].0) && IsText(list[i].1)
  {
    if list == [] then []
    else Encode(list[0].0) + [0] + (Encode(list[0].1) + [0] + EncodeOptions(list[1..]))
  }

  predicate IsKey(s: string) {
    s != "" && IsField(s) && Lower(s) == s
  }

  /** What a decoded value can be: no NUL, maybe replacement characters. */
  predicate IsValue(s: string) {
    IsText(s) && forall i :: 0 <= i < |s| ==> s[i] != '\0'
  }

  predicate WellFormed(list: Options) {
    && (forall i :: 0 <= i < |list| ==> IsKey(list[i].0) && IsValue(list[i].1))
    && (forall i, j :: 0 <= i < j < |list| ==> list[i].0 != list[j].0)
  }

  predicate AllAscii(list: Options) {
    forall i :: 0 <= i < |list| ==> IsAscii(list[i].1)
  }

  function AsMap(list: Options): map<string, string> {
    if list == [] then map[] else map[list[0].0 := list[0].1] + AsMap(list[1..])
  }

  /** A value after one trip over the wire. */
  function Echo(v: string): string
    requires IsText(v)
  {
    Ascii(Encode(v))
  }

  function EchoMap(list: Options): map<string, string>
    requires WellFormed(list)
  {
    if list == [] then map[] else map[list[0].0 := Echo(list[0].1)] + EchoMap(list[1..])
  }

  lemma {:induction false} EncodeNulFree(s: string)
    requires IsValue(s)
    ensures NulFree(Encode(s))
  {
    if s != [] {
      EncodeNulFree(s[1..]);
    }
  }

  lemma {:induction false} EchoExact(v: string)
    requires IsText(v)
    ensures Echo(v) == v <==> IsAscii(v)
  {
    EncodeGrows(v);
    if IsAscii(v) {
      EncodeAscii(v);
    }
  }

  lemma {:induction false} OptionsReadBack(list: Options)
    requires WellFormed(list)
    ensures ParseOptions(Split(EncodeOptions(list))) == EchoMap(list)
  {
    if list == [] {
      assert Split([]) == [[]];
    } else {
      var (k, v) := list[0];
      var rest := EncodeOptions(list[1..]);
      EncodeAscii(k);
      EncodeNulFree(k);
      EncodeNulFree(v);
      SplitTwoFields(Encode(k), Encode(v), rest);
      var fields := Split(EncodeOptions(list));
      assert fields[0] == Encode(k) && fields[1] == Encode(v) && fields[2..] == Split(rest);
      OptionsReadBack(list[1..]);
    }
  }

  lemma {:induction false} MapLookup(list: Options, i: nat)
    requires WellFormed(list) && i < |list|
    ensures list[i].0 in AsMap(list) && AsMap(list)[list[i].0] == list[i].1
    ensures list[i].0 in EchoMap(list) && EchoMap(list)[list[i].0] == Echo(list[i].1)
  {
    if 0 < i {
      MapLookup(list[1..], i - 1);
      assert list[1..][i - 1] == list[i];
    } else {
      NotInTail(list, list[1..]);
    }
  }

  lemma {:induction false} NotInTail(list: Options, tail: Options)
    requires WellFormed(list) && list != [] && WellFormed(tail)
    requires forall i :: 0 <= i < |tail| ==> tail[i].0 != list[0].0
    ensures list[0].0 !in AsMap(tail) && list[0].0 !in EchoMap(tail)
  {
    if tail != [] {
      NotInTail(list, tail[1..]);
    }
  }

  lemma {:induction false} AsciiEchoesWhole(list: Options)
    requires WellFormed(list) && AllAscii(list)
    ensures EchoMap(list) == AsMap(list)
  {
    if list != [] {
      EchoExact(list[0].1);
      AsciiEchoesWhole(list[1..]);
    }
  }

  /** Reading back an encoded list gives the list's map, exactly when every value
      is ASCII: a byte the decoder replaced comes back as three. */
  lemma OptionsRoundTrip(list: Options)
    requires WellFormed(list)
    ensures ParseOptions(Split(EncodeOptions(list))) == AsMap(list) <==> AllAscii(list)
  {
    OptionsReadBack(list);
    if AllAscii(list) {
      AsciiEchoesWhole(list);
    } else {
      var i :| 0 <= i < |list| && !IsAscii(list[i].1);
      MapLookup(list, i);
      EchoExact(list[i].1);
    }
  }

  /** A well-formed read request is understood as it was meant: same file, same
      mode up to case, same options. */
  lemma RequestRoundTrip(filename: string, mode: string, list: Options)
    requires IsField(filename) && IsField(mode) && WellFormed(list) && AllAscii(list)
    ensures Parsed(Encode(filename) + [0] + (Encode(mode) + [0] + EncodeOptions(list)))
         == Request(filename, Lower(mode), AsMap(list))
  {
    EncodeAscii(filename);
    EncodeAscii(mode);
    OptionsRoundTrip(list);
    SplitTwoFields(Encode(filename), Encode(mode), EncodeOptions(list));
    var fields := [Encode(filename), Encode(mode)] + Split(EncodeOptions(list));
    assert fields[2..] == Split(EncodeOptions(list));
  }

  // ---- what the server agrees to ----

  const DEFAULT_BLKSIZE := 512

  /** xfer.settimeout(5): the seconds a transfer waits, whatever the client asks for. */
  const WAIT: nat := 5

  /** max(8, min(v, 65464)), the limits of RFC 2348. */
  function ClampBlksize(v: int): nat {
    if v < 8 then 8 else if 65464 < v then 65464 else v
  }

  /** How the transfer will run, and what the client is told about it. */
  datatype Agreement = Agreement(blksize: nat, wait: nat, accepted: Options)

  /** None: the blksize option is not an integer, and the server raises. */
  function Negotiate(opts: map<string, string>, size: nat): (r: Option<Agreement>)
    ensures r.Some? ==> 8 <= r.value.blksize <= 65464
  {
    if "blksize" in opts && IntValue(opts["blksize"]).None? then None
    else
      var blksize := if "blksize" in opts then ClampBlksize(IntValue(opts["blksize"]).value) else DEFAULT_BLKSIZE;
      Some(Agreement(blksize, WAIT,
        (if "blksize" in opts then [("blksize", Decimal(blksize))] else []) +
        (if "tsize" in opts then [("tsize", Decimal(size))] else []) +
        (if "timeout" in opts then [("timeout", opts["timeout"])] else [])))
  }

  /** The OACK datagram, sent only when some option was accepted. */
  function OackOf(a: Agreement): Option<Packet>
    requires forall i :: 0 <= i < |a.accepted| ==> IsText(a.accepted[i].0) && IsText(a.accepted[i].1)
  {
    if a.accepted == [] then None else Some(U16(OACK) + EncodeOptions(a.accepted))
  }

  /** The block size a client reads out of the server's first answer. */
  function ClientBlksize(oack: Option<Packet>): Option<int>
    requires oack.Some? ==> 2 <= |oack.value|
  {
    if oack.None? then Some(DEFAULT_BLKSIZE)
    else
      var m := ParseOptions(Split(oack.value[2..]));
      if "blksize" in m then IntValue(m["blksize"]) else Some(DEFAULT_BLKSIZE)
  }

  lemma {:induction false} SplitIsNulFree(p: Packet)
    ensures forall i :: 0 <= i < |Split(p)| ==> NulFree(Split(p)[i])
  {
    if p != [] {
      SplitIsNulFree(p[1..]);
    }
  }

  lemma {:induction false} ParsedValuesAreValues(rest: seq<Packet>, k: string)
    requires forall i :: 0 <= i < |rest| ==> NulFree(rest[i])
    ensures k in ParseOptions(rest) ==> IsValue(ParseOptions(rest)[k])
    decreases |rest|
  {
    if 2 <= |rest| {
      ParsedValuesAreValues(rest[2..], k);
      assert IsValue(Ascii(rest[1]));
    }
  }

  /** Whatever the request says, the accepted list can be put on the wire. */
  lemma AcceptedIsWellFormed(payload: Packet, size: nat)
    requires Negotiate(Parsed(payload).opts, size).Some?
    ensures WellFormed(Negotiate(Parsed(payload).opts, size).value.accepted)
  {
    TimeoutIsValue(payload);
    AcceptedCanBeSent(Parsed(payload).opts, size);
  }

  lemma AcceptedCanBeSent(opts: map<string, string>, size: nat)
    requires Negotiate(opts, size).Some? && ("timeout" in opts ==> IsValue(opts["timeout"]))
    ensures WellFormed(Negotiate(opts, size).value.accepted)
  {
    KnownKeys();
    var blksize := Negotiate(opts, size).value.blksize;
    var b := if "blksize" in opts then [("blksize", Decimal(blksize))] else [];
    var t := if "tsize" in opts then [("tsize", Decimal(size))] else [];
    var o := if "timeout" in opts then [("timeout", opts["timeout"])] else [];
    WellFormedConcat(b, t);
    WellFormedConcat(b + t, o);
  }

  lemma WellFormedConcat(a: Options, b: Options)
    requires WellFormed(a) && WellFormed(b)
    requires forall i, j :: 0 <= i < |a| && 0 <= j < |b| ==> a[i].0 != b[j].0
    ensures WellFormed(a + b)
  {
  }

  lemma KnownKeys()
    ensures IsKey("blksize") && IsKey("tsize") && IsKey("timeout")
  {
    assert Lower("blksize") == "blksize";
    assert Lower("tsize") == "tsize";
    assert Lower("timeout") == "timeout";
  }

  lemma TimeoutIsValue(payload: Packet)
    ensures var opts := Parsed(payload).opts; "timeout" in opts ==> IsValue(opts["timeout"])
  {
    SplitIsNulFree(payload);
    var parts := Split(payload);
    if 2 < |parts| {
      ParsedValuesAreValues(parts[2..], "timeout");
    }
  }

  /** Both ends use the same block size, in range, and the one asked for whenever
      that is in range; an unchanged default needs no OACK. The promise holds for
      every request the server does not choke on. */
  lemma BlksizeAgreed(payload: Packet, size: nat)
    requires Negotiate(Parsed(payload).opts, size).Some?
    ensures var a := Negotiate(Parsed(payload).opts, size).value;
            var asked := Parsed(payload).opts;
            && WellFormed(a.accepted)
            && ClientBlksize(OackOf(a)) == Some(a.blksize)
            && 8 <= a.blksize <= 65464
            && ("blksize" in asked && 8 <= IntValue(asked["blksize"]).value <= 65464 ==>
                  IntValue(asked["blksize"]) == Some(a.blksize))
            && ("blksize" in asked && IntValue(asked["blksize"]).value < 8 ==> a.blksize == 8)
            && ("blksize" in asked && 65464 < IntValue(asked["blksize"]).value ==> a.blksize == 65464)
  {
    AcceptedIsWellFormed(payload, size);
    ClientAgrees(Parsed(payload).opts, size);
  }

  lemma ClientAgrees(opts: map<string, string>, size: nat)
    requires Negotiate(opts, size).Some? && WellFormed(Negotiate(opts, size).value.accepted)
    ensures var a := Negotiate(opts, size).value; ClientBlksize(OackOf(a)) == Some(a.blksize)
  {
    var a := Negotiate(opts, size).value;
    if a.accepted != [] {
      ClientReads(a);
      if "blksize" in opts {
        BlksizeReadBack(a.accepted, a.blksize);
      } else {
        NoBlksize(a.accepted);
      }
    }
  }

  lemma ClientReads(a: Agreement)
    requires WellFormed(a.accepted) && a.accepted != []
    ensures var m := EchoMap(a.accepted);
            ClientBlksize(OackOf(a)) == if "blksize" in m then IntValue(m["blksize"]) else Some(DEFAULT_BLKSIZE)
  {
    OptionsReadBack(a.accepted);
    assert OackOf(a).value[2..] == EncodeOptions(a.accepted);
  }

  lemma BlksizeReadBack(list: Options, n: nat)
    requires WellFormed(list) && list != [] && list[0] == ("blksize", Decimal(n))
    ensures "blksize" in EchoMap(list) && IntValue(EchoMap(list)["blksize"]) == Some(n)
  {
    MapLookup(list, 0);
    EchoExact(Decimal(n));
    DecimalRoundTrip(n);
  }

  lemma {:induction false} NoBlksize(list: Options)
    requires WellFormed(list) && forall i :: 0 <= i < |list| ==> list[i].0 != "blksize"
    ensures "blksize" !in EchoMap(list)
  {
    if list != [] {
      NoBlksize(list[1..]);
    }
  }

  lemma {:induction false} EchoKeys(list: Options, k: string)
    requires WellFormed(list)
    ensures k in EchoMap(list) <==> exists i :: 0 <= i < |list| && list[i].0 == k
  {
    if list != [] {
      EchoKeys(list[1..], k);
      assert forall i :: 1 <= i < |list| ==> list[i] == list[1..][i - 1];
    }
  }

  /** What the client reads in the OACK. */
  function ClientReply(a: Agreement): map<string, string>
    requires WellFormed(a.accepted)
  {
    var oack := OackOf(a);
    if oack.None? then map[] else ParseOptions(Split(oack.value[2..]))
  }

  lemma ReplyIsEcho(a: Agreement)
    requires WellFormed(a.accepted)
    ensures ClientReply(a) == EchoMap(a.accepted)
  {
    if a.accepted != [] {
      OptionsReadBack(a.accepted);
      assert OackOf(a).value[2..] == EncodeOptions(a.accepted);
    }
  }

  /** The server answers exactly those options that were asked for and that it
      knows, and sends no OACK when there are none. */
  lemma OackAnswersKnown(payload: Packet, size: nat, k: string)
    requires Negotiate(Parsed(payload).opts, size).Some?
    ensures var a := Negotiate(Parsed(payload).opts, size).value;
            var asked := Parsed(payload).opts;
            && WellFormed(a.accepted)
            && (k in ClientReply(a) <==> k in asked && k in {"blksize", "tsize", "timeout"})
            && (OackOf(a).None? <==> "blksize" !in asked && "tsize" !in asked && "timeout" !in asked)
  {
    AcceptedIsWellFormed(payload, size);
    var a, asked := Negotiate(Parsed(payload).opts, size).value, Parsed(payload).opts;
    ReplyIsEcho(a);
    EchoKeys(a.accepted, k);
    AcceptedKeys(asked, size, k);
  }

  lemma AcceptedKeys(asked: map<string, string>, size: nat, k: string)
    requires Negotiate(asked, size).Some?
    ensures var list := Negotiate(asked, size).value.accepted;
            (exists i :: 0 <= i < |list| && list[i].0 == k) <==> k in asked && k in {"blksize", "tsize", "timeout"}
  {
    var list := Negotiate(asked, size).value.accepted;
    var b, t := if "blksize" in asked then 1 else 0, if "tsize" in asked then 1 else 0;
    assert "blksize" in asked ==> list[0].0 == "blksize";
    assert "tsize" in asked ==> list[b].0 == "tsize";
    assert "timeout" in asked ==> list[b + t].0 == "timeout";
  }

  /** tsize is answered with the file's size, and a timeout with itself exactly
      when it is ASCII. */
  lemma OackAnswersTrue(payload: Packet, size: nat)
    requires Negotiate(Parsed(payload).opts, size).Some?
    ensures var a := Negotiate(Parsed(payload).opts, size).value;
            var asked := Parsed(payload).opts;
            && WellFormed(a.accepted)
            && ("tsize" in asked ==> "tsize" in ClientReply(a) && IntValue(ClientReply(a)["tsize"]) == Some(size))
            && ("timeout" in asked ==>
                  "timeout" in ClientReply(a) &&
                  (ClientReply(a)["timeout"] == asked["timeout"] <==> IsAscii(asked["timeout"])))
  {
    AcceptedIsWellFormed(payload, size);
    var a, asked := Negotiate(Parsed(payload).opts, size).value, Parsed(payload).opts;
    ReplyIsEcho(a);
    if "tsize" in asked {
      TsizeReadBack(a.accepted, if "blksize" in asked then 1 else 0, size);
    }
    if "timeout" in asked {
      MapLookup(a.accepted, |a.accepted| - 1);
      EchoExact(asked["timeout"]);
    }
  }

  /** What the client reads as the server's timeout is the wait of the transfer if
      and only if it asked for five seconds; the server acknowledges every other
      request too, and waits five seconds all the same. */
  lemma TimeoutIsTrueIff(payload: Packet, size: nat)
    requires Negotiate(Parsed(payload).opts, size).Some? && "timeout" in Parsed(payload).opts
    ensures var a := Negotiate(Parsed(payload).opts, size).value;
            && WellFormed(a.accepted) && "timeout" in ClientReply(a)
            && (IntValue(ClientReply(a)["timeout"]) == Some(a.wait) <==>
                IntValue(Parsed(payload).opts["timeout"]) == Some(5))
  {
    AcceptedIsWellFormed(payload, size);
    var a, v := Negotiate(Parsed(payload).opts, size).value, Parsed(payload).opts["timeout"];
    ReplyIsEcho(a);
    MapLookup(a.accepted, |a.accepted| - 1);
    EchoReadsAlike(v);
  }

  lemma EchoReadsAlike(v: string)
    requires IsText(v)
    ensures IntValue(Echo(v)) == IntValue(v)
  {
    EchoExact(v);
    if !IsAscii(v) {
      EchoNotAscii(v);
      ForeignTextRaises(v);
      ForeignTextRaises(Echo(v));
    }
  }

  lemma ForeignTextRaises(s: string)
    requires !IsAscii(s)
    ensures IntValue(s).None?
  {
    var k :| 0 <= k < |s| && 128 <= (s[k] as int);
    OddCharacterRaises(s, k);
  }

  lemma {:induction false} EchoNotAscii(v: string)
    requires IsText(v) && !IsAscii(v)
    ensures !IsAscii(Echo(v))
  {
    if v[0] == REPLACEMENT {
      assert Encode(v)[0] == 0xEF && Echo(v)[0] == REPLACEMENT;
    } else {
      assert IsAscii(v[1..]) ==> IsAscii(v);
      EchoNotAscii(v[1..]);
      assert Echo(v) == [v[0]] + Echo(v[1..]);
      assert Echo(v)[1..] == Echo(v[1..]);
    }
  }

  /** A client that asks for one second is told one second. */
  lemma TimeoutCanMislead(opts: map<string, string>, size: nat)
    requires "blksize" !in opts && "tsize" !in opts && "timeout" in opts && opts["timeout"] == "1"
    ensures Negotiate(opts, size) == Some(Agreement(512, 5, [("timeout", "1")]))
    ensures IntValue("1") == Some(1)
  {
    assert Negotiate(opts, size).value.accepted == [("timeout", opts["timeout"])];
  }

  /** A separator byte anywhere in the blksize value makes the server raise. */
  lemma SeparatorStopsServer(opts: map<string, string>, size: nat, k: nat)
    requires "blksize" in opts && k < |opts["blksize"]| && 28 <= (opts["blksize"][k] as int) <= 31
    ensures Negotiate(opts, size).None?
  {
    OddCharacterRaises(opts["blksize"], k);
  }

  lemma TsizeReadBack(list: Options, i: nat, n: nat)
    requires WellFormed(list) && i < |list| && list[i] == ("tsize", Decimal(n))
    ensures "tsize" in EchoMap(list) && IntValue(EchoMap(list)["tsize"]) == Some(n)
  {
    MapLookup(list, i);
    EchoExact(Decimal(n));
    DecimalRoundTrip(n);
  }
}
