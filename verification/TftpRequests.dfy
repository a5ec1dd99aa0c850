/** What a read request means, field by field and byte by byte, apart from how the
    server takes it to pieces. */
module TftpRequests {
  import opened Common
  import opened TftpWire
  import opened TftpOptions

  /** The fields put together again. */
  function Join(fields: seq<Packet>): Packet {
    if |fields| <= 1 then (if fields == [] then [] else fields[0])
    else fields[0] + [0] + Join(fields[1..])
  }

  /** The split takes the payload apart at its NULs, all of them and nothing else. */
  lemma {:induction false} SplitJoins(p: Packet)
    ensures Join(Split(p)) == p && forall i :: 0 <= i < |Split(p)| ==> NulFree(Split(p)[i])
  {
    SplitIsNulFree(p);
    if p != [] {
      SplitJoins(p[1..]);
      var r := Split(p[1..]);
      if p[0] == 0 {
        assert ([[]] + r)[1..] == r;
        assert Join([[]] + r) == [] + [0] + Join(r);
        assert [0] + p[1..] == p;
      } else {
        JoinPrepend(p[0], r);
        assert [p[0]] + p[1..] == p;
      }
    }
  }

  lemma JoinPrepend(b: byte, r: seq<Packet>)
    requires r != []
    ensures Join([[b] + r[0]] + r[1..]) == [b] + Join(r)
  {
    var s := [[b] + r[0]] + r[1..];
    if 1 < |r| {
      assert s[1..] == r[1..];
      assert ([b] + r[0]) + [0] + Join(r[1..]) == [b] + (r[0] + [0] + Join(r[1..]));
    }
  }

  /** A byte as text: itself if it is ASCII, else the replacement character. */
  function CharOf(b: byte): char {
    if b < 128 then b as char else '\U{FFFD}'
  }

  predicate Reads(field: Packet, s: string) {
    |s| == |field| && forall i :: 0 <= i < |s| ==> s[i] == CharOf(field[i])
  }

  /** A name reads as itself, but for capital letters, which read as small ones. */
  predicate ReadsAsName(field: Packet, s: string) {
    |s| == |field| &&
    forall i :: 0 <= i < |s| ==> s[i] == CharOf(if 65 <= field[i] <= 90 then field[i] + 32 else field[i])
  }

  lemma NameIsUnique(field: Packet, s: string)
    ensures ReadsAsName(field, s) <==> s == Lower(Ascii(field))
  {
  }

  /** The i-th pair of fields gives option k. */
  predicate Gives(fields: seq<Packet>, i: nat, k: string) {
    2 * i + 1 < |fields| && fields[2 * i] != [] && ReadsAsName(fields[2 * i], k)
  }

  predicate GivesLast(fields: seq<Packet>, i: nat, k: string) {
    Gives(fields, i, k) && forall j :: i < j < |fields| ==> !Gives(fields, j, k)
  }

  lemma GivesShift(fields: seq<Packet>, i: nat, k: string)
    requires 2 <= |fields|
    ensures Gives(fields[2..], i, k) <==> Gives(fields, i + 1, k)
  {
  }

  lemma GivesLastShift(fields: seq<Packet>, i: nat, k: string)
    requires 2 <= |fields| && 1 <= i && GivesLast(fields, i, k)
    ensures GivesLast(fields[2..], i - 1, k)
  {
    GivesShift(fields, i - 1, k);
    forall j | i - 1 < j < |fields[2..]| ensures !Gives(fields[2..], j, k) {
      GivesShift(fields, j, k);
    }
  }

  /** An option has the value of the last pair that gives it. */
  lemma {:induction false} LastPairWins(fields: seq<Packet>, i: nat, k: string)
    requires GivesLast(fields, i, k)
    ensures k in ParseOptions(fields) && Reads(fields[2 * i + 1], ParseOptions(fields)[k])
    decreases |fields|
  {
    if i == 0 {
      NameIsUnique(fields[0], k);
      forall j: nat ensures !Gives(fields[2..], j, k) {
        GivesShift(fields, j, k);
      }
      NotGiven(fields[2..], k);
    } else {
      GivesLastShift(fields, i, k);
      LastPairWins(fields[2..], i - 1, k);
    }
  }

  /** And one that no pair gives is not there; pairs without a name and an odd field
      at the end give none. */
  lemma {:induction false} NotGiven(fields: seq<Packet>, k: string)
    requires forall j: nat :: !Gives(fields, j, k)
    ensures k !in ParseOptions(fields)
    decreases |fields|
  {
    if 2 <= |fields| {
      forall j: nat ensures !Gives(fields[2..], j, k) {
        GivesShift(fields, j, k);
      }
      NotGiven(fields[2..], k);
      assert !Gives(fields, 0, k);
      NameIsUnique(fields[0], Lower(Ascii(fields[0])));
    }
  }

  lemma LastOf(fields: seq<Packet>, i: nat, k: string) returns (last: nat)
    requires Gives(fields, i, k)
    ensures GivesLast(fields, last, k)
    decreases |fields| - i
  {
    if j :| i < j < |fields| && Gives(fields, j, k) {
      last := LastOf(fields, j, k);
    } else {
      last := i;
    }
  }

  /** A request in full: the first field is the name, the second the mode ("octet" if
      there is none), and the rest are options in pairs. */
  lemma RequestReads(payload: Packet, k: string)
    ensures var parts, r := Split(payload), Parsed(payload);
            var rest := if 2 < |parts| then parts[2..] else [];
            && Reads(parts[0], r.filename)
            && (if 1 < |parts| then ReadsAsName(parts[1], r.mode) else r.mode == "octet")
            && (k in r.opts <==> exists i :: 0 <= i < |rest| && GivesLast(rest, i, k))
            && forall i :: 0 <= i < |rest| && GivesLast(rest, i, k) ==> k in r.opts && Reads(rest[2 * i + 1], r.opts[k])
  {
    var parts := Split(payload);
    var rest := if 2 < |parts| then parts[2..] else [];
    if 1 < |parts| {
      NameIsUnique(parts[1], Lower(Ascii(parts[1])));
    }
    forall i | 0 <= i < |rest| && GivesLast(rest, i, k)
      ensures k in ParseOptions(rest) && Reads(rest[2 * i + 1], ParseOptions(rest)[k])
    {
      LastPairWins(rest, i, k);
    }
    if i: nat :| Gives(rest, i, k) {
      var last := LastOf(rest, i, k);
    } else {
      NotGiven(rest, k);
    }
  }

  /** Two lists of fields that differ only in the case of letters in the names. */
  predicate SameButCase(a: seq<Packet>, b: seq<Packet>) {
    |a| == |b| && forall i :: 0 <= i < |a| ==> if i % 2 == 0 then SameLetters(a[i], b[i]) else a[i] == b[i]
  }

  predicate SameLetters(a: Packet, b: Packet) {
    |a| == |b| && forall i :: 0 <= i < |a| ==> SameLetter(a[i], b[i])
  }

  predicate SameLetter(a: byte, b: byte) {
    a == b || (65 <= a <= 90 && b == a + 32) || (65 <= b <= 90 && a == b + 32)
  }

  /** Options are known by name whatever its case. */
  lemma {:induction false} CaseIsIgnored(a: seq<Packet>, b: seq<Packet>)
    requires SameButCase(a, b)
    ensures ParseOptions(a) == ParseOptions(b)
    decreases |a|
  {
    if 2 <= |a| {
      assert SameLetters(a[0], b[0]) && a[1] == b[1];
      NameIsUnique(a[0], Lower(Ascii(b[0])));
      forall i | 0 <= i < |a[2..]|
        ensures if i % 2 == 0 then SameLetters(a[2..][i], b[2..][i]) else a[2..][i] == b[2..][i]
      {
        assert a[2..][i] == a[i + 2] && b[2..][i] == b[i + 2];
      }
      CaseIsIgnored(a[2..], b[2..]);
    }
  }

  /** encode() is UTF-8, character by character. */
  lemma {:induction false} EncodeConcat(a: string, b: string)
    requires IsText(a) && IsText(b)
    ensures IsText(a + b) && Encode(a + b) == Encode(a) + Encode(b)
  {
    if a == "" {
      assert a + b == b;
    } else {
      EncodeConcat(a[1..], b);
      EncodeCons(a[0], a[1..]);
      EncodeCons(a[0], a[1..] + b);
      assert [a[0]] + a[1..] == a && [a[0]] + (a[1..] + b) == a + b;
      Regroup(Encode([a[0]]), Encode(a[1..]), Encode(b));
    }
  }

  lemma EncodeCons(c: char, s: string)
    requires IsText([c] + s) && IsText(s)
    ensures IsText([c]) && Encode([c] + s) == Encode([c]) + Encode(s)
  {
    assert c == ([c] + s)[0] && ([c] + s)[1..] == s;
    assert [c][1..] == "";
  }

  lemma Regroup(a: Packet, b: Packet, c: Packet)
    ensures (a + b) + c == a + (b + c)
  {
  }

  lemma EncodeOne(c: char)
    requires IsText([c])
    ensures Encode([c]) == if (c as int) < 128 then [c as int] else [0xEF, 0xBF, 0xBD]
  {
    assert [c][1..] == "";
  }

  /** An OACK begins with opcode 6 (RFC 2347), and its fields are the list's. */
  lemma OackOnTheWire(a: Agreement)
    requires WellFormed(a.accepted) && a.accepted != []
    ensures OackOf(a) == Some([0, 6] + EncodeOptions(a.accepted))
  {
  }
}
