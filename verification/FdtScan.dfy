/** extract_appended: bare flattened device trees in a raw firmware image. */
module FdtScan {
  import opened Common

  /** The header magic of a flattened device tree. */
  const FDT_MAGIC: seq<byte> := [0xD0, 0x0D, 0xFE, 0xED]

  function U32At(buf: seq<byte>, i: nat): nat
    requires i + 4 <= |buf|
  {
    ((buf[i] as int * 256 + buf[i + 1] as int) * 256 + buf[i + 2] as int) * 256 + buf[i + 3] as int
  }

  predicate MagicAt(buf: seq<byte>, i: nat) {
    i + 4 <= |buf| && buf[i] == 0xD0 && buf[i + 1] == 0x0D && buf[i + 2] == 0xFE && buf[i + 3] == 0xED
  }

  datatype Header = Malformed | Header(total: nat, version: nat, lastCompatible: nat)

  function FdtHeader(buf: seq<byte>, off: nat): Header {
    if |buf| < off + 28 then Malformed
    else if U32At(buf, off) != 0xD00D_FEED then Malformed
    else Header(U32At(buf, off + 4), U32At(buf, off + 20), U32At(buf, off + 24))
  }

  /** A real device tree: a whole header, version 16 or 17, more than 1 KiB, and
      all of it in the image. */
  predicate IsTree(buf: seq<byte>, i: nat) {
    && i + 28 <= |buf| && MagicAt(buf, i)
    && 16 <= U32At(buf, i + 20) <= 17
    && 1024 < U32At(buf, i + 4) <= |buf| - i
  }

  /** Every offset from `from` on at which a tree starts, one offset at a time. */
  function Trees(buf: seq<byte>, from: nat): seq<nat>
    decreases |buf| - from
  {
    if |buf| <= from then []
    else (if IsTree(buf, from) then [from] else []) + Trees(buf, from + 1)
  }

  /** A written file: its number in the name, and what it holds. */
  datatype Blob = Blob(number: nat, offset: nat, bytes: seq<byte>)

  /** buf[i : i + total], which stops at the end of the image. */
  function TreeBytes(buf: seq<byte>, i: nat): seq<byte> {
    if |buf| < i + 8 then []
    else buf[i..if i + U32At(buf, i + 4) <= |buf| then i + U32At(buf, i + 4) else |buf|]
  }

  function BlobsAt(buf: seq<byte>, offsets: seq<nat>): (r: seq<Blob>)
    ensures |r| == |offsets|
  {
    seq(|offsets|, k requires 0 <= k < |offsets| => Blob(k, offsets[k], TreeBytes(buf, offsets[k])))
  }

  /** The trees are exactly those offsets, in increasing order. */
  lemma {:induction false} TreesAreAll(buf: seq<byte>, from: nat, i: nat)
    requires from <= i
    ensures i in Trees(buf, from) <==> IsTree(buf, i)
    decreases |buf| - from
  {
    if from < |buf| {
      if from < i {
        TreesAreAll(buf, from + 1, i);
      } else {
        TreesStartAt(buf, from + 1);
      }
    }
  }

  lemma {:induction false} TreesStartAt(buf: seq<byte>, from: nat)
    ensures forall k :: 0 <= k < |Trees(buf, from)| ==> from <= Trees(buf, from)[k]
    ensures forall j, k :: 0 <= j < k < |Trees(buf, from)| ==> Trees(buf, from)[j] < Trees(buf, from)[k]
    decreases |buf| - from
  {
    if from < |buf| {
      TreesStartAt(buf, from + 1);
    }
  }

  /** Offsets without the magic can be skipped. */
  lemma {:induction false} SkipEmpty(buf: seq<byte>, from: nat, end: nat)
    requires from <= end && forall i :: from <= i < end ==> !IsTree(buf, i)
    ensures Trees(buf, from) == Trees(buf, end)
    decreases end
  {
    if from < end {
      SkipEmpty(buf, from, end - 1);
    }
  }

  /** The magic cannot start again inside itself. */
  lemma MagicDoesNotOverlap(buf: seq<byte>, i: nat)
    requires MagicAt(buf, i)
    ensures !MagicAt(buf, i + 1) && !MagicAt(buf, i + 2) && !MagicAt(buf, i + 3)
  {
  }

  lemma MagicIsFourBytes(buf: seq<byte>, i: nat)
    requires i + 4 <= |buf|
    ensures MagicAt(buf, i) <==> buf[i..i + 4] == FDT_MAGIC
  {
    var four := buf[i..i + 4];
    assert four[0] == buf[i] && four[1] == buf[i + 1] && four[2] == buf[i + 2] && four[3] == buf[i + 3];
  }

  /** Jumping over a magic loses no tree. */
  lemma JumpLosesNothing(buf: seq<byte>, i: nat)
    requires MagicAt(buf, i)
    ensures Trees(buf, i) == (if IsTree(buf, i) then [i] else []) + Trees(buf, i + 4)
  {
    MagicDoesNotOverlap(buf, i);
    SkipEmpty(buf, i + 1, i + 4);
  }

  /** buf.find(FDT_MAGIC, off) */
  method Find(buf: seq<byte>, off: nat) returns (i: int)
    ensures i == -1 || (off <= i && MagicAt(buf, i))
    ensures forall j :: off <= j && (i == -1 || j < i) ==> !MagicAt(buf, j)
  {
    i := off;
    while i + 4 <= |buf|
      invariant off <= i && forall j :: off <= j < i ==> !MagicAt(buf, j)
    {
      MagicIsFourBytes(buf, i);
      if buf[i..i + 4] == FDT_MAGIC {
        return;
      }
      i := i + 1;
    }
    i := -1;
  }

  lemma MagicIsNumber(buf: seq<byte>, i: nat)
    requires i + 4 <= |buf|
    ensures MagicAt(buf, i) <==> U32At(buf, i) == 0xD00D_FEED
  {
  }

  /** The two tests on the header at a magic. */
  predicate Accepted(buf: seq<byte>, i: nat, h: Header) {
    h.Header? && 16 <= h.version <= 17 && 1024 < h.total <= |buf| - i
  }

  lemma HeaderDecides(buf: seq<byte>, i: nat)
    requires MagicAt(buf, i)
    ensures var h := FdtHeader(buf, i);
            && (IsTree(buf, i) <==> Accepted(buf, i, h))
            && (Accepted(buf, i, h) ==> TreeBytes(buf, i) == buf[i..i + h.total])
  {
    MagicIsNumber(buf, i);
  }

  lemma BlobsSnoc(buf: seq<byte>, offsets: seq<nat>, i: nat)
    ensures BlobsAt(buf, offsets + [i]) == BlobsAt(buf, offsets) + [Blob(|offsets|, i, TreeBytes(buf, i))]
  {
  }

  /** The offsets found so far, and the place to go on from. */
  ghost predicate Scanned(buf: seq<byte>, found: seq<nat>, off: nat) {
    off <= |buf| && found + Trees(buf, off) == Trees(buf, 0)
  }

  /** From one magic to the next place to look. */
  lemma ScanStep(buf: seq<byte>, found: seq<nat>, off: nat, i: nat)
    requires Scanned(buf, found, off) && off <= i && MagicAt(buf, i) && forall j :: off <= j < i ==> !MagicAt(buf, j)
    ensures Scanned(buf, if Accepted(buf, i, FdtHeader(buf, i)) then found + [i] else found, i + 4)
    ensures off < i + 4
  {
    SkipEmpty(buf, off, i);
    JumpByHeader(buf, i);
    AddHit(found, Accepted(buf, i, FdtHeader(buf, i)), i, Trees(buf, i + 4));
  }

  lemma JumpByHeader(buf: seq<byte>, i: nat)
    requires MagicAt(buf, i)
    ensures i + 4 <= |buf|
    ensures Trees(buf, i) == (if Accepted(buf, i, FdtHeader(buf, i)) then [i] else []) + Trees(buf, i + 4)
  {
    JumpLosesNothing(buf, i);
    HeaderDecides(buf, i);
  }

  lemma AddHit(found: seq<nat>, hit: bool, i: nat, rest: seq<nat>)
    ensures found + ((if hit then [i] else []) + rest) == (if hit then found + [i] else found) + rest
  {
  }

  lemma ScanEnd(buf: seq<byte>, found: seq<nat>, off: nat)
    requires Scanned(buf, found, off) && forall j :: off <= j ==> !MagicAt(buf, j)
    ensures found == Trees(buf, 0)
  {
    SkipEmpty(buf, off, |buf|);
    assert found + [] == found;
  }

  /** One hit: its file, if the header says it is a tree. */
  method TakeHit(buf: seq<byte>, i: nat, n: nat) returns (blob: seq<Blob>)
    requires MagicAt(buf, i)
    ensures blob == if Accepted(buf, i, FdtHeader(buf, i)) then [Blob(n, i, TreeBytes(buf, i))] else []
  {
    HeaderDecides(buf, i);
    var hdr := FdtHeader(buf, i);
    if hdr.Malformed? {
      return [];
    }
    if !(16 <= hdr.version <= 17 && 1024 < hdr.total <= |buf| - i) {
      return [];
    }
    return [Blob(n, i, buf[i..i + hdr.total])];
  }

  /** The scan writes, numbered from 0, exactly the trees of the image in order,
      though it jumps over four bytes at each magic it meets. */
  method ExtractAppended(buf: seq<byte>) returns (written: seq<Blob>)
    ensures written == BlobsAt(buf, Trees(buf, 0))
    ensures |written| == |Trees(buf, 0)|
    ensures forall k :: 0 <= k < |written| ==>
              && written[k].number == k && written[k].offset == Trees(buf, 0)[k]
              && written[k].bytes == TreeBytes(buf, written[k].offset)
  {
    written := [];
    ghost var found: seq<nat> := [];
    var off := 0;
    while true
      invariant 0 <= off && Scanned(buf, found, off)
      invariant written == BlobsAt(buf, found)
      decreases |buf| - off
    {
      var i := Find(buf, off);
      if i < 0 {
        ScanEnd(buf, found, off);
        break;
      }
      ScanStep(buf, found, off, i);
      BlobsSnoc(buf, found, i);
      off := i + 4;
      var blob := TakeHit(buf, i, |written|);
      written := written + blob;
      found := if blob == [] then found else found + [i];
    }
  }

  // ---- headers as they are written ----

  /** A big-endian word. */
  function Word(n: nat): (w: seq<byte>)
    requires n < 0x1_0000_0000
    ensures |w| == 4
  {
    [n / 0x100_0000, n / 0x1_0000 % 256, n / 256 % 256, n % 256]
  }

  lemma WordValue(n: nat)
    requires n < 0x1_0000_0000
    ensures ((n / 0x100_0000 * 256 + n / 0x1_0000 % 256) * 256 + n / 256 % 256) * 256 + n % 256 == n
  {
    assert n / 0x1_0000 / 256 == n / 0x100_0000 && n / 256 / 256 == n / 0x1_0000;
  }

  lemma WordIsRead(front: seq<byte>, n: nat, rest: seq<byte>)
    requires n < 0x1_0000_0000
    ensures U32At(front + Word(n) + rest, |front|) == n
  {
    var buf, i := front + Word(n) + rest, |front|;
    assert buf[i..i + 4] == Word(n);
    FourBytes(buf, i);
    WordValue(n);
  }

  lemma FourBytes(buf: seq<byte>, i: nat)
    requires i + 4 <= |buf|
    ensures var w := buf[i..i + 4];
            U32At(buf, i) == ((w[0] as int * 256 + w[1] as int) * 256 + w[2] as int) * 256 + w[3] as int
  {
  }

  /** The header's seven words: magic, total size, three offsets, version, and the
      last compatible version. */
  function HeaderBytes(total: nat, offsets: seq<byte>, version: nat, lastCompatible: nat): (h: seq<byte>)
    requires total < 0x1_0000_0000 && version < 0x1_0000_0000 && lastCompatible < 0x1_0000_0000 && |offsets| == 12
    ensures |h| == 28
  {
    Word(0xD00D_FEED) + Word(total) + offsets + Word(version) + Word(lastCompatible)
  }

  /** A header is read as it was written, wherever it stands in the image. */
  lemma HeaderIsRead(front: seq<byte>, total: nat, offsets: seq<byte>, version: nat, last: nat, rest: seq<byte>)
    requires total < 0x1_0000_0000 && version < 0x1_0000_0000 && last < 0x1_0000_0000 && |offsets| == 12
    ensures var buf := front + HeaderBytes(total, offsets, version, last) + rest;
            && FdtHeader(buf, |front|) == Header(total, version, last)
            && MagicAt(buf, |front|)
  {
    var h := HeaderBytes(total, offsets, version, last);
    var buf := front + h + rest;
    var magic, size, ver := Word(0xD00D_FEED), Word(total), Word(version);
    WordIsRead(front, 0xD00D_FEED, size + offsets + ver + Word(last) + rest);
    assert buf == front + magic + (size + offsets + ver + Word(last) + rest);
    WordIsRead(front + magic, total, offsets + ver + Word(last) + rest);
    assert buf == front + magic + size + (offsets + ver + Word(last) + rest);
    WordIsRead(front + magic + size + offsets, version, Word(last) + rest);
    assert buf == front + magic + size + offsets + ver + (Word(last) + rest);
    WordIsRead(front + magic + size + offsets + ver, last, rest);
    assert buf == front + magic + size + offsets + ver + Word(last) + rest;
    MagicIsNumber(buf, |front|);
  }

  /** A header makes a tree of what follows it exactly if it says version 16 or 17 and
      a size of more than 1 KiB that the image holds; the tree is that many bytes. */
  lemma WrittenTreeIff(front: seq<byte>, total: nat, offsets: seq<byte>, version: nat, last: nat, rest: seq<byte>)
    requires total < 0x1_0000_0000 && version < 0x1_0000_0000 && last < 0x1_0000_0000 && |offsets| == 12
    ensures var body := HeaderBytes(total, offsets, version, last) + rest;
            var buf := front + body;
            var isTree := version in {16, 17} && 1024 < total <= |body|;
            && (|front| in Trees(buf, 0) <==> isTree)
            && (isTree ==> TreeBytes(buf, |front|) == body[..total])
  {
    var h := HeaderBytes(total, offsets, version, last);
    var buf := front + (h + rest);
    assert buf == front + h + rest;
    HeaderIsRead(front, total, offsets, version, last, rest);
    HeaderDecides(buf, |front|);
    TreesAreAll(buf, 0, |front|);
    if version in {16, 17} && 1024 < total <= |h + rest| {
      assert buf[|front|..|front| + total] == (h + rest)[..total];
    }
  }
}
