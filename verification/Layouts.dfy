/** The walks over JPEG and PNG files against files laid out piece by piece: what they
    find is what was put there, and where. */
module Layouts {
  import opened Money
  import opened Cbor
  import opened Containers

  // ---- JPEG -------------------------------------------------------------------------

  /** What can stand between the start of an image and its scan: a marker alone, a
      segment with a length, or a byte that starts no marker. */
  datatype Piece = Alone(marker: Byte) | Segment(marker: Byte, body: seq<Byte>) | Filler(byte: Byte)

  predicate WellFormed(p: Piece) {
    match p
    case Alone(m) => 0xD0 <= m <= 0xD9
    case Segment(m, body) => m != 0xDA && !(0xD0 <= m <= 0xD9) && |body| + 2 < 0x1_0000
    case Filler(b) => b != 0xFF
  }

  /** A segment's length counts its own two bytes. */
  function Laid(p: Piece): seq<Byte>
    requires WellFormed(p)
  {
    match p
    case Alone(m) => [0xFF, m]
    case Segment(m, body) => [0xFF, m, (|body| + 2) / 256, (|body| + 2) % 256] + body
    case Filler(b) => [b]
  }

  function LaidAll(pieces: seq<Piece>): seq<Byte>
    requires forall p <- pieces :: WellFormed(p)
  {
    if pieces == [] then [] else Laid(pieces[0]) + LaidAll(pieces[1..])
  }

  /** APP11 under the identifier "JP", with a payload after box instance and packet
      sequence. */
  predicate HoldsManifest(p: Piece) {
    p.Segment? && p.marker == 0xEB && |p.body| > 8 && p.body[..2] == [0x4A, 0x50]
  }

  /** The payloads, in the order of the file. */
  function StoredBy(pieces: seq<Piece>): seq<Byte> {
    if pieces == [] then []
    else (if HoldsManifest(pieces[0]) then pieces[0].body[8..] else []) + StoredBy(pieces[1..])
  }

  /** Where those segments lie, when the first piece is at `at`. */
  function PlacesOf(pieces: seq<Piece>, at: nat): seq<Range>
    requires forall p <- pieces :: WellFormed(p)
  {
    if pieces == [] then [] else
    var size := |Laid(pieces[0])|;
    (if HoldsManifest(pieces[0]) then [Range(at, size)] else []) + PlacesOf(pieces[1..], at + size)
  }

  /** The walk ends here: at the start of a scan, where no marker and length fit, or at
      a segment whose length is less than its own two bytes or more than is left. */
  predicate Ends(tail: seq<Byte>) {
    || |tail| < 4
    || (tail[0] == 0xFF && tail[1] == 0xDA)
    || (tail[0] == 0xFF && !(0xD0 <= tail[1] <= 0xD9)
        && (BigEndian(tail[2..4]) < 2 || 2 + BigEndian(tail[2..4]) > |tail|))
  }

  lemma TailOf(asset: seq<Byte>, i: nat, first: seq<Byte>, rest: seq<Byte>)
    requires i <= |asset| && asset[i..] == first + rest
    ensures i + |first| <= |asset| && asset[i + |first|..] == rest
    ensures forall k :: 0 <= k < |first| ==> asset[i + k] == first[k]
    ensures asset[i..i + |first|] == first
  {
    assert forall k :: 0 <= k < |first| ==> asset[i + k] == asset[i..][k];
    assert asset[i + |first|..] == asset[i..][|first|..];
    assert asset[i..i + |first|] == asset[i..][..|first|];
  }

  lemma WordAt(asset: seq<Byte>, i: nat, n: nat)
    requires i + 2 <= |asset| && n < 0x1_0000 && asset[i] == n / 256 && asset[i + 1] == n % 256
    ensures Word(asset, i) == n
  {
  }

  lemma SmallHoldsNothing(p: Piece)
    requires WellFormed(p) && |Laid(p)| < 4
    ensures !HoldsManifest(p)
  {
  }

  /** Too little is left for a segment: nothing is found, and nothing was put there. */
  lemma {:induction false} NothingFits(pieces: seq<Piece>, at: nat)
    requires forall p <- pieces :: WellFormed(p)
    requires |LaidAll(pieces)| < 4
    ensures StoredBy(pieces) == [] && PlacesOf(pieces, at) == []
  {
    if pieces == [] {
    } else {
      TailIsWithin(pieces);
      SmallHoldsNothing(pieces[0]);
      hide WellFormed, Laid, HoldsManifest;
      NothingFits(pieces[1..], at + |Laid(pieces[0])|);
    }
  }

  lemma WalkEnds(asset: seq<Byte>, i: nat)
    requires i <= |asset| && Ends(asset[i..])
    ensures Walk(asset, i) == Found([], [])
  {
    WalkFrom(asset, i);
    hide Walk, Word, BigEndian;
    if i + 4 <= |asset| {
      var tail := asset[i..];
      assert asset[i] == tail[0] && asset[i + 1] == tail[1] && asset[i + 2] == tail[2] && asset[i + 3] == tail[3];
      TwoBytes(tail[2..4]);
      SameWord(asset, i + 2, tail[2..4], 0);
    }
  }

  lemma TooShort(asset: seq<Byte>, i: nat)
    requires i + 4 > |asset|
    ensures Walk(asset, i) == Found([], [])
  {
  }

  lemma FirstLaid(pieces: seq<Piece>, tail: seq<Byte>)
    requires pieces != [] && forall p <- pieces :: WellFormed(p)
    ensures WellFormed(pieces[0]) && forall p <- pieces[1..] :: WellFormed(p)
    ensures LaidAll(pieces) + tail == Laid(pieces[0]) + (LaidAll(pieces[1..]) + tail)
  {
    hide Laid, WellFormed;
    assert pieces[0] in pieces;
    assert forall p <- pieces[1..] :: p in pieces;
  }

  /** The walk finds exactly what was laid out: the payloads of the manifest segments
      in their order, and their places. */
  lemma {:induction false} WalkFinds(asset: seq<Byte>, i: nat, pieces: seq<Piece>, tail: seq<Byte>)
    requires forall p <- pieces :: WellFormed(p)
    requires i <= |asset| && asset[i..] == LaidAll(pieces) + tail && Ends(tail)
    ensures Walk(asset, i) == Found(StoredBy(pieces), PlacesOf(pieces, i))
    decreases |pieces|
  {
    hide Walk, Laid, WellFormed, HoldsManifest, Ends;
    if pieces == [] {
      assert asset[i..] == tail;
      WalkEnds(asset, i);
    } else {
      hide LaidAll, StoredBy, PlacesOf;
      var first, rest := pieces[0], LaidAll(pieces[1..]) + tail;
      FirstLaid(pieces, tail);
      TailOf(asset, i, Laid(first), rest);
      if i + 4 > |asset| {
        TooShort(asset, i);
        NothingFits(pieces, i);
      } else {
        WalkFinds(asset, i + |Laid(first)|, pieces[1..], tail);
        OnePiece(asset, i, first);
        FirstPiece(pieces, i);
      }
    }
  }

  lemma NotAlone(marker: Byte)
    requires !(0xD0 <= marker <= 0xD9)
    ensures !Standalone(marker)
  {
  }

  lemma FirstPiece(pieces: seq<Piece>, at: nat)
    requires pieces != [] && forall p <- pieces :: WellFormed(p)
    ensures var later := Found(StoredBy(pieces[1..]), PlacesOf(pieces[1..], at + |Laid(pieces[0])|));
            Found(StoredBy(pieces), PlacesOf(pieces, at))
            == if HoldsManifest(pieces[0])
               then After(pieces[0].body[8..], [Range(at, |Laid(pieces[0])|)], later) else later
  {
    var places := PlacesOf(pieces[1..], at + |Laid(pieces[0])|);
    assert [] + StoredBy(pieces[1..]) == StoredBy(pieces[1..]) && [] + places == places;
  }

  /** The head of a segment: its marker, its length, and its body after them. */
  lemma SegmentIsRead(asset: seq<Byte>, i: nat, m: Byte, body: seq<Byte>)
    requires WellFormed(Segment(m, body)) && i + 4 + |body| <= |asset|
    requires asset[i..i + 4 + |body|] == Laid(Segment(m, body))
    ensures asset[i] == 0xFF && asset[i + 1] == m && Word(asset, i + 2) == |body| + 2
    ensures asset[i + 4..i + 4 + |body|] == body
  {
    hide Word;
    var laid := Laid(Segment(m, body));
    ByteOf(asset, i, laid, 0);
    ByteOf(asset, i, laid, 1);
    ByteOf(asset, i, laid, 2);
    ByteOf(asset, i, laid, 3);
    WordAt(asset, i + 2, |body| + 2);
    assert laid[4..] == body && asset[i + 4..i + 4 + |body|] == asset[i..i + 4 + |body|][4..];
  }

  lemma HoldsIff(m: Byte, body: seq<Byte>)
    ensures HoldsManifest(Segment(m, body)) <==> CarriesManifest(m, body)
    ensures HoldsManifest(Segment(m, body)) ==> Manifest(body) == body[8..]
  {
    if |body| > 8 { assert body[..2] == [body[0], body[1]]; }
  }

  /** One step of the walk over one piece. */
  lemma OnePiece(asset: seq<Byte>, i: nat, p: Piece)
    requires WellFormed(p) && i + 4 <= |asset| && i + |Laid(p)| <= |asset|
    requires asset[i..i + |Laid(p)|] == Laid(p)
    ensures var later := Walk(asset, i + |Laid(p)|);
            Walk(asset, i)
            == if HoldsManifest(p) then After(p.body[8..], [Range(i, |Laid(p)|)], later) else later
  {
    WalkFrom(asset, i);
    hide Walk, Word, CarriesManifest, Manifest;
    match p
    case Filler(b) => ByteOf(asset, i, Laid(p), 0);
    case Alone(m) =>
      ByteOf(asset, i, Laid(p), 0);
      ByteOf(asset, i, Laid(p), 1);
    case Segment(m, body) =>
      SegmentIsRead(asset, i, m, body);
      NotAlone(m);
      HoldsIff(m, body);
  }

  /** A whole image: after the start marker everything up to the scan is walked. */
  lemma JpegFinds(start: seq<Byte>, pieces: seq<Piece>, tail: seq<Byte>)
    requires |start| == 2 && (forall p <- pieces :: WellFormed(p)) && Ends(tail)
    ensures Walk(start + LaidAll(pieces) + tail, 2) == Found(StoredBy(pieces), PlacesOf(pieces, 2))
  {
    var asset := start + LaidAll(pieces) + tail;
    assert asset[2..] == LaidAll(pieces) + tail;
    WalkFinds(asset, 2, pieces, tail);
  }

  lemma TwoBytes(b: seq<Byte>)
    requires |b| == 2
    ensures BigEndian(b) == Word(b, 0)
  {
    assert b[..1][..0] == [];
    assert BigEndian(b[..1]) == b[0];
  }

  lemma FourBytes(b: seq<Byte>)
    requires |b| == 4
    ensures BigEndian(b) == 65536 * Word(b, 0) + Word(b, 2)
  {
    assert b[..3][..2] == b[..2] && b[..2][..1] == b[..1] && b[..1][..0] == [];
    assert BigEndian(b[..1]) == b[0];
    assert BigEndian(b[..2]) == Word(b, 0);
    assert BigEndian(b[..3]) == 256 * Word(b, 0) + b[2];
  }

  /** The numbers in the header of a manifest segment: two bytes of box instance, four
      of packet sequence. */
  lemma NumbersAre(asset: seq<Byte>, i: nat, body: seq<Byte>)
    requires |body| >= 8 && i + 4 + |body| <= |asset| && asset[i + 4..i + 4 + |body|] == body
    ensures var r := Range(i, 4 + |body|);
            && Instance(asset, r) == BigEndian(body[2..4]) && Sequence(asset, r) == BigEndian(body[4..8])
  {
    hide BigEndian;
    TwoBytes(body[2..4]);
    FourBytes(body[4..8]);
    ByteOf(asset, i + 4, body, 2);
    ByteOf(asset, i + 4, body, 3);
    ByteOf(asset, i + 4, body, 4);
    ByteOf(asset, i + 4, body, 5);
    ByteOf(asset, i + 4, body, 6);
    ByteOf(asset, i + 4, body, 7);
    SameWord(asset, i + 6, body[2..4], 0);
    SameWord(asset, i + 8, body[4..8], 0);
    SameWord(asset, i + 10, body[4..8], 2);
  }

  lemma ByteOf(asset: seq<Byte>, at: nat, body: seq<Byte>, k: nat)
    requires at + |body| <= |asset| && asset[at..at + |body|] == body && k < |body|
    ensures asset[at + k] == body[k]
  {
  }

  lemma SameWord(a: seq<Byte>, i: nat, b: seq<Byte>, j: nat)
    requires i + 2 <= |a| && j + 2 <= |b| && a[i] == b[j] && a[i + 1] == b[j + 1]
    ensures Word(a, i) == Word(b, j)
  {
  }

  // ---- PNG --------------------------------------------------------------------------

  /** A chunk: its type, its data, and a checksum the walk does not read. */
  datatype Chunk = Chunk(kind: seq<Byte>, data: seq<Byte>, crc: seq<Byte>)

  predicate Whole(c: Chunk) {
    |c.kind| == 4 && |c.crc| == 4 && |c.data| < TWO_32
  }

  function ChunkBytes(c: Chunk): seq<Byte>
    requires Whole(c)
  {
    var n := |c.data|;
    [n / 0x100_0000, n / 0x1_0000 % 256, n / 256 % 256, n % 256] + c.kind + c.data + c.crc
  }

  function AllChunks(chunks: seq<Chunk>): seq<Byte>
    requires forall c <- chunks :: Whole(c)
  {
    if chunks == [] then [] else ChunkBytes(chunks[0]) + AllChunks(chunks[1..])
  }

  lemma LongAt(asset: seq<Byte>, i: nat, n: nat)
    requires i + 4 <= |asset| && n < TWO_32
    requires asset[i] == n / 0x100_0000 && asset[i + 1] == n / 0x1_0000 % 256
             && asset[i + 2] == n / 256 % 256 && asset[i + 3] == n % 256
    ensures Long(asset, i) == n
  {
    hide Word;
    Halves(n);
    WordAt(asset, i, n / 0x1_0000);
    WordAt(asset, i + 2, n % 0x1_0000);
  }

  lemma Halves(n: nat)
    requires n < TWO_32
    ensures n == 0x1_0000 * (n / 0x1_0000) + n % 0x1_0000 && n / 0x1_0000 < 0x1_0000
    ensures n / 0x1_0000 / 256 == n / 0x100_0000
    ensures n % 0x1_0000 / 256 == n / 256 % 256 && n % 0x1_0000 % 256 == n % 256
  {
  }

  /** A chunk laid out at i is read back: its length, its type and its data. */
  lemma ChunkIsRead(asset: seq<Byte>, i: nat, c: Chunk, rest: seq<Byte>)
    requires Whole(c) && i <= |asset| && asset[i..] == ChunkBytes(c) + rest
    ensures ChunkAt(asset, i) && ChunkType(asset, i) == c.kind && Long(asset, i) == |c.data|
    ensures asset[i + 8..i + 8 + |c.data|] == c.data && asset[i + 12 + |c.data|..] == rest
  {
    var b := ChunkBytes(c);
    var n := |c.data|;
    TailOf(asset, i, b, rest);
    assert asset[i] == b[0] && asset[i + 1] == b[1] && asset[i + 2] == b[2] && asset[i + 3] == b[3];
    LongAt(asset, i, n);
    hide Long;
    assert b[4..8] == c.kind && b[8..8 + n] == c.data;
    assert asset[i + 4..i + 8] == asset[i..i + |b|][4..8];
    assert asset[i + 8..i + 8 + n] == asset[i..i + |b|][8..8 + n];
  }

  /** Chunks of other types are passed over, one after the other. */
  lemma {:induction false} OthersArePassed(asset: seq<Byte>, i: nat, chunks: seq<Chunk>, rest: seq<Byte>)
    requires forall c <- chunks :: Whole(c) && c.kind != CABX && c.kind != IEND
    requires i <= |asset| && asset[i..] == AllChunks(chunks) + rest
    ensures i + |AllChunks(chunks)| <= |asset| && asset[i + |AllChunks(chunks)|..] == rest
    ensures FirstManifestChunk(asset, i) == FirstManifestChunk(asset, i + |AllChunks(chunks)|)
    decreases |chunks|
  {
    hide ChunkAt, ChunkType, Long, ChunkBytes, FirstManifestChunk;
    if chunks == [] {
      assert asset[i..] == rest;
    } else {
      FirstChunk(chunks, rest);
      hide AllChunks;
      var later := AllChunks(chunks[1..]) + rest;
      ChunkIsRead(asset, i, chunks[0], later);
      SizeOfChunk(chunks[0]);
      PassesOver(asset, i);
      OthersArePassed(asset, i + |ChunkBytes(chunks[0])|, chunks[1..], rest);
    }
  }

  lemma FirstChunk(chunks: seq<Chunk>, rest: seq<Byte>)
    requires chunks != [] && forall c <- chunks :: Whole(c) && c.kind != CABX && c.kind != IEND
    ensures Whole(chunks[0]) && chunks[0].kind != CABX && chunks[0].kind != IEND
    ensures forall c <- chunks[1..] :: Whole(c) && c.kind != CABX && c.kind != IEND
    ensures AllChunks(chunks) + rest == ChunkBytes(chunks[0]) + (AllChunks(chunks[1..]) + rest)
    ensures |AllChunks(chunks)| == |ChunkBytes(chunks[0])| + |AllChunks(chunks[1..])|
  {
    hide ChunkBytes;
    TailIsWithin(chunks);
    assert AllChunks(chunks) == ChunkBytes(chunks[0]) + AllChunks(chunks[1..]);
    hide AllChunks;
    Regroup(ChunkBytes(chunks[0]), AllChunks(chunks[1..]), rest);
  }

  lemma TailIsWithin<T>(xs: seq<T>)
    requires xs != []
    ensures xs[0] in xs && forall x <- xs[1..] :: x in xs
  {
  }

  lemma PassesOver(asset: seq<Byte>, i: nat)
    requires ChunkAt(asset, i) && ChunkType(asset, i) != CABX && ChunkType(asset, i) != IEND
    ensures FirstManifestChunk(asset, i) == FirstManifestChunk(asset, i + 12 + Long(asset, i))
  {
    hide Long, ChunkType;
  }

  lemma SizeOfChunk(c: Chunk)
    requires Whole(c)
    ensures |ChunkBytes(c)| == 12 + |c.data|
  {
  }

  /** In an image laid out chunk by chunk the first manifest chunk before the end is
      found, with its data, and none is found if the image ends first. */
  lemma PngFinds(signature: seq<Byte>, before: seq<Chunk>, c: Chunk, rest: seq<Byte>)
    requires |signature| == 8 && Whole(c)
    requires forall x <- before :: Whole(x) && x.kind != CABX && x.kind != IEND
    ensures var at := 8 + |AllChunks(before)|;
            var asset := signature + (AllChunks(before) + (ChunkBytes(c) + rest));
            && (c.kind == CABX ==> FirstManifestChunk(asset, 8) == Some(at) && ChunkAt(asset, at)
                                   && Long(asset, at) == |c.data| && asset[at + 8..at + 8 + |c.data|] == c.data)
            && (c.kind == IEND ==> FirstManifestChunk(asset, 8) == None)
  {
    hide ChunkAt, ChunkType, Long, ChunkBytes, AllChunks;
    var asset := signature + (AllChunks(before) + (ChunkBytes(c) + rest));
    assert asset[8..] == AllChunks(before) + (ChunkBytes(c) + rest);
    OthersArePassed(asset, 8, before, ChunkBytes(c) + rest);
    ChunkIsRead(asset, 8 + |AllChunks(before)|, c, rest);
  }
}
