/**
 What the two PNG loops have to do with each other: the walk over the chunks, what stripping keeps of
 it, and the round trip over well-formed files.
 */
module PngTheorems {
  import opened FileSystem
  import opened PngStrip

  lemma KeptCons(raw: Raw, rest: seq<Raw>, walk: seq<Raw>, piece: Bytes, kept: Bytes)
    requires walk == [raw] + rest && piece == (if Leaky(raw) then [] else raw)
    requires kept == piece + Concat(Kept(rest))
    ensures kept == Concat(Kept(walk))
  {
    assert walk[1..] == rest;
    if Leaky(raw) {
      assert Kept(walk) == Kept(rest);
    } else {
      assert Kept(walk)[1..] == Kept(rest);
    }
  }

  lemma PieceIsKept(data: Bytes, pos: nat)
    requires pos + 8 < |data|
    ensures
      var raw := Slice(data, pos, pos + TotalAt(data, pos));
      |raw| > 8 && Piece(data, pos) == if Leaky(raw) then [] else raw
  {
    CutChunk(data, pos);
  }

  /** The loop keeps the chunks that are not leaks, in the order of the walk. */
  lemma {:induction false} KeptFromWalk(data: Bytes, pos: nat)
    ensures KeptFrom(data, pos) == Concat(Kept(Walk(data, pos)))
    decreases |data| - pos
  {
    hide Min;
    if pos + 8 < |data| {
      var next := pos + TotalAt(data, pos);
      PieceIsKept(data, pos);
      KeptFromWalk(data, next);
      KeptFromUnfolds(data, pos);
      WalkUnfolds(data, pos);
      KeptCons(Slice(data, pos, next), Walk(data, next), Walk(data, pos), Piece(data, pos), KeptFrom(data, pos));
    }
  }

  // ---- a list of cut chunks walks back to itself ------------------------------------------------

  /** Every chunk is complete, but for the last one, which may be cut short. */
  predicate Chained(raws: seq<Raw>) {
    forall i | 0 <= i < |raws| ::
      && |raws[i]| <= Total(raws[i])
      && (i + 1 < |raws| ==> |raws[i]| == Total(raws[i]))
  }

  lemma {:induction false} WalkIsChained(data: Bytes, pos: nat)
    ensures Chained(Walk(data, pos))
    decreases |data| - pos
  {
    if pos + 8 < |data| {
      CutChunk(data, pos);
      WalkIsChained(data, pos + TotalAt(data, pos));
    }
  }

  lemma {:induction false} KeptIsChained(raws: seq<Raw>)
    requires Chained(raws)
    ensures Chained(Kept(raws))
  {
    if raws != [] {
      KeptIsChained(raws[1..]);
      if |raws| == 1 { assert Kept(raws[1..]) == []; }
    }
  }

  /** A chunk put back between `prefix` and `tail` is cut out again as it was. */
  lemma CutBack(data: Bytes, prefix: Bytes, raw: Raw, tail: Bytes)
    requires data == prefix + raw + tail
    requires |raw| <= Total(raw) && (|raw| < Total(raw) ==> tail == [])
    ensures |prefix| + 8 < |data| && TotalAt(data, |prefix|) == Total(raw)
    ensures Slice(data, |prefix|, |prefix| + Total(raw)) == raw
  {
    assert data[|prefix|..|prefix| + 4] == raw[0..4];
    assert data[|prefix|..|prefix| + |raw|] == raw;
  }

  lemma {:induction false} WalkOfConcat(prefix: Bytes, raws: seq<Raw>)
    requires Chained(raws)
    ensures Walk(prefix + Concat(raws), |prefix|) == raws
    decreases |raws|
  {
    var data := prefix + Concat(raws);
    if raws != [] {
      var raw, rest := raws[0], raws[1..];
      assert data == prefix + raw + Concat(rest);
      CutBack(data, prefix, raw, Concat(rest));
      WalkOfConcat(prefix + raw, rest);
      if rest == [] {
        assert Walk(data, |prefix| + Total(raw)) == [];
      }
    }
  }

  lemma {:induction false} KeptIsFixed(raws: seq<Raw>)
    requires forall raw | raw in raws :: !Leaky(raw)
    ensures Kept(raws) == raws
    ensures forall leaks :: Report(leaks, raws) == leaks
  {
    if raws != [] {
      KeptIsFixed(raws[1..]);
    }
  }

  // ---- main results -----------------------------------------------------------------------------

  /**
   For every file with the signature, truncated ones included: the chunks of the stripped file are
   exactly the other chunks of the original, in order and byte for byte; scanning it reports
   nothing; and stripping it again changes nothing.
   */
  lemma StripRemovesExactlyTheLeaks(data: Bytes)
    ensures Walk(Stripped(data), 8) == Kept(Walk(data, 8))
    ensures Report(map[], Walk(Stripped(data), 8)) == map[]
    ensures Stripped(Stripped(data)) == Stripped(data)
  {
    KeptFromWalk(data, 8);
    var kept := Kept(Walk(data, 8));
    WalkIsChained(data, 8);
    KeptIsChained(Walk(data, 8));
    WalkOfConcat(SIGNATURE, kept);
    KeptIsFixed(kept);
    KeptFromWalk(Stripped(data), 8);
  }

  lemma {:induction false} ReportOnlyGrows(leaks: map<Bytes, Leak>, raws: seq<Raw>)
    ensures leaks.Keys <= Report(leaks, raws).Keys
    ensures (exists raw | raw in raws :: Leaky(raw)) ==> Report(leaks, raws) != map[]
    decreases |raws|
  {
    if raws != [] {
      var noted := Note(leaks, raws[0]);
      ReportOnlyGrows(noted, raws[1..]);
      if Leaky(raws[0]) {
        var key := if IsText(KindAt(raws[0], 4)) then Keyword(Slice(raws[0], 8, Total(raws[0]) - 4)) else TIME_KEY;
        assert key in noted;
        assert key in Report(leaks, raws);
      }
    }
  }

  lemma {:induction false} WalkCoversData(data: Bytes, pos: nat)
    requires pos <= |data|
    ensures |Concat(Walk(data, pos))| <= |data| - pos <= |Concat(Walk(data, pos))| + 8
    ensures Concat(Walk(data, pos)) == data[pos..pos + |Concat(Walk(data, pos))|]
    decreases |data| - pos
  {
    if pos + 8 < |data| {
      var raw, next := Slice(data, pos, pos + TotalAt(data, pos)), pos + TotalAt(data, pos);
      assert Walk(data, pos)[1..] == Walk(data, next);
      if next <= |data| {
        WalkCoversData(data, next);
      } else {
        assert Walk(data, next) == [];
      }
    }
  }

  lemma {:induction false} KeptLength(raws: seq<Raw>)
    ensures |Concat(Kept(raws))| <= |Concat(raws)|
    ensures (exists raw | raw in raws :: Leaky(raw)) ==> |Concat(Kept(raws))| + 9 <= |Concat(raws)|
  {
    if raws != [] {
      KeptLength(raws[1..]);
      if Leaky(raws[0]) {
        assert Kept(raws) == Kept(raws[1..]);
      } else {
        assert Kept(raws)[1..] == Kept(raws[1..]);
        assert raws == [raws[0]] + raws[1..];
      }
    }
  }

  /**
   The two loops agree on what is a leak: the scan reports nothing exactly if stripping loses
   nothing but at most eight bytes too few to form a chunk.
   */
  lemma ScanAndStripAgree(data: Bytes)
    requires SIGNATURE <= data
    ensures Report(map[], Walk(data, 8)) == map[] <==> Stripped(data) <= data && |data| <= |Stripped(data)| + 8
  {
    KeptFromWalk(data, 8);
    var raws := Walk(data, 8);
    WalkCoversData(data, 8);
    KeptLength(raws);
    ReportOnlyGrows(map[], raws);
    if forall raw | raw in raws :: !Leaky(raw) {
      KeptIsFixed(raws);
      assert data == SIGNATURE + data[8..];
      assert Stripped(data) == data[..8 + |Concat(raws)|];
    }
  }

  /** Stripping gives the file back exactly if nothing is reported and the chunks cover it to its end. */
  lemma StripIsIdentityExactlyWhen(data: Bytes)
    requires SIGNATURE <= data
    ensures Stripped(data) == data <==> Report(map[], Walk(data, 8)) == map[] && |Concat(Walk(data, 8))| == |data| - 8
  {
    ScanAndStripAgree(data);
    StrippedLength(data);
    WalkCoversData(data, 8);
    if Stripped(data) <= data && |Stripped(data)| == |data| {
      assert Stripped(data) == data;
    }
  }

  lemma StrippedLength(data: Bytes)
    ensures |Stripped(data)| <= 8 + |Concat(Walk(data, 8))|
    ensures Report(map[], Walk(data, 8)) == map[] ==> |Stripped(data)| == 8 + |Concat(Walk(data, 8))|
  {
    var raws := Walk(data, 8);
    KeptFromWalk(data, 8);
    KeptLength(raws);
    ReportOnlyGrows(map[], raws);
    if forall raw | raw in raws :: !Leaky(raw) { KeptIsFixed(raws); }
  }

  /** So a clean file with up to eight bytes that make no chunk behind its signature does change. */
  lemma ShortTailIsDropped(tail: Bytes)
    requires 1 <= |tail| <= 8
    ensures
      var data := SIGNATURE + tail;
      Report(map[], Walk(data, 8)) == map[] && Stripped(data) == SIGNATURE != data
  {
    assert |SIGNATURE + tail| == 8 + |tail|;
    assert KeptFrom(SIGNATURE + tail, 8) == [];
    assert Walk(SIGNATURE + tail, 8) == [];
  }

  // ---- well-formed files --------------------------------------------------------------------------

  datatype Chunk = Chunk(kind: Kind, body: Bytes, crc: Bytes)

  predicate WellFormed(c: Chunk) {
    |c.crc| == 4 && |c.body| < Power256(4)
  }

  function ToBytes(n: nat, width: nat): (b: Bytes)
    ensures |b| == width
  {
    if width == 0 then [] else ToBytes(n / 256, width - 1) + [n % 256]
  }

  function Power256(width: nat): nat {
    if width == 0 then 1 else 256 * Power256(width - 1)
  }

  lemma {:induction false} BytesRoundTrip(n: nat, width: nat)
    requires n < Power256(width)
    ensures FromBytes(ToBytes(n, width)) == n
  {
    if width > 0 {
      BytesRoundTrip(n / 256, width - 1);
      assert ToBytes(n, width)[..width - 1] == ToBytes(n / 256, width - 1);
    }
  }

  function Encode(c: Chunk): Raw
    requires WellFormed(c)
  {
    ToBytes(|c.body|, 4) + [c.kind.a, c.kind.b, c.kind.c, c.kind.d] + c.body + c.crc
  }

  function EncodeAll(cs: seq<Chunk>): seq<Raw>
    requires forall c | c in cs :: WellFormed(c)
  {
    if cs == [] then [] else [Encode(cs[0])] + EncodeAll(cs[1..])
  }

  predicate Identifying(c: Chunk) {
    Identifies(c.kind)
  }

  function Others(cs: seq<Chunk>): (r: seq<Chunk>)
    ensures forall c | c in r :: c in cs
  {
    if cs == [] then [] else (if Identifying(cs[0]) then [] else [cs[0]]) + Others(cs[1..])
  }

  lemma EncodedChunk(c: Chunk)
    requires WellFormed(c)
    ensures
      var raw := Encode(c);
      |raw| == Total(raw) && (Leaky(raw) <==> Identifying(c))
  {
    var raw := Encode(c);
    BytesRoundTrip(|c.body|, 4);
    assert raw[0..4] == ToBytes(|c.body|, 4);
    assert KindAt(raw, 4) == c.kind;
  }

  lemma KeptOfEncoding(cs: seq<Chunk>)
    requires cs != [] && (forall c | c in cs :: WellFormed(c))
    requires Kept(EncodeAll(cs[1..])) == EncodeAll(Others(cs[1..]))
    ensures Kept(EncodeAll(cs)) == EncodeAll(Others(cs))
  {
    EncodedChunk(cs[0]);
    assert EncodeAll(cs)[1..] == EncodeAll(cs[1..]);
    if Identifying(cs[0]) {
      assert Others(cs) == Others(cs[1..]);
    } else {
      assert Others(cs)[1..] == Others(cs[1..]);
    }
  }

  lemma {:induction false} EncodedChunks(cs: seq<Chunk>)
    requires forall c | c in cs :: WellFormed(c)
    ensures Chained(EncodeAll(cs))
    ensures Kept(EncodeAll(cs)) == EncodeAll(Others(cs))
  {
    if cs != [] {
      EncodedChunk(cs[0]);
      EncodedChunks(cs[1..]);
      assert EncodeAll(cs)[1..] == EncodeAll(cs[1..]);
      KeptOfEncoding(cs);
    }
  }

  /** Round trip: a well-formed file is stripped to the encoding of its other chunks, CRCs and all. */
  lemma StripWellFormedFile(cs: seq<Chunk>)
    requires forall c | c in cs :: WellFormed(c)
    ensures
      var file := SIGNATURE + Concat(EncodeAll(cs));
      && Walk(file, 8) == EncodeAll(cs)
      && Stripped(file) == SIGNATURE + Concat(EncodeAll(Others(cs)))
  {
    EncodedChunks(cs);
    WalkOfConcat(SIGNATURE, EncodeAll(cs));
    KeptFromWalk(SIGNATURE + Concat(EncodeAll(cs)), 8);
  }
}
