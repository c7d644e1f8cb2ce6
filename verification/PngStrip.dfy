/**
 `scripts/strip_metadata.py`, PNG part: two separate loops over the chunk layout of section 5.3
 of the PNG Specification (length, type, data, CRC), one reporting text and time chunks, one
 dropping them. Files are byte strings; nothing is assumed about them beyond the signature.
 */
module PngStrip {
  import opened Wrappers
  import opened FileSystem

  const SIGNATURE: Bytes := [0x89, 0x50, 0x4E, 0x47, 0x0D, 0x0A, 0x1A, 0x0A]
  /** The four bytes of a chunk type. */
  datatype Kind = Kind(a: Byte, b: Byte, c: Byte, d: Byte)

  const TEXT := Kind(0x74, 0x45, 0x58, 0x74)           // tEXt
  const INTERNATIONAL := Kind(0x69, 0x54, 0x58, 0x74)  // iTXt
  const COMPRESSED := Kind(0x7A, 0x54, 0x58, 0x74)     // zTXt
  const TIME := Kind(0x74, 0x49, 0x4D, 0x45)           // tIME
  const TIME_KEY: Bytes := [0x74, 0x49, 0x4D, 0x45]

  datatype Leak = Text(value: Bytes) | CreationTime

  function Min(a: nat, b: nat): nat {
    if a < b then a else b
  }

  /** A Python slice: bounds beyond the end are clamped. */
  function Slice(s: Bytes, a: nat, b: nat): (r: Bytes)
    requires a <= b
    ensures |r| == Min(b, |s|) - Min(a, |s|)
  {
    s[Min(a, |s|)..Min(b, |s|)]
  }

  /** `int.from_bytes(b, "big")`. */
  function FromBytes(b: Bytes): nat {
    if b == [] then 0 else 256 * FromBytes(b[..|b| - 1]) + b[|b| - 1] as int
  }

  function LengthAt(data: Bytes, at: nat): nat
    requires at + 4 <= |data|
  {
    FromBytes(data[at..at + 4])
  }

  /** `data[at : at + 4]`. */
  function KindAt(data: Bytes, at: nat): Kind
    requires at + 4 <= |data|
  {
    Kind(data[at], data[at + 1], data[at + 2], data[at + 3])
  }

  predicate IsText(kind: Kind) {
    kind == TEXT || kind == INTERNATIONAL || kind == COMPRESSED
  }

  predicate Identifies(kind: Kind) {
    IsText(kind) || kind == TIME
  }

  /** A chunk as the bytes it occupies, long enough for the loops' guard: length and type are there. */
  type Raw = raw: Bytes | |raw| > 8 witness [0, 0, 0, 0, 0, 0, 0, 0, 0]

  // ---- the walk that both loops perform -------------------------------------------------------

  function TotalAt(data: Bytes, pos: nat): nat
    requires pos + 8 < |data|
  {
    12 + LengthAt(data, pos)
  }

  /** The chunks from `pos` on, each as the bytes it occupies; a truncated one can only be last. */
  function Walk(data: Bytes, pos: nat): seq<Raw>
    decreases |data| - pos
  {
    if pos + 8 < |data|
    then [Slice(data, pos, pos + TotalAt(data, pos))] + Walk(data, pos + TotalAt(data, pos))
    else []
  }

  function Total(raw: Raw): nat
  {
    12 + LengthAt(raw, 0)
  }

  predicate Leaky(raw: Raw)
  {
    Identifies(KindAt(raw, 4))
  }

  /** What one chunk adds to the report: keyword and the start of its value, or a time stamp. */
  function Noted(leaks: map<Bytes, Leak>, kind: Kind, body: Bytes): map<Bytes, Leak> {
    if IsText(kind) then leaks[Keyword(body) := Text(Slice(Value(body), 0, 80))]
    else if kind == TIME then leaks[TIME_KEY := CreationTime]
    else leaks
  }

  function Note(leaks: map<Bytes, Leak>, raw: Raw): map<Bytes, Leak> {
    Noted(leaks, KindAt(raw, 4), Slice(raw, 8, Total(raw) - 4))
  }

  /** `bytes.partition(b"\x00")`. */
  function Keyword(body: Bytes): Bytes {
    if body == [] || body[0] == 0 then [] else [body[0]] + Keyword(body[1..])
  }

  function Value(body: Bytes): Bytes {
    if body == [] then [] else if body[0] == 0 then body[1..] else Value(body[1..])
  }

  function Report(leaks: map<Bytes, Leak>, raws: seq<Raw>): map<Bytes, Leak>
    decreases |raws|
  {
    if raws == [] then leaks else Report(Note(leaks, raws[0]), raws[1..])
  }

  function Kept(raws: seq<Raw>): (r: seq<Raw>)
    ensures forall raw | raw in r :: raw in raws && !Leaky(raw)
  {
    if raws == [] then [] else (if Leaky(raws[0]) then [] else [raws[0]]) + Kept(raws[1..])
  }

  function Concat(raws: seq<Raw>): Bytes {
    if raws == [] then [] else raws[0] + Concat(raws[1..])
  }

  /** What stripping keeps of the chunk at `pos` ... */
  function Piece(data: Bytes, pos: nat): Bytes
    requires pos + 8 < |data|
  {
    if Identifies(KindAt(data, pos + 4)) then [] else Slice(data, pos, pos + TotalAt(data, pos))
  }

  /** ... and of all the chunks from `pos` on. */
  function KeptFrom(data: Bytes, pos: nat): Bytes
    decreases |data| - pos
  {
    if pos + 8 < |data| then Piece(data, pos) + KeptFrom(data, pos + TotalAt(data, pos)) else []
  }

  function Stripped(data: Bytes): Bytes {
    SIGNATURE + KeptFrom(data, 8)
  }

  /** The chunk at `pos`, cut out, still shows its own length, type and data. */
  lemma CutChunk(data: Bytes, pos: nat)
    requires pos + 8 < |data|
    ensures
      var raw := Slice(data, pos, pos + TotalAt(data, pos));
      && |raw| > 8 && Total(raw) == TotalAt(data, pos)
      && KindAt(raw, 4) == KindAt(data, pos + 4)
      && Slice(raw, 8, Total(raw) - 4) == Slice(data, pos + 8, pos + 8 + LengthAt(data, pos))
  {
    var end := Min(pos + TotalAt(data, pos), |data|);
    var stop := Min(pos + TotalAt(data, pos) - 4, |data|);
    SliceOfSlice(data, pos, end, 0, 4);
    SliceOfSlice(data, pos, end, 8, stop - pos);
  }

  lemma SliceOfSlice(s: Bytes, a: nat, b: nat, c: nat, d: nat)
    requires c <= d && a + d <= b <= |s|
    ensures s[a..b][c..d] == s[a + c..a + d]
  {
    var cut := s[a..b];
    forall i | 0 <= i < d - c ensures cut[c..d][i] == s[a + c..a + d][i] {
      assert cut[c + i] == s[a + c + i];
    }
  }

  // ---- the two loops ---------------------------------------------------------------------------

  lemma WalkUnfolds(data: Bytes, pos: nat)
    requires pos + 8 < |data|
    ensures
      var next := pos + TotalAt(data, pos);
      Walk(data, pos) == [Slice(data, pos, next)] + Walk(data, next)
  {
  }

  /** One round of the scanning loop. */
  lemma ScanStep(data: Bytes, pos: nat, leaks: map<Bytes, Leak>)
    requires pos + 8 < |data|
    ensures
      var kind, body := KindAt(data, pos + 4), Slice(data, pos + 8, pos + 8 + LengthAt(data, pos));
      Report(leaks, Walk(data, pos)) == Report(Noted(leaks, kind, body), Walk(data, pos + TotalAt(data, pos)))
  {
    CutChunk(data, pos);
    WalkUnfolds(data, pos);
    assert Walk(data, pos)[1..] == Walk(data, pos + TotalAt(data, pos));
  }

  /** The body of the loop of `_scan_png`. */
  method ReportChunk(data: Bytes, pos: nat, before: map<Bytes, Leak>) returns (found: map<Bytes, Leak>, next: nat)
    requires pos + 8 < |data|
    ensures next == pos + TotalAt(data, pos) && Report(found, Walk(data, next)) == Report(before, Walk(data, pos))
  {
    hide LengthAt;
    var length := LengthAt(data, pos);
    var kind := KindAt(data, pos + 4);
    var body := Slice(data, pos + 8, pos + 8 + length);
    found, next := before, pos + 8 + length + 4;
    ScanStep(data, pos, before);
    if IsText(kind) {
      found := found[Keyword(body) := Text(Slice(Value(body), 0, 80))];
    } else if kind == TIME {
      found := found[TIME_KEY := CreationTime];
    }
  }

  method ReportChunks(data: Bytes) returns (found: map<Bytes, Leak>)
    ensures found == Report(map[], Walk(data, 8))
  {
    found := map[];
    var pos := 8;
    ghost var all := Report(map[], Walk(data, 8));
    while pos + 8 < |data|
      invariant Report(found, Walk(data, pos)) == all
      decreases |data| - pos
    {
      found, pos := ReportChunk(data, pos, found);
    }
    assert Walk(data, pos) == [];
  }

  method ScanPng(data: Bytes) returns (leaks: Option<map<Bytes, Leak>>)
    ensures leaks.Some? <==> SIGNATURE <= data
    ensures leaks.Some? ==> leaks.value == Report(map[], Walk(data, 8))
  {
    if !(SIGNATURE <= data) {
      return None;
    }
    var found := ReportChunks(data);
    leaks := Some(found);
  }

  lemma Append(before: Bytes, piece: Bytes, rest: Bytes)
    ensures before + piece + rest == before + (piece + rest)
    ensures before + [] == before
  {
  }

  lemma KeptFromUnfolds(data: Bytes, pos: nat)
    requires pos + 8 < |data|
    ensures KeptFrom(data, pos) == Piece(data, pos) + KeptFrom(data, pos + TotalAt(data, pos))
  {
  }

  /** One round of the loop below. */
  lemma KeepStep(data: Bytes, pos: nat, before: Bytes)
    requires pos + 8 < |data|
    ensures
      var next := pos + TotalAt(data, pos);
      if Identifies(KindAt(data, pos + 4)) then before + KeptFrom(data, next) == before + KeptFrom(data, pos)
      else before + Slice(data, pos, next) + KeptFrom(data, next) == before + KeptFrom(data, pos)
  {
    KeptFromUnfolds(data, pos);
    Append(before, Piece(data, pos), KeptFrom(data, pos + TotalAt(data, pos)));
  }

  lemma NothingKept(data: Bytes, pos: nat, before: Bytes)
    requires pos + 8 >= |data|
    ensures before + KeptFrom(data, pos) == before
  {
  }

  /** The body of the loop of `_strip_png`. */
  method CopyChunk(data: Bytes, pos: nat, before: Bytes) returns (out: Bytes, next: nat)
    requires pos + 8 < |data|
    ensures next == pos + TotalAt(data, pos) && out + KeptFrom(data, next) == before + KeptFrom(data, pos)
  {
    hide KeptFrom;
    var length := LengthAt(data, pos);
    var kind := KindAt(data, pos + 4);
    next := pos + (8 + length + 4);
    KeepStep(data, pos, before);
    out := if Identifies(kind) then before else before + Slice(data, pos, next);
  }

  /** The loop, once the signature has been copied. */
  method CopyOtherChunks(data: Bytes, header: Bytes) returns (out: Bytes)
    ensures out == header + KeptFrom(data, 8)
  {
    out := header;
    var pos := 8;
    ghost var all := header + KeptFrom(data, 8);
    while pos + 8 < |data|
      invariant out + KeptFrom(data, pos) == all
      decreases |data| - pos
    {
      out, pos := CopyChunk(data, pos, out);
    }
    NothingKept(data, pos, out);
  }

  method StripPng(data: Bytes) returns (out: Option<Bytes>)
    ensures out.Some? <==> SIGNATURE <= data
    ensures out.Some? ==> out.value == Stripped(data)
  {
    if !(SIGNATURE <= data) {
      return None;
    }
    var kept := CopyOtherChunks(data, SIGNATURE);
    out := Some(kept);
  }
}
