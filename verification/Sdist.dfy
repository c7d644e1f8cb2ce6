/**
 `canonicalize_sdist` of `scripts/release_artifacts.py` on logical archive members: tar and gzip
 stay outside, `packedSize` stands for the length of the encoded archive.
 */
module Sdist {
  import opened Wrappers
  import FileSystem

  type Bytes = FileSystem.Bytes

  const MAX_MEMBERS: nat := 100_000
  const MAX_DISTRIBUTION_BYTES: int := 100 * 1024 * 1024
  const MAX_EXPANDED_BYTES: int := 512 * 1024 * 1024
  const MAX_EPOCH: int := 0xFFFF_FFFF

  datatype Kind = Directory | Regular | Special
  datatype Owner = Owner(uid: int, gid: int, uname: string, gname: string)

  /** One member as `tarfile` reads it; `data` is what its payload yields, `size` what the header says. */
  datatype Member = Member(name: string, kind: Kind, mode: bv16, size: int, data: Bytes, owner: Owner, mtime: int)

  /** One member as it is written: uid, gid and both names are zero or empty. */
  datatype TarEntry = TarEntry(name: string, directory: bool, mode: bv16, mtime: int, content: Bytes)

  datatype Error =
    | BadEpoch | MemberCount | UnsafeName | Duplicate | LinkOrSpecial | BadSize | TooExpanded
    | SizeMismatch | ManyRoots | NoRootEntry | TooLarge

  // ---- names ----------------------------------------------------------------------------------

  /** `name.rstrip("/")`. */
  function Logical(name: string): string {
    if name != "" && name[|name| - 1] == '/' then Logical(name[..|name| - 1]) else name
  }

  function Part(x: string): seq<string> {
    if x == "" || x == "." then [] else [x]
  }

  /** The components of `s`, when `current` has been read since the last slash. */
  function PartsFrom(s: string, current: string): seq<string> {
    if s == "" then Part(current)
    else if s[0] == '/' then Part(current) + PartsFrom(s[1..], "")
    else PartsFrom(s[1..], current + [s[0]])
  }

  /** `PurePosixPath(name).parts` of a relative name: empty and `.` components vanish. */
  function Parts(s: string): seq<string> {
    PartsFrom(s, "")
  }

  /** `_validated_sdist_member_name` accepts the name. */
  predicate SafeName(name: string) {
    && name != "" && '\0' !in name && '\\' !in name && name[0] != '/'
    && ".." !in Parts(name)
    && Parts(name) != []
  }

  /** Python's order on strings, by code point. */
  predicate Before(a: string, b: string) {
    b != "" && (a == "" || a[0] < b[0] || (a[0] == b[0] && Before(a[1..], b[1..])))
  }

  // ---- what acceptance and output depend on ------------------------------------------------------

  /** A member without its spelling of a trailing slash, its owner, its time and its other mode bits. */
  datatype View = View(name: string, kind: Kind, executable: bool, size: int, data: Bytes)

  function ViewOf(m: Member): View {
    View(Logical(m.name), m.kind, m.kind.Directory? || m.mode & 0x49 != 0,
         if m.kind.Regular? then m.size else 0, if m.kind.Regular? then m.data else [])
  }

  function Views(ms: seq<Member>): (vs: seq<View>)
    ensures |vs| == |ms| && forall i | 0 <= i < |ms| :: vs[i] == ViewOf(ms[i])
  {
    seq(|ms|, i requires 0 <= i < |ms| => ViewOf(ms[i]))
  }

  function CanonicalName(v: View): string {
    v.name + (if v.kind.Directory? then "/" else "")
  }

  function Normal(v: View, epoch: int): TarEntry {
    TarEntry(CanonicalName(v), v.kind.Directory?, if v.executable then 0x1ED else 0x1A4, epoch, v.data)
  }

  function Normals(vs: seq<View>, epoch: int): (es: seq<TarEntry>)
    ensures |es| == |vs| && forall i | 0 <= i < |vs| :: es[i] == Normal(vs[i], epoch)
  {
    seq(|vs|, i requires 0 <= i < |vs| => Normal(vs[i], epoch))
  }

  predicate Sound(v: View) {
    && SafeName(v.name)
    && !v.kind.Special?
    && (v.kind.Regular? ==> 0 <= v.size <= MAX_DISTRIBUTION_BYTES && |v.data| == v.size)
  }

  function Expanded(vs: seq<View>): int {
    if vs == [] then 0 else Expanded(vs[..|vs| - 1]) + vs[|vs| - 1].size
  }

  predicate Distinct(vs: seq<View>) {
    forall i, j | 0 <= i < j < |vs| :: vs[i].name != vs[j].name
  }

  function Root(v: View): string {
    if Parts(v.name) == [] then "" else Parts(v.name)[0]
  }

  /** All members share their first component, and it is a member itself. */
  predicate OneRoot(vs: seq<View>) {
    exists v | v in vs :: v.name == Root(v) && forall u | u in vs :: Root(u) == Root(v)
  }

  predicate Accepted(vs: seq<View>) {
    && 1 <= |vs| <= MAX_MEMBERS
    && AllSound(vs)
    && Distinct(vs)
    && Expanded(vs) <= MAX_EXPANDED_BYTES
    && OneRoot(vs)
  }

  // ---- sorting ------------------------------------------------------------------------------------

  /** `sorted(..., key=name)`: the library's stable sort. */
  function Insert(e: TarEntry, es: seq<TarEntry>): seq<TarEntry> {
    if es == [] || !Before(es[0].name, e.name) then [e] + es else [es[0]] + Insert(e, es[1..])
  }

  function Sort(es: seq<TarEntry>): seq<TarEntry> {
    if es == [] then [] else Insert(es[0], Sort(es[1..]))
  }

  predicate StrictlySorted(es: seq<TarEntry>) {
    forall i, j | 0 <= i < j < |es| :: Before(es[i].name, es[j].name)
  }

  // ---- names, once more ---------------------------------------------------------------------------

  lemma {:induction false} PartsOfTrailingSlash(s: string, current: string)
    ensures PartsFrom(s + "/", current) == PartsFrom(s, current)
    decreases |s|
  {
    if s == "" {
      assert "/"[1..] == "";
    } else {
      assert (s + "/")[1..] == s[1..] + "/";
      if s[0] == '/' { PartsOfTrailingSlash(s[1..], ""); } else { PartsOfTrailingSlash(s[1..], current + [s[0]]); }
    }
  }

  /** Stripping trailing slashes changes neither the components nor the verdict on a name. */
  lemma {:induction false} LogicalNames(name: string)
    ensures Parts(Logical(name)) == Parts(name)
    ensures SafeName(name) <==> SafeName(Logical(name))
    ensures Logical(name) == "" || Logical(name)[|Logical(name)| - 1] != '/'
    decreases |name|
  {
    if name != "" && name[|name| - 1] == '/' {
      var rest := name[..|name| - 1];
      assert name == rest + "/";
      LogicalNames(rest);
      PartsOfTrailingSlash(rest, "");
      assert '\0' in name <==> '\0' in rest;
      assert '\\' in name <==> '\\' in rest;
    }
  }

  // ---- running totals -----------------------------------------------------------------------------

  lemma {:induction false} ExpandedGrows(vs: seq<View>, i: nat)
    requires i <= |vs| && AllSound(vs) && Weighed(vs)
    ensures Expanded(vs[..i]) <= Expanded(vs)
    decreases |vs|
  {
    if i < |vs| {
      var init := vs[..|vs| - 1];
      assert vs[|vs| - 1] in vs;
      ExpandedGrows(init, i);
      assert init[..i] == vs[..i];
    } else {
      assert vs[..i] == vs;
    }
  }

  lemma ExtendPrefix(vs: seq<View>, i: nat, epoch: int)
    requires i < |vs|
    ensures Normals(vs[..i + 1], epoch) == Normals(vs[..i], epoch) + [Normal(vs[i], epoch)]
    ensures Expanded(vs[..i + 1]) == Expanded(vs[..i]) + vs[i].size
    ensures Distinct(vs[..i + 1]) <==> Distinct(vs[..i]) && vs[i].name !in Names(vs[..i])
    ensures Names(vs[..i + 1]) == Names(vs[..i]) + {vs[i].name}
    ensures Roots(vs[..i + 1]) == Roots(vs[..i]) + {Root(vs[i])}
  {
    assert vs[..i + 1] == vs[..i] + [vs[i]];
    assert vs[..i + 1][..i] == vs[..i];
    ExtendDistinct(vs[..i], vs[i]);
  }

  lemma ExtendDistinct(vs: seq<View>, v: View)
    ensures Distinct(vs + [v]) <==> Distinct(vs) && v.name !in Names(vs)
    ensures Names(vs + [v]) == Names(vs) + {v.name} && Roots(vs + [v]) == Roots(vs) + {Root(v)}
  {
    var more := vs + [v];
    assert forall k | 0 <= k < |vs| :: more[k] == vs[k];
    assert more[|vs|] == v;
  }

  function Names(vs: seq<View>): set<string> {
    set v | v in vs :: v.name
  }

  function Roots(vs: seq<View>): set<string> {
    set v | v in vs :: Root(v)
  }

  /** The part of acceptance that the loop decides member by member. */
  predicate Readable(vs: seq<View>) {
    AllSound(vs) && Distinct(vs) && Expanded(vs) <= MAX_EXPANDED_BYTES
  }

  datatype Normalized = Normalized(entries: seq<TarEntry>, seen: set<string>, roots: set<string>)

  function Extended(n: Normalized, v: View, epoch: int): Normalized {
    Normalized(n.entries + [Normal(v, epoch)], n.seen + {v.name}, n.roots + {Root(v)})
  }

  /** The loop over the members, up to its first refusal. */
  function Scan(vs: seq<View>, epoch: int): Option<Normalized> {
    if vs == [] then Some(Normalized([], {}, {}))
    else
      var last := vs[|vs| - 1];
      match Scan(vs[..|vs| - 1], epoch)
      case Some(n) =>
        if Sound(last) && last.name !in n.seen && Expanded(vs) <= MAX_EXPANDED_BYTES
        then Some(Extended(n, last, epoch)) else None
      case None => None
  }

  /** Members whose sizes count: everything but regular files weighs nothing. */
  predicate Weighed(vs: seq<View>) {
    forall v | v in vs :: !v.kind.Regular? ==> v.size == 0
  }

  predicate AllSound(vs: seq<View>) {
    forall v | v in vs :: Sound(v)
  }

  lemma AllSoundStep(vs: seq<View>, i: nat)
    requires i + 1 == |vs|
    ensures AllSound(vs) <==> AllSound(vs[..i]) && Sound(vs[i])
  {
    assert vs == vs[..i] + [vs[i]];
  }

  lemma ReadableStep(vs: seq<View>, i: nat)
    requires Weighed(vs) && i + 1 == |vs|
    ensures Readable(vs) <==>
              Readable(vs[..i]) && Sound(vs[i]) && vs[i].name !in Names(vs[..i]) && Expanded(vs) <= MAX_EXPANDED_BYTES
  {
    assert vs[..i + 1] == vs;
    AllSoundStep(vs, i);
    ExtendPrefix(vs, i, 0);
    if AllSound(vs) {
      ExpandedGrows(vs, i);
    }
  }

  /** The loop accepts exactly the readable lists, whatever their order, and collects them. */
  lemma {:induction false} ScanMeans(vs: seq<View>, epoch: int)
    requires Weighed(vs)
    ensures Scan(vs, epoch).Some? <==> Readable(vs)
    ensures Readable(vs) ==> Scan(vs, epoch) == Some(Normalized(Normals(vs, epoch), Names(vs), Roots(vs)))
    decreases |vs|
  {
    if vs != [] {
      var i := |vs| - 1;
      assert Weighed(vs[..i]);
      ScanMeans(vs[..i], epoch);
      ReadableStep(vs, i);
      assert vs[..i + 1] == vs;
      ExtendPrefix(vs, i, epoch);
    } else {
      assert Normals(vs, epoch) == [] && Names(vs) == {} && Roots(vs) == {};
    }
  }

  lemma {:induction false} RefusalIsFinal(vs: seq<View>, i: nat, epoch: int)
    requires i <= |vs| && Scan(vs[..i], epoch).None?
    ensures Scan(vs, epoch).None?
    decreases |vs|
  {
    if i < |vs| {
      var init := vs[..|vs| - 1];
      assert init[..i] == vs[..i];
      RefusalIsFinal(init, i, epoch);
    } else {
      assert vs[..i] == vs;
    }
  }

  lemma Singleton<T>(s: set<T>, x: T)
    requires |s| == 1 && x in s
    ensures s == {x}
  {
    assert |s - {x}| == 0;
  }

  lemma OneRootMeansOneRoot(vs: seq<View>)
    requires vs != []
    ensures OneRoot(vs) <==> |Roots(vs)| == 1 && Roots(vs) <= Names(vs)
  {
    var r := Root(vs[0]);
    assert r in Roots(vs);
    if OneRoot(vs) {
      var v :| v in vs && v.name == Root(v) && forall u | u in vs :: Root(u) == Root(v);
      assert Roots(vs) == {Root(v)};
    }
    if |Roots(vs)| == 1 && Roots(vs) <= Names(vs) {
      Singleton(Roots(vs), r);
      var v :| v in vs && v.name == r;
      forall u | u in vs ensures Root(u) == r { assert Root(u) in Roots(vs); }
    }
  }

  lemma Verdict(vs: seq<View>, epoch: int)
    requires Weighed(vs)
    ensures Accepted(vs) <==>
              && 1 <= |vs| <= MAX_MEMBERS
              && Scan(vs, epoch).Some?
              && |Scan(vs, epoch).value.roots| == 1
              && Scan(vs, epoch).value.roots <= Scan(vs, epoch).value.seen
    ensures Scan(vs, epoch).Some? ==> Scan(vs, epoch).value.entries == Normals(vs, epoch)
  {
    ScanMeans(vs, epoch);
    if vs != [] { OneRootMeansOneRoot(vs); }
  }

  // ---- the program --------------------------------------------------------------------------------

  /** The kind, the limits and the payload of one member. */
  method ReadPayload(member: Member, expanded: int) returns (r: Result<Bytes, Error>)
    requires SafeName(member.name) && expanded <= MAX_EXPANDED_BYTES
    ensures r.Ok? <==> Sound(ViewOf(member)) && expanded + ViewOf(member).size <= MAX_EXPANDED_BYTES
    ensures r.Ok? ==> r.value == ViewOf(member).data
  {
    LogicalNames(member.name);
    if !member.kind.Directory? && !member.kind.Regular? {
      return Err(LinkOrSpecial);
    }
    var content: Bytes := [];
    if member.kind.Regular? {
      if member.size < 0 || member.size > MAX_DISTRIBUTION_BYTES {
        return Err(BadSize);
      }
      if expanded + member.size > MAX_EXPANDED_BYTES {
        return Err(TooExpanded);
      }
      content := if |member.data| > member.size + 1 then member.data[..member.size + 1] else member.data;
      if |content| != member.size {
        return Err(SizeMismatch);
      }
    }
    r := Ok(content);
  }

  /** What the scan of the first `i + 1` members adds to that of the first `i`. */
  lemma ScanStep(views: seq<View>, i: nat, epoch: int, n: Normalized)
    requires i < |views| && Scan(views[..i], epoch) == Some(n)
    ensures Expanded(views[..i + 1]) == Expanded(views[..i]) + views[i].size
    ensures Scan(views[..i + 1], epoch) ==
              if Sound(views[i]) && views[i].name !in n.seen
                 && Expanded(views[..i]) + views[i].size <= MAX_EXPANDED_BYTES
              then Some(Extended(n, views[i], epoch)) else None
    ensures Scan(views[..i + 1], epoch).None? ==> Scan(views, epoch).None?
  {
    var upTo := views[..i + 1];
    assert upTo[..|upTo| - 1] == views[..i];
    if Scan(upTo, epoch).None? { RefusalIsFinal(views, i + 1, epoch); }
  }

  method NormalizeMembers(members: seq<Member>, epoch: int) returns (r: Result<Normalized, Error>)
    ensures r.Ok? <==> Scan(Views(members), epoch).Some?
    ensures r.Ok? ==> Scan(Views(members), epoch) == Some(r.value)
  {
    ghost var views := Views(members);
    var n := Normalized([], {}, {});
    var expanded := 0;
    for i := 0 to |members|
      invariant Scan(views[..i], epoch) == Some(n)
      invariant expanded == Expanded(views[..i]) <= MAX_EXPANDED_BYTES
    {
      var member := members[i];
      LogicalNames(member.name);
      ScanStep(views, i, epoch, n);
      if !SafeName(member.name) {
        return Err(UnsafeName);
      }
      var logical := Logical(member.name);
      if logical in n.seen {
        return Err(Duplicate);
      }
      var content :- ReadPayload(member, expanded);
      if member.kind.Regular? {
        expanded := expanded + member.size;
      }
      var name := logical + (if member.kind.Directory? then "/" else "");
      var mode: bv16 := if member.kind.Directory? || member.mode & 0x49 != 0 then 0x1ED else 0x1A4;
      n := Normalized(n.entries + [TarEntry(name, member.kind.Directory?, mode, epoch, content)],
                      n.seen + {logical}, n.roots + {Parts(member.name)[0]});
    }
    assert views[..|members|] == views;
    r := Ok(n);
  }

  method CanonicalizeSdist(members: seq<Member>, epoch: int, packedSize: seq<TarEntry> -> int)
      returns (r: Result<seq<TarEntry>, Error>)
    ensures r.Ok? <==>
              && 0 <= epoch <= MAX_EPOCH && Accepted(Views(members))
              && packedSize(Sort(Normals(Views(members), epoch))) <= MAX_DISTRIBUTION_BYTES
    ensures r.Ok? ==> r.value == Sort(Normals(Views(members), epoch))
  {
    if epoch < 0 || epoch > MAX_EPOCH {
      return Err(BadEpoch);
    }
    if members == [] || |members| > MAX_MEMBERS {
      return Err(MemberCount);
    }
    Verdict(Views(members), epoch);
    var n :- NormalizeMembers(members, epoch);
    if |n.roots| != 1 {
      return Err(ManyRoots);
    }
    var root :| root in n.roots;
    Singleton(n.roots, root);
    if root !in n.seen {
      return Err(NoRootEntry);
    }
    var output := Sort(n.entries);
    if packedSize(output) > MAX_DISTRIBUTION_BYTES {
      return Err(TooLarge);
    }
    r := Ok(output);
  }
}
