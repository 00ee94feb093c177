/**
 The native-layer manifest (src/profile/manifest.rs): a file tree flattened to a list of paths and
 bytes, and the extraction of such a list, which may come from anyone, below a destination root.
 */
module Manifest {
  import opened Prelude
  import opened Lists

  /** A path as its components: below the profile root, or on the destination from `/`. */
  type Path = seq<string>

  datatype ManifestEntry = ManifestEntry(path: string, bytes: Bytes)

  // ---------------------------------------------------------------- the tree that is packed

  /** `Link` carries what it resolves to; `Unreadable` is a file or directory whose reading fails. */
  datatype Node = File(bytes: Bytes) | Dir(entries: seq<Entry>) | Link(target: Node) | Other | Unreadable(dir: bool)

  datatype Entry = Entry(name: string, node: Node)

  predicate Ordinary(name: string) {
    name != "" && name != "." && name != ".." && '/' !in name
  }

  ghost predicate OrdinaryPath(p: Path) {
    forall i :: 0 <= i < |p| ==> Ordinary(p[i])
  }

  /** What a file system guarantees of a directory: ordinary and distinct names. */
  ghost predicate Valid(n: Node) {
    match n
    case Dir(es) =>
      && (forall i :: 0 <= i < |es| ==> Ordinary(es[i].name) && Valid(es[i].node))
      && (forall i, j :: 0 <= i < j < |es| ==> es[i].name != es[j].name)
    case Link(target) => Valid(target)
    case _ => true
  }

  function Find(es: seq<Entry>, name: string): (r: Option<Node>)
    ensures r.Some? ==> exists i :: 0 <= i < |es| && es[i] == Entry(name, r.value)
    ensures r.None? ==> forall i :: 0 <= i < |es| ==> es[i].name != name
  {
    if es == [] then None
    else
      var n := |es| - 1;
      if es[n].name == name then Some(es[n].node) else Find(es[..n], name)
  }

  /** The node at a path, links not followed. */
  function Lookup(n: Node, p: Path): Option<Node>
    decreases |p|
  {
    if p == [] then Some(n)
    else if !n.Dir? then None
    else
      var child := Find(n.entries, p[0]);
      if child.None? then None else Lookup(child.value, p[1..])
  }

  function Follow(n: Node): Node {
    if n.Link? then Follow(n.target) else n
  }

  /** The node at a path, links followed everywhere, as opening the path does. */
  function Resolve(n: Node, p: Path): Option<Node>
    decreases |p|
  {
    var n := Follow(n);
    if p == [] then Some(n)
    else if !n.Dir? then None
    else
      var child := Find(n.entries, p[0]);
      if child.None? then None else Resolve(child.value, p[1..])
  }

  // ---------------------------------------------------------------- packing

  // "Default/IndexedDB" and "Default/Service Worker", by component.
  const STORES: seq<Path> := [["Default", "IndexedDB"], ["Default", "Service Worker"]]

  /** A regular file found by the walk, before its path is written out. */
  datatype Found = Found(path: Path, bytes: Bytes)

  function Full(n: Node): nat {
    if n.Dir? then |n.entries| else 0
  }

  /** The regular files at or below a node, in reading order; of a directory only the first `k` entries. */
  function Walk(at: Path, n: Node, k: nat): seq<Found>
    requires n.Dir? ==> k <= |n.entries|
    decreases n, k
  {
    match n
    case File(bytes) => [Found(at, bytes)]
    case Dir(es) => if k == 0 then [] else Walk(at, n, k - 1) + WalkAll(at + [es[k - 1].name], es[k - 1].node)
    case _ => []
  }

  function WalkAll(at: Path, n: Node): seq<Found>
    decreases n, Full(n) + 1
  {
    Walk(at, n, Full(n))
  }

  /** Nothing that fails to be read is met by walking the first `k` entries. */
  predicate Readable(n: Node, k: nat)
    requires n.Dir? ==> k <= |n.entries|
    decreases n, k
  {
    match n
    case Dir(es) => k == 0 || (Readable(n, k - 1) && AllReadable(es[k - 1].node))
    case Unreadable(_) => false
    case _ => true
  }

  predicate AllReadable(n: Node)
    decreases n, Full(n) + 1
  {
    Readable(n, Full(n))
  }

  function Written(found: seq<Found>): seq<ManifestEntry> {
    if found == [] then []
    else
      var n := |found| - 1;
      Written(found[..n]) + [ManifestEntry(Join(found[n].path, '/'), found[n].bytes)]
  }

  lemma {:induction false} WrittenAt(found: seq<Found>)
    ensures |Written(found)| == |found|
    ensures forall i :: 0 <= i < |found| ==>
              Written(found)[i] == ManifestEntry(Join(found[i].path, '/'), found[i].bytes)
  {
    if found != [] {
      WrittenAt(found[..|found| - 1]);
    }
  }

  lemma {:induction false} WrittenConcat(a: seq<Found>, b: seq<Found>)
    ensures Written(a + b) == Written(a) + Written(b)
  {
    if b == [] {
      assert a + b == a;
    } else {
      var n := |b| - 1;
      assert (a + b)[..|a + b| - 1] == a + b[..n];
      WrittenConcat(a, b[..n]);
    }
  }

  lemma WalkStep(at: Path, dir: Node, k: nat, before: seq<ManifestEntry>)
    requires dir.Dir? && k < |dir.entries|
    ensures var e := dir.entries[k];
            && before + Written(Walk(at, dir, k + 1))
               == before + Written(Walk(at, dir, k)) + Written(WalkAll(at + [e.name], e.node))
            && (Readable(dir, k + 1) <==> Readable(dir, k) && AllReadable(e.node))
  {
    WrittenConcat(Walk(at, dir, k), WalkAll(at + [dir.entries[k].name], dir.entries[k].node));
  }

  lemma WalkLeaf(at: Path, n: Node)
    requires !n.Dir? && !n.Unreadable?
    ensures AllReadable(n)
    ensures Written(WalkAll(at, n)) == if n.File? then [ManifestEntry(Join(at, '/'), n.bytes)] else []
  {
  }

  /** What the walk has appended after the first `k` entries. */
  function PackedSoFar(at: Path, dir: Node, k: nat, before: seq<ManifestEntry>): Option<seq<ManifestEntry>>
    requires dir.Dir? && k <= |dir.entries|
  {
    if Readable(dir, k) then Some(before + Written(Walk(at, dir, k))) else None
  }

  lemma NothingWalked(at: Path, dir: Node, before: seq<ManifestEntry>)
    requires dir.Dir?
    ensures PackedSoFar(at, dir, 0, before) == Some(before)
  {
    assert before + [] == before;
  }

  lemma PackedStep(at: Path, dir: Node, k: nat, before: seq<ManifestEntry>)
    requires dir.Dir? && k < |dir.entries| && PackedSoFar(at, dir, k, before).Some?
    ensures var e := dir.entries[k];
            PackedSoFar(at, dir, k + 1, before)
            == if AllReadable(e.node)
               then Some(PackedSoFar(at, dir, k, before).value + Written(WalkAll(at + [e.name], e.node)))
               else None
  {
    WalkStep(at, dir, k, before);
  }

  /** `pack_walk`: appends the regular files below a directory; `None` on a read that fails. */
  method PackWalk(at: Path, dir: Node, before: seq<ManifestEntry>) returns (out: Option<seq<ManifestEntry>>)
    requires dir.Dir? || dir.Unreadable?
    ensures out == if AllReadable(dir) then Some(before + Written(WalkAll(at, dir))) else None
    decreases dir, 0
  {
    if dir.Unreadable? {
      return None;
    }
    out := Some(before);
    NothingWalked(at, dir, before);
    var k := 0;
    while k < |dir.entries| && out.Some?
      invariant k <= |dir.entries| && out == PackedSoFar(at, dir, k, before)
    {
      PackedStep(at, dir, k, before);
      out := PackEntry(at + [dir.entries[k].name], dir.entries[k].node, out.value);
      k := k + 1;
    }
    PackedToTheEnd(at, dir, k, before);
  }

  /** The walk ends at its last entry or at the first that fails. */
  lemma PackedToTheEnd(at: Path, dir: Node, k: nat, before: seq<ManifestEntry>)
    requires dir.Dir? && k <= |dir.entries|
    requires k == |dir.entries| || PackedSoFar(at, dir, k, before).None?
    ensures PackedSoFar(at, dir, k, before)
         == if AllReadable(dir) then Some(before + Written(WalkAll(at, dir))) else None
  {
    if !Readable(dir, k) {
      StaysUnreadable(dir, k, |dir.entries|);
    }
  }

  method PackEntry(path: Path, node: Node, before: seq<ManifestEntry>) returns (out: Option<seq<ManifestEntry>>)
    ensures out == if AllReadable(node) then Some(before + Written(WalkAll(path, node))) else None
    decreases node, 1
  {
    if node.Dir? || node.Unreadable? {
      out := PackWalk(path, node, before);
    } else {
      WalkLeaf(path, node);
      if node.File? {
        out := Some(before + [ManifestEntry(Join(path, '/'), node.bytes)]);
      } else {
        out := Some(before);
        assert before + [] == before;
      }
    }
  }

  lemma {:induction false} StaysUnreadable(dir: Node, j: nat, k: nat)
    requires dir.Dir? && j <= k <= |dir.entries| && !Readable(dir, j)
    ensures !Readable(dir, k)
    decreases k
  {
    if j < k {
      StaysUnreadable(dir, j, k - 1);
    }
  }

  /** A store is walked when opening its path finds a directory, that is, through links. */
  function StoreFiles(root: Node, store: Path): seq<Found> {
    var n := Resolve(root, store);
    if n.Some? && n.value.Dir? then WalkAll(store, n.value) else []
  }

  function AllFiles(root: Node, stores: seq<Path>): seq<Found> {
    if stores == [] then []
    else
      var n := |stores| - 1;
      AllFiles(root, stores[..n]) + StoreFiles(root, stores[n])
  }

  predicate StoreReadable(root: Node, store: Path) {
    var n := Resolve(root, store);
    n.Some? && (n.value.Dir? || n.value == Unreadable(true)) ==> AllReadable(n.value)
  }

  predicate Packable(root: Node, stores: seq<Path>) {
    forall i :: 0 <= i < |stores| ==> StoreReadable(root, stores[i])
  }

  /** The manifest of a profile. */
  function Packed(root: Node): seq<ManifestEntry> {
    Written(AllFiles(root, STORES))
  }

  method PackNative(root: Node) returns (out: Option<seq<ManifestEntry>>)
    ensures out == if Packable(root, STORES) then Some(Packed(root)) else None
  {
    out := PackStores(root, STORES);
  }

  lemma StoreStep(root: Node, stores: seq<Path>, k: nat)
    requires k < |stores|
    ensures Written(AllFiles(root, stores[..k + 1]))
         == Written(AllFiles(root, stores[..k])) + Written(StoreFiles(root, stores[k]))
  {
    assert stores[..k + 1][..k] == stores[..k];
    WrittenConcat(AllFiles(root, stores[..k]), StoreFiles(root, stores[k]));
  }

  lemma PackableStep(root: Node, stores: seq<Path>, k: nat)
    requires k < |stores|
    ensures Packable(root, stores[..k + 1]) <==> Packable(root, stores[..k]) && StoreReadable(root, stores[k])
    ensures Packable(root, stores) ==> StoreReadable(root, stores[k])
  {
    assert stores[..k + 1] == stores[..k] + [stores[k]];
  }

  method PackStores(root: Node, stores: seq<Path>) returns (out: Option<seq<ManifestEntry>>)
    ensures out == if Packable(root, stores) then Some(Written(AllFiles(root, stores))) else None
  {
    out := Some([]);
    var k := 0;
    while k < |stores| && out.Some?
      invariant k <= |stores|
      invariant out.Some? ==> Packable(root, stores[..k]) && out.value == Written(AllFiles(root, stores[..k]))
      invariant out.None? ==> !Packable(root, stores)
    {
      StoreStep(root, stores, k);
      PackableStep(root, stores, k);
      out := PackStore(root, stores[k], out.value);
      k := k + 1;
    }
    assert stores[..|stores|] == stores;
  }

  method PackStore(root: Node, store: Path, before: seq<ManifestEntry>) returns (out: Option<seq<ManifestEntry>>)
    ensures out == if StoreReadable(root, store) then Some(before + Written(StoreFiles(root, store))) else None
  {
    var dir := Resolve(root, store);
    if dir.Some? && (dir.value.Dir? || dir.value == Unreadable(true)) {
      out := PackWalk(store, dir.value, before);
    } else {
      out := Some(before);
      assert before + [] == before;
    }
  }

  // ---------------------------------------------------------------- what the walk finds

  /** Names a directory uses once are found at the entry that has them. */
  lemma FindAt(es: seq<Entry>, i: nat)
    requires i < |es| && forall i, j :: 0 <= i < j < |es| ==> es[i].name != es[j].name
    ensures Find(es, es[i].name) == Some(es[i].node)
  {
  }

  lemma LookupStep(n: Node, i: nat, below: Path)
    requires Valid(n) && n.Dir? && i < |n.entries|
    ensures Lookup(n, [n.entries[i].name] + below) == Lookup(n.entries[i].node, below)
  {
    FindAt(n.entries, i);
    assert ([n.entries[i].name] + below)[1..] == below;
  }

  lemma FoundBelow(at: Path, n: Node, i: nat, f: Found, below: Path)
    requires Valid(n) && n.Dir? && i < |n.entries| && OrdinaryPath(below)
    requires f.path == at + [n.entries[i].name] + below && Lookup(n.entries[i].node, below) == Some(File(f.bytes))
    ensures var rest := [n.entries[i].name] + below;
            f.path == at + rest && OrdinaryPath(rest) && Lookup(n, rest) == Some(File(f.bytes))
  {
    LookupStep(n, i, below);
  }

  /** Every file of the walk is at its node in the tree, by a path of ordinary names. */
  lemma {:induction false} WalkSound(at: Path, n: Node, k: nat, f: Found) returns (rest: Path)
    requires Valid(n) && (n.Dir? ==> k <= |n.entries|) && f in Walk(at, n, k)
    ensures f.path == at + rest && OrdinaryPath(rest) && Lookup(n, rest) == Some(File(f.bytes))
    ensures n.Dir? ==> rest != [] && exists i :: 0 <= i < k && n.entries[i].name == rest[0]
    decreases n, k
  {
    rest := [];
    if n.Dir? {
      if f in Walk(at, n, k - 1) {
        rest := WalkSound(at, n, k - 1, f);
      } else {
        var e := n.entries[k - 1];
        var below := WalkSound(at + [e.name], e.node, Full(e.node), f);
        rest := [e.name] + below;
        FoundBelow(at, n, k - 1, f, below);
      }
    }
  }

  /** Every regular file the tree has at a path is in the walk. */
  lemma {:induction false} WalkComplete(at: Path, n: Node, rest: Path, bytes: Bytes)
    requires Lookup(n, rest) == Some(File(bytes))
    ensures Found(at + rest, bytes) in WalkAll(at, n)
    decreases |rest|
  {
    if rest == [] {
      assert at + rest == at;
    } else {
      var i :| 0 <= i < |n.entries| && n.entries[i] == Entry(rest[0], Find(n.entries, rest[0]).value);
      WalkComplete(at + [rest[0]], n.entries[i].node, rest[1..], bytes);
      assert at + rest == at + [rest[0]] + rest[1..];
      WalkGrows(at, n, i + 1, |n.entries|, Found(at + rest, bytes));
    }
  }

  lemma {:induction false} WalkGrows(at: Path, n: Node, j: nat, k: nat, f: Found)
    requires n.Dir? && j <= k <= |n.entries| && f in Walk(at, n, j)
    ensures f in Walk(at, n, k)
    decreases k
  {
    if j < k {
      WalkGrows(at, n, j, k - 1, f);
    }
  }

  ghost predicate Apart(p: Path, q: Path) {
    !(p <= q) && !(q <= p)
  }

  /** No path is another one or leads to another one. */
  ghost predicate PrefixFree(found: seq<Found>) {
    forall i, j :: 0 <= i < j < |found| ==> Apart(found[i].path, found[j].path)
  }

  lemma PrefixFreeConcat(a: seq<Found>, b: seq<Found>)
    requires PrefixFree(a) && PrefixFree(b)
    requires forall i, j :: 0 <= i < |a| && 0 <= j < |b| ==> Apart(a[i].path, b[j].path)
    ensures PrefixFree(a + b)
  {
  }

  lemma ApartAt(p: Path, q: Path, k: nat)
    requires k < |p| && k < |q| && p[k] != q[k]
    ensures Apart(p, q)
  {
  }

  lemma {:induction false} WalkPrefixFree(at: Path, n: Node, k: nat)
    requires Valid(n) && (n.Dir? ==> k <= |n.entries|)
    ensures PrefixFree(Walk(at, n, k))
    decreases n, k
  {
    if n.Dir? && k > 0 {
      var e := n.entries[k - 1];
      var a, b := Walk(at, n, k - 1), WalkAll(at + [e.name], e.node);
      WalkPrefixFree(at, n, k - 1);
      WalkPrefixFree(at + [e.name], e.node, Full(e.node));
      forall i, j | 0 <= i < |a| && 0 <= j < |b| ensures Apart(a[i].path, b[j].path) {
        var p := WalkSound(at, n, k - 1, a[i]);
        var q := WalkSound(at + [e.name], e.node, Full(e.node), b[j]);
        ApartAt(a[i].path, b[j].path, |at|);
      }
      PrefixFreeConcat(a, b);
    }
  }

  /** The regular files under the native stores: the store is opened, links below it are not followed. */
  ghost predicate NativeFile(root: Node, p: Path, bytes: Bytes) {
    exists s, rest :: s in STORES && p == s + rest && StoreFile(root, s, rest, bytes)
  }

  ghost predicate StoreFile(root: Node, s: Path, rest: Path, bytes: Bytes) {
    var dir := Resolve(root, s);
    dir.Some? && dir.value.Dir? && Lookup(dir.value, rest) == Some(File(bytes))
  }

  lemma {:induction false} FollowValid(n: Node)
    requires Valid(n)
    ensures Valid(Follow(n))
  {
    if n.Link? {
      FollowValid(n.target);
    }
  }

  lemma {:induction false} ResolveValid(n: Node, p: Path)
    requires Valid(n) && Resolve(n, p).Some?
    ensures Valid(Resolve(n, p).value)
    decreases |p|
  {
    FollowValid(n);
    if p != [] {
      ResolveValid(Find(Follow(n).entries, p[0]).value, p[1..]);
    }
  }

  lemma StoreNames()
    ensures forall s :: s in STORES ==> |s| == 2 && OrdinaryPath(s)
    ensures STORES[0][1] != STORES[1][1]
  {
    assert STORES[0][1][0] == 'I' && STORES[1][1][0] == 'S';
    assert forall c :: c in "Default" ==> c != '/';
    assert forall c :: c in "IndexedDB" ==> c != '/';
    assert forall c :: c in "Service Worker" ==> c != '/';
  }

  lemma TwoStores(root: Node)
    ensures AllFiles(root, STORES) == StoreFiles(root, STORES[0]) + StoreFiles(root, STORES[1])
  {
    assert STORES[..1][..0] == [] && STORES[..1][0] == STORES[0];
    assert AllFiles(root, STORES[..1]) == [] + StoreFiles(root, STORES[0]);
  }

  /** What is packed, exactly, and that no packed path is in the way of another. */
  lemma PackedFiles(root: Node)
    requires Valid(root)
    ensures var found := AllFiles(root, STORES);
            && PrefixFree(found)
            && (forall f :: f in found ==> f.path != [] && OrdinaryPath(f.path) && NativeFile(root, f.path, f.bytes))
            && (forall p, b :: NativeFile(root, p, b) ==> Found(p, b) in found)
  {
    PackedApart(root);
    forall f | f in AllFiles(root, STORES)
      ensures f.path != [] && OrdinaryPath(f.path) && NativeFile(root, f.path, f.bytes)
    {
      PackedIsNative(root, f);
    }
    forall p, b | NativeFile(root, p, b) ensures Found(p, b) in AllFiles(root, STORES) {
      NativeIsPacked(root, p, b);
    }
  }

  lemma PackedApart(root: Node)
    requires Valid(root)
    ensures PrefixFree(AllFiles(root, STORES))
  {
    TwoStores(root);
    StoreNames();
    var s0, s1 := STORES[0], STORES[1];
    OneStore(root, s0);
    OneStore(root, s1);
    AllApartBelow(StoreFiles(root, s0), StoreFiles(root, s1), s0, s1);
  }

  lemma AllApartBelow(a: seq<Found>, b: seq<Found>, s0: Path, s1: Path)
    requires |s0| == |s1| == 2 && s0[1] != s1[1] && PrefixFree(a) && PrefixFree(b)
    requires (forall f :: f in a ==> s0 <= f.path) && (forall f :: f in b ==> s1 <= f.path)
    ensures PrefixFree(a + b)
  {
    forall i, j | 0 <= i < |a| && 0 <= j < |b| ensures Apart(a[i].path, b[j].path) {
      assert a[i] in a && b[j] in b;
      ApartAt(a[i].path, b[j].path, 1);
    }
    PrefixFreeConcat(a, b);
  }

  lemma PackedIsNative(root: Node, f: Found)
    requires Valid(root) && f in AllFiles(root, STORES)
    ensures f.path != [] && OrdinaryPath(f.path) && NativeFile(root, f.path, f.bytes)
  {
    TwoStores(root);
    StoreNames();
    var s := if f in StoreFiles(root, STORES[0]) then STORES[0] else STORES[1];
    OneStore(root, s);
    assert s <= f.path;
  }

  lemma NativeIsPacked(root: Node, p: Path, b: Bytes)
    requires NativeFile(root, p, b)
    ensures Found(p, b) in AllFiles(root, STORES)
  {
    TwoStores(root);
    var s, rest :| s in STORES && p == s + rest && StoreFile(root, s, rest, b);
    WalkComplete(s, Resolve(root, s).value, rest, b);
    assert Found(p, b) in StoreFiles(root, s);
  }

  lemma OneStore(root: Node, s: Path)
    requires Valid(root) && s in STORES
    ensures PrefixFree(StoreFiles(root, s))
    ensures forall f :: f in StoreFiles(root, s) ==>
              s <= f.path && OrdinaryPath(f.path) && NativeFile(root, f.path, f.bytes)
  {
    StoreNames();
    var dir := Resolve(root, s);
    if dir.Some? && dir.value.Dir? {
      ResolveValid(root, s);
      WalkPrefixFree(s, dir.value, |dir.value.entries|);
      forall f | f in StoreFiles(root, s)
        ensures s <= f.path && OrdinaryPath(f.path) && NativeFile(root, f.path, f.bytes)
      {
        var rest := WalkSound(s, dir.value, |dir.value.entries|, f);
        assert StoreFile(root, s, rest, f.bytes);
      }
    }
  }

  /** Of a store the walk opens: the path that does not follow links leads there too, unless a link is on it. */
  ghost predicate Linkless(n: Node, p: Path)
    decreases |p|
  {
    !n.Link? && (p != [] && n.Dir? && Find(n.entries, p[0]).Some? ==> Linkless(Find(n.entries, p[0]).value, p[1..]))
  }

  lemma {:induction false} FollowIsNoLink(n: Node)
    ensures !Follow(n).Link?
  {
    if n.Link? {
      FollowIsNoLink(n.target);
    }
  }

  lemma {:induction false} OpenedIsLookedUpIff(n: Node, p: Path)
    requires Resolve(n, p).Some?
    ensures Lookup(n, p) == Resolve(n, p) <==> Linkless(n, p)
    decreases |p|
  {
    FollowIsNoLink(n);
    if p != [] && n.Dir? {
      OpenedIsLookedUpIff(Find(n.entries, p[0]).value, p[1..]);
    }
  }

  /** A link in a store's own place is followed, although links inside a store are skipped. */
  lemma {:induction false} LinkedStoreIsOpened(n: Node, p: Path)
    requires Lookup(n, p).Some? && Lookup(n, p).value.Link?
    ensures Resolve(n, p) == Some(Follow(Lookup(n, p).value.target))
    decreases |p|
  {
    if p != [] {
      LinkedStoreIsOpened(Find(n.entries, p[0]).value, p[1..]);
    }
  }

  /** A walk fails exactly if something unreadable can be met without following a link. */
  lemma {:induction false} ReadableSound(n: Node, k: nat, p: Path)
    requires n.Dir? ==> k <= |n.entries| && Valid(n)
    requires Readable(n, k) && Lookup(n, p).Some?
    requires n.Dir? && p != [] ==> exists i :: 0 <= i < k && n.entries[i].name == p[0]
    ensures !Lookup(n, p).value.Unreadable?
    decreases |p|, k
  {
    if p != [] && n.Dir? && k > 0 {
      if n.entries[k - 1].name == p[0] {
        FindAt(n.entries, k - 1);
        ReadableBelow(n.entries[k - 1].node, p[1..]);
      } else {
        ReadableSound(n, k - 1, p);
      }
    }
  }

  lemma {:induction false} ReadableBelow(n: Node, p: Path)
    requires Valid(n) && AllReadable(n) && Lookup(n, p).Some?
    ensures !Lookup(n, p).value.Unreadable?
    decreases |p|, Full(n) + 1
  {
    if p != [] {
      ReadableSound(n, Full(n), p);
    }
  }

  lemma {:induction false} UnreadableFound(n: Node, k: nat) returns (p: Path)
    requires Valid(n) && (n.Dir? ==> k <= |n.entries|) && !Readable(n, k)
    ensures Lookup(n, p).Some? && Lookup(n, p).value.Unreadable?
    decreases n, k
  {
    if n.Unreadable? {
      p := [];
    } else if !Readable(n, k - 1) {
      p := UnreadableFound(n, k - 1);
    } else {
      var below := UnreadableFound(n.entries[k - 1].node, Full(n.entries[k - 1].node));
      LookupStep(n, k - 1, below);
      p := [n.entries[k - 1].name] + below;
    }
  }

  lemma ReadableIff(n: Node)
    requires Valid(n)
    ensures AllReadable(n) <==> NothingUnreadable(n)
  {
    if AllReadable(n) {
      forall p | Lookup(n, p).Some? ensures !Lookup(n, p).value.Unreadable? {
        ReadableBelow(n, p);
      }
    } else {
      var p := UnreadableFound(n, Full(n));
    }
  }

  /** Packing fails exactly if a store is an unreadable directory, or holds something unreadable. */
  lemma PackableIff(root: Node)
    requires Valid(root)
    ensures Packable(root, STORES) <==> forall i :: 0 <= i < |STORES| ==> StoreIsReadable(root, STORES[i])
  {
    forall i | 0 <= i < |STORES| ensures StoreReadable(root, STORES[i]) <==> StoreIsReadable(root, STORES[i]) {
      StoreReadableIff(root, STORES[i]);
    }
  }

  /** Nothing unreadable is at or below `n`, links not followed. */
  ghost predicate NothingUnreadable(n: Node) {
    forall p :: Lookup(n, p).Some? ==> !Lookup(n, p).value.Unreadable?
  }

  ghost predicate StoreIsReadable(root: Node, store: Path) {
    var n := Resolve(root, store);
    n != Some(Unreadable(true)) && (n.Some? && n.value.Dir? ==> NothingUnreadable(n.value))
  }

  lemma StoreReadableIff(root: Node, store: Path)
    requires Valid(root)
    ensures StoreReadable(root, store) <==> StoreIsReadable(root, store)
  {
    var n := Resolve(root, store);
    if n.Some? {
      ResolveValid(root, store);
      match n.value
      case Dir(_) => ReadableIff(n.value);
      case Unreadable(d) => assert !AllReadable(n.value);
      case _ =>
    }
  }

  // ---------------------------------------------------------------- joining a path to the root

  /** The parts of a path as Rust's `Path::components` gives them. */
  datatype Component = CurDir | ParentDir | Normal(name: string)

  /** Empty parts and inner dots vanish; a leading dot stays. */
  function Components(parts: seq<string>, first: bool): seq<Component> {
    if parts == [] then []
    else
      var rest := Components(parts[1..], false);
      if parts[0] == "" || (parts[0] == "." && !first) then rest
      else if parts[0] == "." then [CurDir] + rest
      else if parts[0] == ".." then [ParentDir] + rest
      else [Normal(parts[0])] + rest
  }

  predicate AllNormal(components: seq<Component>) {
    forall i :: 0 <= i < |components| ==> components[i].Normal?
  }

  function Names(components: seq<Component>): Path
    requires AllNormal(components)
  {
    if components == [] then [] else Names(components[..|components| - 1]) + [components[|components| - 1].name]
  }

  predicate IsAbsolute(rel: string) {
    rel != "" && rel[0] == '/'
  }

  /** The part of a relative path that names files and directories. */
  function OrdinaryParts(parts: seq<string>): Path {
    if parts == [] then []
    else (if parts[0] == "" || parts[0] == "." then [] else [parts[0]]) + OrdinaryParts(parts[1..])
  }

  /** The paths that are accepted: relative, not led by a dot, nowhere `..`, naming something. */
  predicate Accepted(rel: string) {
    var parts := Split(rel, '/');
    !IsAbsolute(rel) && parts[0] != "." && ".." !in parts && OrdinaryParts(parts) != []
  }

  function Target(root: Path, rel: string): (r: Option<Path>)
    ensures r.Some? ==> root < r.value
  {
    if Accepted(rel) then Some(root + OrdinaryParts(Split(rel, '/'))) else None
  }

  lemma AllNormalCons(c: Component, rest: seq<Component>)
    ensures AllNormal([c] + rest) <==> c.Normal? && AllNormal(rest)
  {
    var cs := [c] + rest;
    if AllNormal(cs) {
      assert cs[0] == c;
      forall i | 0 <= i < |rest| ensures rest[i].Normal? {
        assert cs[i + 1] == rest[i];
      }
    }
  }

  lemma {:induction false} NamesCons(c: Component, rest: seq<Component>)
    requires c.Normal? && AllNormal(rest) && AllNormal([c] + rest)
    ensures Names([c] + rest) == [c.name] + Names(rest)
  {
    if rest != [] {
      var n := |rest| - 1;
      assert ([c] + rest)[..n + 1] == [c] + rest[..n];
      NamesCons(c, rest[..n]);
    }
  }

  lemma InCons(x: string, parts: seq<string>)
    requires parts != []
    ensures x in parts <==> x == parts[0] || x in parts[1..]
  {
    assert parts == [parts[0]] + parts[1..];
  }

  lemma {:induction false} ComponentsAre(parts: seq<string>, first: bool)
    ensures var cs := Components(parts, first);
            && (AllNormal(cs) <==> ".." !in parts && !(first && parts != [] && parts[0] == "."))
            && (AllNormal(cs) ==> Names(cs) == OrdinaryParts(parts))
  {
    if parts != [] {
      var rest := Components(parts[1..], false);
      ComponentsAre(parts[1..], false);
      InCons("..", parts);
      if parts[0] == "." {
        AllNormalCons(CurDir, rest);
      } else if parts[0] == ".." {
        AllNormalCons(ParentDir, rest);
      } else if parts[0] != "" {
        AllNormalCons(Normal(parts[0]), rest);
        if AllNormal(rest) {
          NamesCons(Normal(parts[0]), rest);
        }
      }
    }
  }

  /** The root with all components pushed, if they are all ordinary and there is one. */
  function Pushed(root: Path, cs: seq<Component>): Option<Path> {
    if cs != [] && AllNormal(cs) then Some(root + Names(cs)) else None
  }

  lemma PushedIsTarget(root: Path, rel: string)
    ensures Target(root, rel) == if IsAbsolute(rel) then None else Pushed(root, Components(Split(rel, '/'), true))
  {
    ComponentsAre(Split(rel, '/'), true);
  }

  /** `safe_join`, with its loop over the components. */
  method SafeJoin(root: Path, rel: string) returns (r: Option<Path>)
    ensures r == Target(root, rel)
  {
    PushedIsTarget(root, rel);
    if IsAbsolute(rel) {
      return None;
    }
    r := PushAll(root, Components(Split(rel, '/'), true));
  }

  method PushAll(root: Path, cs: seq<Component>) returns (r: Option<Path>)
    ensures r == Pushed(root, cs)
  {
    var out := root;
    var pushed := false;
    for i := 0 to |cs|
      invariant AllNormal(cs[..i])
      invariant out == root + Names(cs[..i]) && (pushed <==> i > 0)
    {
      if !cs[i].Normal? {
        return None;
      }
      assert cs[..i + 1][..i] == cs[..i];
      out := out + [cs[i].name];
      pushed := true;
    }
    assert cs[..|cs|] == cs;
    r := if pushed then Some(out) else None;
  }

  lemma {:induction false} OrdinaryPartsAre(parts: seq<string>)
    requires ".." !in parts && forall i :: 0 <= i < |parts| ==> '/' !in parts[i]
    ensures OrdinaryPath(OrdinaryParts(parts))
    ensures OrdinaryPath(parts) ==> OrdinaryParts(parts) == parts
  {
    if parts != [] {
      OrdinaryPartsAre(parts[1..]);
    }
  }

  /** Whatever the manifest says, a target is the root followed by one or more ordinary names. */
  lemma TargetsStayBelow(root: Path, rel: string)
    requires Target(root, rel).Some?
    ensures var t := Target(root, rel).value;
            root < t && OrdinaryPath(t[|root|..])
  {
    OrdinaryPartsAre(Split(rel, '/'));
    var parts := OrdinaryParts(Split(rel, '/'));
    assert (root + parts)[|root|..] == parts;
  }

  /** A packed path leads back to its own place. */
  lemma TargetOfText(root: Path, p: Path)
    requires p != [] && OrdinaryPath(p)
    ensures Target(root, Join(p, '/')) == Some(root + p)
  {
    SplitJoin(p, '/');
    OrdinaryPartsAre(p);
    var rel := Join(p, '/');
    if |p| > 1 {
      assert rel[0] == p[0][0];
    }
  }

  /** An inner dot is taken out, not refused as the extractor's description has it. */
  lemma InnerDotIsAccepted(root: Path)
    ensures Target(root, Join(["a", ".", "b"], '/')) == Some(root + ["a", "b"])
  {
    var parts := ["a", ".", "b"];
    SplitJoin(parts, '/');
    assert parts[0][0] == 'a' && parts[2][0] == 'b' && |parts[1]| == 1;
    assert Join(parts, '/')[0] == 'a';
    assert parts[1..] == [".", "b"] && parts[1..][1..] == ["b"] && parts[1..][1..][1..] == [];
    assert OrdinaryParts(parts[1..][1..]) == ["b"];
    assert OrdinaryParts(parts[1..]) == [] + ["b"];
    assert OrdinaryParts(parts) == ["a", "b"];
  }

  // ---------------------------------------------------------------- the destination

  datatype DiskNode = Directory | Regular(bytes: Bytes) | Special

  type Disk = map<Path, DiskNode>

  /** What every file system satisfies: `/` is a directory, and whatever exists is in a directory. */
  ghost predicate WellFormed(d: Disk) {
    && [] in d && d[[]] == Directory
    && forall p :: p in d && p != [] ==> p[..|p| - 1] in d && d[p[..|p| - 1]] == Directory
  }

  /** `create_dir_all`; `None` when something other than a directory is in the way. */
  function MakeDirs(d: Disk, p: Path): Option<Disk>
    decreases |p|
  {
    if p in d then if d[p] == Directory then Some(d) else None
    else if p == [] then None
    else
      var above := MakeDirs(d, p[..|p| - 1]);
      if above.None? then None else Some(above.value[p := Directory])
  }

  datatype ExtractError = UnsafePath(path: string) | Io

  /** One file: the directories above it are made, and it must be new. */
  function Place(d: Disk, t: Path, bytes: Bytes): (Disk, bool)
    requires t != []
  {
    var made := MakeDirs(d, t[..|t| - 1]);
    if made.None? then (d, false)
    else if t in made.value then (made.value, false)
    else (made.value[t := Regular(bytes)], true)
  }

  function ExtractOne(e: ManifestEntry, root: Path, d: Disk): (Disk, Option<ExtractError>) {
    var t := Target(root, e.path);
    if t.None? then (d, Some(UnsafePath(e.path)))
    else
      var placed := Place(d, t.value, e.bytes);
      (placed.0, if placed.1 then None else Some(Io))
  }

  function Extract(entries: seq<ManifestEntry>, root: Path, d: Disk, written: nat): (Disk, Result<nat, ExtractError>) {
    if entries == [] then (d, Ok(written))
    else
      var step := ExtractOne(entries[0], root, d);
      if step.1.None? then Extract(entries[1..], root, step.0, written + 1) else (step.0, Err(step.1.value))
  }

  function ExtractInto(entries: seq<ManifestEntry>, root: Path, d: Disk): (Disk, Result<nat, ExtractError>) {
    var made := MakeDirs(d, root);
    if made.None? then (d, Err(Io)) else Extract(entries, root, made.value, 0)
  }

  /** The destination's file system, changed in place. */
  class Destination {
    var nodes: Disk

    constructor (d: Disk)
      ensures nodes == d
    {
      nodes := d;
    }

    method CreateDirAll(p: Path) returns (ok: bool)
      modifies this
      ensures ok == MakeDirs(old(nodes), p).Some?
      ensures nodes == if ok then MakeDirs(old(nodes), p).value else old(nodes)
      decreases |p|
    {
      if p in nodes {
        return nodes[p] == Directory;
      }
      if p == [] {
        return false;
      }
      ok := CreateDirAll(p[..|p| - 1]);
      if ok {
        nodes := nodes[p := Directory];
      }
    }

    method WriteNoFollow(t: Path, bytes: Bytes) returns (ok: bool)
      modifies this
      ensures ok <==> t !in old(nodes)
      ensures nodes == if ok then old(nodes)[t := Regular(bytes)] else old(nodes)
    {
      ok := t !in nodes;
      if ok {
        nodes := nodes[t := Regular(bytes)];
      }
    }

    method PutFile(t: Path, bytes: Bytes) returns (ok: bool)
      requires t != []
      modifies this
      ensures (nodes, ok) == Place(old(nodes), t, bytes)
    {
      ok := CreateDirAll(t[..|t| - 1]);
      if ok {
        ok := WriteNoFollow(t, bytes);
      }
    }

    /** The body of the loop of `extract_into`. */
    method Write(e: ManifestEntry, root: Path) returns (failed: Option<ExtractError>)
      modifies this
      ensures (nodes, failed) == ExtractOne(e, root, old(nodes))
    {
      var target := SafeJoin(root, e.path);
      if target.None? {
        return Some(UnsafePath(e.path));
      }
      var ok := PutFile(target.value, e.bytes);
      failed := if ok then None else Some(Io);
    }

    /** `extract_into`: stops at the first entry that fails, keeping what is already written. */
    method ExtractAll(entries: seq<ManifestEntry>, root: Path) returns (r: Result<nat, ExtractError>)
      modifies this
      ensures (nodes, r) == ExtractInto(entries, root, old(nodes))
    {
      var ok := CreateDirAll(root);
      if !ok {
        return Err(Io);
      }
      var written := 0;
      ghost var made := nodes;
      for i := 0 to |entries|
        invariant written == i
        invariant Extract(entries[i..], root, nodes, i) == Extract(entries, root, made, 0)
      {
        assert entries[i..][0] == entries[i] && entries[i..][1..] == entries[i + 1..];
        var failed := Write(entries[i], root);
        if failed.Some? {
          return Err(failed.value);
        }
        written := written + 1;
      }
      r := Ok(written);
    }
  }

  // ---------------------------------------------------------------- what extraction writes

  /** The directory making keeps everything and adds directories on the way to `p` alone. */
  lemma {:induction false} MakeDirsAdds(d: Disk, p: Path)
    requires WellFormed(d) && MakeDirs(d, p).Some?
    ensures var made := MakeDirs(d, p).value;
            && WellFormed(made) && p in made && made[p] == Directory
            && (forall q :: q in d ==> q in made && made[q] == d[q])
            && (forall q :: q in made && q !in d ==> q <= p && made[q] == Directory)
    decreases |p|
  {
    if p !in d {
      MakeDirsAdds(d, p[..|p| - 1]);
    }
  }

  /** Nothing but directories exists at and above `p`. */
  ghost predicate Passable(d: Disk, p: Path) {
    forall q :: q in d && q <= p ==> d[q] == Directory
  }

  lemma PassableUp(d: Disk, p: Path)
    requires p != []
    ensures Passable(d, p) <==> Passable(d, p[..|p| - 1]) && (p in d ==> d[p] == Directory)
  {
    var up := p[..|p| - 1];
    if Passable(d, up) && (p in d ==> d[p] == Directory) {
      forall q | q in d && q <= p ensures d[q] == Directory {
        assert q == p || q <= up;
      }
    }
    if Passable(d, p) {
      forall q | q in d && q <= up ensures d[q] == Directory {
        assert q <= p;
      }
    }
  }

  lemma {:induction false} AboveIsDirectory(d: Disk, q: Path, p: Path)
    requires WellFormed(d) && p in d && q < p
    ensures q in d && d[q] == Directory
    decreases |p|
  {
    var up := p[..|p| - 1];
    if q != up {
      AboveIsDirectory(d, q, up);
    }
  }

  lemma {:induction false} MakeDirsIff(d: Disk, p: Path)
    requires WellFormed(d)
    ensures MakeDirs(d, p).Some? <==> Passable(d, p)
    decreases |p|
  {
    if p in d {
      forall q | q in d && q <= p && q != p ensures d[q] == Directory {
        AboveIsDirectory(d, q, p);
      }
    } else {
      var up := p[..|p| - 1];
      MakeDirsIff(d, up);
      PassableUp(d, p);
    }
  }

  /** A file can be placed: nothing is there, and nothing but directories is above. */
  ghost predicate Free(d: Disk, t: Path) {
    t !in d && Passable(d, t)
  }

  lemma PlaceSucceedsIff(d: Disk, t: Path, bytes: Bytes)
    requires WellFormed(d) && t != []
    ensures Place(d, t, bytes).1 <==> Free(d, t)
  {
    var up := t[..|t| - 1];
    MakeDirsIff(d, up);
    PassableUp(d, t);
    if MakeDirs(d, up).Some? {
      MakeDirsAdds(d, up);
    }
  }

  ghost predicate HasPlace(e: ManifestEntry, root: Path, d: Disk) {
    Accepted(e.path) && Free(d, Target(root, e.path).value)
  }

  lemma OneEntrySucceedsIff(e: ManifestEntry, root: Path, d: Disk)
    requires WellFormed(d)
    ensures ExtractOne(e, root, d).1.None? <==> HasPlace(e, root, d)
  {
    if Target(root, e.path).Some? {
      PlaceSucceedsIff(d, Target(root, e.path).value, e.bytes);
    }
  }

  /** `q` is what an entry may leave behind: its file, or a directory on the way to it. */
  ghost predicate LeftBy(e: ManifestEntry, root: Path, q: Path, n: DiskNode) {
    var t := Target(root, e.path);
    t.Some? && ((q == t.value && n == Regular(e.bytes)) || (q < t.value && n == Directory))
  }

  ghost predicate Kept(d: Disk, after: Disk) {
    forall q :: q in d ==> q in after && after[q] == d[q]
  }

  lemma NewFileFits(d: Disk, t: Path, n: DiskNode)
    requires WellFormed(d) && t != [] && t !in d
    requires t[..|t| - 1] in d && d[t[..|t| - 1]] == Directory
    ensures WellFormed(d[t := n])
  {
    forall p | p in d[t := n] && p != []
      ensures p[..|p| - 1] in d[t := n] && d[t := n][p[..|p| - 1]] == Directory
    {
      assert p == t || p in d;
    }
  }

  lemma PlaceAdds(d: Disk, t: Path, bytes: Bytes)
    requires WellFormed(d) && t != []
    ensures var (after, ok) := Place(d, t, bytes);
            && WellFormed(after) && Kept(d, after)
            && (forall q :: q in after && q !in d ==>
                  (q == t && after[q] == Regular(bytes)) || (q < t && after[q] == Directory))
            && (ok ==> t in after && after[t] == Regular(bytes))
  {
    if MakeDirs(d, t[..|t| - 1]).Some? {
      MakeDirsAdds(d, t[..|t| - 1]);
      var made := MakeDirs(d, t[..|t| - 1]).value;
      if t !in made {
        NewFileFits(made, t, Regular(bytes));
      }
    }
  }

  lemma OneEntryAdds(e: ManifestEntry, root: Path, d: Disk)
    requires WellFormed(d)
    ensures var (after, failed) := ExtractOne(e, root, d);
            && WellFormed(after) && Kept(d, after)
            && (forall q :: q in after && q !in d ==> LeftBy(e, root, q, after[q]))
            && (failed.None? ==> Holds(after, root, e))
  {
    if Target(root, e.path).Some? {
      PlaceAdds(d, Target(root, e.path).value, e.bytes);
    }
  }

  /** `after` is `d` with a file at `t`, and directories on the way to it. */
  ghost predicate GrownBy(d: Disk, after: Disk, t: Path, bytes: Bytes) {
    && WellFormed(after) && Kept(d, after) && t in after && after[t] == Regular(bytes)
    && forall q :: q in after && q !in d ==> q == t || (q < t && after[q] == Directory)
  }

  lemma FreeWasFree(d: Disk, after: Disk, t: Path, bytes: Bytes, u: Path)
    requires GrownBy(d, after, t, bytes) && Free(after, u)
    ensures Free(d, u) && Apart(u, t)
  {
    if u < t {
      AboveIsDirectory(after, u, t);
    }
  }

  lemma FreeStaysFree(d: Disk, after: Disk, t: Path, bytes: Bytes, u: Path)
    requires GrownBy(d, after, t, bytes) && Free(d, u) && Apart(u, t)
    ensures Free(after, u)
  {
    forall q | q in after && q <= u ensures after[q] == Directory {
      assert q in d || q < t;
    }
  }

  lemma PlacedGrows(e: ManifestEntry, root: Path, d: Disk)
    requires WellFormed(d) && ExtractOne(e, root, d).1.None?
    ensures GrownBy(d, ExtractOne(e, root, d).0, Target(root, e.path).value, e.bytes)
  {
    PlaceAdds(d, Target(root, e.path).value, e.bytes);
  }

  /** Placing one file takes away exactly the places at, above and below it. */
  lemma FreeAfter(e: ManifestEntry, root: Path, d: Disk, u: Path)
    requires WellFormed(d) && ExtractOne(e, root, d).1.None?
    ensures Free(ExtractOne(e, root, d).0, u) <==> Free(d, u) && Apart(u, Target(root, e.path).value)
  {
    var t, after := Target(root, e.path).value, ExtractOne(e, root, d).0;
    PlacedGrows(e, root, d);
    if Free(after, u) {
      FreeWasFree(d, after, t, e.bytes, u);
    }
    if Free(d, u) && Apart(u, t) {
      FreeStaysFree(d, after, t, e.bytes, u);
    }
  }

  /** Every entry is acceptable and has a free place, and no target is another or leads to another. */
  ghost predicate Clear(entries: seq<ManifestEntry>, root: Path, d: Disk) {
    (forall i :: 0 <= i < |entries| ==> HasPlace(entries[i], root, d)) && AllApart(entries, root)
  }

  ghost predicate AllAccepted(entries: seq<ManifestEntry>) {
    forall i :: 0 <= i < |entries| ==> Accepted(entries[i].path)
  }

  ghost predicate ApartEntries(e: ManifestEntry, f: ManifestEntry, root: Path) {
    Accepted(e.path) && Accepted(f.path) ==> Apart(Target(root, e.path).value, Target(root, f.path).value)
  }

  ghost predicate AllApart(entries: seq<ManifestEntry>, root: Path) {
    forall i, j :: 0 <= i < j < |entries| ==> ApartEntries(entries[i], entries[j], root)
  }

  /** After one entry is written, another has a place exactly if it had one and the two are apart. */
  lemma PlaceAfter(e: ManifestEntry, f: ManifestEntry, root: Path, d: Disk)
    requires WellFormed(d) && ExtractOne(e, root, d).1.None?
    ensures HasPlace(f, root, ExtractOne(e, root, d).0) <==> HasPlace(f, root, d) && ApartEntries(e, f, root)
  {
    if Accepted(f.path) {
      FreeAfter(e, root, d, Target(root, f.path).value);
    }
  }

  lemma ClearStep(entries: seq<ManifestEntry>, root: Path, d: Disk)
    requires WellFormed(d) && entries != [] && ExtractOne(entries[0], root, d).1.None?
    ensures Clear(entries, root, d) <==> Clear(entries[1..], root, ExtractOne(entries[0], root, d).0)
  {
    OneEntrySucceedsIff(entries[0], root, d);
    ClearSplits(entries, root, d);
    forall i | 0 < i < |entries|
      ensures HasPlace(entries[i], root, ExtractOne(entries[0], root, d).0)
         <==> HasPlace(entries[i], root, d) && ApartEntries(entries[0], entries[i], root)
    {
      PlaceAfter(entries[0], entries[i], root, d);
    }
    ClearTail(entries, root, ExtractOne(entries[0], root, d).0);
  }

  lemma ClearSplits(entries: seq<ManifestEntry>, root: Path, d: Disk)
    requires entries != []
    ensures Clear(entries, root, d)
       <==> && HasPlace(entries[0], root, d) && AllApart(entries[1..], root)
            && forall i :: 0 < i < |entries| ==>
                 HasPlace(entries[i], root, d) && ApartEntries(entries[0], entries[i], root)
  {
    ApartTail(entries, root);
  }

  lemma ClearTail(entries: seq<ManifestEntry>, root: Path, d: Disk)
    requires entries != []
    ensures Clear(entries[1..], root, d)
       <==> AllApart(entries[1..], root) && forall i :: 0 < i < |entries| ==> HasPlace(entries[i], root, d)
  {
    var rest := entries[1..];
    if Clear(rest, root, d) {
      forall i | 0 < i < |entries| ensures HasPlace(entries[i], root, d) {
        assert HasPlace(rest[i - 1], root, d);
      }
    }
  }

  lemma ApartTail(entries: seq<ManifestEntry>, root: Path)
    requires entries != []
    ensures AllApart(entries, root)
       <==> AllApart(entries[1..], root) && forall i :: 0 < i < |entries| ==> ApartEntries(entries[0], entries[i], root)
  {
    var rest := entries[1..];
    if AllApart(rest, root) {
      forall i, j | 0 < i < j < |entries| ensures ApartEntries(entries[i], entries[j], root) {
        assert ApartEntries(rest[i - 1], rest[j - 1], root);
      }
    }
  }

  /** Extraction succeeds exactly on the manifests whose targets fit the destination and one another. */
  lemma {:induction false} ExtractSucceedsIff(entries: seq<ManifestEntry>, root: Path, d: Disk, written: nat)
    requires WellFormed(d)
    ensures var r := Extract(entries, root, d, written).1;
            && (r.Ok? <==> Clear(entries, root, d))
            && (r.Ok? ==> r.value == written + |entries|)
  {
    if entries != [] {
      var step := ExtractOne(entries[0], root, d);
      OneEntryAdds(entries[0], root, d);
      ExtractSucceedsIff(entries[1..], root, step.0, written + 1);
      OneEntrySucceedsIff(entries[0], root, d);
      if step.1.None? {
        ClearStep(entries, root, d);
      }
    }
  }

  ghost predicate LeftByAny(entries: seq<ManifestEntry>, root: Path, q: Path, n: DiskNode) {
    exists i :: 0 <= i < |entries| && LeftBy(entries[i], root, q, n)
  }

  ghost predicate Holds(after: Disk, root: Path, e: ManifestEntry) {
    var t := Target(root, e.path);
    t.Some? && t.value in after && after[t.value] == Regular(e.bytes)
  }

  /** Nothing was changed or taken away, and whatever is new is a file or a directory of some entry. */
  ghost predicate Grown(entries: seq<ManifestEntry>, root: Path, d: Disk, after: Disk) {
    && WellFormed(after) && Kept(d, after)
    && forall q :: q in after && q !in d ==> LeftByAny(entries, root, q, after[q])
  }

  lemma GrownFirst(entries: seq<ManifestEntry>, root: Path, d: Disk)
    requires WellFormed(d) && entries != []
    ensures Grown(entries, root, d, ExtractOne(entries[0], root, d).0)
  {
    OneEntryAdds(entries[0], root, d);
  }

  lemma GrownTwice(entries: seq<ManifestEntry>, root: Path, d: Disk, mid: Disk, after: Disk)
    requires entries != [] && Grown(entries, root, d, mid) && Grown(entries[1..], root, mid, after)
    ensures Grown(entries, root, d, after)
  {
    forall q | q in after && q !in d ensures LeftByAny(entries, root, q, after[q]) {
      if q !in mid {
        var i :| 0 <= i < |entries[1..]| && LeftBy(entries[1..][i], root, q, after[q]);
        assert LeftBy(entries[i + 1], root, q, after[q]);
      }
    }
  }

  /**
   For any manifest on any destination, whether or not extraction gets to its end: what was there stays
   as it was, every new file is some entry's target with that entry's bytes, every new directory is on
   the way to a target.
   */
  lemma {:induction false} ExtractAdds(entries: seq<ManifestEntry>, root: Path, d: Disk, written: nat)
    requires WellFormed(d)
    ensures Grown(entries, root, d, Extract(entries, root, d, written).0)
  {
    if entries != [] {
      var step := ExtractOne(entries[0], root, d);
      GrownFirst(entries, root, d);
      if step.1.None? {
        ExtractAdds(entries[1..], root, step.0, written + 1);
        GrownTwice(entries, root, d, step.0, Extract(entries[1..], root, step.0, written + 1).0);
      }
    }
  }

  lemma HoldsLater(d: Disk, after: Disk, root: Path, e: ManifestEntry)
    requires Holds(d, root, e) && Kept(d, after)
    ensures Holds(after, root, e)
  {
  }

  lemma FirstHolds(entries: seq<ManifestEntry>, root: Path, d: Disk, written: nat)
    requires WellFormed(d) && entries != [] && ExtractOne(entries[0], root, d).1.None?
    ensures Holds(Extract(entries[1..], root, ExtractOne(entries[0], root, d).0, written).0, root, entries[0])
  {
    var mid := ExtractOne(entries[0], root, d).0;
    OneEntryAdds(entries[0], root, d);
    ExtractAdds(entries[1..], root, mid, written);
    HoldsLater(mid, Extract(entries[1..], root, mid, written).0, root, entries[0]);
  }

  lemma StaysWellFormed(e: ManifestEntry, root: Path, d: Disk)
    requires WellFormed(d)
    ensures WellFormed(ExtractOne(e, root, d).0)
  {
    OneEntryAdds(e, root, d);
  }

  lemma SucceedsOn(entries: seq<ManifestEntry>, root: Path, d: Disk, written: nat)
    requires entries != [] && Extract(entries, root, d, written).1.Ok?
    ensures ExtractOne(entries[0], root, d).1.None?
    ensures Extract(entries, root, d, written)
         == Extract(entries[1..], root, ExtractOne(entries[0], root, d).0, written + 1)
  {
  }

  ghost predicate HoldsAll(after: Disk, root: Path, entries: seq<ManifestEntry>) {
    entries == [] || (Holds(after, root, entries[0]) && HoldsAll(after, root, entries[1..]))
  }

  lemma {:induction false} HoldsAt(after: Disk, root: Path, entries: seq<ManifestEntry>, i: nat)
    requires HoldsAll(after, root, entries) && i < |entries|
    ensures Holds(after, root, entries[i])
  {
    if i > 0 {
      HoldsAt(after, root, entries[1..], i - 1);
      assert entries[1..][i - 1] == entries[i];
    }
  }

  /** After success every entry's file is there with its bytes. */
  lemma {:induction false} ExtractHolds(entries: seq<ManifestEntry>, root: Path, d: Disk, written: nat)
    requires WellFormed(d) && Extract(entries, root, d, written).1.Ok?
    ensures HoldsAll(Extract(entries, root, d, written).0, root, entries)
    decreases |entries|
  {
    if entries != [] {
      SucceedsOn(entries, root, d, written);
      StaysWellFormed(entries[0], root, d);
      FirstHolds(entries, root, d, written + 1);
      ExtractHolds(entries[1..], root, ExtractOne(entries[0], root, d).0, written + 1);
    }
  }

  lemma ExtractNext(e: ManifestEntry, rest: seq<ManifestEntry>, root: Path, d: Disk, written: nat)
    requires ExtractOne(e, root, d).1.None?
    ensures Extract([e] + rest, root, d, written) == Extract(rest, root, ExtractOne(e, root, d).0, written + 1)
  {
    assert ([e] + rest)[1..] == rest;
  }

  /** Entry `k` is unsafe, and the result is that of the entries before it with its path reported. */
  ghost predicate StoppedAt(entries: seq<ManifestEntry>, root: Path, d: Disk, written: nat, k: nat) {
    && k < |entries| && !Accepted(entries[k].path)
    && Extract(entries[..k], root, d, written).1 == Ok(written + k)
    && Extract(entries, root, d, written)
       == (Extract(entries[..k], root, d, written).0, Err(UnsafePath(entries[k].path)))
  }

  lemma StoppedStep(e: ManifestEntry, rest: seq<ManifestEntry>, root: Path, d: Disk, written: nat, k: nat)
    requires ExtractOne(e, root, d).1.None? && StoppedAt(rest, root, ExtractOne(e, root, d).0, written + 1, k)
    ensures StoppedAt([e] + rest, root, d, written, k + 1)
  {
    ExtractNext(e, rest, root, d, written);
    ExtractNext(e, rest[..k], root, d, written);
    assert ([e] + rest)[..k + 1] == [e] + rest[..k];
  }

  /** An unsafe path stops the extraction where it stands. */
  lemma {:induction false} UnsafeStops(entries: seq<ManifestEntry>, root: Path, d: Disk, written: nat) returns (k: nat)
    requires Extract(entries, root, d, written).1.Err? && Extract(entries, root, d, written).1.error.UnsafePath?
    ensures StoppedAt(entries, root, d, written, k)
  {
    var step := ExtractOne(entries[0], root, d);
    if step.1.None? {
      var below := UnsafeStops(entries[1..], root, step.0, written + 1);
      k := below + 1;
      StoppedStep(entries[0], entries[1..], root, d, written, below);
      assert entries == [entries[0]] + entries[1..];
    } else {
      k := 0;
    }
  }

  // ---------------------------------------------------------------- an empty root

  /** The root can be made, and nothing is in it. */
  ghost predicate EmptyRoot(d: Disk, root: Path) {
    WellFormed(d) && Passable(d, root) && forall q :: q in d ==> !(root < q)
  }

  lemma RootIsMade(d: Disk, root: Path)
    requires EmptyRoot(d, root)
    ensures var made := MakeDirs(d, root);
            && made.Some? && EmptyRoot(made.value, root) && root in made.value && Kept(d, made.value)
            && forall q :: q in made.value && q !in d ==> q <= root && made.value[q] == Directory
  {
    MakeDirsIff(d, root);
    MakeDirsAdds(d, root);
  }

  lemma BelowIsFree(d: Disk, root: Path, t: Path)
    requires EmptyRoot(d, root) && root < t
    ensures Free(d, t)
  {
    forall q | q in d && q <= t ensures d[q] == Directory {
      assert q <= root || root < q;
    }
  }

  /** Into an empty root: success depends on the manifest alone, and a caller can check it beforehand. */
  lemma EmptyRootSucceedsIff(entries: seq<ManifestEntry>, root: Path, d: Disk)
    requires EmptyRoot(d, root)
    ensures var r := ExtractInto(entries, root, d).1;
            && (r.Ok? <==> AllAccepted(entries) && AllApart(entries, root))
            && (r.Ok? ==> r.value == |entries|)
  {
    RootIsMade(d, root);
    var made := MakeDirs(d, root).value;
    ExtractSucceedsIff(entries, root, made, 0);
    forall i | 0 <= i < |entries| && Accepted(entries[i].path) ensures Free(made, Target(root, entries[i].path).value) {
      BelowIsFree(made, root, Target(root, entries[i].path).value);
    }
  }

  /**
   For any manifest at all, on any destination: whatever is new afterwards, file or directory, is on
   the way to the root, or is the root followed by ordinary names, and every new file is strictly below.
   */
  lemma NothingOutsideTheRoot(entries: seq<ManifestEntry>, root: Path, d: Disk, q: Path)
    requires WellFormed(d) && q !in d
    requires q in ExtractInto(entries, root, d).0
    ensures var n := ExtractInto(entries, root, d).0[q];
            && ((q <= root && n == Directory) || (root < q && OrdinaryPath(q[|root|..])))
            && (n != Directory ==> root < q && n.Regular?)
  {
    var made := MakeDirs(d, root).value;
    MakeDirsAdds(d, root);
    ExtractAdds(entries, root, made, 0);
    if q !in made {
      var n := ExtractInto(entries, root, d).0[q];
      var i :| 0 <= i < |entries| && LeftBy(entries[i], root, q, n);
      LeftBelow(entries[i], root, q, n);
    }
  }

  lemma LeftBelow(e: ManifestEntry, root: Path, q: Path, n: DiskNode)
    requires LeftBy(e, root, q, n)
    ensures (q <= root && n == Directory) || (root < q && OrdinaryPath(q[|root|..]))
    ensures n != Directory ==> root < q && n.Regular?
  {
    var t := Target(root, e.path).value;
    TargetsStayBelow(root, e.path);
    if root < q {
      assert forall k :: 0 <= k < |q| - |root| ==> q[|root|..][k] == t[|root|..][k];
    }
  }

  // ---------------------------------------------------------------- packing, then extracting

  lemma PackedIsAcceptable(tree: Node, root: Path)
    requires Valid(tree)
    ensures AllAccepted(Packed(tree)) && AllApart(Packed(tree), root)
    ensures var found := AllFiles(tree, STORES);
            && |Packed(tree)| == |found|
            && forall i :: 0 <= i < |found| ==>
                 Packed(tree)[i].bytes == found[i].bytes
                 && Target(root, Packed(tree)[i].path) == Some(root + found[i].path)
  {
    var found := AllFiles(tree, STORES);
    PackedFiles(tree);
    WrittenAt(found);
    forall i | 0 <= i < |found| ensures Target(root, Packed(tree)[i].path) == Some(root + found[i].path) {
      assert found[i] in found;
      TargetOfText(root, found[i].path);
    }
    forall i, j | 0 <= i < j < |found| ensures Apart(root + found[i].path, root + found[j].path) {
      ApartBelow(root, found[i].path, found[j].path);
    }
  }

  lemma ApartBelow(root: Path, p: Path, q: Path)
    requires Apart(p, q)
    ensures Apart(root + p, root + q)
  {
    assert p == (root + p)[|root|..] && q == (root + q)[|root|..];
  }

  lemma PackedIsWritten(tree: Node, root: Path, d: Disk)
    requires Valid(tree) && EmptyRoot(d, root)
    ensures ExtractInto(Packed(tree), root, d).1 == Ok(|Packed(tree)|)
  {
    PackedIsAcceptable(tree, root);
    EmptyRootSucceedsIff(Packed(tree), root, d);
  }

  ghost predicate FileAt(d: Disk, q: Path, bytes: Bytes) {
    q in d && d[q] == Regular(bytes)
  }

  /** Each file of a finished extraction into an empty root is some entry's, and each entry's file is there. */
  lemma WrittenIff(entries: seq<ManifestEntry>, root: Path, d: Disk, q: Path, bytes: Bytes)
    requires EmptyRoot(d, root) && root < q && ExtractInto(entries, root, d).1.Ok?
    ensures FileAt(ExtractInto(entries, root, d).0, q, bytes) <==> EntryFor(entries, root, q, bytes)
  {
    RootIsMade(d, root);
    var made := MakeDirs(d, root).value;
    ExtractAdds(entries, root, made, 0);
    var after := Extract(entries, root, made, 0).0;
    if FileAt(after, q, bytes) {
      var i :| 0 <= i < |entries| && LeftBy(entries[i], root, q, Regular(bytes));
    }
    if EntryFor(entries, root, q, bytes) {
      var i :| 0 <= i < |entries| && Target(root, entries[i].path) == Some(q) && entries[i].bytes == bytes;
      ExtractHolds(entries, root, made, 0);
      HoldsAt(after, root, entries, i);
    }
  }

  ghost predicate EntryFor(entries: seq<ManifestEntry>, root: Path, q: Path, bytes: Bytes) {
    exists i :: 0 <= i < |entries| && Target(root, entries[i].path) == Some(q) && entries[i].bytes == bytes
  }

  lemma EntryIffNative(tree: Node, root: Path, p: Path, bytes: Bytes)
    requires Valid(tree)
    ensures EntryFor(Packed(tree), root, root + p, bytes) <==> NativeFile(tree, p, bytes)
  {
    PackedIsAcceptable(tree, root);
    if NativeFile(tree, p, bytes) {
      NativeIsPacked(tree, p, bytes);
      var i :| 0 <= i < |AllFiles(tree, STORES)| && AllFiles(tree, STORES)[i] == Found(p, bytes);
      assert Target(root, Packed(tree)[i].path) == Some(root + p);
    }
    if EntryFor(Packed(tree), root, root + p, bytes) {
      var i :| && 0 <= i < |Packed(tree)| && Target(root, Packed(tree)[i].path) == Some(root + p)
               && Packed(tree)[i].bytes == bytes;
      var f := AllFiles(tree, STORES)[i];
      PackedIsNative(tree, f);
      assert p == (root + p)[|root|..] && f.path == (root + f.path)[|root|..];
    }
  }

  /**
   The round trip: packing any tree and extracting the manifest into an empty root writes every entry,
   and the files below the root are then exactly the tree's native files with their bytes.
   */
  lemma PackThenExtract(tree: Node, root: Path, d: Disk, p: Path, bytes: Bytes)
    requires Valid(tree) && EmptyRoot(d, root) && p != []
    ensures ExtractInto(Packed(tree), root, d).1 == Ok(|Packed(tree)|)
    ensures FileAt(ExtractInto(Packed(tree), root, d).0, root + p, bytes) <==> NativeFile(tree, p, bytes)
  {
    PackedIsWritten(tree, root, d);
    WrittenIff(Packed(tree), root, d, root + p, bytes);
    EntryIffNative(tree, root, p, bytes);
  }
}
