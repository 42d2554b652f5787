/**
 * The hierarchical store behind the client's keys API, after the etcd v2
 * store: a map from key to node, where a directory lists its children in the
 * store's order and a file holds a value. Creating a key walks its parent
 * path, creating missing directories; every other access walks the path and
 * reports a missing key or a file standing where a directory is needed.
 * The root is read-only. TTLs are recorded but never expire here.
 */
module Store {
  import opened Wrappers
  import opened Paths
  import opened Errors

  newtype byte = b: int | 0 <= b < 256

  /** Go's time.Duration, in nanoseconds. */
  type Duration = int

  datatype Node =
    | Dir(children: seq<Key>, ttl: Option<Duration>)
    | File(value: seq<byte>, ttl: Option<Duration>)

  type Tree = map<Key, Node>

  predicate Distinct(xs: seq<Key>) {
    forall i, j :: 0 <= i < j < |xs| ==> xs[i] != xs[j]
  }

  /** k appears in the listing of its parent directory. */
  ghost predicate Listed(s: Tree, k: Key) {
    Parent(k) in s && s[Parent(k)].Dir? && k in s[Parent(k)].children
  }

  /** c is a present, non-root key whose parent is d. */
  ghost predicate ChildOf(s: Tree, d: Key, c: Key) {
    c in s && c != Root && Parent(c) == d
  }

  ghost predicate AllListed(s: Tree) {
    forall k :: k in s && k != Root ==> Listed(s, k)
  }

  ghost predicate ChildrenPresent(s: Tree) {
    forall d, c :: d in s && s[d].Dir? && c in s[d].children ==> ChildOf(s, d, c)
  }

  ghost predicate ListingsDistinct(s: Tree) {
    forall d :: d in s && s[d].Dir? ==> Distinct(s[d].children)
  }

  /**
   * The shape of the store: the root is a directory; every other key is listed
   * by its parent directory; a directory lists only present keys whose parent
   * it is, each once.
   */
  ghost predicate WellFormed(s: Tree) {
    && Root in s && s[Root].Dir?
    && AllListed(s)
    && ChildrenPresent(s)
    && ListingsDistinct(s)
  }

  /** An empty store: the root directory alone. */
  function EmptyTree(): (s: Tree)
    ensures WellFormed(s)
  {
    map[Root := Dir([], None)]
  }

  /** b is a later state of node a: a file unchanged, a directory with more children appended. */
  predicate Grown(a: Node, b: Node) {
    match a
    case File(_, _) => b == a
    case Dir(cs, ttl) => b.Dir? && b.ttl == ttl && cs <= b.children
  }

  /** Every node of s survives in t, grown at most. */
  ghost predicate Extends(s: Tree, t: Tree) {
    forall k :: k in s ==> k in t && Grown(s[k], t[k])
  }

  /** Walks to k: the node, or KeyNotFound for a missing step, or NotADir where a file is walked through. */
  function Lookup(s: Tree, k: Key): (r: Result<Node, Code>)
    decreases Depth(k)
    ensures r.Ok? <==> k in s
    ensures r.Ok? ==> r.value == s[k]
    ensures r.Err? ==> r.error == KeyNotFound || r.error == NotADir
  {
    if k in s then Ok(s[k])
    else if k == Root then Err(KeyNotFound)
    else
      match Lookup(s, Parent(k))
      case Err(e) => Err(e)
      case Ok(n) => if n.File? then Err(NotADir) else Err(KeyNotFound)
  }

  /** A missing key whose parent is present reads as NotADir exactly when that parent is a file, and as KeyNotFound otherwise. */
  lemma {:induction false} LookupMissingChild(s: Tree, k: Key)
    requires k !in s && k != Root && Parent(k) in s
    ensures Lookup(s, k) == (if s[Parent(k)].File? then Err(NotADir) else Err(KeyNotFound))
  {
  }

  /** Adds key k holding n to the listing of directory d. */
  function AddChild(t: Tree, d: Key, k: Key, n: Node): (r: Tree)
    requires d in t && t[d].Dir? && k != d
    ensures r.Keys == t.Keys + {k} && r[k] == n
    ensures r[d] == Dir(t[d].children + [k], t[d].ttl)
    ensures forall j :: j in t && j != d && j != k ==> r[j] == t[j]
  {
    t[d := Dir(t[d].children + [k], t[d].ttl)][k := n]
  }

  /**
   * Makes sure directory d exists, creating it and its missing ancestors as
   * empty directories; fails with NotADir when a file is in the way.
   */
  function EnsureDir(s: Tree, d: Key): (r: Result<Tree, Code>)
    decreases Depth(d)
    ensures r.Ok? ==> d in r.value && r.value[d].Dir? && Extends(s, r.value)
    ensures r.Ok? ==> forall k :: k in r.value && k !in s ==> Depth(k) <= Depth(d)
    ensures r.Err? ==> r.error == NotADir
  {
    if d in s then
      if s[d].Dir? then Ok(s) else Err(NotADir)
    else if d == Root then
      Ok(s[Root := Dir([], None)])
    else
      match EnsureDir(s, Parent(d))
      case Err(e) => Err(e)
      case Ok(t) => Ok(AddChild(t, Parent(d), d, Dir([], None)))
  }

  /** A node fit to be created: a file or an empty directory. */
  predicate Fresh(n: Node) {
    n.Dir? ==> n.children == []
  }

  /** Creates k holding n if k is absent (etcd's Set with PrevNoExist, and its ordered create). */
  function CreateNode(s: Tree, k: Key, n: Node): (r: Result<Tree, Code>)
    ensures r.Ok? ==> k !in s && k != Root && k in r.value && r.value[k] == n && Extends(s, r.value)
    ensures r.Ok? ==> Parent(k) in r.value && r.value[Parent(k)].Dir? && k in r.value[Parent(k)].children
    ensures r.Err? ==> r.error == RootReadOnly || r.error == NotADir || r.error == NodeExist
    ensures r == Err(NodeExist) ==> k in s
  {
    if k == Root then Err(RootReadOnly)
    else
      match EnsureDir(s, Parent(k))
      case Err(e) => Err(e)
      case Ok(t) => if k in t then Err(NodeExist) else Ok(AddChild(t, Parent(k), k, n))
  }

  /** Writes value over the existing k and replaces its TTL (Set with PrevExist). */
  function UpdateNode(s: Tree, k: Key, value: seq<byte>, ttl: Option<Duration>): (r: Result<Tree, Code>)
  {
    if k == Root then Err(RootReadOnly)
    else
      match Lookup(s, k)
      case Err(e) => Err(e)
      case Ok(n) =>
        match n
        case Dir(cs, _) => if |value| > 0 then Err(NotAFile) else Ok(s[k := Dir(cs, ttl)])
        case File(_, _) => Ok(s[k := File(value, ttl)])
  }

  /** n with its TTL replaced. */
  function WithTtl(n: Node, ttl: Option<Duration>): (m: Node)
    ensures m.ttl == ttl && m.Dir? == n.Dir?
    ensures m.Dir? ==> m.children == n.children
    ensures m.File? ==> m.value == n.value
  {
    match n
    case Dir(cs, _) => Dir(cs, ttl)
    case File(v, _) => File(v, ttl)
  }

  /** Replaces the TTL of the existing k, keeping its value (Set with PrevExist and Refresh). */
  function RefreshNode(s: Tree, k: Key, ttl: Option<Duration>): (r: Result<Tree, Code>)
  {
    if k == Root then Err(RootReadOnly)
    else
      match Lookup(s, k)
      case Err(e) => Err(e)
      case Ok(n) => Ok(s[k := WithTtl(n, ttl)])
  }

  /** xs without k. */
  function Without(xs: seq<Key>, k: Key): (r: seq<Key>)
    ensures forall x :: x in r <==> x in xs && x != k
    ensures Distinct(xs) ==> Distinct(r)
  {
    if |xs| == 0 then []
    else if xs[0] == k then Without(xs[1..], k)
    else
      var rest := Without(xs[1..], k);
      assert Distinct(xs) ==> xs[0] !in xs[1..];
      [xs[0]] + rest
  }

  /** Removes k from the store and from its parent's listing. */
  function Unlink(s: Tree, k: Key): Tree {
    var t := s - {k};
    var d := Parent(k);
    if d in t && t[d].Dir? then t[d := Dir(Without(t[d].children, k), t[d].ttl)] else t
  }

  /** Deletes the file k (Delete without the dir option). */
  function DeleteNode(s: Tree, k: Key): (r: Result<Tree, Code>)
  {
    if k == Root then Err(RootReadOnly)
    else
      match Lookup(s, k)
      case Err(e) => Err(e)
      case Ok(n) => if n.Dir? then Err(NotAFile) else Ok(Unlink(s, k))
  }

  /** Reads k; a directory's children come sorted when asked for. */
  function GetNode(s: Tree, k: Key, sorted: bool): (r: Result<Node, Code>)
  {
    match Lookup(s, k)
    case Err(e) => Err(e)
    case Ok(n) => Ok(if sorted && n.Dir? then Dir(SortKeys(n.children), n.ttl) else n)
  }

  // ---------------------------------------------------------------------------
  // The store stays well-formed.
  // ---------------------------------------------------------------------------

  lemma AddChildListed(t: Tree, d: Key, k: Key, n: Node)
    requires AllListed(t) && d in t && t[d].Dir? && k !in t && Parent(k) == d
    ensures AllListed(AddChild(t, d, k, n))
  {
    var r := AddChild(t, d, k, n);
    forall j | j in r && j != Root
      ensures Listed(r, j)
    {
      if j != k {
        assert Listed(t, j);
      }
    }
  }

  lemma AddChildChildrenPresent(t: Tree, d: Key, k: Key, n: Node)
    requires ChildrenPresent(t) && d in t && t[d].Dir? && k !in t && k != Root && Parent(k) == d && Fresh(n)
    ensures ChildrenPresent(AddChild(t, d, k, n))
  {
    var r := AddChild(t, d, k, n);
    forall e, c | e in r && r[e].Dir? && c in r[e].children
      ensures ChildOf(r, e, c)
    {
      if e == d {
        assert c in t[d].children || c == k;
        assert c != k ==> ChildOf(t, d, c);
      } else if e != k {
        assert r[e] == t[e];
        assert ChildOf(t, e, c);
      }
    }
  }

  lemma AddChildDistinct(t: Tree, d: Key, k: Key, n: Node)
    requires ChildrenPresent(t) && ListingsDistinct(t) && d in t && t[d].Dir? && k !in t && Fresh(n)
    ensures ListingsDistinct(AddChild(t, d, k, n))
  {
    var r := AddChild(t, d, k, n);
    forall e | e in r && r[e].Dir?
      ensures Distinct(r[e].children)
    {
      if e == d {
        assert Distinct(t[d].children);
        assert forall c :: c in t[d].children ==> ChildOf(t, d, c);
        assert k !in t[d].children;
      } else if e != k {
        assert r[e] == t[e];
      }
    }
  }

  lemma AddChildWellFormed(t: Tree, d: Key, k: Key, n: Node)
    requires WellFormed(t) && d in t && t[d].Dir? && k !in t && k != Root && Parent(k) == d && Fresh(n)
    ensures WellFormed(AddChild(t, d, k, n))
  {
    AddChildListed(t, d, k, n);
    AddChildChildrenPresent(t, d, k, n);
    AddChildDistinct(t, d, k, n);
  }

  lemma {:induction false} EnsureDirWellFormed(s: Tree, d: Key)
    requires WellFormed(s) && EnsureDir(s, d).Ok?
    ensures WellFormed(EnsureDir(s, d).value)
    decreases Depth(d)
  {
    if d !in s {
      assert d != Root;
      var p := Parent(d);
      EnsureDirWellFormed(s, p);
      var t := EnsureDir(s, p).value;
      assert d !in t;
      AddChildWellFormed(t, p, d, Dir([], None));
    }
  }

  lemma CreateWellFormed(s: Tree, k: Key, n: Node)
    requires WellFormed(s) && Fresh(n) && CreateNode(s, k, n).Ok?
    ensures WellFormed(CreateNode(s, k, n).value)
  {
    EnsureDirWellFormed(s, Parent(k));
    AddChildWellFormed(EnsureDir(s, Parent(k)).value, Parent(k), k, n);
  }

  lemma UpdateWellFormed(s: Tree, k: Key, value: seq<byte>, ttl: Option<Duration>)
    requires WellFormed(s) && UpdateNode(s, k, value, ttl).Ok?
    ensures WellFormed(UpdateNode(s, k, value, ttl).value)
  {
    var r := UpdateNode(s, k, value, ttl).value;
    assert forall j :: j in s ==> j in r && r[j].Dir? == s[j].Dir? && (s[j].Dir? ==> r[j].children == s[j].children);
  }

  lemma RefreshWellFormed(s: Tree, k: Key, ttl: Option<Duration>)
    requires WellFormed(s) && RefreshNode(s, k, ttl).Ok?
    ensures WellFormed(RefreshNode(s, k, ttl).value)
  {
    var r := RefreshNode(s, k, ttl).value;
    assert forall j :: j in s ==> j in r && r[j].Dir? == s[j].Dir? && (s[j].Dir? ==> r[j].children == s[j].children);
  }

  lemma UnlinkListed(s: Tree, k: Key)
    requires AllListed(s) && k in s && k != Root && s[k].File?
    ensures AllListed(Unlink(s, k))
  {
    var r := Unlink(s, k);
    forall j | j in r && j != Root
      ensures Listed(r, j)
    {
      assert Listed(s, j);
    }
  }

  lemma UnlinkChildrenPresent(s: Tree, k: Key)
    requires ChildrenPresent(s) && k in s && k != Root && s[k].File?
    ensures ChildrenPresent(Unlink(s, k))
  {
    var r := Unlink(s, k);
    forall e, c | e in r && r[e].Dir? && c in r[e].children
      ensures ChildOf(r, e, c)
    {
      assert c in s[e].children;
      assert ChildOf(s, e, c);
    }
  }

  lemma UnlinkDistinct(s: Tree, k: Key)
    requires ListingsDistinct(s)
    ensures ListingsDistinct(Unlink(s, k))
  {
    var r := Unlink(s, k);
    forall e | e in r && r[e].Dir?
      ensures Distinct(r[e].children)
    {
      assert Distinct(s[e].children);
    }
  }

  lemma DeleteWellFormed(s: Tree, k: Key)
    requires WellFormed(s) && DeleteNode(s, k).Ok?
    ensures WellFormed(DeleteNode(s, k).value)
    ensures DeleteNode(s, k).value.Keys == s.Keys - {k}
  {
    assert k in s && s[k].File? && k != Root;
    UnlinkListed(s, k);
    UnlinkChildrenPresent(s, k);
    UnlinkDistinct(s, k);
  }
  // ---------------------------------------------------------------------------
  // Facts the client relies on.
  // ---------------------------------------------------------------------------

  /** Creating a key that is already there (other than the root) fails with NodeExist and nothing else. */
  lemma CreateExisting(s: Tree, k: Key, n: Node)
    requires WellFormed(s) && k in s && k != Root
    ensures CreateNode(s, k, n) == Err(NodeExist)
  {
    assert Listed(s, k);
  }

  /** A directory's listing holds exactly the keys whose parent it is; no other key has children. */
  lemma ListingIsChildren(s: Tree, d: Key)
    requires WellFormed(s)
    ensures forall c :: ChildOf(s, d, c) <==> d in s && s[d].Dir? && c in s[d].children
  {
    forall c | ChildOf(s, d, c)
      ensures d in s && s[d].Dir? && c in s[d].children
    {
      assert Listed(s, c);
    }
  }

  /** A PrevExist write fails on the root and on a missing key as the walk reports it; a present file takes the value and the TTL, a directory only an empty value and the TTL. */
  lemma UpdateCases(s: Tree, k: Key, value: seq<byte>, ttl: Option<Duration>)
    ensures k == Root ==> UpdateNode(s, k, value, ttl) == Err(RootReadOnly)
    ensures k != Root && k !in s ==> UpdateNode(s, k, value, ttl) == Err(Lookup(s, k).error)
    ensures k != Root && k in s ==>
              UpdateNode(s, k, value, ttl) ==
                if s[k].File? then Ok(s[k := File(value, ttl)])
                else if |value| > 0 then Err(NotAFile)
                else Ok(s[k := Dir(s[k].children, ttl)])
  {
  }

  /** A refresh fails on the root and on a missing key as the walk reports it; a present key keeps its contents and takes the TTL. */
  lemma RefreshCases(s: Tree, k: Key, ttl: Option<Duration>)
    ensures k == Root ==> RefreshNode(s, k, ttl) == Err(RootReadOnly)
    ensures k != Root && k !in s ==> RefreshNode(s, k, ttl) == Err(Lookup(s, k).error)
    ensures k != Root && k in s ==> RefreshNode(s, k, ttl) == Ok(s[k := WithTtl(s[k], ttl)])
  {
  }

  /** A delete fails on the root, on a missing key as the walk reports it, and on a directory; a present file is unlinked from the store and its parent's listing. */
  lemma DeleteCases(s: Tree, k: Key)
    ensures k == Root ==> DeleteNode(s, k) == Err(RootReadOnly)
    ensures k != Root && k !in s ==> DeleteNode(s, k) == Err(Lookup(s, k).error)
    ensures k != Root && k in s ==> DeleteNode(s, k) == if s[k].Dir? then Err(NotAFile) else Ok(Unlink(s, k))
    ensures k != Root && k in s && s[k].File? ==> DeleteNode(s, k).value.Keys == s.Keys - {k}
  {
  }

  /** Creating an absent key in an existing directory succeeds. */
  lemma CreateInDir(s: Tree, k: Key, n: Node)
    requires k !in s && k != Root && Parent(k) in s && s[Parent(k)].Dir?
    ensures CreateNode(s, k, n) == Ok(AddChild(s, Parent(k), k, n))
  {
  }

  // ---------------------------------------------------------------------------
  // The keys API: the store as the client's handle sees it.
  // ---------------------------------------------------------------------------

  datatype PrevExistType = PrevExist | PrevNoExist

  /** The options of a Set call that this client uses. */
  datatype SetOptions = SetOptions(prevExist: PrevExistType, dir: bool, ttl: Option<Duration>, refresh: bool)

  /** A store response: the key acted on, its node, and the store's index after the call. */
  datatype Response = Response(key: Key, node: Node, index: nat)

  /** The effect of a Set call with the given options. */
  function SetNode(s: Tree, k: Key, value: seq<byte>, opts: SetOptions): Result<Tree, Code> {
    match opts.prevExist
    case PrevNoExist => CreateNode(s, k, if opts.dir then Dir([], opts.ttl) else File(value, opts.ttl))
    case PrevExist => if opts.refresh then RefreshNode(s, k, opts.ttl) else UpdateNode(s, k, value, opts.ttl)
  }

  lemma SetWellFormed(s: Tree, k: Key, value: seq<byte>, opts: SetOptions)
    requires WellFormed(s) && SetNode(s, k, value, opts).Ok?
    ensures WellFormed(SetNode(s, k, value, opts).value)
  {
    match opts.prevExist
    case PrevNoExist =>
      CreateWellFormed(s, k, if opts.dir then Dir([], opts.ttl) else File(value, opts.ttl));
    case PrevExist =>
      if opts.refresh {
        RefreshWellFormed(s, k, opts.ttl);
      } else {
        UpdateWellFormed(s, k, value, opts.ttl);
      }
  }

  class KeysApi {
    var nodes: Tree
    /** The store's modification index: one more per successful write. */
    var index: nat

    ghost predicate Valid()
      reads this
    {
      WellFormed(nodes)
    }

    constructor ()
      ensures Valid() && nodes == EmptyTree() && index == 0
    {
      nodes := EmptyTree();
      index := 0;
    }

    /** Set; `up` is false when the call does not reach the store or times out. */
    method Set(key: Key, value: seq<byte>, opts: SetOptions, up: bool) returns (err: Option<Error>)
      requires Valid()
      modifies this
      ensures Valid()
      ensures !up ==> err == Some(Unavailable) && unchanged(this)
      ensures up && old(SetNode(nodes, key, value, opts)).Ok? ==>
                err == None && nodes == old(SetNode(nodes, key, value, opts)).value && index == old(index) + 1
      ensures up && old(SetNode(nodes, key, value, opts)).Err? ==>
                err == Some(StoreError(old(SetNode(nodes, key, value, opts)).error)) && unchanged(this)
    {
      if !up {
        return Some(Unavailable);
      }
      var r := SetNode(nodes, key, value, opts);
      if r.Ok? {
        SetWellFormed(nodes, key, value, opts);
        nodes, index := r.value, index + 1;
        err := None;
      } else {
        err := Some(StoreError(r.error));
      }
    }

    /** Get; a directory's children come sorted when `sorted` is set. */
    method Get(key: Key, sorted: bool, up: bool) returns (r: Result<Response, Error>)
      ensures !up ==> r == Err(Unavailable)
      ensures up && GetNode(nodes, key, sorted).Ok? ==> r == Ok(Response(key, GetNode(nodes, key, sorted).value, index))
      ensures up && GetNode(nodes, key, sorted).Err? ==> r == Err(StoreError(GetNode(nodes, key, sorted).error))
    {
      if !up {
        return Err(Unavailable);
      }
      match GetNode(nodes, key, sorted)
      case Err(c) => r := Err(StoreError(c));
      case Ok(n) => r := Ok(Response(key, n, index));
    }

    /** Delete without options: files only. */
    method Delete(key: Key, up: bool) returns (err: Option<Error>)
      requires Valid()
      modifies this
      ensures Valid()
      ensures !up ==> err == Some(Unavailable) && unchanged(this)
      ensures up && old(DeleteNode(nodes, key)).Ok? ==>
                err == None && nodes == old(DeleteNode(nodes, key)).value && index == old(index) + 1
      ensures up && old(DeleteNode(nodes, key)).Err? ==>
                err == Some(StoreError(old(DeleteNode(nodes, key)).error)) && unchanged(this)
    {
      if !up {
        return Some(Unavailable);
      }
      match DeleteNode(nodes, key)
      case Err(c) =>
        err := Some(StoreError(c));
      case Ok(t) =>
        DeleteWellFormed(nodes, key);
        nodes, index := t, index + 1;
        err := None;
    }

    /** CreateInOrder: a file under dir whose name the store derives from its next index. */
    method CreateInOrder(dir: Key, value: seq<byte>, ttl: Option<Duration>, up: bool) returns (r: Result<Response, Error>)
      requires Valid()
      modifies this
      ensures Valid()
      ensures !up ==> r == Err(Unavailable) && unchanged(this)
      ensures var c := old(CreateNode(nodes, OrderedKey(dir, index + 1), File(value, ttl)));
              up ==>
                if c.Ok? then
                  && (nodes, index) == (c.value, old(index) + 1)
                  && r == Ok(Response(OrderedKey(dir, index), File(value, ttl), index))
                else
                  r == Err(StoreError(c.error)) && unchanged(this)
    {
      if !up {
        return Err(Unavailable);
      }
      var key := OrderedKey(dir, index + 1);
      var err := Set(key, value, SetOptions(PrevNoExist, false, ttl, false), true);
      r := if err.Some? then Err(err.value) else Ok(Response(key, File(value, ttl), index));
    }
  }
}
