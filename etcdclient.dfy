/**
 * The etcd v2 coordination client: a closed flag that every operation checks
 * first, node operations that turn the store's coded errors into this layer's
 * results, ephemeral keys with a renewal loop, and in-order keys with a watch.
 * Store calls go through the client's KeysApi handle; whether a call reaches
 * the store is a parameter of each operation.
 */
module EtcdClient {
  import opened Wrappers
  import opened Paths
  import opened Errors
  import opened Store
  import opened Config

  /**
   * What the channel returned to a caller is tied to: the renewal loop of a
   * key, or the watch of a directory from a store index.
   */
  datatype Signal = Renewal(key: Key) | Watch(dir: Key, afterIndex: nat)

  /** One result of the watcher's Next: an event with its action, or an error (a cancelled root context included). */
  datatype WatchResult = Event(action: string) | WatchFailed(error: Error)

  const EmptyDir: Node := Dir([], None)

  /** Options of the store calls the client makes. */
  const MkdirOptions: SetOptions := SetOptions(PrevNoExist, true, None, false)
  const WriteOptions: SetOptions := SetOptions(PrevExist, false, None, false)

  function EphemeralOptions(ttl: Duration): SetOptions {
    SetOptions(PrevNoExist, false, Some(ttl), false)
  }

  function RefreshOptions(ttl: Duration): SetOptions {
    SetOptions(PrevExist, false, Some(ttl), true)
  }

  /** Where a loop that stops at the first failure stops: the number of leading successes. */
  function FirstFailure(outcomes: seq<bool>): (n: nat)
    ensures n <= |outcomes|
    ensures forall j :: 0 <= j < n ==> outcomes[j]
    ensures n < |outcomes| ==> !outcomes[n]
  {
    if |outcomes| == 0 || !outcomes[0] then 0 else 1 + FirstFailure(outcomes[1..])
  }

  /** A prefix of successes ended by a failure or by the end of the schedule is where the loop stops. */
  lemma FirstFailureAt(outcomes: seq<bool>, i: nat)
    requires i <= |outcomes|
    requires forall j :: 0 <= j < i ==> outcomes[j]
    requires i < |outcomes| ==> !outcomes[i]
    ensures FirstFailure(outcomes) == i
  {
  }

  /** Refreshing a key that was just refreshed with the same TTL changes nothing. */
  lemma RefreshAgain(s: Tree, k: Key, ttl: Option<Duration>)
    requires RefreshNode(s, k, ttl).Ok?
    ensures RefreshNode(RefreshNode(s, k, ttl).value, k, ttl) == RefreshNode(s, k, ttl)
  {
    var t := RefreshNode(s, k, ttl).value;
    assert t[k := WithTtl(t[k], ttl)] == t;
  }

  class Client {
    const kApi: KeysApi
    const timeout: Duration
    /** The configuration the keys API handle was built from. */
    const config: ClientConfig
    var closed: bool
    /** The root context has been cancelled. */
    var cancelled: bool

    ghost predicate Valid()
      reads this, kApi
    {
      kApi.Valid() && timeout > 0 && (closed <==> cancelled)
    }

    constructor (kApi: KeysApi, timeout: Duration, config: ClientConfig)
      requires kApi.Valid() && timeout > 0
      ensures Valid() && !closed
      ensures this.kApi == kApi && this.timeout == timeout && this.config == config
    {
      this.kApi := kApi;
      this.timeout := timeout;
      this.config := config;
      closed := false;
      cancelled := false;
    }

    /** The first call marks the client closed and cancels the root context; later calls change nothing. */
    method Close()
      requires Valid()
      modifies this
      ensures Valid() && closed && cancelled
      ensures old(closed) ==> unchanged(this)
    {
      if closed {
        return;
      }
      closed := true;
      cancelled := true;
    }

    /** Creates the directory path; finding the key already there counts as success. */
    method Mkdir(path: Key, up: bool) returns (err: Option<Error>)
      requires Valid()
      modifies kApi
      ensures Valid()
      ensures closed ==> err == Some(ErrClosedClient) && unchanged(kApi)
      ensures !closed && !up ==> err == Some(Unavailable) && unchanged(kApi)
      ensures !closed && up && old(CreateNode(kApi.nodes, path, EmptyDir)).Ok? ==>
                && err == None
                && kApi.nodes == old(CreateNode(kApi.nodes, path, EmptyDir)).value
                && kApi.index == old(kApi.index) + 1
      ensures !closed && up && old(CreateNode(kApi.nodes, path, EmptyDir)).Err? ==>
                && unchanged(kApi)
                && err == (if old(CreateNode(kApi.nodes, path, EmptyDir)).error == NodeExist then None
                           else Some(StoreError(old(CreateNode(kApi.nodes, path, EmptyDir)).error)))
      ensures !closed && up && path in old(kApi.nodes) && path != Root ==> err == None && unchanged(kApi)
      ensures !closed && up && path !in old(kApi.nodes) && Parent(path) in old(kApi.nodes) && old(kApi.nodes)[Parent(path)].Dir? ==>
                err == None && kApi.nodes[path] == EmptyDir
      ensures err == None ==> path in kApi.nodes
    {
      if closed {
        return Some(ErrClosedClient);
      }
      if path in kApi.nodes && path != Root {
        CreateExisting(kApi.nodes, path, EmptyDir);
      }
      if path !in kApi.nodes && Parent(path) in kApi.nodes && kApi.nodes[Parent(path)].Dir? {
        CreateInDir(kApi.nodes, path, EmptyDir);
      }
      err := kApi.Set(path, [], MkdirOptions, up);
      if err.Some? && !IsErrNodeExists(err) {
        return err;
      }
      return None;
    }

    /** The write shared by Create and Update: data over an existing key; it does not check the closed flag. */
    method Set(path: Key, data: seq<byte>, up: bool) returns (err: Option<Error>)
      requires Valid()
      modifies kApi
      ensures Valid()
      ensures !up ==> err == Some(Unavailable) && unchanged(kApi)
      ensures up && old(UpdateNode(kApi.nodes, path, data, None)).Ok? ==>
                && err == None
                && kApi.nodes == old(UpdateNode(kApi.nodes, path, data, None)).value
                && kApi.index == old(kApi.index) + 1
      ensures up && old(UpdateNode(kApi.nodes, path, data, None)).Err? ==>
                err == Some(StoreError(old(UpdateNode(kApi.nodes, path, data, None)).error)) && unchanged(kApi)
      ensures path !in old(kApi.nodes) ==> err.Some? && unchanged(kApi)
    {
      err := kApi.Set(path, data, WriteOptions, up);
    }

    /** Writes data to the existing key path; an absent key is not created. */
    method Create(path: Key, data: seq<byte>, up: bool) returns (err: Option<Error>)
      requires Valid()
      modifies kApi
      ensures Valid()
      ensures closed ==> err == Some(ErrClosedClient) && unchanged(kApi)
      ensures !closed && !up ==> err == Some(Unavailable) && unchanged(kApi)
      ensures !closed && up && old(UpdateNode(kApi.nodes, path, data, None)).Ok? ==>
                && err == None
                && kApi.nodes == old(UpdateNode(kApi.nodes, path, data, None)).value
                && kApi.index == old(kApi.index) + 1
      ensures !closed && up && old(UpdateNode(kApi.nodes, path, data, None)).Err? ==>
                err == Some(StoreError(old(UpdateNode(kApi.nodes, path, data, None)).error)) && unchanged(kApi)
      ensures path !in old(kApi.nodes) ==> err.Some? && unchanged(kApi)
      ensures err == None && old(kApi.nodes)[path].File? ==> kApi.nodes == old(kApi.nodes)[path := File(data, None)]
    {
      if closed {
        return Some(ErrClosedClient);
      }
      err := Set(path, data, up);
    }

    /** Writes data to the existing key path, as Create does. */
    method Update(path: Key, data: seq<byte>, up: bool) returns (err: Option<Error>)
      requires Valid()
      modifies kApi
      ensures Valid()
      ensures closed ==> err == Some(ErrClosedClient) && unchanged(kApi)
      ensures !closed && !up ==> err == Some(Unavailable) && unchanged(kApi)
      ensures !closed && up && old(UpdateNode(kApi.nodes, path, data, None)).Ok? ==>
                && err == None
                && kApi.nodes == old(UpdateNode(kApi.nodes, path, data, None)).value
                && kApi.index == old(kApi.index) + 1
      ensures !closed && up && old(UpdateNode(kApi.nodes, path, data, None)).Err? ==>
                err == Some(StoreError(old(UpdateNode(kApi.nodes, path, data, None)).error)) && unchanged(kApi)
      ensures path !in old(kApi.nodes) ==> err.Some? && unchanged(kApi)
      ensures err == None && old(kApi.nodes)[path].File? ==> kApi.nodes == old(kApi.nodes)[path := File(data, None)]
    {
      if closed {
        return Some(ErrClosedClient);
      }
      err := Set(path, data, up);
    }

    /** Deletes the file path; finding no such key counts as success. */
    method Delete(path: Key, up: bool) returns (err: Option<Error>)
      requires Valid()
      modifies kApi
      ensures Valid()
      ensures closed ==> err == Some(ErrClosedClient) && unchanged(kApi)
      ensures !closed && !up ==> err == Some(Unavailable) && unchanged(kApi)
      ensures !closed && up && old(DeleteNode(kApi.nodes, path)).Ok? ==>
                && err == None
                && kApi.nodes == old(DeleteNode(kApi.nodes, path)).value
                && kApi.index == old(kApi.index) + 1
      ensures !closed && up && old(DeleteNode(kApi.nodes, path)).Err? ==>
                && unchanged(kApi)
                && err == (if old(DeleteNode(kApi.nodes, path)).error == KeyNotFound then None
                           else Some(StoreError(old(DeleteNode(kApi.nodes, path)).error)))
      ensures !closed && up && path !in old(kApi.nodes) && Parent(path) in old(kApi.nodes) && old(kApi.nodes)[Parent(path)].Dir? ==>
                err == None && unchanged(kApi)
      ensures err == None ==> kApi.nodes.Keys == old(kApi.nodes).Keys - {path}
    {
      if closed {
        return Some(ErrClosedClient);
      }
      if path !in kApi.nodes && Parent(path) in kApi.nodes && kApi.nodes[Parent(path)].Dir? {
        LookupMissingChild(kApi.nodes, path);
      }
      if DeleteNode(kApi.nodes, path).Ok? {
        DeleteWellFormed(kApi.nodes, path);
      }
      err := kApi.Delete(path, up);
      if err.Some? && !IsErrNoNode(err) {
        return err;
      }
      return None;
    }

    /** A quorum read of path; it does not check the closed flag. */
    method Get(path: Key, up: bool) returns (r: Result<Response, Error>)
      ensures !up ==> r == Err(Unavailable)
      ensures up && path in kApi.nodes ==> r == Ok(Response(path, kApi.nodes[path], kApi.index))
      ensures up && path !in kApi.nodes ==> r == Err(StoreError(Lookup(kApi.nodes, path).error))
    {
      r := kApi.Get(path, false, up);
    }

    /**
     * The value of the file path. A missing key is an empty result without
     * error unless must is set; a directory is ErrNotFile.
     */
    method Read(path: Key, must: bool, up: bool) returns (data: Option<seq<byte>>, err: Option<Error>)
      requires Valid()
      ensures closed ==> data == None && err == Some(ErrClosedClient)
      ensures !closed && !up ==> data == None && err == Some(Unavailable)
      ensures !closed && up && path in kApi.nodes && kApi.nodes[path].File? ==>
                data == Some(kApi.nodes[path].value) && err == None
      ensures !closed && up && path in kApi.nodes && kApi.nodes[path].Dir? ==>
                data == None && err == Some(ErrNotFile)
      ensures !closed && up && path !in kApi.nodes ==>
                && data == None
                && err == (if Lookup(kApi.nodes, path).error == KeyNotFound && !must then None
                           else Some(StoreError(Lookup(kApi.nodes, path).error)))
      ensures !closed && up && path !in kApi.nodes && Parent(path) in kApi.nodes && kApi.nodes[Parent(path)].Dir? ==>
                data == None && err == (if must then Some(StoreError(KeyNotFound)) else None)
    {
      if path !in kApi.nodes && Parent(path) in kApi.nodes && kApi.nodes[Parent(path)].Dir? {
        LookupMissingChild(kApi.nodes, path);
      }
      if closed {
        return None, Some(ErrClosedClient);
      }
      var r := Get(path, up);
      match r
      case Err(e) =>
        if IsErrNoNode(Some(e)) && !must {
          return None, None;
        }
        return None, Some(e);
      case Ok(resp) =>
        if !resp.node.Dir? {
          return Some(resp.node.value), None;
        }
        return None, Some(ErrNotFile);
    }

    /**
     * The keys of the immediate children of directory path, in the store's
     * order. A missing key is an empty result without error unless must is
     * set; a file is ErrNotDir.
     */
    method List(path: Key, must: bool, up: bool) returns (paths: seq<Key>, err: Option<Error>)
      requires Valid()
      ensures closed ==> paths == [] && err == Some(ErrClosedClient)
      ensures !closed && !up ==> paths == [] && err == Some(Unavailable)
      ensures !closed && up && path in kApi.nodes && kApi.nodes[path].Dir? ==>
                paths == kApi.nodes[path].children && err == None
      ensures !closed && up && path in kApi.nodes && kApi.nodes[path].File? ==>
                paths == [] && err == Some(ErrNotDir)
      ensures !closed && up && path !in kApi.nodes ==>
                && paths == []
                && err == (if Lookup(kApi.nodes, path).error == KeyNotFound && !must then None
                           else Some(StoreError(Lookup(kApi.nodes, path).error)))
      ensures !closed && up && path !in kApi.nodes && Parent(path) in kApi.nodes && kApi.nodes[Parent(path)].Dir? ==>
                paths == [] && err == (if must then Some(StoreError(KeyNotFound)) else None)
      ensures err == None ==> forall c :: c in paths <==> ChildOf(kApi.nodes, path, c)
    {
      ListingIsChildren(kApi.nodes, path);
      if path !in kApi.nodes && Parent(path) in kApi.nodes && kApi.nodes[Parent(path)].Dir? {
        LookupMissingChild(kApi.nodes, path);
      }
      if closed {
        return [], Some(ErrClosedClient);
      }
      var r := Get(path, up);
      match r
      case Err(e) =>
        if IsErrNoNode(Some(e)) && !must {
          return [], None;
        }
        return [], Some(e);
      case Ok(resp) =>
        if !resp.node.Dir? {
          return [], Some(ErrNotDir);
        }
        var nodes := resp.node.children;
        paths := [];
        for i := 0 to |nodes|
          invariant paths == nodes[..i]
        {
          paths := paths + [nodes[i]];
        }
        err := None;
    }

    /**
     * Creates the file path with a TTL of the client's timeout, only if the key
     * is absent, and returns the signal of the renewal loop started on it.
     */
    method CreateEphemeral(path: Key, data: seq<byte>, up: bool) returns (signal: Option<Signal>, err: Option<Error>)
      requires Valid()
      modifies kApi
      ensures Valid()
      ensures closed ==> signal == None && err == Some(ErrClosedClient) && unchanged(kApi)
      ensures !closed && !up ==> signal == None && err == Some(Unavailable) && unchanged(kApi)
      ensures !closed && up && old(CreateNode(kApi.nodes, path, File(data, Some(timeout)))).Ok? ==>
                && signal == Some(Renewal(path)) && err == None
                && kApi.nodes == old(CreateNode(kApi.nodes, path, File(data, Some(timeout)))).value
                && kApi.index == old(kApi.index) + 1
      ensures !closed && up && old(CreateNode(kApi.nodes, path, File(data, Some(timeout)))).Err? ==>
                && signal == None && unchanged(kApi)
                && err == Some(StoreError(old(CreateNode(kApi.nodes, path, File(data, Some(timeout)))).error))
      ensures !closed && up && path in old(kApi.nodes) && path != Root ==>
                signal == None && err == Some(StoreError(NodeExist)) && unchanged(kApi)
      ensures err == None ==>
                && path !in old(kApi.nodes) && kApi.nodes[path] == File(data, Some(timeout))
                && signal == Some(Renewal(path))
    {
      if closed {
        return None, Some(ErrClosedClient);
      }
      if path in kApi.nodes && path != Root {
        CreateExisting(kApi.nodes, path, File(data, Some(timeout)));
      }
      err := kApi.Set(path, data, EphemeralOptions(timeout), up);
      if err.Some? {
        return None, err;
      }
      signal := Some(Renewal(path));
    }

    /**
     * Creates a file with a TTL of the client's timeout under directory path,
     * named by the store, and returns the assigned key with the signal of the
     * renewal loop started on that key.
     */
    method CreateEphemeralInOrder(path: Key, data: seq<byte>, up: bool) returns (signal: Option<Signal>, node: Key, err: Option<Error>)
      requires Valid()
      modifies kApi
      ensures Valid()
      ensures closed ==> (signal, node, err) == (None, "", Some(ErrClosedClient)) && unchanged(kApi)
      ensures !closed && !up ==> (signal, node, err) == (None, "", Some(Unavailable)) && unchanged(kApi)
      ensures var key := OrderedKey(path, old(kApi.index) + 1);
              var c := old(CreateNode(kApi.nodes, key, File(data, Some(timeout))));
              !closed && up ==>
                if c.Ok? then
                  && (signal, node, err) == (Some(Renewal(key)), key, None)
                  && (kApi.nodes, kApi.index) == (c.value, old(kApi.index) + 1)
                else
                  (signal, node, err) == (None, "", Some(StoreError(c.error))) && unchanged(kApi)
    {
      signal, node, err := None, "", Some(ErrClosedClient);
      if !closed {
        var r := kApi.CreateInOrder(path, data, Some(timeout), up);
        if r.Ok? {
          signal, node, err := Some(Renewal(r.value.key)), r.value.key, None;
        } else {
          err := Some(r.error);
        }
      }
      assert Valid();
    }

    /** Resets the TTL of the existing key path to the client's timeout, keeping its value. */
    method RefreshEphemeral(path: Key, up: bool) returns (err: Option<Error>)
      requires Valid()
      modifies kApi
      ensures Valid()
      ensures closed ==> err == Some(ErrClosedClient) && unchanged(kApi)
      ensures !closed && !up ==> err == Some(Unavailable) && unchanged(kApi)
      ensures var c := old(RefreshNode(kApi.nodes, path, Some(timeout)));
              !closed && up ==>
                if c.Ok? then err == None && (kApi.nodes, kApi.index) == (c.value, old(kApi.index) + 1)
                else err == Some(StoreError(c.error)) && unchanged(kApi)
      ensures path !in old(kApi.nodes) ==> err.Some? && unchanged(kApi)
      ensures err == None ==>
                && path in old(kApi.nodes)
                && kApi.nodes == old(kApi.nodes)[path := WithTtl(old(kApi.nodes)[path], Some(timeout))]
    {
      err := Some(ErrClosedClient);
      if !closed {
        err := kApi.Set(path, [], RefreshOptions(timeout), up);
      }
      assert Valid();
    }

    /**
     * The renewal loop behind a Renewal signal: refresh path, and again after
     * each success, until a refresh fails; that failure closes the signal.
     * net[i] tells whether the i-th refresh reaches the store. When the
     * schedule runs out first, the loop is still running.
     */
    method RunRefreshEphemeral(path: Key, net: seq<bool>) returns (refreshes: nat, stopped: bool)
      requires Valid()
      modifies kApi
      ensures Valid()
      ensures refreshes == (if !closed && old(RefreshNode(kApi.nodes, path, Some(timeout))).Ok? then FirstFailure(net) else 0)
      ensures stopped <==> refreshes < |net|
      ensures kApi.index == old(kApi.index) + refreshes
      ensures kApi.nodes == if refreshes == 0 then old(kApi.nodes) else old(RefreshNode(kApi.nodes, path, Some(timeout))).value
    {
      ghost var first := RefreshNode(kApi.nodes, path, Some(timeout));
      ghost var live := !closed && first.Ok?;
      if first.Ok? {
        RefreshAgain(kApi.nodes, path, Some(timeout));
      }
      refreshes, stopped := 0, false;
      while refreshes < |net| && !stopped
        invariant Valid()
        invariant refreshes <= |net|
        invariant forall j :: 0 <= j < refreshes ==> net[j]
        invariant stopped ==> refreshes < |net| && (live ==> !net[refreshes])
        invariant kApi.index == old(kApi.index) + refreshes
        invariant refreshes > 0 ==> live
        invariant kApi.nodes == if refreshes == 0 then old(kApi.nodes) else first.value
        decreases |net| - refreshes, if stopped then 0 else 1
      {
        var up := net[refreshes];
        var err := RefreshEphemeral(path, up);
        assert Valid();
        assert err.None? ==> up;
        if err.Some? {
          stopped := true;
        } else {
          assert forall j :: 0 <= j < refreshes + 1 ==> net[j] by {
            assert net[refreshes];
          }
          refreshes := refreshes + 1;
        }
      }
      if live {
        FirstFailureAt(net, refreshes);
      }
    }

    /**
     * The read a watch starts from: the children of directory path sorted by
     * key, and the store index of the read.
     */
    method Snapshot(path: Key, up: bool) returns (signal: Option<Signal>, paths: seq<Key>, err: Option<Error>)
      requires Valid()
      ensures !up ==> (signal, paths, err) == (None, [], Some(Unavailable))
      ensures up && path !in kApi.nodes ==> (signal, paths, err) == (None, [], Some(StoreError(Lookup(kApi.nodes, path).error)))
      ensures up && path in kApi.nodes && kApi.nodes[path].File? ==> (signal, paths, err) == (None, [], Some(ErrNotDir))
      ensures up && path in kApi.nodes && kApi.nodes[path].Dir? ==>
                (signal, paths, err) == (Some(Watch(path, kApi.index)), SortKeys(kApi.nodes[path].children), None)
      ensures err == None ==> Sorted(paths) && forall c :: c in paths <==> ChildOf(kApi.nodes, path, c)
    {
      ListingIsChildren(kApi.nodes, path);
      var r := kApi.Get(path, true, up);
      if r.Err? {
        return None, [], Some(r.error);
      }
      if !r.value.node.Dir? {
        return None, [], Some(ErrNotDir);
      }
      var nodes := r.value.node.children;
      paths := [];
      for i := 0 to |nodes|
        invariant paths == nodes[..i]
      {
        paths := paths + [nodes[i]];
      }
      assert paths == nodes;
      forall c
        ensures c in paths <==> c in kApi.nodes[path].children
      {
        assert c in paths <==> c in multiset(paths);
        assert c in kApi.nodes[path].children <==> c in multiset(kApi.nodes[path].children);
      }
      signal, err := Some(Watch(path, r.value.index)), None;
    }

    /**
     * Makes sure directory path exists, then returns its children sorted by
     * key with the signal of a watch on it from the store index of that read.
     * mkdirUp and getUp tell whether the two store calls reach the store.
     */
    method WatchInOrder(path: Key, mkdirUp: bool, getUp: bool) returns (signal: Option<Signal>, paths: seq<Key>, err: Option<Error>)
      requires Valid()
      modifies kApi
      ensures Valid()
      ensures closed ==> (signal, paths, err) == (None, [], Some(ErrClosedClient)) && unchanged(kApi)
      ensures !closed && !mkdirUp ==> (signal, paths, err) == (None, [], Some(Unavailable)) && unchanged(kApi)
      ensures var c := old(CreateNode(kApi.nodes, path, EmptyDir));
              !closed && mkdirUp ==>
                && kApi.nodes == (if c.Ok? then c.value else old(kApi.nodes))
                && kApi.index == old(kApi.index) + (if c.Ok? then 1 else 0)
                && (c.Err? && c.error != NodeExist ==> (signal, paths, err) == (None, [], Some(StoreError(c.error))))
                && (c.Ok? || c.error == NodeExist ==> path in kApi.nodes)
      ensures var c := old(CreateNode(kApi.nodes, path, EmptyDir));
              !closed && mkdirUp && (c.Ok? || c.error == NodeExist) ==>
                (signal, paths, err) ==
                  if !getUp then (None, [], Some(Unavailable))
                  else if kApi.nodes[path].File? then (None, [], Some(ErrNotDir))
                  else (Some(Watch(path, kApi.index)), SortKeys(kApi.nodes[path].children), None)
      ensures !closed && mkdirUp && getUp && path !in old(kApi.nodes) && Parent(path) in old(kApi.nodes) && old(kApi.nodes)[Parent(path)].Dir? ==>
                (signal, paths, err) == (Some(Watch(path, kApi.index)), [], None)
      ensures err == None ==>
                && path in kApi.nodes && kApi.nodes[path].Dir? && Sorted(paths)
                && forall c :: c in paths <==> ChildOf(kApi.nodes, path, c)
    {
      var e := Mkdir(path, mkdirUp);
      if e.Some? {
        return None, [], e;
      }
      signal, paths, err := Snapshot(path, getUp);
    }
  }

  /** A watch result that only confirms a read: the directory did not change. */
  predicate IsReadConfirmation(r: WatchResult) {
    r.Event? && r.action == "get"
  }

  /**
   * The watch behind a Watch signal: take the watcher's results until one is
   * an error or an event other than "get"; that one closes the signal. When
   * the results run out first, the watch is still waiting.
   */
  method WatchUntilChange(results: seq<WatchResult>) returns (seen: nat, fired: bool)
    ensures seen <= |results|
    ensures forall j :: 0 <= j < seen ==> IsReadConfirmation(results[j])
    ensures fired <==> seen < |results|
    ensures fired ==> !IsReadConfirmation(results[seen])
  {
    seen := 0;
    while seen < |results|
      invariant seen <= |results|
      invariant forall j :: 0 <= j < seen ==> IsReadConfirmation(results[j])
    {
      match results[seen]
      case WatchFailed(_) =>
        return seen, true;
      case Event(action) =>
        if action != "get" {
          return seen, true;
        }
      seen := seen + 1;
    }
    return seen, false;
  }

  /**
   * Builds a client: endpoints split on commas and given the scheme, the
   * timeout defaulted, auth checked; dialErr is the transport's own failure.
   */
  method New(addrlist: string, auth: string, timeout: Duration, kApi: KeysApi, dialErr: Option<Error>)
    returns (c: Client?, err: Option<Error>)
    requires kApi.Valid()
    ensures ParseAuth(auth).Err? ==> c == null && err == Some(ErrInvalidAuth)
    ensures ParseAuth(auth).Ok? && dialErr.Some? ==> c == null && err == dialErr
    ensures ParseAuth(auth).Ok? && dialErr.None? ==>
              && err == None && c != null && fresh(c) && c.Valid() && !c.closed
              && c.kApi == kApi && c.timeout == EffectiveTimeout(timeout)
              && c.config == ClientConfig(Endpoints(addrlist), ParseAuth(auth).value, HeaderTimeoutPerRequest)
  {
    var parts := Split(addrlist, ',');
    var endPoints := new string[|parts|](i requires 0 <= i < |parts| => parts[i]);
    NormalizeEndpoints(endPoints);
    assert endPoints[..] == Endpoints(addrlist);
    var t := timeout;
    if t <= 0 {
      t := DefaultTimeout;
    }
    var credentials := Anonymous;
    if auth != "" {
      var split := SplitFirst(auth, ':');
      if |split| != 2 || split[0] == "" {
        return null, Some(ErrInvalidAuth);
      }
      credentials := Basic(split[0], split[1]);
    }
    var config := ClientConfig(endPoints[..], credentials, HeaderTimeoutPerRequest);
    if dialErr.Some? {
      return null, dialErr;
    }
    c := new Client(kApi, t, config);
    err := None;
  }
}
