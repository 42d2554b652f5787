# etcd v2 coordination client, modelled in Dafny

This project models the coordination-client layer of a proxy: the etcd v2
client that the proxy uses to keep its configuration and to register itself.
It covers:

- building a client from a comma-separated endpoint list, a timeout and an
  optional `user:password` auth string;
- the closed flag. `Close` sets it once and for good, and every operation
  checks it first;
- the node operations `Mkdir`, `Create`, `Update`, `Delete`, `Read` and
  `List`. Each turns the store's coded errors into this layer's results;
- ephemeral keys (`CreateEphemeral`, `RefreshEphemeral`) and the renewal
  loop that keeps them alive;
- in-order keys (`CreateEphemeralInOrder`) and `WatchInOrder`, which returns
  a sorted snapshot of a directory and watches it for the first change;
- the slot record and its constructor `NewSlot`.

The etcd store behind the client's keys API is modelled as a value: a map
from key to node, where a node is a directory (an ordered list of child
keys) or a file (a value). It keeps the etcd v2 rules the client relies on:

- a create walks the parent path and creates missing directories;
- a file on the path is `NotADir`; a missing key is `KeyNotFound`;
- a create over a present key is `NodeExist`; the root is read-only;
- every successful write bumps the store's index;
- an in-order create names the new child after that index, in decimal,
  zero-padded to 20 characters.

`Store.WellFormed` is the store's shape invariant. Every write preserves it.

Whether a store call reaches the store is a boolean parameter of each
operation (`up`). `false` stands for every transport failure, per-call
timeout and cancelled context, and gives the `Unavailable` error. The
renewal loop takes the sequence of those outcomes, one per tick. The watch
takes the sequence of results the watcher yields. A background goroutine's
channel is returned as a `Signal` value that names what the goroutine works on.

Files:

- `wrappers.dfy`: `Option` and `Result`.
- `paths.dfy`: keys, parents, Go's string order and in-order key names.
- `errors.dfy`: the error taxonomy and the two classifiers.
- `store.dfy`: the store, its invariant, and the `KeysApi` handle (a class
  holding the store and its index).
- `config.dfy`: endpoints, timeout and auth parsing done by `New`.
- `etcdclient.dfy`: the `Client` class, its operations, the two loops and `New`.
- `slot.dfy`: `Slot` and `NewSlot`.

Two behaviours of the code are worth spelling out. `New` rejects an auth
string with no `:` as well as one with an empty user name. `WatchInOrder`
calls `Mkdir` before it checks the closed flag, so on a closed client its
`ErrClosedClient` comes from `Mkdir`.

## Model

| member | source | states |
|---|---|---|
| Errors.IsErrNoNode | models/etcd/etcdclient.go:22-30 | true exactly for the store's key-not-found error: false for no error, for other codes and for non-store errors |
| Errors.IsErrNodeExists | models/etcd/etcdclient.go:32-40 | true exactly for the store's node-exists error |
| Config.Split | models/etcd/etcdclient.go:53 | the comma split has one piece more than the input has commas, and no piece holds a comma |
| Config.SplitJoin | models/etcd/etcdclient.go:53 | joining the pieces back with commas gives the input: the split loses nothing |
| Config.WithScheme | models/etcd/etcdclient.go:55-57 | a non-empty endpoint ends up with the `http://` prefix; an empty or already-prefixed one is unchanged; nothing else is added |
| Config.WithSchemeIdempotent | models/etcd/etcdclient.go:54-58 | normalising an endpoint twice is normalising it once |
| Config.Endpoints | models/etcd/etcdclient.go:53-58 | as many endpoints as comma-separated pieces, each the piece with the scheme added where needed |
| Config.NormalizeEndpoints | models/etcd/etcdclient.go:54-58 | the in-place loop leaves each array entry equal to its old value with the scheme added where needed |
| Config.EffectiveTimeout | models/etcd/etcdclient.go:60-62 | the timeout is always positive: a positive one is kept, a non-positive one becomes 5 seconds |
| Config.SplitFirst | models/etcd/etcdclient.go:71 | splitting at the first `:` gives the string alone when it has no `:`, or a colon-free head and the whole rest |
| Config.ParseAuth | models/etcd/etcdclient.go:70-77 | empty auth gives no credentials; the result is "invalid auth" exactly when auth has no `:` or starts with one; otherwise the user is non-empty and colon-free and `user + ":" + password` is the input |
| Config.ParseAuthRoundTrip | models/etcd/etcdclient.go:70-77 | every non-empty colon-free user with any password (empty or holding colons) parses back to itself |
| Paths.Parent | models/etcd/etcdclient.go:122 | the parent of a non-root key is a proper prefix ending before a `/`, or the root, and is closer to the root |
| Paths.ParentOfJoin | models/etcd/etcdclient.go:279-284 | a name without `/` joined onto a directory has that directory as parent |
| Paths.OrderedName | models/etcd/etcdclient.go:279 | the name of an in-order child has at least 20 characters and no `/` |
| Paths.OrderedKeyInDir | models/etcd/etcdclient.go:279-284 | the key an in-order create assigns is a child of the directory and never the directory itself |
| Paths.OrderedKeysIncrease | models/etcd/etcdclient.go:279 | a later in-order create in the same directory gets a key that sorts after an earlier one |
| Paths.SortKeys | models/etcd/etcdclient.go:335 | a sorted listing is sorted in Go's string order and is a permutation of the listing |
| Paths.KeyLessAsymmetric | models/etcd/etcdclient.go:335 | the key order never puts two keys before each other |
| Store.Lookup | models/etcd/etcdclient.go:201 | a read finds a node exactly when the key is present, and gives that node; otherwise not-found or not-a-dir |
| Store.LookupMissingChild | models/etcd/etcdclient.go:212 | a missing key whose parent is present reads as not-a-directory exactly when that parent is a file, and as key-not-found when it is a directory |
| Store.CreateNode | models/etcd/etcdclient.go:122 | a create with PrevNoExist succeeds only on an absent non-root key. The new node is listed by its parent, and every earlier node survives. Node-exists only when the key is present |
| Store.CreateExisting | models/etcd/etcdclient.go:123 | in a well-formed store, creating any present non-root key fails with node-exists |
| Store.CreateInDir | models/etcd/etcdclient.go:122 | creating an absent key inside an existing directory succeeds: the key is added with its node and appended to the directory's listing, and nothing else changes |
| Store.CreateWellFormed | models/etcd/etcdclient.go:122 | a successful create keeps the store well-formed |
| Store.UpdateCases | models/etcd/etcdclient.go:139 | the PrevExist write: the root is read-only, a missing key fails as the walk reports it, a present file takes the value and the TTL, a directory accepts only an empty value |
| Store.RefreshCases | models/etcd/etcdclient.go:314 | the refresh: the root is read-only, a missing key fails as the walk reports it, a present key keeps its value or children and takes the TTL |
| Store.DeleteCases | models/etcd/etcdclient.go:186 | the delete: the root is read-only, a missing key fails as the walk reports it, a directory is not-a-file, a present file is removed from the store and from its parent's listing |
| Store.UpdateWellFormed | models/etcd/etcdclient.go:139 | a successful write with PrevExist keeps the store well-formed |
| Store.RefreshWellFormed | models/etcd/etcdclient.go:314 | a successful refresh keeps the store well-formed |
| Store.DeleteWellFormed | models/etcd/etcdclient.go:186 | a successful delete removes exactly that key and keeps the store well-formed |
| Store.SetWellFormed | models/etcd/etcdclient.go:122 | every successful Set, whatever its options, keeps the store well-formed |
| Store.ListingIsChildren | models/etcd/etcdclient.go:242-246 | in a well-formed store a directory lists exactly the present keys whose parent it is |
| Store.KeysApi.Set | models/etcd/etcdclient.go:139 | a Set that reaches the store applies SetNode and bumps the index on success, and changes nothing on failure |
| Store.KeysApi.Get | models/etcd/etcdclient.go:201 | a Get that reaches the store returns the node at the current index, sorted when asked, or the store's error |
| Store.KeysApi.Delete | models/etcd/etcdclient.go:186 | a Delete that reaches the store applies DeleteNode and bumps the index on success |
| Store.KeysApi.CreateInOrder | models/etcd/etcdclient.go:279 | creates the file named after the next index under the directory and returns its key, or changes nothing |
| EtcdClient.FirstFailure | models/etcd/etcdclient.go:293-300 | the stopping point of a loop that ends at the first failure: every earlier outcome succeeded and the one there failed |
| EtcdClient.FirstFailureAt | models/etcd/etcdclient.go:293-300 | a run of successes ended by a failure or by the end of the outcomes is exactly where the loop stops |
| EtcdClient.RefreshAgain | models/etcd/etcdclient.go:294-297 | refreshing a key that was just refreshed with the same TTL leaves the store as it is |
| EtcdClient.Client.constructor | models/etcd/etcdclient.go:84-89 | a new client is open and holds the given handle, a positive timeout and the configuration |
| EtcdClient.Client.Close | models/etcd/etcdclient.go:97-108 | after Close the client is closed and its root context cancelled; a second Close changes nothing |
| EtcdClient.Client.Mkdir | models/etcd/etcdclient.go:110-130 | closed gives ErrClosedClient and no change. An absent path inside a directory becomes an empty directory. On a present non-root key the node-exists error is swallowed: success, no change. Other errors propagate unchanged. Success means the path exists |
| EtcdClient.Client.Set | models/etcd/etcdclient.go:132-144 | writes data with PrevExist: on success the store is the PrevExist update and the index moves on; an absent key fails and changes nothing |
| EtcdClient.Client.Create | models/etcd/etcdclient.go:146-159 | closed gives ErrClosedClient. Otherwise the PrevExist write: an absent key is an error and is not created. On an existing file the value becomes `data` and the TTL is cleared, so an ephemeral key becomes permanent; nothing else changes |
| EtcdClient.Client.Update | models/etcd/etcdclient.go:161-174 | same as Create: closed check, then the PrevExist write of the data; an existing file gets `data` and loses its TTL |
| EtcdClient.Client.Delete | models/etcd/etcdclient.go:176-193 | closed gives ErrClosedClient. A file is removed. A missing key inside a directory is success with no change. Other errors propagate. Success means the key set is the old one without the path |
| EtcdClient.Client.Get | models/etcd/etcdclient.go:195-202 | the quorum read returns the present node with the store index, or the store's error |
| EtcdClient.Client.Read | models/etcd/etcdclient.go:204-223 | closed gives ErrClosedClient. A file gives its value. A directory gives ErrNotFile. A missing key inside a directory gives nothing: no error, or key-not-found when must is set. Other store errors propagate |
| EtcdClient.Client.List | models/etcd/etcdclient.go:225-248 | closed gives ErrClosedClient. A directory gives its children in store order. A file gives ErrNotDir. A missing key behaves as in Read. On success the keys are exactly the path's immediate children |
| EtcdClient.Client.CreateEphemeral | models/etcd/etcdclient.go:250-268 | closed gives ErrClosedClient. On an absent key it creates the file with TTL equal to the client timeout and returns the renewal signal for that key. A present key fails with node-exists and changes nothing |
| EtcdClient.Client.CreateEphemeralInOrder | models/etcd/etcdclient.go:270-287 | closed gives ErrClosedClient. On success it returns the key the store assigned (the next index under the directory), not the directory, and the renewal signal for that key |
| EtcdClient.Client.RefreshEphemeral | models/etcd/etcdclient.go:305-321 | closed gives ErrClosedClient. On an existing key the TTL becomes the client timeout and the value is kept. An absent key fails and changes nothing |
| EtcdClient.Client.RunRefreshEphemeral | models/etcd/etcdclient.go:289-303 | the loop refreshes until the first failed refresh and stops there; on a closed client or a key that cannot be refreshed it stops at once; each success bumps the index and the store stays the refreshed one |
| EtcdClient.Client.Snapshot | models/etcd/etcdclient.go:335-348 | the sorted read of a directory gives its children in key order with a watch signal from the read's index; a file is ErrNotDir; on success the keys are exactly the immediate children |
| EtcdClient.Client.WatchInOrder | models/etcd/etcdclient.go:323-367 | first the idempotent Mkdir, whose errors other than node-exists propagate. Then the sorted snapshot. A new directory gives an empty snapshot. A file gives ErrNotDir. Key-not-found never comes back after Mkdir succeeded |
| EtcdClient.WatchUntilChange | models/etcd/etcdclient.go:350-364 | the watch passes over read confirmations and stops at the first error or first event other than "get"; it stops exactly when such a result arrives |
| EtcdClient.New | models/etcd/etcdclient.go:52-91 | invalid auth fails with "invalid auth". A transport failure propagates. Otherwise an open client whose endpoints, credentials, header timeout and effective timeout are those computed above |
| Models.NewSlot | models/slot.go:45-59 | the slot has the given product and id, group INVALID_ID (-1), status "offline", no migration (both ends -1) and timestamp "0" |
| Models.NewSlotDeterminedByArguments | models/slot.go:45-59 | two new slots are equal exactly when their product and id are: the defaults add nothing else |

## Left out

- Locking, goroutines and channels. Every call runs to completion before the next starts. A background task is a `Signal` value, and its loop is run on a given sequence of outcomes.
- The closed flag is read without the lock in `Create`, `Update`, `Read` and `List` (models/etcd/etcdclient.go:147, 162, 205, 226), and `set`/`get` do not check it again. That is a race with `Close`; in a sequential model the check is simply the first step.
- EtcdClient.Client.RunRefreshEphemeral: the client is not closed while the loop runs, so the loop's stop on `ErrClosedClient` after a later `Close` is not modelled. A client closed before the loop starts is covered.
- EtcdClient.Client.WatchInOrder: the second closed check (models/etcd/etcdclient.go:329-331) is left out. Nothing can close the client between `Mkdir`'s own check and it in a sequential run.
- Contexts and time: the per-call timeout context, `time.Sleep(c.timeout / 2)` between refreshes, and TTL expiry. TTLs are recorded on nodes but never expire.
- A store call that times out after the store applied it. Here a call either reaches the store (and applies) or does not (and changes nothing).
- Logging (`log.Debugf`), a side effect only.
- The transport: `client.New` and `client.NewKeysAPI` are not modelled. The failure of `client.New` is the `dialErr` parameter of `New`; the configured transport is not represented.
- Store features the client does not use: key cleaning (`path.Clean`), hidden keys, recursive delete, compare-and-swap, and the event history behind watches. The watcher's results are an input sequence; the index a watch starts from is recorded in its `Signal`.
- The order of an unsorted listing. The etcd v2 store promises no order for a Get without `Sort`; the model lists children in creation order (`Store.AddChild` appends), so `List`'s order is the model's own choice. Only the sorted read behind `WatchInOrder` has a promised order.
- TTL units: the store receives the `time.Duration` as given; etcd's conversion to whole seconds is not modelled.
- All transport and timeout failures are one error, `Unavailable`; their messages are not modelled.
- `Slot.String` (models/slot.go:40-43) is JSON marshalling by a library that is not part of this model. `ErrSlotExisted`, `ErrUnknownSlotStatus` and `SlotMultiSetParam` are declared beside `NewSlot` but not used by it.
- cmd/proxy/main.go (flag parsing, logging setup), utils/utils.go (reads the executable path) and models/fs/fsclient.go (an empty stub) are not part of this model.
- Go's `int` and `time.Duration` are 64-bit. Here they are unbounded integers; nothing in the client does arithmetic that could overflow.
- Paths.OrderedKeysIncrease: holds for indexes below 10^20. Above that the decimal name is longer than 20 characters and no longer sorts in index order; a store does not reach such an index.
