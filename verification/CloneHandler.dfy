/**
 The clone request: it holds two reservations under the id of the job it is about
 to queue, swaps the path key when it creates the root itself, and gives both up
 on every exit that does not queue that job.
 */
module CloneHandler {
  import opened Common
  import opened Text
  import R = Reservations
  import J = JobTables
  import JS = JobStore
  import E = EnqueueRules
  import P = Paths
  import T = CloneTarget

  /** Answers of the repository tables and the file system that end the request early. */
  datatype Answer = Proceed | Refuse

  /**
   What a clone request asks for and meets on its way. The root is given by the
   names on its path; rootId is its id, which a root that does not exist yet gets
   when the request creates it.
   */
  datatype Request = Request(
    job: J.JobId, identity: string, root: P.Path, rootExists: bool, rootId: string, target: string,
    createRoot: Answer, renormalize: Answer, checks: seq<Answer>,
    enqueue: J.EnqueueRequest, now: Time, later: Time, faults: R.Faults, finalFaults: R.Faults)

  /** The ids of created roots. */
  predicate IdOk(r: Request) { r.rootExists || "root_" <= r.rootId }

  function Pass(root: P.Path, target: Option<string>): Option<string> {
    if target.None? then None else T.NormalizeTarget(root, target.value)
  }

  /** The target in the key of the first reservation: normalized by the request and again by the key. */
  function Provisional(r: Request): Option<string> { Pass(r.root, Pass(r.root, Some(r.target))) }

  /** The target in the key under a created root: normalized once more. */
  function Final(r: Request): Option<string> { Pass(r.root, Provisional(r)) }

  function KeyText(target: Option<string>): string { if target.None? then "" else target.value }

  /** The keys of a request: the final one differs from the path key when the request creates its root. */
  datatype Keys = Keys(identity: string, path: string, final: string)

  /** What precedes the target in the provisional key: the id of a root that exists, the path of one that does not. */
  function Prefix(rootExists: bool, rootId: string, root: string): string {
    if rootExists then "repository-path:" + rootId + ":" else "repository-path:root-path:" + root + ":"
  }

  function PathPrefix(r: Request): string { Prefix(r.rootExists, r.rootId, T.RootText(r.root)) }

  function KeysFrom(identity: string, rootExists: bool, rootId: string, root: string, target: string, final: string): Keys {
    var path := Prefix(rootExists, rootId, root) + target;
    Keys("repository-identity:" + identity, path, if rootExists then path else "repository-path:" + rootId + ":" + final)
  }

  function KeysOf(r: Request): Keys {
    KeysFrom(r.identity, r.rootExists, r.rootId, T.RootText(r.root), KeyText(Provisional(r)), KeyText(Final(r)))
  }

  /** The keys as the reservation table holds them. */
  function Stored(key: string): string { TrimSpace(key) }

  ghost predicate KeysOk(k: Keys) {
    "repository-identity:" <= k.identity && "repository-path:" <= k.path && "repository-path:" <= k.final
  }

  lemma StoredStart(start: string, key: string)
    requires start != "" && !Blank(start[0]) && !Blank(start[|start| - 1]) && start <= key
    ensures start <= Stored(key)
  {
    assert key == start + key[|start|..];
    TrimKeepsPrefix(start, key[|start|..]);
  }

  lemma KeysAreKeys(k: Keys)
    requires KeysOk(k)
    ensures Stored(k.identity) != "" && Stored(k.path) != "" && Stored(k.final) != ""
    ensures Stored(k.identity) != Stored(k.path) && Stored(k.identity) != Stored(k.final) && Stored(k.identity) != k.path
  {
    StoredStart("repository-identity:", k.identity);
    StoredStart("repository-path:", k.path);
    StoredStart("repository-path:", k.final);
    assert Stored(k.identity)[11] == 'i' && Stored(k.path)[11] == 'p' && Stored(k.final)[11] == 'p' && k.path[11] == 'p';
  }

  lemma Starts(a: string, b: string, c: string)
    ensures a <= a + b + c
  {
  }

  lemma KeysFromOk(identity: string, rootExists: bool, rootId: string, root: string, target: string, final: string)
    ensures KeysOk(KeysFrom(identity, rootExists, rootId, root, target, final))
  {
    Starts("repository-identity:", identity, "");
    if rootExists {
      Starts("repository-path:", rootId + ":", target);
    } else {
      Starts("repository-path:", "root-path:" + root + ":", target);
      Starts("repository-path:", rootId + ":", final);
    }
  }

  lemma KeysOfOk(r: Request)
    ensures KeysOk(KeysOf(r))
  {
    KeysFromOk(r.identity, r.rootExists, r.rootId, T.RootText(r.root), KeyText(Provisional(r)), KeyText(Final(r)));
  }

  /** A provisional key names the path of the root, a final one the id of the created root. */
  ghost predicate UnderNewRoot(k: Keys) { "repository-path:root-path:" <= k.path && "repository-path:root_" <= k.final }

  lemma KeysDiffer(k: Keys)
    requires UnderNewRoot(k)
    ensures Stored(k.path) != Stored(k.final) && k.path != Stored(k.final) && k.path != k.final
  {
    StoredStart("repository-path:root-path:", k.path);
    StoredStart("repository-path:root_", k.final);
    assert k.path[20] == '-' && Stored(k.path)[20] == '-' && k.final[20] == '_' && Stored(k.final)[20] == '_';
  }

  /** A key is stored as it is exactly when its target does not end in white space. */
  lemma StoredAsIs(pre: string, t: string)
    requires |pre| > 0 && !Blank(pre[0]) && !Blank(pre[|pre| - 1])
    ensures Stored(pre + t) == pre + TrimRight(t)
    ensures Stored(pre + t) == pre + t <==> TrimRight(t) == t
  {
    assert (pre + t)[0] == pre[0];
    TrimRightIs(pre + t, pre + TrimRight(t));
    assert pre + TrimRight(t) == pre + t <==> TrimRight(t) == t;
  }

  function RemoveString(values: seq<string>, target: string): seq<string> {
    if values == [] then []
    else RemoveString(values[..|values| - 1], target) + if values[|values| - 1] == target then [] else [values[|values| - 1]]
  }

  lemma {:induction false} RemoveStringIs(values: seq<string>, target: string)
    ensures forall v :: v in RemoveString(values, target) <==> v in values && v != target
  {
    if values != [] {
      RemoveStringIs(values[..|values| - 1], target);
      assert values == values[..|values| - 1] + [values[|values| - 1]];
    }
  }

  /** The filter over the slice. */
  method Remove(values: seq<string>, target: string) returns (out: seq<string>)
    ensures out == RemoveString(values, target)
    ensures forall v :: v in out <==> v in values && v != target
  {
    out := [];
    for i := 0 to |values|
      invariant out == RemoveString(values[..i], target)
    {
      assert values[..i + 1][..i] == values[..i];
      if values[i] != target { out := out + [values[i]]; }
    }
    assert values[..|values|] == values;
    RemoveStringIs(values, target);
  }

  ghost predicate HoldsExactly(rows: map<int, R.Reservation>, owner: R.Owner, keys: set<string>) {
    forall k :: R.Holds(rows, owner, k) <==> k in keys
  }

  /** What the owner holds outlasts the given time. */
  ghost predicate LiveAfter(rows: map<int, R.Reservation>, owner: R.Owner, t: Time) {
    forall id :: id in rows && rows[id].state == R.Held && rows[id].owner == owner ==> rows[id].expiresAt > t
  }

  /** Live reservations of everybody else are as they were. */
  ghost predicate OthersLive(before: map<int, R.Reservation>, after: map<int, R.Reservation>, owner: R.Owner, t: Time) {
    forall id :: id in before && before[id].owner != owner && before[id].state == R.Held && before[id].expiresAt > t ==>
      id in after && after[id] == before[id]
  }

  /** The key under the created root is neither of the other two. */
  predicate Apart(k: Keys) { Swaps(k) && Stored(k.final) != Stored(k.identity) && Stored(k.final) != Stored(k.path) }

  lemma FinalApart(r: Request)
    requires !r.rootExists && IdOk(r)
    ensures Apart(KeysOf(r))
  {
    KeysOfOk(r);
    NewRootKeys(r);
    KeysAreKeys(KeysOf(r));
    KeysDiffer(KeysOf(r));
  }

  /** Nobody holds the key beyond the moment. */
  ghost predicate FreeAt(rows: map<int, R.Reservation>, key: string, t: Time) {
    forall id :: id in rows && rows[id].state == R.Held && rows[id].key == key ==> rows[id].expiresAt <= t
  }

  /** The two keys of the start are free, and no statement fails. */
  ghost predicate GetsFirst(r: Request, k: Keys, rows: map<int, R.Reservation>) {
    && FreeAt(rows, Stored(k.identity), r.now) && Stored(k.identity) !in r.faults.insert
    && FreeAt(rows, Stored(k.path), r.now) && Stored(k.path) !in r.faults.insert
  }

  /** The root is created, and the key under it is free. */
  ghost predicate GetsFinal(r: Request, k: Keys, rows: map<int, R.Reservation>) {
    && r.createRoot.Proceed? && r.renormalize.Proceed? && Final(r).Some?
    && FreeAt(rows, Stored(k.final), r.later) && Stored(k.final) !in r.finalFaults.insert
  }

  /** The request gets all its keys. */
  ghost predicate Grants(r: Request, k: Keys, rows: map<int, R.Reservation>) {
    Provisional(r).Some? && GetsFirst(r, k, rows) && (!r.rootExists ==> GetsFinal(r, k, rows))
  }

  /** The checks pass, and the queue has neither this request nor an unfinished operation on its lock key. */
  ghost predicate Accepts(r: Request, jobs: map<J.JobId, J.Job>)
    requires r.enqueue.lockKey.Some?
  {
    && (forall i :: 0 <= i < |r.checks| ==> r.checks[i].Proceed?)
    && r.enqueue.maxAttempts >= 0 && r.enqueue.priority >= 0
    && (forall j :: j in jobs ==> !JS.KeyedAs(jobs[j], r.enqueue))
    && forall j :: j in jobs ==> !JS.OperatesOn(jobs[j], r.enqueue.lockKey.value)
  }

  predicate Swaps(k: Keys) { k.final != k.path }

  /** What a request that queued its job still holds: the provisional key is released by its untrimmed text. */
  function Kept(k: Keys): set<string> {
    if Swaps(k) then {Stored(k.identity), Stored(k.path), Stored(k.final)} - {k.path}
    else {Stored(k.identity), Stored(k.path)}
  }

  lemma KeptAfterSwap(k: Keys)
    requires KeysOk(k) && UnderNewRoot(k)
    ensures Stored(k.path) == k.path ==> Kept(k) == {Stored(k.identity), Stored(k.final)}
    ensures Stored(k.path) != k.path ==> Kept(k) == {Stored(k.identity), Stored(k.path), Stored(k.final)} && |Kept(k)| == 3
    ensures Stored(k.path) !in {Stored(k.identity), Stored(k.final)}
  {
    KeysAreKeys(k);
    KeysDiffer(k);
    var i, p, f := Stored(k.identity), Stored(k.path), Stored(k.final);
    assert Kept(k) == if p == k.path then {i, f} else {i, p, f};
    assert |{i, p, f}| == 3;
  }

  lemma NewRootFrom(identity: string, rootId: string, root: string, target: string, final: string)
    requires "root_" <= rootId
    ensures UnderNewRoot(KeysFrom(identity, false, rootId, root, target, final))
    ensures var pre := Prefix(false, rootId, root); |pre| > 0 && !Blank(pre[0]) && !Blank(pre[|pre| - 1])
  {
    Starts("repository-path:root-path:", root + ":", target);
    var id := rootId[5..];
    assert rootId == "root_" + id;
    assert "repository-path:" + rootId == "repository-path:root_" + id;
    Starts("repository-path:root_", id + ":", final);
  }

  lemma NewRootKeys(r: Request)
    requires !r.rootExists && IdOk(r)
    ensures UnderNewRoot(KeysOf(r))
    ensures |PathPrefix(r)| > 0 && !Blank(PathPrefix(r)[0]) && !Blank(PathPrefix(r)[|PathPrefix(r)| - 1])
  {
    NewRootFrom(r.identity, r.rootId, T.RootText(r.root), KeyText(Provisional(r)), KeyText(Final(r)));
  }

  /**
   A queued request holds exactly its identity key and its final path key, except
   when it created its root and the target in the provisional key ends in white
   space; then the release misses the provisional key and three keys are held.
   */
  lemma KeepsTwoKeysIff(r: Request)
    requires IdOk(r)
    ensures var k, p := KeysOf(r), KeyText(Provisional(r));
            && (Kept(k) == {Stored(k.identity), Stored(k.final)} <==> r.rootExists || TrimRight(p) == p)
            && (Kept(k) != {Stored(k.identity), Stored(k.final)} ==>
                  Kept(k) == {Stored(k.identity), Stored(k.path), Stored(k.final)} && |Kept(k)| == 3)
  {
    if !r.rootExists {
      KeysOfOk(r);
      NewRootKeys(r);
      KeptAfterSwap(KeysOf(r));
      StoredAsIs(PathPrefix(r), KeyText(Provisional(r)));
    }
  }

  /**
   A request for the target "a / / / /." under a new root keeps a third key: the
   target shrinks with each pass, to "a " in the provisional key and to "a" in the
   final one, and the provisional key is stored without its last space.
   */
  lemma BlankTailKeepsThreeKeys(r: Request)
    requires !r.rootExists && IdOk(r) && P.OsPath(r.root) && r.target == "a / / / /."
    ensures Provisional(r) == Some("a ") && Final(r) == Some("a")
    ensures Kept(KeysOf(r)) == {Stored(KeysOf(r).identity), PathPrefix(r) + "a", Stored(KeysOf(r).final)} && |Kept(KeysOf(r))| == 3
  {
    ShrinkingTarget(r);
    TrimRightIs("a ", "a");
    KeysOfOk(r);
    NewRootKeys(r);
    KeptAfterSwap(KeysOf(r));
    StoredAsIs(PathPrefix(r), "a ");
  }

  lemma ShrinkingTarget(r: Request)
    requires P.OsPath(r.root) && r.target == "a / / / /."
    ensures Provisional(r) == Some("a ") && Final(r) == Some("a")
  {
    T.FirstPass(r.root);
    T.SecondPass(r.root);
    T.ThirdPass(r.root);
  }

  /**
   Which directories share a key: under one existing root those whose targets come
   out equal, and the key of a request that creates its root is the one that later
   requests under that root meet for the same target.
   */
  lemma SameDirectoryMeets(r: Request, q: Request)
    requires q.rootExists && r.rootId == q.rootId
    ensures r.rootExists ==> (KeysOf(r).path == KeysOf(q).path <==> KeyText(Provisional(r)) == KeyText(Provisional(q)))
    ensures !r.rootExists ==> (KeysOf(r).final == KeysOf(q).path <==> KeyText(Final(r)) == KeyText(Provisional(q)))
    ensures KeysOf(r).identity == KeysOf(q).identity <==> r.identity == q.identity
  {
    SamePrefix("repository-path:" + r.rootId + ":", KeyText(if r.rootExists then Provisional(r) else Final(r)), KeyText(Provisional(q)));
    SamePrefix("repository-identity:", r.identity, q.identity);
  }

  lemma SamePrefix(pre: string, a: string, b: string)
    ensures pre + a == pre + b <==> a == b
  {
    assert (pre + a)[|pre|..] == a && (pre + b)[|pre|..] == b;
  }

  class Handler {
    const store: R.ReservationStore
    const queue: JS.Store

    constructor (store: R.ReservationStore, queue: JS.Store)
      ensures this.store == store && this.queue == queue
    {
      this.store, this.queue := store, queue;
    }

    /**
     Every exit leaves either the job queued and the request holding its keys, or
     no job and nothing held by the job's id; nobody else's live reservation moves.
     */
    method Clone(r: Request, refresh: bool) returns (queued: bool)
      requires store.Valid() && queue.Valid()
      requires r.job !in queue.jobs && HoldsExactly(store.rows, r.job, {})
      requires r.enqueue.jobType == J.RepoClone && r.enqueue.lockKey.Some?
      requires r.now <= r.later < r.now + 5 * MINUTE
      modifies store, queue
      ensures store.Valid() && queue.Valid()
      ensures queued <==> r.job in queue.jobs
      ensures queued ==> J.ChecksPass(r.enqueue) && queue.Tables() == J.Inserted(old(queue.Tables()), r.job, r.enqueue, r.later) && HoldsExactly(store.rows, r.job, Kept(KeysOf(r)))
      ensures !queued ==> queue.Tables() == old(queue.Tables()) && HoldsExactly(store.rows, r.job, {})
      ensures OthersLive(old(store.rows), store.rows, r.job, r.later)
      ensures IdOk(r) ==> (queued <==> Grants(r, KeysOf(r), old(store.rows)) && Accepts(r, old(queue.jobs)))
    {
      if Provisional(r).None? { return false; }
      KeysOfOk(r);
      if !r.rootExists && IdOk(r) { FinalApart(r); }
      queued := CloneWith(r, KeysOf(r), refresh);
    }

    /** The request from its keys on. */
    method CloneWith(r: Request, k: Keys, refresh: bool) returns (queued: bool)
      requires store.Valid() && queue.Valid() && KeysOk(k) && Provisional(r).Some?
      requires r.job !in queue.jobs && HoldsExactly(store.rows, r.job, {})
      requires r.enqueue.jobType == J.RepoClone && r.enqueue.lockKey.Some?
      requires r.now <= r.later < r.now + 5 * MINUTE
      requires r.rootExists ==> !Swaps(k)
      modifies store, queue
      ensures store.Valid() && queue.Valid()
      ensures queued <==> r.job in queue.jobs
      ensures queued ==> J.ChecksPass(r.enqueue) && queue.Tables() == J.Inserted(old(queue.Tables()), r.job, r.enqueue, r.later) && HoldsExactly(store.rows, r.job, Kept(k))
      ensures !queued ==> queue.Tables() == old(queue.Tables()) && HoldsExactly(store.rows, r.job, {})
      ensures OthersLive(old(store.rows), store.rows, r.job, r.later)
      ensures r.rootExists || Apart(k) ==> (queued <==> Grants(r, k, old(store.rows)) && Accepts(r, old(queue.jobs)))
    {
      var reserved, held := ReserveBoth(r, k);
      if !reserved { return false; }
      var proceed := true;
      if !r.rootExists { proceed, held := MoveToFinalRoot(r, k, held); }
      queued := Conclude(r, k, held, proceed, refresh);
    }

    /** Reserves the identity and the provisional path, or nothing. */
    method ReserveBoth(r: Request, k: Keys) returns (reserved: bool, held: seq<string>)
      requires KeysOk(k) && store.Valid() && HoldsExactly(store.rows, r.job, {}) && r.later < r.now + 5 * MINUTE && r.now <= r.later
      modifies store
      ensures store.Valid() && OthersLive(old(store.rows), store.rows, r.job, r.later)
      ensures !reserved ==> HoldsExactly(store.rows, r.job, {})
      ensures reserved ==> held == [Stored(k.identity), Stored(k.path)]
      ensures reserved ==> HoldsExactly(store.rows, r.job, {Stored(k.identity), Stored(k.path)})
      ensures reserved ==> LiveAfter(store.rows, r.job, r.later)
      ensures reserved <==> GetsFirst(r, k, old(store.rows))
      ensures reserved ==> forall key :: key != Stored(k.identity) && key != Stored(k.path) ==>
                (FreeAt(store.rows, key, r.later) <==> FreeAt(old(store.rows), key, r.later))
    {
      KeysAreKeys(k);
      TwoWanted(k.identity, k.path);
      BothObtained(store.rows, r, k);
      SweptNothing(store.rows, r.job, r.now);
      var res, tried := store.ReserveOperationKeys(r.job, 5 * MINUTE, [k.identity, k.path], r.now, r.faults);
      SweptOthers(old(store.rows), store.rows, r.job, r.now);
      if !res.Reserved? { return false, []; }
      OwnAreLive(store.rows, r.job, res.held, r.now + 5 * MINUTE);
      OthersFree(old(store.rows), store.rows, r.job, r.now, r.later);
      return true, res.held;
    }

    /** The rest of the request and its deferred release. */
    method Conclude(r: Request, k: Keys, held: seq<string>, proceed: bool, refresh: bool) returns (queued: bool)
      requires store.Valid() && queue.Valid() && r.job !in queue.jobs
      requires r.enqueue.jobType == J.RepoClone && r.enqueue.lockKey.Some?
      requires proceed ==> HoldsExactly(store.rows, r.job, Kept(k))
      requires forall key :: R.Holds(store.rows, r.job, key) ==> key in held
      modifies store, queue
      ensures queued <==> proceed && Accepts(r, old(queue.jobs))
      ensures store.Valid() && queue.Valid()
      ensures queued <==> r.job in queue.jobs
      ensures queued ==> J.ChecksPass(r.enqueue) && queue.Tables() == J.Inserted(old(queue.Tables()), r.job, r.enqueue, r.later)
      ensures queued ==> HoldsExactly(store.rows, r.job, Kept(k))
      ensures !queued ==> queue.Tables() == old(queue.Tables()) && HoldsExactly(store.rows, r.job, {})
      ensures OthersLive(old(store.rows), store.rows, r.job, r.later)
    {
      queued := false;
      if proceed { queued := CheckAndEnqueue(r, refresh); }
      if !queued { store.ReleaseOperationReservations(r.job, held, r.later); }
    }

    /** Creates the root, takes the path key under it and gives up the provisional one. */
    method MoveToFinalRoot(r: Request, k: Keys, held: seq<string>) returns (proceed: bool, held': seq<string>)
      requires KeysOk(k) && store.Valid() && held == [Stored(k.identity), Stored(k.path)] && !r.rootExists
      requires HoldsExactly(store.rows, r.job, {Stored(k.identity), Stored(k.path)})
      requires LiveAfter(store.rows, r.job, r.later)
      modifies store
      ensures Apart(k) ==> (proceed <==> GetsFinal(r, k, old(store.rows)))
      ensures store.Valid()
      ensures proceed ==> HoldsExactly(store.rows, r.job, Kept(k))
      ensures forall key :: R.Holds(store.rows, r.job, key) ==> key in held'
      ensures OthersLive(old(store.rows), store.rows, r.job, r.later)
    {
      held' := held;
      KeysAreKeys(k);
      if r.createRoot.Refuse? || r.renormalize.Refuse? || Final(r).None? { return false, held; }
      if k.final == k.path { return true, held; }
      StillHolds(store.rows, r.job, r.later);
      proceed, held' := SwapPathKey(r, k, held);
    }

    method SwapPathKey(r: Request, k: Keys, held: seq<string>) returns (proceed: bool, held': seq<string>)
      requires KeysOk(k) && store.Valid() && held == [Stored(k.identity), Stored(k.path)]
      requires Swaps(k)
      requires HoldsExactly(R.Swept(store.rows, r.later), r.job, {Stored(k.identity), Stored(k.path)})
      modifies store
      ensures Apart(k) ==> (proceed <==> FreeAt(old(store.rows), Stored(k.final), r.later) && Stored(k.final) !in r.finalFaults.insert)
      ensures store.Valid()
      ensures proceed ==> HoldsExactly(store.rows, r.job, Kept(k))
      ensures forall key :: R.Holds(store.rows, r.job, key) ==> key in held'
      ensures OthersLive(old(store.rows), store.rows, r.job, r.later)
    {
      KeysAreKeys(k);
      var reserved := ReserveFinal(r, k);
      if !reserved { return false, held; }
      store.ReleaseOperationReservations(r.job, [k.path], r.later);
      held' := Remove(held + [Stored(k.final)], k.path);
      KeysAfterSwap(k, held + [Stored(k.final)]);
      return true, held';
    }

    /** Takes the path key under the created root, or nothing. */
    method ReserveFinal(r: Request, k: Keys) returns (reserved: bool)
      requires KeysOk(k) && store.Valid()
      requires HoldsExactly(R.Swept(store.rows, r.later), r.job, {Stored(k.identity), Stored(k.path)})
      modifies store
      ensures store.Valid() && OthersLive(old(store.rows), store.rows, r.job, r.later)
      ensures reserved ==> HoldsExactly(store.rows, r.job, {Stored(k.identity), Stored(k.path), Stored(k.final)})
      ensures !reserved ==> forall key :: R.Holds(store.rows, r.job, key) ==> key in {Stored(k.identity), Stored(k.path)}
      ensures Apart(k) ==> (reserved <==> FreeAt(old(store.rows), Stored(k.final), r.later) && Stored(k.final) !in r.finalFaults.insert)
    {
      KeysAreKeys(k);
      OneWanted(k.final);
      OneObtained(store.rows, r, Stored(k.final));
      var res, tried := store.ReserveOperationKeys(r.job, 5 * MINUTE, [k.final], r.later, r.finalFaults);
      SweptOthers(old(store.rows), store.rows, r.job, r.later);
      return res.Reserved?;
    }

    /** The checks between the reservation and the insert, and the insert. */
    method CheckAndEnqueue(r: Request, refresh: bool) returns (queued: bool)
      requires queue.Valid() && r.job !in queue.jobs
      requires r.enqueue.jobType == J.RepoClone && r.enqueue.lockKey.Some?
      modifies queue
      ensures queue.Valid()
      ensures queued <==> r.job in queue.jobs
      ensures queued ==> J.ChecksPass(r.enqueue) && queue.Tables() == J.Inserted(old(queue.Tables()), r.job, r.enqueue, r.later)
      ensures !queued ==> queue.Tables() == old(queue.Tables())
      ensures queued <==> Accepts(r, old(queue.jobs))
    {
      for i := 0 to |r.checks|
        invariant forall k :: 0 <= k < i ==> r.checks[k].Proceed?
      {
        if r.checks[i].Refuse? { return false; }
      }
      var replay := queue.FindByIdempotency(r.enqueue);
      if replay.Some? {
        Refused(r, queue.jobs, replay.value);
        return false;
      }
      var active := queue.FindActiveOperation(r.enqueue.lockKey.value);
      if active.Some? {
        Refused(r, queue.jobs, active.value);
        return false;
      }
      var res := queue.EnqueueRepositoryOperation(r.job, r.enqueue, r.later, refresh);
      return res.Enqueued?;
    }
  }

  // ---------------------------------------------------------------- small steps

  lemma Refused(r: Request, jobs: map<J.JobId, J.Job>, j: J.JobId)
    requires r.enqueue.lockKey.Some? && j in jobs
    requires J.SameIdempotency(jobs[j], r.enqueue) || J.ActiveOperationOn(jobs[j], r.enqueue.lockKey.value)
    ensures !Accepts(r, jobs)
  {
    assert JS.KeyedAs(jobs[j], r.enqueue) || JS.OperatesOn(jobs[j], r.enqueue.lockKey.value);
  }

  /** What is left of the three keys once the provisional one is released under its untrimmed text. */
  lemma KeysAfterSwap(k: Keys, all: seq<string>)
    requires all == [Stored(k.identity), Stored(k.path)] + [Stored(k.final)]
    requires Swaps(k)
    ensures forall key :: key in Kept(k) <==> key in all && key != k.path
  {
    assert all[0] in all && all[1] in all && all[2] in all;
  }

  lemma TwoWanted(a: string, b: string)
    requires TrimSpace(a) != "" && TrimSpace(b) != ""
    ensures R.Wanted([a, b]) == [TrimSpace(a), TrimSpace(b)]
  {
    assert [a, b][..1] == [a];
    OneWanted(a);
  }

  lemma OneWanted(a: string)
    requires TrimSpace(a) != ""
    ensures R.Wanted([a]) == [TrimSpace(a)]
  {
    assert [a][..0] == [];
  }

  lemma SweptNothing(rows: map<int, R.Reservation>, owner: R.Owner, now: Time)
    requires HoldsExactly(rows, owner, {})
    ensures HoldsExactly(R.Swept(rows, now), owner, {})
  {
    forall id | id in R.Swept(rows, now) ensures !(rows[id].state == R.Held && rows[id].owner == owner) {
      assert R.Holds(rows, owner, rows[id].key) || !R.HeldFor(rows[id], owner, rows[id].key);
    }
  }

  lemma OwnAreLive(rows: map<int, R.Reservation>, owner: R.Owner, held: seq<string>, t: Time)
    requires forall k :: R.Holds(rows, owner, k) ==> k in held
    requires forall id :: id in rows && rows[id].state == R.Held && rows[id].owner == owner && rows[id].key in held ==> rows[id].expiresAt == t
    ensures forall id :: id in rows && rows[id].state == R.Held && rows[id].owner == owner ==> rows[id].expiresAt == t
  {
    forall id | id in rows && rows[id].state == R.Held && rows[id].owner == owner ensures rows[id].expiresAt == t {
      assert R.HeldFor(rows[id], owner, rows[id].key);
      assert R.Holds(rows, owner, rows[id].key);
    }
  }

  lemma StillHolds(rows: map<int, R.Reservation>, owner: R.Owner, now: Time)
    requires LiveAfter(rows, owner, now)
    ensures forall k :: R.Holds(R.Swept(rows, now), owner, k) <==> R.Holds(rows, owner, k)
  {
    forall k ensures R.Holds(R.Swept(rows, now), owner, k) <==> R.Holds(rows, owner, k) {
      if R.Holds(rows, owner, k) {
        var id :| id in rows && R.HeldFor(rows[id], owner, k);
        assert R.HeldFor(R.Swept(rows, now)[id], owner, k);
      }
      if R.Holds(R.Swept(rows, now), owner, k) {
        var id :| id in R.Swept(rows, now) && R.HeldFor(R.Swept(rows, now)[id], owner, k);
        assert R.HeldFor(rows[id], owner, k);
      }
    }
  }

  /** What is free after expiry was free at its moment. */
  lemma SweptFree(rows: map<int, R.Reservation>, key: string, t: Time)
    ensures (forall id :: id in R.Swept(rows, t) ==> !(R.Swept(rows, t)[id].state == R.Held && R.Swept(rows, t)[id].key == key)) <==> FreeAt(rows, key, t)
  {
    if id :| id in rows && rows[id].state == R.Held && rows[id].key == key && rows[id].expiresAt > t {
      assert id in R.Swept(rows, t) && R.Swept(rows, t)[id] == rows[id];
    }
  }

  lemma NotHeld(rows: map<int, R.Reservation>, owner: R.Owner, key: string)
    requires !R.Holds(rows, owner, key)
    ensures forall id :: id in rows ==> !(rows[id].state == R.Held && rows[id].owner == owner && rows[id].key == key)
  {
    if id :| id in rows && rows[id].state == R.Held && rows[id].owner == owner && rows[id].key == key { assert R.HeldFor(rows[id], owner, key); }
  }

  /** A key the owner does not hold is obtained exactly when it is free. */
  lemma ObtainedIff(rows: map<int, R.Reservation>, owner: R.Owner, before: seq<string>, key: string, t: Time, faults: R.Faults)
    requires !R.Holds(R.Swept(rows, t), owner, key) && key !in before
    ensures R.Obtains(R.Swept(rows, t), owner, before, key, faults) <==> FreeAt(rows, key, t) && key !in faults.insert
  {
    NotHeld(R.Swept(rows, t), owner, key);
    SweptFree(rows, key, t);
  }

  lemma BothObtained(rows: map<int, R.Reservation>, r: Request, k: Keys)
    requires KeysOk(k) && HoldsExactly(rows, r.job, {})
    ensures var wanted := [Stored(k.identity), Stored(k.path)];
            R.ObtainsAll(R.Swept(rows, r.now), r.job, wanted, r.faults) <==> GetsFirst(r, k, rows)
  {
    KeysAreKeys(k);
    SweptNothing(rows, r.job, r.now);
    var i, p := Stored(k.identity), Stored(k.path);
    var wanted := [i, p];
    assert wanted[..0] == [] && wanted[..1] == [i];
    ObtainedIff(rows, r.job, [], i, r.now, r.faults);
    ObtainedIff(rows, r.job, [i], p, r.now, r.faults);
    assert R.Obtains(R.Swept(rows, r.now), r.job, wanted[..0], wanted[0], r.faults) <==> FreeAt(rows, i, r.now) && i !in r.faults.insert;
    assert R.Obtains(R.Swept(rows, r.now), r.job, wanted[..1], wanted[1], r.faults) <==> FreeAt(rows, p, r.now) && p !in r.faults.insert;
  }

  lemma OneObtained(rows: map<int, R.Reservation>, r: Request, key: string)
    ensures !R.Holds(R.Swept(rows, r.later), r.job, key) ==>
              (R.ObtainsAll(R.Swept(rows, r.later), r.job, [key], r.finalFaults) <==> FreeAt(rows, key, r.later) && key !in r.finalFaults.insert)
  {
    if !R.Holds(R.Swept(rows, r.later), r.job, key) {
      assert [key][..0] == [];
      ObtainedIff(rows, r.job, [], key, r.later, r.finalFaults);
      assert R.Obtains(R.Swept(rows, r.later), r.job, [key][..0], [key][0], r.finalFaults) <==> FreeAt(rows, key, r.later) && key !in r.finalFaults.insert;
    }
  }

  /** A reservation of the owner's own keys makes no other key free or taken at a later time. */
  lemma OthersFree(before: map<int, R.Reservation>, after: map<int, R.Reservation>, owner: R.Owner, now: Time, later: Time)
    requires R.OthersKept(R.Swept(before, now), after, owner) && now <= later && HoldsExactly(before, owner, {})
    ensures forall key :: !R.Holds(after, owner, key) ==> (FreeAt(after, key, later) <==> FreeAt(before, key, later))
  {
    forall key | !R.Holds(after, owner, key) ensures FreeAt(after, key, later) <==> FreeAt(before, key, later) {
      NotHeld(after, owner, key);
      NotHeld(before, owner, key);
      var swept := R.Swept(before, now);
      if id :| id in before && before[id].state == R.Held && before[id].key == key && before[id].expiresAt > later {
        assert id in swept && swept[id] == before[id];
        assert id in after;
      }
      if id :| id in after && after[id].state == R.Held && after[id].key == key && after[id].expiresAt > later {
        assert id in swept && after[id] == swept[id];
      }
    }
  }

  lemma SweptOthers(before: map<int, R.Reservation>, after: map<int, R.Reservation>, owner: R.Owner, now: Time)
    requires R.OthersKept(R.Swept(before, now), after, owner)
    ensures OthersLive(before, after, owner, now)
  {
  }
}
