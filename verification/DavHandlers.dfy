// The request handlers run one at a time, as steps of the commit protocol.
module DavHandlers {
  import opened Paths
  import opened ObjectModel
  import opened Store
  import opened Repository
  import opened CommitProtocol
  import Svndiff

  /** The events of a MERGE that nobody interrupts, its files staged in the given order. */
  function MergeEvents(request: nat, name: TxnName, order: seq<Path>, last: Event): seq<Event> {
    [TakeTxn(request, name), Acquire(request)] + Stagings(request, order) + [last]
  }

  function Stagings(request: nat, order: seq<Path>): seq<Event> {
    seq(|order|, i requires 0 <= i < |order| => StageFile(request, order[i]))
  }

  lemma {:induction false} RunAppend(s: Server, es: seq<Event>, e: Event)
    ensures Run(s, es + [e]) == Next(Run(s, es), e)
    decreases |es|
  {
    if es == [] {
      assert ([e])[1..] == [];
      assert Run(Next(s, e), []) == Next(s, e);
    } else {
      assert (es + [e])[0] == es[0] && (es + [e])[1..] == es[1..] + [e];
      RunAppend(Next(s, es[0]), es[1..], e);
    }
  }

  class DavServer {
    const repo: Repository
    var txns: map<TxnName, FileMap>
    var counter: nat
    /** The protocol's state: what this server did is a run of it. */
    ghost var state: Server

    /** The fields are what the protocol's state says. */
    ghost predicate Consistent()
      reads this, repo
    {
      && repo.Valid()
      && state.txns == txns && state.counter == counter && state.store == repo.State()
    }

    /** Between requests nobody holds the lock. */
    ghost predicate Valid()
      reads this, repo
    {
      Consistent() && state.lock == None && state.merges == map[]
    }

    /** In the middle of a MERGE with these files still to be staged. */
    ghost predicate Staging(request: nat, files: FileMap, todo: set<Path>)
      reads this, repo
    {
      && Consistent() && HoldsLock(state, request) && state.merges.Keys == {request}
      && state.merges[request].files == files && state.merges[request].todo == todo
    }

    constructor (timestamp: int)
      ensures Valid() && state == Start(timestamp) && Inv(state) && fresh(repo)
    {
      repo := new Repository(timestamp);
      txns, counter := map[], 0;
      state := Start(timestamp);
      new;
      StartInv(timestamp);
    }

    /** post_handler: create-txn */
    method CreateTxn() returns (name: TxnName)
      requires Valid()
      modifies this
      ensures Valid() && name == TxnName(repo.currentRev, old(counter))
      ensures state == Next(old(state), Create(repo.currentRev))
      ensures Inv(old(state)) ==> Inv(state) && name !in old(txns)
    {
      name := TxnName(repo.currentRev, counter);
      if Inv(state) { EventKeepsInv(state, Create(repo.currentRev)); }
      counter := counter + 1;
      txns := txns[name := map[]];
      state := Next(state, Create(repo.currentRev));
    }

    /** put_handler: the body is decoded before it is staged. */
    method PutFile(name: TxnName, filePath: Path, body: Bytes) returns (found: bool)
      requires Valid()
      modifies this
      ensures Valid() && found == (name in old(txns))
      ensures state == Next(old(state), Put(name, filePath, Svndiff.Decoded(body))) && (Inv(old(state)) ==> Inv(state))
    {
      var content := Svndiff.DecodeSvndiff(body);
      if Inv(state) { EventKeepsInv(state, Put(name, filePath, content)); }
      found := name in txns;
      if found { txns := txns[name := txns[name]["/" + filePath := content]]; }
      state := Next(state, Put(name, filePath, content));
    }

    /** handle_delete_activity */
    method DeleteTxn(name: TxnName) returns (found: bool)
      requires Valid()
      modifies this
      ensures Valid() && found == (name in old(txns))
      ensures state == Next(old(state), DeleteActivity(name)) && (Inv(old(state)) ==> Inv(state))
    {
      if Inv(state) { EventKeepsInv(state, DeleteActivity(name)); }
      found := name in txns;
      txns := txns - {name};
      state := Next(state, DeleteActivity(name));
    }

    /** merge_handler takes the transaction out of the map and acquires the commit lock. */
    method TakeAndLock(name: TxnName) returns (files: FileMap)
      requires Valid() && name in txns
      modifies `txns, `state
      ensures files == old(txns)[name] && Staging(0, files, files.Keys) && repo.State() == old(repo.State())
      ensures state == Next(Next(old(state), TakeTxn(0, name)), Acquire(0))
    {
      files := txns[name];
      TakeEffect(state, 0, name);
      txns := txns - {name};
      state := Next(Next(state, TakeTxn(0, name)), Acquire(0));
    }

    method StageOne(request: nat, files: FileMap, todo: set<Path>, p: Path)
      requires Staging(request, files, todo) && p in todo && p in files
      modifies repo, `state
      ensures Staging(request, files, todo - {p}) && repo.currentRev == old(repo.currentRev)
      ensures state == Next(old(state), StageFile(request, p))
    {
      StageFileEffect(state, request, p);
      var _ := repo.AddFile(p, files[p], Executable(p));
      state := Next(state, StageFile(request, p));
    }

    method StageFiles(request: nat, files: FileMap) returns (ghost order: seq<Path>)
      requires Staging(request, files, files.Keys)
      modifies repo, `state
      ensures Staging(request, files, {}) && repo.currentRev == old(repo.currentRev)
      ensures state == Run(old(state), Stagings(request, order))
      ensures forall p :: p in order <==> p in files
    {
      order := [];
      var todo := files.Keys;
      while todo != {}
        invariant todo <= files.Keys && Staging(request, files, todo) && repo.currentRev == old(repo.currentRev)
        invariant state == Run(old(state), Stagings(request, order))
        invariant forall p :: p in order <==> p in files && p !in todo
        decreases |todo|
      {
        var p :| p in todo;
        RunAppend(old(state), Stagings(request, order), StageFile(request, p));
        assert Stagings(request, order + [p]) == Stagings(request, order) + [StageFile(request, p)];
        StageOne(request, files, todo, p);
        order, todo := order + [p], todo - {p};
      }
    }

    /** The commit itself; the lock is dropped whether or not the hook accepts. */
    method CommitAndUnlock(request: nat, files: FileMap, meta: Meta, hookAccepts: bool) returns (r: Result<nat>)
      requires Staging(request, files, {})
      modifies repo, `state
      ensures Valid() && state == Next(old(state), LastEvent(request, meta, hookAccepts))
      ensures r == if hookAccepts then Ok(old(repo.currentRev) + 1) else Err(HookRejected(old(repo.currentRev) + 1))
    {
      LastEventEffect(state, request, meta, hookAccepts);
      r := repo.Commit(meta, hookAccepts);
      state := Next(state, LastEvent(request, meta, hookAccepts));
    }

    method StageAndCommit(
      files: FileMap, meta: Meta, hookAccepts: bool)
      returns (r: Result<nat>, ghost order: seq<Path>)
      requires Staging(0, files, files.Keys)
      modifies repo, `state
      ensures Valid() && (forall p :: p in order <==> p in files)
      ensures r == if hookAccepts then Ok(old(repo.currentRev) + 1) else Err(HookRejected(old(repo.currentRev) + 1))
      ensures state == Next(Run(old(state), Stagings(0, order)), LastEvent(0, meta, hookAccepts))
    {
      order := StageFiles(0, files);
      ghost var staged := state;
      r := CommitAndUnlock(0, files, meta, hookAccepts);
      assert state == Next(staged, LastEvent(0, meta, hookAccepts));
    }

    /** merge_handler for a transaction it finds. */
    method MergeFound(name: TxnName, meta: Meta, hookAccepts: bool) returns (r: Result<nat>, ghost order: seq<Path>)
      requires Valid() && name in txns
      modifies repo, `txns, `state
      ensures Valid() && (forall p :: p in order <==> p in old(txns)[name])
      ensures r == if hookAccepts then Ok(old(repo.currentRev) + 1) else Err(HookRejected(old(repo.currentRev) + 1))
      ensures Merged(old(state), name, order, LastEvent(0, meta, hookAccepts), state)
    {
      ghost var s := state;
      var files := TakeAndLock(name);
      ghost var locked := state;
      r, order := StageAndCommit(files, meta, hookAccepts);
      MergeIsRun(s, locked, name, order, LastEvent(0, meta, hookAccepts), state);
    }

    /** merge_handler; None is the answer 404. */
    method Merge(name: TxnName, meta: Meta, hookAccepts: bool) returns (r: Option<Result<nat>>, ghost order: seq<Path>)
      requires Valid()
      modifies repo, `txns, `state
      ensures Valid() && (r.Some? <==> name in old(txns)) && (Inv(old(state)) ==> Inv(state))
      ensures r.None? ==> state == old(state)
      ensures r.Some? ==> Merged(old(state), name, order, LastEvent(0, meta, hookAccepts), state)
      ensures r.Some? ==> forall p :: p in order <==> p in old(txns)[name]
      ensures r.Some? ==>
                r.value == if hookAccepts then Ok(old(repo.currentRev) + 1)
                           else Err(HookRejected(old(repo.currentRev) + 1))
    {
      if name !in txns { return None, []; }
      var committed;
      committed, order := MergeFound(name, meta, hookAccepts);
      if Inv(old(state)) { CommitsAreAtomic(old(state), MergeEvents(0, name, order, LastEvent(0, meta, hookAccepts))); }
      r := Some(committed);
    }
  }

  function LastEvent(request: nat, meta: Meta, hookAccepts: bool): Event {
    if hookAccepts then CommitProtocol.Commit(request, meta) else HookRefuses(request)
  }

  // What single events do when nothing else is going on.

  lemma LastEventEffect(s: Server, q: nat, meta: Meta, hookAccepts: bool)
    requires HoldsLock(s, q) && s.merges.Keys == {q} && s.merges[q].todo == {}
    ensures var s' := Next(s, LastEvent(q, meta, hookAccepts));
            && s'.lock == None && s'.merges == map[] && s'.txns == s.txns && s'.counter == s.counter
            && s'.store == if hookAccepts then Committed(s.store, meta, true) else RowsTaken(s.store)
  {
  }

  lemma StageFileEffect(s: Server, q: nat, p: Path)
    requires HoldsLock(s, q) && s.merges.Keys == {q} && p in s.merges[q].todo && p in s.merges[q].files
    ensures var s' := Next(s, StageFile(q, p));
            && HoldsLock(s', q) && s'.merges.Keys == {q} && s'.txns == s.txns && s'.counter == s.counter
            && s'.merges[q].files == s.merges[q].files && s'.merges[q].todo == s.merges[q].todo - {p}
            && s'.store == FileAdded(s.store, p, s.merges[q].files[p], Executable(p))
  {
  }

  lemma TakeEffect(s: Server, q: nat, name: TxnName)
    requires s.lock == None && s.merges == map[] && name in s.txns
    ensures var s' := Next(Next(s, TakeTxn(q, name)), Acquire(q));
            && HoldsLock(s', q) && s'.merges.Keys == {q} && s'.txns == s.txns - {name} && s'.counter == s.counter
            && s'.merges[q].files == s.txns[name] && s'.merges[q].todo == s.txns[name].Keys
            && s'.store == s.store
  {
  }

  /** `after` is `before` after an uninterrupted MERGE. */
  ghost predicate Merged(before: Server, name: TxnName, order: seq<Path>, last: Event, after: Server) {
    after == Run(before, MergeEvents(0, name, order, last))
  }

  lemma MergeIsRun(s: Server, locked: Server, name: TxnName, order: seq<Path>, last: Event, after: Server)
    requires locked == Next(Next(s, TakeTxn(0, name)), Acquire(0))
    requires after == Next(Run(locked, Stagings(0, order)), last)
    ensures Merged(s, name, order, last, after)
  {
    var es := [TakeTxn(0, name), Acquire(0)] + Stagings(0, order);
    RunAppend(s, es, last);
    assert es[1..][1..] == Stagings(0, order);
  }
}
