// The operations of the codebase repository (src/codebase-store.cpp) on a store of
// either kind.
module CodebaseStore {
  import opened Store
  import opened Codebase
  import opened CodebaseCommit
  import opened CodebaseAfter
  import opened CodebaseErase
  import opened CodebasePending
  import opened CodebaseReaders
  import opened CodebaseTidy

  datatype Request =
    | Make(path: string, version: string, base: nat, template: string)
    | Set(cb: nat, path: string, data: string)
    | EraseFile(cb: nat, path: string)
    | ResetFile(cb: nat, path: string)
    | SetMain(cb: nat, path: string)
    | Reset(cb: nat)
    | Commit(cb: nat, version: string)
    | Erase(cb: nat)

  class Repository {
    const store: KeyValueStore<Key, Value>
    var next: nat                       // the supply of ids
    ghost var use: map<nat, Use>        // what each id was created for

    ghost predicate Valid()
      reads this, store
    {
      Inv(store.records, next, use)
    }

    // Every content stored for a file is had by a committed file or a pending edit.
    ghost predicate IsTidy()
      reads this, store
    {
      Tidy(store.records, use)
    }

    constructor (store: KeyValueStore<Key, Value>)
      requires store.records == map[]
      ensures Valid() && IsTidy() && this.store == store
    {
      this.store, next, use := store, 1, map[];
    }

    // What it takes to make ids, which the order of the repository includes.
    ghost predicate Supplied()
      reads this, store
    {
      next > 0 && (forall i :: i in use ==> 0 < i < next) && Typed(store.records)
    }

    method MakeId(ghost u: Use) returns (id: nat)
      requires Supplied()
      modifies this`next, this`use
      ensures id == old(next) && next == id + 1 && use == old(use)[id := u] && id !in old(use)
      ensures Supplied() && (old(Valid()) ==> Valid())
    {
      if Valid() {
        UseKeepsInv(store.records, next, use, u);
      }
      id := next;
      next := next + 1;
      use := use[id := u];
    }

    // ----- reading -----------------------------------------------------------------------

    // One pass of list_files; `keep` leaves what is already listed.
    method ListOwn(id: nat, keep: bool, listed: map<string, nat>) returns (files: map<string, nat>)
      requires Typed(store.records)
      ensures files == if keep then Own(store.records, id) + listed else listed + Own(store.records, id)
    {
      var S := store.records;
      var keys := OwnKeys(S, id);
      files := listed;
      while keys != {}
        invariant keys <= OwnKeys(S, id)
        invariant forall p :: p in files <==> p in listed || (OwnKey(id, p) in S && OwnKey(id, p) !in keys)
        invariant forall p :: p in listed && (keep || OwnKey(id, p) !in S || OwnKey(id, p) in keys) ==>
          p in files && files[p] == listed[p]
        invariant forall p :: OwnKey(id, p) in S && OwnKey(id, p) !in keys && !(keep && p in listed) ==>
          p in files && files[p] == S[OwnKey(id, p)].id
      {
        var k :| k in keys;
        keys := keys - {k};
        if !(keep && k.path in files) {
          files := files[k.path := S[k].id];
        }
      }
      OwnDomain(S, id);
    }

    method ListFiles(id: nat, recursive: bool, listed: map<string, nat>) returns (files: map<string, nat>)
      requires Typed(store.records) && Chained(store.records) && (recursive ==> Live(store.records, id))
      ensures files == if recursive then Resolve(store.records, id) + listed else listed + Own(store.records, id)
    {
      files := ListOwn(id, recursive, listed);
      if recursive {
        var S := store.records;
        assert BaseOk(S, id);
        var base := BaseOf(S, id);
        MapAssoc(Resolve(S, base), Own(S, id), listed);
        while base != 0
          invariant base != 0 ==> Live(S, base)
          invariant Resolve(S, base) + files == Resolve(S, id) + listed
          decreases base
        {
          assert BaseOk(S, base);
          MapAssoc(Resolve(S, BaseOf(S, base)), Own(S, base), files);
          files := ListOwn(base, true, files);
          base := BaseOf(S, base);
        }
      }
    }

    method ListDerived(id: nat) returns (ids: set<nat>)
      ensures forall d :: d in ids <==> DerivedKey(id, d) in store.records
    {
      var S := store.records;
      var keys := set k | k in S && k.DerivedKey? && k.base == id;
      ids := set k | k in keys :: k.cb;
      assert forall d :: DerivedKey(id, d) in S ==> DerivedKey(id, d) in keys;
    }

    method ListChildren(id: nat) returns (ids: set<nat>)
      requires Valid()
      ensures ids == Children(store.records, id)
    {
      ids := ListDerived(id);
      forall d ensures d in ids <==> d in Children(store.records, id) {
        ChildrenFacts(store.records, next, id, d);
      }
    }

    // get_file: the id under which a path is found, 0 if it is not. No stored id is 0.
    method GetFile(c: nat, path: string) returns (id: nat)
      requires Valid() && Live(store.records, c)
      ensures id == At(Lookup(store.records, c), path)
    {
      var S := store.records;
      LookupAt(S, c, path);
      FileIdsAreReal(S, next, use, c, path);
      id := 0;
      if ErasedKey(c, path) !in S {
        if EditKey(c, path) in S {
          id := S[EditKey(c, path)].id;
        }
        if id == 0 && OwnKey(c, path) in S {
          id := S[OwnKey(c, path)].id;
        }
      }
      assert BaseOk(S, c);
      var base := BaseOf(S, c);
      while id == 0 && base != 0
        invariant base != 0 ==> Live(S, base)
        invariant id == 0 ==> At(Resolve(S, base), path) == At(Lookup(S, c), path)
        invariant id != 0 ==> id == At(Lookup(S, c), path)
        decreases base
      {
        assert BaseOk(S, base);
        ResolveAt(S, base, path);
        FileIdsAreReal(S, next, use, base, path);
        if OwnKey(base, path) in S {
          id := S[OwnKey(base, path)].id;
        }
        base := BaseOf(S, base);
      }
    }

    // ----- pending changes -----------------------------------------------------------------

    method SetFile(c: nat, path: string, data: string)
      requires Valid() && Live(store.records, c) && FilePathOk(path)
      modifies this, store
      ensures Valid()
      ensures var S := old(store.records);
        var id := if EditKey(c, path) in S then S[EditKey(c, path)].id else old(next);
        && store.records == AfterSetFile(S, c, path, id, data)
        && AllShow(S, store.records, c, path, id)
        && FileKey(id) in store.records && store.records[FileKey(id)] == Content(Blob(data))
      ensures old(IsTidy()) ==> IsTidy()
    {
      var S := store.records;
      ghost var use0 := use;
      var batch := new Batch<Key, Value>();
      var id := FillEdit(batch, c, path, data);
      store.Commit(batch);
      SetFileKeepsInv(S, next, use, c, path, id, data);
      SetFileShowsAll(S, next, use, c, path, id, data);
      if old(IsTidy()) {
        SetFileTidies(S, old(next), use0, c, path, id, data);
      }
    }

    // The batch of set_file.
    method FillEdit(batch: Batch<Key, Value>, c: nat, path: string, data: string) returns (id: nat)
      requires Valid() && batch.Valid() && batch.sets == map[] && batch.dels == {} && Clean(batch.log)
      modifies this`next, this`use, batch
      ensures Valid() && batch.Valid() && Clean(batch.log) && next >= old(next)
      ensures var S := store.records;
        && id == (if EditKey(c, path) in S then S[EditKey(c, path)].id else old(next))
        && (EditKey(c, path) in S ==> use == old(use) && S[EditKey(c, path)] == Id(id))
        && id in use && use[id] == FileOf(c, path) && (OwnKey(c, path) in S ==> S[OwnKey(c, path)] != Id(id))
        && (EditKey(c, path) !in S ==> id !in old(use) && use == old(use)[id := FileOf(c, path)])
        && (S - batch.dels) + batch.sets == AfterSetFile(S, c, path, id, data)
    {
      var S := store.records;
      var key := EditKey(c, path);
      assert EntryOk(S, use, c, path);
      if key !in S {
        id := MakeId(FileOf(c, path));
        batch.Set(FileKey(id), Content(Blob(data)));
        batch.Set(key, Id(id));
      } else {
        id := S[key].id;
        batch.Set(FileKey(id), Content(Blob(data)));
      }
      batch.Erase(ErasedKey(c, path));
      assert (S - batch.dels) + batch.sets == AfterSetFile(S, c, path, id, data);
    }

    method EraseFile(c: nat, path: string)
      requires Valid()
      modifies store
      ensures Valid() && store.records == AfterEraseFile(old(store.records), c, path)
      ensures var S := old(store.records);
        Live(S, c) ==> AllShow(S, store.records, c, path, At(Inherited(S, c), path))
      ensures old(IsTidy()) ==> IsTidy()
    {
      var S := store.records;
      var batch := new Batch<Key, Value>();
      var key := EditKey(c, path);
      assert EntryOk(S, use, c, path);
      if key in S {
        batch.Erase(FileKey(S[key].id));
      }
      batch.Erase(key);
      if OwnKey(c, path) in S {
        batch.Set(ErasedKey(c, path), S[OwnKey(c, path)]);
      }
      store.Commit(batch);
      assert store.records == AfterEraseFile(S, c, path);
      EraseFileKeepsInv(S, next, use, c, path);
      if Live(S, c) {
        EraseFileShowsAll(S, next, use, c, path);
      }
      if old(IsTidy()) {
        EraseFileTidies(S, use, c, path);
      }
    }

    method ResetFile(c: nat, path: string)
      requires Valid()
      modifies store
      ensures Valid() && store.records == AfterResetFile(old(store.records), c, path)
      ensures var S := old(store.records);
        Live(S, c) ==> AllShow(S, store.records, c, path, At(Resolve(S, c), path))
      ensures old(IsTidy()) ==> IsTidy()
    {
      var S := store.records;
      var batch := new Batch<Key, Value>();
      var key := EditKey(c, path);
      if key in S {
        batch.Erase(FileKey(S[key].id));
      }
      batch.Erase(key);
      batch.Erase(ErasedKey(c, path));
      store.Commit(batch);
      assert store.records == AfterResetFile(S, c, path);
      ResetFileKeepsInv(S, next, use, c, path);
      if Live(S, c) {
        ResetFileShowsAll(S, next, use, c, path);
      }
      if old(IsTidy()) {
        EraseFileTidies(S, use, c, path);
      }
    }

    method SetMain(c: nat, path: string)
      requires Valid() && Live(store.records, c)
      modifies store
      ensures Valid() && store.records == AfterSetMain(old(store.records), c, path)
      ensures forall d :: Live(old(store.records), d) ==>
        Live(store.records, d) && Lookup(store.records, d) == Lookup(old(store.records), d)
      ensures store.records.Keys == old(store.records).Keys
      ensures forall k :: k in store.records && k != InfoKey(c) ==> store.records[k] == old(store.records)[k]
      ensures var rec := old(store.records)[InfoKey(c)];
        store.records[InfoKey(c)] == Info(rec.version, rec.path, rec.base, path)
      ensures old(IsTidy()) ==> IsTidy()
    {
      ghost var S := store.records;
      SetMainShows(S, next, use, c, path, c);
      forall d | Live(S, d)
        ensures Live(AfterSetMain(S, c, path), d) && Lookup(AfterSetMain(S, c, path), d) == Lookup(S, d)
      {
        SetMainShows(S, next, use, c, path, d);
      }
      var rec := store.records[InfoKey(c)];
      store.Set(InfoKey(c), Info(rec.version, rec.path, rec.base, path));
      if old(IsTidy()) {
        SetMainTidies(S, use, c, path);
      }
    }

    method EraseEdits(batch: Batch<Key, Value>, c: nat)
      requires Typed(store.records) && batch.Valid() && batch.sets == map[] && batch.dels == {} && Clean(batch.log)
      modifies batch
      ensures batch.Valid() && batch.sets == map[] && batch.dels == EditRecords(store.records, c) && Clean(batch.log)
    {
      var S := store.records;
      var keys := EditKeys(S, c);
      var todo := keys;
      assert keys - todo == {};
      while todo != {}
        invariant batch.Valid() && batch.sets == map[] && Clean(batch.log) && todo <= keys
        invariant batch.dels == (keys - todo) + ContentKeys(S, keys - todo)
      {
        var key :| key in todo;
        assert keys - (todo - {key}) == (keys - todo) + {key};
        OneMoreContent(S, keys - todo, key);
        batch.Erase(FileKey(S[key].id));
        batch.Erase(key);
        todo := todo - {key};
      }
      assert keys - todo == keys;
    }

    // reset: the edits of c are dropped, its erasures are not.
    method Reset(c: nat)
      requires Valid()
      modifies store
      ensures Valid() && store.records == AfterReset(old(store.records), c)
      ensures forall d, p {:trigger At(Lookup(store.records, d), p)} :: Live(old(store.records), d) ==>
        && Live(store.records, d)
        && At(Lookup(store.records, d), p) == AtAfterReset(old(store.records), c, d, p)
      ensures old(IsTidy()) ==> IsTidy()
    {
      ghost var S := store.records;
      ResetKeepsInv(S, next, use, c);
      forall d, p | Live(S, d)
        ensures Live(AfterReset(S, c), d) && At(Lookup(AfterReset(S, c), d), p) == AtAfterReset(S, c, d, p)
      {
        ResetShows(S, next, use, c, d, p);
      }
      var batch := new Batch<Key, Value>();
      EraseEdits(batch, c);
      store.Commit(batch);
      assert store.records == S - batch.dels;
      if old(IsTidy()) {
        ResetTidies(S, next, use, c);
      }
    }

    // ----- rebuilding a tree ------------------------------------------------------------------

    // generate_files: one record per file, the manifest, and the erasure of what is left
    // over from earlier trees under the same path.
    method GenerateFiles(batch: Batch<Key, Value>, path: string, main: string, version: string, files: map<string, nat>)
      requires Supplied() && batch.Valid()
      requires forall p :: p in files ==> FilePathOk(p)
      modifies this`next, this`use, batch
      ensures Supplied() && (old(Valid()) ==> Valid())
      ensures batch.Valid() && next >= old(next) && Extends(old(use), use)
      ensures IndexOk(store.records, old(use), path + "/") ==>
        FilesGenerated(store.records, use, old(batch.sets), old(batch.dels), batch.sets, batch.dels,
                       path, main, version, files)
      ensures FileIds(batch.sets) == FileIds(old(batch.sets)) + {IndexId(store.records, path + "/", old(next))}
      ensures OnlyTrees(old(batch.sets), old(batch.dels), batch.sets, batch.dels)
      ensures old(Clean(batch.log)) && old(FreshPath(path, batch.sets)) ==> Clean(batch.log)
      ensures old(Typed(batch.sets)) ==> Typed(batch.sets)
    {
      var S := store.records;
      var oldKeys := set k | k in S && k.TreeKey? && Under(path, k.path);
      ghost var sets0, dels0 := batch.sets, batch.dels;
      var left := SetTreeRecords(batch, path, version, files, oldKeys);
      ghost var sets1 := batch.sets;
      assert old(FreshPath(path, batch.sets)) ==> left !! sets1.Keys by {
        assert forall k :: k in left ==> SameSet(sets0, sets1, k);
      }
      EraseKeys(batch, left);
      IndexPathFacts(path);
      SetIndex(batch, path + "/", version, Manifest(main, files.Keys - {main}));
      if IndexOk(S, old(use), path + "/") {
        LoopsGenerate(S, use, sets0, dels0, sets1, left, batch.sets, path, main, version, files);
      }
      ghost var id := IndexId(S, path + "/", old(next));
      LoopsLeaveOthers(S, sets0, dels0, sets1, left, path, files, path + "/", id, TreeRec(id, version),
                       Content(Manifest(main, files.Keys - {main})));
    }

    // The first loop of generate_files: which of the old keys are left.
    method SetTreeRecords(batch: Batch<Key, Value>, path: string, version: string, files: map<string, nat>,
                          oldKeys: set<Key>) returns (left: set<Key>)
      requires batch.Valid()
      modifies batch
      ensures batch.Valid() && batch.dels == old(batch.dels) && (old(Clean(batch.log)) ==> Clean(batch.log))
      ensures old(Typed(batch.sets)) ==> Typed(batch.sets)
      ensures forall p :: p in files ==>
        TreeKey(path + p) in batch.sets && batch.sets[TreeKey(path + p)] == TreeRec(files[p], version)
      ensures forall k :: !InTree(path, files, k) ==> SameSet(old(batch.sets), batch.sets, k)
      ensures forall k :: k in left <==> k in oldKeys && !InTree(path, files, k)
    {
      left := oldKeys;
      var todo := files.Keys;
      while todo != {}
        invariant batch.Valid() && todo <= files.Keys && batch.dels == old(batch.dels)
        invariant forall p :: p in files && p !in todo ==>
          TreeKey(path + p) in batch.sets && batch.sets[TreeKey(path + p)] == TreeRec(files[p], version)
        invariant forall k :: !InTree(path, files, k) || k.path[|path|..] in todo ==>
          SameSet(old(batch.sets), batch.sets, k)
        invariant forall k :: k in left <==> k in oldKeys && (!InTree(path, files, k) || k.path[|path|..] in todo)
        invariant old(Clean(batch.log)) ==> Clean(batch.log)
        invariant old(Typed(batch.sets)) ==> Typed(batch.sets)
      {
        var p :| p in todo;
        InTreeAt(path, files, p);
        todo := todo - {p};
        batch.Set(TreeKey(path + p), TreeRec(files[p], version));
        left := left - {TreeKey(path + p)};
      }
    }

    method EraseKeys(batch: Batch<Key, Value>, keys: set<Key>)
      requires batch.Valid()
      modifies batch
      ensures batch.Valid() && batch.sets == old(batch.sets) && batch.dels == old(batch.dels) + keys
      ensures old(Clean(batch.log)) && keys !! batch.sets.Keys ==> Clean(batch.log)
    {
      var left := keys;
      while left != {}
        invariant batch.Valid() && left <= keys && batch.sets == old(batch.sets)
        invariant batch.dels == old(batch.dels) + (keys - left)
        invariant old(Clean(batch.log)) && keys !! batch.sets.Keys ==> Clean(batch.log)
      {
        var key :| key in left;
        left := left - {key};
        batch.Erase(key);
      }
    }

    // The record and content of a manifest or of etags, under the id it had before if any.
    method SetIndex(batch: Batch<Key, Value>, p: string, version: string, text: Text)
      requires Supplied() && batch.Valid()
      modifies this`next, this`use, batch
      ensures Supplied() && (old(Valid()) ==> Valid())
      ensures batch.Valid() && next >= old(next) && Extends(old(use), use)
      ensures var id := IndexId(store.records, p, old(next));
        batch.sets == old(batch.sets)[TreeKey(p) := TreeRec(id, version)][FileKey(id) := Content(text)]
      ensures IndexOk(store.records, old(use), p) ==>
        && IndexSet(use, batch.sets, p, version, text)
        && forall k :: !IsIndexKey(use, p, k) ==> SameSet(old(batch.sets), batch.sets, k)
      ensures batch.dels == old(batch.dels)
      ensures old(Clean(batch.log)) ==> Clean(batch.log)
      ensures old(Typed(batch.sets)) ==> Typed(batch.sets)
    {
      var S := store.records;
      var key := TreeKey(p);
      var id := 0;
      if key in S {
        id := S[key].id;
      }
      if id == 0 {
        id := MakeId(IndexOf(p));
      }
      batch.Set(key, TreeRec(id, version));
      batch.Set(FileKey(id), Content(text));
    }

    // generate_etags: its record carries no version of its own.
    method GenerateEtags(batch: Batch<Key, Value>, path: string, version: string, files: map<string, nat>)
      requires Supplied() && batch.Valid()
      modifies this`next, this`use, batch
      ensures Supplied() && (old(Valid()) ==> Valid())
      ensures batch.Valid() && next >= old(next) && Extends(old(use), use)
      ensures IndexOk(store.records, old(use), path + ETAGS) ==>
        EtagsGenerated(store.records, use, old(batch.sets), batch.sets, path, version, files)
      ensures var id := IndexId(store.records, path + ETAGS, old(next));
        && FileIds(batch.sets) == FileIds(old(batch.sets)) + {id}
        && FileKey(id) in batch.sets
        && batch.sets[FileKey(id)] == Content(Etags(EtagLines(store.records, path, version, files)))
        && var lines := batch.sets[FileKey(id)].text.lines;
          && lines.Keys == files.Keys
          && forall p :: p in files ==>
            if version != "" then lines[p] == version
            else if TreeKey(path + p) in store.records && store.records[TreeKey(path + p)].TreeRec? then
              lines[p] == store.records[TreeKey(path + p)].version
            else lines[p] == ""
      ensures forall k: Key :: !k.TreeKey? && !k.FileKey? ==> SameSet(old(batch.sets), batch.sets, k)
      ensures batch.dels == old(batch.dels)
      ensures old(Clean(batch.log)) ==> Clean(batch.log)
      ensures old(Typed(batch.sets)) ==> Typed(batch.sets)
    {
      var S := store.records;
      var lines: map<string, string> := map[];
      var todo := files.Keys;
      while todo != {}
        invariant todo <= files.Keys
        invariant forall p :: p in lines <==> p in files && p !in todo
        invariant forall p :: p in lines ==> lines[p] == EtagLines(S, path, version, files)[p]
      {
        var p :| p in todo;
        todo := todo - {p};
        var line := version;
        if version == "" && TreeKey(path + p) in S {
          line := S[TreeKey(path + p)].version;
        }
        lines := lines[p := line];
      }
      assert lines == EtagLines(S, path, version, files);
      IndexPathFacts(path);
      SetIndex(batch, path + ETAGS, "", Etags(lines));
    }

    // generate_files and generate_etags together, as a commit calls them for each codebase it
    // rebuilds. Of all ids there are, it writes contents under those that are recorded as
    // manifest or etags, whatever they were made for.
    method GenerateTree(batch: Batch<Key, Value>, path: string, main: string, version: string, files: map<string, nat>)
      returns (ghost sets1: Records, ghost use1: map<nat, Use>)
      requires Supplied() && batch.Valid()
      requires forall p :: p in files ==> FilePathOk(p)
      modifies this`next, this`use, batch
      ensures Supplied() && (old(Valid()) ==> Valid())
      ensures batch.Valid() && next >= old(next) && Extends(old(use), use1) && Extends(use1, use)
      ensures IndexOk(store.records, old(use), path + "/") && IndexOk(store.records, old(use), path + ETAGS) ==>
        && FilesGenerated(store.records, use1, old(batch.sets), old(batch.dels), sets1, batch.dels,
                          path, main, version, files)
        && EtagsGenerated(store.records, use, sets1, batch.sets, path, version, files)
      ensures forall i :: i in old(use) ==>
        (i in FileIds(batch.sets) - FileIds(old(batch.sets)) <==>
           i !in FileIds(old(batch.sets))
           && (TreeIdIs(store.records, path + "/", i) || TreeIdIs(store.records, path + ETAGS, i)))
      ensures forall i :: i != 0 && TreeIdIs(store.records, path + ETAGS, i) ==>
        && FileKey(i) in batch.sets
        && batch.sets[FileKey(i)] == Content(Etags(EtagLines(store.records, path, version, files)))
      ensures OnlyTrees(old(batch.sets), old(batch.dels), batch.sets, batch.dels)
      ensures old(Clean(batch.log)) && old(FreshPath(path, batch.sets)) ==> Clean(batch.log)
      ensures old(Typed(batch.sets)) ==> Typed(batch.sets)
    {
      GenerateFiles(batch, path, main, version, files);
      sets1, use1 := batch.sets, use;
      GenerateEtags(batch, path, version, files);
    }

    // The three steps that rebuild the tree of x: its files, its etags and its own record.
    // (commit writes the record before the etags, upgrade_derived after them.)
    method RebuildTree(batch: Batch<Key, Value>, x: nat, version: string, files: map<string, nat>)
      requires Valid() && batch.Valid() && Live(store.records, x)
      requires forall p :: p in files ==> FilePathOk(p)
      requires FreshPath(PathOf(store.records, x), batch.sets)
      modifies this`next, this`use, batch
      ensures Valid() && batch.Valid() && next >= old(next) && Extends(old(use), use)
      ensures Rebuilt(store.records, use, batch.sets, batch.dels, x, version, files)
      ensures forall k :: !TreeRegion(store.records, use, x, k) ==>
        Same(old(batch.sets), old(batch.dels), batch.sets, batch.dels, k)
      ensures old(Clean(batch.log)) ==> Clean(batch.log)
      ensures old(Typed(batch.sets)) ==> Typed(batch.sets)
    {
      var S := store.records;
      var info := S[InfoKey(x)];
      assert CodebaseOk(S, next, x) && IndexesOk(S, use, x);
      ghost var sets0, dels0 := batch.sets, batch.dels;
      ghost var sets1, use1 := GenerateTree(batch, info.path, info.main, version, files);
      ghost var sets2, dels1 := batch.sets, batch.dels;
      batch.Set(InfoKey(x), WithVersion(info, version));
      GeneratedIsRebuilt(S, use1, use, x, version, files, sets0, dels0, sets1, dels1, sets2);
      forall k | !TreeRegion(S, use, x, k) ensures Same(sets0, dels0, batch.sets, batch.dels, k) {
        GeneratedInRegion(S, use1, use, x, version, files, sets0, dels0, sets1, dels1, sets2, k);
      }
    }

    // What upgrade_derived does to one derived codebase whose link is out of date.
    method RebuildDerived(batch: Batch<Key, Value>, id: nat, d: nat, version: string, files: map<string, nat>)
      requires Valid() && batch.Valid()
      requires Live(store.records, d) && Fresh(store.records, batch.sets, batch.dels, d)
      requires forall p :: p in files ==> FilePathOk(p)
      modifies this`next, this`use, batch
      ensures Valid() && batch.Valid() && next >= old(next) && Extends(old(use), use)
      ensures Rebuilt(store.records, use, batch.sets, batch.dels, d, Bump(VersionOf(store.records, d)), files)
      ensures LinkSet(batch.sets, batch.dels, id, d, version)
      ensures forall k :: !Region(store.records, use, d, k) ==>
        Same(old(batch.sets), old(batch.dels), batch.sets, batch.dels, k)
      ensures old(Clean(batch.log)) ==> Clean(batch.log)
      ensures old(Typed(batch.sets)) ==> Typed(batch.sets)
    {
      var S := store.records;
      ghost var sets0, dels0 := batch.sets, batch.dels;
      RebuildTree(batch, d, Bump(S[InfoKey(d)].version), files);
      TreeLeavesLinks(S, use, sets0, dels0, batch.sets, batch.dels, d);
      ghost var sets1, dels1 := batch.sets, batch.dels;
      batch.Set(DerivedKey(id, d), Link(version));
      LinkAdded(S, use, sets1, dels1, d, Bump(VersionOf(S, d)), files, id, version);
      forall k | !Region(S, use, d, k) ensures Same(sets0, dels0, batch.sets, batch.dels, k) {
        assert !TreeRegion(S, use, d, k) && Same(sets0, dels0, sets1, dels1, k);
      }
    }

    // One round of upgrade_derived: child d of `id`, then what derives from d.
    method UpgradeOne(batch: Batch<Key, Value>, id: nat, d: nat, version: string, base: map<string, nat>, ghost c: nat,
                      ghost v: string, ghost top: nat)
      returns (updated: seq<nat>, ghost use1: map<nat, Use>, ghost sets1: Records, ghost dels1: set<Key>)
      requires Valid() && batch.Valid()
      requires Reached(store.records, c, v, id, version, base, top) && d in Children(store.records, id)
      requires Untouched(store.records, batch.sets, batch.dels, {d})
      modifies this`next, this`use, batch
      ensures Valid() && batch.Valid() && next >= old(next) && Extends(old(use), use) && Live(store.records, d)
      ensures UpgradedOne(store.records, old(use), use1, use, d, c, v,
                          old(batch.sets), old(batch.dels), sets1, dels1, batch.sets, batch.dels)
      ensures forall x :: x in updated <==>
        v != VersionOf(store.records, c) && Live(store.records, x) && Derives(store.records, x, d)
      ensures old(Clean(batch.log)) ==> Clean(batch.log)
      ensures old(Typed(batch.sets)) ==> Typed(batch.sets)
      decreases top - id, 0
    {
      var S := store.records;
      LinkTells(S, next, c, v, id, d);
      var files := ListFiles(d, false, base);
      var derivedVersion := S[InfoKey(d)].version;
      updated := [];
      ghost var sets0, dels0 := batch.sets, batch.dels;
      NewPathsOk(S, next, use, c, d);
      RebuildUntouched(S, next, use, use, d, {d}, sets0, dels0, sets0, dels0);
      if S[DerivedKey(id, d)].version != version {
        derivedVersion := Bump(derivedVersion);
        RebuildDerived(batch, id, d, version, files);
        updated := [d];
      }
      RebuildUntouched(S, next, use, use, d, {d}, sets0, dels0, batch.sets, batch.dels);
      use1, sets1, dels1 := use, batch.sets, batch.dels;
      var more := UpgradeDerived(batch, d, derivedVersion, files, c, v, top);
      forall x | Live(S, x) ensures Below(S, x, Children(S, d)) <==> x != d && Derives(S, x, d) {
        BelowChildren(S, next, x, d);
      }
      updated := updated + more;
    }

    // The recursive part of commit: rebuild every derived codebase whose link records
    // another version of its base than the new one.
    method UpgradeDerived(batch: Batch<Key, Value>, id: nat, version: string, base: map<string, nat>, ghost c: nat,
                          ghost v: string, ghost top: nat) returns (updated: seq<nat>)
      requires Valid() && batch.Valid()
      requires Reached(store.records, c, v, id, version, base, top)
      requires Untouched(store.records, batch.sets, batch.dels, Children(store.records, id))
      modifies this`next, this`use, batch
      ensures Valid() && batch.Valid() && next >= old(next) && Extends(old(use), use)
      ensures Upgraded(store.records, use, Children(store.records, id), c, v,
                       old(batch.sets), old(batch.dels), batch.sets, batch.dels)
      ensures Updates(store.records, c, v, Children(store.records, id), updated)
      ensures old(Clean(batch.log)) ==> Clean(batch.log)
      ensures old(Typed(batch.sets)) ==> Typed(batch.sets)
      decreases top - id, 1
    {
      var S := store.records;
      updated := [];
      var todo := ListChildren(id);
      ghost var H := {};
      NothingUpgraded(S, use, c, v, batch.sets, batch.dels);
      while todo != {}
        modifies this`next, this`use, batch
        invariant Valid() && batch.Valid() && next >= old(next) && Extends(old(use), use)
        invariant H + todo == Children(S, id) && H !! todo
        invariant Untouched(S, batch.sets, batch.dels, todo)
        invariant Upgraded(S, use, H, c, v, old(batch.sets), old(batch.dels), batch.sets, batch.dels)
        invariant Updates(S, c, v, H, updated)
        invariant old(Clean(batch.log)) ==> Clean(batch.log)
        invariant old(Typed(batch.sets)) ==> Typed(batch.sets)
      {
        var d :| d in todo;
        ghost var use0, sets0, dels0 := use, batch.sets, batch.dels;
        UntouchedPart(S, batch.sets, batch.dels, {d}, todo);
        var more, use1, sets1, dels1 := UpgradeOne(batch, id, d, version, base, c, v, top);
        assert todo == {d} + (todo - {d});
        todo := todo - {d};
        StepAll(S, next, use, use0, use1, id, d, H, todo, c, v, old(batch.sets), old(batch.dels),
                sets0, dels0, sets1, dels1, batch.sets, batch.dels);
        UpdatesMore(S, c, v, H, d, updated, more);
        H := H + {d};
        updated := updated + more;
      }
    }

    // ----- commit --------------------------------------------------------------------------------

    // One edit of c: `todo` are the edits still to be committed, this one included.
    method CommitEdit(batch: Batch<Key, Value>, c: nat, p: string, files: map<string, nat>, ghost todo: set<string>)
      returns (files': map<string, nat>)
      requires Typed(store.records) && batch.Valid() && Clean(batch.log)
      requires p in todo && todo <= EditPaths(store.records, c)
      requires files == Own(store.records, c) + (Edits(store.records, c) - todo)
      requires EditsDone(store.records, c, EditPaths(store.records, c) - todo, batch.sets, batch.dels)
      modifies batch
      ensures batch.Valid() && Clean(batch.log)
      ensures files' == Own(store.records, c) + (Edits(store.records, c) - (todo - {p}))
      ensures EditsDone(store.records, c, EditPaths(store.records, c) - (todo - {p}), batch.sets, batch.dels)
    {
      var S := store.records;
      ghost var sets, dels := batch.sets, batch.dels;
      OwnDomain(S, c);
      EditsDomain(S, c);
      var key := EditKey(c, p);
      var id := S[key].id;
      if p in files {
        batch.Erase(FileKey(files[p]));
      }
      files' := files[p := id];
      batch.Set(OwnKey(c, p), Id(id));
      batch.Erase(key);
      assert batch.dels == dels + {key} + FileContent(S, c, p);
      OneMoreEdit(S, c, EditPaths(S, c), todo, p, sets, dels, batch.sets, batch.dels);
      OneMoreOf(Own(S, c), Edits(S, c), todo, p);
    }

    method CommitErasure(batch: Batch<Key, Value>, c: nat, p: string)
      requires Typed(store.records) && EntryOk(store.records, use, c, p)
      requires ErasedKey(c, p) in store.records && batch.Valid()
      modifies batch
      ensures batch.Valid() && batch.sets == old(batch.sets)
      ensures batch.dels == old(batch.dels) + {ErasedKey(c, p), OwnKey(c, p)} + FileContent(store.records, c, p)
      ensures old(Clean(batch.log)) && OwnKey(c, p) !in batch.sets && (forall k :: k in batch.sets ==> k.OwnKey?) ==>
        Clean(batch.log)
    {
      var key := ErasedKey(c, p);
      batch.Erase(FileKey(store.records[key].id));
      batch.Erase(OwnKey(c, p));
      batch.Erase(key);
    }

    // The edits of c become files; the content of the files they replace is dropped.
    method CommitEdits(batch: Batch<Key, Value>, c: nat) returns (files: map<string, nat>)
      requires Typed(store.records) && Chained(store.records)
      requires batch.Valid() && batch.sets == map[] && batch.dels == {} && Clean(batch.log)
      modifies batch
      ensures batch.Valid() && Clean(batch.log)
      ensures files == Own(store.records, c) + Edits(store.records, c)
      ensures EditsDone(store.records, c, EditPaths(store.records, c), batch.sets, batch.dels)
    {
      var S := store.records;
      files := ListFiles(c, false, map[]);
      var edit := EditPaths(S, c);
      var todo := edit;
      NoEditsYet(S, c, batch.sets, batch.dels);
      while todo != {}
        invariant todo <= edit && batch.Valid() && Clean(batch.log)
        invariant files == Own(S, c) + (Edits(S, c) - todo)
        invariant EditsDone(S, c, edit - todo, batch.sets, batch.dels)
      {
        var p :| p in todo;
        files := CommitEdit(batch, c, p, files, todo);
        todo := todo - {p};
      }
      assert edit - todo == edit && Edits(S, c) - todo == Edits(S, c);
    }

    // The erasures of c take their files away.
    method CommitErasures(batch: Batch<Key, Value>, c: nat, files0: map<string, nat>) returns (files: map<string, nat>)
      requires Typed(store.records) && FilesOk(store.records, use) && batch.Valid() && Clean(batch.log)
      requires EditsDone(store.records, c, EditPaths(store.records, c), batch.sets, batch.dels)
      modifies batch
      ensures batch.Valid() && Clean(batch.log) && batch.sets == old(batch.sets)
      ensures files == files0 - Erasures(store.records, c).Keys
      ensures forall k :: k in batch.dels <==> DeletedPending(store.records, c, k)
    {
      var S := store.records;
      files := files0;
      ghost var edit := EditPaths(S, c);
      var erased := ErasedPaths(S, c);
      var todo := erased;
      while todo != {}
        invariant todo <= erased && batch.Valid() && Clean(batch.log) && batch.sets == old(batch.sets)
        invariant files == files0 - (erased - todo)
        invariant forall k :: k in batch.dels <==> DeletedFor(S, c, edit, erased - todo, k)
      {
        var p :| p in todo;
        ghost var dels := batch.dels;
        PathsFacts(S, c, p);
        CommitErasure(batch, c, p);
        ErasureDeletes(S, c, edit, erased, todo, p, dels, batch.dels);
        todo := todo - {p};
        files := files - {p};
      }
      assert erased - todo == erased;
      ErasuresDomain(S, c);
      forall k ensures k in batch.dels <==> DeletedPending(S, c, k) {
        AllDeletedFor(S, c, k);
      }
    }

    // What a codebase inherits, where it has nothing of its own.
    method AddInherited(c: nat, files0: map<string, nat>) returns (files: map<string, nat>)
      requires Typed(store.records) && Chained(store.records) && Live(store.records, c)
      ensures files == Inherited(store.records, c) + files0
    {
      var S := store.records;
      files := files0;
      assert BaseOk(S, c);
      if BaseOf(S, c) != 0 {
        var base := ListFiles(BaseOf(S, c), true, map[]);
        assert base == Resolve(S, BaseOf(S, c));
        var todo := base.Keys;
        while todo != {}
          invariant todo <= base.Keys && files == (base - todo) + files0
        {
          var p :| p in todo;
          OneMoreUnder(base, files0, todo, p);
          todo := todo - {p};
          if p !in files {
            files := files[p := base[p]];
          }
        }
        assert base - todo == base;
      }
    }

    // The part of a commit that concerns c itself.
    method FillOwn(batch: Batch<Key, Value>, c: nat, version: string)
      returns (files: map<string, nat>, ghost sets1: Records, ghost dels1: set<Key>)
      requires Valid() && Live(store.records, c)
      requires batch.Valid() && batch.sets == map[] && batch.dels == {} && Clean(batch.log)
      modifies this`next, this`use, batch
      ensures Valid() && batch.Valid() && Clean(batch.log) && Typed(batch.sets)
      ensures PendingDone(store.records, c, sets1, dels1)
      ensures Done(store.records, use, batch.sets, batch.dels, c, version, c)
      ensures forall k :: !Region(store.records, use, c, k) ==> Same(sets1, dels1, batch.sets, batch.dels, k)
      ensures files == NewFiles(store.records, c, c)
      ensures Extends(old(use), use)
      ensures Untouched(store.records, batch.sets, batch.dels, Children(store.records, c))
    {
      var S := store.records;
      var pending := CommitEdits(batch, c);
      ghost var dels0 := batch.dels;
      pending := CommitErasures(batch, c, pending);
      sets1, dels1 := batch.sets, batch.dels;
      files := AddInherited(c, pending);
      NewPathsOk(S, next, use, c, c);
      EditsAndErasures(S, next, use, c, sets1, dels1, dels0);
      PendingIsFresh(S, c, sets1, dels1);
      RebuildTree(batch, c, version, files);
      TreeLeavesLinks(S, use, sets1, dels1, batch.sets, batch.dels, c);
      forall k | !Region(S, use, c, k) ensures Same(sets1, dels1, batch.sets, batch.dels, k) {
        assert !TreeRegion(S, use, c, k);
      }
      RebuildUntouched(S, next, use, use, c, {c}, sets1, dels1, batch.sets, batch.dels);
    }

    // The batch of a commit.
    method FillCommit(batch: Batch<Key, Value>, c: nat, version: string) returns (updated: seq<nat>)
      requires Valid() && Live(store.records, c)
      requires batch.Valid() && batch.sets == map[] && batch.dels == {} && Clean(batch.log)
      modifies this`next, this`use, batch
      ensures Valid() && batch.Valid() && Clean(batch.log)
      ensures Commits(store.records, next, use, batch.sets, batch.dels, c, version,
                      (store.records - batch.dels) + batch.sets)
      ensures forall x :: x in updated <==> Live(store.records, x) && Touched(store.records, c, version, x)
      ensures Extends(old(use), use)
    {
      var S := store.records;
      var files, sets1, dels1 := FillOwn(batch, c, version);
      ghost var sets2, dels2, use2 := batch.sets, batch.dels, use;
      LiveBound(S, next, use);
      updated := UpgradeDerived(batch, c, version, files, c, version, next);
      StagesCommitFiles(S, next, use, use2, c, version, sets1, dels1, sets2, dels2, batch.sets, batch.dels);
      StagesCommitTrees(S, next, use, use2, c, version, sets1, dels1, sets2, dels2, batch.sets, batch.dels);
      forall x | Live(S, x) ensures Touched(S, c, version, x) <==>
        x == c || (version != VersionOf(S, c) && Below(S, x, Children(S, c))) {
        BelowChildren(S, next, x, c);
        assert CodebaseOk(S, next, c);
      }
      updated := [c] + updated;
    }

    // commit: the pending changes of c become part of it, and its tree and, if its
    // version changes, the trees of everything derived from it are rebuilt.
    method Commit(c: nat, version: string) returns (updated: seq<nat>)
      requires Valid() && Live(store.records, c)
      modifies this, store
      ensures Valid() && Moved(old(store.records), store.records, use, c, version)
      ensures Live(store.records, c) && SameView(old(store.records), store.records, c)
      ensures Resolve(store.records, c) == Lookup(old(store.records), c)
      ensures forall x :: x in updated <==> Live(old(store.records), x) && Touched(old(store.records), c, version, x)
      ensures TreesMoved(old(store.records), store.records, c, version)
      ensures VersionsMoved(old(store.records), store.records, c, version)
      ensures old(IsTidy()) ==> IsTidy()
    {
      var S := store.records;
      var batch := new Batch<Key, Value>();
      updated := FillCommit(batch, c, version);
      store.Commit(batch);
      ghost var T := store.records;
      CommitKeepsInv(S, next, use, batch.sets, batch.dels, c, version, T);
      CommitKeepsLookup(S, next, use, c, version, T);
      CommittedIsShown(S, next, use, c, version, T);
      CommitMovesTrees(S, next, use, batch.sets, batch.dels, c, version, T);
      VersionsAfter(S, T, use, c, version);
      if old(IsTidy()) {
        CommitTidies(S, T, old(use), use, c, version);
      }
    }

    // ----- making and erasing ------------------------------------------------------------------------

    // make_codebase looks neither at other paths nor at what was left in the tree. What readers
    // find is right in any case; the repository is in order exactly if the path is free, and
    // what was left at the paths of the new index is nobody else's.
    method MakeCodebase(path: string, version: string, base: nat, template: string) returns (id: nat)
      requires Valid() && (base == 0 || Live(store.records, base))
      modifies this, store
      ensures Supplied()
      ensures Valid() <==> PathFree(old(store.records), path) && IndexFree(old(store.records), path)
      ensures id == old(next) && Chained(store.records) && Live(store.records, id)
      ensures OnlyAdds(old(store.records), store.records, id)
      ensures var main := if base != 0 then old(store.records)[InfoKey(base)].main else MAIN;
        store.records[InfoKey(id)] == Info(version, path, base, main)
      ensures PathKey(path) in store.records && store.records[PathKey(path)] == Id(id)
      ensures base != 0 ==>
        && DerivedKey(base, id) in store.records
        && store.records[DerivedKey(base, id)] == Link(VersionOf(old(store.records), base))
      ensures base != 0 ==> Lookup(store.records, id) == Resolve(old(store.records), base)
      ensures base == 0 ==> Lookup(store.records, id) == map[MAIN := id + 1]
      ensures base == 0 ==>
        FileKey(id + 1) in store.records && store.records[FileKey(id + 1)] == Content(Blob(template))
      ensures var S := old(store.records);
        if base != 0 then
          store.records == AfterMake(S, id, path, version, base, S[InfoKey(base)].main)
        else
          store.records == AfterMakeMain(AfterMake(S, id, path, version, 0, MAIN), id, id + 1, template)
      ensures old(IsTidy()) ==> IsTidy()
    {
      if IsTidy() {
        MakeTidies(store.records, next, use, path, version, base,
                   if base != 0 then store.records[InfoKey(base)].main else MAIN, template);
      }
      MakeShows(store.records, next, use, path, version, base, template);
      if base != 0 {
        id := MakeDerived(path, version, base);
      } else {
        id := MakeRoot(path, version, template);
      }
    }

    // A derived codebase starts with the main file of its base and a link from it.
    method MakeDerived(path: string, version: string, base: nat) returns (id: nat)
      requires Valid() && base != 0 && Live(store.records, base)
      modifies this, store
      ensures Supplied()
      ensures Valid() <==> PathFree(old(store.records), path) && IndexFree(old(store.records), path)
      ensures id == old(next)
      ensures var S := old(store.records); store.records == AfterMake(S, id, path, version, base, S[InfoKey(base)].main)
      ensures use == UseAfterMake(old(store.records), old(next), old(use), path, base)
    {
      ghost var S := store.records;
      var main := store.records[InfoKey(base)].main;
      MakeDerivedKeepsInv(S, next, use, path, version, base, main);
      id := next;
      use := UseAfterMake(S, next, use, path, base);
      next := next + 1;
      StoreDerived(id, path, version, base, main);
    }

    method StoreDerived(id: nat, path: string, version: string, base: nat, main: string)
      requires base != 0 && Live(store.records, base)
      modifies store
      ensures store.records == AfterMake(old(store.records), id, path, version, base, main)
    {
      var batch := new Batch<Key, Value>();
      batch.Set(DerivedKey(base, id), Link(store.records[InfoKey(base)].version));
      batch.Set(InfoKey(id), Info(version, path, base, main));
      batch.Set(PathKey(path), Id(id));
      DerivedRecords(store.records, id, path, version, base, main);
      store.Commit(batch);
    }

    // A codebase without a base starts with a main file from a template.
    method MakeRoot(path: string, version: string, template: string) returns (id: nat)
      requires Valid()
      modifies this, store
      ensures Supplied()
      ensures Valid() <==> PathFree(old(store.records), path) && IndexFree(old(store.records), path)
      ensures id == old(next)
      ensures store.records ==
        AfterMakeMain(AfterMake(old(store.records), id, path, version, 0, MAIN), id, id + 1, template)
      ensures use == UseAfterMake(old(store.records), old(next), old(use), path, 0)
    {
      MakeRootKeepsOrder(store.records, next, use, path, version, template);
      id := next;
      use := UseAfterMake(store.records, next, use, path, 0);
      next := next + 2;
      StoreRoot(id, id + 1, path, version, template);
    }

    method StoreRoot(id: nat, file: nat, path: string, version: string, template: string)
      modifies store
      ensures store.records ==
        AfterMakeMain(AfterMake(old(store.records), id, path, version, 0, MAIN), id, file, template)
    {
      var batch := new Batch<Key, Value>();
      batch.Set(FileKey(file), Content(Blob(template)));
      batch.Set(OwnKey(id, MAIN), Id(file));
      batch.Set(InfoKey(id), Info(version, path, 0, MAIN));
      batch.Set(PathKey(path), Id(id));
      RootRecords(store.records, id, file, path, version, template);
      store.Commit(batch);
    }

    // erase_codebase: the records of x, its pending changes, the tree records of its own
    // files, its manifest, and the contents of all of these.
    method EraseOne(batch: Batch<Key, Value>, x: nat)
      requires Valid() && Live(store.records, x) && batch.Valid() && batch.sets == map[] && Clean(batch.log)
      modifies batch
      ensures batch.Valid() && batch.sets == map[] && Clean(batch.log)
      ensures ErasesOne(store.records, use, x, old(batch.dels), batch.dels)
    {
      EraseFiles(batch, x, store.records[InfoKey(x)].path);
      ghost var dels1 := batch.dels;
      EraseRecords(batch, x);
      FilesThenRecords(store.records, next, use, x, old(batch.dels), dels1);
    }

    // The rest of erase_codebase.
    method EraseRecords(batch: Batch<Key, Value>, x: nat)
      requires Typed(store.records) && Live(store.records, x) && batch.Valid() && batch.sets == map[]
      requires Clean(batch.log)
      modifies batch
      ensures batch.Valid() && batch.sets == map[] && Clean(batch.log)
      ensures batch.dels == old(batch.dels) + RecordKeys(store.records, x)
    {
      var S := store.records;
      var info := S[InfoKey(x)];
      EraseKeys(batch, set k | k in S && k.DerivedKey? && k.base == x);
      var manifest := TreeKey(info.path + "/");
      if manifest in S {
        batch.Erase(manifest);
        batch.Erase(FileKey(S[manifest].id));
      }
      if info.base != 0 {
        batch.Erase(DerivedKey(info.base, x));
      }
      batch.Erase(PathKey(info.path));
      batch.Erase(InfoKey(x));
    }

    // Its first two loops.
    method EraseFiles(batch: Batch<Key, Value>, x: nat, path: string)
      requires Typed(store.records) && FilesOk(store.records, use) && Live(store.records, x)
      requires path == PathOf(store.records, x)
      requires batch.Valid() && batch.sets == map[] && Clean(batch.log)
      modifies batch
      ensures batch.Valid() && batch.sets == map[] && Clean(batch.log)
      ensures FilesErased(store.records, use, x, {}, old(batch.dels), batch.dels)
    {
      var S := store.records;
      var todo := set k | k in S && IsFileOf(x, k);
      NoFilesErased(S, use, x, todo, batch.dels);
      while todo != {}
        invariant forall k :: k in todo ==> k in S && IsFileOf(x, k)
        invariant batch.Valid() && batch.sets == map[] && Clean(batch.log)
        invariant FilesErased(S, use, x, todo, old(batch.dels), batch.dels)
      {
        var k :| k in todo;
        ghost var dels := batch.dels;
        if k.OwnKey? {
          batch.Erase(TreeKey(path + k.path));
        }
        batch.Erase(FileKey(S[k].id));
        batch.Erase(k);
        assert batch.dels == dels + FileDeletions(S, path, k);
        OneMoreErased(S, use, x, todo, k, old(batch.dels), dels, batch.dels);
        todo := todo - {k};
      }
    }

    // erase: first what derives from c, then c itself.
    method EraseTree(batch: Batch<Key, Value>, c: nat, ghost top: nat)
      requires Valid() && Live(store.records, c) && batch.Valid() && batch.sets == map[] && Clean(batch.log)
      requires forall x: nat :: Live(store.records, x) ==> x < top
      modifies batch
      ensures batch.Valid() && batch.sets == map[] && Clean(batch.log)
      ensures ErasesExactly(store.records, use, c, old(batch.dels), batch.dels)
      decreases top - c
    {
      var S := store.records;
      var todo := ListChildren(c);
      ghost var H := {};
      while todo != {}
        invariant H + todo == Children(S, c)
        invariant batch.Valid() && batch.sets == map[] && Clean(batch.log)
        invariant ErasesAll(S, use, H, old(batch.dels), batch.dels)
      {
        var d :| d in todo;
        ChildrenFacts(S, next, c, d);
        assert BaseOk(S, d);
        ghost var dels1 := batch.dels;
        EraseTree(batch, d, top);
        EraseOneMore(S, use, H, d, old(batch.dels), dels1, batch.dels);
        todo := todo - {d};
        H := H + {d};
      }
      ghost var dels1 := batch.dels;
      EraseOne(batch, c);
      EraseSubtree(S, next, use, c, old(batch.dels), dels1, batch.dels);
    }

    method Erase(c: nat)
      requires Valid() && Live(store.records, c)
      modifies store
      ensures Valid()
      ensures forall y :: Live(store.records, y) <==> Live(old(store.records), y) && !Derives(old(store.records), y, c)
      ensures forall y :: Live(store.records, y) && TreeExact(old(store.records), y) ==> TreeExact(store.records, y)
      ensures forall y :: Live(store.records, y) ==> Lookup(store.records, y) == Lookup(old(store.records), y)
      ensures forall y, p {:trigger FileKept(old(store.records), store.records, y, p)} ::
        Live(store.records, y) ==> FileKept(old(store.records), store.records, y, p)
      ensures forall k :: k in store.records ==>
        k in old(store.records) && store.records[k] == old(store.records)[k]
      ensures var S := old(store.records);
        forall x, p :: Live(S, x) && Derives(S, x, c) && Under(PathOf(S, x), p) ==>
          (TreeKey(p) in store.records <==>
             TreeKey(p) in S && p != PathOf(S, x) + "/" && OwnKey(x, p[|PathOf(S, x)|..]) !in S)
      ensures old(IsTidy()) ==> IsTidy()
    {
      var S := store.records;
      var batch := new Batch<Key, Value>();
      LiveBound(S, next, use);
      EraseTree(batch, c, next);
      store.Commit(batch);
      assert store.records == S - batch.dels;
      EraseKeepsInv(S, next, use, c, batch.dels);
      EraseCodebases(S, next, use, c, batch.dels);
      forall y | Live(store.records, y) && TreeExact(S, y) ensures TreeExact(store.records, y) {
        OtherTreesStayExact(S, next, use, c, batch.dels, y);
      }
      forall y | Live(store.records, y)
        ensures Lookup(store.records, y) == Lookup(S, y) && forall p :: FileKept(S, store.records, y, p)
      {
        OtherLookupStays(S, next, use, c, batch.dels, y);
      }
      forall x, p | Live(S, x) && Derives(S, x, c) && Under(PathOf(S, x), p)
        ensures TreeKey(p) in store.records <==>
          TreeKey(p) in S && p != PathOf(S, x) + "/" && OwnKey(x, p[|PathOf(S, x)|..]) !in S
      {
        ErasedTree(S, next, use, c, batch.dels, x, p);
      }
      if old(IsTidy()) {
        EraseTidies(S, next, use, c, batch.dels);
      }
    }

    // ----- histories -----------------------------------------------------------------------------------

    // One request, refused when what it names is not there or its path is taken.
    method Serve(r: Request)
      requires Valid()
      modifies this, store
      ensures Valid() && (old(IsTidy()) ==> IsTidy())
    {
      var S := store.records;
      match r {
        case Make(path, version, base, template) =>
          if FindsPathFree(S, path) && IndexFree(S, path) && (base == 0 || Live(S, base)) {
            var _ := MakeCodebase(path, version, base, template);
          }
        case Set(c, path, data) => if Live(S, c) && FilePathOk(path) { SetFile(c, path, data); }
        case EraseFile(c, path) => EraseFile(c, path);
        case ResetFile(c, path) => ResetFile(c, path);
        case SetMain(c, path) => if Live(S, c) { SetMain(c, path); }
        case Reset(c) => Reset(c);
        case Commit(c, version) => if Live(S, c) { var _ := Commit(c, version); }
        case Erase(c) => if Live(S, c) { Erase(c); }
      }
    }

    // After any history, a commit under a new version leaves the committed codebase and
    // everything derived from it with exact trees, unless they have files at "/" or "/_etags".
    method ReplayThenCommit(history: seq<Request>, c: nat, version: string) returns (done: bool, ghost S: Records)
      requires Valid()
      modifies this, store
      ensures Valid() && Chained(S)
      ensures done <==> Live(S, c) && VersionOf(S, c) != version
      ensures if !done then store.records == S else
        && Live(store.records, c) && VersionOf(store.records, c) == version
        && SameView(S, store.records, c)
        && forall x :: Live(store.records, x) && Derives(store.records, x, c) ==>
             (TreeExact(store.records, x) <==> AllPlain(Resolve(store.records, x)))
      ensures old(IsTidy()) ==> IsTidy()
    {
      for i := 0 to |history|
        invariant Valid() && (old(IsTidy()) ==> IsTidy())
      {
        Serve(history[i]);
      }
      S := store.records;
      done := Live(store.records, c) && VersionOf(store.records, c) != version;
      if done {
        var updated := Commit(c, version);
        CommittedAll(S, store.records, next, use, c, version);
      }
    }
  }

  // ----- how the etags of one codebase take the place of a file of another ---------------------

  // The tree record of a file that x inherits outlives x.
  lemma InheritedIsLeft(S: Records, next: nat, use: map<nat, Use>, x: nat, b: nat, p: string)
    requires Inv(S, next, use) && Live(S, x) && BaseOf(S, x) == b != 0 && TreeExact(S, x)
    requires OwnKey(b, p) in S && OwnKey(x, p) !in S
    ensures Live(S, b) && !Derives(S, b, x) && S[OwnKey(b, p)].Id? && S[OwnKey(b, p)].id != 0
    ensures TreeIdIs(S, PathOf(S, x) + p, S[OwnKey(b, p)].id)
    ensures IsPlainPath(p) && Under(PathOf(S, x), PathOf(S, x) + p) && (PathOf(S, x) + p)[|PathOf(S, x)|..] == p
  {
    assert BaseOk(S, x) && EntryOk(S, use, b, p);
    BaseIsNotBelow(S, x);
    ResolveAt(S, b, p);
    ResolveAt(S, x, p);
    ExactIsPlain(S, next, use, x);
    TreePathFacts(PathOf(S, x), p);
  }

  method EraseLeaves(r: Repository, x: nat, b: nat, p: string) returns (ghost f: nat)
    requires r.Valid() && Live(r.store.records, x) && BaseOf(r.store.records, x) == b != 0
    requires TreeExact(r.store.records, x) && OwnKey(b, p) in r.store.records && OwnKey(x, p) !in r.store.records
    modifies r.store
    ensures r.Valid()
    ensures var S, T := old(r.store.records), r.store.records;
      && OwnKey(b, p) in T && S[OwnKey(b, p)] == T[OwnKey(b, p)] == Id(f) && Codebase.SameAt(S, T, FileKey(f))
      && f != 0 && TreeIdIs(T, PathOf(S, x) + p, f)
  {
    ghost var S := r.store.records;
    f := S[OwnKey(b, p)].id;
    InheritedIsLeft(S, r.next, r.use, x, b, p);
    r.Erase(x);
    assert FileKept(S, r.store.records, b, p);
  }

  // The file f of b at p, with its content, and a tree record at q that has its id.
  ghost predicate Leftover(S: Records, b: nat, p: string, q: string, f: nat, text: Text) {
    && OwnKey(b, p) in S && S[OwnKey(b, p)] == Id(f) && f != 0 && TreeIdIs(S, q, f)
    && FileKey(f) in S && S[FileKey(f)] == Content(text)
  }

  lemma LeftoverStays(S: Records, id: nat, path: string, template: string, b: nat, p: string, q: string, f: nat,
                      text: Text)
    requires Leftover(S, b, p, q, f, text) && b != id && f != id + 1
    ensures Leftover(AfterMakeMain(AfterMake(S, id, path, "0", 0, MAIN), id, id + 1, template), b, p, q, f, text)
  {
  }

  method MakeOver(r: Repository, path: string, template: string, ghost b: nat, ghost p: string, ghost q: string,
                  ghost f: nat, ghost text: Text)
    returns (y: nat)
    requires r.Valid() && Leftover(r.store.records, b, p, q, f, text)
    modifies r, r.store
    ensures r.Supplied() && Live(r.store.records, y) && PathOf(r.store.records, y) == path
    ensures Leftover(r.store.records, b, p, q, f, text)
  {
    assert EntryOk(r.store.records, r.use, b, p);
    NewIdIsFresh(r.store.records, r.next, r.use);
    LeftoverStays(r.store.records, r.next, path, template, b, p, q, f, text);
    y := r.MakeCodebase(path, "0", 0, template);
  }

  // What the first commit of the new codebase does to its tree overwrites that file with its
  // own etags, and the base still has the file.
  method EtagsTakeAFile(r: Repository, x: nat, b: nat, d: string, template: string, data: string)
    returns (ghost f: nat)
    requires r.Valid() && Live(r.store.records, x) && BaseOf(r.store.records, x) == b != 0
    requires TreeExact(r.store.records, x)
    requires OwnKey(b, d + ETAGS) in r.store.records && OwnKey(x, d + ETAGS) !in r.store.records
    requires var S := r.store.records; var k := S[OwnKey(b, d + ETAGS)];
      k.Id? && FileKey(k.id) in S && S[FileKey(k.id)] == Content(Blob(data))
    modifies r, r.store
    ensures OwnKey(b, d + ETAGS) in r.store.records && r.store.records[OwnKey(b, d + ETAGS)] == Id(f)
    ensures FileKey(f) in r.store.records && r.store.records[FileKey(f)] != Content(Blob(data))
  {
    var path := r.store.records[InfoKey(x)].path + d;
    assert path + ETAGS == r.store.records[InfoKey(x)].path + (d + ETAGS);
    f := EraseLeaves(r, x, b, d + ETAGS);
    var y := MakeOver(r, path, template, b, d + ETAGS, path + ETAGS, f, Blob(data));
    RebuildOver(r, y, b, d + ETAGS, f, Blob(data));
  }

  method RebuildOver(r: Repository, y: nat, ghost b: nat, ghost p: string, ghost f: nat, ghost text: Text)
    requires r.Supplied() && Live(r.store.records, y)
    requires Leftover(r.store.records, b, p, PathOf(r.store.records, y) + ETAGS, f, text)
    modifies r, r.store
    ensures OwnKey(b, p) in r.store.records && r.store.records[OwnKey(b, p)] == Id(f)
    ensures var T := r.store.records; FileKey(f) in T && T[FileKey(f)].Content? && T[FileKey(f)].text.Etags?
  {
    var info := r.store.records[InfoKey(y)];
    var batch := new Batch<Key, Value>();
    ghost var sets1, use1 := r.GenerateTree(batch, info.path, info.main, "1", map[MAIN := y + 1]);
    assert Same(map[], {}, batch.sets, batch.dels, OwnKey(b, p));
    r.store.Commit(batch);
  }
}
