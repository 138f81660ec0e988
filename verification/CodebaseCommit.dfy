// What commit does to a codebase and everything derived from it, key by key.
module CodebaseCommit {
  import opened Codebase

  // ----- the batch ------------------------------------------------------------------------

  predicate Same(sets: Records, dels: set<Key>, sets': Records, dels': set<Key>, k: Key) {
    && (k in sets <==> k in sets') && (k in sets ==> sets[k] == sets'[k])
    && (k in dels <==> k in dels')
  }

  predicate SameSet(sets: Records, sets': Records, k: Key) {
    (k in sets <==> k in sets') && (k in sets ==> sets[k] == sets'[k])
  }

  // A manifest or etags record with its content.
  ghost predicate IndexSet(use: map<nat, Use>, sets: Records, p: string, version: string, text: Text) {
    && TreeKey(p) in sets && sets[TreeKey(p)].TreeRec? && sets[TreeKey(p)].version == version
    && var id := sets[TreeKey(p)].id;
       id in use && use[id] == IndexOf(p) && FileKey(id) in sets && sets[FileKey(id)] == Content(text)
  }

  // The id of a manifest or of etags: the one recorded, or a fresh one.
  function IndexId(S: Records, p: string, spare: nat): nat {
    if TreeKey(p) in S && S[TreeKey(p)].TreeRec? && S[TreeKey(p)].id != 0 then S[TreeKey(p)].id else spare
  }

  // The ids under which there are contents.
  function FileIds(sets: Records): set<nat> {
    set k | k in sets && k.FileKey? :: k.id
  }

  ghost function EtagLines(S: Records, path: string, version: string, files: map<string, nat>): map<string, string> {
    map p | p in files ::
      if version != "" then version
      else if TreeKey(path + p) in S && S[TreeKey(path + p)].TreeRec? then S[TreeKey(path + p)].version
      else ""
  }

  // Where the records of these files go.
  predicate InTree(path: string, files: map<string, nat>, k: Key) {
    k.TreeKey? && path <= k.path && k.path[|path|..] in files
  }

  lemma InTreeAt(path: string, files: map<string, nat>, p: string)
    ensures InTree(path, files, TreeKey(path + p)) <==> p in files
    ensures forall k :: InTree(path, files, k) && k.path[|path|..] == p ==> k == TreeKey(path + p)
  {
    assert (path + p)[|path|..] == p;
  }

  predicate IsIndexKey(use: map<nat, Use>, p: string, k: Key) {
    k == TreeKey(p) || (k.FileKey? && k.id in use && use[k.id] == IndexOf(p))
  }

  // The batch rebuilds the whole tree of x, at this version, from these files.
  ghost predicate Rebuilt(S: Records, use: map<nat, Use>, sets: Records, dels: set<Key>, x: nat, version: string,
                          files: map<string, nat>)
    requires Live(S, x)
  {
    var path := PathOf(S, x);
    var main := S[InfoKey(x)].main;
    && (forall p :: p in files && IsPlainPath(p) ==>
         TreeKey(path + p) in sets && sets[TreeKey(path + p)] == TreeRec(files[p], version))
    && (forall p :: Under(path, p) && TreeKey(p) in sets ==>
         p == path + "/" || p == path + ETAGS || p[|path|..] in files)
    && (forall p :: Under(path, p) && TreeKey(p) in S ==> TreeKey(p) in dels || TreeKey(p) in sets)
    && IndexSet(use, sets, path + "/", version, Manifest(main, files.Keys - {main}))
    && IndexSet(use, sets, path + ETAGS, "", Etags(EtagLines(S, path, version, files)))
    && InfoKey(x) in sets && sets[InfoKey(x)] == WithVersion(S[InfoKey(x)], version)
  }

  // ----- what a commit is to achieve -----------------------------------------------------------

  ghost function NewOwn(S: Records, c: nat): map<string, nat> {
    (Own(S, c) + Edits(S, c)) - Erasures(S, c).Keys
  }

  // The files of x after c was committed.
  ghost function NewFiles(S: Records, c: nat, x: nat): map<string, nat>
    requires Chained(S) && Live(S, x) && Live(S, c) && Derives(S, x, c)
  {
    assert BaseOk(S, x);
    if x == c then Inherited(S, c) + NewOwn(S, c) else NewFiles(S, c, BaseOf(S, x)) + Own(S, x)
  }

  // The version of x after c was committed as `version`.
  ghost function NewVersion(S: Records, c: nat, version: string, x: nat): string
    requires Live(S, c) && Live(S, x)
  {
    if x == c then version
    else if version != VersionOf(S, c) then Bump(VersionOf(S, x))
    else VersionOf(S, x)
  }

  ghost predicate NoLinks(sets: Records, dels: set<Key>, x: nat) {
    forall b :: DerivedKey(b, x) !in sets && DerivedKey(b, x) !in dels
  }

  // The only link of x that is set is the one from b.
  ghost predicate LinkSet(sets: Records, dels: set<Key>, b: nat, x: nat, version: string) {
    && DerivedKey(b, x) in sets && sets[DerivedKey(b, x)] == Link(version)
    && forall a :: DerivedKey(a, x) !in dels && (DerivedKey(a, x) in sets ==> a == b)
  }

  ghost predicate Done(S: Records, use: map<nat, Use>, sets: Records, dels: set<Key>, c: nat, version: string, x: nat)
    requires Chained(S) && Live(S, c) && Live(S, x) && Derives(S, x, c)
  {
    && Rebuilt(S, use, sets, dels, x, NewVersion(S, c, version, x), NewFiles(S, c, x))
    && (if x == c then NoLinks(sets, dels, x)
        else
          assert BaseOk(S, x);
          LinkSet(sets, dels, BaseOf(S, x), x, NewVersion(S, c, version, BaseOf(S, x))))
  }

  // Where upgrade_derived stands when it reaches `id`: its new version and files are known.
  ghost predicate Reached(S: Records, c: nat, v: string, id: nat, version: string, files: map<string, nat>, top: nat)
    requires Chained(S)
  {
    && Live(S, c) && Live(S, id) && Derives(S, id, c)
    && version == NewVersion(S, c, v, id) && files == NewFiles(S, c, id)
    && forall x: nat :: Live(S, x) ==> x < top
  }

  // ----- subtrees ---------------------------------------------------------------------------------

  function Children(S: Records, c: nat): set<nat> {
    set k | k in S && k.DerivedKey? && k.base == c :: k.cb
  }

  // x is one of H or derives from one.
  ghost predicate Below(S: Records, x: nat, H: set<nat>)
    requires Chained(S) && Live(S, x)
  {
    exists h :: h in H && Derives(S, x, h)
  }

  ghost predicate Outside(S: Records, use: map<nat, Use>, H: set<nat>, k: Key)
    requires Chained(S)
  {
    forall x :: Live(S, x) && Below(S, x, H) ==> !Region(S, use, x, k)
  }

  lemma TreeLeavesLinks(S: Records, use: map<nat, Use>, sets: Records, dels: set<Key>, sets': Records, dels': set<Key>,
                        x: nat)
    requires Live(S, x) && NoLinks(sets, dels, x)
    requires forall k :: !TreeRegion(S, use, x, k) ==> Same(sets, dels, sets', dels', k)
    ensures NoLinks(sets', dels', x)
  {
    forall b ensures DerivedKey(b, x) !in sets' && DerivedKey(b, x) !in dels' {
      assert !TreeRegion(S, use, x, DerivedKey(b, x));
    }
  }

  // Neither the links nor the tree of x have been touched yet.
  ghost predicate Fresh(S: Records, sets: Records, dels: set<Key>, x: nat)
    requires Live(S, x)
  {
    FreshPath(PathOf(S, x), sets) && NoLinks(sets, dels, x)
  }

  ghost predicate Untouched(S: Records, sets: Records, dels: set<Key>, H: set<nat>)
    requires Chained(S)
  {
    forall x :: Live(S, x) && Below(S, x, H) ==> Fresh(S, sets, dels, x)
  }

  lemma FreshFrame(S: Records, use: map<nat, Use>, sets: Records, dels: set<Key>, sets': Records, dels': set<Key>,
                   x: nat)
    requires Live(S, x) && Fresh(S, sets, dels, x)
    requires forall k :: Region(S, use, x, k) ==> Same(sets, dels, sets', dels', k)
    ensures Fresh(S, sets', dels', x)
  {
    forall p | Under(PathOf(S, x), p) ensures TreeKey(p) !in sets' {
      assert Region(S, use, x, TreeKey(p));
    }
    forall b ensures DerivedKey(b, x) !in sets' && DerivedKey(b, x) !in dels' {
      assert Region(S, use, x, DerivedKey(b, x));
    }
  }

  lemma ChildrenFacts(S: Records, next: nat, c: nat, d: nat)
    requires CodebasesOk(S, next) && Typed(S)
    ensures d in Children(S, c) <==> Live(S, d) && BaseOf(S, d) == c && c != 0
    ensures d in Children(S, c) ==> DerivedKey(c, d) in S && Live(S, c) && S[DerivedKey(c, d)] == Link(VersionOf(S, c))
  {
    if Live(S, d) {
      assert CodebaseOk(S, next, d);
    }
    if d in Children(S, c) {
      assert DerivedKey(c, d) in S;
    }
    if DerivedKey(c, d) in S {
      assert d in Children(S, c);
    }
  }

  // Strictly below c is below its children.
  lemma BelowChildren(S: Records, next: nat, x: nat, c: nat)
    requires CodebasesOk(S, next) && Typed(S) && Live(S, x)
    ensures Below(S, x, Children(S, c)) <==> x != c && Derives(S, x, c) && c != 0
  {
    if x != c && c != 0 && Derives(S, x, c) {
      var d := ChildToward(S, x, c);
      ChildrenFacts(S, next, c, d);
      assert d in Children(S, c) && Derives(S, x, d);
    }
    if Below(S, x, Children(S, c)) {
      var d :| d in Children(S, c) && Derives(S, x, d);
      ChildrenFacts(S, next, c, d);
      assert BaseOk(S, d);
      assert Derives(S, d, c);
      DerivesTrans(S, x, d, c);
      DerivesUp(S, x, d);
    }
  }

  // The region of a codebase that is not below H is outside H.
  lemma RegionOutside(S: Records, next: nat, use0: map<nat, Use>, use: map<nat, Use>, x: nat, H: set<nat>, k: Key)
    requires Inv(S, next, use0) && Live(S, x) && !Below(S, x, H) && Region(S, use, x, k)
    ensures Outside(S, use, H, k)
  {
    forall y | Live(S, y) && Below(S, y, H) ensures !Region(S, use, y, k) {
      RegionsDisjoint(S, next, use0, use, x, y, k);
    }
  }

  // Nothing new but ids for manifests and etags.
  predicate Extends(use: map<nat, Use>, use': map<nat, Use>) {
    && (forall i :: i in use ==> i in use' && use'[i] == use[i])
    && (forall i :: i in use' && i !in use ==> use'[i].IndexOf?)
  }

  // A rebuilt tree stays rebuilt while its region is left alone.
  lemma RebuiltFrame(S: Records, use: map<nat, Use>, use': map<nat, Use>, sets: Records, dels: set<Key>,
                     sets': Records, dels': set<Key>, x: nat, version: string, files: map<string, nat>)
    requires Live(S, x) && Rebuilt(S, use, sets, dels, x, version, files) && Extends(use, use')
    requires forall p :: p in files ==> FilePathOk(p)
    requires forall k :: Region(S, use', x, k) ==> Same(sets, dels, sets', dels', k)
    ensures Rebuilt(S, use', sets', dels', x, version, files)
  {
    var path := PathOf(S, x);
    IndexPathFacts(path);
    assert Region(S, use', x, TreeKey(path + "/")) && Region(S, use', x, TreeKey(path + ETAGS));
    assert Region(S, use', x, FileKey(sets[TreeKey(path + "/")].id));
    assert Region(S, use', x, FileKey(sets[TreeKey(path + ETAGS)].id));
    assert Region(S, use', x, InfoKey(x));
    forall p | p in files && IsPlainPath(p)
      ensures TreeKey(path + p) in sets' && sets'[TreeKey(path + p)] == TreeRec(files[p], version)
    {
      TreePathFacts(path, p);
      assert Region(S, use', x, TreeKey(path + p));
    }
    forall p | Under(path, p) && TreeKey(p) in sets'
      ensures p == path + "/" || p == path + ETAGS || p[|path|..] in files
    {
      assert Region(S, use', x, TreeKey(p));
    }
    forall p | Under(path, p) && TreeKey(p) in S ensures TreeKey(p) in dels' || TreeKey(p) in sets' {
      assert Region(S, use', x, TreeKey(p));
    }
  }

  lemma {:induction false} ResolvedPathsOk(S: Records, next: nat, use: map<nat, Use>, c: nat)
    requires Inv(S, next, use) && (c == 0 || Live(S, c))
    ensures forall p :: p in Resolve(S, c) ==> FilePathOk(p)
  {
    if c != 0 {
      assert BaseOk(S, c);
      ResolvedPathsOk(S, next, use, BaseOf(S, c));
      OwnDomain(S, c);
      forall p | p in Own(S, c) ensures FilePathOk(p) {
        assert EntryOk(S, use, c, p);
      }
    }
  }

  lemma {:induction false} NewPathsOk(S: Records, next: nat, use: map<nat, Use>, c: nat, x: nat)
    requires Inv(S, next, use) && Live(S, c) && Live(S, x) && Derives(S, x, c)
    ensures forall p :: p in NewFiles(S, c, x) ==> FilePathOk(p)
  {
    assert BaseOk(S, x);
    OwnDomain(S, x);
    PendingDomain(S, x);
    forall p | p in Own(S, x) || p in Edits(S, x) ensures FilePathOk(p) {
      assert EntryOk(S, use, x, p);
    }
    if x == c {
      ResolvedPathsOk(S, next, use, BaseOf(S, c));
    } else {
      NewPathsOk(S, next, use, c, BaseOf(S, x));
    }
  }

  lemma DoneFrame(S: Records, next: nat, use0: map<nat, Use>, use: map<nat, Use>, use': map<nat, Use>, sets: Records,
                  dels: set<Key>, sets': Records, dels': set<Key>, c: nat, version: string, x: nat)
    requires Inv(S, next, use0) && Live(S, c) && Live(S, x) && Derives(S, x, c)
    requires Done(S, use, sets, dels, c, version, x) && Extends(use, use')
    requires forall k :: Region(S, use', x, k) ==> Same(sets, dels, sets', dels', k)
    ensures Done(S, use', sets', dels', c, version, x)
  {
    NewPathsOk(S, next, use0, c, x);
    RebuiltFrame(S, use, use', sets, dels, sets', dels', x, NewVersion(S, c, version, x), NewFiles(S, c, x));
    assert forall b :: Region(S, use', x, DerivedKey(b, x));
  }

  // What generate_files adds to a batch.
  ghost predicate FilesGenerated(S: Records, use: map<nat, Use>, sets: Records, dels: set<Key>, sets': Records,
                                 dels': set<Key>, path: string, main: string, version: string, files: map<string, nat>)
  {
    && (forall p :: p in files && IsPlainPath(p) ==>
         TreeKey(path + p) in sets' && sets'[TreeKey(path + p)] == TreeRec(files[p], version))
    && IndexSet(use, sets', path + "/", version, Manifest(main, files.Keys - {main}))
    && (forall k :: !InTree(path, files, k) && !IsIndexKey(use, path + "/", k) ==> SameSet(sets, sets', k))
    && (forall p :: Under(path, p) && TreeKey(p) in S ==> TreeKey(p) in dels' || TreeKey(p) in sets')
    && (forall k :: k in dels ==> k in dels')
    && (forall k :: k in dels' ==> k in dels || (k.TreeKey? && Under(path, k.path)))
  }

  // ... from what its two loops and its last step add.
  lemma LoopsGenerate(S: Records, use: map<nat, Use>, sets0: Records, dels0: set<Key>, sets1: Records, left: set<Key>,
                      sets2: Records, path: string, main: string, version: string, files: map<string, nat>)
    requires forall p :: p in files ==> FilePathOk(p)
    requires forall p :: p in files ==>
      TreeKey(path + p) in sets1 && sets1[TreeKey(path + p)] == TreeRec(files[p], version)
    requires forall k :: !InTree(path, files, k) ==> SameSet(sets0, sets1, k)
    requires forall k :: k in left <==> k in S && k.TreeKey? && Under(path, k.path) && !InTree(path, files, k)
    requires IndexSet(use, sets2, path + "/", version, Manifest(main, files.Keys - {main}))
    requires forall k :: !IsIndexKey(use, path + "/", k) ==> SameSet(sets1, sets2, k)
    ensures FilesGenerated(S, use, sets0, dels0, sets2, dels0 + left, path, main, version, files)
  {
    IndexPathFacts(path);
    forall p | p in files && IsPlainPath(p)
      ensures TreeKey(path + p) in sets2 && sets2[TreeKey(path + p)] == TreeRec(files[p], version)
    {
      TreePathFacts(path, p);
      assert SameSet(sets1, sets2, TreeKey(path + p));
    }
    forall k | !InTree(path, files, k) && !IsIndexKey(use, path + "/", k) ensures SameSet(sets0, sets2, k) {
      assert SameSet(sets0, sets1, k) && SameSet(sets1, sets2, k);
    }
    forall p | Under(path, p) && TreeKey(p) in S ensures TreeKey(p) in dels0 + left || TreeKey(p) in sets2 {
      if TreeKey(p) !in left {
        InTreeAt(path, files, p[|path|..]);
        assert p == path + p[|path|..];
        assert p == path + "/" || SameSet(sets1, sets2, TreeKey(p));
      }
    }
  }

  // Nothing but tree records and contents is touched.
  ghost predicate OnlyTrees(sets: Records, dels: set<Key>, sets': Records, dels': set<Key>) {
    forall k: Key :: !k.TreeKey? && !k.FileKey? ==> Same(sets, dels, sets', dels', k)
  }

  lemma LoopsLeaveOthers(S: Records, sets0: Records, dels0: set<Key>, sets1: Records, left: set<Key>, path: string,
                         files: map<string, nat>, p: string, id: nat, rec: Value, text: Value)
    requires forall k :: !InTree(path, files, k) ==> SameSet(sets0, sets1, k)
    requires forall k :: k in left ==> k.TreeKey?
    ensures var sets2 := sets1[TreeKey(p) := rec][FileKey(id) := text];
      OnlyTrees(sets0, dels0, sets2, dels0 + left) && FileIds(sets2) == FileIds(sets0) + {id}
  {
    var sets2 := sets1[TreeKey(p) := rec][FileKey(id) := text];
    forall k: Key | !k.TreeKey? ensures SameSet(sets0, sets1, k) {
    }
    forall i ensures i in FileIds(sets2) <==> i in FileIds(sets0) + {id} {
      assert SameSet(sets0, sets1, FileKey(i));
      FileIdsAt(sets0, i);
      FileIdsAt(sets2, i);
    }
  }

  lemma FileIdsAt(sets: Records, i: nat)
    ensures i in FileIds(sets) <==> FileKey(i) in sets
  {
  }

  // What generate_etags adds to it.
  ghost predicate EtagsGenerated(S: Records, use: map<nat, Use>, sets: Records, sets': Records, path: string,
                                 version: string, files: map<string, nat>)
  {
    && IndexSet(use, sets', path + ETAGS, "", Etags(EtagLines(S, path, version, files)))
    && (forall k :: !IsIndexKey(use, path + ETAGS, k) ==> SameSet(sets, sets', k))
  }

  ghost predicate FreshPath(path: string, sets: Records) {
    forall p :: Under(path, p) ==> TreeKey(p) !in sets
  }

  lemma GeneratedKeys(S: Records, use: map<nat, Use>, x: nat, files: map<string, nat>, k: Key)
    requires Live(S, x) && forall p :: p in files ==> FilePathOk(p)
    ensures var path := PathOf(S, x);
      InTree(path, files, k) || IsIndexKey(use, path + "/", k) || IsIndexKey(use, path + ETAGS, k) ==>
        Region(S, use, x, k)
  {
    var path := PathOf(S, x);
    IndexPathFacts(path);
    if InTree(path, files, k) {
      var p := k.path[|path|..];
      TreePathFacts(path, p);
      assert k.path == path + p;
    }
  }

  lemma GeneratedIsRebuilt(S: Records, use: map<nat, Use>, use': map<nat, Use>, x: nat, version: string,
                           files: map<string, nat>, sets0: Records, dels0: set<Key>, sets1: Records, dels1: set<Key>,
                           sets2: Records)
    requires Live(S, x) && (forall p :: p in files ==> FilePathOk(p)) && Extends(use, use')
    requires FreshPath(PathOf(S, x), sets0)
    requires FilesGenerated(S, use, sets0, dels0, sets1, dels1, PathOf(S, x), S[InfoKey(x)].main, version, files)
    requires EtagsGenerated(S, use', sets1, sets2, PathOf(S, x), version, files)
    ensures Rebuilt(S, use', sets2[InfoKey(x) := WithVersion(S[InfoKey(x)], version)], dels1, x, version, files)
  {
    var path := PathOf(S, x);
    var sets := sets2[InfoKey(x) := WithVersion(S[InfoKey(x)], version)];
    IndexPathFacts(path);
    forall p | p in files && IsPlainPath(p)
      ensures TreeKey(path + p) in sets && sets[TreeKey(path + p)] == TreeRec(files[p], version)
    {
      TreePathFacts(path, p);
      assert SameSet(sets1, sets2, TreeKey(path + p));
    }
    var id := sets1[TreeKey(path + "/")].id;
    assert SameSet(sets1, sets2, TreeKey(path + "/")) && SameSet(sets1, sets2, FileKey(id));
    forall p | Under(path, p) && TreeKey(p) in sets
      ensures p == path + "/" || p == path + ETAGS || p[|path|..] in files
    {
      if p != path + ETAGS {
        assert SameSet(sets1, sets2, TreeKey(p));
        assert p == path + "/" || InTree(path, files, TreeKey(p)) || SameSet(sets0, sets1, TreeKey(p));
      }
    }
    forall p | Under(path, p) && TreeKey(p) in S ensures TreeKey(p) in dels1 || TreeKey(p) in sets {
      assert SameSet(sets1, sets2, TreeKey(p)) || p == path + ETAGS;
    }
  }

  lemma GeneratedInRegion(S: Records, use: map<nat, Use>, use': map<nat, Use>, x: nat, version: string,
                          files: map<string, nat>, sets0: Records, dels0: set<Key>, sets1: Records, dels1: set<Key>,
                          sets2: Records, k: Key)
    requires Live(S, x) && (forall p :: p in files ==> FilePathOk(p)) && Extends(use, use')
    requires FilesGenerated(S, use, sets0, dels0, sets1, dels1, PathOf(S, x), S[InfoKey(x)].main, version, files)
    requires EtagsGenerated(S, use', sets1, sets2, PathOf(S, x), version, files)
    requires !TreeRegion(S, use', x, k)
    ensures Same(sets0, dels0, sets2[InfoKey(x) := WithVersion(S[InfoKey(x)], version)], dels1, k)
  {
    GeneratedKeys(S, use', x, files, k);
    assert SameSet(sets0, sets1, k) && SameSet(sets1, sets2, k);
  }

  // The link of a child records another version than the new one exactly if there is
  // anything to do.
  lemma LinkTells(S: Records, next: nat, c: nat, v: string, id: nat, d: nat)
    requires CodebasesOk(S, next) && Typed(S) && Live(S, c) && Live(S, id) && Derives(S, id, c) && d in Children(S, id)
    ensures DerivedKey(id, d) in S && S[DerivedKey(id, d)].Link? && Live(S, d) && BaseOf(S, d) == id && c <= id < d
    ensures Derives(S, d, c) && NewFiles(S, c, d) == NewFiles(S, c, id) + Own(S, d)
    ensures S[DerivedKey(id, d)].version != NewVersion(S, c, v, id) <==> v != VersionOf(S, c)
    ensures NewVersion(S, c, v, d) == if v != VersionOf(S, c) then Bump(VersionOf(S, d)) else VersionOf(S, d)
  {
    ChildrenFacts(S, next, id, d);
    assert BaseOk(S, d);
    DerivesUp(S, id, c);
    BumpChanges(VersionOf(S, id));
  }

  lemma LinkAdded(S: Records, use: map<nat, Use>, sets: Records, dels: set<Key>, d: nat, version: string,
                  files: map<string, nat>, b: nat, link: string)
    requires Live(S, d) && Rebuilt(S, use, sets, dels, d, version, files) && NoLinks(sets, dels, d)
    ensures Rebuilt(S, use, sets[DerivedKey(b, d) := Link(link)], dels, d, version, files)
    ensures LinkSet(sets[DerivedKey(b, d) := Link(link)], dels, b, d, link)
  {
  }

  // ----- one step of upgrade_derived ---------------------------------------------------------------

  ghost predicate AllDone(S: Records, use: map<nat, Use>, sets: Records, dels: set<Key>, c: nat, version: string,
                          H: set<nat>)
    requires Chained(S) && Live(S, c)
  {
    forall x :: Live(S, x) && Below(S, x, H) ==> Derives(S, x, c) && Done(S, use, sets, dels, c, version, x)
  }

  // Some children of one codebase.
  ghost predicate Siblings(S: Records, id: nat, H: set<nat>) {
    forall h :: h in H ==> Live(S, h) && BaseOf(S, h) == id
  }

  lemma RegionGrows(S: Records, use: map<nat, Use>, use': map<nat, Use>, x: nat, k: Key)
    requires Live(S, x) && Extends(use, use') && Region(S, use, x, k)
    ensures Region(S, use', x, k)
  {
  }

  // Three moments: before child d is looked at, after its tree was rebuilt, after its
  // own derived codebases were.
  ghost predicate Rebuilds(S: Records, use0: map<nat, Use>, use1: map<nat, Use>, use2: map<nat, Use>, d: nat,
                           sets0: Records, dels0: set<Key>, sets1: Records, dels1: set<Key>, sets2: Records,
                           dels2: set<Key>)
    requires Chained(S) && Live(S, d)
  {
    && Extends(use0, use1) && Extends(use1, use2)
    && (forall k :: !Region(S, use1, d, k) ==> Same(sets0, dels0, sets1, dels1, k))
    && (forall k :: Outside(S, use2, Children(S, d), k) ==> Same(sets1, dels1, sets2, dels2, k))
  }

  // What belongs to a codebase not derived from d is left alone.
  lemma StepElsewhere(S: Records, next: nat, use: map<nat, Use>, use0: map<nat, Use>, use1: map<nat, Use>,
                      use2: map<nat, Use>, d: nat, sets0: Records, dels0: set<Key>, sets1: Records, dels1: set<Key>,
                      sets2: Records, dels2: set<Key>, x: nat, k: Key)
    requires Inv(S, next, use) && Live(S, d)
    requires Rebuilds(S, use0, use1, use2, d, sets0, dels0, sets1, dels1, sets2, dels2)
    requires Live(S, x) && !Derives(S, x, d) && Region(S, use2, x, k)
    ensures Same(sets0, dels0, sets2, dels2, k)
  {
    BelowChildren(S, next, x, d);
    RegionOutside(S, next, use, use2, x, Children(S, d), k);
    RegionsDisjoint(S, next, use, use2, x, d, k);
    if Region(S, use1, d, k) {
      RegionGrows(S, use1, use2, d, k);
    }
  }

  lemma StepDone(S: Records, next: nat, use: map<nat, Use>, use0: map<nat, Use>, use1: map<nat, Use>,
                 use2: map<nat, Use>, id: nat, d: nat, H: set<nat>, c: nat, v: string, sets0: Records, dels0: set<Key>,
                 sets1: Records, dels1: set<Key>, sets2: Records, dels2: set<Key>)
    requires Inv(S, next, use) && Live(S, c) && Live(S, d) && Derives(S, d, c)
    requires Rebuilds(S, use0, use1, use2, d, sets0, dels0, sets1, dels1, sets2, dels2)
    requires AllDone(S, use0, sets0, dels0, c, v, H)
    requires Done(S, use1, sets1, dels1, c, v, d)
    requires AllDone(S, use2, sets2, dels2, c, v, Children(S, d))
    ensures AllDone(S, use2, sets2, dels2, c, v, H + {d})
  {
    forall x | Live(S, x) && Below(S, x, H + {d})
      ensures Derives(S, x, c) && Done(S, use2, sets2, dels2, c, v, x)
    {
      BelowChildren(S, next, x, d);
      assert BaseOk(S, d);
      if x == d {
        forall k | Region(S, use2, d, k) ensures Same(sets1, dels1, sets2, dels2, k) {
          RegionOutside(S, next, use, use2, d, Children(S, d), k);
        }
        DoneFrame(S, next, use, use1, use2, sets1, dels1, sets2, dels2, c, v, d);
      } else if !Derives(S, x, d) {
        assert Below(S, x, H);
        forall k | Region(S, use2, x, k) ensures Same(sets0, dels0, sets2, dels2, k) {
          StepElsewhere(S, next, use, use0, use1, use2, d, sets0, dels0, sets1, dels1, sets2, dels2, x, k);
        }
        DoneFrame(S, next, use, use0, use2, sets0, dels0, sets2, dels2, c, v, x);
      }
    }
  }

  lemma StepOutside(S: Records, next: nat, use: map<nat, Use>, use0: map<nat, Use>, use1: map<nat, Use>,
                    use2: map<nat, Use>, d: nat, H: set<nat>, sets: Records, dels: set<Key>, sets0: Records,
                    dels0: set<Key>, sets1: Records, dels1: set<Key>, sets2: Records, dels2: set<Key>, k: Key)
    requires Inv(S, next, use) && Live(S, d)
    requires Rebuilds(S, use0, use1, use2, d, sets0, dels0, sets1, dels1, sets2, dels2)
    requires Outside(S, use0, H, k) ==> Same(sets, dels, sets0, dels0, k)
    requires Outside(S, use2, H + {d}, k)
    ensures Same(sets, dels, sets2, dels2, k)
  {
    assert Outside(S, use0, H, k) by {
      forall x | Live(S, x) && Below(S, x, H) ensures !Region(S, use0, x, k) {
        var h :| h in H && Derives(S, x, h);
        assert h in H + {d};
        assert Below(S, x, H + {d}) && Extends(use0, use2);
      }
    }
    assert !Region(S, use1, d, k) by {
      assert d in H + {d} && Derives(S, d, d);
      assert Below(S, d, H + {d});
    }
    assert Outside(S, use2, Children(S, d), k) by {
      forall x | Live(S, x) && Below(S, x, Children(S, d)) ensures !Region(S, use2, x, k) {
        BelowChildren(S, next, x, d);
        assert d in H + {d} && Derives(S, x, d);
        assert Below(S, x, H + {d});
      }
    }
  }

  lemma StepUntouched(S: Records, next: nat, use: map<nat, Use>, use0: map<nat, Use>, use1: map<nat, Use>,
                      use2: map<nat, Use>, id: nat, d: nat, H: set<nat>, sets0: Records, dels0: set<Key>,
                      sets1: Records, dels1: set<Key>, sets2: Records, dels2: set<Key>)
    requires Inv(S, next, use) && Live(S, d)
    requires Rebuilds(S, use0, use1, use2, d, sets0, dels0, sets1, dels1, sets2, dels2)
    requires Siblings(S, id, H) && BaseOf(S, d) == id && d !in H
    requires Untouched(S, sets0, dels0, H)
    ensures Untouched(S, sets2, dels2, H)
  {
    forall x | Live(S, x) && Below(S, x, H) ensures Fresh(S, sets2, dels2, x) {
      var h :| h in H && Derives(S, x, h);
      SiblingsApart(S, x, h, d);
      forall k | Region(S, use2, x, k) ensures Same(sets0, dels0, sets2, dels2, k) {
        StepElsewhere(S, next, use, use0, use1, use2, d, sets0, dels0, sets1, dels1, sets2, dels2, x, k);
      }
      FreshFrame(S, use2, sets0, dels0, sets2, dels2, x);
    }
  }

  lemma RebuildUntouched(S: Records, next: nat, use: map<nat, Use>, use1: map<nat, Use>, d: nat, H: set<nat>,
                         sets0: Records, dels0: set<Key>, sets1: Records, dels1: set<Key>)
    requires Inv(S, next, use) && Live(S, d) && d in H && Untouched(S, sets0, dels0, H)
    requires forall k :: !Region(S, use1, d, k) ==> Same(sets0, dels0, sets1, dels1, k)
    ensures Fresh(S, sets0, dels0, d) && Untouched(S, sets1, dels1, Children(S, d))
  {
    assert Below(S, d, H) by {
      assert d in H && Derives(S, d, d);
    }
    forall x | Live(S, x) && Below(S, x, Children(S, d)) ensures Fresh(S, sets1, dels1, x) {
      BelowChildren(S, next, x, d);
      assert d in H && Derives(S, x, d);
      assert Below(S, x, H);
      forall k | Region(S, use1, x, k) ensures Same(sets0, dels0, sets1, dels1, k) {
        RegionsDisjoint(S, next, use, use1, x, d, k);
      }
      FreshFrame(S, use1, sets0, dels0, sets1, dels1, x);
    }
  }

  // H and everything derived from it have been dealt with, starting from sets0 and dels0.
  ghost predicate Upgraded(S: Records, use: map<nat, Use>, H: set<nat>, c: nat, v: string, sets0: Records,
                           dels0: set<Key>, sets: Records, dels: set<Key>)
    requires Chained(S) && Live(S, c)
  {
    if v != VersionOf(S, c) then
      && AllDone(S, use, sets, dels, c, v, H)
      && (forall k :: Outside(S, use, H, k) ==> Same(sets0, dels0, sets, dels, k))
    else
      sets == sets0 && dels == dels0
  }

  // One child d and everything derived from it have been dealt with.
  ghost predicate UpgradedOne(S: Records, use0: map<nat, Use>, use1: map<nat, Use>, use2: map<nat, Use>, d: nat,
                              c: nat, v: string, sets0: Records, dels0: set<Key>, sets1: Records, dels1: set<Key>,
                              sets2: Records, dels2: set<Key>)
    requires Chained(S) && Live(S, c) && Live(S, d)
  {
    if v != VersionOf(S, c) then
      && Derives(S, d, c)
      && Rebuilds(S, use0, use1, use2, d, sets0, dels0, sets1, dels1, sets2, dels2)
      && Done(S, use1, sets1, dels1, c, v, d)
      && AllDone(S, use2, sets2, dels2, c, v, Children(S, d))
    else
      sets2 == sets0 && dels2 == dels0
  }

  lemma NothingUpgraded(S: Records, use: map<nat, Use>, c: nat, v: string, sets: Records, dels: set<Key>)
    requires Chained(S) && Live(S, c)
    ensures Upgraded(S, use, {}, c, v, sets, dels, sets, dels)
  {
  }

  // One round of the loop over the children of `id`: H were handled before, then d.
  lemma StepAll(S: Records, next: nat, use: map<nat, Use>, use0: map<nat, Use>, use1: map<nat, Use>, id: nat, d: nat,
                H: set<nat>, todo: set<nat>, c: nat, v: string, setsB: Records, delsB: set<Key>, sets0: Records,
                dels0: set<Key>, sets1: Records, dels1: set<Key>, sets2: Records, dels2: set<Key>)
    requires Inv(S, next, use) && Live(S, c) && Live(S, d)
    requires Children(S, id) == H + {d} + todo && d !in todo
    requires Untouched(S, sets0, dels0, {d} + todo)
    requires Upgraded(S, use0, H, c, v, setsB, delsB, sets0, dels0)
    requires UpgradedOne(S, use0, use1, use, d, c, v, sets0, dels0, sets1, dels1, sets2, dels2)
    ensures Upgraded(S, use, H + {d}, c, v, setsB, delsB, sets2, dels2) && Untouched(S, sets2, dels2, todo)
  {
    UntouchedPart(S, sets0, dels0, todo, {d} + todo);
    if v != VersionOf(S, c) {
      forall h | h in todo ensures Live(S, h) && BaseOf(S, h) == id {
        ChildrenFacts(S, next, id, h);
      }
      ChildrenFacts(S, next, id, d);
      StepDone(S, next, use, use0, use1, use, id, d, H, c, v, sets0, dels0, sets1, dels1, sets2, dels2);
      forall k | Outside(S, use, H + {d}, k) ensures Same(setsB, delsB, sets2, dels2, k) {
        StepOutside(S, next, use, use0, use1, use, d, H, setsB, delsB, sets0, dels0, sets1, dels1, sets2, dels2, k);
      }
      StepUntouched(S, next, use, use0, use1, use, id, d, todo, sets0, dels0, sets1, dels1, sets2, dels2);
    }
  }

  lemma BelowUnion(S: Records, x: nat, H: set<nat>, d: nat)
    requires Chained(S) && Live(S, x)
    ensures Below(S, x, H + {d}) <==> Below(S, x, H) || Derives(S, x, d)
  {
    if Below(S, x, H) {
      var h :| h in H && Derives(S, x, h);
      assert h in H + {d};
    }
    assert d in H + {d};
  }

  // The codebases that get a new tree, among H and what derives from it.
  ghost predicate Updates(S: Records, c: nat, v: string, H: set<nat>, updated: seq<nat>)
    requires Chained(S) && Live(S, c)
  {
    forall x :: x in updated <==> v != VersionOf(S, c) && Live(S, x) && Below(S, x, H)
  }

  lemma UpdatesMore(S: Records, c: nat, v: string, H: set<nat>, d: nat, updated: seq<nat>, more: seq<nat>)
    requires Chained(S) && Live(S, c) && Updates(S, c, v, H, updated)
    requires forall x :: x in more <==> v != VersionOf(S, c) && Live(S, x) && Derives(S, x, d)
    ensures Updates(S, c, v, H + {d}, updated + more)
  {
    forall x | Live(S, x) ensures Below(S, x, H + {d}) <==> Below(S, x, H) || Derives(S, x, d) {
      BelowUnion(S, x, H, d);
    }
  }

  lemma UntouchedPart(S: Records, sets: Records, dels: set<Key>, H: set<nat>, K: set<nat>)
    requires Chained(S) && H <= K && Untouched(S, sets, dels, K)
    ensures Untouched(S, sets, dels, H)
  {
    forall x | Live(S, x) && Below(S, x, H) ensures Below(S, x, K) {
      var h :| h in H && Derives(S, x, h);
      assert h in K;
    }
  }

  // ----- the whole batch of a commit ------------------------------------------------------------------

  // File ids whose content a commit drops: replaced and erased files of c.
  ghost predicate Dropped(S: Records, c: nat, i: nat) {
    exists p :: OwnKey(c, p) in S && S[OwnKey(c, p)] == Id(i) && (EditKey(c, p) in S || ErasedKey(c, p) in S)
  }

  predicate PendingKey(k: Key) {
    k.OwnKey? || k.EditKey? || k.ErasedKey? || k.PathKey?
  }

  // The batch after the pending edits and erasures of c have been dealt with.
  ghost predicate PendingDone(S: Records, c: nat, sets: Records, dels: set<Key>) {
    && (forall k :: k in sets <==> k.OwnKey? && k.cb == c && EditKey(c, k.path) in S)
    && (forall p :: OwnKey(c, p) in sets ==> EditKey(c, p) in S && sets[OwnKey(c, p)] == S[EditKey(c, p)])
    && (forall k :: k in dels <==> DeletedPending(S, c, k))
  }

  ghost predicate DeletedPending(S: Records, c: nat, k: Key) {
    match k
    case EditKey(d, _) => d == c && k in S
    case ErasedKey(d, _) => d == c && k in S
    case OwnKey(d, p) => d == c && ErasedKey(c, p) in S
    case FileKey(i) => Dropped(S, c, i)
    case _ => false
  }

  // The keys deleted for the edits of these paths, and for the erasures of those.
  ghost predicate DeletedFor(S: Records, c: nat, edits: set<string>, erasures: set<string>, k: Key) {
    match k
    case EditKey(d, p) => d == c && p in edits
    case ErasedKey(d, p) => d == c && p in erasures
    case OwnKey(d, p) => d == c && p in erasures
    case FileKey(i) => exists p :: (p in edits || p in erasures) && OwnKey(c, p) in S && S[OwnKey(c, p)] == Id(i)
    case _ => false
  }

  lemma DeletedForOneMore(S: Records, c: nat, edits: set<string>, erasures: set<string>, p: string, k: Key)
    ensures DeletedFor(S, c, edits + {p}, erasures, k) <==>
      DeletedFor(S, c, edits, erasures, k) || k == EditKey(c, p) ||
      (k.FileKey? && OwnKey(c, p) in S && S[OwnKey(c, p)] == Id(k.id))
    ensures DeletedFor(S, c, edits, erasures + {p}, k) <==>
      DeletedFor(S, c, edits, erasures, k) || k == ErasedKey(c, p) || k == OwnKey(c, p) ||
      (k.FileKey? && OwnKey(c, p) in S && S[OwnKey(c, p)] == Id(k.id))
  {
    if k.FileKey? {
      assert p in edits + {p} && p in erasures + {p};
      if DeletedFor(S, c, edits, erasures, k) {
        var q :| (q in edits || q in erasures) && OwnKey(c, q) in S && S[OwnKey(c, q)] == Id(k.id);
        assert (q in edits + {p} || q in erasures) && (q in edits || q in erasures + {p});
      }
    }
  }

  // The content of the committed file at a path.
  function FileContent(S: Records, c: nat, p: string): set<Key> {
    if OwnKey(c, p) in S && S[OwnKey(c, p)].Id? then {FileKey(S[OwnKey(c, p)].id)} else {}
  }

  // The batch after the edits of these paths were committed.
  ghost predicate EditsDone(S: Records, c: nat, edits: set<string>, sets: Records, dels: set<Key>) {
    && (forall k :: k in sets <==> k.OwnKey? && k.cb == c && k.path in edits)
    && (forall p :: OwnKey(c, p) in sets ==> EditKey(c, p) in S && sets[OwnKey(c, p)] == S[EditKey(c, p)])
    && (forall k :: k in dels <==> DeletedFor(S, c, edits, {}, k))
  }

  lemma OneMoreEdit(S: Records, c: nat, edit: set<string>, todo: set<string>, p: string, sets: Records, dels: set<Key>,
                    sets': Records, dels': set<Key>)
    requires p in todo && todo <= edit && EditKey(c, p) in S && EditsDone(S, c, edit - todo, sets, dels)
    requires sets' == sets[OwnKey(c, p) := S[EditKey(c, p)]]
    requires dels' == dels + {EditKey(c, p)} + FileContent(S, c, p)
    ensures EditsDone(S, c, edit - (todo - {p}), sets', dels')
  {
    forall k ensures k in dels' <==> DeletedFor(S, c, edit - (todo - {p}), {}, k) {
      assert edit - (todo - {p}) == (edit - todo) + {p};
      DeletedForOneMore(S, c, edit - todo, {}, p, k);
    }
  }

  lemma ErasureDeletes(S: Records, c: nat, edit: set<string>, erased: set<string>, todo: set<string>, p: string,
                       dels: set<Key>, dels': set<Key>)
    requires p in todo && todo <= erased && dels' == dels + {ErasedKey(c, p), OwnKey(c, p)} + FileContent(S, c, p)
    requires forall k :: k in dels <==> DeletedFor(S, c, edit, erased - todo, k)
    ensures forall k :: k in dels' <==> DeletedFor(S, c, edit, erased - (todo - {p}), k)
  {
    forall k ensures k in dels' <==> DeletedFor(S, c, edit, erased - (todo - {p}), k) {
      assert erased - (todo - {p}) == (erased - todo) + {p};
      DeletedForOneMore(S, c, edit, erased - todo, p, k);
    }
  }

  lemma OneMoreOf<K, V>(a: map<K, V>, b: map<K, V>, todo: set<K>, p: K)
    requires p in todo && p in b
    ensures a + (b - (todo - {p})) == (a + (b - todo))[p := b[p]]
  {
  }

  function EditPaths(S: Records, c: nat): set<string> {
    set k | k in S && k.EditKey? && k.cb == c :: k.path
  }

  function ErasedPaths(S: Records, c: nat): set<string> {
    set k | k in S && k.ErasedKey? && k.cb == c :: k.path
  }

  lemma PathsFacts(S: Records, c: nat, p: string)
    ensures p in EditPaths(S, c) <==> EditKey(c, p) in S
    ensures p in ErasedPaths(S, c) <==> ErasedKey(c, p) in S
  {
    if EditKey(c, p) in S {
      assert EditKey(c, p).path in EditPaths(S, c);
    }
    if ErasedKey(c, p) in S {
      assert ErasedKey(c, p).path in ErasedPaths(S, c);
    }
  }

  lemma EditsDomain(S: Records, c: nat)
    requires Typed(S)
    ensures Edits(S, c).Keys == EditPaths(S, c)
    ensures forall p :: p in EditPaths(S, c) ==> EditKey(c, p) in S && S[EditKey(c, p)] == Id(Edits(S, c)[p])
  {
    PendingDomain(S, c);
    forall p ensures p in Edits(S, c) <==> p in EditPaths(S, c) {
      PathsFacts(S, c, p);
    }
  }

  lemma ErasuresDomain(S: Records, c: nat)
    requires Typed(S)
    ensures Erasures(S, c).Keys == ErasedPaths(S, c)
  {
    PendingDomain(S, c);
    forall p ensures p in Erasures(S, c) <==> p in ErasedPaths(S, c) {
      PathsFacts(S, c, p);
    }
  }

  lemma NoEditsYet(S: Records, c: nat, sets: Records, dels: set<Key>)
    requires Typed(S) && sets == map[] && dels == {}
    ensures Own(S, c) + (Edits(S, c) - EditPaths(S, c)) == Own(S, c)
    ensures EditsDone(S, c, EditPaths(S, c) - EditPaths(S, c), sets, dels)
  {
    EditsDomain(S, c);
  }

  lemma AllDeletedFor(S: Records, c: nat, k: Key)
    ensures DeletedFor(S, c, EditPaths(S, c), ErasedPaths(S, c), k) <==> DeletedPending(S, c, k)
  {
    match k {
      case EditKey(d, p) => PathsFacts(S, c, p);
      case ErasedKey(d, p) => PathsFacts(S, c, p);
      case OwnKey(d, p) => PathsFacts(S, c, p);
      case FileKey(i) =>
        forall p ensures p in EditPaths(S, c) <==> EditKey(c, p) in S
                 ensures p in ErasedPaths(S, c) <==> ErasedKey(c, p) in S {
          PathsFacts(S, c, p);
        }
      case _ =>
    }
  }

  // x gets a new tree.
  ghost predicate Touched(S: Records, c: nat, v: string, x: nat)
    requires Chained(S) && Live(S, c) && Live(S, x)
  {
    Derives(S, x, c) && (x == c || v != VersionOf(S, c))
  }

  // The own files, edits and erasures of c, and the contents of files.
  ghost predicate FilesCommitted(S: Records, use: map<nat, Use>, sets: Records, dels: set<Key>, c: nat) {
    && (forall k :: PendingKey(k) ==> (k in sets <==> k.OwnKey? && k.cb == c && EditKey(c, k.path) in S))
    && (forall p :: EditKey(c, p) in S ==> OwnKey(c, p) in sets && sets[OwnKey(c, p)] == S[EditKey(c, p)])
    && (forall k :: PendingKey(k) ==> (k in dels <==> DeletedPending(S, c, k)))
    && (forall i :: i in use && use[i].FileOf? ==> FileKey(i) !in sets && (FileKey(i) in dels <==> Dropped(S, c, i)))
  }

  // The trees, records and links of c and of what derives from it.
  ghost predicate TreesCommitted(S: Records, use: map<nat, Use>, sets: Records, dels: set<Key>, c: nat, v: string)
    requires Chained(S) && Live(S, c)
  {
    && (forall x :: Live(S, x) && Touched(S, c, v, x) ==> Done(S, use, sets, dels, c, v, x))
    && (forall k: Key :: TreeOrRecord(use, k) && !TouchedKey(S, use, c, v, k) ==> k !in sets && k !in dels)
  }

  predicate TreeOrRecord(use: map<nat, Use>, k: Key) {
    k.TreeKey? || k.InfoKey? || k.DerivedKey? || (k.FileKey? && k.id in use && use[k.id].IndexOf?)
  }

  // A dropped id is the id of a file.
  lemma DroppedIsFile(S: Records, next: nat, use: map<nat, Use>, c: nat, i: nat)
    requires Inv(S, next, use) && Dropped(S, c, i)
    ensures i in use && use[i].FileOf?
  {
    var p :| OwnKey(c, p) in S && S[OwnKey(c, p)] == Id(i) && (EditKey(c, p) in S || ErasedKey(c, p) in S);
    assert EntryOk(S, use, c, p);
  }

  ghost predicate TouchedKey(S: Records, use: map<nat, Use>, c: nat, v: string, k: Key)
    requires Chained(S) && Live(S, c)
  {
    exists x :: Live(S, x) && Touched(S, c, v, x) && Region(S, use, x, k)
  }

  // Keys of other kinds than trees, records, links and contents are in nobody's region.
  lemma FilesAreNobodys(S: Records, use: map<nat, Use>, x: nat, k: Key)
    requires Live(S, x)
    ensures PendingKey(k) ==> !Region(S, use, x, k)
    ensures k.FileKey? && k.id in use && use[k.id].FileOf? ==> !Region(S, use, x, k)
  {
  }

  // How the three parts of a commit fill the batch: the pending changes, the tree of c,
  // the trees of what derives from it.
  ghost predicate Stages(S: Records, use2: map<nat, Use>, use: map<nat, Use>, c: nat, v: string, sets1: Records,
                         dels1: set<Key>, sets2: Records, dels2: set<Key>, sets: Records, dels: set<Key>)
    requires Chained(S) && Live(S, c)
  {
    && Extends(use2, use)
    && (forall k :: !Region(S, use2, c, k) ==> Same(sets1, dels1, sets2, dels2, k))
    && (v != VersionOf(S, c) ==> forall k :: Outside(S, use, Children(S, c), k) ==> Same(sets2, dels2, sets, dels, k))
    && (v == VersionOf(S, c) ==> sets == sets2 && dels == dels2)
  }

  lemma UntouchedKeySame(S: Records, next: nat, use: map<nat, Use>, use2: map<nat, Use>, c: nat, v: string,
                         sets1: Records, dels1: set<Key>, sets2: Records, dels2: set<Key>, sets: Records,
                         dels: set<Key>, k: Key)
    requires Inv(S, next, use) && Live(S, c)
    requires Stages(S, use2, use, c, v, sets1, dels1, sets2, dels2, sets, dels)
    requires !TouchedKey(S, use, c, v, k)
    ensures Same(sets1, dels1, sets, dels, k)
  {
    assert Touched(S, c, v, c);
    if Region(S, use2, c, k) {
      RegionGrows(S, use2, use, c, k);
    }
    if v != VersionOf(S, c) {
      assert Outside(S, use, Children(S, c), k) by {
        forall x | Live(S, x) && Below(S, x, Children(S, c)) ensures !Region(S, use, x, k) {
          BelowChildren(S, next, x, c);
          assert Touched(S, c, v, x);
        }
      }
    }
  }

  lemma FileKeySame(S: Records, next: nat, use: map<nat, Use>, use2: map<nat, Use>, c: nat, v: string, sets1: Records,
                    dels1: set<Key>, sets2: Records, dels2: set<Key>, sets: Records, dels: set<Key>, k: Key)
    requires Inv(S, next, use) && Live(S, c)
    requires Stages(S, use2, use, c, v, sets1, dels1, sets2, dels2, sets, dels)
    requires PendingKey(k) || (k.FileKey? && k.id in use && use[k.id].FileOf?)
    ensures Same(sets1, dels1, sets, dels, k)
  {
    if TouchedKey(S, use, c, v, k) {
      var x :| Live(S, x) && Touched(S, c, v, x) && Region(S, use, x, k);
      FilesAreNobodys(S, use, x, k);
    }
    UntouchedKeySame(S, next, use, use2, c, v, sets1, dels1, sets2, dels2, sets, dels, k);
  }

  lemma StagesCommitFiles(S: Records, next: nat, use: map<nat, Use>, use2: map<nat, Use>, c: nat, v: string,
                          sets1: Records, dels1: set<Key>, sets2: Records, dels2: set<Key>, sets: Records,
                          dels: set<Key>)
    requires Inv(S, next, use) && Live(S, c) && PendingDone(S, c, sets1, dels1)
    requires Stages(S, use2, use, c, v, sets1, dels1, sets2, dels2, sets, dels)
    ensures FilesCommitted(S, use, sets, dels, c)
  {
    forall k | PendingKey(k) || (k.FileKey? && k.id in use && use[k.id].FileOf?)
      ensures Same(sets1, dels1, sets, dels, k)
    {
      FileKeySame(S, next, use, use2, c, v, sets1, dels1, sets2, dels2, sets, dels, k);
    }
    forall p | EditKey(c, p) in S ensures OwnKey(c, p) in sets && sets[OwnKey(c, p)] == S[EditKey(c, p)] {
      assert PendingKey(OwnKey(c, p)) && OwnKey(c, p) in sets1;
    }
  }

  lemma StagesCommitTrees(S: Records, next: nat, use: map<nat, Use>, use2: map<nat, Use>, c: nat, v: string,
                          sets1: Records, dels1: set<Key>, sets2: Records, dels2: set<Key>, sets: Records,
                          dels: set<Key>)
    requires Inv(S, next, use) && Live(S, c) && PendingDone(S, c, sets1, dels1)
    requires Stages(S, use2, use, c, v, sets1, dels1, sets2, dels2, sets, dels)
    requires Done(S, use2, sets2, dels2, c, v, c)
    requires v != VersionOf(S, c) ==> AllDone(S, use, sets, dels, c, v, Children(S, c))
    ensures TreesCommitted(S, use, sets, dels, c, v)
  {
    forall x | Live(S, x) && Touched(S, c, v, x) ensures Done(S, use, sets, dels, c, v, x) {
      BelowChildren(S, next, x, c);
      assert BaseOk(S, c);
      if x == c {
        forall k | Region(S, use, c, k) ensures Same(sets2, dels2, sets, dels, k) {
          if v != VersionOf(S, c) {
            RegionOutside(S, next, use, use, c, Children(S, c), k);
          }
        }
        DoneFrame(S, next, use, use2, use, sets2, dels2, sets, dels, c, v, c);
      }
    }
    forall k: Key | TreeOrRecord(use, k) && !TouchedKey(S, use, c, v, k) ensures k !in sets && k !in dels {
      if k.FileKey? && Dropped(S, c, k.id) {
        DroppedIsFile(S, next, use, c, k.id);
      }
      UntouchedKeySame(S, next, use, use2, c, v, sets1, dels1, sets2, dels2, sets, dels, k);
    }
  }

  // The pending changes of c touch no tree, record or link.
  lemma PendingIsFresh(S: Records, c: nat, sets: Records, dels: set<Key>)
    requires Chained(S) && Live(S, c) && PendingDone(S, c, sets, dels)
    ensures Untouched(S, sets, dels, {c}) && NoLinks(sets, dels, c) && FreshPath(PathOf(S, c), sets)
  {
  }

  lemma EditsAndErasures(S: Records, next: nat, use: map<nat, Use>, c: nat, sets: Records, dels: set<Key>,
                         dels0: set<Key>)
    requires EditsDone(S, c, EditPaths(S, c), sets, dels0) && Typed(S)
    requires forall k :: k in dels <==> DeletedPending(S, c, k)
    ensures PendingDone(S, c, sets, dels) && Typed(sets)
  {
    forall p ensures p in EditPaths(S, c) <==> EditKey(c, p) in S {
      PathsFacts(S, c, p);
    }
  }

  lemma OneMoreUnder<K, V>(a: map<K, V>, b: map<K, V>, todo: set<K>, p: K)
    requires p in todo && p in a
    ensures (a - (todo - {p})) + b == if p in (a - todo) + b then (a - todo) + b else ((a - todo) + b)[p := a[p]]
  {
  }
}
