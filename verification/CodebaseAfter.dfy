// The repository after a commit: every reader sees what the commit was to achieve, and
// the invariant holds again.
module CodebaseAfter {
  import opened Codebase
  import opened CodebaseCommit

  // The batch of a commit of c as v, in a repository in order, and the records it leads to.
  ghost predicate Commits(S: Records, next: nat, use: map<nat, Use>, sets: Records, dels: set<Key>, c: nat, v: string,
                          T: Records) {
    && Inv(S, next, use) && Live(S, c) && Typed(sets)
    && FilesCommitted(S, use, sets, dels, c) && TreesCommitted(S, use, sets, dels, c, v)
    && T == (S - dels) + sets
  }

  // The version of any codebase after the commit.
  ghost function VersionAfter(S: Records, c: nat, v: string, x: nat): string
    requires Chained(S) && Live(S, c) && Live(S, x)
  {
    if Derives(S, x, c) then NewVersion(S, c, v, x) else VersionOf(S, x)
  }

  // ----- key by key ------------------------------------------------------------------------

  ghost predicate InfoMoved(S: Records, T: Records, c: nat, v: string, x: nat)
    requires Chained(S) && Live(S, c)
  {
    && (Live(T, x) <==> Live(S, x))
    && (Live(S, x) ==> T[InfoKey(x)] == WithVersion(S[InfoKey(x)], VersionAfter(S, c, v, x)))
  }

  ghost predicate LinkMoved(S: Records, T: Records, c: nat, v: string, b: nat, d: nat)
    requires Chained(S) && Live(S, c)
  {
    && (DerivedKey(b, d) in T <==> DerivedKey(b, d) in S)
    && (DerivedKey(b, d) in S ==> Live(S, b) && T[DerivedKey(b, d)] == Link(VersionAfter(S, c, v, b)))
  }

  ghost predicate EntryMoved(S: Records, T: Records, c: nat, d: nat, p: string) {
    && SameAt(S, T, PathKey(p))
    && (if d != c then SameAt(S, T, OwnKey(d, p)) && SameAt(S, T, EditKey(d, p)) && SameAt(S, T, ErasedKey(d, p))
        else
          && EditKey(c, p) !in T && ErasedKey(c, p) !in T
          && (if EditKey(c, p) in S then OwnKey(c, p) in T && T[OwnKey(c, p)] == S[EditKey(c, p)]
              else if ErasedKey(c, p) in S then OwnKey(c, p) !in T
              else SameAt(S, T, OwnKey(c, p))))
  }

  ghost predicate ContentMoved(S: Records, T: Records, use: map<nat, Use>, c: nat, i: nat) {
    i in use && use[i].FileOf? ==>
      && (FileKey(i) in T <==> FileKey(i) in S && !Dropped(S, c, i))
      && (FileKey(i) in T ==> T[FileKey(i)] == S[FileKey(i)])
  }

  ghost predicate Moved(S: Records, T: Records, use: map<nat, Use>, c: nat, v: string)
    requires Chained(S) && Live(S, c)
  {
    && Typed(T)
    && (forall x {:trigger InfoMoved(S, T, c, v, x)} :: InfoMoved(S, T, c, v, x))
    && (forall b, d {:trigger LinkMoved(S, T, c, v, b, d)} :: LinkMoved(S, T, c, v, b, d))
    && (forall d, p {:trigger EntryMoved(S, T, c, d, p)} :: EntryMoved(S, T, c, d, p))
    && (forall i {:trigger ContentMoved(S, T, use, c, i)} :: ContentMoved(S, T, use, c, i))
  }

  lemma InfoMoves(S: Records, next: nat, use: map<nat, Use>, sets: Records, dels: set<Key>, c: nat, v: string,
                  T: Records, x: nat)
    requires Commits(S, next, use, sets, dels, c, v, T)
    ensures InfoMoved(S, T, c, v, x)
  {
    if Live(S, x) && Touched(S, c, v, x) {
      assert Done(S, use, sets, dels, c, v, x);
    } else {
      assert !TouchedKey(S, use, c, v, InfoKey(x));
    }
  }

  lemma TouchedLinkMoves(S: Records, next: nat, use: map<nat, Use>, sets: Records, dels: set<Key>, c: nat, v: string,
                         T: Records, b: nat, d: nat)
    requires CodebasesOk(S, next) && Live(S, c) && T == (S - dels) + sets && Live(S, d) && Derives(S, d, c)
    requires Done(S, use, sets, dels, c, v, d)
    ensures LinkMoved(S, T, c, v, b, d)
  {
    assert CodebaseOk(S, next, d) && BaseOk(S, d);
    BaseIsNotBelow(S, c);
  }

  lemma UntouchedLinkStays(S: Records, use: map<nat, Use>, sets: Records, dels: set<Key>, c: nat, v: string, b: nat,
                           d: nat)
    requires Chained(S) && Live(S, c) && TreesCommitted(S, use, sets, dels, c, v)
    requires !(Live(S, d) && Touched(S, c, v, d))
    ensures DerivedKey(b, d) !in sets && DerivedKey(b, d) !in dels
  {
    assert !TouchedKey(S, use, c, v, DerivedKey(b, d));
    assert TreeOrRecord(use, DerivedKey(b, d));
  }

  lemma UntouchedLinkMoves(S: Records, next: nat, sets: Records, dels: set<Key>, c: nat, v: string, T: Records, b: nat,
                           d: nat)
    requires CodebasesOk(S, next) && Live(S, c) && T == (S - dels) + sets
    requires DerivedKey(b, d) !in sets && DerivedKey(b, d) !in dels
    requires !(Live(S, d) && Touched(S, c, v, d))
    ensures LinkMoved(S, T, c, v, b, d)
  {
    if DerivedKey(b, d) in S {
      assert CodebaseOk(S, next, d) && BaseOk(S, d);
      assert Derives(S, b, c) ==> Derives(S, d, c);
    }
  }

  lemma LinkMoves(S: Records, next: nat, use: map<nat, Use>, sets: Records, dels: set<Key>, c: nat, v: string,
                  T: Records, b: nat, d: nat)
    requires Commits(S, next, use, sets, dels, c, v, T)
    ensures LinkMoved(S, T, c, v, b, d)
  {
    if Live(S, d) && Touched(S, c, v, d) {
      TouchedLinkMoves(S, next, use, sets, dels, c, v, T, b, d);
    } else {
      UntouchedLinkStays(S, use, sets, dels, c, v, b, d);
      UntouchedLinkMoves(S, next, sets, dels, c, v, T, b, d);
    }
  }

  lemma EntryMoves(S: Records, use: map<nat, Use>, sets: Records, dels: set<Key>, c: nat, T: Records, d: nat, p: string)
    requires EntryOk(S, use, c, p) && FilesCommitted(S, use, sets, dels, c) && T == (S - dels) + sets
    ensures EntryMoved(S, T, c, d, p)
  {
    assert PendingKey(PathKey(p)) && PendingKey(EditKey(d, p)) && PendingKey(ErasedKey(d, p))
    && PendingKey(OwnKey(d, p));
  }

  lemma ContentMoves(S: Records, use: map<nat, Use>, sets: Records, dels: set<Key>, c: nat, T: Records, i: nat)
    requires FilesCommitted(S, use, sets, dels, c) && T == (S - dels) + sets
    ensures ContentMoved(S, T, use, c, i)
  {
  }

  lemma TypedApplied(S: Records, sets: Records, dels: set<Key>)
    requires Typed(S) && Typed(sets)
    ensures Typed((S - dels) + sets)
  {
  }

  lemma CommitMoves(S: Records, next: nat, use: map<nat, Use>, sets: Records, dels: set<Key>, c: nat, v: string,
                    T: Records)
    requires Commits(S, next, use, sets, dels, c, v, T)
    ensures Moved(S, T, use, c, v)
  {
    TypedApplied(S, sets, dels);
    forall x ensures InfoMoved(S, T, c, v, x) {
      InfoMoves(S, next, use, sets, dels, c, v, T, x);
    }
    forall b, d ensures LinkMoved(S, T, c, v, b, d) {
      LinkMoves(S, next, use, sets, dels, c, v, T, b, d);
    }
    forall d, p ensures EntryMoved(S, T, c, d, p) {
      assert EntryOk(S, use, c, p);
      EntryMoves(S, use, sets, dels, c, T, d, p);
    }
    forall i ensures ContentMoved(S, T, use, c, i) {
      ContentMoves(S, use, sets, dels, c, T, i);
    }
  }

  // ----- what readers see ----------------------------------------------------------------------

  // A dropped id is neither a pending edit nor the file of another path or codebase.
  lemma NotDropped(S: Records, next: nat, use: map<nat, Use>, c: nat, d: nat, p: string)
    requires Inv(S, next, use)
    ensures EditKey(d, p) in S ==> !Dropped(S, c, S[EditKey(d, p)].id)
    ensures OwnKey(d, p) in S && (d != c || (EditKey(c, p) !in S && ErasedKey(c, p) !in S)) ==>
      !Dropped(S, c, S[OwnKey(d, p)].id)
  {
    assert EntryOk(S, use, d, p);
    forall i | Dropped(S, c, i)
      ensures EditKey(d, p) in S ==> i != S[EditKey(d, p)].id
      ensures OwnKey(d, p) in S && (d != c || (EditKey(c, p) !in S && ErasedKey(c, p) !in S)) ==>
        i != S[OwnKey(d, p)].id
    {
      var q :| OwnKey(c, q) in S && S[OwnKey(c, q)] == Id(i) && (EditKey(c, q) in S || ErasedKey(c, q) in S);
      assert EntryOk(S, use, c, q);
    }
  }

  lemma OwnAfter(S: Records, next: nat, use: map<nat, Use>, c: nat, v: string, T: Records, x: nat)
    requires Typed(S) && FilesOk(S, use) && Chained(S) && Live(S, c) && Moved(S, T, use, c, v)
    ensures Own(T, x) == if x == c then NewOwn(S, c) else Own(S, x)
  {
    OwnDomain(S, x);
    OwnDomain(T, x);
    PendingDomain(S, x);
    forall p
      ensures p in Own(T, x) <==> p in (if x == c then NewOwn(S, c) else Own(S, x))
      ensures p in Own(T, x) ==> Own(T, x)[p] == (if x == c then NewOwn(S, c) else Own(S, x))[p]
    {
      assert EntryMoved(S, T, c, x, p) && EntryOk(S, use, x, p);
    }
  }

  lemma ChainedAfter(S: Records, use: map<nat, Use>, c: nat, v: string, T: Records)
    requires Chained(S) && Live(S, c) && Moved(S, T, use, c, v)
    ensures Chained(T)
  {
    forall x | Live(T, x) ensures BaseOk(T, x) {
      assert InfoMoved(S, T, c, v, x);
      assert BaseOk(S, x) && InfoMoved(S, T, c, v, BaseOf(S, x));
    }
  }

  lemma BaseIsNotBelow(S: Records, c: nat)
    requires Chained(S) && Live(S, c)
    ensures BaseOk(S, c) && (BaseOf(S, c) != 0 ==> !Derives(S, BaseOf(S, c), c))
  {
    assert BaseOk(S, c);
    if BaseOf(S, c) != 0 && Derives(S, BaseOf(S, c), c) {
      DerivesUp(S, BaseOf(S, c), c);
    }
  }

  lemma {:induction false} ResolveAfter(S: Records, next: nat, use: map<nat, Use>, c: nat, v: string, T: Records,
                                        x: nat)
    requires Typed(S) && FilesOk(S, use) && Chained(S) && Live(S, c) && Moved(S, T, use, c, v)
    requires x == 0 || Live(S, x)
    ensures Chained(T) && (x == 0 || Live(T, x))
    ensures Resolve(T, x) == if x != 0 && Derives(S, x, c) then NewFiles(S, c, x) else Resolve(S, x)
  {
    ChainedAfter(S, use, c, v, T);
    if x != 0 {
      assert InfoMoved(S, T, c, v, x);
      assert BaseOk(S, x) && BaseOk(T, x);
      ResolveAfter(S, next, use, c, v, T, BaseOf(S, x));
      OwnAfter(S, next, use, c, v, T, x);
      BaseIsNotBelow(S, c);
    }
  }

  // ----- the invariant holds again -----------------------------------------------------------

  lemma CodebasesAfter(S: Records, next: nat, use: map<nat, Use>, c: nat, v: string, T: Records)
    requires CodebasesOk(S, next) && Live(S, c) && Moved(S, T, use, c, v)
    ensures CodebasesOk(T, next)
  {
    ChainedAfter(S, use, c, v, T);
    forall x | Live(T, x) ensures CodebaseOk(T, next, x) {
      assert InfoMoved(S, T, c, v, x);
      assert CodebaseOk(S, next, x) && BaseOk(T, x);
      assert EntryMoved(S, T, c, x, PathOf(S, x));
      assert LinkMoved(S, T, c, v, BaseOf(S, x), x) && InfoMoved(S, T, c, v, BaseOf(S, x));
    }
    forall x, y | Live(T, x) && Live(T, y) ensures !Under(PathOf(T, x), PathOf(T, y)) {
      assert InfoMoved(S, T, c, v, x) && InfoMoved(S, T, c, v, y);
      assert Live(S, x) && Live(S, y);
    }
    forall b, d | DerivedKey(b, d) in T ensures b != 0 && Live(T, d) && BaseOf(T, d) == b {
      assert LinkMoved(S, T, c, v, b, d) && InfoMoved(S, T, c, v, d);
      assert DerivedKey(b, d) in S;
    }
  }

  lemma EntriesAfter(S: Records, next: nat, use: map<nat, Use>, c: nat, v: string, T: Records)
    requires Inv(S, next, use) && Live(S, c) && Moved(S, T, use, c, v)
    ensures FilesOk(T, use)
  {
    forall d, p ensures EntryOk(T, use, d, p) {
      assert EntryOk(S, use, d, p);
      assert EntryMoved(S, T, c, d, p) && InfoMoved(S, T, c, v, d);
      NotDropped(S, next, use, c, d, p);
      assert EditKey(d, p) in S ==> ContentMoved(S, T, use, c, S[EditKey(d, p)].id);
      assert OwnKey(d, p) in S ==> ContentMoved(S, T, use, c, S[OwnKey(d, p)].id);
    }
  }

  lemma {:induction false} ResolvedInUse(S: Records, use: map<nat, Use>, x: nat)
    requires Typed(S) && FilesOk(S, use) && Chained(S) && (x == 0 || Live(S, x))
    ensures forall p :: p in Resolve(S, x) ==> Resolve(S, x)[p] in use
  {
    forall p | p in Resolve(S, x) ensures Resolve(S, x)[p] in use {
      ResolvedIsFile(S, use, x, p);
    }
  }

  lemma {:induction false} NewFilesInUse(S: Records, next: nat, use: map<nat, Use>, c: nat, x: nat)
    requires Inv(S, next, use) && Live(S, c) && Live(S, x) && Derives(S, x, c)
    ensures forall p :: p in NewFiles(S, c, x) ==> NewFiles(S, c, x)[p] in use
  {
    assert BaseOk(S, x);
    OwnDomain(S, x);
    PendingDomain(S, x);
    forall p | p in Own(S, x) || p in Edits(S, x)
      ensures p in Own(S, x) ==> Own(S, x)[p] in use
      ensures p in Edits(S, x) ==> Edits(S, x)[p] in use
    {
      assert EntryOk(S, use, x, p);
    }
    if x == c {
      ResolvedInUse(S, use, BaseOf(S, c));
    } else {
      NewFilesInUse(S, next, use, c, BaseOf(S, x));
    }
  }

  lemma IdOfRebuilt(S: Records, use: map<nat, Use>, sets: Records, dels: set<Key>, x: nat, version: string,
                    files: map<string, nat>, p: string)
    requires Live(S, x) && Rebuilt(S, use, sets, dels, x, version, files)
    requires forall q :: q in files ==> FilePathOk(q) && files[q] in use
    requires Under(PathOf(S, x), p) && TreeKey(p) in sets
    ensures sets[TreeKey(p)].TreeRec? && sets[TreeKey(p)].id in use
  {
    var path := PathOf(S, x);
    assert p == path + p[|path|..];
  }

  // Every tree record of a rebuilt codebase has an id that is in use.
  lemma IdOfDone(S: Records, next: nat, use: map<nat, Use>, sets: Records, dels: set<Key>, c: nat, v: string,
                 x: nat, p: string)
    requires Inv(S, next, use) && Live(S, c) && Live(S, x) && Derives(S, x, c) && Done(S, use, sets, dels, c, v, x)
    requires Under(PathOf(S, x), p) && TreeKey(p) in sets
    ensures sets[TreeKey(p)].TreeRec? && sets[TreeKey(p)].id in use
  {
    NewPathsOk(S, next, use, c, x);
    NewFilesInUse(S, next, use, c, x);
    IdOfRebuilt(S, use, sets, dels, x, NewVersion(S, c, v, x), NewFiles(S, c, x), p);
  }

  lemma TreeIdsAfter(S: Records, next: nat, use: map<nat, Use>, sets: Records, dels: set<Key>, c: nat, v: string,
                     T: Records)
    requires Commits(S, next, use, sets, dels, c, v, T)
    ensures TreeIdsOk(T, use)
  {
    forall p | TreeKey(p) in T ensures T[TreeKey(p)].TreeRec? && T[TreeKey(p)].id in use {
      if TreeKey(p) in sets {
        assert TouchedKey(S, use, c, v, TreeKey(p));
        var x :| Live(S, x) && Touched(S, c, v, x) && Region(S, use, x, TreeKey(p));
        assert Done(S, use, sets, dels, c, v, x);
        IdOfDone(S, next, use, sets, dels, c, v, x, p);
      } else {
        assert TreeKey(p) in S && T[TreeKey(p)] == S[TreeKey(p)];
      }
    }
  }

  lemma TreesAfter(S: Records, next: nat, use: map<nat, Use>, sets: Records, dels: set<Key>, c: nat, v: string,
                   T: Records)
    requires Commits(S, next, use, sets, dels, c, v, T) && Moved(S, T, use, c, v)
    ensures TreesOk(T, use)
  {
    TreeIdsAfter(S, next, use, sets, dels, c, v, T);
    forall x | Live(T, x) ensures IndexesOk(T, use, x) {
      assert InfoMoved(S, T, c, v, x) && IndexesOk(S, use, x);
      if Touched(S, c, v, x) {
        assert Done(S, use, sets, dels, c, v, x);
      } else {
        IndexPathFacts(PathOf(S, x));
        OtherTreesStay(S, next, use, sets, dels, c, v, T, x, PathOf(S, x) + "/");
        OtherTreesStay(S, next, use, sets, dels, c, v, T, x, PathOf(S, x) + ETAGS);
      }
    }
  }

  lemma CommitKeepsInv(S: Records, next: nat, use: map<nat, Use>, sets: Records, dels: set<Key>, c: nat, v: string,
                       T: Records)
    requires Commits(S, next, use, sets, dels, c, v, T)
    ensures Inv(T, next, use) && Moved(S, T, use, c, v)
  {
    CommitMoves(S, next, use, sets, dels, c, v, T);
    CodebasesAfter(S, next, use, c, v, T);
    EntriesAfter(S, next, use, c, v, T);
    TreesAfter(S, next, use, sets, dels, c, v, T);
  }

  // ----- what the commit achieves -----------------------------------------------------------------

  // The contents of all files a codebase resolves to are stored.
  lemma {:induction false} ResolvedIsStored(S: Records, use: map<nat, Use>, x: nat, p: string)
    requires Typed(S) && FilesOk(S, use) && Chained(S) && (x == 0 || Live(S, x)) && p in Resolve(S, x)
    ensures FileKey(Resolve(S, x)[p]) in S
  {
    if x != 0 {
      assert BaseOk(S, x);
      OwnDomain(S, x);
      if p in Own(S, x) {
        assert EntryOk(S, use, x, p);
      } else {
        ResolvedIsStored(S, use, BaseOf(S, x), p);
      }
    }
  }

  // After a batch that rebuilds the tree of x, its keys are exactly these.
  lemma RebuiltKeys(S: Records, use: map<nat, Use>, sets: Records, dels: set<Key>, x: nat, version: string,
                    files: map<string, nat>, T: Records, p: string)
    requires Live(S, x) && Rebuilt(S, use, sets, dels, x, version, files) && T == (S - dels) + sets
    requires AllPlain(files) && Under(PathOf(S, x), p)
    ensures TreeKey(p) in T <==> p == PathOf(S, x) + "/" || p == PathOf(S, x) + ETAGS || p[|PathOf(S, x)|..] in files
  {
    assert p == PathOf(S, x) + p[|PathOf(S, x)|..];
  }

  // A rebuilt tree is exact once the batch is applied.
  lemma RebuiltIsExact(S: Records, use: map<nat, Use>, sets: Records, dels: set<Key>, x: nat, version: string,
                       files: map<string, nat>, T: Records)
    requires Live(S, x) && Rebuilt(S, use, sets, dels, x, version, files) && T == (S - dels) + sets
    requires Chained(T) && Live(T, x) && Resolve(T, x) == files && AllPlain(files)
    requires forall p :: p in files ==> FileKey(files[p]) in T
    ensures TreeExact(T, x)
  {
    assert T[InfoKey(x)] == WithVersion(S[InfoKey(x)], version);
    forall p | Under(PathOf(S, x), p)
      ensures TreeKey(p) in T <==> p == PathOf(S, x) + "/" || p == PathOf(S, x) + ETAGS || p[|PathOf(S, x)|..] in files
    {
      RebuiltKeys(S, use, sets, dels, x, version, files, T, p);
    }
  }

  // A file at "/" or at "/_etags" has no tree record: the manifest or the etags have it.
  lemma IndexIsNoFile(S: Records, use: map<nat, Use>, x: nat, p: string)
    requires Live(S, x) && IndexesOk(S, use, x) && (p == "/" || p == ETAGS) && TreeKey(PathOf(S, x) + p) in S
    ensures S[TreeKey(PathOf(S, x) + p)].TreeRec? && S[TreeKey(PathOf(S, x) + p)].id in use
    ensures !use[S[TreeKey(PathOf(S, x) + p)].id].FileOf?
  {
  }

  lemma ExactIsPlain(S: Records, next: nat, use: map<nat, Use>, x: nat)
    requires Inv(S, next, use) && Live(S, x) && TreeExact(S, x)
    ensures AllPlain(Resolve(S, x))
  {
    ResolvedPathsOk(S, next, use, x);
    assert IndexesOk(S, use, x);
    forall p | p in Resolve(S, x) ensures p != "/" && p != ETAGS {
      ResolvedIsFile(S, use, x, p);
      assert S[TreeKey(PathOf(S, x) + p)] == TreeRec(Resolve(S, x)[p], VersionOf(S, x));
      if p == "/" || p == ETAGS {
        IndexIsNoFile(S, use, x, p);
      }
    }
  }

  lemma {:induction false} ResolvedIsFile(S: Records, use: map<nat, Use>, x: nat, p: string)
    requires Typed(S) && FilesOk(S, use) && Chained(S) && (x == 0 || Live(S, x)) && p in Resolve(S, x)
    ensures Resolve(S, x)[p] in use && use[Resolve(S, x)[p]].FileOf?
  {
    if x != 0 {
      assert BaseOk(S, x);
      OwnDomain(S, x);
      if p in Own(S, x) {
        assert EntryOk(S, use, x, p);
      } else {
        ResolvedIsFile(S, use, BaseOf(S, x), p);
      }
    }
  }

  // A rebuilt tree is exact unless one of the files has the path of the manifest or the etags.
  lemma TreeAfter(S: Records, next: nat, use: map<nat, Use>, sets: Records, dels: set<Key>, c: nat, v: string,
                  T: Records, x: nat)
    requires Commits(S, next, use, sets, dels, c, v, T) && Live(S, x) && Touched(S, c, v, x)
    ensures Chained(T) && Live(T, x) && (TreeExact(T, x) <==> AllPlain(Resolve(T, x)))
  {
    CommitKeepsInv(S, next, use, sets, dels, c, v, T);
    assert InfoMoved(S, T, c, v, x) && BaseOk(S, x);
    ResolveAfter(S, next, use, c, v, T, x);
    assert Done(S, use, sets, dels, c, v, x);
    if TreeExact(T, x) {
      ExactIsPlain(T, next, use, x);
    }
    if AllPlain(Resolve(T, x)) {
      forall p | p in Resolve(T, x) ensures FileKey(Resolve(T, x)[p]) in T {
        ResolvedIsStored(T, use, x, p);
      }
      RebuiltIsExact(S, use, sets, dels, x, NewVersion(S, c, v, x), NewFiles(S, c, x), T);
    }
  }

  // The etags of a codebase whose tree was rebuilt: for each file the version of the codebase, or,
  // where that has none, the version that the file was recorded with before, if any.
  ghost predicate EtagsTell(S: Records, T: Records, x: nat)
    requires Live(S, x) && Chained(T) && Live(T, x)
  {
    var path, files, k := PathOf(T, x), Resolve(T, x), TreeKey(PathOf(T, x) + ETAGS);
    && k in T && T[k].TreeRec? && FileKey(T[k].id) in T
    && T[FileKey(T[k].id)].Content? && T[FileKey(T[k].id)].text.Etags?
    && var lines := T[FileKey(T[k].id)].text.lines;
      && lines.Keys == files.Keys
      && forall p :: p in files ==>
        if VersionOf(T, x) != "" then lines[p] == VersionOf(T, x)
        else if TreeKey(path + p) in S && S[TreeKey(path + p)].TreeRec? then
          lines[p] == S[TreeKey(path + p)].version
        else lines[p] == ""
  }

  lemma EtagsAfter(S: Records, next: nat, use: map<nat, Use>, sets: Records, dels: set<Key>, c: nat, v: string,
                   T: Records, x: nat)
    requires Commits(S, next, use, sets, dels, c, v, T) && Live(S, x) && Touched(S, c, v, x)
    ensures Chained(T) && Live(T, x) && EtagsTell(S, T, x)
  {
    CommitKeepsInv(S, next, use, sets, dels, c, v, T);
    assert InfoMoved(S, T, c, v, x) && BaseOk(S, x);
    ResolveAfter(S, next, use, c, v, T, x);
    assert Done(S, use, sets, dels, c, v, x);
    RebuiltEtags(S, use, sets, dels, x, NewVersion(S, c, v, x), NewFiles(S, c, x), T);
  }

  lemma RebuiltEtags(S: Records, use: map<nat, Use>, sets: Records, dels: set<Key>, x: nat, version: string,
                     files: map<string, nat>, T: Records)
    requires Live(S, x) && Rebuilt(S, use, sets, dels, x, version, files) && T == (S - dels) + sets
    requires Chained(T) && Live(T, x) && Resolve(T, x) == files
    ensures EtagsTell(S, T, x)
  {
    assert T[InfoKey(x)] == WithVersion(S[InfoKey(x)], version);
  }

  // The version of c is the one given, and that of a codebase rebuilt with it is one more than
  // before; the other records of codebases stay as they were.
  ghost predicate VersionsMoved(S: Records, T: Records, c: nat, v: string)
    requires Chained(S) && Live(S, c)
  {
    && Live(T, c) && T[InfoKey(c)] == Info(v, PathOf(S, c), BaseOf(S, c), S[InfoKey(c)].main)
    && forall x :: Live(S, x) && x != c ==>
      && Live(T, x)
      && (Touched(S, c, v, x) ==>
           && Atoi(VersionOf(T, x)) == Atoi(VersionOf(S, x)) + 1
           && T[InfoKey(x)] == Info(ToString(Atoi(VersionOf(T, x))), PathOf(S, x), BaseOf(S, x), S[InfoKey(x)].main))
      && (!Touched(S, c, v, x) ==> T[InfoKey(x)] == S[InfoKey(x)])
  }

  lemma VersionsAfter(S: Records, T: Records, use: map<nat, Use>, c: nat, v: string)
    requires Live(S, c) && Chained(S) && Moved(S, T, use, c, v)
    ensures VersionsMoved(S, T, c, v)
  {
    assert InfoMoved(S, T, c, v, c);
    forall x | Live(S, x) && x != c
      ensures Live(T, x)
      ensures Touched(S, c, v, x) ==>
        && Atoi(VersionOf(T, x)) == Atoi(VersionOf(S, x)) + 1
        && T[InfoKey(x)] == Info(ToString(Atoi(VersionOf(T, x))), PathOf(S, x), BaseOf(S, x), S[InfoKey(x)].main)
      ensures !Touched(S, c, v, x) ==> T[InfoKey(x)] == S[InfoKey(x)]
    {
      assert InfoMoved(S, T, c, v, x);
      AtoiToString(Atoi(VersionOf(S, x)) + 1);
    }
  }

  // Committing a file as "/_etags", which the admin service takes, always breaks the tree:
  // what the tree has there are the etags.
  lemma EtagsFileIsLost(S: Records, next: nat, use: map<nat, Use>, sets: Records, dels: set<Key>, c: nat, v: string,
                        T: Records)
    requires Commits(S, next, use, sets, dels, c, v, T) && EditKey(c, ETAGS) in S
    ensures Chained(T) && Live(T, c) && !TreeExact(T, c)
    ensures At(Resolve(T, c), ETAGS) == S[EditKey(c, ETAGS)].id
    ensures var k := TreeKey(PathOf(S, c) + ETAGS); k in T && T[k].TreeRec? && T[k].id != S[EditKey(c, ETAGS)].id
  {
    TreeAfter(S, next, use, sets, dels, c, v, T, c);
    CommitKeepsInv(S, next, use, sets, dels, c, v, T);
    assert ETAGS in Resolve(T, c) && At(Resolve(T, c), ETAGS) == S[EditKey(c, ETAGS)].id by {
      assert EntryMoved(S, T, c, c, ETAGS);
      ResolveAt(T, c, ETAGS);
      FileIdsAreReal(S, next, use, c, ETAGS);
    }
    assert !IsPlainPath(ETAGS);
    assert EntryOk(S, use, c, ETAGS);
    EtagsRecordIsSet(S, use, sets, dels, c, v, T);
  }

  lemma EtagsRecordIsSet(S: Records, use: map<nat, Use>, sets: Records, dels: set<Key>, c: nat, v: string, T: Records)
    requires Chained(S) && Live(S, c) && TreesCommitted(S, use, sets, dels, c, v) && T == (S - dels) + sets
    ensures var k := TreeKey(PathOf(S, c) + ETAGS);
      k in T && T[k].TreeRec? && T[k].id in use && use[T[k].id].IndexOf?
  {
    assert Touched(S, c, v, c);
    assert Done(S, use, sets, dels, c, v, c);
  }

  lemma {:induction false} ResolvedIsNotDropped(S: Records, next: nat, use: map<nat, Use>, c: nat, x: nat, p: string)
    requires Inv(S, next, use) && Live(S, c) && x < c && (x == 0 || Live(S, x)) && p in Resolve(S, x)
    ensures var id := Resolve(S, x)[p]; FileKey(id) in S && id in use && use[id].FileOf? && !Dropped(S, c, id)
  {
    if x != 0 {
      assert BaseOk(S, x);
      OwnDomain(S, x);
      if p in Own(S, x) {
        assert EntryOk(S, use, x, p);
        NotDropped(S, next, use, c, x, p);
      } else {
        ResolvedIsNotDropped(S, next, use, c, BaseOf(S, x), p);
      }
    }
  }

  lemma LookedUpIsStored(S: Records, next: nat, use: map<nat, Use>, c: nat, p: string)
    requires Inv(S, next, use) && Live(S, c) && p in Lookup(S, c)
    ensures var id := Lookup(S, c)[p]; FileKey(id) in S && id in use && use[id].FileOf? && !Dropped(S, c, id)
  {
    OwnDomain(S, c);
    PendingDomain(S, c);
    assert EntryOk(S, use, c, p);
    NotDropped(S, next, use, c, c, p);
    assert BaseOk(S, c);
    if ErasedKey(c, p) in S || (EditKey(c, p) !in S && OwnKey(c, p) !in S) {
      ResolvedIsNotDropped(S, next, use, c, BaseOf(S, c), p);
    }
  }

  lemma NothingPendingAfter(S: Records, use: map<nat, Use>, c: nat, v: string, T: Records)
    requires Chained(S) && Live(S, c) && Moved(S, T, use, c, v)
    ensures Edits(T, c) == map[] && Erasures(T, c) == map[]
  {
    PendingDomain(T, c);
    forall p ensures p !in Edits(T, c) && p !in Erasures(T, c) {
      assert EntryMoved(S, T, c, c, p);
    }
  }

  // The files and contents get_file finds are the same before and after a commit.
  ghost predicate SameView(S: Records, T: Records, c: nat)
    requires Chained(S) && Live(S, c) && Chained(T) && Live(T, c)
  {
    && Lookup(T, c) == Lookup(S, c)
    && forall p :: p in Lookup(S, c) ==> FileKey(Lookup(S, c)[p]) in S && SameAt(S, T, FileKey(Lookup(S, c)[p]))
  }

  lemma InheritedAfter(S: Records, next: nat, use: map<nat, Use>, c: nat, v: string, T: Records)
    requires Inv(S, next, use) && Live(S, c) && Moved(S, T, use, c, v)
    ensures Chained(T) && Live(T, c) && Inherited(T, c) == Inherited(S, c)
  {
    ChainedAfter(S, use, c, v, T);
    assert InfoMoved(S, T, c, v, c) && BaseOk(T, c);
    BaseIsNotBelow(S, c);
    ResolveAfter(S, next, use, c, v, T, BaseOf(S, c));
  }

  lemma LookupAfter(S: Records, next: nat, use: map<nat, Use>, c: nat, v: string, T: Records)
    requires Inv(S, next, use) && Live(S, c) && Moved(S, T, use, c, v)
    ensures Chained(T) && Live(T, c) && Lookup(T, c) == Lookup(S, c)
  {
    InheritedAfter(S, next, use, c, v, T);
    OwnAfter(S, next, use, c, v, T, c);
    NothingPendingAfter(S, use, c, v, T);
    assert (Own(T, c) + Edits(T, c)) - Erasures(T, c).Keys == NewOwn(S, c);
  }

  // A commit changes nothing that get_file finds in the committed codebase.
  lemma CommitKeepsLookup(S: Records, next: nat, use: map<nat, Use>, c: nat, v: string, T: Records)
    requires Inv(S, next, use) && Live(S, c) && Moved(S, T, use, c, v)
    ensures Chained(T) && Live(T, c) && SameView(S, T, c)
  {
    LookupAfter(S, next, use, c, v, T);
    forall p | p in Lookup(S, c) ensures FileKey(Lookup(S, c)[p]) in S && SameAt(S, T, FileKey(Lookup(S, c)[p])) {
      LookedUpIsStored(S, next, use, c, p);
      assert ContentMoved(S, T, use, c, Lookup(S, c)[p]);
    }
  }

  // What is committed afterwards is what get_file found before.
  lemma CommittedIsShown(S: Records, next: nat, use: map<nat, Use>, c: nat, v: string, T: Records)
    requires Inv(S, next, use) && Live(S, c) && Moved(S, T, use, c, v)
    ensures Chained(T) && Live(T, c) && Resolve(T, c) == Lookup(S, c)
  {
    LookupAfter(S, next, use, c, v, T);
    NothingPendingAfter(S, use, c, v, T);
    assert BaseOk(T, c);
    assert (Own(T, c) + Edits(T, c)) - Erasures(T, c).Keys == Own(T, c);
  }

  // A tree that is not rebuilt is left exactly as it was.
  lemma OtherTreesStay(S: Records, next: nat, use: map<nat, Use>, sets: Records, dels: set<Key>, c: nat, v: string,
                       T: Records, x: nat, p: string)
    requires Commits(S, next, use, sets, dels, c, v, T) && Live(S, x) && !Touched(S, c, v, x) && Under(PathOf(S, x), p)
    ensures SameAt(S, T, TreeKey(p))
  {
    if TouchedKey(S, use, c, v, TreeKey(p)) {
      var y :| Live(S, y) && Touched(S, c, v, y) && Region(S, use, y, TreeKey(p));
      assert Region(S, use, x, TreeKey(p));
      RegionsDisjoint(S, next, use, use, x, y, TreeKey(p));
    }
  }

  // Two exact trees with the same keys and records list the same files.
  lemma TreeTellsFiles(S: Records, T: Records, x: nat, p: string)
    requires Chained(S) && Chained(T) && Live(S, x) && Live(T, x) && PathOf(T, x) == PathOf(S, x)
    requires TreeExact(S, x) && TreeExact(T, x) && IsPlainPath(p)
    requires forall q :: Under(PathOf(S, x), q) ==> SameAt(S, T, TreeKey(q))
    ensures p in Resolve(S, x) <==> p in Resolve(T, x)
    ensures p in Resolve(S, x) ==> Resolve(S, x)[p] == Resolve(T, x)[p]
  {
    var path := PathOf(S, x);
    TreePathFacts(path, p);
    IndexPathFacts(path);
  }

  lemma TreeTellsAll(S: Records, T: Records, x: nat)
    requires Chained(S) && Chained(T) && Live(S, x) && Live(T, x) && PathOf(T, x) == PathOf(S, x)
    requires TreeExact(S, x) && TreeExact(T, x) && AllPlain(Resolve(S, x)) && AllPlain(Resolve(T, x))
    requires forall q :: Under(PathOf(S, x), q) ==> SameAt(S, T, TreeKey(q))
    ensures forall p :: p in Resolve(S, x) <==> p in Resolve(T, x)
    ensures forall p :: p in Resolve(S, x) ==> Resolve(S, x)[p] == Resolve(T, x)[p]
  {
    forall p | IsPlainPath(p)
      ensures p in Resolve(S, x) <==> p in Resolve(T, x)
      ensures p in Resolve(S, x) ==> Resolve(S, x)[p] == Resolve(T, x)[p]
    {
      TreeTellsFiles(S, T, x, p);
    }
  }

  lemma ExactTreesAgree(S: Records, T: Records, next: nat, use: map<nat, Use>, x: nat)
    requires Inv(S, next, use) && Inv(T, next, use) && Live(S, x) && Live(T, x) && PathOf(T, x) == PathOf(S, x)
    requires TreeExact(S, x) && TreeExact(T, x)
    requires forall p :: Under(PathOf(S, x), p) ==> SameAt(S, T, TreeKey(p))
    ensures Resolve(S, x) == Resolve(T, x)
  {
    ExactIsPlain(S, next, use, x);
    ExactIsPlain(T, next, use, x);
    TreeTellsAll(S, T, x);
  }

  // The manifest and the etags of a codebase that is not rebuilt are left alone.
  lemma IndexStays(S: Records, next: nat, use: map<nat, Use>, sets: Records, dels: set<Key>, c: nat, v: string,
                   T: Records, x: nat, p: string)
    requires Commits(S, next, use, sets, dels, c, v, T) && Live(S, x) && !Touched(S, c, v, x)
    requires TreeKey(p) in S && (p == PathOf(S, x) + "/" || p == PathOf(S, x) + ETAGS)
    ensures S[TreeKey(p)].TreeRec? && SameAt(S, T, TreeKey(p)) && SameAt(S, T, FileKey(S[TreeKey(p)].id))
  {
    assert IndexesOk(S, use, x);
    IndexPathFacts(PathOf(S, x));
    OtherTreesStay(S, next, use, sets, dels, c, v, T, x, p);
    var k := FileKey(S[TreeKey(p)].id);
    if TouchedKey(S, use, c, v, k) {
      var y :| Live(S, y) && Touched(S, c, v, y) && Region(S, use, y, k);
      RegionsDisjoint(S, next, use, use, x, y, k);
    }
  }

  lemma SameFilesStayExact(S: Records, next: nat, use: map<nat, Use>, sets: Records, dels: set<Key>, c: nat, v: string,
                           T: Records, x: nat)
    requires Commits(S, next, use, sets, dels, c, v, T) && Inv(T, next, use)
    requires Live(S, x) && !Touched(S, c, v, x) && TreeExact(S, x) && Live(T, x)
    requires T[InfoKey(x)] == S[InfoKey(x)] && Resolve(T, x) == Resolve(S, x)
    requires forall p :: Under(PathOf(S, x), p) ==> SameAt(S, T, TreeKey(p))
    ensures TreeExact(T, x)
  {
    IndexStays(S, next, use, sets, dels, c, v, T, x, PathOf(S, x) + "/");
    IndexStays(S, next, use, sets, dels, c, v, T, x, PathOf(S, x) + ETAGS);
    ResolvedPathsOk(S, next, use, x);
    forall p | p in Resolve(S, x) ensures FileKey(Resolve(S, x)[p]) in T {
      ResolvedIsStored(T, use, x, p);
    }
    TreeExactFrame(S, T, x);
  }

  // A tree that is not rebuilt stays exact exactly if its files stay the same.
  lemma UntouchedTree(S: Records, next: nat, use: map<nat, Use>, sets: Records, dels: set<Key>, c: nat, v: string,
                      T: Records, x: nat)
    requires Commits(S, next, use, sets, dels, c, v, T) && Inv(T, next, use)
    requires Live(S, x) && !Touched(S, c, v, x) && TreeExact(S, x) && Live(T, x) && T[InfoKey(x)] == S[InfoKey(x)]
    ensures TreeExact(T, x) <==> Resolve(T, x) == Resolve(S, x)
  {
    forall p | Under(PathOf(S, x), p) ensures SameAt(S, T, TreeKey(p)) {
      OtherTreesStay(S, next, use, sets, dels, c, v, T, x, p);
    }
    if Resolve(T, x) == Resolve(S, x) {
      SameFilesStayExact(S, next, use, sets, dels, c, v, T, x);
    } else if TreeExact(T, x) {
      ExactTreesAgree(S, T, next, use, x);
    }
  }

  lemma UntouchedRecord(S: Records, T: Records, use: map<nat, Use>, c: nat, v: string, x: nat)
    requires Chained(S) && Live(S, c) && Moved(S, T, use, c, v) && Live(S, x) && !Touched(S, c, v, x)
    ensures Live(T, x) && T[InfoKey(x)] == S[InfoKey(x)]
  {
    assert InfoMoved(S, T, c, v, x);
  }

  // A commit under the version c already has rebuilds no derived tree. A derived tree that
  // was exact stays so exactly if the commit changes none of the files it resolves to.
  lemma SameVersionCommit(S: Records, next: nat, use: map<nat, Use>, sets: Records, dels: set<Key>, c: nat, T: Records,
                          x: nat)
    requires Inv(S, next, use) && Live(S, c) && Commits(S, next, use, sets, dels, c, VersionOf(S, c), T)
    requires Live(S, x) && x != c && Derives(S, x, c) && TreeExact(S, x)
    ensures Chained(T) && Live(T, x)
    ensures TreeExact(T, x) <==> NewFiles(S, c, x) == Resolve(S, x)
  {
    var v := VersionOf(S, c);
    CommitKeepsInv(S, next, use, sets, dels, c, v, T);
    UntouchedRecord(S, T, use, c, v, x);
    assert BaseOk(S, x);
    ResolveAfter(S, next, use, c, v, T, x);
    UntouchedTree(S, next, use, sets, dels, c, v, T, x);
  }

  // What the files shown under a path of an edit are before and after it is committed.
  lemma EditChangesChild(S: Records, next: nat, use: map<nat, Use>, c: nat, x: nat, p: string)
    requires Inv(S, next, use) && Live(S, c) && Live(S, x) && BaseOf(S, x) == c
    requires EditKey(c, p) in S && OwnKey(x, p) !in S
    ensures Derives(S, x, c) && x != c && At(NewFiles(S, c, x), p) != At(Resolve(S, x), p)
  {
    assert BaseOk(S, x) && BaseOk(S, c);
    ResolveAt(S, x, p);
    EditIsNew(S, next, use, c, p);
    OwnDomain(S, x);
    OwnDomain(S, c);
    PendingDomain(S, c);
  }

  lemma EditIsNew(S: Records, next: nat, use: map<nat, Use>, c: nat, p: string)
    requires Inv(S, next, use) && Live(S, c) && EditKey(c, p) in S
    ensures S[EditKey(c, p)].id != At(Resolve(S, c), p) && ErasedKey(c, p) !in S
  {
    assert BaseOk(S, c) && EntryOk(S, use, c, p);
    ResolveAt(S, c, p);
    if p in Inherited(S, c) {
      ResolvedElsewhere(S, use, BaseOf(S, c), c, p);
    }
    FileIdsAreReal(S, next, use, c, p);
  }

  // What an older codebase resolves to was never made for a younger one.
  lemma {:induction false} ResolvedElsewhere(S: Records, use: map<nat, Use>, x: nat, c: nat, p: string)
    requires Typed(S) && FilesOk(S, use) && Chained(S) && (x == 0 || Live(S, x)) && x < c && p in Resolve(S, x)
    ensures Resolve(S, x)[p] in use && use[Resolve(S, x)[p]].FileOf? && use[Resolve(S, x)[p]].cb != c
  {
    if x != 0 {
      assert BaseOk(S, x);
      OwnDomain(S, x);
      if p in Own(S, x) {
        assert EntryOk(S, use, x, p);
      } else {
        ResolvedElsewhere(S, use, BaseOf(S, x), c, p);
      }
    }
  }

  // So an edit committed under the old version leaves the tree of every codebase based on c
  // stale, unless that has the path itself.
  lemma StaleChild(S: Records, next: nat, use: map<nat, Use>, sets: Records, dels: set<Key>, c: nat, T: Records,
                   x: nat, p: string)
    requires Inv(S, next, use) && Live(S, c) && Commits(S, next, use, sets, dels, c, VersionOf(S, c), T)
    requires Live(S, x) && BaseOf(S, x) == c && TreeExact(S, x) && EditKey(c, p) in S && OwnKey(x, p) !in S
    ensures Chained(T) && Live(T, x) && !TreeExact(T, x)
  {
    EditChangesChild(S, next, use, c, x, p);
    SameVersionCommit(S, next, use, sets, dels, c, T, x);
  }

  lemma {:induction false} DerivesAfter(S: Records, use: map<nat, Use>, c: nat, v: string, T: Records, x: nat)
    requires Chained(S) && Live(S, c) && Moved(S, T, use, c, v) && Chained(T) && Live(T, x)
    ensures Live(S, x) && (Derives(T, x, c) <==> Derives(S, x, c))
  {
    assert InfoMoved(S, T, c, v, x);
    assert BaseOk(S, x) && BaseOk(T, x);
    if x != c && BaseOf(S, x) != 0 {
      DerivesAfter(S, use, c, v, T, BaseOf(S, x));
    }
  }

  // What derives from c after its commit is what derived from it before.
  lemma CommittedAll(S: Records, T: Records, next: nat, use: map<nat, Use>, c: nat, v: string)
    requires Chained(S) && Live(S, c) && Inv(T, next, use) && Moved(S, T, use, c, v) && v != VersionOf(S, c)
    ensures Live(T, c) && VersionOf(T, c) == v
    ensures forall x :: Live(T, x) && Derives(T, x, c) ==> Live(S, x) && Touched(S, c, v, x)
  {
    assert InfoMoved(S, T, c, v, c);
    forall x | Live(T, x) && Derives(T, x, c) ensures Live(S, x) && Touched(S, c, v, x) {
      DerivesAfter(S, use, c, v, T, x);
    }
  }

  // What a commit as v does to every tree.
  ghost predicate TreesMoved(S: Records, T: Records, c: nat, v: string)
    requires Chained(S) && Chained(T) && Live(S, c)
  {
    && (forall x :: Live(S, x) && Touched(S, c, v, x) ==>
         Live(T, x) && (TreeExact(T, x) <==> AllPlain(Resolve(T, x))) && EtagsTell(S, T, x))
    && (forall x, p :: Live(S, x) && !Touched(S, c, v, x) && Under(PathOf(S, x), p) ==> SameAt(S, T, TreeKey(p)))
    && (forall x {:trigger Live(T, x)} :: Live(S, x) && !Touched(S, c, v, x) && TreeExact(S, x) ==>
         Live(T, x) && (TreeExact(T, x) <==> Resolve(T, x) == Resolve(S, x)))
    && (forall x :: Live(S, x) && !Derives(S, x, c) ==> Live(T, x) && Resolve(T, x) == Resolve(S, x))
  }

  lemma CommitMovesTrees(S: Records, next: nat, use: map<nat, Use>, sets: Records, dels: set<Key>, c: nat, v: string,
                         T: Records)
    requires Commits(S, next, use, sets, dels, c, v, T)
    ensures Chained(T) && TreesMoved(S, T, c, v)
  {
    CommitKeepsInv(S, next, use, sets, dels, c, v, T);
    forall x | Live(S, x) && Touched(S, c, v, x)
      ensures Live(T, x) && (TreeExact(T, x) <==> AllPlain(Resolve(T, x))) && EtagsTell(S, T, x)
    {
      TreeAfter(S, next, use, sets, dels, c, v, T, x);
      EtagsAfter(S, next, use, sets, dels, c, v, T, x);
    }
    forall x, p | Live(S, x) && !Touched(S, c, v, x) && Under(PathOf(S, x), p) ensures SameAt(S, T, TreeKey(p)) {
      OtherTreesStay(S, next, use, sets, dels, c, v, T, x, p);
    }
    forall x | Live(S, x) && !Touched(S, c, v, x) && TreeExact(S, x)
      ensures Live(T, x) && (TreeExact(T, x) <==> Resolve(T, x) == Resolve(S, x))
    {
      UntouchedRecord(S, T, use, c, v, x);
      UntouchedTree(S, next, use, sets, dels, c, v, T, x);
    }
    forall x | Live(S, x) && !Derives(S, x, c) ensures Live(T, x) && Resolve(T, x) == Resolve(S, x) {
      ResolveAfter(S, next, use, c, v, T, x);
    }
  }
}
