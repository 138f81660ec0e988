// What pending changes show to readers before they are committed.
module CodebasePending {
  import opened Codebase

  // Records that differ in pending changes and contents only.
  ghost predicate SameCommitted(S: Records, T: Records) {
    && (forall k: Key :: k.InfoKey? || k.OwnKey? ==> SameAt(S, T, k))
    && Chained(S) && Chained(T) && Typed(S) && Typed(T)
  }

  lemma {:induction false} ResolveSame(S: Records, T: Records, x: nat)
    requires SameCommitted(S, T) && (x == 0 || Live(S, x))
    ensures (x == 0 || Live(T, x)) && Resolve(T, x) == Resolve(S, x)
  {
    if x != 0 {
      assert SameAt(S, T, InfoKey(x)) && BaseOk(S, x);
      ResolveSame(S, T, BaseOf(S, x));
      OwnDomain(S, x);
      OwnDomain(T, x);
      assert forall p :: SameAt(S, T, OwnKey(x, p));
      assert Own(S, x) == Own(T, x);
    }
  }

  // Every resolved file is the committed file of some codebase, at the same path.
  lemma {:induction false} ResolvedWhere(S: Records, x: nat, p: string) returns (a: nat)
    requires Typed(S) && Chained(S) && (x == 0 || Live(S, x)) && p in Resolve(S, x)
    ensures OwnKey(a, p) in S && S[OwnKey(a, p)] == Id(Resolve(S, x)[p])
  {
    assert BaseOk(S, x);
    OwnDomain(S, x);
    if p in Own(S, x) {
      a := x;
    } else {
      a := ResolvedWhere(S, BaseOf(S, x), p);
    }
  }

  lemma LookedUpWhere(S: Records, x: nat, p: string) returns (a: nat)
    requires Typed(S) && Chained(S) && Live(S, x) && p in Lookup(S, x)
    ensures var id := Id(Lookup(S, x)[p]);
      (OwnKey(a, p) in S && S[OwnKey(a, p)] == id) || (EditKey(x, p) in S && S[EditKey(x, p)] == id)
  {
    assert BaseOk(S, x);
    OwnDomain(S, x);
    PendingDomain(S, x);
    a := x;
    if p in Inherited(S, x) {
      a := ResolvedWhere(S, BaseOf(S, x), p);
      if p in Own(S, x) && p !in Erasures(S, x) {
        a := x;
      }
    }
  }

  // The file another path, or another codebase, shows is not one ever made for this path here,
  // unless it is the committed one.
  lemma ShownElsewhere(S: Records, next: nat, use: map<nat, Use>, c: nat, path: string, i: nat, d: nat, p: string)
    requires Inv(S, next, use) && Live(S, d) && p in Lookup(S, d)
    requires i in use && use[i] == FileOf(c, path)
    requires OwnKey(c, path) in S ==> S[OwnKey(c, path)] != Id(i)
    requires d != c || p != path
    ensures Lookup(S, d)[p] != i
  {
    var a := LookedUpWhere(S, d, p);
    assert EntryOk(S, use, a, p) && EntryOk(S, use, d, p);
  }

  // Two sets of records with the same committed files inherit and resolve alike.
  lemma InheritSame(S: Records, T: Records, d: nat)
    requires SameCommitted(S, T) && Live(S, d)
    ensures Live(T, d) && Inherited(T, d) == Inherited(S, d)
  {
    assert SameAt(S, T, InfoKey(d)) && BaseOk(S, d) && BaseOk(T, d);
    ResolveSame(S, T, BaseOf(S, d));
  }

  lemma ShownAlike(S: Records, T: Records, d: nat, p: string)
    requires Typed(S) && Typed(T) && Chained(S) && Chained(T) && Live(S, d) && Live(T, d)
    requires Inherited(T, d) == Inherited(S, d)
    requires SameAt(S, T, OwnKey(d, p)) && SameAt(S, T, EditKey(d, p)) && SameAt(S, T, ErasedKey(d, p))
    ensures At(Lookup(T, d), p) == At(Lookup(S, d), p)
  {
    LookupAt(S, d, p);
    LookupAt(T, d, p);
  }

  // In d, the path of c shows `id`, if d is c; nothing else is shown differently, nor holds
  // anything else.
  ghost predicate ShowsOnly(S: Records, T: Records, c: nat, path: string, id: nat, d: nat)
    requires Chained(S) && Live(S, d) && Chained(T) && Live(T, d)
  {
    && (d == c ==> At(Lookup(T, d), path) == id)
    && (forall p {:trigger At(Lookup(S, d), p)} :: d != c || p != path ==>
         && At(Lookup(T, d), p) == At(Lookup(S, d), p)
         && (p in Lookup(S, d) ==> SameAt(S, T, FileKey(Lookup(S, d)[p]))))
  }

  // Records that differ only in the pending changes of one path, and in the content i.
  ghost predicate Pends(S: Records, T: Records, c: nat, path: string, i: nat) {
    forall k: Key :: k != EditKey(c, path) && k != ErasedKey(c, path) && k != FileKey(i) ==> SameAt(S, T, k)
  }

  lemma PendingShows(S: Records, T: Records, next: nat, use: map<nat, Use>, c: nat, path: string, i: nat, id: nat,
                     d: nat)
    requires Inv(S, next, use) && Inv(T, next, use) && Live(S, d) && Live(T, d) && Pends(S, T, c, path, i)
    requires i in use ==> use[i] == FileOf(c, path) && (OwnKey(c, path) in S ==> S[OwnKey(c, path)] != Id(i))
    requires d == c ==> At(Lookup(T, c), path) == id
    ensures ShowsOnly(S, T, c, path, id, d)
  {
    InheritSame(S, T, d);
    forall p | d != c || p != path
      ensures At(Lookup(T, d), p) == At(Lookup(S, d), p)
      ensures (p in Lookup(S, d) ==> SameAt(S, T, FileKey(Lookup(S, d)[p])))
    {
      ShownAlike(S, T, d, p);
      if p in Lookup(S, d) && i in use {
        ShownElsewhere(S, next, use, c, path, i, d, p);
      }
      if p in Lookup(S, d) && i !in use {
        var a := LookedUpWhere(S, d, p);
        assert EntryOk(S, use, a, p) && EntryOk(S, use, d, p);
      }
    }
  }

  // A set file is shown at its path with its bytes; everything else, in every codebase, is
  // shown as before.
  lemma SetFileShows(S: Records, next: nat, use: map<nat, Use>, c: nat, path: string, id: nat, data: string, d: nat)
    requires Inv(S, next, use) && Live(S, c) && FilePathOk(path)
    requires id in use && use[id] == FileOf(c, path)
    requires OwnKey(c, path) in S ==> S[OwnKey(c, path)] != Id(id)
    requires Live(S, d)
    ensures var T := AfterSetFile(S, c, path, id, data);
      && Inv(T, next, use) && Live(T, d) && ShowsOnly(S, T, c, path, id, d)
      && FileKey(id) in T && T[FileKey(id)] == Content(Blob(data))
  {
    var T := AfterSetFile(S, c, path, id, data);
    SetFileKeepsInv(S, next, use, c, path, id, data);
    LookupAt(T, c, path);
    PendingShows(S, T, next, use, c, path, id, id, d);
  }

  // The content that goes with the pending edit of a path, 0 for none.
  function EditId(S: Records, c: nat, path: string): nat {
    if EditKey(c, path) in S && S[EditKey(c, path)].Id? then S[EditKey(c, path)].id else 0
  }

  lemma DroppingPends(S: Records, c: nat, path: string)
    requires Typed(S)
    ensures Pends(S, AfterEraseFile(S, c, path), c, path, EditId(S, c, path))
    ensures Pends(S, AfterResetFile(S, c, path), c, path, EditId(S, c, path))
  {
  }

  lemma EditIdIsOwned(S: Records, use: map<nat, Use>, c: nat, path: string)
    requires FilesOk(S, use) && (forall i :: i in use ==> 0 < i)
    ensures var i := EditId(S, c, path);
      i in use ==> use[i] == FileOf(c, path) && (OwnKey(c, path) in S ==> S[OwnKey(c, path)] != Id(i))
  {
    assert EntryOk(S, use, c, path);
  }

  // A path with no pending edit shows what is inherited if it is erased or was never
  // committed here, and else what was committed.
  lemma ShownWithoutEdit(S: Records, T: Records, c: nat, path: string)
    requires SameCommitted(S, T) && Live(S, c) && Live(T, c) && EditKey(c, path) !in T
    ensures At(Lookup(T, c), path) ==
      if ErasedKey(c, path) in T || OwnKey(c, path) !in T then At(Inherited(S, c), path) else At(Resolve(S, c), path)
  {
    LookupAt(T, c, path);
    ResolveAt(S, c, path);
    InheritSame(S, T, c);
    assert SameAt(S, T, OwnKey(c, path));
  }

  // Dropping the pending edit of a path shows at that path only.
  lemma DroppingShows(S: Records, T: Records, next: nat, use: map<nat, Use>, c: nat, path: string, id: nat, d: nat)
    requires Inv(S, next, use) && Inv(T, next, use) && Live(S, d) && Live(T, d) && Live(T, c)
    requires Pends(S, T, c, path, EditId(S, c, path)) && At(Lookup(T, c), path) == id
    ensures ShowsOnly(S, T, c, path, id, d)
  {
    EditIdIsOwned(S, use, c, path);
    PendingShows(S, T, next, use, c, path, EditId(S, c, path), id, d);
  }

  lemma PendsKeeps(S: Records, T: Records, c: nat, path: string, i: nat, d: nat)
    requires Pends(S, T, c, path, i) && Live(S, d)
    ensures Live(T, d)
  {
    assert SameAt(S, T, InfoKey(d));
  }

  lemma PendsIsCommitted(S: Records, T: Records, next: nat, use: map<nat, Use>, c: nat, path: string, i: nat)
    requires Inv(S, next, use) && Inv(T, next, use) && Pends(S, T, c, path, i)
    ensures SameCommitted(S, T)
  {
  }

  // An erased file shows what is inherited at its path.
  lemma EraseFileShows(S: Records, next: nat, use: map<nat, Use>, c: nat, path: string, d: nat)
    requires Inv(S, next, use) && Live(S, c) && Live(S, d)
    ensures var T := AfterEraseFile(S, c, path);
      && Inv(T, next, use) && Live(T, d)
      && ShowsOnly(S, T, c, path, At(Inherited(S, c), path), d)
  {
    var T := AfterEraseFile(S, c, path);
    EraseFileKeepsInv(S, next, use, c, path);
    DroppingPends(S, c, path);
    PendsKeeps(S, T, c, path, EditId(S, c, path), c);
    PendsKeeps(S, T, c, path, EditId(S, c, path), d);
    PendsIsCommitted(S, T, next, use, c, path, EditId(S, c, path));
    ErasedAtPath(S, c, path);
    ShownWithoutEdit(S, T, c, path);
    DroppingShows(S, T, next, use, c, path, At(Inherited(S, c), path), d);
  }

  lemma ErasedAtPath(S: Records, c: nat, path: string)
    requires Typed(S)
    ensures var T := AfterEraseFile(S, c, path);
      EditKey(c, path) !in T && (ErasedKey(c, path) in T || OwnKey(c, path) !in T)
  {
  }

  lemma ResetAtPath(S: Records, c: nat, path: string)
    requires Typed(S)
    ensures var T := AfterResetFile(S, c, path);
      EditKey(c, path) !in T && ErasedKey(c, path) !in T && SameAt(S, T, OwnKey(c, path))
  {
  }

  // A reset file shows what was committed at its path, or inherited.
  lemma ResetFileShows(S: Records, next: nat, use: map<nat, Use>, c: nat, path: string, d: nat)
    requires Inv(S, next, use) && Live(S, c) && Live(S, d)
    ensures var T := AfterResetFile(S, c, path);
      && Inv(T, next, use) && Live(T, d)
      && ShowsOnly(S, T, c, path, At(Resolve(S, c), path), d)
  {
    var T := AfterResetFile(S, c, path);
    ResetFileKeepsInv(S, next, use, c, path);
    DroppingPends(S, c, path);
    PendsKeeps(S, T, c, path, EditId(S, c, path), c);
    PendsKeeps(S, T, c, path, EditId(S, c, path), d);
    PendsIsCommitted(S, T, next, use, c, path, EditId(S, c, path));
    ResetAtPath(S, c, path);
    ResetShownAt(S, T, c, path);
    DroppingShows(S, T, next, use, c, path, At(Resolve(S, c), path), d);
  }

  lemma ResetShownAt(S: Records, T: Records, c: nat, path: string)
    requires SameCommitted(S, T) && Live(S, c) && Live(T, c)
    requires EditKey(c, path) !in T && ErasedKey(c, path) !in T && SameAt(S, T, OwnKey(c, path))
    ensures At(Lookup(T, c), path) == At(Resolve(S, c), path)
  {
    ShownWithoutEdit(S, T, c, path);
    ResolveAt(S, c, path);
  }

  // ----- what all codebases show ------------------------------------------------------------

  ghost predicate AllShow(S: Records, T: Records, c: nat, path: string, id: nat)
    requires Chained(S)
  {
    Chained(T) && forall d {:trigger Live(S, d)} :: Live(S, d) ==> Live(T, d) && ShowsOnly(S, T, c, path, id, d)
  }

  lemma SetFileShowsAll(S: Records, next: nat, use: map<nat, Use>, c: nat, path: string, id: nat, data: string)
    requires Inv(S, next, use) && Live(S, c) && FilePathOk(path)
    requires id in use && use[id] == FileOf(c, path)
    requires OwnKey(c, path) in S ==> S[OwnKey(c, path)] != Id(id)
    ensures AllShow(S, AfterSetFile(S, c, path, id, data), c, path, id)
  {
    SetFileKeepsInv(S, next, use, c, path, id, data);
    forall d | Live(S, d)
      ensures var T := AfterSetFile(S, c, path, id, data); Live(T, d) && ShowsOnly(S, T, c, path, id, d)
    {
      SetFileShows(S, next, use, c, path, id, data, d);
    }
  }

  lemma EraseFileShowsAll(S: Records, next: nat, use: map<nat, Use>, c: nat, path: string)
    requires Inv(S, next, use) && Live(S, c)
    ensures AllShow(S, AfterEraseFile(S, c, path), c, path, At(Inherited(S, c), path))
  {
    EraseFileKeepsInv(S, next, use, c, path);
    forall d | Live(S, d)
      ensures var T := AfterEraseFile(S, c, path);
        Live(T, d) && ShowsOnly(S, T, c, path, At(Inherited(S, c), path), d)
    {
      EraseFileShows(S, next, use, c, path, d);
    }
  }

  lemma ResetFileShowsAll(S: Records, next: nat, use: map<nat, Use>, c: nat, path: string)
    requires Inv(S, next, use) && Live(S, c)
    ensures AllShow(S, AfterResetFile(S, c, path), c, path, At(Resolve(S, c), path))
  {
    ResetFileKeepsInv(S, next, use, c, path);
    forall d | Live(S, d)
      ensures var T := AfterResetFile(S, c, path);
        Live(T, d) && ShowsOnly(S, T, c, path, At(Resolve(S, c), path), d)
    {
      ResetFileShows(S, next, use, c, path, d);
    }
  }
}
