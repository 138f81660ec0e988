// No content is left behind: what is stored under an id made for a file is the content of a
// committed file or of a pending edit, whatever was done before.
module CodebaseTidy {
  import opened Codebase
  import opened CodebaseCommit
  import opened CodebaseAfter
  import opened CodebaseErase
  import opened CodebaseReaders

  // Something has the file with this id.
  ghost predicate Had(S: Records, c: nat, p: string, i: nat) {
    || (OwnKey(c, p) in S && S[OwnKey(c, p)] == Id(i))
    || (EditKey(c, p) in S && S[EditKey(c, p)] == Id(i))
  }

  ghost predicate ContentHad(S: Records, use: map<nat, Use>, i: nat) {
    FileKey(i) in S && i in use && use[i].FileOf? ==> Had(S, use[i].cb, use[i].path, i)
  }

  ghost predicate Tidy(S: Records, use: map<nat, Use>) {
    forall i {:trigger ContentHad(S, use, i)} :: ContentHad(S, use, i)
  }

  lemma SetFileTidies(S: Records, next: nat, use: map<nat, Use>, c: nat, path: string, id: nat, data: string)
    requires Inv(S, next, use) && Tidy(S, use) && Live(S, c)
    requires if EditKey(c, path) in S then S[EditKey(c, path)] == Id(id) else id !in use
    ensures Tidy(AfterSetFile(S, c, path, id, data), use[id := FileOf(c, path)])
    ensures EditKey(c, path) in S ==> use[id := FileOf(c, path)] == use
  {
    var T, use' := AfterSetFile(S, c, path, id, data), use[id := FileOf(c, path)];
    assert EntryOk(S, use, c, path);
    forall i ensures ContentHad(T, use', i) {
      assert ContentHad(S, use, i);
      if i in use && use[i].FileOf? {
        assert EntryOk(S, use, use[i].cb, use[i].path);
      }
    }
  }

  lemma DropEditTidies(S: Records, T: Records, use: map<nat, Use>, c: nat, path: string)
    requires Tidy(S, use)
    requires forall k: Key :: k.OwnKey? || (k.EditKey? && k != EditKey(c, path)) ==> SameAt(S, T, k)
    requires forall i :: FileKey(i) in T ==>
      FileKey(i) in S && !(EditKey(c, path) in S && S[EditKey(c, path)] == Id(i))
    ensures Tidy(T, use)
  {
    forall i ensures ContentHad(T, use, i) {
      assert ContentHad(S, use, i);
      if i in use && use[i].FileOf? {
        assert SameAt(S, T, OwnKey(use[i].cb, use[i].path));
        assert EditKey(use[i].cb, use[i].path) != EditKey(c, path) ==> SameAt(S, T, EditKey(use[i].cb, use[i].path));
      }
    }
  }

  lemma EraseFileTidies(S: Records, use: map<nat, Use>, c: nat, path: string)
    requires Tidy(S, use)
    ensures Tidy(AfterEraseFile(S, c, path), use) && Tidy(AfterResetFile(S, c, path), use)
  {
    DropEditTidies(S, AfterEraseFile(S, c, path), use, c, path);
    DropEditTidies(S, AfterResetFile(S, c, path), use, c, path);
  }

  lemma SetMainTidies(S: Records, use: map<nat, Use>, c: nat, main: string)
    requires Tidy(S, use) && Live(S, c)
    ensures Tidy(AfterSetMain(S, c, main), use)
  {
    forall i ensures ContentHad(AfterSetMain(S, c, main), use, i) {
      assert ContentHad(S, use, i);
    }
  }

  lemma EditContentGoes(S: Records, c: nat, p: string, i: nat)
    ensures EditKey(c, p) in S && S[EditKey(c, p)] == Id(i) ==> FileKey(i) !in AfterReset(S, c)
  {
    if EditKey(c, p) in S && S[EditKey(c, p)] == Id(i) {
      assert EditKey(c, p) in EditKeys(S, c);
      assert FileKey(i) in ContentKeys(S, EditKeys(S, c));
    }
  }

  lemma ResetTidies(S: Records, next: nat, use: map<nat, Use>, c: nat)
    requires Inv(S, next, use) && Tidy(S, use)
    ensures Tidy(AfterReset(S, c), use)
  {
    var T := AfterReset(S, c);
    forall i ensures ContentHad(T, use, i) {
      assert ContentHad(S, use, i);
      if FileKey(i) in T && i in use && use[i].FileOf? {
        var d, p := use[i].cb, use[i].path;
        ResetDrops(S, next, use, c, OwnKey(d, p));
        ResetDrops(S, next, use, c, EditKey(d, p));
        EditContentGoes(S, c, p, i);
      }
    }
  }

  lemma CommitTidies(S: Records, T: Records, use: map<nat, Use>, use': map<nat, Use>, c: nat, v: string)
    requires Chained(S) && Live(S, c) && FilesOk(S, use) && Tidy(S, use) && Extends(use, use')
    requires Moved(S, T, use', c, v)
    ensures Tidy(T, use')
  {
    forall i ensures ContentHad(T, use', i) {
      assert ContentHad(S, use, i) && ContentMoved(S, T, use', c, i);
      if FileKey(i) in T && i in use' && use'[i].FileOf? {
        var d, p := use'[i].cb, use'[i].path;
        assert i in use && Had(S, d, p, i);
        assert EntryMoved(S, T, c, d, p) && EntryOk(S, use, d, p);
      }
    }
  }

  lemma ClaimTidies(S: Records, use: map<nat, Use>, path: string)
    requires Tidy(S, use)
    ensures Tidy(S, Claimed(S, use, path))
    ensures forall i :: i in Claimed(S, use, path) && Claimed(S, use, path)[i].FileOf? ==>
      i in use && use[i] == Claimed(S, use, path)[i]
  {
    forall i ensures ContentHad(S, Claimed(S, use, path), i) {
      assert ContentHad(S, use, i);
    }
  }

  lemma MakeTidies(S: Records, next: nat, use: map<nat, Use>, path: string, version: string, base: nat, main: string,
                   text: string)
    requires Inv(S, next, use) && Tidy(S, use) && (base == 0 || Live(S, base))
    ensures var T := AfterMake(S, next, path, version, base, main);
      Tidy(if base != 0 then T else AfterMakeMain(T, next, next + 1, text), UseAfterMake(S, next, use, path, base))
  {
    var T := AfterMake(S, next, path, version, base, main);
    var T', use' := if base != 0 then T else AfterMakeMain(T, next, next + 1, text),
                    UseAfterMake(S, next, use, path, base);
    ClaimTidies(S, use, path);
    assert EntryOk(S, use, next, MAIN);
    assert Live(S, next) ==> CodebaseOk(S, next, next);
    forall i ensures ContentHad(T', use', i) {
      assert ContentHad(S, use, i);
    }
  }

  lemma EraseTidies(S: Records, next: nat, use: map<nat, Use>, c: nat, dels: set<Key>)
    requires Inv(S, next, use) && Tidy(S, use) && Live(S, c) && ErasesExactly(S, use, c, {}, dels)
    ensures Tidy(S - dels, use)
  {
    forall i ensures ContentHad(S - dels, use, i) {
      assert ContentHad(S, use, i);
      if FileKey(i) in S - dels && i in use && use[i].FileOf? {
        var d, p := use[i].cb, use[i].path;
        ErasedWithContent(S, use, c, dels, d, p, i, OwnKey(d, p));
        ErasedWithContent(S, use, c, dels, d, p, i, EditKey(d, p));
      }
    }
  }

  // If the record of a file goes, its content does.
  lemma ErasedWithContent(S: Records, use: map<nat, Use>, c: nat, dels: set<Key>, d: nat, p: string, i: nat, k: Key)
    requires Chained(S) && Live(S, c) && ErasesExactly(S, use, c, {}, dels)
    requires k == OwnKey(d, p) || k == EditKey(d, p)
    ensures k in S && S[k] == Id(i) && k in dels ==> FileKey(i) in dels
  {
    if k in S && S[k] == Id(i) && k in dels {
      var x :| Live(S, x) && Derives(S, x, c) && ErasedWith(S, use, x, k);
      assert x == d && ContentOf(S, x, FileKey(i));
      assert Goes(S, x, FileKey(i));
    }
  }
}
