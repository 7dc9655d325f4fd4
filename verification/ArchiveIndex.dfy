/** The two inverted indexes of the download planner. */
module ArchiveIndex {
  // The indexes lead from archives to files and from files to archives. Three passes work on them in
  // place: promotion of mixed archives, removal of redundant archives, assignment of each file to one
  // archive. Every pass visits keys in an arbitrary order, so what is proved holds for every iteration
  // order of the dicts and sets.

  type Archive = string
  /** Identity of a file item: its position in the list of file items. */
  type Fiid = nat

  /** `files` is the dict kept beside the items, `archives` the set stored in each item. */
  datatype Index = Index(files: map<Archive, set<Fiid>>, archives: map<Fiid, set<Archive>>)

  /** The two directions say the same thing. */
  ghost predicate Inverse(ix: Index) {
    && (forall a, f {:trigger f in ix.files[a]} :: a in ix.files && f in ix.files[a] ==> f in ix.archives && a in ix.archives[f])
    && (forall f, a {:trigger a in ix.archives[f]} :: f in ix.archives && a in ix.archives[f] ==> a in ix.files && f in ix.files[a])
  }

  /** Every indexed file has an archive. */
  ghost predicate Covered(ix: Index) {
    forall f :: f in ix.archives ==> ix.archives[f] != {}
  }

  ghost predicate HasFile(ix: Index, a: Archive) { a in ix.files && ix.files[a] != {} }

  /** No archive is empty. */
  ghost predicate NoneEmpty(ix: Index) {
    forall a {:trigger HasFile(ix, a)} :: a in ix.files ==> HasFile(ix, a)
  }

  /** No file is both pure and mixed. */
  ghost predicate Separate(pure: Index, mixed: Index) {
    pure.archives.Keys !! mixed.archives.Keys
  }

  /** `d.setdefault(k, set()).add(x)` on a dict of sets. */
  function AddTo<K, V>(d: map<K, set<V>>, k: K, x: V): map<K, set<V>> {
    d[k := (if k in d then d[k] else {}) + {x}]
  }

  lemma {:induction false} SubsetSize<T>(s: set<T>, t: set<T>)
    requires s <= t
    ensures |s| <= |t|
  {
    if s != {} {
      var x :| x in s;
      SubsetSize(s - {x}, t - {x});
    }
  }

  lemma SingleElement<T>(s: set<T>, x: T)
    requires x in s && |s| <= 1
    ensures s == {x}
  {
    if s - {x} != {} {
      var y :| y in s - {x};
      SubsetSize({x, y}, s);
    }
  }

  // ---------------------------------------------------------------- promotion

  /** Forgets file `f` in every mixed archive of `archives`. Each removal finds its element. */
  method ForgetFile(files0: map<Archive, set<Fiid>>, f: Fiid, archives: set<Archive>)
    returns (files: map<Archive, set<Fiid>>)
    requires forall a :: a in archives ==> a in files0 && f in files0[a]
    ensures files.Keys == files0.Keys
    ensures forall a :: a in files ==> files[a] == if a in archives then files0[a] - {f} else files0[a]
  {
    files := files0;
    var todo := archives;
    while todo != {}
      invariant todo <= archives
      invariant files.Keys == files0.Keys
      invariant forall a :: a in files ==>
                  files[a] == if a in archives && a !in todo then files0[a] - {f} else files0[a]
      decreases todo
    {
      var a :| a in todo;
      assert f in files[a];
      files := files[a := files[a] - {f}];
      todo := todo - {a};
    }
  }

  /** The `moved` files are pure in `a` alone. */
  ghost predicate PureGains(pure0: Index, a: Archive, moved: set<Fiid>, pure: Index) {
    && (forall f :: f in pure.archives <==> f in pure0.archives || f in moved)
    && (forall f :: f in pure.archives ==> pure.archives[f] == if f in moved then {a} else pure0.archives[f])
    && pure.files.Keys == pure0.files.Keys + {a}
    && (forall b :: b in pure.files ==>
          pure.files[b] == (if b in pure0.files then pure0.files[b] else {}) + (if b == a then moved else {}))
  }

  /** The `moved` files and the archives `gone` have left the mixed index. */
  ghost predicate MixedLoses(mixed0: Index, moved: set<Fiid>, gone: set<Archive>, mixed: Index) {
    && (forall f :: f in mixed.archives <==> f in mixed0.archives && f !in moved)
    && (forall f :: f in mixed.archives ==> mixed.archives[f] == mixed0.archives[f])
    && mixed.files.Keys == mixed0.files.Keys - gone
    && (forall b :: b in mixed.files ==> mixed.files[b] == mixed0.files[b] - moved)
  }

  lemma PureGainsKeepsInverse(pure0: Index, a: Archive, moved: set<Fiid>, pure: Index)
    requires Inverse(pure0) && moved !! pure0.archives.Keys
    requires PureGains(pure0, a, moved, pure)
    ensures Inverse(pure)
    ensures Covered(pure0) ==> Covered(pure)
  {
    assert forall f :: f in moved ==> f !in pure0.archives;
  }

  lemma MixedLosesKeepsInverse(mixed0: Index, moved: set<Fiid>, gone: set<Archive>, mixed: Index)
    requires Inverse(mixed0) && forall a :: a in gone && a in mixed0.files ==> mixed0.files[a] <= moved
    requires MixedLoses(mixed0, moved, gone, mixed)
    ensures Inverse(mixed)
  {}

  /** Pops the mixed archives of file `f` and removes the file from each of them. */
  method UnmixFile(mixed0: Index, f: Fiid) returns (mixed: Index)
    requires Inverse(mixed0) && f in mixed0.archives
    ensures MixedLoses(mixed0, {f}, {}, mixed)
  {
    var files := ForgetFile(mixed0.files, f, mixed0.archives[f]);
    mixed := Index(files, mixed0.archives - {f});
  }

  /** Moves archive `a` and all its files from the mixed to the pure index. */
  method PromoteArchive(pure0: Index, mixed0: Index, a: Archive) returns (pure: Index, mixed: Index)
    requires Inverse(mixed0) && Separate(pure0, mixed0)
    requires a in mixed0.files
    ensures PureGains(pure0, a, mixed0.files[a], pure)
    ensures MixedLoses(mixed0, mixed0.files[a], {a}, mixed)
  {
    var moving := mixed0.files[a];
    var pureFiles := pure0.files[a := (if a in pure0.files then pure0.files[a] else {}) + moving];
    var pureArchives, moved, todo := pure0.archives, {}, moving;
    mixed := mixed0;
    while todo != {}
      invariant moved <= moving && todo == moving - moved
      invariant forall f :: f in pureArchives <==> f in pure0.archives || f in moved
      invariant forall f :: f in pureArchives ==>
                  pureArchives[f] == if f in moved then {a} else pure0.archives[f]
      invariant Inverse(mixed) && MixedLoses(mixed0, moved, {}, mixed)
      decreases todo
    {
      var f :| f in todo;
      pureArchives := AddTo(pureArchives, f, a);
      var mixed1 := UnmixFile(mixed, f);
      MixedLosesKeepsInverse(mixed, {f}, {}, mixed1);
      mixed, moved, todo := mixed1, moved + {f}, todo - {f};
    }
    pure, mixed := Index(pureFiles, pureArchives), Index(mixed.files - {a}, mixed.archives);
  }

  /** What one pass of promotion may do to the files: a pure file is untouched, a mixed file
      either keeps all its mixed archives or is pure in exactly one of them. */
  ghost predicate FilesPromoted(pure0: Index, mixed0: Index, pure: Index, mixed: Index) {
    && (forall f :: f in pure.archives ==> f in pure0.archives || f in mixed0.archives)
    && (forall f :: f in mixed0.archives ==> f in pure.archives || f in mixed.archives)
    && (forall f :: f in pure0.archives ==> f in pure.archives && pure.archives[f] == pure0.archives[f])
    && (forall f :: f in mixed.archives ==> f in mixed0.archives && mixed.archives[f] == mixed0.archives[f])
    && (forall f :: f in mixed0.archives && f in pure.archives ==> OneOf(pure.archives[f], mixed0.archives[f]))
  }

  /** `chosen` is a single element of `candidates`. */
  ghost predicate OneOf(chosen: set<Archive>, candidates: set<Archive>) {
    |chosen| == 1 && chosen <= candidates
  }

  /** An archive is pure afterwards because it was before, or because it holds enough files. */
  ghost predicate Justified(pure0: Index, pure: Index, threshold: int) {
    && pure0.files.Keys <= pure.files.Keys
    && forall a :: a in pure.files ==> a in pure0.files || |pure.files[a]| >= threshold
  }

  /** None of the mixed archives in `visited` has a reason to be promoted. */
  ghost predicate NothingToPromote(pure: Index, mixed: Index, threshold: int, visited: set<Archive>) {
    forall a :: a in mixed.files && a in visited ==> a !in pure.files && |mixed.files[a]| < threshold
  }

  /** Promoting `a` gives no earlier visited archive a reason to be promoted, although it shrinks them. */
  lemma PromotionKeepsVisited(pure0: Index, mixed0: Index, a: Archive, pure: Index, mixed: Index,
                              threshold: int, visited: set<Archive>)
    requires a in mixed0.files && a !in visited
    requires PureGains(pure0, a, mixed0.files[a], pure) && MixedLoses(mixed0, mixed0.files[a], {a}, mixed)
    requires NothingToPromote(pure0, mixed0, threshold, visited)
    ensures NothingToPromote(pure, mixed, threshold, visited + {a})
  {
    forall b | b in mixed.files && b in visited + {a}
      ensures b !in pure.files && |mixed.files[b]| < threshold
    {
      SubsetSize(mixed.files[b], mixed0.files[b]);
    }
  }

  lemma PromotionMovesFiles(pure0: Index, mixed0: Index, pure1: Index, mixed1: Index,
                            a: Archive, pure2: Index, mixed2: Index)
    requires Inverse(mixed1) && Separate(pure1, mixed1)
    requires FilesPromoted(pure0, mixed0, pure1, mixed1)
    requires a in mixed1.files
    requires PureGains(pure1, a, mixed1.files[a], pure2) && MixedLoses(mixed1, mixed1.files[a], {a}, mixed2)
    ensures FilesPromoted(pure0, mixed0, pure2, mixed2)
    ensures Separate(pure2, mixed2)
  {
    forall f | f in mixed0.archives && f in pure2.archives
      ensures OneOf(pure2.archives[f], mixed0.archives[f])
    {
      if f in mixed1.files[a] {
        assert a in mixed1.archives[f];
      }
    }
  }

  lemma PromotionIsJustified(pure0: Index, pure1: Index, a: Archive, moved: set<Fiid>, pure2: Index, threshold: int)
    requires Justified(pure0, pure1, threshold)
    requires a in pure1.files || |moved| >= threshold
    requires PureGains(pure1, a, moved, pure2)
    ensures Justified(pure0, pure2, threshold)
  {
    forall b | b in pure2.files
      ensures b in pure0.files || |pure2.files[b]| >= threshold
    {
      if b in pure1.files {
        SubsetSize(pure1.files[b], pure2.files[b]);
      } else {
        assert pure2.files[b] == moved;
      }
    }
  }

  /** One pass over the mixed archives reaches the fixpoint. */
  method Promote(pure0: Index, mixed0: Index, threshold: int) returns (pure: Index, mixed: Index)
    requires Inverse(pure0) && Inverse(mixed0) && Separate(pure0, mixed0)
    ensures Inverse(pure) && Inverse(mixed) && Separate(pure, mixed)
    ensures Covered(pure0) ==> Covered(pure)
    ensures NothingToPromote(pure, mixed, threshold, mixed.files.Keys)
    ensures Justified(pure0, pure, threshold)
    ensures FilesPromoted(pure0, mixed0, pure, mixed)
  {
    pure, mixed := pure0, mixed0;
    var todo, visited := mixed0.files.Keys, {};
    while todo != {}
      invariant Inverse(pure) && Inverse(mixed) && Separate(pure, mixed)
      invariant Covered(pure0) ==> Covered(pure)
      invariant todo !! visited
      invariant todo <= mixed.files.Keys <= todo + visited
      invariant NothingToPromote(pure, mixed, threshold, visited)
      invariant Justified(pure0, pure, threshold)
      invariant FilesPromoted(pure0, mixed0, pure, mixed)
      decreases todo
    {
      var a :| a in todo;
      if a in pure.files || |mixed.files[a]| >= threshold {
        var pure1, mixed1 := PromoteArchive(pure, mixed, a);
        PureGainsKeepsInverse(pure, a, mixed.files[a], pure1);
        MixedLosesKeepsInverse(mixed, mixed.files[a], {a}, mixed1);
        PromotionKeepsVisited(pure, mixed, a, pure1, mixed1, threshold, visited);
        PromotionMovesFiles(pure0, mixed0, pure, mixed, a, pure1, mixed1);
        PromotionIsJustified(pure0, pure, a, mixed.files[a], pure1, threshold);
        pure, mixed := pure1, mixed1;
      }
      todo, visited := todo - {a}, visited + {a};
    }
  }

  // ------------------------------------------------------------------ pruning

  /** File `f` is in archive `a` and in no other. */
  ghost predicate OnlyIn(ix: Index, f: Fiid, a: Archive) {
    a in ix.files && f in ix.files[a] && f in ix.archives && ix.archives[f] == {a}
  }

  /** Every archive holds a file that no other archive holds. */
  ghost predicate Irredundant(ix: Index, among: set<Archive>) {
    forall a {:trigger HasPrivate(ix, a)} :: a in ix.files && a in among ==> HasPrivate(ix, a)
  }

  ghost predicate HasPrivate(ix: Index, a: Archive) { exists f :: OnlyIn(ix, f, a) }

  /** `ix` is `ix0` with only some of the archives, every file still being covered. */
  ghost predicate Restriction(ix0: Index, ix: Index) {
    && ix.files.Keys <= ix0.files.Keys
    && (forall a :: a in ix.files ==> ix.files[a] == ix0.files[a])
    && ix.archives.Keys == ix0.archives.Keys
    && (forall f :: f in ix.archives ==> ix.archives[f] == ix0.archives[f] * ix.files.Keys)
  }

  /** Every file of `a` can be taken from another archive too. */
  predicate Redundant(ix: Index, a: Archive)
    requires a in ix.files && ix.files[a] <= ix.archives.Keys
  {
    forall f :: f in ix.files[a] ==> |ix.archives[f]| > 1
  }

  /** Drops archive `a` and every reference to it; no file is left without an archive. */
  method DropArchive(ix0: Index, a: Archive) returns (ix: Index)
    requires Inverse(ix0) && Covered(ix0) && a in ix0.files && Redundant(ix0, a)
    ensures Inverse(ix) && Covered(ix) && Restriction(ix0, ix) && ix.files.Keys == ix0.files.Keys - {a}
  {
    var archives, todo := ix0.archives, ix0.files[a];
    while todo != {}
      invariant todo <= ix0.files[a]
      invariant archives.Keys == ix0.archives.Keys
      invariant forall f :: f in archives ==>
                  archives[f] == if f in ix0.files[a] && f !in todo then ix0.archives[f] - {a} else ix0.archives[f]
      decreases todo
    {
      var f :| f in todo;
      archives := archives[f := archives[f] - {a}];
      todo := todo - {f};
    }
    ix := Index(ix0.files - {a}, archives);
    forall f | f in ix0.files[a]
      ensures archives[f] != {}
    {
      SubsetSize(ix0.archives[f], archives[f] + {a});
    }
  }

  lemma DropKeepsPrivateFiles(ix0: Index, ix: Index, a: Archive, among: set<Archive>)
    requires Inverse(ix0) && Restriction(ix0, ix) && ix.files.Keys == ix0.files.Keys - {a}
    requires Irredundant(ix0, among)
    ensures Irredundant(ix, among + {a})
  {
    forall b | b in ix.files && b in among + {a}
      ensures HasPrivate(ix, b)
    {
      assert HasPrivate(ix0, b);
      var f :| OnlyIn(ix0, f, b);
      assert OnlyIn(ix, f, b);
    }
  }

  lemma RestrictionTransitive(ix0: Index, ix1: Index, ix2: Index)
    requires Restriction(ix0, ix1) && Restriction(ix1, ix2)
    ensures Restriction(ix0, ix2)
  {}

  /** Removing redundant archives keeps every file covered and ends in an irredundant cover. */
  method Prune(ix0: Index) returns (ix: Index)
    requires Inverse(ix0) && Covered(ix0)
    ensures Inverse(ix) && Covered(ix) && Restriction(ix0, ix)
    ensures Irredundant(ix, ix.files.Keys)
  {
    ix := ix0;
    var todo, visited := ix0.files.Keys, {};
    while todo != {}
      invariant Inverse(ix) && Covered(ix) && Restriction(ix0, ix)
      invariant todo !! visited && todo <= ix.files.Keys <= todo + visited
      invariant Irredundant(ix, visited)
      decreases todo
    {
      var a :| a in todo;
      if Redundant(ix, a) {
        var ix1 := DropArchive(ix, a);
        DropKeepsPrivateFiles(ix, ix1, a, visited);
        RestrictionTransitive(ix0, ix, ix1);
        ix := ix1;
      } else {
        var f :| f in ix.files[a] && |ix.archives[f]| <= 1;
        SingleElement(ix.archives[f], a);
        assert HasPrivate(ix, a) by { assert OnlyIn(ix, f, a); }
      }
      todo, visited := todo - {a}, visited + {a};
    }
  }

  // --------------------------------------------------------------- assignment

  /** The files of `settled` belong to `a` alone; everything else is as before. */
  ghost predicate Settled(ix0: Index, a: Archive, settled: set<Fiid>, ix: Index) {
    && ix.archives.Keys == ix0.archives.Keys
    && (forall f :: f in ix.archives ==> ix.archives[f] == if f in settled then {a} else ix0.archives[f])
    && ix.files.Keys == ix0.files.Keys
    && (forall b :: b in ix.files ==> ix.files[b] == if b == a then ix0.files[b] else ix0.files[b] - settled)
  }

  lemma SettledKeepsInverse(ix0: Index, a: Archive, settled: set<Fiid>, ix: Index)
    requires Inverse(ix0) && a in ix0.files && settled <= ix0.files[a]
    requires Settled(ix0, a, settled, ix)
    ensures Inverse(ix)
    ensures Covered(ix0) ==> Covered(ix)
  {}

  /** Takes file `f` away from every archive but `a`. */
  method KeepOnly(ix0: Index, f: Fiid, a: Archive) returns (ix: Index)
    requires Inverse(ix0) && a in ix0.files && f in ix0.files[a]
    ensures Settled(ix0, a, {f}, ix)
  {
    var files, keep, todo := ix0.files, ix0.archives[f], ix0.archives[f];
    while todo != {}
      invariant todo <= ix0.archives[f]
      invariant keep == todo + {a}
      invariant files.Keys == ix0.files.Keys
      invariant forall b :: b in files ==>
                  files[b] == if b != a && b in ix0.archives[f] && b !in todo then ix0.files[b] - {f} else ix0.files[b]
      decreases todo
    {
      var other :| other in todo;
      todo := todo - {other};
      if other != a {
        files := files[other := files[other] - {f}];
        keep := keep - {other};
      }
    }
    ix := Index(files, ix0.archives[f := keep]);
  }

  /** Settles all files of `a`. The set the loop walks over is never changed by its own body. */
  method SettleArchive(ix0: Index, a: Archive) returns (ix: Index)
    requires Inverse(ix0) && a in ix0.files
    ensures Settled(ix0, a, ix0.files[a], ix)
  {
    ix := ix0;
    var todo := ix0.files[a];
    while todo != {}
      invariant todo <= ix0.files[a]
      invariant Inverse(ix)
      invariant a in ix.files && ix.files[a] == ix0.files[a]
      invariant Settled(ix0, a, ix0.files[a] - todo, ix)
      decreases todo
    {
      var f :| f in todo;
      var ix1 := KeepOnly(ix, f, a);
      SettledKeepsInverse(ix, a, {f}, ix1);
      todo, ix := todo - {f}, ix1;
    }
  }

  /** Each file of `ix0` is in exactly one of the archives that held it; no archive is empty. */
  ghost predicate Assigned(ix0: Index, ix: Index) {
    && ix.files.Keys == ix0.files.Keys
    && ix.archives.Keys == ix0.archives.Keys
    && (forall f :: f in ix.archives ==> OneOf(ix.archives[f], ix0.archives[f]))
    && NoneEmpty(ix)
  }

  /** All files of the archives in `visited` are settled, none has gained an archive. */
  ghost predicate PartlyAssigned(ix0: Index, ix: Index, visited: set<Archive>) {
    && ix.files.Keys == ix0.files.Keys
    && ix.archives.Keys == ix0.archives.Keys
    && (forall f :: f in ix.archives ==> ix.archives[f] <= ix0.archives[f])
    && (forall a, f {:trigger f in ix.files[a]} :: a in visited && a in ix.files && f in ix.files[a] ==> f in ix.archives && ix.archives[f] == {a})
  }

  lemma SettlingKeepsVisited(ix0: Index, ix1: Index, a: Archive, ix2: Index, visited: set<Archive>)
    requires Inverse(ix1) && a in ix1.files && a !in visited
    requires PartlyAssigned(ix0, ix1, visited)
    requires Settled(ix1, a, ix1.files[a], ix2)
    ensures PartlyAssigned(ix0, ix2, visited + {a})
  {}

  lemma AllVisitedIsAssigned(ix0: Index, ix: Index, visited: set<Archive>)
    requires Inverse(ix) && Covered(ix)
    requires PartlyAssigned(ix0, ix, visited) && ix.files.Keys <= visited
    requires Irredundant(ix0, ix0.files.Keys)
    ensures Assigned(ix0, ix)
  {
    forall f | f in ix.archives
      ensures OneOf(ix.archives[f], ix0.archives[f])
    {
      var a :| a in ix.archives[f];
      assert f in ix.files[a];
      assert ix.archives[f] == {a};
    }
    forall a | a in ix.files
      ensures HasFile(ix, a)
    {
      assert HasPrivate(ix0, a);
      var f :| OnlyIn(ix0, f, a);
      var b :| b in ix.archives[f];
      assert b in ix0.archives[f];
      assert f in ix.files[a];
    }
  }

  /** The irredundant cover becomes a partition of the files. */
  method Assign(ix0: Index) returns (ix: Index)
    requires Inverse(ix0) && Covered(ix0) && Irredundant(ix0, ix0.files.Keys)
    ensures Inverse(ix) && Assigned(ix0, ix)
  {
    ix := ix0;
    var todo, visited := ix0.files.Keys, {};
    while todo != {}
      invariant Inverse(ix) && Covered(ix)
      invariant todo !! visited && todo <= ix.files.Keys <= todo + visited
      invariant PartlyAssigned(ix0, ix, visited)
      decreases todo
    {
      var a :| a in todo;
      var ix1 := SettleArchive(ix, a);
      SettledKeepsInverse(ix, a, ix.files[a], ix1);
      SettlingKeepsVisited(ix0, ix, a, ix1, visited);
      ix, todo, visited := ix1, todo - {a}, visited + {a};
    }
    AllVisitedIsAssigned(ix0, ix, visited);
  }
}
