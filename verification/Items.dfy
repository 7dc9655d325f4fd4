/** The records the download client passes around, and lists without repetition. Dictionaries with
    optional keys are datatypes whose optional fields are options; where the code reads a key with a
    default, the field holds the value with the default filled in. What only ends up in traces or log
    messages is not part of the records. Sets are listed in an arbitrary order, as Python lists them,
    which is why the order of a list made from a set is never relied on. Identities of file items are
    their positions in the list. */
module Items {
  import opened Wrappers

  datatype Did = Did(scope: string, name: string)

  /** A replica. `clientExtract` marks one that has to be unpacked from an archive by the client. */
  datatype Source = Source(pfn: string, rse: string, clientExtract: bool, priority: int)

  /** One request of the user, defaults filled in where the code has one. Speeds are in kB/s;
      `nrandom` is 0 when it is not given; `dids` are the DIDs the item was resolved to. */
  datatype InputItem = InputItem(
    baseDir: string, noSubdir: bool, ignoreChecksum: bool, sizeOnly: bool,
    noResolveArchives: Option<bool>, rse: Option<string>, scheme: Option<string>,
    timeout: Option<int>, speed: Option<real>, nrandom: nat, dids: seq<Did>)

  /** A file to download; `inputDids` are the requested DIDs it answers: itself or datasets holding it. */
  datatype FileItem = FileItem(did: Did, inputDids: seq<Did>, sources: seq<Source>)

  /** The items asking for a DID, as far as an index from DIDs to items knows. */
  function ItemsFor(requests: map<Did, seq<InputItem>>, d: Did): seq<InputItem> {
    if d in requests then requests[d] else []
  }

  predicate NoRepeats<T(==)>(s: seq<T>) { forall i, j :: 0 <= i < j < |s| ==> s[i] != s[j] }

  /** `NoRepeats`, from the end. */
  predicate Distinct<T(==)>(s: seq<T>) {
    s == [] || (s[|s| - 1] !in s[..|s| - 1] && Distinct(s[..|s| - 1]))
  }

  lemma {:induction false} DistinctIsNoRepeats<T>(s: seq<T>)
    ensures Distinct(s) <==> NoRepeats(s)
  {
    if s != [] {
      var init := s[..|s| - 1];
      DistinctIsNoRepeats(init);
      assert forall i :: 0 <= i < |init| ==> init[i] == s[i];
    }
  }

  lemma DistinctSnoc<T>(s: seq<T>, x: T)
    ensures Distinct(s + [x]) <==> Distinct(s) && x !in s
  {
    assert (s + [x])[..|s|] == s;
  }

  /** A list that repeats itself still does when it goes on. */
  lemma {:induction false} DistinctPrefix<T>(s: seq<T>, rest: seq<T>)
    requires Distinct(s + rest)
    ensures Distinct(s)
  {
    if rest == [] {
      assert s + rest == s;
    } else {
      var init := rest[..|rest| - 1];
      assert (s + rest)[..|s + rest| - 1] == s + init;
      DistinctPrefix(s, init);
    }
  }

  lemma {:induction false} DistinctConcat<T>(a: seq<T>, b: seq<T>, x: T)
    requires Distinct(a + b) && x in a
    ensures x !in b
  {
    if b != [] {
      var init := b[..|b| - 1];
      assert (a + b)[..|a + b| - 1] == a + init;
      DistinctConcat(a, init, x);
      assert b == init + [b[|b| - 1]];
    }
  }

  /** `list(s)`: the elements of a set, each once, in an arbitrary order. */
  method Enumerate<T(==)>(s: set<T>) returns (l: seq<T>)
    ensures NoRepeats(l)
    ensures forall x :: x in s <==> x in l
  {
    l := [];
    var todo := s;
    while todo != {}
      invariant todo <= s && Distinct(l)
      invariant forall x :: x in s && x !in todo <==> x in l
      decreases todo
    {
      var x :| x in todo;
      DistinctSnoc(l, x);
      l, todo := l + [x], todo - {x};
    }
    DistinctIsNoRepeats(l);
  }
}
