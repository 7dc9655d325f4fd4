/** Paths as strings with slashes. Joining follows `os.path.join` on two parts: a second part that
    starts with a slash replaces the first, and a slash is put between the two unless there is one.
    The last component is what stands behind the last slash, which may be nothing. No component is
    looked up in a file system here, none is normalised, and two dots mean nothing: what the absolute
    path of a base directory is comes in as a parameter of the modules that need it. Everything that
    depends on names of files, such as the temporary path beside a destination, is in the modules that
    use it, and so is the question which paths can be the same. */
module Paths {

  predicate StartsWithSlash(s: string) { s != "" && s[0] == '/' }

  function DropSlash(s: string): string { if StartsWithSlash(s) then s[1..] else s }

  /** `os.path.join` of two parts. */
  function JoinPath(a: string, b: string): string {
    if StartsWithSlash(b) then b
    else if a == "" || a[|a| - 1] == '/' then a + b
    else a + "/" + b
  }

  /** The part behind the last slash: `s.split('/')[-1]`. */
  function Tail(s: string): string {
    if s == "" || s[|s| - 1] == '/' then "" else Tail(s[..|s| - 1]) + [s[|s| - 1]]
  }

  /** It is what follows the last slash, or everything. */
  lemma {:induction false} TailIsLast(s: string) returns (head: string)
    ensures s == head + Tail(s) && '/' !in Tail(s)
    ensures head == "" || head[|head| - 1] == '/'
  {
    if s == "" || s[|s| - 1] == '/' {
      head := s;
    } else {
      head := TailIsLast(s[..|s| - 1]);
      assert s == s[..|s| - 1] + [s[|s| - 1]];
    }
  }

  lemma {:induction false} TailConcat(a: string, b: string)
    ensures Tail(a + b) == if '/' in b then Tail(b) else Tail(a) + b
  {
    if b == "" {
      assert a + b == a;
    } else {
      var init := b[..|b| - 1];
      assert (a + b)[..|a + b| - 1] == a + init;
      assert b == init + [b[|b| - 1]];
      TailConcat(a, init);
    }
  }
}
