/** System.IO.Path, simplified to string functions on Windows-style paths:
    both '\' and '/' separate directories, the last separator splits a path
    into directory and file name, the last dot of the file name starts its
    extension, and Combine joins with '\'. Drive prefixes ("C:") and other
    root forms are ordinary characters here. */
module Paths {

  const Separators: set<char> := {'\\', '/'}

  /** Path.DirectorySeparatorChar on Windows. */
  const DirectorySeparator: char := '\\'

  /** The index of the last character of `s` in `cs`, or -1. */
  function LastIndexIn(s: string, cs: set<char>): (r: int)
    ensures -1 <= r < |s|
    ensures r >= 0 ==> s[r] in cs
    ensures forall k :: r < k < |s| ==> s[k] !in cs
    decreases |s|
  {
    if |s| == 0 then -1
    else if s[|s| - 1] in cs then |s| - 1
    else LastIndexIn(s[..|s| - 1], cs)
  }

  predicate HasSeparator(s: string) {
    exists i :: 0 <= i < |s| && s[i] in Separators
  }

  /** Path.GetFileName: what follows the last separator. */
  function GetFileName(path: string): (r: string)
    ensures !HasSeparator(r)
    ensures |r| <= |path| && r == path[|path| - |r|..]
    ensures !HasSeparator(path) ==> r == path
  {
    path[LastIndexIn(path, Separators) + 1..]
  }

  /** Path.GetDirectoryName: what precedes the last separator; the empty
      string when there is none. */
  function GetDirectoryName(path: string): (r: string)
    ensures !HasSeparator(path) ==> r == ""
    ensures HasSeparator(path) ==>
      |r| < |path| && path == r + [path[|r|]] + GetFileName(path) && path[|r|] in Separators
  {
    var i := LastIndexIn(path, Separators);
    if i < 0 then "" else path[..i]
  }

  /** Path.GetExtension: the file name from its last dot on, or the empty
      string when it has no dot or ends with one. */
  function GetExtension(path: string): (r: string)
    ensures r == "" || (r[0] == '.' && |r| >= 2)
  {
    var name := GetFileName(path);
    var j := LastIndexIn(name, {'.'});
    if j < 0 || j == |name| - 1 then "" else name[j..]
  }

  /** Path.GetFileNameWithoutExtension: the file name up to its last dot. */
  function GetFileNameWithoutExtension(path: string): (r: string)
    ensures !HasSeparator(r)
  {
    var name := GetFileName(path);
    var j := LastIndexIn(name, {'.'});
    if j < 0 then name else name[..j]
  }

  /** Path.IsPathRooted, restricted to a leading separator. */
  predicate IsRooted(path: string) {
    |path| > 0 && path[0] in Separators
  }

  /** Path.Combine(a, b). */
  function Combine(a: string, b: string): string {
    if b == "" then a
    else if a == "" || IsRooted(b) then b
    else if a[|a| - 1] in Separators then a + b
    else a + [DirectorySeparator] + b
  }

  /** The file name is the stem followed by the extension, unless the name
      ends with a dot (which the extension drops). */
  lemma StemAndExtension(path: string)
    requires var n := GetFileName(path); |n| == 0 || n[|n| - 1] != '.'
    ensures GetFileNameWithoutExtension(path) + GetExtension(path) == GetFileName(path)
  {
  }

  /** Combining a directory with a plain name: the name is the file name of
      the result, and a directory that does not end with a separator is its
      directory name. */
  lemma CombineSplits(dir: string, name: string)
    requires name != "" && !HasSeparator(name)
    ensures GetFileName(Combine(dir, name)) == name
    ensures dir != "" && dir[|dir| - 1] !in Separators ==> GetDirectoryName(Combine(dir, name)) == dir
  {
    var c := Combine(dir, name);
    if dir != "" {
      var k := if dir[|dir| - 1] in Separators then |dir| - 1 else |dir|;
      assert c[k] in Separators;
      assert c[k + 1..] == name;
      assert forall j :: k < j < |c| ==> c[j] == name[j - k - 1];
      assert LastIndexIn(c, Separators) == k;
      if dir[|dir| - 1] !in Separators {
        assert c[..k] == dir;
      }
    }
  }

  /** A name built from plain pieces stays plain. */
  lemma PlainConcat(a: string, b: string)
    requires !HasSeparator(a) && !HasSeparator(b)
    ensures !HasSeparator(a + b)
  {
    assert forall i :: 0 <= i < |a + b| ==> (a + b)[i] == if i < |a| then a[i] else b[i - |a|];
  }

  /** Combine with a plain, non-empty name never produces the empty path or
      one ending with a separator. */
  lemma CombineEndsWithName(dir: string, name: string)
    requires name != "" && !HasSeparator(name)
    ensures Combine(dir, name) != "" && Combine(dir, name)[|Combine(dir, name)| - 1] !in Separators
  {
    assert name[|name| - 1] !in Separators;
  }

  /** The last dot of a file name, followed by at least one character and
      no other dot, starts its extension. */
  lemma ExtensionAfterLastDot(path: string, k: nat)
    requires var name := GetFileName(path);
      && k < |name| - 1 && name[k] == '.'
      && forall j :: k < j < |name| ==> name[j] != '.'
    ensures GetExtension(path) == GetFileName(path)[k..]
  {
    var name := GetFileName(path);
    var r := LastIndexIn(name, {'.'});
    assert r >= k;
    assert r <= k;
  }
}
