/** The file system as a value: the directories that exist and the content
    of every file. Reading it is File.Exists; Directory.CreateDirectory
    records the one directory it names (doing nothing when it is already
    there; its missing ancestors are not recorded) and every write creates
    or overwrites one file. */
module Storage {
  import opened Wrappers
  import Seqs

  /** The encoders the core names (SKEncodedImageFormat, and the ImageSharp
      and OpenCV encoders). */
  datatype ImageFormat = Png | Jpeg | Webp | Bmp | Gif

  datatype Content =
    | Text(text: string)                        // a text file written at once
    | PageImage(source: string, page: nat, format: ImageFormat, quality: Option<int>)
    | Visualization(source: string)             // boxes drawn over a recognised image
    | UserFile                                  // a file the user supplied

  datatype Disk = Disk(dirs: set<string>, files: map<string, Content>)

  /** File.Exists. */
  predicate Exists(d: Disk, path: string) {
    path in d.files
  }

  /** Directory.CreateDirectory, recording the named directory only. */
  function CreateDirectory(d: Disk, dir: string): Disk {
    d.(dirs := d.dirs + {dir})
  }

  /** A FileStream opened with FileMode.Create, StreamWriter(path, false),
      File.WriteAllText or an encoder's Save: the file is replaced. */
  function WriteFile(d: Disk, path: string, c: Content): Disk {
    d.(files := d.files[path := c])
  }

  /** A write leaves every other file as it was. */
  lemma WriteElsewhere(d: Disk, path: string, c: Content, k: string)
    requires k in d.files && k != path
    ensures k in WriteFile(d, path, c).files && WriteFile(d, path, c).files[k] == d.files[k]
  {
  }

  /** The disk after `n` writes in turn, write `i` putting `content(i)` at
      `path(i)`: a loop that saves one file per iteration. */
  function WriteEach(d: Disk, n: nat, path: nat -> string, content: nat -> Content): Disk
    decreases n
  {
    if n == 0 then d else WriteFile(WriteEach(d, n - 1, path, content), path(n - 1), content(n - 1))
  }

  /** The loop adds exactly its paths, and no directory. */
  lemma {:induction false} WriteEachKeys(d: Disk, n: nat, path: nat -> string, content: nat -> Content)
    ensures WriteEach(d, n, path, content).files.Keys == d.files.Keys + (set i | 0 <= i < n :: path(i))
    ensures WriteEach(d, n, path, content).dirs == d.dirs
    decreases n
  {
    if n > 0 {
      WriteEachKeys(d, n - 1, path, content);
      assert (set i | 0 <= i < n :: path(i)) == (set i | 0 <= i < n - 1 :: path(i)) + {path(n - 1)};
    }
  }

  /** A file no later write replaces holds what its own write put there. */
  lemma {:induction false} WriteEachContents(d: Disk, n: nat, path: nat -> string, content: nat -> Content, i: nat)
    requires i < n
    requires forall j :: i < j < n ==> path(j) != path(i)
    ensures path(i) in WriteEach(d, n, path, content).files
    ensures WriteEach(d, n, path, content).files[path(i)] == content(i)
    decreases n
  {
    if i < n - 1 {
      WriteEachContents(d, n - 1, path, content, i);
    }
  }

  /** The disk `d` with everything `e` holds laid over it: `e`'s files
      replace `d`'s files at the same paths. */
  function Overlay(d: Disk, e: Disk): (r: Disk)
    ensures r.dirs == d.dirs + e.dirs && r.files.Keys == d.files.Keys + e.files.Keys
    ensures forall k :: k in r.files ==> r.files[k] == if k in e.files then e.files[k] else d.files[k]
  {
    Disk(d.dirs + e.dirs, d.files + e.files)
  }

  const EmptyDisk: Disk := Disk({}, map[])

  lemma OverlayEmpty(d: Disk)
    ensures Overlay(d, EmptyDisk) == d
  {
    assert Overlay(d, EmptyDisk).files == d.files;
  }

  /** A write lands on top of whatever the disk held. */
  lemma WriteOverlay(d: Disk, e: Disk, path: string, c: Content)
    ensures WriteFile(Overlay(d, e), path, c) == Overlay(d, WriteFile(e, path, c))
  {
    assert WriteFile(Overlay(d, e), path, c).files == Overlay(d, WriteFile(e, path, c)).files;
  }

  lemma CreateOverlay(d: Disk, e: Disk, dir: string)
    ensures CreateDirectory(Overlay(d, e), dir) == Overlay(d, CreateDirectory(e, dir))
  {
  }

  /** Laying `e2` over `e1` hides `e1` entirely when `e2` covers every path
      of `e1`. */
  lemma OverlayAbsorb(d: Disk, e1: Disk, e2: Disk)
    requires e1.files.Keys <= e2.files.Keys && e1.dirs <= e2.dirs
    ensures Overlay(Overlay(d, e1), e2) == Overlay(d, e2)
  {
    assert Overlay(Overlay(d, e1), e2).files == Overlay(d, e2).files;
  }

  /** The disk after `step` has run for each element of `s` in turn. */
  function Fold<T>(d: Disk, s: seq<T>, step: (Disk, T) -> Disk): Disk
    decreases |s|
  {
    if |s| == 0 then d else step(Fold(d, s[..|s| - 1], step), s[|s| - 1])
  }

  /** When every step either writes `k` (exactly when `W` holds, with the
      content `V` gives) or leaves `k` as it was, the file at `k` ends
      holding what the last writing step put there. */
  lemma {:induction false} LastWriteWins<T>(d: Disk, s: seq<T>, step: (Disk, T) -> Disk,
                                            W: T -> bool, V: T -> Content, k: string)
    requires forall e: Disk, x: T :: W(x) ==> k in step(e, x).files && step(e, x).files[k] == V(x)
    requires forall e: Disk, x: T :: !W(x) && k in e.files ==> k in step(e, x).files && step(e, x).files[k] == e.files[k]
    requires Seqs.LastIndex(s, W).Some?
    ensures k in Fold(d, s, step).files
    ensures Fold(d, s, step).files[k] == V(s[Seqs.LastIndex(s, W).value])
    decreases |s|
  {
    var init := s[..|s| - 1];
    if !W(s[|s| - 1]) {
      LastWriteWins(d, init, step, W, V, k);
      assert s[Seqs.LastIndex(init, W).value] == init[Seqs.LastIndex(init, W).value];
    }
  }
}
