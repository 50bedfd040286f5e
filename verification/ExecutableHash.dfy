/**
 The hash that identifies the files of an executable. The server computes it when an executable is
 stored, the judgehost recomputes it from the files it fetched. md5 stays uninterpreted.
 */
module ExecutableHash {
  import opened StableSort
  import opened Wrappers

  datatype File = File(filename: string, content: string, isExecutable: bool)

  /** strcmp: the sign of the comparison, byte by byte. */
  function Strcmp(a: string, b: string): int {
    if a == "" then (if b == "" then 0 else -1)
    else if b == "" then 1
    else if a[0] < b[0] then -1
    else if a[0] > b[0] then 1
    else Strcmp(a[1..], b[1..])
  }

  lemma {:induction false} StrcmpOrder(a: string, b: string)
    ensures Strcmp(a, b) == -Strcmp(b, a)
    ensures Strcmp(a, b) == 0 <==> a == b
  {
    if a != "" && b != "" && a[0] == b[0] {
      StrcmpOrder(a[1..], b[1..]);
      assert a == [a[0]] + a[1..] && b == [b[0]] + b[1..];
    }
  }

  lemma {:induction false} StrcmpTransitive(a: string, b: string, c: string)
    requires Strcmp(a, b) < 0 && Strcmp(b, c) < 0
    ensures Strcmp(a, c) < 0
  {
    if a != "" && a[0] == b[0] == c[0] {
      StrcmpTransitive(a[1..], b[1..], c[1..]);
    }
  }

  function CompareNames(a: File, b: File): int {
    Strcmp(a.filename, b.filename)
  }

  /** uasort by file name. */
  function Sorted(files: seq<File>): seq<File> {
    Sort(files, CompareNames)
  }

  function Line(md5: string -> string, f: File): string {
    md5(f.content) + f.filename + (if f.isExecutable then "1" else "")
  }

  function Join(md5: string -> string, files: seq<File>): string {
    if files == [] then "" else Line(md5, files[0]) + Join(md5, files[1..])
  }

  function CanonicalHash(md5: string -> string, files: seq<File>): string {
    md5(Join(md5, Sorted(files)))
  }

  // ----- the hash does not depend on the order of the files

  ghost predicate DistinctNames(files: seq<File>) {
    forall i, j :: 0 <= i < j < |files| ==> files[i].filename != files[j].filename
  }

  ghost predicate Increasing(files: seq<File>) {
    forall i, j :: 0 <= i < j < |files| ==> Strcmp(files[i].filename, files[j].filename) < 0
  }

  lemma AppendIncreasing(files: seq<File>, z: File)
    requires Increasing(files) && forall g :: g in files ==> Strcmp(g.filename, z.filename) < 0
    ensures Increasing(files + [z])
  {
  }

  lemma PrefixIncreasing(files: seq<File>, k: nat)
    requires Increasing(files) && k <= |files|
    ensures Increasing(files[..k])
  {
  }

  /** All files sort before f if the last one does. */
  lemma AllBefore(files: seq<File>, f: File)
    requires files != [] && Increasing(files) && Strcmp(files[|files| - 1].filename, f.filename) < 0
    ensures forall g :: g in files ==> Strcmp(g.filename, f.filename) < 0
  {
    forall k | 0 <= k < |files| ensures Strcmp(files[k].filename, f.filename) < 0 {
      if k < |files| - 1 {
        StrcmpTransitive(files[k].filename, files[|files| - 1].filename, f.filename);
      }
    }
  }

  lemma {:induction false} InsertIncreasing(files: seq<File>, f: File)
    requires Increasing(files) && forall g :: g in files ==> g.filename != f.filename
    ensures Increasing(Insert(files, f, CompareNames))
  {
    if files != [] {
      var last := |files| - 1;
      StrcmpOrder(files[last].filename, f.filename);
      if Strcmp(files[last].filename, f.filename) > 0 {
        PrefixIncreasing(files, last);
        InsertIncreasing(files[..last], f);
        InsertElements(files[..last], f, CompareNames);
        AppendIncreasing(Insert(files[..last], f, CompareNames), files[last]);
      } else {
        AllBefore(files, f);
        AppendIncreasing(files, f);
      }
    }
  }

  lemma {:induction false} SortedIncreasing(files: seq<File>)
    requires DistinctNames(files)
    ensures Increasing(Sorted(files))
  {
    if files != [] {
      var last := |files| - 1;
      var front := files[..last];
      SortedIncreasing(front);
      SortElements(front, CompareNames);
      InsertIncreasing(Sorted(front), files[last]);
    }
  }

  lemma SameHead(a: seq<File>, b: seq<File>)
    requires a != [] && Increasing(a) && Increasing(b) && multiset(a) == multiset(b)
    ensures b != [] && a[0] == b[0]
  {
    assert a[0] in multiset(b);
    var i :| 0 <= i < |b| && b[i] == a[0];
    assert b[0] in multiset(a);
    var j :| 0 <= j < |a| && a[j] == b[0];
    StrcmpOrder(a[0].filename, b[0].filename);
  }

  lemma Tails(a: seq<File>, b: seq<File>)
    requires a != [] && b != [] && a[0] == b[0] && multiset(a) == multiset(b)
    ensures multiset(a[1..]) == multiset(b[1..])
  {
    assert a == [a[0]] + a[1..] && b == [b[0]] + b[1..];
    assert multiset(a[1..]) == multiset(a) - multiset{a[0]};
    assert multiset(b[1..]) == multiset(b) - multiset{b[0]};
  }

  lemma TailIncreasing(files: seq<File>)
    requires files != [] && Increasing(files)
    ensures Increasing(files[1..])
  {
  }

  /** There is only one increasing arrangement of the same files. */
  lemma {:induction false} IncreasingUnique(a: seq<File>, b: seq<File>)
    requires Increasing(a) && Increasing(b) && multiset(a) == multiset(b)
    ensures a == b
    decreases |a|
  {
    if a == [] {
      if b != [] {
        SameHead(b, a);
      }
    } else {
      SameHead(a, b);
      Tails(a, b);
      TailIncreasing(a);
      TailIncreasing(b);
      IncreasingUnique(a[1..], b[1..]);
      assert a == [a[0]] + a[1..] && b == [b[0]] + b[1..];
    }
  }

  /** For distinct file names the hash is the same in whatever order the files come. */
  lemma HashOrderFree(md5: string -> string, files: seq<File>, files': seq<File>)
    requires DistinctNames(files) && DistinctNames(files') && multiset(files) == multiset(files')
    ensures CanonicalHash(md5, files) == CanonicalHash(md5, files')
  {
    SortedIncreasing(files);
    SortedIncreasing(files');
    SortPermutes(files, CompareNames);
    SortPermutes(files', CompareNames);
    IncreasingUnique(Sorted(files), Sorted(files'));
  }

  /** Two files of the same name are told apart by their order: the sort is stable. */
  lemma SameNameKeepsOrder(f: File, g: File)
    requires f.filename == g.filename
    ensures Sorted([f, g]) == [f, g] && Sorted([g, f]) == [g, f]
  {
    StrcmpOrder(f.filename, g.filename);
    assert [f, g][..1] == [f] && [g, f][..1] == [g] && [f][..0] == [] && [g][..0] == [];
    assert Sorted([f]) == Insert(Sorted([]), f, CompareNames) == [f];
    assert Sorted([g]) == Insert(Sorted([]), g, CompareNames) == [g];
    assert [f] + [g] == [f, g] && [g] + [f] == [g, f];
  }

  // ----- what the hash tells apart, where md5 does not collide

  /** md5 tells two strings apart and yields strings of the same length for them. */
  ghost predicate Apart(md5: string -> string, x: string, y: string) {
    |md5(x)| == |md5(y)| && (md5(x) == md5(y) ==> x == y)
  }

  /** What a line says about the file besides its content. */
  function Label(f: File): string {
    f.filename + (if f.isExecutable then "1" else "")
  }

  /** The labels are the same, although one file is executable and the other has a 1 at the end of its name. */
  predicate Confusable(f: File, g: File) {
    f.isExecutable && !g.isExecutable && g.filename == f.filename + "1"
  }

  /** The same name and the same executable bit, unless they are confused with one another. */
  predicate Alike(f: File, g: File) {
    (f.filename == g.filename && f.isExecutable == g.isExecutable) || Confusable(f, g) || Confusable(g, f)
  }

  lemma LabelSameIff(f: File, g: File)
    ensures Label(f) == Label(g) <==> Alike(f, g)
  {
    if Label(f) == Label(g) {
      var n := if f.isExecutable then |Label(f)| - 1 else |Label(f)|;
      var m := if g.isExecutable then |Label(g)| - 1 else |Label(g)|;
      assert f.filename == Label(f)[..n] && g.filename == Label(g)[..m];
      if f.isExecutable && !g.isExecutable {
        assert g.filename == Label(f) == f.filename + "1";
      }
      if g.isExecutable && !f.isExecutable {
        assert f.filename == Label(g) == g.filename + "1";
      }
    }
  }

  lemma SplitSame(a: string, b: string, c: string, d: string)
    requires |a| == |c| || |b| == |d|
    ensures a + b == c + d <==> a == c && b == d
  {
    if a + b == c + d {
      assert |a| == |c|;
      assert a == (a + b)[..|a|] == c;
      assert b == (a + b)[|a|..] == d;
    }
  }

  /** Exactly when two files yield the same line. */
  lemma LineSameIff(md5: string -> string, f: File, g: File)
    requires Apart(md5, f.content, g.content)
    ensures Line(md5, f) == Line(md5, g) <==> f.content == g.content && Alike(f, g)
  {
    LabelSameIff(f, g);
    SplitSame(md5(f.content), Label(f), md5(g.content), Label(g));
    assert Line(md5, f) == md5(f.content) + Label(f) && Line(md5, g) == md5(g.content) + Label(g);
  }

  // One file changes.

  lemma {:induction false} JoinReplaceIff(md5: string -> string, files: seq<File>, k: nat, g: File)
    requires k < |files|
    ensures Join(md5, files[k := g]) == Join(md5, files) <==> Line(md5, g) == Line(md5, files[k])
    decreases |files|
  {
    var rest := files[1..];
    if k == 0 {
      assert files[0 := g][1..] == rest;
      SplitSame(Line(md5, g), Join(md5, rest), Line(md5, files[0]), Join(md5, rest));
    } else {
      JoinReplaceIff(md5, rest, k - 1, g);
      assert files[k := g][1..] == rest[k - 1 := g];
      var line := Line(md5, files[0]);
      SplitSame(line, Join(md5, rest[k - 1 := g]), line, Join(md5, rest));
    }
  }

  lemma ReplaceKeeps(files: seq<File>, k: nat, g: File)
    requires k < |files| && g.filename == files[k].filename
    ensures Increasing(files) ==> Increasing(files[k := g])
    ensures DistinctNames(files) ==> DistinctNames(files[k := g])
    ensures multiset(files[k := g]) == multiset(files) - multiset{files[k]} + multiset{g}
  {
  }

  /** Where a file is among the sorted ones, and what another file of its name does to them. */
  lemma SortedReplace(files: seq<File>, i: nat, g: File) returns (k: nat)
    requires DistinctNames(files) && i < |files| && g.filename == files[i].filename
    ensures k < |Sorted(files)| && Sorted(files)[k] == files[i]
    ensures Sorted(files[i := g]) == Sorted(files)[k := g]
  {
    SortPermutes(files, CompareNames);
    SortPermutes(files[i := g], CompareNames);
    assert files[i] in multiset(Sorted(files));
    k :| 0 <= k < |Sorted(files)| && Sorted(files)[k] == files[i];
    ReplaceKeeps(files, i, g);
    ReplaceKeeps(Sorted(files), k, g);
    SortedIncreasing(files);
    SortedIncreasing(files[i := g]);
    IncreasingUnique(Sorted(files[i := g]), Sorted(files)[k := g]);
  }

  ghost predicate Injective(md5: string -> string) {
    forall x, y :: md5(x) == md5(y) ==> x == y
  }

  /** For an injective digest another content of a file means another hash. */
  lemma ContentMatters(md5: string -> string, files: seq<File>, i: nat, content: string)
    requires Injective(md5) && DistinctNames(files) && i < |files|
    ensures CanonicalHash(md5, files[i := files[i].(content := content)]) == CanonicalHash(md5, files) <==>
              content == files[i].content
  {
    var f, g := files[i], files[i].(content := content);
    var k := SortedReplace(files, i, g);
    JoinReplaceIff(md5, Sorted(files), k, g);
    SplitSame(md5(g.content), Label(g), md5(f.content), Label(f));
    assert Line(md5, f) == md5(f.content) + Label(f) && Line(md5, g) == md5(g.content) + Label(g);
  }

  /** And so does the other executable bit. */
  lemma BitMatters(md5: string -> string, files: seq<File>, i: nat, isExecutable: bool)
    requires Injective(md5) && DistinctNames(files) && i < |files|
    ensures CanonicalHash(md5, files[i := files[i].(isExecutable := isExecutable)]) == CanonicalHash(md5, files) <==>
              isExecutable == files[i].isExecutable
  {
    var g := files[i].(isExecutable := isExecutable);
    var k := SortedReplace(files, i, g);
    JoinReplaceIff(md5, Sorted(files), k, g);
    LineSameIff(md5, g, files[i]);
  }

  /** Changing the content and the executable bit of one file changes the hash, where md5 does not collide. */
  lemma OneFileMatters(md5: string -> string, files: seq<File>, i: nat, g: File)
    requires DistinctNames(files) && i < |files| && g.filename == files[i].filename
    requires Apart(md5, g.content, files[i].content)
    requires Apart(md5, Join(md5, Sorted(files[i := g])), Join(md5, Sorted(files)))
    ensures CanonicalHash(md5, files[i := g]) == CanonicalHash(md5, files) <==> g == files[i]
  {
    var k := SortedReplace(files, i, g);
    JoinReplaceIff(md5, Sorted(files), k, g);
    LineSameIff(md5, g, files[i]);
  }

  // Any files change.

  /** Line by line the labels are of the same length. */
  ghost predicate Aligned(a: seq<File>, b: seq<File>) {
    |a| == |b| && forall i :: 0 <= i < |a| ==> |Label(a[i])| == |Label(b[i])|
  }

  ghost predicate ContentsApart(md5: string -> string, a: seq<File>, b: seq<File>) {
    |a| == |b| && forall i :: 0 <= i < |a| ==> Apart(md5, a[i].content, b[i].content)
  }

  ghost predicate AllAlike(a: seq<File>, b: seq<File>) {
    |a| == |b| && forall i :: 0 <= i < |a| ==> a[i].content == b[i].content && Alike(a[i], b[i])
  }

  lemma {:induction false} JoinSameIff(md5: string -> string, a: seq<File>, b: seq<File>)
    requires Aligned(a, b) && ContentsApart(md5, a, b)
    ensures Join(md5, a) == Join(md5, b) <==> AllAlike(a, b)
    decreases |a|
  {
    if a != [] {
      var f, g := a[0], b[0];
      LineSameIff(md5, f, g);
      SplitSame(Line(md5, f), Join(md5, a[1..]), Line(md5, g), Join(md5, b[1..]));
      assert forall i :: 0 <= i < |a| - 1 ==> a[1..][i] == a[i + 1] && b[1..][i] == b[i + 1];
      JoinSameIff(md5, a[1..], b[1..]);
      if AllAlike(a[1..], b[1..]) && f.content == g.content && Alike(f, g) {
        forall i | 0 <= i < |a| ensures a[i].content == b[i].content && Alike(a[i], b[i]) {
          if i > 0 {
            assert a[1..][i - 1] == a[i];
          }
        }
      }
    }
  }

  /** Aligned files have the same hash exactly if they are the same up to names that end in a 1 for the bit. */
  lemma HashSameIff(md5: string -> string, files: seq<File>, files': seq<File>)
    requires Aligned(Sorted(files), Sorted(files')) && ContentsApart(md5, Sorted(files), Sorted(files'))
    requires Apart(md5, Join(md5, Sorted(files)), Join(md5, Sorted(files')))
    ensures CanonicalHash(md5, files) == CanonicalHash(md5, files') <==> AllAlike(Sorted(files), Sorted(files'))
  {
    JoinSameIff(md5, Sorted(files), Sorted(files'));
  }

  /** The executable bit of one file may stand for the last character of another file's name. */
  lemma BitOrName(md5: string -> string, content: string)
    ensures CanonicalHash(md5, [File("a", content, true)]) == CanonicalHash(md5, [File("a1", content, false)])
  {
    SortedOne(File("a", content, true));
    SortedOne(File("a1", content, false));
    assert "a1" == "a" + "1";
    LineSameIff(md5, File("a", content, true), File("a1", content, false));
    JoinOne(md5, File("a", content, true));
    JoinOne(md5, File("a1", content, false));
  }

  lemma JoinOne(md5: string -> string, f: File)
    ensures Join(md5, [f]) == Line(md5, f)
  {
    assert [f][1..] == [] && Line(md5, f) + "" == Line(md5, f);
  }

  lemma SortedOne(f: File)
    ensures Sorted([f]) == [f]
  {
    assert [f][..0] == [];
    assert Sorted([f]) == Insert(Sorted([]), f, CompareNames);
  }

  /** A name may stand for two names and the digest between them: not aligned, and yet the same hash. */
  lemma NameOrFiles(md5: string -> string, c: string, d: string)
    ensures CanonicalHash(md5, [File("a", c, false), File("b", d, false)]) ==
            CanonicalHash(md5, [File("a" + md5(d) + "b", c, false)])
  {
    var a, b, whole := File("a", c, false), File("b", d, false), File("a" + md5(d) + "b", c, false);
    SortedOne(whole);
    SortedOne(a);
    assert [a, b][..1] == [a];
    assert Sorted([a, b]) == Insert([a], b, CompareNames) == [a, b];
    assert [a, b][1..] == [b];
    JoinOne(md5, b);
    JoinOne(md5, whole);
    assert Join(md5, [a, b]) == Line(md5, a) + Join(md5, [b]);
    assert (md5(c) + "a" + "") + (md5(d) + "b" + "") == md5(c) + ("a" + md5(d) + "b") + "";
  }

  // Names and bits are known.

  /** The names with their executable bits. */
  function NamesAndBits(files: seq<File>): set<(string, bool)> {
    set f | f in files :: (f.filename, f.isExecutable)
  }

  lemma FirstNames(a: seq<File>, b: seq<File>)
    requires a != [] && Increasing(a) && Increasing(b) && NamesAndBits(a) == NamesAndBits(b)
    ensures b != [] && a[0].filename == b[0].filename && a[0].isExecutable == b[0].isExecutable
  {
    assert (a[0].filename, a[0].isExecutable) in NamesAndBits(b);
    var j :| 0 <= j < |b| && b[j].filename == a[0].filename && b[j].isExecutable == a[0].isExecutable;
    assert (b[0].filename, b[0].isExecutable) in NamesAndBits(a);
    var k :| 0 <= k < |a| && a[k].filename == b[0].filename && a[k].isExecutable == b[0].isExecutable;
    StrcmpOrder(a[0].filename, b[0].filename);
  }

  lemma RestNames(files: seq<File>)
    requires files != [] && Increasing(files)
    ensures NamesAndBits(files[1..]) == NamesAndBits(files) - {(files[0].filename, files[0].isExecutable)}
  {
    forall f | f in files[1..] ensures f.filename != files[0].filename {
      var i :| 0 <= i < |files[1..]| && files[1..][i] == f;
      assert files[i + 1] == f;
      StrcmpOrder(files[0].filename, f.filename);
    }
    assert forall f :: f in files <==> f == files[0] || f in files[1..];
  }

  lemma {:induction false} SameNamesAligned(a: seq<File>, b: seq<File>)
    requires Increasing(a) && Increasing(b) && NamesAndBits(a) == NamesAndBits(b)
    ensures |a| == |b|
    ensures forall i :: 0 <= i < |a| ==> a[i].filename == b[i].filename && a[i].isExecutable == b[i].isExecutable
    decreases |a|
  {
    if a == [] {
      if b != [] {
        FirstNames(b, a);
      }
    } else {
      FirstNames(a, b);
      RestNames(a);
      RestNames(b);
      TailIncreasing(a);
      TailIncreasing(b);
      SameNamesAligned(a[1..], b[1..]);
      forall i | 1 <= i < |a| ensures a[i].filename == b[i].filename && a[i].isExecutable == b[i].isExecutable {
        assert a[1..][i - 1] == a[i] && b[1..][i - 1] == b[i];
      }
    }
  }

  lemma SortedNames(files: seq<File>)
    ensures NamesAndBits(Sorted(files)) == NamesAndBits(files)
  {
    SortPermutes(files, CompareNames);
    assert forall f :: f in Sorted(files) <==> f in multiset(Sorted(files));
    assert forall f :: f in files <==> f in multiset(files);
  }

  ghost predicate NoCollisions(md5: string -> string, files: seq<File>, files': seq<File>) {
    && (forall f, g :: f in files && g in files' ==> Apart(md5, f.content, g.content))
    && Apart(md5, Join(md5, Sorted(files)), Join(md5, Sorted(files')))
  }

  /** Of files with the same names and bits the hash tells exactly whether their contents are the same, too. */
  lemma HashCertifiesContents(md5: string -> string, files: seq<File>, files': seq<File>)
    requires DistinctNames(files) && DistinctNames(files') && NamesAndBits(files) == NamesAndBits(files')
    requires NoCollisions(md5, files, files')
    ensures CanonicalHash(md5, files) == CanonicalHash(md5, files') <==> multiset(files) == multiset(files')
  {
    var a, b := Sorted(files), Sorted(files');
    SortedIncreasing(files);
    SortedIncreasing(files');
    SortedNames(files);
    SortedNames(files');
    SameNamesAligned(a, b);
    SortPermutes(files, CompareNames);
    SortPermutes(files', CompareNames);
    forall i | 0 <= i < |a| ensures Apart(md5, a[i].content, b[i].content) {
      assert a[i] in multiset(files) && b[i] in multiset(files');
    }
    HashSameIff(md5, files, files');
    if AllAlike(a, b) {
      assert a == b;
    }
    if multiset(files) == multiset(files') {
      IncreasingUnique(a, b);
    }
  }

  /** The server's record of an executable. */
  class ImmutableExecutable {
    const md5: string -> string
    var files: Option<seq<File>>
    var hash: Option<string>

    ghost predicate Valid()
      reads this
    {
      hash == if files.Some? then Some(CanonicalHash(md5, files.value)) else None
    }

    constructor (md5: string -> string, files: seq<File>)
      ensures Valid() && this.files == Some(files) && this.md5 == md5
    {
      this.md5, this.files := md5, Some(files);
      new;
      UpdateHash();
    }

    method UpdateHash()
      modifies `hash
      ensures Valid()
    {
      if files == None {
        hash := None;
        return;
      }
      var filesArray := Sorted(files.value);
      var joined := "";
      var k := 0;
      while k < |filesArray|
        invariant 0 <= k <= |filesArray|
        invariant Join(md5, filesArray) == joined + Join(md5, filesArray[k..])
      {
        assert filesArray[k..][1..] == filesArray[k + 1..];
        assert joined + (Line(md5, filesArray[k]) + Join(md5, filesArray[k + 1..]))
            == (joined + Line(md5, filesArray[k])) + Join(md5, filesArray[k + 1..]);
        joined := joined + Line(md5, filesArray[k]);
        k := k + 1;
      }
      assert filesArray[k..] == [] && joined + "" == joined;
      hash := Some(md5(joined));
    }
  }
}
