/** Which shard number is free, and which shard files on disk nothing references. */
module Numbering {
  import opened Sorting
  import opened Layout

  /** The format pads to five digits; the pattern that finds shard files wants exactly five. */
  const NUMBER_LIMIT: nat := 100000

  predicate Matches(f: File) {
    f.Numbered? && f.num < NUMBER_LIMIT
  }

  function UsedFiles(index: Index): set<File> {
    set sh | sh in index.shards :: sh.file
  }

  /** `next` follows the largest matching number among `names`. */
  ghost predicate IsNext(names: set<File>, next: nat) {
    && (forall f :: f in names && Matches(f) ==> f.num < next)
    && (next == 0 || (Matches(Numbered(next - 1)) && Numbered(next - 1) in names))
  }

  predicate ByNumber(a: File, b: File) {
    a.Named? || (b.Numbered? && a.num <= b.num)
  }

  ghost predicate Ascending(fs: seq<File>) {
    forall i, j :: 0 <= i < j < |fs| ==> fs[i].Numbered? && fs[j].Numbered? && fs[i].num <= fs[j].num
  }

  ghost predicate AllBelow(names: set<File>, n: nat) {
    forall f :: f in names && f.Numbered? ==> f.num < n
  }

  /** Every number from `next` on is free exactly when no six-digit shard file is about. */
  lemma FreeIffFiveDigits(names: set<File>, next: nat)
    requires IsNext(names, next)
    ensures AllBelow(names, next) <==> AllBelow(names, NUMBER_LIMIT)
  {
  }

  /** The number returned is itself in use exactly when 99999 and 100000 both are. */
  lemma TakenIffSixDigits(names: set<File>, next: nat)
    requires IsNext(names, next)
    ensures Numbered(next) in names <==> Numbered(99999) in names && Numbered(100000) in names
  {
    if Numbered(99999) in names {
      assert Matches(Numbered(99999));
    }
    if Numbered(next) in names {
      assert !Matches(Numbered(next));
    }
  }

  /** With six digits the number called free can belong to a shard in use. */
  lemma SixDigitsCollide(a: Shard, b: Shard, next: nat)
    requires a.file == Numbered(99999) && b.file == Numbered(100000)
    requires IsNext(UsedFiles(Index([], [a, b], 0, 0)), next)
    ensures Numbered(next) == b.file
  {
    var index := Index([], [a, b], 0, 0);
    assert a in index.shards && a.file in UsedFiles(index);
    assert Matches(a.file);
  }

  /** One of a nonempty set. */
  lemma SomeFile(s: set<File>)
    requires s != {}
    ensures exists f :: f in s
  {
    if forall f :: f !in s {
      assert false;
    }
  }

  /** The number after the largest matching one. */
  method NextNumber(names: set<File>) returns (next: nat)
    ensures IsNext(names, next)
  {
    var todo := names;
    next := 0;
    while todo != {}
      invariant todo <= names && IsNext(names - todo, next)
      decreases todo
    {
      SomeFile(todo);
      var f :| f in todo;
      ghost var seen := names - todo;
      todo := todo - {f};
      assert names - todo == seen + {f};
      if Matches(f) && next <= f.num {
        next := f.num + 1;
      }
    }
    assert names - todo == names;
  }

  /** The files of a set, in order of their numbers. */
  method InNumberOrder(files: set<File>) returns (list: seq<File>)
    requires forall f :: f in files ==> f.Numbered?
    ensures (forall f :: f in list <==> f in files) && |list| == |files| && Ascending(list)
  {
    var left := files;
    list := [];
    while left != {}
      invariant left <= files && |list| + |left| == |files|
      invariant forall f :: f in list <==> f in files - left
      decreases left
    {
      SomeFile(left);
      var f :| f in left;
      left := left - {f};
      list := list + [f];
    }
    SortedNumbers(list);
    list := Sort(ByNumber, list);
  }

  lemma SortedNumbers(list: seq<File>)
    requires forall f :: f in list ==> f.Numbered?
    ensures var sorted := Sort(ByNumber, list);
            (forall f :: f in sorted <==> f in list) && |sorted| == |list| && Ascending(sorted)
  {
    var sorted := Sort(ByNumber, list);
    SortCorrect(ByNumber, list);
    forall f
      ensures f in sorted <==> f in list
    {
      SortMembers(ByNumber, list, f);
    }
    assert forall i :: 0 <= i < |sorted| ==> sorted[i] in sorted;
  }

  method ShardNumbers(files: Files, index: Index) returns (next: nat, orphans: seq<File>)
    ensures IsNext(files.Keys + UsedFiles(index), next)
    ensures forall f :: f in orphans <==> f in files && Matches(f) && f !in UsedFiles(index)
    ensures |orphans| == |set f | f in files && Matches(f) && f !in UsedFiles(index)|
    ensures Ascending(orphans)
  {
    var used := UsedFiles(index);
    next := NextNumber(files.Keys + used);
    orphans := InNumberOrder(set f | f in files && Matches(f) && f !in used);
  }
}
