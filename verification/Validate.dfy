/**
 The structural checks made before anything is written. They compare neighbours only, yet
 an empty report is equivalent to a sound layout.
 */
module Validate {
  import opened Sorting
  import opened Layout

  datatype Problem =
    | ShardStart(file: File, found: int, expected: int)
    | ShardMissing(file: File)
    | ShardSize(file: File, found: int, expected: int)
    | TotalBytes(found: int, expected: int)
    | Duplicate(name: string)
    | UnknownDtype(name: string)
    | ByteCount(name: string)
    | Misaligned(name: string)
    | PastEnd(name: string)
    | WrongShape(name: string)
    | WrongDtype(name: string)
    | Overlap(second: string, first: string)

  /** What a dtype name stands for; the loader casts between castable ones. */
  datatype Dtype = Dtype(id: nat, size: nat, castable: bool)

  /** What the current model declares, and what the repair will rename or convert. */
  datatype Expected = Expected(declared: map<string, (seq<nat>, Dtype)>, renames: map<string, string>, dequants: set<string>) {
    function NameOf(e: Entry): string {
      if e.name in renames then renames[e.name] else e.name
    }

    /** Whether the model has a say in this entry. */
    predicate Concerns(e: Entry) {
      e.kind == "weight" && NameOf(e) in declared && NameOf(e) !in dequants
    }
  }

  function Product(shape: seq<nat>): nat {
    if shape == [] then 1 else Product(shape[..|shape| - 1]) * shape[|shape| - 1]
  }

  predicate Loads(found: Dtype, wanted: Dtype) {
    found == wanted || (found.castable && wanted.castable)
  }

  /** The size of a shape is the product of its extents, however it is split. */
  lemma {:induction false} ProductSplits(a: seq<nat>, b: seq<nat>, n: nat)
    ensures Product(a + b) == Product(a) * Product(b) && Product([n]) == n
    decreases |b|
  {
    if b == [] {
      assert a + b == a;
    } else {
      var m := |b| - 1;
      ProductSplits(a, b[..m], n);
      assert (a + b)[..|a + b| - 1] == a + b[..m];
    }
    assert [n][..0] == [];
  }

  /** The entry is a weight the model declares by this name, and no repair is going to convert it. */
  ghost predicate DeclaredAs(model: Expected, e: Entry, name: string) {
    && e.kind == "weight" && (if e.name in model.renames then name == model.renames[e.name] else name == e.name)
    && name in model.declared && name !in model.dequants
  }

  /** One of two dtypes can stand for the other. */
  ghost predicate Exchangeable(a: Dtype, b: Dtype) {
    a != b ==> a.castable && b.castable
  }

  /** The dtype is known, the byte count is what shape and dtype say, and the model can load it. */
  ghost predicate Typed(e: Entry, dtypes: map<string, Dtype>, model: Expected) {
    && e.dtype in dtypes && e.nbytes == Product(e.shape) * dtypes[e.dtype].size
    && forall name {:trigger DeclaredAs(model, e, name)} :: DeclaredAs(model, e, name) ==>
      e.shape == model.declared[name].0 && Exchangeable(dtypes[e.dtype], model.declared[name].1)
  }

  /** An entry draws this report; `again` says that an earlier entry has its name. */
  ghost predicate Draws(e: Entry, again: bool, dtypes: map<string, Dtype>, model: Expected, pos: int, p: Problem) {
    match p
    case Duplicate(name) => name == e.name && again
    case UnknownDtype(name) => name == e.name && e.dtype !in dtypes
    case ByteCount(name) => name == e.name && e.dtype in dtypes && e.nbytes != Product(e.shape) * dtypes[e.dtype].size
    case Misaligned(name) => name == e.name && e.dtype in dtypes && (e.off < 0 || e.off % ALIGN != 0)
    case PastEnd(name) => name == e.name && e.dtype in dtypes && pos < e.off + e.nbytes
    case WrongShape(name) => DeclaredAs(model, e, name) && e.dtype in dtypes && e.shape != model.declared[name].0
    case WrongDtype(name) =>
      DeclaredAs(model, e, name) && e.dtype in dtypes && !Exchangeable(dtypes[e.dtype], model.declared[name].1)
    case _ => false
  }

  /** An earlier entry has the name of entry i. */
  ghost predicate Again(ts: seq<Entry>, i: nat)
    requires i < |ts|
  {
    exists j :: 0 <= j < i && ts[j].name == ts[i].name
  }

  ghost predicate SomeDraws(ts: seq<Entry>, n: nat, dtypes: map<string, Dtype>, model: Expected, pos: int, p: Problem)
    requires n <= |ts|
  {
    exists i :: 0 <= i < n && Draws(ts[i], Again(ts, i), dtypes, model, pos, p)
  }

  ghost predicate AllTyped(ts: seq<Entry>, dtypes: map<string, Dtype>, model: Expected) {
    forall i :: 0 <= i < |ts| ==> Typed(ts[i], dtypes, model)
  }

  // ------------------------------------------------------------ shards

  lemma TilesGrow(ss: seq<Shard>, k: nat, pos: int)
    requires k < |ss| && pos == if k == 0 then 0 else ss[k - 1].End()
    ensures Tiles(ss[..k + 1], 0, ss[k].End()) <==> Tiles(ss[..k], 0, pos) && ss[k].off == pos && 0 <= ss[k].nbytes
  {
    var more, less, end := ss[..k + 1], ss[..k], ss[k].End();
    if Tiles(more, 0, end) {
      TilesPrefix(more, 0, end, k);
      assert more[..k] == less;
      assert Abuts(more, k, end);
      if k > 0 {
        assert Abuts(more, k - 1, end);
      }
    }
    if Tiles(less, 0, pos) && ss[k].off == pos && 0 <= ss[k].nbytes {
      forall i | 0 <= i < |more|
        ensures Abuts(more, i, end)
      {
        if i < k {
          assert Abuts(less, i, pos);
        }
      }
    }
  }

  method CheckShards(files: Files, index: Index) returns (problems: seq<Problem>, pos: int)
    ensures problems == [] <==> Tiles(Ordered(index), 0, index.total) && Present(files, Ordered(index))
    ensures problems == [] ==> pos == index.total
  {
    problems, pos := [], 0;
    var ss := Ordered(index);
    for k := 0 to |ss|
      invariant pos == if k == 0 then 0 else ss[k - 1].End()
      invariant problems == [] <==> Tiles(ss[..k], 0, pos) && Present(files, ss[..k])
    {
      var sh := ss[k];
      TilesGrow(ss, k, pos);
      assert Present(files, ss[..k + 1]) <==> Present(files, ss[..k]) && sh.file in files && |files[sh.file]| == sh.nbytes by {
        assert ss[..k + 1] == ss[..k] + [sh];
      }
      if sh.off != pos {
        problems := problems + [ShardStart(sh.file, sh.off, pos)];
      }
      if sh.file !in files {
        problems := problems + [ShardMissing(sh.file)];
      } else if |files[sh.file]| != sh.nbytes {
        problems := problems + [ShardSize(sh.file, |files[sh.file]|, sh.nbytes)];
      }
      pos := sh.End();
    }
    assert ss[..|ss|] == ss;
    if |ss| > 0 && Tiles(ss, 0, index.total) {
      assert Abuts(ss, |ss| - 1, index.total);
    }
    if pos != index.total {
      problems := problems + [TotalBytes(pos, index.total)];
    }
  }

  // ------------------------------------------------------------ entries

  ghost predicate EntriesOk(ts: seq<Entry>, dtypes: map<string, Dtype>, model: Expected, pos: int) {
    AllTyped(ts, dtypes, model) && AllPlaced(ts, pos) && DistinctNames(ts)
  }

  lemma EntriesGrow(ts: seq<Entry>, k: nat, dtypes: map<string, Dtype>, model: Expected, pos: int)
    requires k < |ts|
    ensures EntriesOk(ts[..k + 1], dtypes, model, pos) <==>
            EntriesOk(ts[..k], dtypes, model, pos) && Typed(ts[k], dtypes, model) && Placed(ts[k], pos)
            && forall i :: 0 <= i < k ==> ts[i].name != ts[k].name
  {
    var more, less := ts[..k + 1], ts[..k];
    assert more == less + [ts[k]];
    if EntriesOk(more, dtypes, model, pos) {
      assert forall i :: 0 <= i < k ==> more[i].name != more[k].name;
    }
  }

  /** The reports an entry draws by differing from what the model declares. */
  method CheckDeclared(e: Entry, dt: Dtype, model: Expected) returns (problems: seq<Problem>)
    ensures forall p :: p in problems <==>
              || (p.WrongShape? && DeclaredAs(model, e, p.name) && e.shape != model.declared[p.name].0)
              || (p.WrongDtype? && DeclaredAs(model, e, p.name) && !Exchangeable(dt, model.declared[p.name].1))
  {
    problems := [];
    if !model.Concerns(e) {
      return;
    }
    var name := model.NameOf(e);
    assert DeclaredAs(model, e, name);
    var (shape, dtype) := model.declared[name];
    if e.shape != shape {
      problems := problems + [WrongShape(name)];
    }
    if !Loads(dt, dtype) {
      problems := problems + [WrongDtype(name)];
    }
  }

  /** The reports one entry draws. */
  method CheckEntry(e: Entry, again: bool, dtypes: map<string, Dtype>, model: Expected, pos: int) returns (problems: seq<Problem>)
    ensures forall p :: p in problems <==> Draws(e, again, dtypes, model, pos, p)
  {
    problems := if again then [Duplicate(e.name)] else [];
    if e.dtype !in dtypes {
      problems := problems + [UnknownDtype(e.name)];
      return;
    }
    var dt := dtypes[e.dtype];
    var want: nat := Product(e.shape) * dt.size;
    if want != e.nbytes {
      problems := problems + [ByteCount(e.name)];
    }
    if e.off < 0 || e.off % ALIGN != 0 {
      problems := problems + [Misaligned(e.name)];
    }
    if e.off + e.nbytes > pos {
      problems := problems + [PastEnd(e.name)];
    }
    var more := CheckDeclared(e, dt, model);
    problems := problems + more;
  }

  /** An entry draws no report exactly when nothing is wrong with it. */
  lemma DrawsNone(e: Entry, again: bool, dtypes: map<string, Dtype>, model: Expected, pos: int)
    ensures (forall p :: !Draws(e, again, dtypes, model, pos, p)) <==> !again && Typed(e, dtypes, model) && Placed(e, pos)
  {
    if forall p :: !Draws(e, again, dtypes, model, pos, p) {
      assert !Draws(e, again, dtypes, model, pos, Duplicate(e.name));
      assert !Draws(e, again, dtypes, model, pos, UnknownDtype(e.name));
      assert !Draws(e, again, dtypes, model, pos, ByteCount(e.name));
      assert !Draws(e, again, dtypes, model, pos, Misaligned(e.name));
      assert !Draws(e, again, dtypes, model, pos, PastEnd(e.name));
      forall name | DeclaredAs(model, e, name)
        ensures e.shape == model.declared[name].0 && Exchangeable(dtypes[e.dtype], model.declared[name].1)
      {
        assert !Draws(e, again, dtypes, model, pos, WrongShape(name));
        assert !Draws(e, again, dtypes, model, pos, WrongDtype(name));
      }
    }
  }

  method CheckEntries(index: Index, dtypes: map<string, Dtype>, model: Expected, pos: int) returns (problems: seq<Problem>)
    ensures forall p :: p in problems <==> SomeDraws(index.tensors, |index.tensors|, dtypes, model, pos, p)
    ensures problems == [] <==> EntriesOk(index.tensors, dtypes, model, pos)
  {
    var ts := index.tensors;
    problems := [];
    var seen := {};
    for k := 0 to |ts|
      invariant seen == set i | 0 <= i < k :: ts[i].name
      invariant forall p :: p in problems <==> SomeDraws(ts, k, dtypes, model, pos, p)
      invariant problems == [] <==> EntriesOk(ts[..k], dtypes, model, pos)
    {
      EntriesGrow(ts, k, dtypes, model, pos);
      assert ts[k].name in seen <==> Again(ts, k);
      var more := CheckEntry(ts[k], ts[k].name in seen, dtypes, model, pos);
      DrawsNone(ts[k], Again(ts, k), dtypes, model, pos);
      NoneIsEmpty(more);
      forall p
        ensures p in problems + more <==> SomeDraws(ts, k + 1, dtypes, model, pos, p)
      {
        SomeDrawsNext(ts, k, dtypes, model, pos, p);
      }
      problems := problems + more;
      seen := seen + {ts[k].name};
    }
    assert ts[..|ts|] == ts;
  }

  lemma NoneIsEmpty(problems: seq<Problem>)
    ensures problems == [] <==> forall p :: p !in problems
  {
    if problems != [] {
      assert problems[0] in problems;
    }
  }

  lemma SomeDrawsNext(ts: seq<Entry>, k: nat, dtypes: map<string, Dtype>, model: Expected, pos: int, p: Problem)
    requires k < |ts|
    ensures SomeDraws(ts, k + 1, dtypes, model, pos, p) <==>
            SomeDraws(ts, k, dtypes, model, pos, p) || Draws(ts[k], Again(ts, k), dtypes, model, pos, p)
  {
  }

  // ------------------------------------------------------------ overlaps

  datatype Block = Block(lo: int, hi: int, name: string)

  predicate BlockLe(a: Block, b: Block) {
    a.lo < b.lo || (a.lo == b.lo && a.hi <= b.hi)
  }

  predicate BlocksApart(a: Block, b: Block) {
    a.hi <= b.lo || b.hi <= a.lo
  }

  function Blocks(ts: seq<Entry>): seq<Block> {
    seq(|ts|, i requires 0 <= i < |ts| => Block(ts[i].off, ts[i].End(), ts[i].name))
  }

  ghost predicate InOrder(bs: seq<Block>, k: nat)
    requires k + 1 < |bs|
  {
    bs[k].hi <= bs[k + 1].lo
  }

  /** In a sorted list of blocks, disjoint neighbours mean disjoint everywhere. */
  lemma {:induction false} NeighboursSuffice(bs: seq<Block>, i: nat, j: nat)
    requires i < j < |bs| && forall k :: 0 <= k < |bs| ==> bs[k].lo <= bs[k].hi
    requires forall k :: 0 <= k < |bs| - 1 ==> InOrder(bs, k)
    ensures bs[i].hi <= bs[j].lo
    decreases j
  {
    assert InOrder(bs, j - 1);
    if i + 1 < j {
      NeighboursSuffice(bs, i, j - 1);
    }
  }

  lemma NeighboursIffPairs(bs: seq<Block>)
    requires Sorted(BlockLe, bs) && forall k :: 0 <= k < |bs| ==> bs[k].lo <= bs[k].hi
    ensures (forall k :: 0 <= k < |bs| - 1 ==> InOrder(bs, k)) <==> Pairwise(BlocksApart, bs)
  {
    if forall k :: 0 <= k < |bs| - 1 ==> InOrder(bs, k) {
      forall i, j | 0 <= i < j < |bs|
        ensures BlocksApart(bs[i], bs[j])
      {
        NeighboursSuffice(bs, i, j);
      }
    }
    if Pairwise(BlocksApart, bs) {
      forall k | 0 <= k < |bs| - 1
        ensures InOrder(bs, k)
      {
        assert BlocksApart(bs[k], bs[k + 1]) && BlockLe(bs[k], bs[k + 1]);
      }
    }
  }

  lemma PairsAreSeparated(ts: seq<Entry>)
    ensures Pairwise(BlocksApart, Blocks(ts)) <==> Separated(ts)
  {
    var bs := Blocks(ts);
    assert forall i, j :: 0 <= i < j < |ts| ==> (BlocksApart(bs[i], bs[j]) <==> Apart(ts[i], ts[j]));
  }

  method CheckOverlaps(ts: seq<Entry>) returns (problems: seq<Problem>)
    ensures (forall i :: 0 <= i < |ts| ==> 0 <= ts[i].nbytes) ==> (problems == [] <==> Separated(ts))
  {
    problems := [];
    var bs := Sort(BlockLe, Blocks(ts));
    SortCorrect(BlockLe, Blocks(ts));
    var k := 0;
    while k + 1 < |bs|
      invariant 0 <= k && (k == 0 || k < |bs|)
      invariant problems == [] <==> forall i :: 0 <= i < k ==> InOrder(bs, i)
    {
      assert InOrder(bs, k) <==> !(bs[k + 1].lo < bs[k].hi);
      if bs[k + 1].lo < bs[k].hi {
        problems := problems + [Overlap(bs[k + 1].name, bs[k].name)];
      }
      k := k + 1;
    }
    if forall i :: 0 <= i < |ts| ==> 0 <= ts[i].nbytes {
      forall k | 0 <= k < |bs|
        ensures bs[k].lo <= bs[k].hi
      {
        SortMembers(BlockLe, Blocks(ts), bs[k]);
      }
      NeighboursIffPairs(bs);
      SortPairwise(BlockLe, BlocksApart, Blocks(ts));
      PairsAreSeparated(ts);
    }
  }

  /** No problem reported means a sound checkpoint the model can load, and such a checkpoint draws no report. */
  method ValidateFtw(files: Files, index: Index, dtypes: map<string, Dtype>, model: Expected) returns (problems: seq<Problem>)
    ensures problems == [] <==> Sound(State(files, index)) && AllTyped(index.tensors, dtypes, model)
  {
    var shards, pos := CheckShards(files, index);
    var entries := CheckEntries(index, dtypes, model, pos);
    var overlaps := CheckOverlaps(index.tensors);
    problems := shards + entries + overlaps;
  }
}
