/**
 The directory a run works in: files, the index in force, and every state an interruption
 could have left behind. Renaming the index file is one atomic step; writing is not.
 */
module Disk {
  import opened Layout

  /** Equal but for the file `f`. */
  ghost predicate OnlyDiffersAt(f: File, a: State, b: State) {
    a.index == b.index && a.files - {f} == b.files - {f}
  }

  /** The states in which the first bytes of `data`, one more each time, have reached `f`. */
  ghost function Torn(st: State, f: File, data: seq<Byte>): seq<State>
    requires f in st.files
  {
    seq(|data|, i requires 0 <= i < |data| => State(st.files[f := st.files[f] + data[..i + 1]], st.index))
  }

  class Disk {
    var files: Files
    var index: Index
    ghost var history: seq<State>

    ghost function Now(): State
      reads this
    {
      State(files, index)
    }

    ghost predicate Recorded()
      reads this
    {
      history != [] && history[|history| - 1] == Now()
    }

    constructor (files: Files, index: Index)
      ensures this.files == files && this.index == index
      ensures history == [State(files, index)] && Recorded()
    {
      this.files, this.index := files, index;
      history := [State(files, index)];
    }

    /** Opens a file for writing: it exists and is empty, whatever it held. */
    method Create(f: File)
      modifies this
      ensures files == old(files)[f := []] && index == old(index)
      ensures history == old(history) + [Now()]
    {
      files := files[f := []];
      history := history + [State(files, index)];
    }

    /** A write may be cut off after any of its bytes. */
    method Append(f: File, data: seq<Byte>)
      requires f in files && Recorded()
      modifies this
      ensures files == old(files)[f := old(files)[f] + data] && index == old(index) && Recorded()
      ensures history == old(history) + Torn(old(Now()), f, data)
      ensures forall n :: 0 < n <= |data| ==> State(old(files)[f := old(files)[f] + data[..n]], old(index)) in history
    {
      ghost var torn := Torn(Now(), f, data);
      forall n | 0 < n <= |data|
        ensures State(files[f := files[f] + data[..n]], index) in torn
      {
        assert torn[n - 1] == State(files[f := files[f] + data[..n]], index);
      }
      history := history + torn;
      assert data == [] ==> files[f] + data == files[f];
      assert data[..|data|] == data;
      files := files[f := files[f] + data];
    }

    method Swap(newIndex: Index)
      modifies this
      ensures files == old(files) && index == newIndex
      ensures history == old(history) + [Now()]
    {
      index := newIndex;
      history := history + [State(files, index)];
    }

    method Remove(f: File)
      modifies this
      ensures files == old(files) - {f} && index == old(index)
      ensures history == old(history) + [Now()]
    {
      files := files - {f};
      history := history + [State(files, index)];
    }
  }
}
