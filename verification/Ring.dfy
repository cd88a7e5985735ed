/** A ring buffer: its content from an index on, wrapping at the end of the cells. */
module Ring {

  /** Masking an index below twice the size. */
  function Wrap(i: nat, size: nat): (r: nat)
    requires i < 2 * size
    ensures r < size
  {
    if i < size then i else i - size
  }

  ghost predicate Holds<T>(cells: seq<T>, from: nat, content: seq<T>) {
    && from < |cells| && |content| <= |cells|
    && forall i :: 0 <= i < |content| ==> cells[Wrap(from + i, |cells|)] == content[i]
  }

  lemma Pushed<T>(cells: seq<T>, from: nat, content: seq<T>, x: T)
    requires Holds(cells, from, content) && |content| < |cells|
    ensures Holds(cells[Wrap(from + |content|, |cells|) := x], from, content + [x])
  {
  }

  lemma Dropped<T>(cells: seq<T>, from: nat, content: seq<T>, k: nat)
    requires Holds(cells, from, content) && k <= |content|
    ensures Holds(cells, Wrap(from + k, |cells|), content[k..])
  {
    var size := |cells|;
    forall i | 0 <= i < |content| - k
      ensures cells[Wrap(Wrap(from + k, size) + i, size)] == content[k..][i]
    {
      assert Wrap(Wrap(from + k, size) + i, size) == Wrap(from + (k + i), size);
    }
  }

  /** The cell at the front is the first of the content, and may be replaced. */
  lemma Front<T>(cells: seq<T>, from: nat, content: seq<T>, x: T)
    requires Holds(cells, from, content) && content != []
    ensures cells[from] == content[0]
    ensures Holds(cells[from := x], from, [x] + content[1..])
    ensures Holds(cells[from := x], Wrap(from + 1, |cells|), content[1..])
  {
    assert Wrap(from + 0, |cells|) == from;
    var after := cells[from := x];
    forall i | 0 <= i < |content| ensures after[Wrap(from + i, |cells|)] == ([x] + content[1..])[i] {
      assert cells[Wrap(from + i, |cells|)] == content[i];
    }
    Dropped(after, from, [x] + content[1..], 1);
    assert ([x] + content[1..])[1..] == content[1..];
  }
}
