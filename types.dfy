/** Shared value types of the terminal front-end: bytes, grid cells, an optional
    value, and the concatenation of byte strings. */
module Types {

  /** One byte of the PTY stream (a C `char`/`uint8_t`). */
  newtype byte = x: int | 0 <= x < 256

  /** One packed grid cell (`uint64_t`): the low byte is the glyph index, the
      remaining bits are attributes this program carries but never reads. */
  newtype Cell = x: int | 0 <= x < 0x1_0000_0000_0000_0000

  /** A grid of cells, row by row. */
  type Grid = seq<seq<Cell>>

  datatype Option<T> = None | Some(value: T)

  /** The byte strings of `parts`, one after another. */
  function Flatten(parts: seq<seq<byte>>): seq<byte>
  {
    if parts == [] then [] else parts[0] + Flatten(parts[1..])
  }

  /** Concatenation distributes over splitting the list of parts. */
  lemma {:induction false} FlattenAppend(a: seq<seq<byte>>, b: seq<seq<byte>>)
    ensures Flatten(a + b) == Flatten(a) + Flatten(b)
  {
    if a == [] {
      assert a + b == b;
    } else {
      assert (a + b)[1..] == a[1..] + b;
      FlattenAppend(a[1..], b);
    }
  }

  /** Flattening a list extended by one part appends that part. */
  lemma FlattenSnoc(a: seq<seq<byte>>, x: seq<byte>)
    ensures Flatten(a + [x]) == Flatten(a) + x
  {
    FlattenAppend(a, [x]);
    assert Flatten([x]) == x + Flatten([]);
  }
}
