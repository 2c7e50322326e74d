/** A value that may be absent. */
module Wrappers {

  datatype Option<T> = None | Some(value: T)
}

/** Octets, and byte strings laid end to end. */
module Bytes {

  type Byte = x: int | 0 <= x < 256

  function Flatten(parts: seq<seq<Byte>>): seq<Byte> {
    if parts == [] then [] else Flatten(parts[..|parts| - 1]) + parts[|parts| - 1]
  }

  lemma EmptyFlatten()
    ensures Flatten([]) == []
  {
  }

  lemma FlattenAppend(parts: seq<seq<Byte>>, part: seq<Byte>)
    ensures Flatten(parts + [part]) == Flatten(parts) + part
  {
  }

  lemma {:induction false} FlattenConcat(a: seq<seq<Byte>>, b: seq<seq<Byte>>)
    ensures Flatten(a + b) == Flatten(a) + Flatten(b)
  {
    if b == [] {
      assert a + b == a;
    } else {
      var front := b[..|b| - 1];
      assert a + b == (a + front) + [b[|b| - 1]] && b == front + [b[|b| - 1]];
      FlattenConcat(a, front);
      FlattenAppend(a + front, b[|b| - 1]);
    }
  }

  lemma FlattenFirst(parts: seq<seq<Byte>>)
    requires parts != []
    ensures Flatten(parts) == parts[0] + Flatten(parts[1..])
  {
    assert parts == [parts[0]] + parts[1..];
    FlattenConcat([parts[0]], parts[1..]);
    assert Flatten([parts[0]]) == parts[0] by { FlattenAppend([], parts[0]); }
  }
}
