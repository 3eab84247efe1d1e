/** Vocabulary shared by every module: bytes, options and the exceptions that travel through the transports. */
module Prelude {

  newtype byte = x: int | 0 <= x < 256

  datatype Option<+T> = None | Some(value: T)

  /** The exceptions the model tells apart. `UserError` is whatever an application callback raises. */
  datatype Exn =
    | OsError
    | ConnectionReset
    | ConnectionAborted
    | RuntimeErr
    | ValueErr
    | TimeoutErr
    | AttributeErr
    | SslErr
    | UserError

  function Min(a: int, b: int): (m: int)
    ensures m <= a && m <= b && (m == a || m == b)
  {
    if a < b then a else b
  }

  function Max(a: int, b: int): (m: int)
    ensures a <= m && b <= m && (m == a || m == b)
  {
    if a < b then b else a
  }

  /** The concatenation of a list of byte strings. */
  function Flatten<T>(lines: seq<seq<T>>): (r: seq<T>)
    ensures lines == [] ==> r == []
  {
    if lines == [] then [] else lines[0] + Flatten(lines[1..])
  }

  lemma {:induction false} FlattenConcat<T>(a: seq<seq<T>>, b: seq<seq<T>>)
    ensures Flatten(a + b) == Flatten(a) + Flatten(b)
  {
    if a == [] {
      assert a + b == b;
    } else {
      FlattenConcat(a[1..], b);
      assert (a + b)[1..] == a[1..] + b;
    }
  }

  lemma FlattenSnoc<T>(a: seq<seq<T>>, x: seq<T>)
    ensures Flatten(a + [x]) == Flatten(a) + x
  {
    FlattenConcat(a, [x]);
    assert Flatten([x]) == x + Flatten([][..]);
  }

  lemma Assoc<T>(a: seq<T>, b: seq<T>, c: seq<T>)
    ensures a + (b + c) == (a + b) + c
  {
  }

  /** A prefix of what is left after a prefix makes a longer prefix. */
  lemma PrefixGrows<T>(a: seq<T>, data: seq<T>, m: nat, n: nat)
    requires m + n <= |data|
    ensures (a + data[..m]) + data[m..][..n] == a + data[..m + n]
  {
  }
}
