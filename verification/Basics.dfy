/** Result types and byte helpers shared by the models. */
module Basics {
  datatype Option<+T> = None | Some(value: T)

  datatype Result<+T, +E> = Ok(value: T) | Err(error: E)

  type byte = x: int | 0 <= x < 256

  type bytes = seq<byte>

  /** Four big-endian bytes, as `Buffer.writeUInt32BE` lays them out. */
  function WriteU32(n: nat): (b: bytes)
    requires n < 0x1_0000_0000
    ensures |b| == 4
  {
    [n / 256 / 256 / 256, n / 256 / 256 % 256, n / 256 % 256, n % 256]
  }

  function ReadU32(b: bytes): nat
    requires |b| >= 4
  {
    (((b[0] as int) * 256 + b[1]) * 256 + b[2]) * 256 + b[3]
  }

  lemma ReadWriteU32(n: nat, b: bytes)
    requires n < 0x1_0000_0000
    requires |b| >= 4 && b[..4] == WriteU32(n)
    ensures ReadU32(b) == n
  {
    var w := WriteU32(n);
    assert b[0] == b[..4][0] && b[1] == b[..4][1] && b[2] == b[..4][2] && b[3] == b[..4][3];
  }

  /** The concatenation of a list of byte strings. */
  function Join(parts: seq<bytes>): bytes {
    if parts == [] then [] else parts[0] + Join(parts[1..])
  }

  lemma {:induction false} JoinConcat(a: seq<bytes>, b: seq<bytes>)
    ensures Join(a + b) == Join(a) + Join(b)
  {
    if a == [] {
      assert a + b == b;
    } else {
      assert (a + b)[1..] == a[1..] + b;
      JoinConcat(a[1..], b);
    }
  }

  lemma {:induction false} JoinSplit(parts: seq<bytes>, k: nat)
    requires k < |parts|
    ensures Join(parts[..k + 1]) == Join(parts[..k]) + parts[k]
    ensures Join(parts) == Join(parts[..k]) + parts[k] + Join(parts[k + 1..])
  {
    assert parts[..k + 1] == parts[..k] + [parts[k]];
    JoinConcat(parts[..k], [parts[k]]);
    assert Join([parts[k]]) == parts[k];
    assert parts == parts[..k + 1] + parts[k + 1..];
    JoinConcat(parts[..k + 1], parts[k + 1..]);
  }
}
