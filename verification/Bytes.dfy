/** Byte strings that are kept in pieces. */
module Bytes {
  import opened SeqNum

  function Flatten(parts: seq<seq<byte>>): seq<byte> {
    if parts == [] then [] else parts[0] + Flatten(parts[1..])
  }

  lemma FlattenCons(part: seq<byte>, parts: seq<seq<byte>>)
    ensures Flatten([part] + parts) == part + Flatten(parts)
  {
    assert ([part] + parts)[1..] == parts;
  }

  lemma {:induction false} FlattenAppend(parts: seq<seq<byte>>, p: seq<byte>)
    ensures Flatten(parts + [p]) == Flatten(parts) + p
    decreases |parts|
  {
    if parts != [] {
      assert (parts + [p])[1..] == parts[1..] + [p];
      FlattenAppend(parts[1..], p);
    } else {
      assert Flatten([p]) == p + Flatten([]);
    }
  }

  lemma {:induction false} FlattenSplit(parts: seq<seq<byte>>, k: nat)
    requires k <= |parts|
    ensures Flatten(parts) == Flatten(parts[..k]) + Flatten(parts[k..])
  {
    if k == 0 {
      assert parts[0..] == parts;
    } else {
      FlattenSplit(parts, k - 1);
      FlattenAppend(parts[..k - 1], parts[k - 1]);
      assert parts[..k - 1] + [parts[k - 1]] == parts[..k];
      assert Flatten(parts[k - 1..]) == parts[k - 1] + Flatten(parts[k..]) by {
        assert parts[k - 1..][1..] == parts[k..];
      }
    }
  }
}
