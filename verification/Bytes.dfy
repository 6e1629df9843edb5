/** Bytes, records and their concatenation. */
module Bytes {

  newtype Byte = b: int | 0 <= b < 256

  /** A run of bytes: a message buffer, a cell of a ring, a stream. */
  type Bytes = seq<Byte>

  /** Every element of `log` is exactly `size` bytes long. */
  ghost predicate Uniform(log: seq<Bytes>, size: nat) {
    forall i :: 0 <= i < |log| ==> |log[i]| == size
  }

  /** The byte stream obtained by writing the records of `log` one after the other. */
  function Flatten(log: seq<Bytes>): (stream: Bytes) {
    if log == [] then [] else Flatten(log[..|log| - 1]) + log[|log| - 1]
  }

  lemma {:induction false} FlattenAppend(log: seq<Bytes>, record: Bytes)
    ensures Flatten(log + [record]) == Flatten(log) + record
  {
    assert (log + [record])[..|log|] == log;
  }

  lemma {:induction false} FlattenLength(log: seq<Bytes>, size: nat)
    requires Uniform(log, size)
    ensures |Flatten(log)| == |log| * size
  {
    if log != [] {
      FlattenLength(log[..|log| - 1], size);
      assert |log| * size == (|log| - 1) * size + size;
    }
  }

  /** The first k records make up the first bytes of the stream. */
  lemma {:induction false} FlattenTake(log: seq<Bytes>, k: nat)
    requires k <= |log|
    ensures Flatten(log[..k]) <= Flatten(log)
    decreases |log|
  {
    if k == |log| {
      assert log[..k] == log;
    } else {
      var front := log[..|log| - 1];
      FlattenTake(front, k);
      assert front[..k] == log[..k];
    }
  }

  /** Record k of a uniform log occupies bytes k*size up to (k+1)*size of the stream. */
  lemma {:induction false} FlattenRecord(log: seq<Bytes>, size: nat, k: nat)
    requires Uniform(log, size) && k < |log|
    ensures 0 <= k * size <= (k + 1) * size <= |Flatten(log)|
    ensures Flatten(log)[k * size..(k + 1) * size] == log[k]
  {
    FlattenLength(log[..k], size);
    FlattenLength(log[..k + 1], size);
    FlattenTake(log, k + 1);
    assert log[..k + 1] == log[..k] + [log[k]];
    FlattenAppend(log[..k], log[k]);
    assert (k + 1) * size == k * size + size;
    var whole, part := Flatten(log), Flatten(log[..k + 1]);
    assert whole[..|part|] == part;
    assert whole[k * size..(k + 1) * size] == part[k * size..];
  }

  /** The first k records of `log` and the first `extra` bytes of the next one. */
  ghost function ReadSoFar(log: seq<Bytes>, k: nat, extra: nat): (stream: Bytes)
    requires k <= |log| && (0 < extra ==> k < |log| && extra <= |log[k]|)
  {
    Flatten(log[..k]) + if 0 < extra then log[k][..extra] else []
  }

  lemma {:induction false} EmptyStream()
    ensures ReadSoFar([], 0, 0) == []
  {
  }

  /** What has been read so far is a prefix of the whole stream. */
  lemma {:induction false} ReadIsPrefix(log: seq<Bytes>, size: nat, k: nat, extra: nat)
    requires Uniform(log, size) && k <= |log| && (0 < extra ==> k < |log| && extra <= size)
    ensures ReadSoFar(log, k, extra) <= Flatten(log)
    ensures |ReadSoFar(log, k, extra)| == k * size + extra
  {
    FlattenLength(log[..k], size);
    if 0 < extra {
      FlattenTake(log, k + 1);
      assert log[..k + 1] == log[..k] + [log[k]];
      FlattenAppend(log[..k], log[k]);
    } else {
      FlattenTake(log, k);
    }
  }

  /** Reading n more bytes of the current record. */
  lemma {:induction false} ReadMore(log: seq<Bytes>, k: nat, extra: nat, n: nat)
    requires k < |log| && extra + n <= |log[k]|
    ensures ReadSoFar(log, k, extra) + log[k][extra..extra + n] ==
            ReadSoFar(log, k, extra + n)
    ensures extra + n == |log[k]| ==> ReadSoFar(log, k, extra + n) == ReadSoFar(log, k + 1, 0)
  {
    assert log[k][..extra] + log[k][extra..extra + n] == log[k][..extra + n];
    if extra == 0 {
      assert ReadSoFar(log, k, 0) == Flatten(log[..k]);
      assert log[k][0..n] == log[k][..n];
    } else {
      assert Flatten(log[..k]) + log[k][..extra] + log[k][extra..extra + n]
          == Flatten(log[..k]) + log[k][..extra + n];
    }
    if extra + n == |log[k]| {
      assert log[..k + 1] == log[..k] + [log[k]];
      FlattenAppend(log[..k], log[k]);
    }
  }

  /** Records added at the end do not change what has been read. */
  lemma {:induction false} ReadStable(log: seq<Bytes>, record: Bytes, k: nat, extra: nat)
    requires k <= |log| && (0 < extra ==> k < |log| && extra <= |log[k]|)
    ensures ReadSoFar(log + [record], k, extra) == ReadSoFar(log, k, extra)
  {
    assert (log + [record])[..k] == log[..k];
  }
}
