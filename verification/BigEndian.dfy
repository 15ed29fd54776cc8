/** Unsigned 32-bit big-endian integers. */
module BigEndian {
  import opened Utf8

  function Put32(n: nat): (r: seq<byte>)
    requires n < 0x1_0000_0000
    ensures |r| == 4
  {
    [n / 0x100_0000, n / 0x1_0000 % 256, n / 0x100 % 256, n % 256]
  }

  function Get32(b: seq<byte>): (n: nat)
    requires |b| == 4
    ensures n < 0x1_0000_0000
  {
    b[0] as int * 0x100_0000 + b[1] as int * 0x1_0000 + b[2] as int * 0x100 + b[3] as int
  }

  lemma GetPut(n: nat)
    requires n < 0x1_0000_0000
    ensures Get32(Put32(n)) == n
  {
    assert n == n / 0x100_0000 * 0x100_0000 + n / 0x1_0000 % 256 * 0x1_0000 + n / 0x100 % 256 * 0x100 + n % 256;
  }

  lemma Get32Injective(a: seq<byte>, b: seq<byte>)
    requires |a| == |b| == 4 && Get32(a) == Get32(b)
    ensures a == b
  {
    assert a[0] == b[0];
    assert a[1] == b[1];
    assert a[2] == b[2];
  }

  lemma {:induction false} PutGet(b: seq<byte>)
    requires |b| == 4
    ensures Put32(Get32(b)) == b
  {
    GetPut(Get32(b));
    Get32Injective(Put32(Get32(b)), b);
  }
}
