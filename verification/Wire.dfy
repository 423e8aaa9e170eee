/** Big-endian numbers and length-prefixed strings over byte sequences. */
module Wire {

  type Byte = n: nat | n < 256
  type Bytes = seq<Byte>

  /** What a read yields: a value and the bytes not consumed, or an error. */
  datatype Read<T> = Ok(value: T, rest: Bytes) | Err

  function Pow256(k: nat): nat {
    if k == 0 then 1 else 256 * Pow256(k - 1)
  }

  /** The low `k` bytes of `n`, most significant first. */
  function BigEndian(n: nat, k: nat): (b: Bytes)
    ensures |b| == k
  {
    if k == 0 then [] else BigEndian(n / 256, k - 1) + [n % 256]
  }

  function Number(b: Bytes): nat {
    if b == [] then 0 else 256 * Number(b[..|b| - 1]) + b[|b| - 1]
  }

  lemma {:induction false} NumberOfBigEndian(n: nat, k: nat)
    requires n < Pow256(k)
    ensures Number(BigEndian(n, k)) == n
  {
    if k > 0 {
      NumberOfBigEndian(n / 256, k - 1);
      var b := BigEndian(n, k);
      assert b[..k - 1] == BigEndian(n / 256, k - 1);
    }
  }

  lemma Widths()
    ensures Pow256(1) == 0x100 && Pow256(2) == 0x1_0000
    ensures Pow256(4) == 0x1_0000_0000 && Pow256(8) == 0x1_0000_0000_0000_0000
  {
    assert Pow256(3) == 0x100_0000;
    assert Pow256(5) == 0x100_0000_0000;
    assert Pow256(6) == 0x1_0000_0000_0000;
    assert Pow256(7) == 0x100_0000_0000_0000;
  }

  function ReadNumber(b: Bytes, k: nat): (r: Read<nat>)
    ensures r.Ok? ==> |r.rest| + k == |b|
  {
    if |b| < k then Err else Ok(Number(b[..k]), b[k..])
  }

  /** A four-byte length, then that many bytes. */
  function ReadBlob(b: Bytes): (r: Read<Bytes>)
    ensures r.Ok? ==> |r.rest| + 4 + |r.value| == |b|
  {
    var len := ReadNumber(b, 4);
    if len.Err? then Err
    else if |len.rest| < len.value then Err
    else Ok(len.rest[..len.value], len.rest[len.value..])
  }

  function Blob(s: Bytes): Bytes {
    BigEndian(|s|, 4) + s
  }

  predicate Short(s: Bytes) {
    |s| < 0x1_0000_0000
  }

  lemma ReadWrittenNumber(n: nat, k: nat, rest: Bytes)
    requires n < Pow256(k)
    ensures ReadNumber(BigEndian(n, k) + rest, k) == Ok(n, rest)
  {
    var b := BigEndian(n, k);
    NumberOfBigEndian(n, k);
    assert (b + rest)[..k] == b && (b + rest)[k..] == rest;
  }

  lemma ReadWrittenBlob(s: Bytes, rest: Bytes)
    requires Short(s)
    ensures ReadBlob(Blob(s) + rest) == Ok(s, rest)
  {
    Widths();
    assert Blob(s) + rest == BigEndian(|s|, 4) + (s + rest);
    ReadWrittenNumber(|s|, 4, s + rest);
    assert (s + rest)[..|s|] == s && (s + rest)[|s|..] == rest;
  }

  lemma Regroup(a: Bytes, b: Bytes, c: Bytes)
    ensures a + b + c == a + (b + c)
  {
  }

  // ---------------------------------------------------------------- The encoder and the decoder

  /** An append-only buffer. */
  class Encoder {
    var buf: Bytes

    constructor ()
      ensures buf == []
    {
      buf := [];
    }

    method Write(b: Bytes)
      modifies this
      ensures buf == old(buf) + b
    {
      buf := buf + b;
    }

    method WriteByte(b: Byte)
      modifies this
      ensures buf == old(buf) + [b]
    {
      buf := buf + [b];
    }

    method WriteUint(n: nat, width: nat)
      modifies this
      ensures buf == old(buf) + BigEndian(n, width)
    {
      var b: Bytes := [];
      var m := n;
      var i := 0;
      while i < width
        invariant 0 <= i <= width
        invariant BigEndian(n, width) == BigEndian(m, width - i) + b
      {
        b := [m % 256] + b;
        m := m / 256;
        i := i + 1;
      }
      buf := buf + b;
    }

    method WriteBlob(s: Bytes)
      modifies this
      ensures buf == old(buf) + Blob(s)
    {
      WriteUint(|s|, 4);
      buf := buf + s;
    }
  }

  /** A reader consumed step by step: `data` is what is left. */
  class Decoder {
    var data: Bytes

    constructor (data: Bytes)
      ensures this.data == data
    {
      this.data := data;
    }

    method ReadFull(n: nat) returns (ok: bool, b: Bytes)
      modifies this
      ensures ok <==> n <= |old(data)|
      ensures ok ==> b == old(data)[..n] && data == old(data)[n..]
      ensures !ok ==> data == []
    {
      if |data| < n {
        data := [];
        return false, [];
      }
      ok, b := true, data[..n];
      data := data[n..];
    }

    method ReadUint(width: nat) returns (ok: bool, n: nat)
      modifies this
      ensures ok <==> ReadNumber(old(data), width).Ok?
      ensures ok ==> ReadNumber(old(data), width) == Ok(n, data)
      ensures !ok ==> data == []
    {
      n := 0;
      var b;
      ok, b := ReadFull(width);
      if !ok { return; }
      var i := 0;
      while i < width
        invariant 0 <= i <= width
        invariant n == Number(b[..i])
      {
        assert b[..i + 1][..i] == b[..i];
        n := 256 * n + b[i];
        i := i + 1;
      }
      assert b[..width] == b;
    }

    method ReadString() returns (ok: bool, s: Bytes)
      modifies this
      ensures ok <==> ReadBlob(old(data)).Ok?
      ensures ok ==> ReadBlob(old(data)) == Ok(s, data)
      ensures !ok ==> data == []
    {
      var len;
      ok, len := ReadUint(4);
      if !ok { return false, []; }
      ok, s := ReadFull(len);
    }
  }
}
