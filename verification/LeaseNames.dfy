/**
 leaseName of apis/election/coordinator.go: the byte buffer that is hashed into
 the name of a scope's Lease.  The hash itself is not part of this model.
 */
module LeaseNames {
  type Byte = x: int | 0 <= x < 256

  const WIDTH := 0x1_0000_0000

  /** The four bytes that PutUint32 writes, most significant first. */
  function BigEndian(x: nat): (b: seq<Byte>)
    requires x < WIDTH
    ensures |b| == 4
  {
    [x / 0x100_0000, x / 0x1_0000 % 0x100, x / 0x100 % 0x100, x % 0x100]
  }

  function FromBigEndian(b: seq<Byte>): nat
    requires |b| == 4
  {
    b[0] as int * 0x100_0000 + b[1] as int * 0x1_0000 + b[2] as int * 0x100 + b[3]
  }

  lemma BigEndianRoundTrip(x: nat)
    requires x < WIDTH
    ensures FromBigEndian(BigEndian(x)) == x
  {
    var a, b := x / 0x100, x / 0x1_0000;
    assert a == x / 0x1_0000 * 0x100 + x / 0x100 % 0x100;
    assert b == x / 0x100_0000 * 0x100 + x / 0x1_0000 % 0x100;
  }

  /** The length prefix: conversion to 32 bits, then big-endian bytes. */
  function LengthPrefix(s: seq<Byte>): (b: seq<Byte>)
    ensures |b| == 4
  {
    BigEndian(|s| % WIDTH)
  }

  function Payload(token: seq<Byte>, namespace: seq<Byte>): seq<Byte> {
    LengthPrefix(token) + token + LengthPrefix(namespace) + namespace
  }

  method PutUint32(buffer: array<Byte>, offset: nat, x: nat)
    requires x < WIDTH && offset + 4 <= buffer.Length
    modifies buffer
    ensures buffer[..] == old(buffer[..offset]) + BigEndian(x) + old(buffer[offset + 4..])
  {
    buffer[offset] := x / 0x100_0000;
    buffer[offset + 1] := x / 0x1_0000 % 0x100;
    buffer[offset + 2] := x / 0x100 % 0x100;
    buffer[offset + 3] := x % 0x100;
    assert buffer[offset..offset + 4] == BigEndian(x);
    assert buffer[..offset] == old(buffer[..offset]);
    assert buffer[offset + 4..] == old(buffer[offset + 4..]);
    assert buffer[..] == buffer[..offset] + buffer[offset..offset + 4] + buffer[offset + 4..];
  }

  /** copy of a whole slice into the buffer. */
  method CopyInto(buffer: array<Byte>, offset: nat, source: seq<Byte>)
    requires offset + |source| <= buffer.Length
    modifies buffer
    ensures buffer[..] == old(buffer[..offset]) + source + old(buffer[offset + |source|..])
  {
    var i := 0;
    while i < |source|
      invariant i <= |source|
      invariant buffer[..offset] == old(buffer[..offset])
      invariant buffer[offset..offset + i] == source[..i]
      invariant buffer[offset + |source|..] == old(buffer[offset + |source|..])
    {
      buffer[offset + i] := source[i];
      i := i + 1;
    }
    assert buffer[..] == buffer[..offset] + buffer[offset..offset + |source|] + buffer[offset + |source|..];
  }

  method FillPayload(token: seq<Byte>, namespace: seq<Byte>) returns (payload: array<Byte>)
    ensures fresh(payload) && payload[..] == Payload(token, namespace)
  {
    payload := new Byte[8 + |token| + |namespace|];
    PutUint32(payload, 0, |token| % WIDTH);
    CopyInto(payload, 4, token);
    var offset := 4 + |token|;
    assert payload[..offset] == LengthPrefix(token) + token;
    PutUint32(payload, offset, |namespace| % WIDTH);
    assert payload[..offset + 4] == LengthPrefix(token) + token + LengthPrefix(namespace);
    CopyInto(payload, offset + 4, namespace);
    assert payload[..] == payload[..offset + 4] + namespace;
  }

  lemma BigEndianIsInjective(x: nat, y: nat)
    requires x < WIDTH && y < WIDTH && BigEndian(x) == BigEndian(y)
    ensures x == y
  {
    var b := BigEndian(x);
    assert FromBigEndian(b) == x by {
      BigEndianRoundTrip(x);
    }
    assert FromBigEndian(b) == y by {
      BigEndianRoundTrip(y);
    }
  }

  lemma ShortPrefix(s: seq<Byte>)
    requires |s| < WIDTH
    ensures LengthPrefix(s) == BigEndian(|s|)
  {
    assert |s| % WIDTH == |s|;
  }

  /** Distinct scopes fill distinct buffers, so they share a Lease only when the hash collides. */
  lemma ScopesAreSeparate(token: seq<Byte>, namespace: seq<Byte>, token': seq<Byte>, namespace': seq<Byte>)
    requires |token| < WIDTH && |namespace| < WIDTH && |token'| < WIDTH && |namespace'| < WIDTH
    requires Payload(token, namespace) == Payload(token', namespace')
    ensures token == token' && namespace == namespace'
  {
    var p, p' := Payload(token, namespace), Payload(token', namespace');
    assert p == LengthPrefix(token) + (token + LengthPrefix(namespace) + namespace);
    assert p' == LengthPrefix(token') + (token' + LengthPrefix(namespace') + namespace');
    assert p[..4] == LengthPrefix(token) && p'[..4] == LengthPrefix(token');
    ShortPrefix(token);
    ShortPrefix(token');
    BigEndianIsInjective(|token|, |token'|);
    var n := 4 + |token|;
    assert p[4..n] == token && p'[4..n] == token';
    assert p[n + 4..] == namespace && p'[n + 4..] == namespace';
  }

  /** At a length of 2^32 the prefix wraps, and two scopes fill the same buffer. */
  lemma LongScopesCollide()
    ensures exists token: seq<Byte>, namespace: seq<Byte> ::
              |token| == WIDTH && token != namespace && Payload(token, namespace) == Payload(namespace, token)
  {
    var zeros: seq<Byte> := seq(WIDTH, _ => 0);
    var none: seq<Byte> := [];
    assert LengthPrefix(zeros) == LengthPrefix(none) == [0, 0, 0, 0];
    var p, p' := Payload(zeros, none), Payload(none, zeros);
    assert |p| == |p'| && forall i | 0 <= i < |p| :: p[i] == p'[i] == 0;
    assert p == p';
  }
}
