/** The hand-written HKDF of companion/.../PrhSigning.kt against sections 2.2 and 2.3 of RFC 5869, with HMAC an
    uninterpreted function of 32 bytes. */
module Hkdf {
  type Byte = b: int | 0 <= b < 256 witness 0

  const HASH_LEN := 32

  /** HMAC with a key, on a message. */
  type Hmac = (seq<Byte>, seq<Byte>) -> seq<Byte>

  ghost predicate Hashes(mac: Hmac) {
    forall k, m :: |mac(k, m)| == HASH_LEN
  }

  /** T(n), with T(0) empty: T(n) = HMAC(PRK, T(n - 1) | info | n). */
  ghost function T(mac: Hmac, prk: seq<Byte>, info: seq<Byte>, n: nat): seq<Byte>
    requires n <= 255
  {
    if n == 0 then [] else mac(prk, T(mac, prk, info, n - 1) + info + [n as Byte])
  }

  /** T(1) | T(2) | ... | T(n) */
  ghost function Ts(mac: Hmac, prk: seq<Byte>, info: seq<Byte>, n: nat): seq<Byte>
    requires n <= 255
  {
    if n == 0 then [] else Ts(mac, prk, info, n - 1) + T(mac, prk, info, n)
  }

  lemma {:induction false} TsLength(mac: Hmac, prk: seq<Byte>, info: seq<Byte>, n: nat)
    requires Hashes(mac) && n <= 255
    ensures |Ts(mac, prk, info, n)| == n * HASH_LEN
  {
    if n > 0 {
      TsLength(mac, prk, info, n - 1);
    }
  }

  lemma {:induction false} TsPrefix(mac: Hmac, prk: seq<Byte>, info: seq<Byte>, m: nat, n: nat)
    requires m <= n <= 255
    ensures Ts(mac, prk, info, m) <= Ts(mac, prk, info, n)
    decreases n
  {
    if m < n {
      TsPrefix(mac, prk, info, m, n - 1);
    }
  }

  /** The first two blocks, written out. */
  lemma FirstBlocks(mac: Hmac, salt: seq<Byte>, secret: seq<Byte>, info: seq<Byte>)
    requires Hashes(mac)
    ensures var prk := mac(salt, secret); var one := mac(prk, info + [1]); var all := Ts(mac, prk, info, 255);
      |all| == 255 * 32 && all[..32] == one && all[32..64] == mac(prk, one + info + [2])
  {
    var prk := mac(salt, secret);
    Block(mac, prk, info, 1);
    Block(mac, prk, info, 2);
    assert [] + info + [1 as Byte] == info + [1];
    hide Ts, T;
  }

  /** The low byte of the counter, as the conversion to a byte keeps it. */
  function LowByte(n: nat): Byte {
    n % 256
  }

  method CopyInto(block: seq<Byte>, out: array<Byte>, pos: nat, n: nat)
    requires n <= |block| && pos + n <= out.Length
    modifies out
    ensures out[..pos + n] == old(out[..pos]) + block[..n] && out[pos + n..] == old(out[pos + n..])
  {
    forall i | 0 <= i < n {
      out[pos + i] := block[i];
    }
  }

  /** hkdf: the first `length` bytes of T(1) | T(2) | ..., keyed by HMAC(salt, secret), for every length the standard
      allows; a last block is truncated. */
  method Derive(mac: Hmac, secret: seq<Byte>, salt: seq<Byte>, info: seq<Byte>, length: nat) returns (out: array<Byte>)
    requires Hashes(mac) && length <= 255 * HASH_LEN
    ensures fresh(out) && out.Length == length
    ensures length <= |Ts(mac, mac(salt, secret), info, 255)| &&
      out[..] == Ts(mac, mac(salt, secret), info, 255)[..length]
  {
    var prk := mac(salt, secret);
    out := new Byte[length];
    var block: seq<Byte> := [];
    var pos := 0;
    var counter := 1;
    ghost var all := Ts(mac, prk, info, 255);
    TsLength(mac, prk, info, 255);
    while pos < length
      invariant 1 <= counter <= 256 && block == T(mac, prk, info, counter - 1)
      invariant pos == (if (counter - 1) * HASH_LEN < length then (counter - 1) * HASH_LEN else length)
      invariant out[..pos] == all[..pos]
    {
      hide Ts, T, Hashes, LowByte;
      Block(mac, prk, info, counter);
      block := mac(prk, block + info + [LowByte(counter)]);
      var n := if |block| < length - pos then |block| else length - pos;
      CopyInto(block, out, pos, n);
      assert all[..pos + n] == all[..pos] + block[..n];
      pos := pos + n;
      counter := counter + 1;
    }
  }

  /** Where T(n) sits in the concatenation. */
  lemma Block(mac: Hmac, prk: seq<Byte>, info: seq<Byte>, n: nat)
    requires Hashes(mac) && 1 <= n <= 255
    ensures var all := Ts(mac, prk, info, 255);
      |all| == 255 * HASH_LEN && all[(n - 1) * HASH_LEN..n * HASH_LEN] == T(mac, prk, info, n)
    ensures |T(mac, prk, info, n)| == HASH_LEN
    ensures T(mac, prk, info, n) == mac(prk, T(mac, prk, info, n - 1) + info + [LowByte(n)])
  {
    TsLength(mac, prk, info, n - 1);
    TsLength(mac, prk, info, n);
    TsLength(mac, prk, info, 255);
    TsPrefix(mac, prk, info, n, 255);
    assert Ts(mac, prk, info, n) == Ts(mac, prk, info, n - 1) + T(mac, prk, info, n);
  }
}
