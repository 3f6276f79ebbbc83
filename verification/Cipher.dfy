/** crypto_encrypt and crypto_decrypt of src/server/crypto.c (the client's copy is identical). Bytes are
    bv8, the accumulators 32-bit; `char` is signed, so a byte is sign-extended when it is added. */
module Cipher {
  import opened Bytes

  /** The buffer holds a terminated string. */
  ghost predicate Terminated(s: seq<byte>) {
    exists i :: 0 <= i < |s| && s[i] == 0
  }

  /** strlen. */
  function StrLen(s: seq<byte>): (n: nat)
    requires Terminated(s)
    ensures n < |s| && s[n] == 0 && forall i :: 0 <= i < n ==> s[i] != 0
  {
    if s[0] == 0 then 0
    else
      assert Terminated(s[1..]) by {
        var i :| 0 <= i < |s| && s[i] == 0;
        assert s[1..][i - 1] == 0;
      }
      1 + StrLen(s[1..])
  }

  /** The string a buffer holds. */
  function CString(s: seq<byte>): seq<byte>
    requires Terminated(s)
  {
    s[..StrLen(s)]
  }

  lemma StrLenUnique(s: seq<byte>, n: nat)
    requires n < |s| && s[n] == 0 && forall i :: 0 <= i < n ==> s[i] != 0
    ensures Terminated(s) && StrLen(s) == n
  {
  }

  method ComputeStrLen(s: array<byte>) returns (n: nat)
    requires Terminated(s[..])
    ensures n == StrLen(s[..])
  {
    n := 0;
    while s[n] != 0
      invariant 0 <= n <= StrLen(s[..]) < s.Length
      decreases s.Length - n
    {
      n := n + 1;
    }
    StrLenUnique(s[..], n);
  }

  // ---- the keystream parameters -----------------------------------------------------------

  /** One round of get_hash and of the two key loops. */
  function Round(acc: bv32, b: byte): bv32 {
    var a := acc + SignExtend(b);
    a - ((a << 13) | (a >> 19))
  }

  /** Rounds over key[start], key[start + step], ... */
  function Mix(key: seq<byte>, start: nat, step: nat, acc: bv32): bv32
    requires step > 0
    decreases |key| - start
  {
    if start >= |key| then acc else Mix(key, start + step, step, Round(acc, key[start]))
  }

  function Low(x: bv32): byte {
    (x & 0xFF) as bv8
  }

  datatype Params = Params(m1: byte, m2: byte, hash: byte)

  /** The low bytes of m1, m2 and the hash: all that ever reaches a byte of the string. */
  function ParamsOf(key: seq<byte>): Params {
    Params(Low(Mix(key, 0, 2, 0)), Low(Mix(key, 1, 2, 0)), Low(Mix(key, 0, 1, 0)))
  }

  method MixLoop(key: array<byte>, start: nat, step: nat, len: nat) returns (acc: bv32)
    requires step > 0 && len <= key.Length
    ensures acc == Mix(key[..len], start, step, 0)
  {
    acc := 0;
    var i := start;
    while i < len
      invariant Mix(key[..len], i, step, acc) == Mix(key[..len], start, step, 0)
      decreases len - i
    {
      acc := Round(acc, key[i]);
      i := i + step;
    }
  }

  lemma MixStep(key: seq<byte>, i: nat, step: nat, acc: bv32, next: bv32)
    requires step > 0 && i < |key| && Round(acc, key[i]) == next
    ensures Mix(key, i, step, acc) == Mix(key, i + step, step, next)
  {
  }

  lemma MixEnd(key: seq<byte>, i: nat, step: nat, acc: bv32)
    requires step > 0 && i >= |key|
    ensures Mix(key, i, step, acc) == acc
  {
  }

  /** The parameters of one key, worked out: four letters and a byte above 127, which counts as negative. */
  lemma KnownKey()
    ensures ParamsOf([0x73, 0x65, 0x63, 0x72, 0xe9]) == Params(0x47, 0xd9, 0x54)
  {
    hide Mix;
    var key: seq<byte> := [0x73, 0x65, 0x63, 0x72, 0xe9];
    MixStep(key, 0, 2, 0x00000000, 0xfff1a073);
    MixStep(key, 2, 2, 0xfff1a073, 0xcbd6c0d8);
    MixStep(key, 4, 2, 0xcbd6c0d8, 0xf3be8747);
    MixEnd(key, 6, 2, 0xf3be8747);
    MixStep(key, 1, 2, 0x00000000, 0xfff36065);
    MixStep(key, 3, 2, 0xfff36065, 0x93d860d9);
    MixEnd(key, 5, 2, 0x93d860d9);
    MixStep(key, 0, 1, 0x00000000, 0xfff1a073);
    MixStep(key, 1, 1, 0xfff1a073, 0xcbd680da);
    MixStep(key, 2, 1, 0xcbd680da, 0xfbaec7c3);
    MixStep(key, 3, 1, 0xfbaec7c3, 0x22a808c0);
    MixStep(key, 4, 1, 0x22a808c0, 0x2192e454);
    MixEnd(key, 5, 1, 0x2192e454);
  }

  // ---- one byte ---------------------------------------------------------------------------

  function Xor(a: byte, b: byte): byte {
    a ^ b
  }

  function Plus(a: byte, b: byte): byte {
    a + b
  }

  function Minus(a: byte, b: byte): byte {
    a - b
  }

  function EncryptByte(b: byte, m1: byte, m2: byte, hash: byte): byte {
    Xor(Minus(Xor(b, m1), hash), m2)
  }

  function DecryptByte(b: byte, m1: byte, m2: byte, hash: byte): byte {
    Xor(Plus(Xor(b, m2), hash), m1)
  }

  /** The byte that encrypts to 0. */
  function FatalByte(m1: byte, m2: byte, hash: byte): byte {
    Xor(Plus(m2, hash), m1)
  }

  function Enc(b: byte, p: Params): byte {
    EncryptByte(b, p.m1, p.m2, p.hash)
  }

  function Dec(b: byte, p: Params): byte {
    DecryptByte(b, p.m1, p.m2, p.hash)
  }

  function Fatal(p: Params): byte {
    FatalByte(p.m1, p.m2, p.hash)
  }

  lemma ByteRoundTrip(b: byte, m1: byte, m2: byte, hash: byte)
    ensures DecryptByte(EncryptByte(b, m1, m2, hash), m1, m2, hash) == b
  {
    hide Xor, Plus, Minus;
    Cancel(Minus(Xor(b, m1), hash), m2);
    MinusPlus(Xor(b, m1), hash);
    Cancel(b, m1);
  }

  lemma MinusPlus(x: byte, h: byte)
    ensures Plus(Minus(x, h), h) == x
    ensures Minus(Plus(x, h), h) == x
  {
  }

  lemma Cancel(b: byte, m: byte)
    ensures Xor(Xor(b, m), m) == b
  {
  }

  lemma XorZero(a: byte, m: byte)
    ensures Xor(a, m) == 0 <==> a == m
  {
  }

  lemma FatalMeaning(b: byte, m1: byte, m2: byte, hash: byte)
    ensures EncryptByte(b, m1, m2, hash) == 0 <==> b == FatalByte(m1, m2, hash)
  {
    hide Xor, Plus, Minus;
    XorZero(Minus(Xor(b, m1), hash), m2);
    MinusPlus(Xor(b, m1), hash);
    MinusPlus(m2, hash);
    Cancel(b, m1);
    Cancel(Plus(m2, hash), m1);
  }

  /** A round subtracts the accumulator's rotation by 13 bits. */
  lemma RoundRotates(acc: bv32, b: byte)
    ensures var a := acc + SignExtend(b); Round(acc, b) == a - a.RotateLeft(13)
  {
  }

  /** The byte c stands for: the three operations undone in the opposite order. */
  lemma EncryptByteExactly(b: byte, c: byte, m1: byte, m2: byte, hash: byte)
    ensures EncryptByte(b, m1, m2, hash) == c <==> b == ((c ^ m2) + hash) ^ m1
    ensures DecryptByte(c, m1, m2, hash) == ((c ^ m2) + hash) ^ m1
  {
    ByteRoundTrip(b, m1, m2, hash);
    EncryptsBack(c, m1, m2, hash);
    assert DecryptByte(c, m1, m2, hash) == ((c ^ m2) + hash) ^ m1;
    hide EncryptByte, DecryptByte;
  }

  lemma EncryptsBack(c: byte, m1: byte, m2: byte, hash: byte)
    ensures EncryptByte(DecryptByte(c, m1, m2, hash), m1, m2, hash) == c
  {
    hide Xor, Plus, Minus;
    Cancel(Plus(Xor(c, m2), hash), m1);
    MinusPlus(Xor(c, m2), hash);
    Cancel(c, m2);
  }

  // ---- the whole buffer -------------------------------------------------------------------

  function Encrypted(s: seq<byte>, p: Params): (r: seq<byte>)
    requires Terminated(s)
  {
    seq(|s|, i requires 0 <= i < |s| => if i < StrLen(s) then Enc(s[i], p) else s[i])
  }

  function Decrypted(s: seq<byte>, p: Params): (r: seq<byte>)
    requires Terminated(s)
  {
    seq(|s|, i requires 0 <= i < |s| => if i < StrLen(s) then Dec(s[i], p) else s[i])
  }

  /** The key part of both functions: get_hash over the key, then the even and the odd positions. The
      caller's `hash & 0xff` of crypto_encrypt and the full hash of crypto_decrypt have one low byte. */
  method Prepare(key: array<byte>) returns (m1: bv32, m2: bv32, hash: bv32)
    requires Terminated(key[..])
    ensures Params(Low(m1), Low(m2), Low(hash)) == ParamsOf(CString(key[..]))
  {
    var len := ComputeStrLen(key);
    hash := MixLoop(key, 0, 1, len);
    m1 := MixLoop(key, 0, 2, len);
    m2 := MixLoop(key, 1, 2, len);
    assert key[..len] == key[..][..len];
  }

  // What the compound assignments leave in a char: the low byte of the 32-bit result.

  lemma LowXor(b: byte, m: bv32)
    ensures Low(SignExtend(b) ^ m) == Xor(b, Low(m))
  {
  }

  lemma LowSub(b: byte, m: bv32)
    ensures Low(SignExtend(b) - (m & 0xFF)) == Minus(b, Low(m))
  {
  }

  lemma LowAdd(b: byte, m: bv32)
    ensures Low(SignExtend(b) + m) == Plus(b, Low(m))
  {
  }

  method EncryptOne(b: byte, m1: bv32, m2: bv32, hash: bv32) returns (r: byte)
    ensures r == EncryptByte(b, Low(m1), Low(m2), Low(hash))
  {
    hide Low, SignExtend, Xor, Plus, Minus;
    LowXor(b, m1);
    r := Low(SignExtend(b) ^ m1);
    LowSub(r, hash);
    r := Low(SignExtend(r) - (hash & 0xFF));
    LowXor(r, m2);
    r := Low(SignExtend(r) ^ m2);
  }

  method DecryptOne(b: byte, m1: bv32, m2: bv32, hash: bv32) returns (r: byte)
    ensures r == DecryptByte(b, Low(m1), Low(m2), Low(hash))
  {
    hide Low, SignExtend, Xor, Plus, Minus;
    LowXor(b, m2);
    r := Low(SignExtend(b) ^ m2);
    LowAdd(r, hash);
    r := Low(SignExtend(r) + hash);
    LowXor(r, m1);
    r := Low(SignExtend(r) ^ m1);
  }

  /** crypto_encrypt; `str` and `key` may even be the same buffer. */
  method Encrypt(str: array<byte>, key: array<byte>)
    requires Terminated(str[..]) && Terminated(key[..])
    modifies str
    ensures str[..] == Encrypted(old(str[..]), ParamsOf(CString(old(key[..]))))
  {
    hide EncryptByte, Low;
    var m1, m2, hash := Prepare(key);
    ghost var p := ParamsOf(CString(key[..]));
    ghost var before := str[..];
    var len := ComputeStrLen(str);
    for i := 0 to len
      invariant forall k :: 0 <= k < i ==> str[k] == Enc(before[k], p)
      invariant forall k :: i <= k < str.Length ==> str[k] == before[k]
    {
      str[i] := EncryptOne(str[i], m1, m2, hash);
    }
  }

  /** crypto_decrypt. */
  method Decrypt(str: array<byte>, key: array<byte>)
    requires Terminated(str[..]) && Terminated(key[..])
    modifies str
    ensures str[..] == Decrypted(old(str[..]), ParamsOf(CString(old(key[..]))))
  {
    hide DecryptByte, Low;
    var m1, m2, hash := Prepare(key);
    ghost var p := ParamsOf(CString(key[..]));
    ghost var before := str[..];
    var len := ComputeStrLen(str);
    for i := 0 to len
      invariant forall k :: 0 <= k < i ==> str[k] == Dec(before[k], p)
      invariant forall k :: i <= k < str.Length ==> str[k] == before[k]
    {
      str[i] := DecryptOne(str[i], m1, m2, hash);
    }
  }

  // ---- round trip -------------------------------------------------------------------------

  /** Where the encrypted buffer now ends: at its first fatal byte, or at the old end. */
  ghost predicate FirstFatal(s: seq<byte>, p: Params, n: nat)
    requires Terminated(s)
  {
    && n <= StrLen(s)
    && (n < StrLen(s) ==> s[n] == Fatal(p))
    && forall i :: 0 <= i < n ==> s[i] != Fatal(p)
  }

  lemma {:induction false} FirstFatalExists(s: seq<byte>, p: Params, from: nat) returns (n: nat)
    requires Terminated(s) && from <= StrLen(s) && forall i :: 0 <= i < from ==> s[i] != Fatal(p)
    ensures FirstFatal(s, p, n)
    decreases StrLen(s) - from
  {
    if from == StrLen(s) || s[from] == Fatal(p) {
      n := from;
    } else {
      n := FirstFatalExists(s, p, from + 1);
    }
  }

  /** The encrypted string ends where the first fatal byte stood. */
  lemma EncryptedEnds(s: seq<byte>, p: Params, n: nat)
    requires Terminated(s) && FirstFatal(s, p, n)
    ensures Terminated(Encrypted(s, p)) && StrLen(Encrypted(s, p)) == n
  {
    var e := Encrypted(s, p);
    forall i | 0 <= i <= n
      ensures e[i] == 0 <==> i == n
    {
      FatalMeaning(s[i], p.m1, p.m2, p.hash);
    }
    StrLenUnique(e, n);
  }

  /** Decrypting after encrypting gives, read as a C string, the original cut just before its first
      fatal byte; bytes from the original terminator on never change. */
  lemma RoundTripString(s: seq<byte>, p: Params, n: nat)
    requires Terminated(s) && FirstFatal(s, p, n)
    ensures Terminated(Encrypted(s, p)) && Terminated(Decrypted(Encrypted(s, p), p))
    ensures CString(Decrypted(Encrypted(s, p), p)) == s[..n]
    ensures forall i :: StrLen(s) <= i < |s| ==> Encrypted(s, p)[i] == s[i] && Decrypted(Encrypted(s, p), p)[i] == s[i]
  {
    EncryptedEnds(s, p, n);
    var e := Encrypted(s, p);
    var d := Decrypted(e, p);
    forall i | 0 <= i < n
      ensures d[i] == s[i]
    {
      ByteRoundTrip(s[i], p.m1, p.m2, p.hash);
    }
    StrLenUnique(d, n);
  }

  /** The buffer is restored exactly when the string has no fatal byte. */
  lemma RoundTripExact(s: seq<byte>, p: Params)
    requires Terminated(s)
    ensures Terminated(Encrypted(s, p))
    ensures Decrypted(Encrypted(s, p), p) == s <==> Fatal(p) !in CString(s)
  {
    var n := FirstFatalExists(s, p, 0);
    EncryptedEnds(s, p, n);
    RoundTripString(s, p, n);
    var e := Encrypted(s, p);
    var d := Decrypted(e, p);
    if n < StrLen(s) {
      assert d[n] == e[n] == 0 && s[n] != 0;
      assert CString(s)[n] == Fatal(p);
    } else {
      assert d == s by {
        assert forall i :: 0 <= i < n ==> d[i] == s[..n][i] by {
          assert CString(d) == s[..n] && StrLen(d) == n;
        }
      }
    }
  }

  /** Encrypting and decrypting with this key restores every string. */
  ghost predicate AlwaysRestores(p: Params) {
    forall s :: Terminated(s) && Terminated(Encrypted(s, p)) ==> Decrypted(Encrypted(s, p), p) == s
  }

  /** A key restores every string exactly if its fatal byte is 0, which no string contains; otherwise the
      string of that one byte is encrypted to nothing but terminators. */
  lemma SafeKeys(p: Params)
    ensures AlwaysRestores(p) <==> Fatal(p) == 0
    ensures Fatal(p) != 0 ==> Terminated([Fatal(p), 0]) && Encrypted([Fatal(p), 0], p) == [0, 0]
  {
    forall s | Terminated(s)
      ensures Terminated(Encrypted(s, p)) && (Fatal(p) == 0 ==> Decrypted(Encrypted(s, p), p) == s)
    {
      RoundTripExact(s, p);
    }
    if Fatal(p) != 0 {
      var s := [Fatal(p), 0];
      assert s[1] == 0 && Terminated(s);
      RoundTripExact(s, p);
      StrLenUnique(s, 1);
      assert CString(s)[0] == Fatal(p);
      FatalMeaning(s[0], p.m1, p.m2, p.hash);
      assert Encrypted(s, p) == [0, 0];
    }
  }

  /** Keys of at most one character are safe for every string: they mix nothing into the odd places, and
      m1 is the hash. */
  lemma ShortKeysAreSafe(key: seq<byte>)
    requires |key| <= 1
    ensures AlwaysRestores(ParamsOf(key))
  {
    var p := ParamsOf(key);
    if |key| == 1 {
      assert Mix(key, 0, 2, 0) == Round(0, key[0]) == Mix(key, 0, 1, 0);
    }
    assert p.m1 == p.hash && p.m2 == 0;
    SafeKeys(p);
  }

  /** The failing case is real: with the key "aa" the string "D" is not restored. */
  lemma UnsafeKey()
    ensures Fatal(ParamsOf([0x61, 0x61])) == 0x44
    ensures Terminated([0x44, 0]) && Encrypted([0x44, 0], ParamsOf([0x61, 0x61])) == [0, 0]
    ensures !AlwaysRestores(ParamsOf([0x61, 0x61]))
  {
    var key: seq<byte> := [0x61, 0x61];
    assert Mix(key, 0, 2, 0) == Round(0, 0x61) && Mix(key, 1, 2, 0) == Round(0, 0x61);
    assert Mix(key, 0, 1, 0) == Mix(key, 1, 1, Round(0, 0x61)) == Round(Round(0, 0x61), 0x61);
    SafeKeys(ParamsOf(key));
  }

  /** A round trip in place, as the two methods perform it. */
  method EncryptThenDecrypt(str: array<byte>, key: array<byte>)
    requires str != key && Terminated(str[..]) && Terminated(key[..])
    modifies str
    ensures str[..] == old(str[..]) <==> Fatal(ParamsOf(CString(key[..]))) !in CString(old(str[..]))
  {
    RoundTripExact(str[..], ParamsOf(CString(key[..])));
    Encrypt(str, key);
    Decrypt(str, key);
  }
}
