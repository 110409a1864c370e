/** Shard assignment: a djb2 hash of the device id under JavaScript's 32-bit operators
    (ToInt32 and ToUint32, sections 7.1.6 and 7.1.7 of ECMA-262). */
module Shard {

  const TWO_31: int := 0x8000_0000
  const TWO_32: int := 0x1_0000_0000

  /** The UTF-16 code units `charCodeAt` reads. */
  type CodeUnit = c: int | 0 <= c < 0x1_0000

  type DeviceId = seq<CodeUnit>

  function ToUint32(x: int): (r: int)
    ensures 0 <= r < TWO_32
  {
    x % TWO_32
  }

  function ToInt32(x: int): (r: int)
    ensures -TWO_31 <= r < TWO_31 && (r - x) % TWO_32 == 0
  {
    var r := x % TWO_32;
    if r >= TWO_31 then r - TWO_32 else r
  }

  /** `x << 5`. */
  function ShiftLeft5(x: int): int { ToInt32(ToInt32(x) * 32) }

  function Pow33(n: nat): nat {
    if n == 0 then 1 else 33 * Pow33(n - 1)
  }

  /** The sum of c_i * 33^(n-1-i) over the id. */
  function WeightedSum(id: DeviceId): nat {
    if id == [] then 0 else id[0] * Pow33(|id| - 1) + WeightedSum(id[1..])
  }

  /** The closed form of the hash: a 33-adic number, reduced to 32 bits once. */
  function Hash(id: DeviceId): (h: int)
    ensures 0 <= h < TWO_32
  {
    (5381 * Pow33(|id|) + WeightedSum(id)) % TWO_32
  }

  /** The shard that owns a device. */
  function ShardOf(id: DeviceId, totalShards: int): int {
    if totalShards <= 1 then 0 else Hash(id) % totalShards
  }

  // ---------------------------------------------------------------- the loop

  /** One round of the loop, on a hash already reduced to 32 bits. */
  lemma RoundIsHorner(hash: int, c: CodeUnit)
    requires 0 <= hash < TWO_32
    ensures ToUint32(ShiftLeft5(hash) + hash + c) == (33 * hash + c) % TWO_32
  {
    var s := ToInt32(hash);
    assert (s - hash) % TWO_32 == 0;
    var k :| s == hash + k * TWO_32 && -1 <= k <= 0;
    assert s * 32 == hash * 32 + (32 * k) * TWO_32;
    ModShift(hash * 32, 32 * k);
    var t := ShiftLeft5(hash);
    assert t == (hash * 32) % TWO_32 || t == (hash * 32) % TWO_32 - TWO_32;
    var q := hash * 32 / TWO_32;
    if t == (hash * 32) % TWO_32 {
      ModShift(33 * hash + c, -q);
    } else {
      ModShift(33 * hash + c, -q - 1);
    }
  }

  lemma ModShift(x: int, k: int)
    ensures (x + k * TWO_32) % TWO_32 == x % TWO_32
  {
    var q, r := x / TWO_32, x % TWO_32;
    assert x + k * TWO_32 == (q + k) * TWO_32 + r;
    ModUnique(q + k, r);
  }

  lemma ModUnique(q: int, r: int)
    requires 0 <= r < TWO_32
    ensures (q * TWO_32 + r) % TWO_32 == r
  {
  }

  /** Reducing inside a round changes nothing. */
  lemma HornerMod(x: int, c: int)
    ensures (33 * (x % TWO_32) + c) % TWO_32 == (33 * x + c) % TWO_32
  {
    var q := x / TWO_32;
    assert 33 * x + c == 33 * (x % TWO_32) + c + (33 * q) * TWO_32;
    ModShift(33 * (x % TWO_32) + c, 33 * q);
  }

  lemma {:induction false} WeightedSumAppend(id: DeviceId, c: CodeUnit)
    ensures WeightedSum(id + [c]) == 33 * WeightedSum(id) + c
  {
    if id == [] {
      assert id + [c] == [c];
    } else {
      WeightedSumAppend(id[1..], c);
      assert (id + [c])[1..] == id[1..] + [c];
      assert id[0] * Pow33(|id|) == 33 * (id[0] * Pow33(|id| - 1));
    }
  }

  lemma HashAppend(id: DeviceId, c: CodeUnit)
    ensures Hash(id + [c]) == (33 * Hash(id) + c) % TWO_32
  {
    WeightedSumAppend(id, c);
    HornerMod(5381 * Pow33(|id|) + WeightedSum(id), c);
  }

  method ShardForDevice(deviceId: DeviceId, totalShards: int) returns (shard: int)
    ensures shard == ShardOf(deviceId, totalShards)
    ensures 0 <= shard && (totalShards >= 1 ==> shard < totalShards)
  {
    if totalShards <= 1 { return 0; }
    var hash := 5381;
    for i := 0 to |deviceId|
      invariant hash == Hash(deviceId[..i])
    {
      HashAppend(deviceId[..i], deviceId[i]);
      RoundIsHorner(hash, deviceId[i]);
      assert deviceId[..i + 1] == deviceId[..i] + [deviceId[i]];
      hash := ToUint32(ShiftLeft5(hash) + hash + deviceId[i]);
    }
    assert deviceId[..|deviceId|] == deviceId;
    return hash % totalShards;
  }

  // ---------------------------------------------------------------- one character apart

  const INVERSE_33: int := 1041204193
  const INVERSE_QUOTIENT: int := 8

  /** 33 is invertible modulo 2^32. */
  lemma Cancel33(x: int)
    requires (33 * x) % TWO_32 == 0
    ensures x % TWO_32 == 0
  {
    var z := 33 * x / TWO_32;
    assert 33 * INVERSE_33 == 1 + INVERSE_QUOTIENT * TWO_32;
    assert x == (INVERSE_33 * z - INVERSE_QUOTIENT * x) * TWO_32;
    ModUnique(INVERSE_33 * z - INVERSE_QUOTIENT * x, 0);
  }

  lemma {:induction false} CancelPow33(x: int, n: nat)
    requires (x * Pow33(n)) % TWO_32 == 0
    ensures x % TWO_32 == 0
  {
    if n > 0 {
      assert x * Pow33(n) == 33 * (x * Pow33(n - 1));
      Cancel33(x * Pow33(n - 1));
      CancelPow33(x, n - 1);
    }
  }

  /** The ids agree everywhere but at position `k`. */
  ghost predicate DifferOnlyAt(a: DeviceId, b: DeviceId, k: nat) {
    |a| == |b| && k < |a| && a[k] != b[k] && a[..k] == b[..k] && a[k + 1..] == b[k + 1..]
  }

  lemma {:induction false} SumDifference(a: DeviceId, b: DeviceId, k: nat)
    requires DifferOnlyAt(a, b, k)
    ensures WeightedSum(a) - WeightedSum(b) == (a[k] - b[k]) * Pow33(|a| - 1 - k)
  {
    if k == 0 {
      assert a[1..] == b[1..];
    } else {
      assert a[0] == a[..k][0] == b[..k][0] == b[0];
      assert a[1..][..k - 1] == a[..k][1..] && b[1..][..k - 1] == b[..k][1..];
      assert a[1..][k..] == a[k + 1..] && b[1..][k..] == b[k + 1..];
      SumDifference(a[1..], b[1..], k - 1);
    }
  }

  /** Two ids of equal length that differ in one character never collide in 32 bits. */
  lemma OneCharacterApart(a: DeviceId, b: DeviceId, k: nat)
    requires DifferOnlyAt(a, b, k)
    ensures Hash(a) != Hash(b)
  {
    SumDifference(a, b, k);
    var x: int, y: int := a[k], b[k];
    var u, v := 5381 * Pow33(|a|) + WeightedSum(a), 5381 * Pow33(|b|) + WeightedSum(b);
    assert u - v == (x - y) * Pow33(|a| - 1 - k);
    if u % TWO_32 == v % TWO_32 {
      assert u - v == (u / TWO_32 - v / TWO_32) * TWO_32;
      ModUnique(u / TWO_32 - v / TWO_32, 0);
      CancelPow33(x - y, |a| - 1 - k);
    }
  }

  // ---------------------------------------------------------------- few shards

  function CharSum(id: DeviceId): nat {
    if id == [] then 0 else id[0] + CharSum(id[1..])
  }

  lemma {:induction false} Pow33Mod32(n: nat) returns (k: int)
    ensures Pow33(n) == 1 + 32 * k
  {
    if n == 0 {
      k := 0;
    } else {
      k := Pow33Mod32(n - 1);
      k := 33 * k + 1;
    }
  }

  lemma {:induction false} WeightedSumMod32(id: DeviceId) returns (k: int)
    ensures WeightedSum(id) == CharSum(id) + 32 * k
  {
    if id == [] {
      k := 0;
    } else {
      var p := Pow33Mod32(|id| - 1);
      k := WeightedSumMod32(id[1..]);
      assert id[0] * Pow33(|id| - 1) == id[0] + 32 * (id[0] * p);
      k := k + id[0] * p;
    }
  }

  lemma ModAddMultiple(x: int, m: int, n: int)
    requires n > 0
    ensures (x + m * n) % n == x % n
  {
    var q, r := x / n, x % n;
    assert x + m * n == (q + m) * n + r;
    QuotientUnique(q + m, r, n);
  }

  lemma MultipleIsLarge(d: int, n: int)
    requires d > 0 && n > 0
    ensures d * n >= n
  {
  }

  lemma QuotientUnique(q: int, r: int, n: int)
    requires 0 <= r < n
    ensures (q * n + r) % n == r
  {
    var z := q * n + r;
    var p, s := z / n, z % n;
    assert z == p * n + s && 0 <= s < n;
    assert (p - q) * n == r - s && (q - p) * n == s - r;
    if p > q {
      MultipleIsLarge(p - q, n);
    } else if p < q {
      MultipleIsLarge(q - p, n);
    }
  }

  lemma ModMultipleOf32(x: int, k: int, n: int)
    requires n in {2, 4, 8, 16, 32}
    ensures (x + 32 * k) % n == x % n
  {
    var m := if n == 2 then 16 * k else if n == 4 then 8 * k else if n == 8 then 4 * k
             else if n == 16 then 2 * k else k;
    assert m * n == 32 * k;
    ModAddMultiple(x, m, n);
  }

  /** With 2, 4, 8, 16 or 32 shards the hash degenerates to a checksum: the order of the
      characters does not matter. */
  lemma FewShardsIsChecksum(id: DeviceId, n: int)
    requires n in {2, 4, 8, 16, 32}
    ensures ShardOf(id, n) == (5381 + CharSum(id)) % n
  {
    var p := Pow33Mod32(|id|);
    var k := WeightedSumMod32(id);
    var x := 5381 * Pow33(|id|) + WeightedSum(id);
    var q := x / TWO_32;
    assert Hash(id) == 5381 + CharSum(id) + 32 * (5381 * p + k - 0x800_0000 * q);
    ModMultipleOf32(5381 + CharSum(id), 5381 * p + k - 0x800_0000 * q, n);
  }

  lemma {:induction false} CharSumOfMultiset(a: DeviceId, b: DeviceId)
    requires multiset(a) == multiset(b)
    ensures CharSum(a) == CharSum(b)
    decreases |a|
  {
    if a == [] {
      assert |b| == |multiset(b)| == 0;
    } else {
      assert a == [a[0]] + a[1..];
      assert a[0] in multiset(b);
      var i :| 0 <= i < |b| && b[i] == a[0];
      assert b == b[..i] + [b[i]] + b[i + 1..];
      assert multiset(b[..i] + b[i + 1..]) == multiset(b) - multiset{a[0]} == multiset(a[1..]);
      CharSumOfMultiset(a[1..], b[..i] + b[i + 1..]);
      CharSumSplit(b[..i], b[i + 1..], b[i]);
    }
  }

  lemma {:induction false} CharSumSplit(u: DeviceId, v: DeviceId, c: CodeUnit)
    ensures CharSum(u + [c] + v) == c + CharSum(u + v)
  {
    if u == [] {
      assert u + [c] + v == [c] + v && u + v == v;
    } else {
      CharSumSplit(u[1..], v, c);
      assert (u + [c] + v)[1..] == u[1..] + [c] + v;
      assert (u + v)[1..] == u[1..] + v;
    }
  }

  /** So ids that are anagrams of each other share their shard. */
  lemma AnagramsShareShard(a: DeviceId, b: DeviceId, n: int)
    requires n <= 1 || n in {2, 4, 8, 16, 32}
    requires multiset(a) == multiset(b)
    ensures ShardOf(a, n) == ShardOf(b, n)
  {
    if n > 1 {
      FewShardsIsChecksum(a, n);
      FewShardsIsChecksum(b, n);
      CharSumOfMultiset(a, b);
    }
  }

  /** Any two ids that are anagrams of each other share their shard. */
  ghost predicate IsAnagramBlind(n: int) {
    forall a: DeviceId, b: DeviceId | multiset(a) == multiset(b) :: ShardOf(a, n) == ShardOf(b, n)
  }

  lemma DivisorOf32(n: int, k: int)
    requires n > 1 && n * k == 32
    ensures n in {2, 4, 8, 16, 32}
  {
    if n > 32 {
      MultipleIsLarge(k, n);
    } else if k > 16 {
      MultipleIsLarge(n - 1, k);
    }
  }

  lemma TwoLetters(x: CodeUnit, y: CodeUnit)
    ensures Hash([x, y]) == (5381 * 1089 + 33 * x + y) % TWO_32
  {
    assert [x, y][1..] == [y] && [y][1..] == [];
    assert Pow33(1) == 33 && Pow33(2) == 1089;
    assert WeightedSum([y]) == y;
  }

  /** The hashes of [0, 1] and [1, 0] differ by 32. */
  lemma SwapMovesShard(n: int)
    requires n > 1 && ShardOf([0, 1], n) == ShardOf([1, 0], n)
    ensures n in {2, 4, 8, 16, 32}
  {
    TwoLetters(0, 1);
    TwoLetters(1, 0);
    var x, y := Hash([0, 1]), Hash([1, 0]);
    assert y == x + 32;
    var k := y / n - x / n;
    assert n * k == 32;
    DivisorOf32(n, k);
  }

  /** The number of shards decides: anagrams always share a shard exactly without sharding and for
      2, 4, 8, 16 and 32 shards. */
  lemma AnagramBlindIff(n: int)
    ensures IsAnagramBlind(n) <==> n <= 1 || n in {2, 4, 8, 16, 32}
  {
    if n <= 1 || n in {2, 4, 8, 16, 32} {
      forall a: DeviceId, b: DeviceId | multiset(a) == multiset(b) ensures ShardOf(a, n) == ShardOf(b, n) {
        AnagramsShareShard(a, b, n);
      }
    } else if IsAnagramBlind(n) {
      var a: DeviceId, b: DeviceId := [0, 1], [1, 0];
      assert multiset(a) == multiset{0, 1} == multiset(b);
      SwapMovesShard(n);
    }
  }
}
