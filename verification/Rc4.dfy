/**
RC4 as the NTLM key exchange uses it (src/auth/ntlm.rs).
*/
module Rc4 {
  import opened Bytes

  /** All 256 byte values, each once. */
  ghost predicate Permutation(s: seq<byte>) {
    |s| == 256 && forall i, j :: 0 <= i < j < 256 ==> s[i] != s[j]
  }

  function Swap(s: seq<byte>, i: nat, j: nat): seq<byte>
    requires i < |s| && j < |s|
  {
    s[i := s[j]][j := s[i]]
  }

  lemma SwapPermutes(s: seq<byte>, i: nat, j: nat)
    requires Permutation(s) && i < 256 && j < 256
    ensures Permutation(Swap(s, i, j)) && multiset(Swap(s, i, j)) == multiset(s)
  {
  }

  datatype Cipher = Cipher(s: seq<byte>, i: nat, j: nat)

  function Identity(): seq<byte> {
    seq(256, i requires 0 <= i < 256 => i)
  }

  /** The state after `n` rounds of key scheduling. */
  function Schedule(key: seq<byte>, n: nat): (c: Cipher)
    requires key != [] && n <= 256
    ensures |c.s| == 256 && c.j < 256
  {
    if n == 0 then Cipher(Identity(), 0, 0)
    else
      var c := Schedule(key, n - 1);
      var j := (c.j + c.s[n - 1] as int + key[(n - 1) % |key|] as int) % 256;
      Cipher(Swap(c.s, n - 1, j), 0, j)
  }

  function Turn(c: Cipher): (r: Cipher)
    requires |c.s| == 256 && c.i < 256 && c.j < 256
    ensures |r.s| == 256 && r.i < 256 && r.j < 256
  {
    var i := (c.i + 1) % 256;
    var j := (c.j + c.s[i] as int) % 256;
    Cipher(Swap(c.s, i, j), i, j)
  }

  function Output(c: Cipher): byte
    requires |c.s| == 256 && c.i < 256 && c.j < 256
  {
    c.s[(c.s[c.i] as int + c.s[c.j] as int) % 256]
  }

  /** The state after `n` bytes of output, from a scheduled state. The data does not enter. */
  function Generator(scheduled: seq<byte>, n: nat): (c: Cipher)
    requires |scheduled| == 256
    ensures |c.s| == 256 && c.i < 256 && c.j < 256
  {
    if n == 0 then Cipher(scheduled, 0, 0) else Turn(Generator(scheduled, n - 1))
  }

  /** The `n`th key byte. */
  function KeyByte(scheduled: seq<byte>, n: nat): byte
    requires |scheduled| == 256
  {
    Output(Generator(scheduled, n + 1))
  }

  function Masked(scheduled: seq<byte>, data: seq<bv8>): (r: seq<bv8>)
    requires |scheduled| == 256
    ensures |r| == |data|
  {
    seq(|data|, n requires 0 <= n < |data| => data[n] ^ (KeyByte(scheduled, n) as bv8))
  }

  function Encrypted(key: seq<byte>, data: seq<bv8>): (r: seq<bv8>)
    requires key != []
    ensures |r| == |data|
  {
    Masked(Schedule(key, 256).s, data)
  }

  /** The state is a permutation of all byte values at every point of both loops. */
  lemma {:induction false} ScheduleIsPermutation(key: seq<byte>, n: nat)
    requires key != [] && n <= 256
    ensures Permutation(Schedule(key, n).s)
  {
    if n > 0 {
      ScheduleIsPermutation(key, n - 1);
      SwapPermutes(Schedule(key, n - 1).s, n - 1, Schedule(key, n).j);
    }
  }

  lemma {:induction false} GeneratorIsPermutation(scheduled: seq<byte>, n: nat)
    requires Permutation(scheduled)
    ensures Permutation(Generator(scheduled, n).s)
  {
    if n > 0 {
      GeneratorIsPermutation(scheduled, n - 1);
      SwapPermutes(Generator(scheduled, n - 1).s, Generator(scheduled, n).i, Generator(scheduled, n).j);
    }
  }

  /** Encrypting twice with one key gives the data back, for every key and every length. */
  lemma Rc4IsAnInvolution(key: seq<byte>, data: seq<bv8>)
    requires key != []
    ensures Encrypted(key, Encrypted(key, data)) == data
  {
    MaskingTwice(Schedule(key, 256).s, data);
  }

  lemma MaskingTwice(scheduled: seq<byte>, data: seq<bv8>)
    requires |scheduled| == 256
    ensures Masked(scheduled, Masked(scheduled, data)) == data
  {
    var once := Masked(scheduled, data);
    var twice := Masked(scheduled, once);
    forall n | 0 <= n < |data| ensures twice[n] == data[n] {
      XorTwice(data[n], KeyByte(scheduled, n) as bv8);
    }
  }

  lemma XorTwice(a: bv8, k: bv8)
    ensures (a ^ k) ^ k == a
  {
  }

  /**
  The generator as the textbook has it: the first index just counts, the second adds up the entries
  met, the two entries are swapped, and their sum picks the key byte.
  */
  lemma TextbookGenerator(scheduled: seq<byte>, n: nat)
    requires |scheduled| == 256
    ensures var before, after := Generator(scheduled, n), Generator(scheduled, n + 1);
            var i, j := (n + 1) % 256, (before.j + before.s[(n + 1) % 256] as int) % 256;
            && Generator(scheduled, 0) == Cipher(scheduled, 0, 0) && after.i == i && after.j == j
            && after.s[i] == before.s[j] && after.s[j] == before.s[i]
            && (forall k :: 0 <= k < 256 && k != i && k != j ==> after.s[k] == before.s[k])
            && KeyByte(scheduled, n) == after.s[(before.s[i] as int + before.s[j] as int) % 256]
  {
    FirstIndexCounts(scheduled, n);
    TextbookTurn(Generator(scheduled, n), n);
  }

  lemma TextbookTurn(before: Cipher, n: nat)
    requires |before.s| == 256 && before.i == n % 256 && before.j < 256
    ensures var after := Turn(before);
            var i, j := (n + 1) % 256, (before.j + before.s[(n + 1) % 256] as int) % 256;
            && after.i == i && after.j == j && after.s[i] == before.s[j] && after.s[j] == before.s[i]
            && (forall k :: 0 <= k < 256 && k != i && k != j ==> after.s[k] == before.s[k])
            && Output(after) == after.s[(before.s[i] as int + before.s[j] as int) % 256]
  {
    NextIndex(n);
  }

  lemma NextIndex(n: nat)
    ensures (n % 256 + 1) % 256 == (n + 1) % 256
  {
  }

  lemma {:induction false} FirstIndexCounts(scheduled: seq<byte>, n: nat)
    requires |scheduled| == 256
    ensures Generator(scheduled, n).i == n % 256
  {
    if n > 0 {
      FirstIndexCounts(scheduled, n - 1);
      NextIndex(n - 1);
    }
  }

  /** And the key schedule: from the identity, each round swaps one entry with the one the key leads to. */
  lemma TextbookSchedule(key: seq<byte>, n: nat)
    requires key != [] && n < 256
    ensures forall k :: 0 <= k < 256 ==> Schedule(key, 0).s[k] as int == k
    ensures var before, after := Schedule(key, n), Schedule(key, n + 1);
            var j := (before.j + before.s[n] as int + key[n % |key|] as int) % 256;
            && Schedule(key, 0).j == 0 && after.j == j && after.s[n] == before.s[j] && after.s[j] == before.s[n]
            && forall k :: 0 <= k < 256 && k != n && k != j ==> after.s[k] == before.s[k]
  {
  }

  method SwapInPlace(s: array<byte>, i: nat, j: nat)
    requires i < s.Length && j < s.Length
    modifies s
    ensures s[..] == Swap(old(s[..]), i, j)
  {
    s[i], s[j] := s[j], s[i];
  }

  method KeySchedule(key: seq<byte>) returns (s: array<byte>)
    requires key != []
    ensures fresh(s) && s.Length == 256
    ensures s[..] == Schedule(key, 256).s && Permutation(s[..])
  {
    s := new byte[256](i requires 0 <= i < 256 => i);
    assert s[..] == Identity();
    ScheduleAll(s, key);
    ScheduleIsPermutation(key, 256);
  }

  /** The key scheduling loop, in place. */
  method ScheduleAll(s: array<byte>, key: seq<byte>)
    requires key != [] && s.Length == 256 && s[..] == Identity()
    modifies s
    ensures s[..] == Schedule(key, 256).s
  {
    var j: nat := 0;
    for i := 0 to 256
      invariant j < 256 && s[..] == Schedule(key, i).s && j == Schedule(key, i).j
    {
      ScheduleUnfolds(key, i);
      j := ScheduleRound(s, i, j, key[i % |key|]);
    }
  }

  lemma ScheduleUnfolds(key: seq<byte>, n: nat)
    requires key != [] && n < 256
    ensures var c, d := Schedule(key, n), Schedule(key, n + 1);
            d.j == (c.j + c.s[n] as int + key[n % |key|] as int) % 256 && d.s == Swap(c.s, n, d.j)
  {
  }

  /** One round of key scheduling, in place. */
  method ScheduleRound(s: array<byte>, i: nat, j: nat, k: byte) returns (j': nat)
    requires s.Length == 256 && i < 256 && j < 256
    modifies s
    ensures j' == (j + old(s[i]) as int + k as int) % 256 && s[..] == Swap(old(s[..]), i, j')
  {
    j' := (j + s[i] as int + k as int) % 256;
    SwapInPlace(s, i, j');
  }

  /** One turn of the generator, in place. */
  method NextKeyByte(s: array<byte>, i: nat, j: nat) returns (i': nat, j': nat, k: byte)
    requires s.Length == 256 && i < 256 && j < 256
    modifies s
    ensures i' < 256 && j' < 256
    ensures Cipher(s[..], i', j') == Turn(Cipher(old(s[..]), i, j))
    ensures k == Output(Cipher(s[..], i', j'))
  {
    i' := (i + 1) % 256;
    j' := (j + s[i'] as int) % 256;
    SwapInPlace(s, i', j');
    k := s[(s[i'] as int + s[j'] as int) % 256];
  }

  method Rc4Encrypt(key: seq<byte>, data: seq<bv8>) returns (out: seq<bv8>)
    requires key != []
    ensures out == Encrypted(key, data)
  {
    var s := KeySchedule(key);
    out := Mask(s, data);
  }

  /** The output loop, in place. */
  method Mask(s: array<byte>, data: seq<bv8>) returns (out: seq<bv8>)
    requires s.Length == 256
    modifies s
    ensures out == Masked(old(s[..]), data)
    ensures s[..] == Generator(old(s[..]), |data|).s
  {
    ghost var scheduled := s[..];
    var i: nat, j: nat := 0, 0;
    out := [];
    for n := 0 to |data|
      invariant i < 256 && j < 256
      invariant Cipher(s[..], i, j) == Generator(scheduled, n)
      invariant out == Masked(scheduled, data[..n])
    {
      var k;
      i, j, k := NextKeyByte(s, i, j);
      OneMoreByte(scheduled, data, n, k);
      out := out + [data[n] ^ (k as bv8)];
    }
    assert data[..|data|] == data;
  }

  lemma OneMoreByte(scheduled: seq<byte>, data: seq<bv8>, n: nat, k: byte)
    requires |scheduled| == 256 && n < |data|
    requires k == Output(Turn(Generator(scheduled, n)))
    ensures Masked(scheduled, data[..n + 1]) == Masked(scheduled, data[..n]) + [data[n] ^ (k as bv8)]
  {
    assert k == KeyByte(scheduled, n);
    MaskedExtends(scheduled, data, n);
  }

  lemma MaskedExtends(scheduled: seq<byte>, data: seq<bv8>, n: nat)
    requires |scheduled| == 256 && n < |data|
    ensures Masked(scheduled, data[..n + 1])
            == Masked(scheduled, data[..n]) + [data[n] ^ (KeyByte(scheduled, n) as bv8)]
  {
    forall i | 0 <= i < n ensures Masked(scheduled, data[..n + 1])[i] == Masked(scheduled, data[..n])[i] {
      assert data[..n + 1][i] == data[..n][i];
    }
  }
}
