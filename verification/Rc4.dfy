/**
 The RC4 stream cipher of the obfuscated TCP and UDP layers (ed2k/crypt.go). The key is
 a mutable object; `View` is its value, and the functions on values say what the loops
 of `Create` and `Crypt` compute.
 */
module Rc4 {
  import opened Bytes

  /** A key value: the permutation table and the two indices, i.e. a keystream position. */
  datatype RawKey = Key(s: seq<Byte>, x: Byte, y: Byte)
  type Key = k: RawKey | |k.s| == 256 witness Key(seq(256, i => 0), 0, 0)

  const TABLE: nat := 256
  /** How many keystream bytes a new key throws away. */
  const BURN: nat := 1024

  // ---------------------------------------------------------------- exclusive or

  function XorBits(a: nat, b: nat, n: nat): nat {
    if n == 0 then 0
    else (if a % 2 == b % 2 then 0 else 1) + 2 * XorBits(a / 2, b / 2, n - 1)
  }

  function Pow2(n: nat): nat {
    if n == 0 then 1 else 2 * Pow2(n - 1)
  }

  lemma {:induction false} XorBitsRange(a: nat, b: nat, n: nat)
    ensures XorBits(a, b, n) < Pow2(n)
  {
    if n > 0 { XorBitsRange(a / 2, b / 2, n - 1); }
  }

  lemma {:induction false} XorBitsInvolution(a: nat, b: nat, n: nat)
    requires a < Pow2(n)
    ensures XorBits(XorBits(a, b, n), b, n) == a
  {
    if n > 0 {
      var half := XorBits(a / 2, b / 2, n - 1);
      assert a / 2 < Pow2(n - 1);
      assert XorBits(a, b, n) / 2 == half && XorBits(a, b, n) % 2 == if a % 2 == b % 2 then 0 else 1;
      XorBitsInvolution(a / 2, b / 2, n - 1);
    }
  }

  /** Bitwise exclusive or of two bytes. */
  function Xor(a: Byte, b: Byte): Byte {
    XorBitsRange(a, b, 8);
    XorBits(a, b, 8)
  }

  lemma XorInvolution(a: Byte, b: Byte)
    ensures Xor(Xor(a, b), b) == a
  {
    XorBitsInvolution(a, b, 8);
  }

  function Bit(n: nat, i: nat): nat { if i == 0 then n % 2 else Bit(n / 2, i - 1) }

  /** A bit of the result is set where the two differ in it. */
  lemma {:induction false} XorBit(a: nat, b: nat, n: nat, i: nat)
    requires i < n
    ensures Bit(XorBits(a, b, n), i) == if Bit(a, i) == Bit(b, i) then 0 else 1
    decreases n
  {
    var half := XorBits(a / 2, b / 2, n - 1);
    assert XorBits(a, b, n) / 2 == half && XorBits(a, b, n) % 2 == if a % 2 == b % 2 then 0 else 1;
    if i > 0 { XorBit(a / 2, b / 2, n - 1, i - 1); }
  }

  // ---------------------------------------------------------------- the keystream

  /** Byte addition, modulo 256. */
  function Sum(a: Byte, b: Byte): Byte {
    var n: int := a;
    (n + b) % 256
  }

  function Swap(s: seq<Byte>, i: nat, j: nat): (r: seq<Byte>)
    requires i < |s| && j < |s|
    ensures |r| == |s|
  {
    s[i := s[j]][j := s[i]]
  }

  /** One cipher step: X advances, Y follows the table, two table bytes change places. */
  function Next(k: Key): (r: Key)
  {
    var x := Sum(k.x, 1);
    var y := Sum(k.s[x], k.y);
    Key(Swap(k.s, x, y), x, y)
  }

  /** The keystream byte a key has just stepped onto. */
  function Pad(k: Key): Byte
  {
    k.s[Sum(k.s[k.x], k.s[k.y])]
  }

  function Advance(k: Key, n: nat): (r: Key)
    decreases n, k
  {
    if n == 0 then k else Advance(Next(k), n - 1)
  }

  function Ciphered(k: Key, data: seq<Byte>): (r: seq<Byte>)
    ensures |r| == |data|
    decreases data
  {
    if data == [] then [] else [Xor(data[0], Pad(Next(k)))] + Ciphered(Next(k), data[1..])
  }

  lemma {:induction false} AdvanceAdd(k: Key, m: nat, n: nat)
    ensures Advance(k, m + n) == Advance(Advance(k, m), n)
    decreases m
  {
    hide Next;
    if m > 0 { AdvanceAdd(Next(k), m - 1, n); }
  }

  /** RC4 over a + b is RC4 over a, then over b with the key where a left it. */
  lemma {:induction false} CipheredConcat(k: Key, a: seq<Byte>, b: seq<Byte>)
    ensures Ciphered(k, a + b) == Ciphered(k, a) + Ciphered(Advance(k, |a|), b)
    decreases a
  {
    hide Next, Pad, Xor;
    if a == [] {
      assert a + b == b;
    } else {
      assert (a + b)[1..] == a[1..] + b;
      CipheredConcat(Next(k), a[1..], b);
    }
  }

  /** Two equal keys invert each other. */
  lemma {:induction false} CipheredInvolution(k: Key, data: seq<Byte>)
    ensures Ciphered(k, Ciphered(k, data)) == data
    decreases data
  {
    hide Next, Pad, Xor;
    if data != [] {
      var c := Ciphered(k, data);
      XorInvolution(data[0], Pad(Next(k)));
      assert c[1..] == Ciphered(Next(k), data[1..]);
      CipheredInvolution(Next(k), data[1..]);
    }
  }

  // ---------------------------------------------------------------- the table stays a permutation

  /** 256 distinct bytes: a permutation of 0..255. */
  ghost predicate Permutation(s: seq<Byte>) {
    |s| == 256 && forall i, j :: 0 <= i < j < 256 ==> s[i] != s[j]
  }

  lemma {:induction false} AdvancePermutation(k: Key, n: nat)
    requires Permutation(k.s)
    ensures Permutation(Advance(k, n).s)
    decreases n
  {
    if n > 0 {
      SwapPermutation(k.s, Sum(k.x, 1), Sum(k.s[Sum(k.x, 1)], k.y));
      AdvancePermutation(Next(k), n - 1);
    }
  }

  lemma SwapPermutation(s: seq<Byte>, i: nat, j: nat)
    requires Permutation(s) && i < 256 && j < 256
    ensures Permutation(Swap(s, i, j))
  {
    var r := Swap(s, i, j);
    forall a, b | 0 <= a < b < 256 ensures r[a] != r[b] {
      assert s[i] != s[j] || i == j;
      assert a != i && a != j ==> r[a] == s[a];
      assert b != i && b != j ==> r[b] == s[b];
    }
  }

  /** The state of the key schedule after n of its 256 rounds. */
  datatype Sched = Sched(s: seq<Byte>, index1: nat, index2: nat)

  function Identity(): (r: seq<Byte>)
    ensures |r| == 256 && forall i :: 0 <= i < 256 ==> r[i] == i
  {
    seq(256, i requires 0 <= i < 256 => i)
  }

  function Schedule(phrase: seq<Byte>, n: nat): (r: Sched)
    requires phrase != [] && n <= TABLE
    ensures |r.s| == 256 && r.index1 < |phrase| && r.index2 < 256
  {
    if n == 0 then Sched(Identity(), 0, 0)
    else
      var p := Schedule(phrase, n - 1);
      var j := (phrase[p.index1] + p.s[n - 1] + p.index2) % 256;
      Sched(Swap(p.s, n - 1, j), (p.index1 + 1) % |phrase|, j)
  }

  /** The key a seed stands for; `drop` discards the first BURN keystream bytes. */
  function Created(phrase: seq<Byte>, drop: bool): (k: Key)
  {
    if phrase == [] then Key(Identity(), 0, 0)
    else
      var k := Key(Schedule(phrase, TABLE).s, 0, 0);
      if drop then Advance(k, BURN) else k
  }

  lemma {:induction false} SchedulePermutation(phrase: seq<Byte>, n: nat)
    requires phrase != [] && n <= TABLE
    ensures Permutation(Schedule(phrase, n).s)
  {
    if n > 0 {
      SchedulePermutation(phrase, n - 1);
      var p := Schedule(phrase, n - 1);
      SwapPermutation(p.s, n - 1, (phrase[p.index1] + p.s[n - 1] + p.index2) % 256);
    }
  }

  /** However a key was made and however far it was used, its table is a permutation. */
  lemma CreatedPermutation(phrase: seq<Byte>, drop: bool, n: nat)
    ensures Permutation(Advance(Created(phrase, drop), n).s)
  {
    if phrase != [] {
      SchedulePermutation(phrase, TABLE);
      var k := Key(Schedule(phrase, TABLE).s, 0, 0);
      AdvancePermutation(k, BURN);
    }
    AdvancePermutation(Created(phrase, drop), n);
  }

  // ---------------------------------------------------------------- RC4 as its rounds

  /** Two tables that differ by an exchange of two places. */
  ghost predicate Exchanged(s: seq<Byte>, t: seq<Byte>, i: nat, j: nat) {
    && |s| == |t| == 256 && i < 256 && j < 256
    && t[i] == s[j] && t[j] == s[i]
    && forall k :: 0 <= k < 256 && k != i && k != j ==> t[k] == s[k]
  }

  /** Round i of the schedule uses the next byte of the phrase, which is repeated. */
  ghost predicate Mixed(phrase: seq<Byte>, i: nat, p: Sched, q: Sched)
    requires phrase != [] && i < 256
  {
    && Exchanged(p.s, q.s, i, q.index2)
    && q.index2 == (p.index2 + p.s[i] + phrase[i % |phrase|]) % 256
  }

  lemma ScheduleRound(phrase: seq<Byte>, i: nat)
    requires phrase != [] && i < 256
    ensures Mixed(phrase, i, Schedule(phrase, i), Schedule(phrase, i + 1))
  {
    hide Schedule, Exchanged, Swap;
    ScheduleNext(phrase, i);
    PhraseByte(phrase, i);
    SwapExchanges(Schedule(phrase, i).s, i, Schedule(phrase, i + 1).index2);
  }

  lemma ScheduleNext(phrase: seq<Byte>, i: nat)
    requires phrase != [] && i < 256
    ensures var p, q := Schedule(phrase, i), Schedule(phrase, i + 1);
            q.s == Swap(p.s, i, q.index2) && q.index2 == (phrase[p.index1] + p.s[i] + p.index2) % 256
  {
    hide Swap;
  }

  lemma SwapExchanges(s: seq<Byte>, i: nat, j: nat)
    requires |s| == 256 && i < 256 && j < 256
    ensures Exchanged(s, Swap(s, i, j), i, j)
  {
  }

  lemma {:induction false} PhraseByte(phrase: seq<Byte>, n: nat)
    requires phrase != [] && n <= TABLE
    ensures Schedule(phrase, n).index1 == n % |phrase|
  {
    hide Swap;
    if n > 0 {
      PhraseByte(phrase, n - 1);
      ModNext(n - 1, |phrase|);
    }
  }

  lemma ModNext(n: nat, m: nat)
    requires m > 0
    ensures (n % m + 1) % m == (n + 1) % m
  {
    var q, r := n / m, n % m;
    assert n == m * q + r;
    if r + 1 < m {
      Residue(n + 1, m, q, r + 1);
      Residue(r + 1, m, 0, r + 1);
    } else {
      assert m * (q + 1) == m * q + m;
      Residue(n + 1, m, q + 1, 0);
      Residue(m, m, 1, 0);
    }
  }

  lemma Residue(n: nat, m: nat, q: nat, r: nat)
    requires m > 0 && n == m * q + r && r < m
    ensures n % m == r
  {
    var e := n / m - q;
    assert n == m * (n / m) + n % m;
    assert m * (n / m) == m * q + m * e;
    Multiple(m, e);
  }

  lemma Multiple(m: int, e: int)
    requires m > 0
    ensures (e >= 1 ==> m * e >= m) && (e <= -1 ==> m * e <= -m) && (e == 0 ==> m * e == 0)
  {
  }

  /** The key schedule: 256 exchanges from the identity. */
  lemma KeySchedule(phrase: seq<Byte>) returns (rounds: seq<Sched>)
    requires phrase != []
    ensures |rounds| == 257 && rounds[0].s == Identity() && rounds[0].index2 == 0
    ensures forall i :: 0 <= i < 256 ==> Mixed(phrase, i, rounds[i], rounds[i + 1])
    ensures Created(phrase, false) == Key(rounds[256].s, 0, 0)
  {
    rounds := seq(257, i requires 0 <= i < 257 => Schedule(phrase, i));
    assert Schedule(phrase, 0) == Sched(Identity(), 0, 0);
    hide Mixed, Schedule, Identity;
    forall i | 0 <= i < 256 ensures Mixed(phrase, i, rounds[i], rounds[i + 1]) {
      ScheduleRound(phrase, i);
    }
  }

  /** One round of the generator: two places are exchanged, and the byte at their sum is the keystream's. */
  ghost predicate Round(k: Key, n: Key, pad: Byte) {
    var x: int, y: int := n.x, n.y;
    && x == (k.x as int + 1) % 256 && y == (k.y as int + k.s[x] as int) % 256
    && Exchanged(k.s, n.s, x, y) && pad == n.s[(n.s[x] as int + n.s[y] as int) % 256]
  }

  lemma NextRound(k: Key)
    ensures Round(k, Next(k), Pad(Next(k)))
  {
  }

  /** A byte is enciphered with the keystream byte of its round. */
  lemma {:induction false} Keystream(k: Key, data: seq<Byte>, i: nat)
    requires i < |data|
    ensures Round(Advance(k, i), Advance(k, i + 1), Pad(Advance(k, i + 1)))
    ensures Ciphered(k, data)[i] == Xor(data[i], Pad(Advance(k, i + 1)))
    decreases data
  {
    hide Next, Pad, Xor, Round;
    if i == 0 {
      NextRound(k);
      assert Advance(Next(k), 0) == Next(k);
    } else {
      Keystream(Next(k), data[1..], i - 1);
    }
  }

  /** Dropping discards the first 1024 bytes of the keystream. */
  lemma DropBurnsIn(phrase: seq<Byte>)
    ensures phrase != [] ==> Created(phrase, true) == Advance(Created(phrase, false), 1024)
    ensures phrase == [] ==> Created(phrase, true) == Created(phrase, false) == Key(Identity(), 0, 0)
  {
  }

  // ---------------------------------------------------------------- the mutable key

  class RC4Key {
    const state: array<Byte>
    var x: Byte
    var y: Byte

    ghost predicate Valid() { state.Length == 256 }

    ghost function View(): Key
      requires Valid()
      reads this, state
    {
      Key(state[..], x, y)
    }

    /** RC4CreateKey. An empty phrase leaves the identity table. */
    constructor Create(phrase: seq<Byte>, drop: bool)
      ensures Valid() && fresh(state)
      ensures View() == Created(phrase, drop)
    {
      var a := new Byte[256](i requires 0 <= i < 256 => i);
      state, x, y := a, 0, 0;
      new;
      assert state[..] == Identity();
      if phrase != [] {
        ScheduleLoop(phrase);
        if drop {
          var _ := Crypt(None, BURN);
        }
      }
    }

    /** A key object for a key value, e.g. one another process exported. */
    constructor Restore(k: Key)
        ensures Valid() && fresh(state) && View() == k
    {
      state := new Byte[256](i requires 0 <= i < 256 => k.s[i]);
      x, y := k.x, k.y;
      new;
      assert state[..] == k.s;
    }

    method ScheduleLoop(phrase: seq<Byte>)
      requires Valid() && phrase != [] && state[..] == Identity()
      modifies state
      ensures state[..] == Schedule(phrase, TABLE).s
    {
      var index1: nat, index2: nat := 0, 0;
      for i := 0 to 256
        invariant Schedule(phrase, i) == Sched(state[..], index1, index2)
      {
        ghost var before := state[..];
        index2 := (phrase[index1] + state[i] + index2) % 256;
        state[i], state[index2] := state[index2], state[i];
        index1 := (index1 + 1) % |phrase|;
        assert state[..] == Swap(before, i, index2);
      }
    }

    /** One round of the RC4Crypt loop; `pad` is the keystream byte it yields. */
    method Step() returns (pad: Byte)
      requires Valid()
      modifies this, state
      ensures View() == Next(old(View())) && pad == Pad(View())
    {
      ghost var k := View();
      x := Sum(x, 1);
      y := Sum(state[x], y);
      state[x], state[y] := state[y], state[x];
      assert state[..] == Swap(k.s, x, y);
      pad := state[Sum(state[x], state[y])];
    }

    /** RC4Crypt: encrypts or decrypts `length` bytes; a None buffer only advances the key. */
    method Crypt(buffer: Option<seq<Byte>>, length: nat) returns (out: seq<Byte>)
      requires Valid()
      requires buffer.Some? ==> |buffer.value| == length
      modifies this, state
      ensures View() == Advance(old(View()), length)
      ensures out == if buffer.Some? then Ciphered(old(View()), buffer.value) else []
    {
      hide Next, Pad, Xor;
      ghost var k0 := View();
      out := [];
      for i := 0 to length
        invariant View() == Advance(k0, i)
        invariant out == if buffer.Some? then Ciphered(k0, buffer.value[..i]) else []
      {
        var pad := Step();
        AdvanceAdd(k0, i, 1);
        if buffer.Some? {
          out := out + [Xor(buffer.value[i], pad)];
          CipheredSnoc(k0, buffer.value, i);
        }
      }
      assert buffer.Some? ==> buffer.value[..length] == buffer.value;
    }
  }

  lemma CipheredSnoc(k: Key, data: seq<Byte>, i: nat)
    requires i < |data|
    ensures Ciphered(k, data[..i + 1]) == Ciphered(k, data[..i]) + [Xor(data[i], Pad(Advance(k, i + 1)))]
  {
    var last := [data[i]];
    assert data[..i + 1] == data[..i] + last;
    CipheredConcat(k, data[..i], last);
    AdvanceAdd(k, i, 1);
    var k' := Advance(k, i);
    assert Advance(k', 1) == Next(k');
    assert Ciphered(k', last) == [Xor(data[i], Pad(Next(k')))] + Ciphered(Next(k'), last[1..]);
  }
}
