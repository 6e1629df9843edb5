/** The xor-and-rotate hash that turns an address into a client id or a key. */
module Hash {

  type Text = seq<bv8>

  const SEED: bv32 := 0x5555_5555

  function Rol(r: bv32): (s: bv32) {
    (r << 5) | (r >> 27)
  }

  function Ror(r: bv32): (s: bv32) {
    (r >> 5) | (r << 27)
  }

  function Plus(r: bv32, q: bv32): (s: bv32) {
    r ^ q
  }

  function Wide(b: bv8): (s: bv32) {
    b as bv32
  }

  function Mix(r: bv32, b: bv8): (s: bv32) {
    Rol(Plus(r, Wide(b)))
  }

  /** The state after hashing s from state r. */
  function From(r: bv32, s: Text): (h: bv32)
    decreases |s|
  {
    if s == [] then r else From(Mix(r, s[0]), s[1..])
  }

  /** The state before. */
  function Back(h: bv32, s: Text): (r: bv32)
    decreases |s|
  {
    if s == [] then h else Plus(Ror(Back(h, s[1..])), Wide(s[0]))
  }

  function HashOf(s: Text): (h: bv32) {
    From(SEED, s)
  }

  /** The bytes of a C string: those before the first NUL. */
  function CString(input: Text): (s: Text) {
    if input == [] || input[0] == 0 then [] else [input[0]] + CString(input[1..])
  }

  method ComputeHash(input: Text) returns (result: bv32)
    requires 0 in input
    ensures result == HashOf(CString(input))
  {
    result := SEED;
    var i := 0;
    while input[i] != 0
      invariant 0 <= i < |input| && 0 in input[i..]
      invariant From(result, CString(input[i..])) == HashOf(CString(input))
      decreases |input| - i
    {
      ghost var rest := input[i..];
      assert CString(rest) == [rest[0]] + CString(rest[1..]) && rest[1..] == input[i + 1..];
      result := Plus(result, Wide(input[i]));
      i := i + 1;
      result := Rol(result);
    }
    assert CString(input[i..]) == [];
  }

  // ---------------------------------------------------------------------------------------
  // A bijection of the state
  // ---------------------------------------------------------------------------------------

  lemma {:induction false} RolRor(r: bv32)
    ensures Ror(Rol(r)) == r && Rol(Ror(r)) == r
  {
  }

  lemma {:induction false} PlusTwice(r: bv32, b: bv32)
    ensures Plus(Plus(r, b), b) == r
  {
  }

  /** For every text, hashing it is a bijection of the 32-bit state. */
  lemma {:induction false} Bijection(r: bv32, s: Text)
    ensures Back(From(r, s), s) == r
    ensures From(Back(r, s), s) == r
    decreases |s|
  {
    hide Rol, Ror, Plus, Wide;
    if s != [] {
      var b := Wide(s[0]);
      Bijection(Mix(r, s[0]), s[1..]);
      RolRor(Plus(r, b));
      PlusTwice(r, b);
      Bijection(r, s[1..]);
      var q := Back(r, s[1..]);
      PlusTwice(Ror(q), b);
      RolRor(q);
    }
  }

  lemma {:induction false} Injective(r: bv32, q: bv32, s: Text)
    ensures From(r, s) == From(q, s) <==> r == q
  {
    Bijection(r, s);
    Bijection(q, s);
  }

  lemma {:induction false} FromAppend(r: bv32, a: Text, b: Text)
    ensures From(r, a + b) == From(From(r, a), b)
    decreases |a|
  {
    hide Mix;
    if a == [] {
      assert a + b == b;
    } else {
      assert (a + b)[1..] == a[1..] + b;
      FromAppend(Mix(r, a[0]), a[1..], b);
    }
  }

  /** A common suffix neither creates nor removes a collision. */
  lemma {:induction false} SuffixIrrelevant(a: Text, b: Text, suffix: Text)
    ensures HashOf(a + suffix) == HashOf(b + suffix) <==> HashOf(a) == HashOf(b)
  {
    FromAppend(SEED, a, suffix);
    FromAppend(SEED, b, suffix);
    Injective(HashOf(a), HashOf(b), suffix);
  }

  // ---------------------------------------------------------------------------------------
  // Linear over xor
  // ---------------------------------------------------------------------------------------

  function Xor(a: Text, b: Text): (c: Text)
    requires |a| == |b|
    ensures |c| == |a|
  {
    if a == [] then [] else [a[0] ^ b[0]] + Xor(a[1..], b[1..])
  }

  lemma {:induction false} MixLinear(r: bv32, q: bv32, a: bv8, b: bv8)
    ensures Mix(Plus(r, q), a ^ b) == Plus(Mix(r, a), Mix(q, b))
  {
    hide Rol, Plus, Wide;
    WideLinear(a, b);
    RolLinear(Plus(r, Wide(a)), Plus(q, Wide(b)));
    Regroup(r, q, Wide(a), Wide(b));
  }

  lemma {:induction false} WideLinear(a: bv8, b: bv8)
    ensures Wide(a ^ b) == Plus(Wide(a), Wide(b))
  {
  }

  lemma {:induction false} Regroup(r: bv32, q: bv32, a: bv32, b: bv32)
    ensures Plus(Plus(r, q), Plus(a, b)) == Plus(Plus(r, a), Plus(q, b))
  {
    hide Plus;
    Associative(r, q, Plus(a, b));
    Associative(q, a, b);
    Commutative(q, a);
    Associative(a, q, b);
    Associative(r, a, Plus(q, b));
  }

  lemma {:induction false} Associative(a: bv32, b: bv32, c: bv32)
    ensures Plus(Plus(a, b), c) == Plus(a, Plus(b, c))
  {
  }

  lemma {:induction false} Commutative(a: bv32, b: bv32)
    ensures Plus(a, b) == Plus(b, a)
  {
  }

  lemma {:induction false} RolLinear(r: bv32, q: bv32)
    ensures Rol(Plus(r, q)) == Plus(Rol(r), Rol(q))
  {
  }

  /** Hashing is linear on texts of equal length. */
  lemma {:induction false} Linear(r: bv32, q: bv32, a: Text, b: Text)
    requires |a| == |b|
    ensures From(Plus(r, q), Xor(a, b)) == Plus(From(r, a), From(q, b))
    decreases |a|
  {
    hide Mix, Plus;
    if a != [] {
      MixLinear(r, q, a[0], b[0]);
      Linear(Mix(r, a[0]), Mix(q, b[0]), a[1..], b[1..]);
      assert Xor(a, b)[1..] == Xor(a[1..], b[1..]);
    }
  }

  /** Two texts of equal length collide exactly when their difference hashes to 0 from state 0. */
  lemma {:induction false} CollideExactly(a: Text, b: Text)
    requires |a| == |b|
    ensures HashOf(a) == HashOf(b) <==> From(0, Xor(a, b)) == 0
  {
    hide From, Plus;
    Linear(SEED, SEED, a, b);
    PlusZero(SEED, SEED);
    PlusZero(HashOf(a), HashOf(b));
  }

  lemma {:induction false} PlusZero(r: bv32, q: bv32)
    ensures r == q <==> Plus(r, q) == 0
  {
  }

  // ---------------------------------------------------------------------------------------
  // Small differences
  // ---------------------------------------------------------------------------------------

  /** Texts of equal length that differ in exactly one byte never collide. */
  lemma {:induction false} OneByteNeverCollides(prefix: Text, x: bv8, y: bv8, suffix: Text)
    requires x != y
    ensures HashOf(prefix + [x] + suffix) != HashOf(prefix + [y] + suffix)
  {
    hide Mix, From;
    SuffixIrrelevant(prefix + [x], prefix + [y], suffix);
    FromAppend(SEED, prefix, [x]);
    FromAppend(SEED, prefix, [y]);
    MixOne(HashOf(prefix), x);
    MixOne(HashOf(prefix), y);
    MixDiffers(HashOf(prefix), x, y);
  }

  lemma {:induction false} MixOne(r: bv32, x: bv8)
    ensures From(r, [x]) == Mix(r, x)
  {
    assert [x][1..] == [];
  }

  lemma {:induction false} MixDiffers(r: bv32, x: bv8, y: bv8)
    requires x != y
    ensures Mix(r, x) != Mix(r, y)
  {
    hide Rol, Plus;
    RolRor(Plus(r, Wide(x)));
    RolRor(Plus(r, Wide(y)));
    PlusApart(r, x, y);
  }

  lemma {:induction false} PlusApart(r: bv32, x: bv8, y: bv8)
    requires x != y
    ensures Plus(r, Wide(x)) != Plus(r, Wide(y))
  {
  }

  /** Two neighbouring bytes can cancel: texts that differ at most there collide exactly when the difference
      of the first, moved up five bits, is the difference of the second. */
  lemma {:induction false} NeighboursCollideExactly(prefix: Text, x: bv8, y: bv8, x': bv8, y': bv8, suffix: Text)
    ensures HashOf(prefix + [x, y] + suffix) == HashOf(prefix + [x', y'] + suffix)
       <==> ((x ^ x') as bv32) << 5 == (y ^ y') as bv32
  {
    hide Mix, From;
    SuffixIrrelevant(prefix + [x, y], prefix + [x', y'], suffix);
    var h := HashOf(prefix);
    FromAppend(SEED, prefix, [x, y]);
    FromAppend(SEED, prefix, [x', y']);
    MixTwo(h, x, y);
    MixTwo(h, x', y');
    MixTwice(h, x, y, x', y');
  }

  lemma {:induction false} MixTwo(r: bv32, x: bv8, y: bv8)
    ensures From(r, [x, y]) == Mix(Mix(r, x), y)
  {
    hide Mix;
    assert [x, y][1..] == [y];
    MixOne(Mix(r, x), y);
  }

  lemma {:induction false} MixTwice(r: bv32, x: bv8, y: bv8, x': bv8, y': bv8)
    ensures Mix(Mix(r, x), y) == Mix(Mix(r, x'), y') <==> ((x ^ x') as bv32) << 5 == (y ^ y') as bv32
  {
    hide Rol, Ror, Plus, Wide;
    var a, b := Mix(r, x), Mix(r, x');
    RolRor(Plus(a, Wide(y)));
    RolRor(Plus(b, Wide(y')));
    Regroup(a, b, Wide(y), Wide(y'));
    PlusZero(Plus(a, Wide(y)), Plus(b, Wide(y')));
    PlusZero(Plus(a, b), Plus(Wide(y), Wide(y')));
    MixLinear(r, r, x, x');
    PlusZero(r, r);
    WideLinear(y, y');
    MixZero(x ^ x');
    WideIs(y ^ y');
  }

  lemma {:induction false} MixZero(d: bv8)
    ensures Mix(0, d) == (d as bv32) << 5
  {
  }

  lemma {:induction false} WideIs(d: bv8)
    ensures Wide(d) == d as bv32
  {
  }

  /** So two different addresses can be given one client id: "bA" and "ca" for example. */
  lemma {:induction false} DifferentTextsCanCollide()
    ensures HashOf([0x62, 0x41]) == HashOf([0x63, 0x61])
  {
    NeighboursCollideExactly([], 0x62, 0x41, 0x63, 0x61, []);
    assert [] + [0x62 as bv8, 0x41] + [] == [0x62, 0x41];
    assert [] + [0x63 as bv8, 0x61] + [] == [0x63, 0x61];
  }

  /** Where the hash starts, and where it gets to with one byte and with two: "a" and "ab". */
  lemma {:induction false} KnownValues()
    ensures HashOf([]) == 0x5555_5555 && HashOf([0x61]) == 0xAAAA_A68A && HashOf([0x61, 0x62]) == 0x5554_DD15
  {
    assert [0x61 as bv8][1..] == [] && [0x61 as bv8, 0x62][1..] == [0x62] && [0x62 as bv8][1..] == [];
    assert From(Mix(SEED, 0x61), []) == Mix(SEED, 0x61);
    assert From(Mix(Mix(SEED, 0x61), 0x62), []) == Mix(Mix(SEED, 0x61), 0x62);
    assert From(Mix(SEED, 0x61), [0x62]) == From(Mix(Mix(SEED, 0x61), 0x62), []);
  }
}
