/** PINs derived from a card number.  HMAC-SHA256 is a function that is given. */
module Pin {
  import opened PinMixing
  import Decimal

  type Byte = x: int | 0 <= x < 256

  type Hmac = string -> seq<Byte>

  datatype Result<T> = Ok(value: T) | Err(message: string)

  // ---- Compression ----

  function XorWords(a: Word, b: Word): Word {
    WordIs64Bits();
    XorBound(a, b, 64);
    Xor(a, b)
  }

  /** The byte in the place that its index gives it. */
  function Lane(b: Byte, i: nat): Word {
    LaneFits(b, i);
    b * Pow2((i % 8) * 8)
  }

  lemma LaneFits(b: Byte, i: nat)
    ensures 0 <= b * Pow2((i % 8) * 8) < WORD_SIZE
  {
    var k := (i % 8) * 8;
    WordIs64Bits();
    Pow2Grows(k + 8, 64);
    assert Pow2(8) == 256;
    PartsFit(b, 0, 8, k);
    MulMonotone(0, b, Pow2(k));
  }

  lemma {:induction false} Pow2Grows(a: nat, b: nat)
    requires a <= b
    ensures Pow2(a) <= Pow2(b)
    decreases b
  {
    if a < b { Pow2Grows(a, b - 1); }
  }

  function Mixed(acc: Word, b: Byte, i: nat): Word {
    Avalanche(Rotl(XorWords(acc, Lane(b, i)), 13))
  }

  /** What `compress` still makes of the bytes from `i` on. */
  function CompressFrom(acc: Word, v: seq<Byte>, i: nat): Word
    requires i <= |v|
    decreases |v| - i
  {
    if i == |v| then acc else CompressFrom(Mixed(acc, v[i], i), v, i + 1)
  }

  function Compressed(v: seq<Byte>): Word {
    CompressFrom(0, v, 0)
  }

  method Compress(v: seq<Byte>) returns (acc: Word)
    ensures acc == Compressed(v)
  {
    acc := 0;
    for i := 0 to |v|
      invariant CompressFrom(acc, v, i) == Compressed(v)
    {
      acc := XorWords(acc, Lane(v[i], i));
      acc := Rotl(acc, 13);
      acc := Avalanche(acc);
    }
  }

  /** One more byte: it goes to its place in the word, the word is turned by 13
      bits and mixed. */
  lemma CompressedMore(v: seq<Byte>, b: Byte)
    ensures Compressed([]) == 0
    ensures var placed: Word := LanePlace(b, |v| % 8);
      Compressed(v + [b]) == Avalanche(Rotl(XorWords(Compressed(v), placed), 13))
  {
    hide Avalanche, Rotl;
    CompressOn(0, v, b, 0);
    PlaceIsPower(|v| % 8);
    assert Lane(b, |v|) == LanePlace(b, |v| % 8);
  }

  /** `b * 256^k`. */
  function LanePlace(b: Byte, k: nat): Word
    requires k < 8
  {
    LaneFits(b, k);
    PlaceIsPower(k);
    b * [1, 0x100, 0x1_0000, 0x100_0000, 0x1_0000_0000, 0x100_0000_0000, 0x1_0000_0000_0000, 0x100_0000_0000_0000][k]
  }

  lemma PlaceIsPower(k: nat)
    requires k < 8
    ensures Pow2(k * 8) ==
      [1, 0x100, 0x1_0000, 0x100_0000, 0x1_0000_0000, 0x100_0000_0000, 0x1_0000_0000_0000, 0x100_0000_0000_0000][k]
    decreases k
  {
    if k > 0 {
      PlaceIsPower(k - 1);
      Pow2Add((k - 1) * 8, 8);
      assert Pow2(8) == 256;
      hide Pow2;
    }
  }

  lemma {:induction false} CompressOn(acc: Word, v: seq<Byte>, b: Byte, i: nat)
    requires i <= |v|
    ensures CompressFrom(acc, v + [b], i) == Mixed(CompressFrom(acc, v, i), b, |v|)
    decreases |v| - i
  {
    hide Mixed;
    if i < |v| {
      CompressOn(Mixed(acc, v[i], i), v, b, i + 1);
    } else {
      assert CompressFrom(Mixed(acc, b, i), v + [b], i + 1) == Mixed(acc, b, i);
    }
  }

  /** Mixing in the same byte keeps different accumulators different. */
  lemma MixedKeepsApart(acc: Word, acc': Word, b: Byte, i: nat)
    requires acc != acc'
    ensures Mixed(acc, b, i) != Mixed(acc', b, i)
  {
    hide Avalanche, Unavalanche, Rotl, Xor, Lane;
    var x, y := XorWords(acc, Lane(b, i)), XorWords(acc', Lane(b, i));
    XorCancels(acc, Lane(b, i));
    XorCancels(acc', Lane(b, i));
    RotlInverse(x, 13);
    RotlInverse(y, 13);
    AvalancheInverse(Rotl(x, 13));
    AvalancheInverse(Rotl(y, 13));
  }

  /** Mixing different bytes into one accumulator makes it different. */
  lemma MixedTellsBytes(acc: Word, b: Byte, c: Byte, i: nat)
    requires b != c
    ensures Mixed(acc, b, i) != Mixed(acc, c, i)
  {
    hide Avalanche, Unavalanche, Rotl, Xor, Pow2;
    LanesDiffer(b, c, Pow2((i % 8) * 8));
    var x, y := XorWords(acc, Lane(b, i)), XorWords(acc, Lane(c, i));
    XorCommutes(acc, Lane(b, i));
    XorCommutes(acc, Lane(c, i));
    XorCancels(Lane(b, i), acc);
    XorCancels(Lane(c, i), acc);
    RotlInverse(x, 13);
    RotlInverse(y, 13);
    AvalancheInverse(Rotl(x, 13));
    AvalancheInverse(Rotl(y, 13));
  }

  lemma LanesDiffer(b: int, c: int, p: int)
    requires b != c && p > 0
    ensures b * p != c * p
  {
    if b < c { MulMonotone(b + 1, c, p); } else { MulMonotone(c + 1, b, p); }
  }

  lemma {:induction false} CompressKeepsApart(acc: Word, acc': Word, v: seq<Byte>, w: seq<Byte>, i: nat)
    requires i <= |v| == |w| && acc != acc' && v[i..] == w[i..]
    ensures CompressFrom(acc, v, i) != CompressFrom(acc', w, i)
    decreases |v| - i
  {
    hide Mixed;
    if i < |v| {
      assert v[i] == v[i..][0] == w[i];
      MixedKeepsApart(acc, acc', v[i], i);
      assert v[i + 1..] == v[i..][1..] == w[i + 1..];
      CompressKeepsApart(Mixed(acc, v[i], i), Mixed(acc', w[i], i), v, w, i + 1);
    }
  }

  lemma {:induction false} CompressTellsByte(acc: Word, v: seq<Byte>, w: seq<Byte>, k: nat, i: nat)
    requires i <= k < |v| == |w| && v[k] != w[k] && forall j :: 0 <= j < |v| && j != k ==> v[j] == w[j]
    ensures CompressFrom(acc, v, i) != CompressFrom(acc, w, i)
    decreases k - i
  {
    hide Mixed;
    if i == k {
      MixedTellsBytes(acc, v[k], w[k], k);
      assert v[k + 1..] == w[k + 1..];
      CompressKeepsApart(Mixed(acc, v[k], k), Mixed(acc, w[k], k), v, w, k + 1);
    } else {
      CompressTellsByte(Mixed(acc, v[i], i), v, w, k, i + 1);
    }
  }

  /** Inputs that differ in exactly one byte never collide. */
  lemma OneByteNeverCollides(v: seq<Byte>, w: seq<Byte>, k: nat)
    requires k < |v| == |w| && v[k] != w[k] && forall j :: 0 <= j < |v| && j != k ==> v[j] == w[j]
    ensures Compressed(v) != Compressed(w)
  {
    CompressTellsByte(0, v, w, k, 0);
  }

  // ---- Derivation ----

  const BLOCKS := 6

  /** The blocks from `n` more rounds of HMAC, each over what came before. */
  function Derived(hmac: Hmac, state: string, n: nat): seq<Word>
    decreases n
  {
    if n == 0 then []
    else
      var val := Compressed(hmac(state));
      [val] + Derived(hmac, Decimal.ToString(val) + state, n - 1)
  }

  method Derive(hmac: Hmac, pan: string) returns (blocks: seq<Word>)
    ensures blocks == Derived(hmac, pan, BLOCKS)
  {
    hide Compressed;
    blocks := [];
    var state := pan;
    for i := 0 to BLOCKS
      invariant blocks + Derived(hmac, state, BLOCKS - i) == Derived(hmac, pan, BLOCKS)
    {
      var val := Compress(hmac(state));
      blocks := blocks + [val];
      state := Decimal.ToString(val) + state;
    }
  }

  // ---- Generation ----

  const UPPER := "ABCDEFGHIJKLMNOPQRSTUVWXYZ"
  const LOWER := "abcdefghijklmnopqrstuvwxyz"
  const DIGITS := "0123456789"
  const SYMBOLS := "!@#$%^&*()-_=+[]{}|;:,.<>?/"
  const POOL := UPPER + LOWER + DIGITS + SYMBOLS
  const MARKS := "!@#$%^&*"

  const GOLDEN := 0x9e3779b97f4a7c15

  function Seeded(blocks: seq<Word>): Word {
    if blocks == [] then 0
    else XorWords(Seeded(blocks[..|blocks| - 1]), Avalanche(blocks[|blocks| - 1]))
  }

  function Stepped(state: Word, i: nat): Word {
    Avalanche(Rotl(XorWords(state, (i * GOLDEN) % WORD_SIZE), 7))
  }

  /** The state after `i` characters. */
  function StateAt(seed: Word, i: nat): Word {
    if i == 0 then seed else Stepped(StateAt(seed, i - 1), i - 1)
  }

  function PoolChar(state: Word): char {
    POOL[state % |POOL|]
  }

  function Drawn(seed: Word, n: nat): (s: string)
    ensures |s| == n
  {
    seq(n, i requires 0 <= i < n => PoolChar(StateAt(seed, i + 1)))
  }

  /** The first four places are set by category from the last state. */
  function Enforced(s: string, state: Word): string
    requires |s| >= 4
  {
    s[0 := UPPER[state % 26]]
     [1 := LOWER[Shr(state, 3) % 26]]
     [2 := DIGITS[Shr(state, 5) % 10]]
     [3 := MARKS[state % 8]]
  }

  function Generated(hmac: Hmac, pan: string, n: nat): Result<string> {
    if |pan| != 16 then Err("PAN must be 16 digits")
    else if n < 4 then Err("PIN length must be at least 4")
    else
      var seed := Seeded(Derived(hmac, pan, BLOCKS));
      Ok(Enforced(Drawn(seed, n), StateAt(seed, n)))
  }

  function Verified(hmac: Hmac, pan: string, input: string): Result<bool> {
    if input == "" then Err("Input PIN cannot be empty")
    else
      var generated := Generated(hmac, pan, |input|);
      if generated.Ok? then Ok(generated.value == input) else Err(generated.message)
  }

  method GeneratePIN(hmac: Hmac, pan: string, length: nat) returns (pin: Result<string>)
    ensures pin == Generated(hmac, pan, length)
  {
    hide Derived, Avalanche, Stepped, PoolChar, XorWords;
    if |pan| != 16 {
      return Err("PAN must be 16 digits");
    }
    if length < 4 {
      return Err("PIN length must be at least 4");
    }
    var blocks := Derive(hmac, pan);
    var state: Word := 0;
    for i := 0 to |blocks|
      invariant state == Seeded(blocks[..i])
    {
      assert blocks[..i + 1][..i] == blocks[..i];
      state := XorWords(state, Avalanche(blocks[i]));
    }
    assert blocks[..|blocks|] == blocks;
    ghost var seed := state;
    var result := "";
    for i := 0 to length
      invariant state == StateAt(seed, i) && result == Drawn(seed, i)
    {
      state := Stepped(state, i);
      result := result + [PoolChar(state)];
    }
    return Ok(Enforced(result, state));
  }

  method VerifyPIN(hmac: Hmac, pan: string, input: string) returns (valid: Result<bool>)
    ensures valid == Verified(hmac, pan, input)
  {
    if input == "" {
      return Err("Input PIN cannot be empty");
    }
    var generated := GeneratePIN(hmac, pan, |input|);
    if generated.Err? {
      return Err(generated.message);
    }
    return Ok(generated.value == input);
  }

  // ---- What a PIN looks like ----

  /** A run of states as the loop makes them: each is the last, with a multiple
      of the golden ratio mixed in, turned by 7 bits and mixed. */
  ghost predicate StatesOf(hmac: Hmac, pan: string, states: seq<Word>) {
    && |states| > 0 && states[0] == Seeded(Derived(hmac, pan, BLOCKS))
    && forall i :: 0 < i < |states| ==>
         states[i] ==
           Avalanche(Rotl(XorWords(states[i - 1], ((i - 1) * 0x9e3779b97f4a7c15) % 0x1_0000_0000_0000_0000), 7))
  }

  lemma {:induction false} StatesAre(hmac: Hmac, pan: string, states: seq<Word>, i: nat)
    requires StatesOf(hmac, pan, states) && i < |states|
    ensures states[i] == StateAt(Seeded(Derived(hmac, pan, BLOCKS)), i)
    decreases i
  {
    hide Avalanche, Rotl, XorWords, Seeded, Derived;
    if i > 0 { StatesAre(hmac, pan, states, i - 1); }
  }

  /** Place `i` is the character of the pool that state `i + 1` points to, and the
      first four places are set from the last state. */
  lemma PinFollowsStates(hmac: Hmac, pan: string, states: seq<Word>)
    requires |pan| == 16 && |states| > 4 && StatesOf(hmac, pan, states)
    ensures var pin, last := Generated(hmac, pan, |states| - 1), states[|states| - 1];
      && pin.Ok? && |pin.value| == |states| - 1
      && (forall i :: 4 <= i < |pin.value| ==> pin.value[i] == POOL[states[i + 1] % 89])
      && pin.value[0] as int == 'A' as int + last % 26
      && pin.value[1] as int == 'a' as int + last / 8 % 26
      && pin.value[2] as int == '0' as int + last / 32 % 10
      && pin.value[3] == "!@#$%^&*"[last % 8]
  {
    var n := |states| - 1;
    StatesAre(hmac, pan, states, n);
    PinStarts(hmac, pan, n);
    hide StatesOf, StateAt, Seeded, Derived, Generated;
    forall i | 4 <= i < n ensures Generated(hmac, pan, n).value[i] == POOL[states[i + 1] % 89] {
      StatesAre(hmac, pan, states, i + 1);
      PinGoesOn(hmac, pan, n, i);
    }
  }

  lemma PinStarts(hmac: Hmac, pan: string, n: nat)
    requires |pan| == 16 && n >= 4
    ensures var pin, last := Generated(hmac, pan, n), StateAt(Seeded(Derived(hmac, pan, BLOCKS)), n);
      && pin.Ok? && |pin.value| == n
      && pin.value[0] as int == 'A' as int + last % 26
      && pin.value[1] as int == 'a' as int + last / 8 % 26
      && pin.value[2] as int == '0' as int + last / 32 % 10
      && pin.value[3] == "!@#$%^&*"[last % 8]
  {
    var seed := Seeded(Derived(hmac, pan, BLOCKS));
    FirstPlaces(Drawn(seed, n), StateAt(seed, n));
    hide StateAt, Seeded, Derived, Enforced, PoolChar;
  }

  lemma PinGoesOn(hmac: Hmac, pan: string, n: nat, i: nat)
    requires |pan| == 16 && 4 <= i < n
    ensures Generated(hmac, pan, n).Ok? && |Generated(hmac, pan, n).value| == n && |POOL| == 89
    ensures Generated(hmac, pan, n).value[i] == POOL[StateAt(Seeded(Derived(hmac, pan, BLOCKS)), i + 1) % 89]
  {
    DrawnPlace(hmac, pan, n, i);
    PoolHas89(StateAt(Seeded(Derived(hmac, pan, BLOCKS)), i + 1));
    hide StateAt, Seeded, Derived, Generated, PoolChar;
  }

  lemma DrawnPlace(hmac: Hmac, pan: string, n: nat, i: nat)
    requires |pan| == 16 && 4 <= i < n
    ensures Generated(hmac, pan, n).Ok? && |Generated(hmac, pan, n).value| == n
    ensures Generated(hmac, pan, n).value[i] == PoolChar(StateAt(Seeded(Derived(hmac, pan, BLOCKS)), i + 1))
  {
    hide Derived, Seeded, StateAt, PoolChar;
  }

  lemma PoolHas89(state: Word)
    ensures |POOL| == 89 && PoolChar(state) == POOL[state % 89]
  {}

  lemma FirstPlaces(s: string, last: Word)
    requires |s| >= 4
    ensures var pin := Enforced(s, last);
      && |pin| == |s| && pin[4..] == s[4..]
      && pin[0] as int == 'A' as int + last % 26
      && pin[1] as int == 'a' as int + last / 8 % 26
      && pin[2] as int == '0' as int + last / 32 % 10
      && pin[3] == "!@#$%^&*"[last % 8]
  {
    assert Pow2(3) == 8 && Pow2(5) == 32;
    LettersInOrder(last % 26, last / 8 % 26, last / 32 % 10);
    hide Pow2;
  }

  lemma LettersInOrder(a: nat, b: nat, c: nat)
    requires a < 26 && b < 26 && c < 10
    ensures UPPER[a] as int == 'A' as int + a && LOWER[b] as int == 'a' as int + b && DIGITS[c] as int == '0' as int + c
  {}

  /** Longer PINs of one card go on where shorter ones end, but for the first
      four places. */
  lemma PrefixIsStable(hmac: Hmac, pan: string, n: nat, m: nat, i: nat)
    requires |pan| == 16 && 4 <= i < n <= m
    ensures Generated(hmac, pan, n).Ok? && Generated(hmac, pan, m).Ok?
    ensures |Generated(hmac, pan, n).value| == n && |Generated(hmac, pan, m).value| == m
    ensures Generated(hmac, pan, n).value[i] == Generated(hmac, pan, m).value[i]
  {
    hide Derived, Seeded, StateAt, PoolChar;
  }

  /** Every character is in the pool, and the first four are an upper case
      letter, a lower case letter, a digit and a mark. */
  lemma Categories(hmac: Hmac, pan: string, n: nat)
    requires |pan| == 16 && n >= 4
    ensures Generated(hmac, pan, n).Ok? && |Generated(hmac, pan, n).value| == n
    ensures var pin := Generated(hmac, pan, n).value;
      && (forall i :: 0 <= i < |pin| ==> pin[i] in POOL)
      && pin[0] in UPPER && pin[1] in LOWER && pin[2] in DIGITS && pin[3] in MARKS
  {
    hide Derived, Seeded, StateAt, Shr;
    var pin := Generated(hmac, pan, n).value;
    forall i | 0 <= i < |pin| ensures pin[i] in POOL {
      MarksAreSymbols(pin[i]);
    }
  }

  lemma MarksAreSymbols(c: char)
    ensures c in UPPER || c in LOWER || c in DIGITS || c in SYMBOLS || c in MARKS ==> c in POOL
  {
    forall k | 0 <= k < 8 ensures MARKS[k] in SYMBOLS { assert SYMBOLS[k] == MARKS[k]; }
  }

  /** Of each length from four on, exactly one string is accepted; shorter ones
      are an error, not a mismatch. */
  lemma ExactlyOneAccepted(hmac: Hmac, pan: string, input: string)
    requires |pan| == 16
    ensures |input| < 4 <==> Verified(hmac, pan, input).Err?
    ensures |input| >= 4 ==>
      (Verified(hmac, pan, input) == Ok(true) <==> input == Generated(hmac, pan, |input|).value)
      && Verified(hmac, pan, Generated(hmac, pan, |input|).value) == Ok(true)
  {
    hide Derived, Seeded, StateAt, PoolChar;
  }

  /** Each block decides the seed: another block in its place gives another
      seed. */
  lemma {:induction false} EachBlockDecidesSeed(blocks: seq<Word>, k: nat, w: Word)
    requires k < |blocks| && w != blocks[k]
    ensures Seeded(blocks[k := w]) != Seeded(blocks)
    decreases |blocks|
  {
    hide Avalanche, Unavalanche, Xor;
    var n := |blocks| - 1;
    var other := blocks[k := w];
    var before, after := Seeded(blocks[..n]), Seeded(other[..n]);
    AvalancheInverse(blocks[n]);
    AvalancheInverse(other[n]);
    if k < n {
      EachBlockDecidesSeed(blocks[..n], k, w);
      assert other[..n] == blocks[..n][k := w];
      XorCancels(before, Avalanche(blocks[n]));
      XorCancels(after, Avalanche(blocks[n]));
    } else {
      assert other[..n] == blocks[..n];
      XorCommutes(before, Avalanche(blocks[n]));
      XorCommutes(before, Avalanche(w));
      XorCancels(Avalanche(blocks[n]), before);
      XorCancels(Avalanche(w), before);
    }
  }

  /** Cards whose derived blocks differ in exactly one place are in different
      states after every character. */
  lemma CardsStayApart(hmac: Hmac, pan: string, pan': string, k: nat, i: nat)
    requires |Derived(hmac, pan, BLOCKS)| == |Derived(hmac, pan', BLOCKS)| > k
    requires Derived(hmac, pan, BLOCKS)[k] != Derived(hmac, pan', BLOCKS)[k]
    requires Derived(hmac, pan', BLOCKS) == Derived(hmac, pan, BLOCKS)[k := Derived(hmac, pan', BLOCKS)[k]]
    ensures StateAt(Seeded(Derived(hmac, pan, BLOCKS)), i) != StateAt(Seeded(Derived(hmac, pan', BLOCKS)), i)
  {
    hide Derived, Seeded;
    EachBlockDecidesSeed(Derived(hmac, pan, BLOCKS), k, Derived(hmac, pan', BLOCKS)[k]);
    SeedsStayApart(Seeded(Derived(hmac, pan, BLOCKS)), Seeded(Derived(hmac, pan', BLOCKS)), i);
  }

  /** What the HMAC is taken over for the block after `blocks`: the blocks in
      decimal, the latest first, and the card number. */
  function Preimage(blocks: seq<Word>, pan: string): string {
    if blocks == [] then pan
    else Decimal.ToString(blocks[|blocks| - 1]) + Preimage(blocks[..|blocks| - 1], pan)
  }

  /** There are six blocks, and each is the compressed HMAC of those before it
      and the card number. */
  lemma BlocksFromHistory(hmac: Hmac, pan: string)
    ensures var blocks := Derived(hmac, pan, BLOCKS);
      |blocks| == 6 && forall k :: 0 <= k < 6 ==> blocks[k] == Compressed(hmac(Preimage(blocks[..k], pan)))
  {
    DerivedOn(hmac, pan, [], BLOCKS);
    assert [] + Derived(hmac, pan, BLOCKS) == Derived(hmac, pan, BLOCKS);
  }

  lemma {:induction false} DerivedOn(hmac: Hmac, pan: string, done: seq<Word>, n: nat)
    ensures var rest := Derived(hmac, Preimage(done, pan), n); var all := done + rest;
      |rest| == n && forall k :: |done| <= k < |all| ==> all[k] == Compressed(hmac(Preimage(all[..k], pan)))
    decreases n
  {
    hide Compressed, Decimal.ToString;
    if n > 0 {
      var val := Compressed(hmac(Preimage(done, pan)));
      assert (done + [val])[..|done|] == done;
      DerivedOn(hmac, pan, done + [val], n - 1);
      assert done + Derived(hmac, Preimage(done, pan), n) ==
        (done + [val]) + Derived(hmac, Preimage(done + [val], pan), n - 1);
    }
  }

  /** Cards whose seeds differ are in different states after every character. */
  lemma {:induction false} SeedsStayApart(seed: Word, seed': Word, i: nat)
    requires seed != seed'
    ensures StateAt(seed, i) != StateAt(seed', i)
    decreases i
  {
    hide Avalanche, Unavalanche, Rotl, Xor;
    if i > 0 {
      SeedsStayApart(seed, seed', i - 1);
      var a, b: Word, k: Word := StateAt(seed, i - 1), StateAt(seed', i - 1), ((i - 1) * GOLDEN) % WORD_SIZE;
      XorCancels(a, k);
      XorCancels(b, k);
      RotlInverse(XorWords(a, k), 7);
      RotlInverse(XorWords(b, k), 7);
      AvalancheInverse(Rotl(XorWords(a, k), 7));
      AvalancheInverse(Rotl(XorWords(b, k), 7));
    }
  }
}
