// FNV-1a with 64 bits (section 2 of draft-eastlake-fnv): fold each byte in with
// exclusive or, then multiply by the prime, wrapping around at 2^64.
module Fnv1a64 {
  import opened RealPowers

  const WRAP: nat := 0x1_0000_0000_0000_0000
  const OFFSET_BASIS: U64 := 0xcbf2_9ce4_8422_2325
  const PRIME: nat := 0x0000_0100_0000_01b3
  // The prime's inverse modulo 2^64.
  const UNPRIME: nat := 0xce96_5057_aff6_957b

  type U64 = x: nat | x < 0x1_0000_0000_0000_0000
  type Byte = x: nat | x < 256

  // ----- exclusive or, bit by bit -----

  function BitXor(a: nat, b: nat): nat
    decreases a + b
  {
    if a == 0 && b == 0 then 0 else (a + b) % 2 + 2 * BitXor(a / 2, b / 2)
  }

  lemma BitXorUnfold(a: nat, b: nat)
    ensures BitXor(a, b) == (a + b) % 2 + 2 * BitXor(a / 2, b / 2)
  {
    BitXorZero();
  }

  lemma BitXorParts(a: nat, b: nat)
    ensures BitXor(a, b) % 2 == (a + b) % 2 && BitXor(a, b) / 2 == BitXor(a / 2, b / 2)
  {
    hide BitXor;
    BitXorUnfold(a, b);
    LowBit(BitXor(a, b), (a + b) % 2, BitXor(a / 2, b / 2));
  }

  lemma LowBit(whole: nat, bit: nat, rest: nat)
    requires bit < 2 && whole == bit + 2 * rest
    ensures whole % 2 == bit && whole / 2 == rest
  {
  }

  lemma SameHalves(a: nat, b: nat, c: nat)
    requires (a + b) % 2 == (a + c) % 2 && b / 2 == c / 2
    ensures b == c
  {
  }

  lemma SameBack(a: nat, b: nat, x: nat, y: nat)
    requires x % 2 == (y + b) % 2 && y % 2 == (a + b) % 2 && x / 2 == a / 2
    ensures x == a
  {
  }

  lemma BitXorZero()
    ensures BitXor(0, 0) == 0
  {
  }

  lemma {:induction false} BitXorBack(a: nat, b: nat)
    ensures BitXor(BitXor(a, b), b) == a
    decreases a + b
  {
    hide BitXor;
    if a == 0 && b == 0 {
      BitXorZero();
    } else {
      var y := BitXor(a, b);
      BitXorParts(a, b);
      BitXorParts(y, b);
      BitXorBack(a / 2, b / 2);
      SameBack(a, b, BitXor(y, b), y);
    }
  }

  lemma {:induction false} BitXorTellsApart(a: nat, b: nat, c: nat)
    requires BitXor(a, b) == BitXor(a, c)
    ensures b == c
    decreases a + b + c
  {
    hide BitXor;
    if a != 0 || b != 0 || c != 0 {
      BitXorParts(a, b);
      BitXorParts(a, c);
      BitXorTellsApart(a / 2, b / 2, c / 2);
      SameHalves(a, b, c);
    }
  }

  lemma {:induction false} BitXorBelow(a: nat, b: nat, n: nat)
    requires a < Exp2(n) && b < Exp2(n)
    ensures BitXor(a, b) < Exp2(n)
    decreases n
  {
    if n > 0 {
      BitXorBelow(a / 2, b / 2, n - 1);
    }
  }

  lemma Exp2Four()
    ensures Exp2(4) == 16
  {
    assert Exp2(2) == 4;
  }

  lemma WrapIsExp2()
    ensures Exp2(64) == WRAP
  {
    Exp2Four();
    hide Exp2;
    Exp2Add(4, 4);
    Exp2Add(8, 8);
    Exp2Add(16, 16);
    Exp2Add(32, 32);
  }

  // ----- the hash -----

  function Xor(state: U64, byte: Byte): U64 {
    WrapIsExp2();
    BitXorBelow(state, byte, 64);
    BitXor(state, byte)
  }

  function TimesPrime(x: nat): U64 {
    x * PRIME % WRAP
  }

  function OverPrime(x: nat): U64 {
    x * UNPRIME % WRAP
  }

  function Step(state: U64, byte: Byte): U64 {
    TimesPrime(Xor(state, byte))
  }

  function Unstep(state: U64, byte: Byte): U64 {
    Xor(OverPrime(state), byte)
  }

  lemma WrapRest(n: int, x: int, k: int)
    requires n == x + WRAP * k && 0 <= x < WRAP
    ensures n % WRAP == x
  {
  }

  lemma WrapParts(n: nat) returns (q: nat)
    ensures n == WRAP * q + n % WRAP
  {
    q := n / WRAP;
  }

  // The two multipliers' product is one more than 887285111055 times the word size.
  lemma PrimeBack(x: U64)
    ensures OverPrime(TimesPrime(x)) == x && TimesPrime(OverPrime(x)) == x
  {
    hide TimesPrime, OverPrime;
    var r, t := TimesPrime(x), OverPrime(x);
    Multipliers(x);
    Multipliers(r);
    Multipliers(t);
    var q := WrapParts(x * PRIME);
    WrapRest(r * UNPRIME, x, x * 887285111055 - q * UNPRIME);
    var s := WrapParts(x * UNPRIME);
    WrapRest(t * PRIME, x, x * 887285111055 - s * PRIME);
  }

  lemma Multipliers(x: nat)
    ensures TimesPrime(x) == x * PRIME % WRAP && OverPrime(x) == x * UNPRIME % WRAP
  {
  }

  // Each byte's step is a bijection of the state.
  lemma StepIsABijection(state: U64, byte: Byte)
    ensures Unstep(Step(state, byte), byte) == state
    ensures Step(Unstep(state, byte), byte) == state
  {
    hide BitXor, TimesPrime, OverPrime;
    PrimeBack(Xor(state, byte));
    PrimeBack(state);
    BitXorBack(state, byte);
    BitXorBack(OverPrime(state), byte);
  }

  // For one state, different bytes lead to different states.
  lemma StepTellsBytesApart(state: U64, x: Byte, y: Byte)
    ensures Step(state, x) == Step(state, y) <==> x == y
  {
    hide BitXor, TimesPrime, OverPrime;
    PrimeBack(Xor(state, x));
    PrimeBack(Xor(state, y));
    if Step(state, x) == Step(state, y) {
      BitXorTellsApart(state, x, y);
    }
  }

  // Folding a whole slice into a state.
  function Fold(state: U64, bytes: seq<Byte>): U64
    decreases bytes
  {
    if bytes == [] then state else Fold(Step(state, bytes[0]), bytes[1..])
  }

  // Feeding slices one after another is feeding their concatenation.
  lemma {:induction false} FoldConcat(state: U64, a: seq<Byte>, b: seq<Byte>)
    ensures Fold(state, a + b) == Fold(Fold(state, a), b)
    decreases a
  {
    hide Step;
    if a == [] {
      assert a + b == b;
    } else {
      assert (a + b)[1..] == a[1..] + b;
      FoldConcat(Step(state, a[0]), a[1..], b);
    }
  }

  // Whatever is fed, different states stay different.
  lemma {:induction false} FoldTellsStatesApart(s: U64, t: U64, bytes: seq<Byte>)
    ensures Fold(s, bytes) == Fold(t, bytes) <==> s == t
    decreases bytes
  {
    if bytes != [] {
      StepIsABijection(s, bytes[0]);
      StepIsABijection(t, bytes[0]);
      hide Step;
      FoldTellsStatesApart(Step(s, bytes[0]), Step(t, bytes[0]), bytes[1..]);
    }
  }

  // Every state is reached from exactly one by feeding any given bytes.
  function Unfold(state: U64, bytes: seq<Byte>): U64
    decreases bytes
  {
    if bytes == [] then state else Unstep(Unfold(state, bytes[1..]), bytes[0])
  }

  lemma {:induction false} FoldIsABijection(state: U64, bytes: seq<Byte>)
    ensures Unfold(Fold(state, bytes), bytes) == state && Fold(Unfold(state, bytes), bytes) == state
    decreases bytes
  {
    if bytes != [] {
      StepIsABijection(state, bytes[0]);
      StepIsABijection(Unfold(state, bytes[1..]), bytes[0]);
      hide Step, Unstep;
      FoldIsABijection(Step(state, bytes[0]), bytes[1..]);
      FoldIsABijection(state, bytes[1..]);
    }
  }

  // ----- the rendering: sixteen lower-case hexadecimal digits -----

  const DIGITS: string := "0123456789abcdef"

  predicate IsDigit(c: char) {
    '0' <= c <= '9' || 'a' <= c <= 'f'
  }

  function DigitValue(c: char): nat
    requires IsDigit(c)
  {
    if c <= '9' then c as nat - '0' as nat else c as nat - 'a' as nat + 10
  }

  predicate IsCanonicalHash(s: string) {
    |s| == 16 && forall i :: 0 <= i < |s| ==> IsDigit(s[i])
  }

  function HexDigits(value: nat, width: nat): string
    decreases width
  {
    if width == 0 then "" else HexDigits(value / 16, width - 1) + [DIGITS[value % 16]]
  }

  function Hex(state: U64): string {
    HexDigits(state, 16)
  }

  function Parse(s: string): nat
    requires forall i :: 0 <= i < |s| ==> IsDigit(s[i])
  {
    if s == "" then 0 else 16 * Parse(s[..|s| - 1]) + DigitValue(s[|s| - 1])
  }

  lemma DigitsAreDigits(d: nat)
    requires d < 16
    ensures IsDigit(DIGITS[d]) && DigitValue(DIGITS[d]) == d
  {
  }

  lemma ValuesAreDigits(c: char)
    requires IsDigit(c)
    ensures DigitValue(c) < 16 && DIGITS[DigitValue(c)] == c
  {
  }

  lemma {:induction false} HexDigitsParse(value: nat, width: nat)
    requires value < Exp2(4 * width)
    ensures |HexDigits(value, width)| == width
    ensures forall i :: 0 <= i < width ==> IsDigit(HexDigits(value, width)[i])
    ensures Parse(HexDigits(value, width)) == value
    decreases width
  {
    if width > 0 {
      Exp2Four();
      Exp2Add(4, 4 * (width - 1));
      HexDigitsParse(value / 16, width - 1);
      DigitsAreDigits(value % 16);
      var s := HexDigits(value, width);
      assert s[..|s| - 1] == HexDigits(value / 16, width - 1);
    }
  }

  lemma NothingToParse()
    ensures Parse("") == 0 && HexDigits(0, 0) == "" && Exp2(0) == 1
  {
  }

  lemma ParseSnoc(init: string, last: char)
    requires IsDigit(last) && forall i :: 0 <= i < |init| ==> IsDigit(init[i])
    ensures forall i :: 0 <= i < |init + [last]| ==> IsDigit((init + [last])[i])
    ensures Parse(init + [last]) == 16 * Parse(init) + DigitValue(last)
  {
    assert (init + [last])[..|init|] == init;
  }

  lemma HexSnoc(value: nat, width: nat, last: char)
    requires IsDigit(last)
    ensures HexDigits(16 * value + DigitValue(last), width + 1) == HexDigits(value, width) + [last]
  {
    ValuesAreDigits(last);
    hide DigitValue;
    var all := 16 * value + DigitValue(last);
    assert all / 16 == value && all % 16 == DigitValue(last);
  }

  lemma {:induction false} ParseHexDigits(s: string)
    requires forall i :: 0 <= i < |s| ==> IsDigit(s[i])
    ensures Parse(s) < Exp2(4 * |s|) && HexDigits(Parse(s), |s|) == s
  {
    hide Exp2, Parse, HexDigits, DigitValue;
    if s == "" {
      NothingToParse();
    } else {
      var init, last := s[..|s| - 1], s[|s| - 1];
      assert s == init + [last];
      ParseHexDigits(init);
      ParseSnoc(init, last);
      HexSnoc(Parse(init), |init|, last);
      ValuesAreDigits(last);
      Exp2Four();
      Exp2Add(4, 4 * |init|);
      assert 4 * |s| == 4 + 4 * |init|;
    }
  }

  // The rendering is always canonical, and reads back as the state.
  lemma HexReadsBack(state: U64)
    ensures IsCanonicalHash(Hex(state)) && Parse(Hex(state)) == state
  {
    WrapIsExp2();
    HexDigitsParse(state, 16);
  }

  // Every canonical hash is the rendering of the one state it reads as.
  lemma CanonicalIsHex(s: string)
    requires IsCanonicalHash(s)
    ensures Parse(s) < WRAP && Hex(Parse(s)) == s
  {
    WrapIsExp2();
    ParseHexDigits(s);
  }

  function HashOf(bytes: seq<Byte>): string {
    Hex(Fold(OFFSET_BASIS, bytes))
  }

  // Two inputs that differ in exactly one byte never collide.
  lemma OneByteNeverCollides(before: seq<Byte>, x: Byte, y: Byte, after: seq<Byte>)
    ensures HashOf(before + [x] + after) == HashOf(before + [y] + after) <==> x == y
  {
    hide Step, Hex, Parse;
    var s := Fold(OFFSET_BASIS, before);
    FoldConcat(OFFSET_BASIS, before + [x], after);
    FoldConcat(OFFSET_BASIS, before + [y], after);
    FoldConcat(OFFSET_BASIS, before, [x]);
    FoldConcat(OFFSET_BASIS, before, [y]);
    assert Fold(s, [x]) == Step(s, x) && Fold(s, [y]) == Step(s, y);
    FoldTellsStatesApart(Step(s, x), Step(s, y), after);
    StepTellsBytesApart(s, x, y);
    HexReadsBack(Fold(OFFSET_BASIS, before + [x] + after));
    HexReadsBack(Fold(OFFSET_BASIS, before + [y] + after));
  }

  // ----- the published vectors -----

  lemma {:induction false} BitXorWithZero(a: nat)
    ensures BitXor(a, 0) == a
    decreases a
  {
    hide BitXor;
    if a == 0 {
      BitXorZero();
    } else {
      BitXorUnfold(a, 0);
      BitXorWithZero(a / 2);
    }
  }

  // Kept as a fact by name, one digit at a time.
  ghost predicate Spells(value: nat, width: nat, digits: string) {
    HexDigits(value, width) == digits
  }

  lemma HexStart()
    ensures Spells(0, 0, "")
  {
  }

  lemma HexStep(value: nat, width: nat, prefix: string, digit: char)
    requires width > 0 && Spells(value / 16, width - 1, prefix)
    requires IsDigit(digit) && DigitValue(digit) == value % 16
    ensures Spells(value, width, prefix + [digit])
  {
    ValuesAreDigits(digit);
  }

  lemma BasisSpelled()
    ensures Spells(14695981039346656037, 16, "cbf29ce484222325")
  {
    hide Spells;
    HexStart();
    HexStep(12, 1, "", 'c');
    HexStep(203, 2, "c", 'b');
    HexStep(3263, 3, "cb", 'f');
    HexStep(52210, 4, "cbf", '2');
    HexStep(835369, 5, "cbf2", '9');
    HexStep(13365916, 6, "cbf29", 'c');
    HexStep(213854670, 7, "cbf29c", 'e');
    HexStep(3421674724, 8, "cbf29ce", '4');
    HexStep(54746795592, 9, "cbf29ce4", '8');
    HexStep(875948729476, 10, "cbf29ce48", '4');
    HexStep(14015179671618, 11, "cbf29ce484", '2');
    HexStep(224242874745890, 12, "cbf29ce4842", '2');
    HexStep(3587885995934242, 13, "cbf29ce48422", '2');
    HexStep(57406175934947875, 14, "cbf29ce484222", '3');
    HexStep(918498814959166002, 15, "cbf29ce4842223", '2');
    HexStep(14695981039346656037, 16, "cbf29ce48422232", '5');
    assert "cbf29ce48422232" + ['5'] == "cbf29ce484222325";
  }

  lemma LetterSpelled()
    ensures Spells(12638187200555641996, 16, "af63dc4c8601ec8c")
  {
    hide Spells;
    HexStart();
    HexStep(10, 1, "", 'a');
    HexStep(175, 2, "a", 'f');
    HexStep(2806, 3, "af", '6');
    HexStep(44899, 4, "af6", '3');
    HexStep(718397, 5, "af63", 'd');
    HexStep(11494364, 6, "af63d", 'c');
    HexStep(183909828, 7, "af63dc", '4');
    HexStep(2942557260, 8, "af63dc4", 'c');
    HexStep(47080916168, 9, "af63dc4c", '8');
    HexStep(753294658694, 10, "af63dc4c8", '6');
    HexStep(12052714539104, 11, "af63dc4c86", '0');
    HexStep(192843432625665, 12, "af63dc4c860", '1');
    HexStep(3085494922010654, 13, "af63dc4c8601", 'e');
    HexStep(49367918752170476, 14, "af63dc4c8601e", 'c');
    HexStep(789886700034727624, 15, "af63dc4c8601ec", '8');
    HexStep(12638187200555641996, 16, "af63dc4c8601ec8", 'c');
    assert "af63dc4c8601ec8" + ['c'] == "af63dc4c8601ec8c";
  }

  lemma LetterFolded()
    ensures BitXor(14695981039346656037, 97) == 14695981039346656068
  {
    hide BitXor;
    BitXorUnfold(14695981039346656037, 97);
    BitXorUnfold(7347990519673328018, 48);
    BitXorUnfold(3673995259836664009, 24);
    BitXorUnfold(1836997629918332004, 12);
    BitXorUnfold(918498814959166002, 6);
    BitXorUnfold(459249407479583001, 3);
    BitXorUnfold(229624703739791500, 1);
    BitXorWithZero(114812351869895750);
  }

  // The hash of no bytes is the offset basis, and that of a single "a" is the
  // published one.
  lemma PublishedVectors()
    ensures HashOf([]) == "cbf29ce484222325"
    ensures HashOf([97]) == "af63dc4c8601ec8c"
  {
    hide BitXor, HexDigits, TimesPrime, Fold;
    OneFold();
    BasisSpelled();
    LetterFolded();
    Multipliers(14695981039346656068);
    LetterSpelled();
  }

  lemma OneFold()
    ensures Fold(OFFSET_BASIS, []) == OFFSET_BASIS
    ensures Fold(OFFSET_BASIS, [97]) == TimesPrime(BitXor(OFFSET_BASIS, 97))
  {
    hide TimesPrime, BitXor;
    assert [97][1..] == [];
  }

  class Fnv1a64State {
    var value: U64

    constructor ()
      ensures value == OFFSET_BASIS
    {
      value := OFFSET_BASIS;
    }

    method UpdateByte(byte: Byte)
      modifies this
      ensures value == Step(old(value), byte)
    {
      value := Xor(value, byte);
      value := TimesPrime(value);
    }

    method Update(bytes: seq<Byte>)
      modifies this
      ensures value == Fold(old(value), bytes)
    {
      for i := 0 to |bytes|
        invariant Fold(value, bytes[i..]) == Fold(old(value), bytes)
      {
        hide Step;
        assert bytes[i..][0] == bytes[i] && bytes[i..][1..] == bytes[i + 1..];
        UpdateByte(bytes[i]);
      }
    }
  }

  method Hash(bytes: seq<Byte>) returns (hex: string)
    ensures hex == HashOf(bytes)
    ensures IsCanonicalHash(hex)
  {
    var state := new Fnv1a64State();
    state.Update(bytes);
    HexReadsBack(state.value);
    hex := Hex(state.value);
  }
}
