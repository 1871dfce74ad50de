/** Sets of small numbers packed into 64-bit words, changed in place. */
module Bitset {

  const WORD: nat := 64

  /** An unsigned 64-bit integer as its bits, the least significant first. */
  type Word = w: seq<bool> | |w| == WORD witness Zeros(WORD)

  function Zeros(k: nat): (r: seq<bool>)
    ensures |r| == k && forall i :: 0 <= i < k ==> !r[i]
  {
    seq(k, _ => false)
  }

  function FromNat(n: nat): Word {
    Digits(n, WORD)
  }

  /** The last k binary digits: what is left of a number stored in k bits. */
  function Digits(n: nat, k: nat): (r: seq<bool>)
    ensures |r| == k
  {
    if k == 0 then [] else [n % 2 == 1] + Digits(n / 2, k - 1)
  }

  function Or(a: Word, b: Word): Word {
    seq(WORD, i requires 0 <= i < WORD => a[i] || b[i])
  }

  function And(a: Word, b: Word): Word {
    seq(WORD, i requires 0 <= i < WORD => a[i] && b[i])
  }

  function AndNot(a: Word, b: Word): Word {
    seq(WORD, i requires 0 <= i < WORD => a[i] && !b[i])
  }

  function Xor(a: Word, b: Word): Word {
    seq(WORD, i requires 0 <= i < WORD => a[i] != b[i])
  }

  /** 1 << i */
  function OneShifted(i: nat): Word
    requires i < WORD
  {
    Zeros(WORD)[i := true]
  }

  // ----- The set that the words stand for

  predicate HasBit(words: seq<Word>, k: nat)
    requires k < WORD * |words|
  {
    words[k / WORD][k % WORD]
  }

  /** The numbers packed into the words. */
  function Contents(words: seq<Word>): set<nat> {
    set k: nat | k < WORD * |words| && HasBit(words, k)
  }

  lemma BitAt(words: seq<Word>, i: nat, j: nat)
    requires i < |words| && j < WORD
    ensures words[i][j] <==> WORD * i + j in Contents(words)
  {
    var k := WORD * i + j;
    assert k / WORD == i && k % WORD == j;
    assert HasBit(words, k) <==> words[i][j];
  }

  /** Word sequences of one length are equal exactly when they hold the same numbers. */
  lemma SameContents(a: seq<Word>, b: seq<Word>)
    requires |a| == |b|
    ensures a == b <==> Contents(a) == Contents(b)
  {
    if Contents(a) == Contents(b) {
      forall i | 0 <= i < |a| ensures a[i] == b[i] {
        forall j | 0 <= j < WORD ensures a[i][j] == b[i][j] {
          BitAt(a, i, j);
          BitAt(b, i, j);
        }
      }
    }
  }

  /** The number of ones in a word. */
  function OnesCount(w: seq<bool>): nat {
    if w == [] then 0 else OnesCount(w[..|w| - 1]) + if w[|w| - 1] then 1 else 0
  }

  function TotalOnes(words: seq<Word>): nat {
    if words == [] then 0 else TotalOnes(words[..|words| - 1]) + OnesCount(words[|words| - 1])
  }

  /** The members below n. */
  function Below(words: seq<Word>, n: nat): set<nat> {
    set x: nat | x < n && x in Contents(words)
  }

  lemma FrontContents(words: seq<Word>)
    requires words != []
    ensures Below(words, WORD * (|words| - 1)) == Contents(words[..|words| - 1])
  {
    var front := words[..|words| - 1];
    forall x: nat | x < WORD * |front| ensures HasBit(words, x) == HasBit(front, x) {
    }
  }

  lemma OneMore(words: seq<Word>, j: nat)
    requires words != [] && j < WORD
    ensures |Below(words, WORD * (|words| - 1) + j + 1)|
         == |Below(words, WORD * (|words| - 1) + j)| + if words[|words| - 1][j] then 1 else 0
  {
    var x := WORD * (|words| - 1) + j;
    BitAt(words, |words| - 1, j);
    hide Contents;
    assert Below(words, x + 1) == if x in Contents(words) then Below(words, x) + {x} else Below(words, x);
  }

  lemma LastWordOnes(words: seq<Word>, k: nat)
    requires words != [] && k <= WORD
    ensures |Contents(words[..|words| - 1])| + OnesCount(words[|words| - 1][..k]) == |Below(words, WORD * (|words| - 1) + k)|
  {
    hide Contents, Below;
    if k == 0 {
      FrontContents(words);
    } else {
      LastWordOnes(words, k - 1);
      OneMore(words, k - 1);
      assert words[|words| - 1][..k][..k - 1] == words[|words| - 1][..k - 1];
    }
  }

  /** Counting ones counts the members. */
  lemma {:induction false} OnesAreContents(words: seq<Word>)
    ensures TotalOnes(words) == |Contents(words)|
  {
    if words != [] {
      OnesAreContents(words[..|words| - 1]);
      LastWordOnes(words, WORD);
      assert words[|words| - 1][..WORD] == words[|words| - 1];
      assert Contents(words) == Below(words, WORD * (|words| - 1) + WORD);
    }
  }

  // ----- The operations

  method NewBitset(bits: nat) returns (b: array<Word>)
    ensures fresh(b) && bits <= WORD * b.Length < bits + WORD
    ensures Contents(b[..]) == {}
  {
    var extra := if bits % WORD != 0 then 1 else 0;
    b := new Word[bits / WORD + extra](_ => Zeros(WORD));
  }

  method Clone(b: array<Word>) returns (c: array<Word>)
    ensures fresh(c) && c[..] == b[..]
  {
    c := new Word[b.Length](i requires 0 <= i < b.Length reads b => b[i]);
  }

  method Set(b: array<Word>, pos: nat)
    requires pos < WORD * b.Length
    modifies b
    ensures Contents(b[..]) == old(Contents(b[..])) + {pos}
  {
    var major, minor := pos / WORD, pos % WORD;
    b[major] := Or(b[major], OneShifted(minor));
    forall k: nat | k < WORD * b.Length ensures HasBit(b[..], k) <==> k == pos || HasBit(old(b[..]), k) {
      assert k == pos <==> k / WORD == major && k % WORD == minor;
    }
  }

  method Clear(b: array<Word>, pos: nat)
    requires pos < WORD * b.Length
    modifies b
    ensures Contents(b[..]) == old(Contents(b[..])) - {pos}
  {
    var major, minor := pos / WORD, pos % WORD;
    b[major] := AndNot(b[major], OneShifted(minor));
    forall k: nat | k < WORD * b.Length ensures HasBit(b[..], k) <==> k != pos && HasBit(old(b[..]), k) {
      assert k == pos <==> k / WORD == major && k % WORD == minor;
    }
  }

  method Get(b: array<Word>, pos: nat) returns (r: bool)
    requires pos < WORD * b.Length
    ensures r <==> pos in Contents(b[..])
  {
    var major, minor := pos / WORD, pos % WORD;
    var both := And(b[major], OneShifted(minor));
    r := both != Zeros(WORD);
    if both[minor] {
      assert both[minor] != Zeros(WORD)[minor];
    } else {
      assert both == Zeros(WORD);
    }
    assert HasBit(b[..], pos) <==> both[minor];
  }

  method Popcnt(b: array<Word>) returns (total: nat)
    ensures total == |Contents(b[..])|
  {
    total := 0;
    for i := 0 to b.Length
      invariant total == TotalOnes(b[..i])
    {
      total := total + OnesCount(b[i]);
      assert b[..i + 1][..i] == b[..i];
    }
    assert b[..b.Length] == b[..];
    OnesAreContents(b[..]);
  }

  function XorAll(words: seq<Word>, start: Word): Word {
    if words == [] then start else Xor(XorAll(words[..|words| - 1], start), words[|words| - 1])
  }

  /** The size of the set and all words, combined. */
  function HashOf(words: seq<Word>): Word {
    XorAll(words, FromNat(|Contents(words)|))
  }

  /** n halved j times, remainders dropped. */
  function Halved(n: nat, j: nat): nat {
    if j == 0 then n else Halved(n / 2, j - 1)
  }

  lemma {:induction false} DigitAt(n: nat, k: nat, j: nat)
    requires j < k
    ensures Digits(n, k)[j] <==> Halved(n, j) % 2 == 1
  {
    if j > 0 {
      DigitAt(n / 2, k - 1, j - 1);
    }
  }

  /** The members whose place in their word is j. */
  function Column(words: seq<Word>, j: nat): set<nat> {
    set x: nat | x in Contents(words) && x % WORD == j
  }

  lemma ColumnGrows(front: seq<Word>, w: Word, j: nat)
    requires j < WORD
    ensures Column(front + [w], j) == Column(front, j) + if w[j] then {WORD * |front| + j} else {}
    ensures WORD * |front| + j !in Column(front, j)
  {
    var words := front + [w];
    BitAt(words, |front|, j);
    forall x: nat ensures x in Column(words, j) <==> x in Column(front, j) || (w[j] && x == WORD * |front| + j) {
      if x < WORD * |front| {
        assert HasBit(words, x) <==> HasBit(front, x);
      } else if x < WORD * |words| && x % WORD == j {
        assert x == WORD * |front| + j;
      }
    }
  }

  lemma {:induction false} XorAllAt(words: seq<Word>, start: Word, j: nat)
    requires j < WORD
    ensures XorAll(words, start)[j] <==> start[j] != (|Column(words, j)| % 2 == 1)
  {
    if words == [] {
      assert Column(words, j) == {};
    } else {
      var front, w := words[..|words| - 1], words[|words| - 1];
      assert words == front + [w];
      XorAllAt(front, start, j);
      ColumnGrows(front, w, j);
      hide Column;
      if w[j] { assert |Column(words, j)| == |Column(front, j)| + 1; }
    }
  }

  /** Bit j of the hash tells whether bit j of the size of the set differs from whether an odd number of
      members have place j in their word. */
  lemma HashMeans(words: seq<Word>, j: nat)
    requires j < WORD
    ensures HashOf(words)[j] <==> (Halved(|Contents(words)|, j) % 2 == 1) != (|set x: nat | x in Contents(words) && x % WORD == j| % 2 == 1)
  {
    XorAllAt(words, FromNat(|Contents(words)|), j);
    DigitAt(|Contents(words)|, WORD, j);
    assert (set x: nat | x in Contents(words) && x % WORD == j) == Column(words, j);
  }

  method Hash(b: array<Word>) returns (hash: Word)
    ensures hash == HashOf(b[..])
  {
    var total := Popcnt(b);
    hash := FromNat(total);
    for i := 0 to b.Length
      invariant hash == XorAll(b[..i], FromNat(total))
    {
      hash := Xor(hash, b[i]);
      assert b[..i + 1][..i] == b[..i];
    }
    assert b[..b.Length] == b[..];
  }

  method Equals(b: array<Word>, b2: array<Word>) returns (r: bool)
    ensures r <==> b.Length == b2.Length && Contents(b[..]) == Contents(b2[..])
  {
    if b.Length != b2.Length {
      return false;
    }
    SameContents(b[..], b2[..]);
    for i := 0 to b.Length
      invariant b[..i] == b2[..i]
    {
      if b[i] != b2[i] {
        assert b[..][i] != b2[..][i];
        return false;
      }
    }
    assert b[..b.Length] == b[..] && b2[..b2.Length] == b2[..];
    return true;
  }
}
