/**
 porcupine/bitset.go: a set of small numbers as 64-bit words, changed in place.  A word is
 the sequence of its bits, least significant first; bit i of word w stands for the number
 64 * w + i.
 */
module Bitset {

  type Word = w: seq<bool> | |w| == 64 witness seq(64, _ => false)
  type Words = seq<Word>

  const ZERO: Word := seq(64, _ => false)

  function Or(a: Word, b: Word): Word {
    seq(64, i requires 0 <= i < 64 => a[i] || b[i])
  }

  function AndNot(a: Word, b: Word): Word {
    seq(64, i requires 0 <= i < 64 => a[i] && !b[i])
  }

  function Xor(a: Word, b: Word): Word {
    seq(64, i requires 0 <= i < 64 => a[i] != b[i])
  }

  /** 1 << i */
  function Bit(i: nat): Word {
    seq(64, k => k == i)
  }

  predicate Holds(words: Words, pos: nat)
    requires pos / 64 < |words|
  {
    words[pos / 64][pos % 64]
  }

  /** The numbers in the set. */
  function Elements(words: Words): set<nat> {
    set pos | 0 <= pos < 64 * |words| && Holds(words, pos)
  }

  /** Words of equal length are equal exactly when they hold the same numbers. */
  lemma SameElements(a: Words, b: Words)
    requires |a| == |b|
    ensures a == b <==> Elements(a) == Elements(b)
  {
    if Elements(a) == Elements(b) {
      forall w | 0 <= w < |a| ensures a[w] == b[w] {
        forall i | 0 <= i < 64 ensures a[w][i] == b[w][i] {
          var pos := 64 * w + i;
          assert Holds(a, pos) == (pos in Elements(a)) && Holds(b, pos) == (pos in Elements(b));
        }
      }
    }
  }

  lemma UpdateElements(words: Words, pos: nat, w: Word)
    requires pos < 64 * |words|
    requires forall i :: 0 <= i < 64 && i != pos % 64 ==> w[i] == words[pos / 64][i]
    ensures Elements(words[pos / 64 := w]) == if w[pos % 64] then Elements(words) + {pos} else Elements(words) - {pos}
  {
    var after := words[pos / 64 := w];
    forall q: nat | q < 64 * |words| ensures Holds(after, q) == if q == pos then w[pos % 64] else Holds(words, q) {
      assert q == pos || q / 64 != pos / 64 || q % 64 != pos % 64;
    }
  }

  // ----- Operations ------------------------------------------------------------------

  method NewBitset(bits: nat) returns (b: array<Word>)
    ensures fresh(b) && Elements(b[..]) == {} && bits <= 64 * b.Length
  {
    var extra := if bits % 64 != 0 then 1 else 0;
    b := new Word[bits / 64 + extra](_ => ZERO);
  }

  method Clone(b: array<Word>) returns (copy: array<Word>)
    ensures fresh(copy) && copy[..] == b[..]
  {
    copy := new Word[b.Length](i requires 0 <= i < b.Length reads b => b[i]);
  }

  method Set(b: array<Word>, pos: nat)
    requires pos < 64 * b.Length
    modifies b
    ensures Elements(b[..]) == Elements(old(b[..])) + {pos}
  {
    ghost var was := b[..];
    UpdateElements(was, pos, Or(b[pos / 64], Bit(pos % 64)));
    b[pos / 64] := Or(b[pos / 64], Bit(pos % 64));
    assert b[..] == was[pos / 64 := Or(was[pos / 64], Bit(pos % 64))];
  }

  method Clear(b: array<Word>, pos: nat)
    requires pos < 64 * b.Length
    modifies b
    ensures Elements(b[..]) == Elements(old(b[..])) - {pos}
  {
    ghost var was := b[..];
    UpdateElements(was, pos, AndNot(b[pos / 64], Bit(pos % 64)));
    b[pos / 64] := AndNot(b[pos / 64], Bit(pos % 64));
    assert b[..] == was[pos / 64 := AndNot(was[pos / 64], Bit(pos % 64))];
  }

  method Get(b: array<Word>, pos: nat) returns (yes: bool)
    requires pos < 64 * b.Length
    ensures yes <==> pos in Elements(b[..])
  {
    yes := b[pos / 64][pos % 64];
    assert yes == Holds(b[..], pos);
  }

  // ----- Hash and equality -----------------------------------------------------------

  function Ones(w: seq<bool>): nat {
    if w == [] then 0 else (if w[0] then 1 else 0) + Ones(w[1..])
  }

  function Popcount(words: Words): nat {
    if words == [] then 0 else Popcount(words[..|words| - 1]) + Ones(words[|words| - 1])
  }

  function Binary(n: nat, bits: nat): (w: seq<bool>)
    ensures |w| == bits
  {
    if bits == 0 then [] else [n % 2 == 1] + Binary(n / 2, bits - 1)
  }

  function Fold(hash: Word, words: Words): Word {
    if words == [] then hash else Xor(Fold(hash, words[..|words| - 1]), words[|words| - 1])
  }

  function HashOf(words: Words): Word {
    Fold(Binary(Popcount(words), 64), words)
  }

  // The numbers from base on whose bits are set.
  function From(w: seq<bool>, base: nat): set<nat> {
    set i | 0 <= i < |w| && w[i] :: base + i
  }

  lemma InFrom(w: seq<bool>, base: nat, pos: nat)
    ensures pos in From(w, base) <==> base <= pos < base + |w| && w[pos - base]
  {
    if base <= pos < base + |w| && w[pos - base] {
      assert base + (pos - base) in From(w, base);
    }
  }

  lemma {:induction false} OnesCount(w: seq<bool>, base: nat)
    ensures |From(w, base)| == Ones(w)
  {
    if w != [] {
      OnesCount(w[1..], base + 1);
      var rest := From(w[1..], base + 1);
      forall pos: nat ensures pos in From(w, base) <==> pos in rest || (pos == base && w[0]) {
        InFrom(w, base, pos);
        InFrom(w[1..], base + 1, pos);
      }
      assert From(w, base) == if w[0] then rest + {base} else rest;
    }
  }

  /** The count of the bits is the size of the set. */
  lemma {:induction false} CountsElements(words: Words)
    ensures Popcount(words) == |Elements(words)|
  {
    if words != [] {
      var front, last := words[..|words| - 1], words[|words| - 1];
      CountsElements(front);
      OnesCount(last, 64 * |front|);
      LastWord(words);
    }
  }

  lemma LastWord(words: Words)
    requires words != []
    ensures var front, tail := words[..|words| - 1], From(words[|words| - 1], 64 * (|words| - 1));
            Elements(words) == Elements(front) + tail && |Elements(words)| == |Elements(front)| + |tail|
  {
    var front, tail := words[..|words| - 1], From(words[|words| - 1], 64 * (|words| - 1));
    forall pos: nat ensures pos in Elements(words) <==> pos in Elements(front) || pos in tail {
      InFrom(words[|front|], 64 * |front|, pos);
      if pos < 64 * |front| {
        assert pos / 64 < |front| && front[pos / 64] == words[pos / 64];
      } else if pos < 64 * |words| {
        assert pos / 64 == |front| && pos % 64 == pos - 64 * |front|;
      }
    }
    forall pos | pos in tail ensures pos !in Elements(front) {
      InFrom(words[|front|], 64 * |front|, pos);
    }
  }

  /** The words whose bit i is set. */
  function Column(words: Words, i: nat): set<nat>
    requires i < 64
  {
    set k | 0 <= k < |words| && words[k][i]
  }

  lemma LastColumn(words: Words, i: nat)
    requires words != [] && i < 64
    ensures |Column(words, i)| == |Column(words[..|words| - 1], i)| + if words[|words| - 1][i] then 1 else 0
  {
    var front, k := words[..|words| - 1], |words| - 1;
    assert Column(words, i) == if words[k][i] then Column(front, i) + {k} else Column(front, i);
  }

  lemma {:induction false} FoldBit(hash: Word, words: Words, i: nat)
    requires i < 64
    ensures Fold(hash, words)[i] <==> (hash[i] <==> |Column(words, i)| % 2 == 0)
  {
    if words == [] {
      assert Column(words, i) == {};
    } else {
      FoldBit(hash, words[..|words| - 1], i);
      LastColumn(words, i);
    }
  }

  method Popcnt(b: array<Word>) returns (total: nat)
    ensures total == |Elements(b[..])|
  {
    total := 0;
    for i := 0 to b.Length
      invariant total == Popcount(b[..i])
    {
      assert b[..i + 1][..i] == b[..i];
      total := total + Ones(b[i]);
    }
    assert b[..b.Length] == b[..];
    CountsElements(b[..]);
  }

  /** The size of the set, with each bit turned over once for every word that has it. */
  method Hash(b: array<Word>) returns (hash: Word)
    ensures hash == HashOf(b[..])
    ensures forall i :: 0 <= i < 64 ==>
              (hash[i] <==> (Binary(|Elements(b[..])|, 64)[i] <==> |Column(b[..], i)| % 2 == 0))
  {
    var count := Popcnt(b);
    hash := Binary(count, 64);
    for i := 0 to b.Length
      invariant hash == Fold(Binary(count, 64), b[..i])
    {
      assert b[..i + 1][..i] == b[..i];
      hash := Xor(hash, b[i]);
    }
    assert b[..b.Length] == b[..];
    CountsElements(b[..]);
    forall i | 0 <= i < 64 ensures hash[i] <==> (Binary(count, 64)[i] <==> |Column(b[..], i)| % 2 == 0) {
      FoldBit(Binary(count, 64), b[..], i);
    }
  }

  /** Compares against a stored clone. */
  method Equals(b: array<Word>, other: Words) returns (same: bool)
    ensures same == (b[..] == other)
  {
    if b.Length != |other| {
      return false;
    }
    for i := 0 to b.Length
      invariant b[..i] == other[..i]
    {
      if b[i] != other[i] {
        assert b[..][i] != other[i];
        return false;
      }
    }
    assert b[..b.Length] == b[..] && other[..b.Length] == other;
    return true;
  }
}
