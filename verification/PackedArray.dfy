/** The bit-packed array of tpie/packed_array.h, for words of any width that a multiple of the element width fills. */
module PackedArrays {
  import opened Arithmetic

  // ---------- Words as bits, the lowest first

  type Word = seq<bool>

  function And(a: Word, b: Word): Word
    requires |a| == |b|
  {
    seq(|a|, k requires 0 <= k < |a| => a[k] && b[k])
  }

  function Or(a: Word, b: Word): Word
    requires |a| == |b|
  {
    seq(|a|, k requires 0 <= k < |a| => a[k] || b[k])
  }

  function Not(a: Word): Word {
    seq(|a|, k requires 0 <= k < |a| => !a[k])
  }

  function ShiftLeft(a: Word, n: nat): Word {
    seq(|a|, k requires 0 <= k < |a| => k >= n && a[k - n])
  }

  function ShiftRight(a: Word, n: nat): Word {
    seq(|a|, k requires 0 <= k < |a| => k + n < |a| && a[k + n])
  }

  // Addition with carry, from bit k upwards.
  function Sum(a: Word, b: Word, k: nat, carry: bool): Word
    requires k <= |a| == |b|
    decreases |a| - k
  {
    if k == |a| then []
    else
      var sum := (a[k] != b[k]) != carry;
      var carry' := (a[k] && b[k]) || (carry && (a[k] || b[k]));
      [sum] + Sum(a, b, k + 1, carry')
  }

  lemma {:induction false} SumWithoutCarry(a: Word, b: Word, k: nat)
    requires k <= |a| == |b| && forall i :: 0 <= i < |a| ==> !(a[i] && b[i])
    ensures Sum(a, b, k, false) == Or(a, b)[k..]
    decreases |a| - k
  {
    if k < |a| {
      SumWithoutCarry(a, b, k + 1);
      var or := Or(a, b);
      assert or[k..] == [or[k]] + or[k + 1..];
    }
  }

  // mask(): the lowest b bits.
  function Mask(width: nat, b: nat): Word {
    seq(width, k => k < b)
  }

  // ---------- One element of a word

  function Get(w: Word, b: nat, low: nat): Word {
    And(ShiftRight(w, low), Mask(|w|, b))
  }

  function Put(w: Word, b: nat, low: nat, v: Word): Word
    requires |v| == |w|
  {
    Or(And(w, Not(ShiftLeft(Mask(|w|, b), low))), ShiftLeft(And(v, Mask(|w|, b)), low))
  }

  /** What was put is what is found, cut to the width of an element. */
  lemma GetPut(w: Word, b: nat, low: nat, v: Word)
    requires |v| == |w| && low + b <= |w|
    ensures Get(Put(w, b, low, v), b, low) == And(v, Mask(|w|, b))
  {
  }

  /** An element that does not overlap is left alone. */
  lemma GetPutElsewhere(w: Word, b: nat, low: nat, v: Word, other: nat)
    requires |v| == |w| && other + b <= |w| && (other + b <= low || low + b <= other)
    ensures Get(Put(w, b, low, v), b, other) == Get(w, b, other)
  {
  }

  // ---------- Where an element is

  function High(i: nat, perWord: nat): nat
    requires perWord >= 1
  {
    i / perWord
  }

  function Low(i: nat, b: nat, perWord: nat): nat
    requires perWord >= 1
  {
    b * (i % perWord)
  }

  /** Laid end to end, words of perWord elements hold the elements at multiples of their width, without gaps. */
  lemma Contiguous(i: nat, b: nat, perWord: nat)
    requires perWord >= 1
    ensures High(i, perWord) * (b * perWord) + Low(i, b, perWord) == i * b
  {
    var q, r := i / perWord, i % perWord;
    assert i == q * perWord + r;
    assert q * (b * perWord) == q * perWord * b;
    assert (q * perWord + r) * b == q * perWord * b + r * b;
  }

  function Words(m: nat, perWord: nat): nat
    requires perWord >= 1
  {
    (perWord - 1 + m) / perWord
  }

  lemma InBounds(i: nat, m: nat, b: nat, perWord: nat)
    requires perWord >= 1 && i < m
    ensures High(i, perWord) < Words(m, perWord)
    ensures Low(i, b, perWord) + b <= b * perWord
  {
    var q, r := i / perWord, i % perWord;
    assert i == q * perWord + r;
    CeilBounds(m, perWord);
    if Words(m, perWord) <= q {
      MulMonotone(Words(m, perWord), q, perWord);
    }
    MulMonotone(r + 1, perWord, b);
    assert (r + 1) * b == b * r + b;
  }

  lemma Apart(i: nat, j: nat, b: nat, perWord: nat)
    requires perWord >= 1 && i != j && High(i, perWord) == High(j, perWord)
    ensures Low(i, b, perWord) + b <= Low(j, b, perWord) || Low(j, b, perWord) + b <= Low(i, b, perWord)
  {
    var r, s := i % perWord, j % perWord;
    assert i == i / perWord * perWord + r && j == j / perWord * perWord + s;
    if r < s {
      MulMonotone(r + 1, s, b);
      assert (r + 1) * b == b * r + b;
    } else {
      MulMonotone(s + 1, r, b);
      assert (s + 1) * b == b * s + b;
    }
  }

  /** The declared linear bound: m elements of b bits take no more than one extra word. */
  lemma MemoryBound(m: nat, b: nat, perWord: nat)
    requires perWord >= 1
    ensures Words(m, perWord) * (b * perWord) <= m * b + b * perWord
  {
    if m > 0 {
      CeilBounds(m, perWord);
      MulNext(Words(m, perWord) - 1, perWord);
      MulMonotone(Words(m, perWord) * perWord, m + perWord, b);
      assert Words(m, perWord) * (b * perWord) == Words(m, perWord) * perWord * b;
      assert (m + perWord) * b == m * b + b * perWord;
    } else {
      DivUnique(perWord - 1, perWord, 0, perWord - 1);
    }
  }

  /** Reverse iterators count from one word before the elements, and reach the same element. */
  lemma ReverseBase(i: nat, b: nat, perWord: nat)
    requires perWord >= 1
    ensures High(i + perWord, perWord) - 1 == High(i, perWord)
    ensures Low(i + perWord, b, perWord) == Low(i, b, perWord)
  {
    var q, r := i / perWord, i % perWord;
    MulNext(q, perWord);
    DivUnique(i + perWord, perWord, q + 1, r);
  }

  // ---------- Filling a word

  ghost predicate Filled(w: Word, v: Word, b: nat, n: nat)
    requires 1 <= b <= |v|
  {
    forall k :: 0 <= k < |w| && k < n ==> w[k] == v[k % b]
  }

  lemma FillMore(w: Word, v: Word, b: nat, n: nat)
    requires 1 <= b <= |v| == |w| && Filled(w, v, b, n)
    ensures Filled(Sum(ShiftLeft(w, b), And(v, Mask(|w|, b)), 0, false), v, b, n + b)
  {
    var shifted, low := ShiftLeft(w, b), And(v, Mask(|w|, b));
    SumWithoutCarry(shifted, low, 0);
    assert Or(shifted, low)[0..] == Or(shifted, low);
    forall k | 0 <= k < |w| && k < n + b ensures Or(shifted, low)[k] == v[k % b] {
      PlaceInElement(k, b);
    }
  }

  lemma PlaceInElement(k: nat, b: nat)
    requires b >= 1
    ensures k % b == if k < b then k else (k - b) % b
  {
    if k < b {
      DivUnique(k, b, 0, k);
    } else {
      var q, r := (k - b) / b, (k - b) % b;
      MulNext(q, b);
      DivUnique(k, b, q + 1, r);
    }
  }

  lemma FilledGet(w: Word, v: Word, b: nat, i: nat, perWord: nat)
    requires 1 <= b <= |v| == |w| == b * perWord && perWord >= 1 && Filled(w, v, b, |w|)
    ensures Get(w, b, Low(i, b, perWord)) == And(v, Mask(|w|, b))
  {
    var low := Low(i, b, perWord);
    InBounds(i, i + 1, b, perWord);
    var got, put := Get(w, b, low), And(v, Mask(|w|, b));
    forall k | 0 <= k < |w| ensures got[k] == put[k] {
      if k < b {
        DivUnique(low + k, b, i % perWord, k);
      }
    }
  }

  // ---------- The array

  class PackedArray {
    const b: nat
    const perWord: nat
    var elements: array<Word>
    var size: nat

    ghost predicate Valid()
      reads this, elements
    {
      && b >= 1 && perWord >= 1 && elements.Length == Words(size, perWord)
      && forall h :: 0 <= h < elements.Length ==> |elements[h]| == b * perWord
    }

    /** The logical elements, as words whose lowest b bits matter. */
    ghost function Contents(): (c: seq<Word>)
      requires Valid()
      reads this, elements
      ensures |c| == size
    {
      Unpacked(elements[..], size, b, perWord)
    }

    constructor (b: nat, perWord: nat, size: nat, junk: Word)
      requires b >= 1 && perWord >= 1 && |junk| == b * perWord
      ensures Valid() && fresh(elements) && this.size == size && this.b == b && this.perWord == perWord
    {
      this.b, this.perWord, this.size := b, perWord, size;
      elements := new Word[Words(size, perWord)](_ => junk);
    }

    method At(i: nat) returns (v: Word)
      requires Valid() && i < size
      ensures v == Contents()[i]
    {
      InBounds(i, size, b, perWord);
      v := Get(elements[High(i, perWord)], b, Low(i, b, perWord));
    }

    /** Assigning through the reference changes exactly one element. */
    method Assign(i: nat, v: Word)
      requires Valid() && i < size && |v| == b * perWord
      modifies elements
      ensures Valid() && Contents() == old(Contents())[i := And(v, Mask(|v|, b))]
    {
      InBounds(i, size, b, perWord);
      var h, l := High(i, perWord), Low(i, b, perWord);
      PutChangesOne(elements[..], size, b, perWord, i, v);
      elements[h] := Put(elements[h], b, l, v);
      assert elements[..] == old(elements[..])[h := Put(old(elements[h]), b, l, v)];
    }

    /** All elements get the value. */
    method Fill(v: Word)
      requires Valid() && |v| == b * perWord
      modifies elements
      ensures Valid() && forall i :: 0 <= i < size ==> Contents()[i] == And(v, Mask(|v|, b))
    {
      MulMonotone(1, perWord, b);
      var x := seq(b * perWord, _ => false);
      ghost var filled := 0;
      for i := 0 to perWord
        invariant |x| == |v| && filled == i * b && Filled(x, v, b, filled)
      {
        FillMore(x, v, b, filled);
        MulNext(i, b);
        SumLength(ShiftLeft(x, b), And(v, Mask(|v|, b)), 0, false);
        x := Sum(ShiftLeft(x, b), And(v, Mask(|v|, b)), 0, false);
        filled := filled + b;
      }
      forall h | 0 <= h < elements.Length {
        elements[h] := x;
      }
      assert perWord * b == b * perWord;
      forall i | 0 <= i < size ensures Contents()[i] == And(v, Mask(|v|, b)) {
        InBounds(i, size, b, perWord);
        FilledGet(x, v, b, i, perWord);
      }
    }

    /** All elements are lost, unless the size stays the same. */
    method Resize(s: nat, junk: Word)
      requires Valid() && |junk| == b * perWord
      modifies this`elements, this`size
      ensures Valid() && size == s
      ensures s == old(size) ==> elements == old(elements)
      ensures s != old(size) ==> fresh(elements)
    {
      if s == size {
        return;
      }
      size := s;
      elements := new Word[Words(s, perWord)](_ => junk);
    }
  }

  // The logical elements of a sequence of words.
  ghost function Unpacked(words: seq<Word>, size: nat, b: nat, perWord: nat): (c: seq<Word>)
    requires perWord >= 1 && |words| == Words(size, perWord)
    ensures |c| == size
  {
    seq(size, i requires 0 <= i < size => Element(words, size, b, perWord, i))
  }

  ghost function Element(words: seq<Word>, size: nat, b: nat, perWord: nat, i: nat): Word
    requires perWord >= 1 && |words| == Words(size, perWord) && i < size
  {
    InBounds(i, size, b, perWord);
    Get(words[High(i, perWord)], b, Low(i, b, perWord))
  }

  lemma PutChangesOne(words: seq<Word>, size: nat, b: nat, perWord: nat, i: nat, v: Word)
    requires b >= 1 && perWord >= 1 && |words| == Words(size, perWord) && i < size && |v| == b * perWord
    requires forall h :: 0 <= h < |words| ==> |words[h]| == b * perWord
    ensures High(i, perWord) < |words|
    ensures
      var h := High(i, perWord);
      var words' := words[h := Put(words[h], b, Low(i, b, perWord), v)];
      Unpacked(words', size, b, perWord) == Unpacked(words, size, b, perWord)[i := And(v, Mask(|v|, b))]
  {
    InBounds(i, size, b, perWord);
    var h, l := High(i, perWord), Low(i, b, perWord);
    var words' := words[h := Put(words[h], b, l, v)];
    forall j | 0 <= j < size
      ensures Element(words', size, b, perWord, j) == if j == i then And(v, Mask(|v|, b))
        else Element(words, size, b, perWord, j)
    {
      InBounds(j, size, b, perWord);
      if j == i {
        GetPut(words[h], b, l, v);
      } else if High(j, perWord) == h {
        Apart(i, j, b, perWord);
        GetPutElsewhere(words[h], b, l, v, Low(j, b, perWord));
      }
    }
  }

  lemma {:induction false} SumLength(a: Word, b: Word, k: nat, carry: bool)
    requires k <= |a| == |b|
    ensures |Sum(a, b, k, carry)| == |a| - k
    decreases |a| - k
  {
    if k < |a| {
      SumLength(a, b, k + 1, (a[k] && b[k]) || (carry && (a[k] || b[k])));
    }
  }
}
