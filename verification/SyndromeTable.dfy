/** The syndrome tables of frame_decode.c and ida_decode.c: how they are filled, and what looking a syndrome up
    in them decodes. */
module SyndromeTable {

  import opened Bch
  import opened Gf2
  import opened Wrappers

  /** A filled slot. A slot with errs -1 in the source is no entry here. */
  datatype Entry = Entry(errs: nat, locator: Word)

  type Slots = map<Word, Entry>

  function Syn1(p: Word, b: nat): Word {
    Remainder(p, {b})
  }

  function Syn2(p: Word, b: nat, c: nat): Word {
    Remainder(p, {b, c})
  }

  /** The order in which the two nested loops visit pairs. */
  predicate Earlier(b: nat, c: nat, b': nat, c': nat) {
    b < b' || (b == b' && c < c')
  }

  /** A one-bit entry names the last bit with that syndrome among the first n. */
  ghost predicate One(p: Word, n: nat, r: Word, e: Entry) {
    exists b: nat :: b < n && e == Entry(1, {b}) && Syn1(p, b) == r && forall c: nat :: b < c < n ==> Syn1(p, c) != r
  }

  ghost predicate NoOne(p: Word, n: nat, r: Word) {
    forall b: nat :: b < n ==> Syn1(p, b) != r
  }

  /** A two-bit entry names the first pair with that syndrome among those before (b', c'). */
  ghost predicate Two(p: Word, n: nat, r: Word, e: Entry, b': nat, c': nat) {
    exists b: nat, c: nat :: b < c < n && Earlier(b, c, b', c') && e == Entry(2, {b, c}) && Syn2(p, b, c) == r
      && forall d: nat, f: nat :: d < f < n && Earlier(d, f, b, c) ==> Syn2(p, d, f) != r
  }

  ghost predicate HasOnes(m: Slots, p: Word, n: nat, k: nat) {
    forall b: nat :: b < n && Below(Syn1(p, b), k) ==> Syn1(p, b) in m
  }

  ghost predicate HasTwos(m: Slots, p: Word, n: nat, k: nat, b': nat, c': nat) {
    forall b: nat, c: nat :: b < c < n && Earlier(b, c, b', c') && Below(Syn2(p, b, c), k) ==> Syn2(p, b, c) in m
  }

  ghost predicate Entries(m: Slots, p: Word, n: nat, k: nat, b': nat, c': nat) {
    forall r :: r in m ==> Below(r, k) && (One(p, n, r, m[r]) || (NoOne(p, n, r) && Two(p, n, r, m[r], b', c')))
  }

  /** What the table holds once every pair before (b', c') has been visited. */
  ghost predicate Visited(m: Slots, p: Word, n: nat, k: nat, b': nat, c': nat) {
    HasOnes(m, p, n, k) && HasTwos(m, p, n, k, b', c') && Entries(m, p, n, k, b', c')
  }

  /** A filled table with 2^k slots for the first n bits. */
  ghost predicate Filled(m: Slots, p: Word, n: nat, max: int, k: nat) {
    Visited(m, p, n, k, if max >= 2 then n else 0, 0)
  }

  /** What the table holds after the single bits below n. */
  ghost predicate Singles(m: Slots, p: Word, n: nat, k: nat) {
    HasOnes(m, p, n, k) && forall r :: r in m ==> Below(r, k) && One(p, n, r, m[r])
  }

  lemma NoSingles(p: Word, k: nat)
    ensures Singles(map[], p, 0, k)
  {
  }

  lemma SinglesVisited(m: Slots, p: Word, n: nat, k: nat)
    requires Singles(m, p, n, k)
    ensures Visited(m, p, n, k, 0, 0)
  {
    hide HasOnes, One;
  }

  /** No pair is missed from one row to the next. */
  lemma RowStarts(m: Slots, p: Word, n: nat, k: nat, b: nat)
    requires Visited(m, p, n, k, b, 0)
    ensures Visited(m, p, n, k, b, b + 1)
  {
    hide HasOnes, One;
  }

  lemma RowEnds(m: Slots, p: Word, n: nat, k: nat, b: nat)
    requires Visited(m, p, n, k, b, n)
    ensures Visited(m, p, n, k, b + 1, 0)
  {
    hide HasOnes, One;
  }

  class Table {
    var slots: Slots

    constructor ()
      ensures slots == map[]
    {
      slots := map[];
    }

    /** The loops of build_syn and build_syndrome_table. */
    method Build(poly: Word, nbits: nat, maxErrors: int, synBits: nat)
      modifies this
      ensures Filled(slots, poly, nbits, maxErrors, synBits)
    {
      hide Remainder, Visited, Singles;
      slots := map[];
      NoSingles(poly, synBits);
      for b := 0 to nbits
        invariant Singles(slots, poly, b, synBits)
      {
        var r := Gf2Remainder(poly, {b});
        StoreOne(b, r, poly, synBits);
      }
      SinglesVisited(slots, poly, nbits, synBits);
      if maxErrors >= 2 {
        for b := 0 to nbits
          invariant Visited(slots, poly, nbits, synBits, b, 0)
        {
          RowStarts(slots, poly, nbits, synBits, b);
          for c := b + 1 to nbits
            invariant Visited(slots, poly, nbits, synBits, b, c)
          {
            var r := Gf2Remainder(poly, {b, c});
            StoreTwo(b, c, r, poly, nbits, synBits);
          }
          RowEnds(slots, poly, nbits, synBits, b);
        }
      }
    }

    method StoreOne(b: nat, r: Word, ghost poly: Word, synBits: nat)
      requires r == Syn1(poly, b)
      requires Singles(slots, poly, b, synBits)
      modifies this
      ensures Singles(slots, poly, b + 1, synBits)
    {
      hide Remainder, Syn1, Syn2;
      if Below(r, synBits) {
        slots := slots[r := Entry(1, {b})];
      }
    }

    method StoreTwo(b: nat, c: nat, r: Word, ghost poly: Word, ghost nbits: nat, synBits: nat)
      requires r == Syn2(poly, b, c) && b < c < nbits
      requires Visited(slots, poly, nbits, synBits, b, c)
      modifies this
      ensures Visited(slots, poly, nbits, synBits, b, c + 1)
    {
      hide Remainder, Syn1, Syn2;
      if Below(r, synBits) && r !in slots {
        slots := slots[r := Entry(2, {b, c})];
      }
    }
  }

  // ---- Decoding with a filled table ----

  /** What a syndrome is taken for: no error, a table entry, or more errors than the table knows. */
  function Lookup(m: Slots, k: nat, s: Word): Option<Entry> {
    if s == {} then Some(Entry(0, {}))
    else if Below(s, k) && s in m then Some(m[s])
    else None
  }

  predicate IsCodeword(p: Word, n: nat, c: Word) {
    Below(c, n) && Remainder(p, c) == {}
  }

  /** The systematic code word for data of lower degree: the data, and a remainder that makes it a multiple. */
  function Systematic(p: Word, d: nat, v: Word): Word {
    var s := Shl(v, d);
    Xor(s, Remainder(p, s))
  }

  lemma SystematicCode(p: Word, d: nat, n: nat, v: Word)
    requires HasTop(p, d) && Top(p) == d <= n <= 31 && Below(v, n - d)
    ensures IsCodeword(p, n, Systematic(p, d, v)) && Shr(Systematic(p, d, v), d) == v
  {
    var s := Shl(v, d);
    var r := Remainder(p, s);
    RemBelow(p, d, s, 31);
    RemSmall(p, d, r, 31);
    RemXor(p, s, r);
    assert Xor(r, r) == {};
    hide Remainder, Shr;
    forall x: nat ensures x in Shr(Systematic(p, d, v), d) <==> x in v {
      ShrIn(Systematic(p, d, v), d, x);
    }
  }

  /** An entry stands for as many bits as it says, all among the first n, with the syndrome it is filed under. */
  lemma EntrySound(m: Slots, p: Word, n: nat, max: int, k: nat, r: Word)
    requires Filled(m, p, n, max, k) && r in m
    ensures |m[r].locator| == m[r].errs && 1 <= m[r].errs <= 2 && (m[r].errs == 2 ==> max >= 2)
    ensures Below(m[r].locator, n) && Remainder(p, m[r].locator) == r
    ensures !NoOne(p, n, r) ==> m[r].errs == 1
  {
    hide Remainder;
    var e, last: nat := m[r], if max >= 2 then n else 0;
    assert Below(r, k);
    if One(p, n, r, e) {
      var b: nat :| b < n && e == Entry(1, {b}) && Syn1(p, b) == r;
    } else {
      var b: nat, c: nat :| b < c < n && e == Entry(2, {b, c}) && Syn2(p, b, c) == r && Earlier(b, c, last, 0);
    }
  }

  /** Every pattern of one error, and of two if the table was built for two, has an entry. */
  lemma EntryExists(m: Slots, p: Word, n: nat, max: int, k: nat, e: Word)
    requires Filled(m, p, n, max, k) && Below(e, n) && (|e| == 1 || (|e| == 2 && max >= 2)) && Below(Remainder(p, e), k)
    ensures Remainder(p, e) in m && (|e| == 1 ==> !NoOne(p, n, Remainder(p, e)))
  {
    hide Remainder;
    if |e| == 1 {
      var b := OneElement(e);
      assert Syn1(p, b) in m;
    } else {
      var b, c := TwoElements(e);
      assert Earlier(b, c, n, 0);
      assert Syn2(p, b, c) in m;
    }
  }

  lemma SlotUnique(p: Word, n: nat, r: Word, e: Entry, f: Entry, last: nat)
    requires One(p, n, r, e) || (NoOne(p, n, r) && Two(p, n, r, e, last, 0))
    requires One(p, n, r, f) || (NoOne(p, n, r) && Two(p, n, r, f, last, 0))
    ensures e == f
  {
    hide Syn1, Syn2;
    if One(p, n, r, e) {
      var b: nat :| b < n && e == Entry(1, {b}) && Syn1(p, b) == r && forall c: nat :: b < c < n ==> Syn1(p, c) != r;
      var b': nat :| b' < n && f == Entry(1, {b'}) && Syn1(p, b') == r && forall c: nat :: b' < c < n ==>
        Syn1(p, c) != r;
    } else {
      var b: nat, c: nat :| b < c < n && e == Entry(2, {b, c}) && Syn2(p, b, c) == r
        && forall d: nat, f: nat :: d < f < n && Earlier(d, f, b, c) ==> Syn2(p, d, f) != r;
      var b': nat, c': nat :| b' < c' < n && f == Entry(2, {b', c'}) && Syn2(p, b', c') == r
        && forall d: nat, f: nat :: d < f < n && Earlier(d, f, b', c') ==> Syn2(p, d, f) != r;
      assert !Earlier(b, c, b', c') && !Earlier(b', c', b, c);
    }
  }

  lemma SlotsIncluded(m: Slots, m': Slots, p: Word, n: nat, max: int, k: nat, r: Word)
    requires Filled(m, p, n, max, k) && Filled(m', p, n, max, k) && r in m
    ensures r in m'
  {
    hide Remainder;
    var last: nat := if max >= 2 then n else 0;
    if One(p, n, r, m[r]) {
      var b: nat :| b < n && Syn1(p, b) == r;
      assert Syn1(p, b) in m';
    } else {
      var b: nat, c: nat :| b < c < n && Earlier(b, c, last, 0) && Syn2(p, b, c) == r;
      assert Syn2(p, b, c) in m';
    }
  }

  /** The arguments of a build determine every slot. */
  lemma FilledUnique(m: Slots, m': Slots, p: Word, n: nat, max: int, k: nat)
    requires Filled(m, p, n, max, k) && Filled(m', p, n, max, k)
    ensures m == m'
  {
    hide Remainder, One, Two, NoOne;
    forall r ensures r in m <==> r in m' {
      if r in m { SlotsIncluded(m, m', p, n, max, k, r); }
      if r in m' { SlotsIncluded(m', m, p, n, max, k, r); }
    }
    var last: nat := if max >= 2 then n else 0;
    forall r | r in m ensures m[r] == m'[r] {
      SlotUnique(p, n, r, m[r], m'[r], last);
    }
  }

  lemma XorSize(a: Word, b: Word)
    ensures |Xor(a, b)| <= |a| + |b|
  {
    assert |(a - b) + (b - a)| == |a - b| + |b - a|;
    assert a == (a - b) + (a * b) && b == (b - a) + (a * b);
  }

  lemma XorBack(v: Word, e: Word)
    ensures Xor(Xor(v, e), e) == v
  {
  }

  lemma RemXor(p: Word, v: Word, e: Word)
    ensures Remainder(p, Xor(v, e)) == Xor(Remainder(p, v), Remainder(p, e))
  {
    RemLinear(p, Top(p), v, e, 31);
  }

  /** Two error patterns with the same syndrome and few enough ones together are the same. */
  lemma SameSyndrome(p: Word, n: nat, dist: nat, a: Word, b: Word)
    requires Distance(p, n, dist) && Below(a, n) && Below(b, n) && |a| + |b| < dist
    requires Remainder(p, a) == Remainder(p, b)
    ensures a == b
  {
    hide Remainder;
    RemXor(p, a, b);
    XorSize(a, b);
    if Xor(a, b) == {} {
      assert forall x | x in a :: x !in Xor(a, b);
      assert forall x | x in b :: x !in Xor(a, b);
    }
  }

  lemma SyndromeBelow(p: Word, d: nat, v: Word)
    requires HasTop(p, d) && Top(p) == d && d <= 32 && Below(v, 32)
    ensures Below(Remainder(p, v), d)
  {
    RemBelow(p, d, v, 31);
  }

  /** A few errors leave a code word exactly when there are none. */
  lemma CleanExactly(p: Word, n: nat, dist: nat, c: Word, e: Word)
    requires Distance(p, n, dist) && IsCodeword(p, n, c) && Below(e, n) && |e| < dist
    ensures Remainder(p, Xor(c, e)) == {} <==> e == {}
  {
    hide Remainder;
    RemXor(p, c, e);
    assert Xor({}, Remainder(p, e)) == Remainder(p, e);
    if e == {} {
      RemEmpty(p);
    }
  }

  /** Up to t errors in a code word are found, when code words differ in more than 2t places. */
  lemma Corrects(m: Slots, p: Word, n: nat, max: int, k: nat, t: nat, c: Word, e: Word)
    requires Filled(m, p, n, max, k) && t <= max && t <= 2 && Distance(p, n, 2 * t + 1)
    requires IsCodeword(p, n, c) && Below(e, n) && |e| <= t && Below(Remainder(p, e), k)
    ensures Lookup(m, k, Remainder(p, Xor(c, e))) == Some(Entry(|e|, e))
  {
    hide Remainder, Filled, Distance;
    RemXor(p, c, e);
    var s := Remainder(p, e);
    assert Xor({}, s) == s;
    if e == {} {
      RemEmpty(p);
    } else {
      NotCodeword(p, n, 2 * t + 1, e);
      EntryExists(m, p, n, max, k, e);
      EntrySound(m, p, n, max, k, s);
      SameSyndrome(p, n, 2 * t + 1, e, m[s].locator);
    }
  }

  lemma NotCodeword(p: Word, n: nat, dist: nat, e: Word)
    requires Distance(p, n, dist) && Below(e, n) && |e| < dist && e != {}
    ensures Remainder(p, e) != {}
  {
  }

  lemma Nearer(p: Word, n: nat, d: nat, d': nat)
    requires Distance(p, n, d) && d' <= d
    ensures Distance(p, n, d')
  {
  }

  /** Whatever is corrected becomes a code word, by flipping as many bits as reported. */
  lemma Sound(m: Slots, p: Word, n: nat, max: int, k: nat, v: Word)
    requires Filled(m, p, n, max, k) && Below(v, n)
    requires Lookup(m, k, Remainder(p, v)).Some?
    ensures var f := Lookup(m, k, Remainder(p, v)).value;
            IsCodeword(p, n, Xor(v, f.locator)) && |f.locator| == f.errs <= 2 && Below(f.locator, n)
  {
    hide Remainder, Filled;
    var s := Remainder(p, v);
    if s == {} {
      assert Xor(v, {}) == v;
    } else {
      EntrySound(m, p, n, max, k, s);
      RemXor(p, v, m[s].locator);
      assert Xor(s, s) == {};
    }
  }

  /** More errors than the table was built for, but too few to reach the surroundings of another code word, are
      noticed. */
  lemma Detects(m: Slots, p: Word, n: nat, max: nat, k: nat, dist: nat, c: Word, e: Word)
    requires Filled(m, p, n, max, k) && 1 <= max <= 2 && Distance(p, n, dist)
    requires IsCodeword(p, n, c) && Below(e, n) && max < |e| && |e| + max < dist
    ensures Lookup(m, k, Remainder(p, Xor(c, e))) == None
  {
    hide Remainder, Filled, Distance;
    RemXor(p, c, e);
    var s := Remainder(p, e);
    assert Xor({}, s) == s;
    NotCodeword(p, n, dist, e);
    if s in m {
      EntrySound(m, p, n, max, k, s);
      SameSyndrome(p, n, dist, e, m[s].locator);
    }
  }

  /** Nothing is corrected exactly when no code word is within reach. */
  lemma RejectsExactly(m: Slots, p: Word, n: nat, max: nat, k: nat, v: Word)
    requires Filled(m, p, n, max, k) && 1 <= max <= 2 && Below(v, n)
    requires forall e: Word :: Below(e, n) ==> Below(Remainder(p, e), k)
    ensures Lookup(m, k, Remainder(p, v)) == None <==>
            forall e: Word :: Below(e, n) && |e| <= max ==> Remainder(p, Xor(v, e)) != {}
  {
    hide Remainder, Filled;
    if Lookup(m, k, Remainder(p, v)).Some? {
      Sound(m, p, n, max, k, v);
      var f := Lookup(m, k, Remainder(p, v)).value;
      if f.errs > max {
        EntrySound(m, p, n, max, k, Remainder(p, v));
      }
    } else {
      forall e: Word | Below(e, n) && |e| <= max ensures Remainder(p, Xor(v, e)) != {} {
        NotReached(m, p, n, max, k, v, e);
      }
    }
  }

  lemma NotReached(m: Slots, p: Word, n: nat, max: nat, k: nat, v: Word, e: Word)
    requires Filled(m, p, n, max, k) && 1 <= max <= 2 && Below(e, n) && |e| <= max && Below(Remainder(p, e), k)
    requires Lookup(m, k, Remainder(p, v)) == None
    ensures Remainder(p, Xor(v, e)) != {}
  {
    hide Remainder, Filled;
    RemXor(p, v, e);
    if Xor(Remainder(p, v), Remainder(p, e)) == {} {
      XorBack(Remainder(p, v), Remainder(p, e));
      assert Remainder(p, v) == Remainder(p, e);
      if e == {} {
        RemEmpty(p);
      } else {
        EntryExists(m, p, n, max, k, e);
      }
    }
  }
}
