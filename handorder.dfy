/**
 * Made hands and their comparison. A hand is a category index into the
 * table of hand names, 0 being the strongest, and a vector of ranks that
 * breaks ties within the category.
 */
module HandOrder {
  /** The names of the ten categories, strongest first. */
  const HandNames: seq<string> := [
    "ROYAL FLUSH", "STRAIGHT FLUSH", "FOUR OF A KIND", "FULL HOUSE", "FLUSH",
    "STRAIGHT", "THREE OF A KIND", "TWO PAIR", "ONE PAIR", "HIGH CARD"]

  datatype Hand = Hand(category: nat, strength: seq<int>)

  /** The ten category names are pairwise different. */
  lemma HandNamesDistinct()
    ensures |HandNames| == 10
    ensures forall i, j :: 0 <= i < j < |HandNames| ==> HandNames[i] != HandNames[j]
  {
  }

  /** The category name of a hand. */
  function Name(h: Hand): (s: string)
    requires h.category < |HandNames|
    ensures s in HandNames
  {
    HandNames[h.category]
  }

  /** Two hands can be compared without reading past the end of a vector. */
  predicate Comparable(a: Hand, b: Hand)
  {
    a.category == b.category ==> |a.strength| == |b.strength|
  }

  /**
   * The tie-break of `compareTo`: -1 at the first position where `a` is larger,
   * 2 at the first position where it is smaller, 0 when `a` is a prefix of `b`.
   */
  function CompareStrength(a: seq<int>, b: seq<int>): (r: int)
    requires |a| <= |b|
    ensures r == -1 || r == 0 || r == 2
  {
    if a == [] then 0
    else if a[0] > b[0] then -1
    else if a[0] < b[0] then 2
    else CompareStrength(a[1..], b[1..])
  }

  /**
   * `compareTo`: -1 when `h` is the stronger hand (lower category index, or a
   * larger tie-break), 1 when its category is weaker, 2 when its tie-break is.
   */
  function Compare(h: Hand, o: Hand): (r: int)
    requires h.category == o.category ==> |h.strength| <= |o.strength|
    ensures r == -1 || r == 0 || r == 1 || r == 2
    ensures r == 1 <==> h.category > o.category
  {
    if h.category < o.category then -1
    else if h.category > o.category then 1
    else CompareStrength(h.strength, o.strength)
  }

  /** `a` is lexicographically larger than `b`: a first difference where `a` is larger. */
  ghost predicate LexGreater(a: seq<int>, b: seq<int>)
  {
    exists i :: 0 <= i < |a| && i < |b| && a[..i] == b[..i] && a[i] > b[i]
  }

  /** The reference order: a lower category index, or the same one and a larger vector. */
  ghost predicate Stronger(h: Hand, o: Hand)
  {
    h.category < o.category || (h.category == o.category && LexGreater(h.strength, o.strength))
  }

  /** The tie-break answers according to the first position where the vectors differ. */
  lemma {:induction false} CompareStrengthAt(a: seq<int>, b: seq<int>, i: nat)
    requires |a| <= |b| && i < |a| && a[..i] == b[..i] && a[i] != b[i]
    ensures CompareStrength(a, b) == if a[i] > b[i] then -1 else 2
  {
    if i > 0 {
      assert a[0] == a[..i][0] == b[..i][0] == b[0];
      assert a[1..][..i - 1] == a[1..i] == b[1..i] == b[1..][..i - 1];
      CompareStrengthAt(a[1..], b[1..], i - 1);
    }
  }

  /** A nonzero tie-break has a first difference behind it. */
  lemma {:induction false} CompareStrengthWitness(a: seq<int>, b: seq<int>) returns (i: nat)
    requires |a| <= |b| && CompareStrength(a, b) != 0
    ensures i < |a| && a[..i] == b[..i] && a[i] != b[i]
  {
    if a[0] != b[0] {
      i := 0;
    } else {
      var j := CompareStrengthWitness(a[1..], b[1..]);
      i := j + 1;
      assert a[..i] == [a[0]] + a[1..][..j];
      assert b[..i] == [b[0]] + b[1..][..j];
    }
  }

  /** The tie-break is 0 exactly when `a` is a prefix of `b`. */
  lemma {:induction false} CompareStrengthZero(a: seq<int>, b: seq<int>)
    requires |a| <= |b|
    ensures CompareStrength(a, b) == 0 <==> a == b[..|a|]
  {
    if CompareStrength(a, b) != 0 {
      var i := CompareStrengthWitness(a, b);
      assert a[i] != b[..|a|][i];
    } else if a != [] {
      assert a[0] == b[0];
      CompareStrengthZero(a[1..], b[1..]);
      assert a == [a[0]] + a[1..];
      assert b[..|a|] == [b[0]] + b[1..][..|a| - 1];
    }
  }

  /** `compareTo` of a hand against itself is 0. */
  lemma CompareSelf(h: Hand)
    ensures Compare(h, h) == 0
  {
    CompareStrengthZero(h.strength, h.strength);
  }

  /** Comparable hands compare 0 exactly when they are the same hand. */
  lemma CompareZeroIff(h: Hand, o: Hand)
    requires Comparable(h, o)
    ensures Compare(h, o) == 0 <==> h == o
  {
    if h.category == o.category {
      CompareStrengthZero(h.strength, o.strength);
      assert o.strength[..|h.strength|] == o.strength;
    }
  }

  /** `compareTo` returns -1 exactly for the stronger hand of the reference order. */
  lemma CompareStronger(h: Hand, o: Hand)
    requires Comparable(h, o)
    ensures Compare(h, o) == -1 <==> Stronger(h, o)
  {
    if h.category == o.category {
      if CompareStrength(h.strength, o.strength) != 0 {
        var i := CompareStrengthWitness(h.strength, o.strength);
        CompareStrengthAt(h.strength, o.strength, i);
      } else {
        CompareStrengthZero(h.strength, o.strength);
        assert o.strength[..|h.strength|] == o.strength;
      }
      if LexGreater(h.strength, o.strength) {
        var i :| 0 <= i < |h.strength| && h.strength[..i] == o.strength[..i] && h.strength[i] > o.strength[i];
        CompareStrengthAt(h.strength, o.strength, i);
      }
    }
  }

  /** Of two different comparable hands, exactly one is the stronger. */
  lemma CompareAntisymmetric(h: Hand, o: Hand)
    requires Comparable(h, o)
    ensures Compare(h, o) == -1 <==> Compare(o, h) == 1 || Compare(o, h) == 2
  {
    if h.category == o.category {
      var a, b := h.strength, o.strength;
      if CompareStrength(a, b) != 0 {
        var i := CompareStrengthWitness(a, b);
        CompareStrengthAt(a, b, i);
        CompareStrengthAt(b, a, i);
      } else {
        CompareStrengthZero(a, b);
        assert b[..|a|] == b;
        CompareSelf(o);
      }
    }
  }

  /** The lexicographic order on vectors is transitive. */
  lemma LexGreaterTransitive(a: seq<int>, b: seq<int>, c: seq<int>)
    requires LexGreater(a, b) && LexGreater(b, c)
    ensures LexGreater(a, c)
  {
    var i :| 0 <= i < |a| && i < |b| && a[..i] == b[..i] && a[i] > b[i];
    var j :| 0 <= j < |b| && j < |c| && b[..j] == c[..j] && b[j] > c[j];
    if i < j {
      assert b[..j][..i] == c[..j][..i];
      assert b[..j][i] == c[..j][i];
      assert a[..i] == c[..i];
    } else if j < i {
      assert a[..i][..j] == b[..i][..j];
      assert a[..i][j] == b[..i][j];
      assert a[..j] == c[..j];
    } else {
      assert a[..i] == c[..i];
    }
  }

  /** Being the stronger hand is transitive. */
  lemma CompareTransitive(a: Hand, b: Hand, c: Hand)
    requires Comparable(a, b) && Comparable(b, c) && Comparable(a, c)
    requires Compare(a, b) == -1 && Compare(b, c) == -1
    ensures Compare(a, c) == -1
  {
    CompareStronger(a, b);
    CompareStronger(b, c);
    CompareStronger(a, c);
    if a.category == b.category == c.category {
      LexGreaterTransitive(a.strength, b.strength, c.strength);
    }
  }

  /** The loop of `compareTo`, returning at the first category or tie-break difference. */
  method CompareTo(h: Hand, o: Hand) returns (r: int)
    requires h.category == o.category ==> |h.strength| <= |o.strength|
    ensures r == Compare(h, o)
  {
    if h.category < o.category {
      return -1;
    } else if h.category > o.category {
      return 1;
    }
    for i := 0 to |h.strength|
      invariant CompareStrength(h.strength, o.strength) == CompareStrength(h.strength[i..], o.strength[i..])
    {
      assert h.strength[i..][1..] == h.strength[i + 1..];
      assert o.strength[i..][1..] == o.strength[i + 1..];
      if h.strength[i] > o.strength[i] {
        return -1;
      } else if h.strength[i] < o.strength[i] {
        return 2;
      }
    }
    return 0;
  }
}
