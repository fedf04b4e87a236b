/** Asteroid.TYPES, Asteroid._weighted_random_choice and Asteroid.verify of
    entities.py: the resource table, the cumulative-weight choice and the check
    that every resource occurs. */
module Resources {
  import opened Wrappers

  /** A weight table in its iteration order: (key, weight) pairs. */
  type Table = seq<(string, int)>

  /** Asteroid.TYPES, listed in the order of its source text. A Python 2 dict
      iterates in an order of its own, so the lemmas below hold for every order. */
  const Types: Table := [("water", 5), ("oil", 3), ("uranium", 1), ("aluminium", 10), ("titanium", 10)]

  /** sum(choices.values()) */
  function Total(t: Table): int
  {
    if t == [] then 0 else Total(t[..|t| - 1]) + t[|t| - 1].1
  }

  /** The running total after the first k entries. */
  function Prefix(t: Table, k: nat): int
    requires k <= |t|
  {
    Total(t[..k])
  }

  predicate NonNegative(t: Table)
  {
    forall i :: 0 <= i < |t| ==> 0 <= t[i].1
  }

  lemma PrefixStep(t: Table, k: nat)
    requires k < |t|
    ensures Prefix(t, k + 1) == Prefix(t, k) + t[k].1
  {
    assert t[..k + 1][..k] == t[..k];
  }

  /** With non-negative weights the running total never decreases. */
  lemma {:induction false} PrefixMonotone(t: Table, i: nat, j: nat)
    requires NonNegative(t) && i <= j <= |t|
    ensures Prefix(t, i) <= Prefix(t, j)
    decreases j - i
  {
    if i < j {
      PrefixStep(t, i);
      PrefixMonotone(t, i + 1, j);
    }
  }

  /** Entry k is the first whose running total exceeds pick. */
  predicate FirstAbove(t: Table, pick: real, k: nat)
  {
    && k < |t|
    && pick < Prefix(t, k + 1) as real
    && forall j :: 0 < j <= k ==> Prefix(t, j) as real <= pick
  }

  /** Asteroid._weighted_random_choice with the uniform draw pick as a parameter:
      the key of the first entry whose running total exceeds pick, or None when
      the loop falls through. */
  method WeightedChoice(choices: Table, pick: real) returns (r: Option<string>)
    ensures r.None? <==> forall k: nat :: !FirstAbove(choices, pick, k)
    ensures r.Some? ==> exists k: nat :: FirstAbove(choices, pick, k) && choices[k].0 == r.value
  {
    var current := 0;
    var i := 0;
    while i < |choices|
      invariant 0 <= i <= |choices|
      invariant current == Prefix(choices, i)
      invariant forall j :: 0 < j <= i ==> Prefix(choices, j) as real <= pick
    {
      var (key, value) := choices[i];
      PrefixStep(choices, i);
      current := current + value;
      if current as real > pick {
        assert FirstAbove(choices, pick, i);
        return Some(key);
      }
      i := i + 1;
    }
    return None;
  }

  /** At most one entry is the first above pick. */
  lemma FirstAboveUnique(t: Table, pick: real, k: nat, m: nat)
    requires FirstAbove(t, pick, k) && FirstAbove(t, pick, m)
    ensures k == m
  {
  }

  /** For non-negative weights and a non-negative pick, entry k is chosen exactly
      when pick falls in its interval [Prefix(k), Prefix(k+1)). */
  lemma ChoiceInterval(t: Table, pick: real, k: nat)
    requires NonNegative(t) && 0.0 <= pick && k < |t|
    ensures FirstAbove(t, pick, k) <==> Prefix(t, k) as real <= pick < Prefix(t, k + 1) as real
  {
    if Prefix(t, k) as real <= pick {
      forall j | 0 < j <= k ensures Prefix(t, j) as real <= pick {
        PrefixMonotone(t, j, k);
      }
    }
  }

  /** For non-negative weights and a non-negative pick, some entry is chosen exactly
      when pick is below the total; in particular the draw pick == Total, which
      uniform(0, max) can return, makes the choice fall through to None. */
  lemma {:induction false} ChoiceExists(t: Table, pick: real)
    requires NonNegative(t) && 0.0 <= pick
    ensures (exists k: nat :: FirstAbove(t, pick, k)) <==> pick < Total(t) as real
  {
    if pick < Total(t) as real {
      FirstExceeding(t, pick, 0);
    } else {
      forall k: nat | k < |t| ensures !FirstAbove(t, pick, k) {
        PrefixMonotone(t, k + 1, |t|);
        assert t[..|t|] == t;
      }
    }
  }

  /** If no entry before i exceeds pick, one at or after i does whenever pick is below the total. */
  lemma {:induction false} FirstExceeding(t: Table, pick: real, i: nat)
    requires i <= |t| && 0.0 <= pick
    requires forall j :: 0 < j <= i ==> Prefix(t, j) as real <= pick
    ensures pick < Total(t) as real ==> exists k: nat :: FirstAbove(t, pick, k)
    decreases |t| - i
  {
    if i == |t| {
      assert t[..|t|] == t;
      if 0 < |t| {
        assert Prefix(t, |t|) as real <= pick;
      }
    } else if pick < Prefix(t, i + 1) as real {
      assert FirstAbove(t, pick, i);
    } else {
      FirstExceeding(t, pick, i + 1);
    }
  }

  lemma TypesTotal()
    ensures Total(Types) == 29 && NonNegative(Types)
  {
    assert Types[..1] == [("water", 5)];
    assert Types[..2] == [("water", 5), ("oil", 3)];
    assert Types[..3] == [("water", 5), ("oil", 3), ("uranium", 1)];
    assert Types[..4] == [("water", 5), ("oil", 3), ("uranium", 1), ("aluminium", 10)];
    assert Types[..4][..3] == Types[..3] && Types[..3][..2] == Types[..2] && Types[..2][..1] == Types[..1];
    assert Total(Types[..1]) == 5;
    assert Total(Types[..2]) == 8;
    assert Total(Types[..3]) == 9;
    assert Total(Types[..4]) == 19;
  }

  /** Asteroid.verify's loop: whether every key of the table occurs in kinds
      (Counter(kinds)[key] >= 1). */
  method AllPresent(kinds: seq<string>, table: Table) returns (ok: bool)
    ensures ok <==> forall i :: 0 <= i < |table| ==> table[i].0 in kinds
  {
    var count := multiset(kinds);
    for i := 0 to |table|
      invariant forall j :: 0 <= j < i ==> table[j].0 in kinds
    {
      if count[table[i].0] < 1 {
        return false;
      }
    }
    return true;
  }
}
