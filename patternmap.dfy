/**
 * The user's pattern-to-category map as both classifiers hold it:
 * `_convert_to_lower` builds it, `_check_conflict` accepts it, and the
 * first-match search of `_get_class` reads it. Both classes implement
 * these three pieces identically, so they are modelled once here.
 */
module PatternMap {
  import opened Wrappers
  import opened Errors
  import opened Text
  import opened OrderedMaps

  /** The reserved catch-all category. */
  const OtherClass: string := "others"

  /** Pattern (a substring of a kernel name) to category, in insertion order. */
  type PatternTable = OrderedMap<string, string>

  /** Every listed key has a value in `vals`. */
  predicate AllMapped(ks: seq<string>, vals: map<string, string>) {
    forall i :: 0 <= i < |ks| ==> ks[i] in vals
  }

  // ---------------------------------------------------------------------
  // `_convert_to_lower`

  /** The category of the `i`-th user key lowercases to the reserved name. */
  predicate Reserved(ks: seq<string>, vals: map<string, string>, i: int)
    requires AllMapped(ks, vals)
  {
    0 <= i < |ks| && Lower(vals[ks[i]]) == OtherClass
  }

  /** The first position at or after `j` whose category is reserved. */
  function FirstReservedFrom(ks: seq<string>, vals: map<string, string>, j: nat): (r: Option<nat>)
    requires AllMapped(ks, vals) && j <= |ks|
    ensures r.Some? ==> j <= r.value < |ks| && Reserved(ks, vals, r.value)
    ensures r.Some? ==> forall i :: j <= i < r.value ==> !Reserved(ks, vals, i)
    ensures r.None? <==> forall i :: j <= i < |ks| ==> !Reserved(ks, vals, i)
    decreases |ks| - j
  {
    if j == |ks| then None
    else if Reserved(ks, vals, j) then Some(j)
    else FirstReservedFrom(ks, vals, j + 1)
  }

  /**
   * The dictionary `result_dict` after the loop has stored the lowercased
   * form of each of `ks` in turn: a repeated lowercase key keeps its first
   * position and takes the later category.
   */
  function LowerPairs(ks: seq<string>, vals: map<string, string>): PatternTable
    requires AllMapped(ks, vals)
  {
    if ks == [] then Empty()
    else
      var k := ks[|ks| - 1];
      Put(LowerPairs(ks[..|ks| - 1], vals), Lower(k), Lower(vals[k]))
  }

  /** What `_convert_to_lower` returns or raises for the user map `user`. */
  function LowerSpec(user: OrderedMap<string, string>): Result<PatternTable, Error>
    requires Valid(user)
  {
    match FirstReservedFrom(user.keys, user.values, 0)
    case Some(i) => Err(ReservedCategory(user.values[user.keys[i]]))
    case None => Ok(LowerPairs(user.keys, user.values))
  }

  /** `_convert_to_lower`: the loop that fills `result_dict`, stopping at the first reserved category. */
  method ConvertToLower(user: OrderedMap<string, string>) returns (r: Result<PatternTable, Error>)
    requires Valid(user)
    ensures r == LowerSpec(user)
  {
    var ks, vals := user.keys, user.values;
    var result := Empty();
    var i := 0;
    while i < |ks|
      invariant 0 <= i <= |ks|
      invariant result == LowerPairs(ks[..i], vals)
      invariant forall j :: 0 <= j < i ==> !Reserved(ks, vals, j)
    {
      var key := ks[i];
      if Lower(vals[key]) == OtherClass {
        LowerSpecReserved(user, i);
        return Err(ReservedCategory(vals[key]));
      }
      NoneReservedSnoc(ks, vals, i);
      LowerPairsSnoc(ks, vals, i);
      result := Put(result, Lower(key), Lower(vals[key]));
      i := i + 1;
    }
    assert ks[..i] == ks;
    LowerSpecNoneReserved(user);
    return Ok(result);
  }

  /** The loop's check passes one more key. */
  lemma NoneReservedSnoc(ks: seq<string>, vals: map<string, string>, i: nat)
    requires AllMapped(ks, vals) && i < |ks| && Lower(vals[ks[i]]) != OtherClass
    requires forall j :: 0 <= j < i ==> !Reserved(ks, vals, j)
    ensures forall j :: 0 <= j < i + 1 ==> !Reserved(ks, vals, j)
  {
    assert !Reserved(ks, vals, i);
  }

  /** The first reserved category is the one reported. */
  lemma LowerSpecReserved(user: OrderedMap<string, string>, i: nat)
    requires Valid(user) && i < |user.keys| && Lower(user.values[user.keys[i]]) == OtherClass
    requires forall j :: 0 <= j < i ==> !Reserved(user.keys, user.values, j)
    ensures LowerSpec(user) == Err(ReservedCategory(user.values[user.keys[i]]))
  {
    assert Reserved(user.keys, user.values, i);
  }

  /** Without a reserved category the lowered map is returned. */
  lemma LowerSpecNoneReserved(user: OrderedMap<string, string>)
    requires Valid(user)
    requires forall j :: 0 <= j < |user.keys| ==> !Reserved(user.keys, user.values, j)
    ensures LowerSpec(user) == Ok(LowerPairs(user.keys, user.values))
  {
  }

  /** One more key stored by the loop. */
  lemma LowerPairsSnoc(ks: seq<string>, vals: map<string, string>, i: nat)
    requires AllMapped(ks, vals) && i < |ks|
    ensures LowerPairs(ks[..i + 1], vals) == Put(LowerPairs(ks[..i], vals), Lower(ks[i]), Lower(vals[ks[i]]))
  {
    assert ks[..i + 1][..i] == ks[..i];
  }

  lemma {:induction false} LowerPairsValid(ks: seq<string>, vals: map<string, string>)
    requires AllMapped(ks, vals)
    ensures Valid(LowerPairs(ks, vals))
    decreases |ks|
  {
    if ks != [] {
      var k := ks[|ks| - 1];
      LowerPairsValid(ks[..|ks| - 1], vals);
      PutValid(LowerPairs(ks[..|ks| - 1], vals), Lower(k), Lower(vals[k]));
    }
  }

  /** The stored patterns are exactly the lowercased user keys. */
  lemma {:induction false} LowerPairsKeys(ks: seq<string>, vals: map<string, string>, k: string)
    requires AllMapped(ks, vals)
    ensures k in LowerPairs(ks, vals).values <==> exists i :: 0 <= i < |ks| && Lower(ks[i]) == k
    decreases |ks|
  {
    if ks != [] {
      var n := |ks| - 1;
      var p := ks[..n];
      LowerPairsKeys(p, vals, k);
      assert LowerPairs(ks, vals).values == LowerPairs(p, vals).values[Lower(ks[n]) := Lower(vals[ks[n]])];
      LowerOccursSnoc(ks, p, k);
    }
  }

  /** Some key of `ks` lowercases to `k` iff one before the last does, or the last does. */
  lemma LowerOccursSnoc(ks: seq<string>, p: seq<string>, k: string)
    requires ks != [] && p == ks[..|ks| - 1]
    ensures (exists i :: 0 <= i < |ks| && Lower(ks[i]) == k) <==>
      (exists i :: 0 <= i < |p| && Lower(p[i]) == k) || Lower(ks[|ks| - 1]) == k
  {
    if exists i :: 0 <= i < |p| && Lower(p[i]) == k {
      var i :| 0 <= i < |p| && Lower(p[i]) == k;
      assert Lower(ks[i]) == k;
    }
    if exists i :: 0 <= i < |ks| && Lower(ks[i]) == k {
      var i :| 0 <= i < |ks| && Lower(ks[i]) == k;
      if i < |p| {
        assert Lower(p[i]) == k;
      }
    }
  }

  /**
   * The category stored for a pattern is the lowercased category of the
   * LAST user key that lowercases to that pattern.
   */
  lemma {:induction false} LowerPairsLastWins(ks: seq<string>, vals: map<string, string>, i: nat)
    requires AllMapped(ks, vals) && i < |ks|
    requires forall j :: i < j < |ks| ==> Lower(ks[j]) != Lower(ks[i])
    ensures Lower(ks[i]) in LowerPairs(ks, vals).values
    ensures LowerPairs(ks, vals).values[Lower(ks[i])] == Lower(vals[ks[i]])
    decreases |ks|
  {
    var p := ks[..|ks| - 1];
    if i < |p| {
      LowerPairsLastWins(p, vals, i);
    }
  }

  /** Every stored pattern and category is lowercase. */
  lemma {:induction false} LowerPairsLowercase(ks: seq<string>, vals: map<string, string>)
    requires AllMapped(ks, vals)
    ensures forall k :: k in LowerPairs(ks, vals).values ==> IsLower(k) && IsLower(LowerPairs(ks, vals).values[k])
    decreases |ks|
  {
    if ks != [] {
      var k := ks[|ks| - 1];
      LowerPairsLowercase(ks[..|ks| - 1], vals);
      LowerIsLower(k);
      LowerIsLower(vals[k]);
    }
  }

  /** No stored category is the reserved one when no user category lowercases to it. */
  lemma {:induction false} LowerPairsNotReserved(ks: seq<string>, vals: map<string, string>)
    requires AllMapped(ks, vals)
    requires forall i :: 0 <= i < |ks| ==> !Reserved(ks, vals, i)
    ensures forall k :: k in LowerPairs(ks, vals).values ==> LowerPairs(ks, vals).values[k] != OtherClass
    decreases |ks|
  {
    if ks != [] {
      var p := ks[..|ks| - 1];
      assert !Reserved(ks, vals, |ks| - 1);
      assert forall i :: 0 <= i < |p| ==> !Reserved(p, vals, i) by {
        forall i | 0 <= i < |p|
          ensures !Reserved(p, vals, i)
        {
          assert !Reserved(ks, vals, i);
        }
      }
      LowerPairsNotReserved(p, vals);
    }
  }

  /** When no two user keys lowercase alike, the patterns are the lowercased keys in the same order. */
  lemma {:induction false} LowerPairsOrder(ks: seq<string>, vals: map<string, string>)
    requires AllMapped(ks, vals)
    requires forall i, j :: 0 <= i < j < |ks| ==> Lower(ks[i]) != Lower(ks[j])
    ensures |LowerPairs(ks, vals).keys| == |ks|
    ensures forall i :: 0 <= i < |ks| ==> LowerPairs(ks, vals).keys[i] == Lower(ks[i])
    decreases |ks|
  {
    if ks != [] {
      var p := ks[..|ks| - 1];
      LowerPairsOrder(p, vals);
      LowerPairsKeys(p, vals, Lower(ks[|ks| - 1]));
    }
  }

  /** The user keys, each lowercased, in the user map's order. */
  function Lowered(ks: seq<string>): (ls: seq<string>)
    ensures |ls| == |ks| && forall i :: 0 <= i < |ks| ==> ls[i] == Lower(ks[i])
  {
    seq(|ks|, i requires 0 <= i < |ks| => Lower(ks[i]))
  }

  /**
   * Collisions included, the patterns are ordered by where their first user
   * key stands: a key that lowercases to a stored pattern keeps the slot of
   * the first one.
   */
  lemma {:induction false} LowerPairsFirstAppearance(ks: seq<string>, vals: map<string, string>)
    requires AllMapped(ks, vals)
    ensures forall a :: 0 <= a < |LowerPairs(ks, vals).keys| ==> LowerPairs(ks, vals).keys[a] in Lowered(ks)
    ensures forall a, b :: 0 <= a < b < |LowerPairs(ks, vals).keys| ==>
      IndexOf(Lowered(ks), LowerPairs(ks, vals).keys[a]) < IndexOf(Lowered(ks), LowerPairs(ks, vals).keys[b])
    decreases |ks|
  {
    if ks != [] {
      var n := |ks| - 1;
      var p := ks[..n];
      var x := Lower(ks[n]);
      var lp := Lowered(p);
      assert Lowered(ks) == lp + [x];
      LowerPairsFirstAppearance(p, vals);
      KeptFirstPositions(LowerPairs(p, vals).keys, lp, x);
      LowerPairsKeys(p, vals, x);
      if x !in LowerPairs(p, vals).values {
        assert (lp + [x])[..|lp|] == lp;
        IndexOfUnique(lp + [x], x, |lp|);
      }
    }
  }

  /** Appending to the lowered keys moves no earlier key's first position. */
  lemma KeptFirstPositions(keys: seq<string>, lp: seq<string>, x: string)
    requires forall a :: 0 <= a < |keys| ==> keys[a] in lp
    ensures forall a :: 0 <= a < |keys| ==> keys[a] in lp + [x] && IndexOf(lp + [x], keys[a]) == IndexOf(lp, keys[a])
  {
    forall a | 0 <= a < |keys|
      ensures IndexOf(lp + [x], keys[a]) == IndexOf(lp, keys[a])
    {
      var i := IndexOf(lp, keys[a]);
      assert (lp + [x])[..i] == lp[..i];
      IndexOfUnique(lp + [x], keys[a], i);
    }
  }

  // ---------------------------------------------------------------------
  // `_check_conflict`

  /** One of the two patterns is a substring of the other. */
  predicate Conflicting(a: string, b: string) {
    Contains(b, a) || Contains(a, b)
  }

  /** No two distinct positions hold patterns one of which contains the other. */
  predicate ConflictFree(keys: seq<string>) {
    forall a, b :: 0 <= a < b < |keys| ==> !Conflicting(keys[a], keys[b])
  }

  /** The inner loop: the first `b >= j` whose pattern conflicts with `keys[a]`. */
  function ConflictPartner(keys: seq<string>, a: nat, j: nat): (r: Option<nat>)
    requires a < |keys| && j <= |keys|
    ensures r.Some? ==> j <= r.value < |keys| && Conflicting(keys[a], keys[r.value])
    ensures r.Some? ==> forall b :: j <= b < r.value ==> !Conflicting(keys[a], keys[b])
    ensures r.None? <==> forall b :: j <= b < |keys| ==> !Conflicting(keys[a], keys[b])
    decreases |keys| - j
  {
    if j == |keys| then None
    else if Conflicting(keys[a], keys[j]) then Some(j)
    else ConflictPartner(keys, a, j + 1)
  }

  /**
   * The outer loop from `a` on: the first conflicting pair `(a, b)`, `a < b`,
   * in the order in which the nested loops visit the pairs.
   */
  function FirstConflictFrom(keys: seq<string>, a: nat): (r: Option<(nat, nat)>)
    requires a <= |keys|
    ensures r.None? <==> forall x, y :: a <= x < y < |keys| ==> !Conflicting(keys[x], keys[y])
    ensures r.Some? ==> a <= r.value.0 < r.value.1 < |keys| && Conflicting(keys[r.value.0], keys[r.value.1])
    ensures r.Some? ==> forall x, y :: a <= x < r.value.0 && x < y < |keys| ==> !Conflicting(keys[x], keys[y])
    ensures r.Some? ==> forall y :: r.value.0 < y < r.value.1 ==> !Conflicting(keys[r.value.0], keys[y])
    decreases |keys| - a
  {
    if a == |keys| then None
    else
      match ConflictPartner(keys, a, a + 1)
      case Some(b) => Some((a, b))
      case None => FirstConflictFrom(keys, a + 1)
  }

  /** `_check_conflict`: nothing when the patterns are conflict-free, else the error for the first pair. */
  function CheckConflict(keys: seq<string>): (r: Result<(), Error>)
    ensures r.Ok? <==> ConflictFree(keys)
    ensures r.Err? ==> exists a, b :: 0 <= a < b < |keys| && Conflicting(keys[a], keys[b]) && r.error == PatternConflict(keys[a], keys[b])
  {
    match FirstConflictFrom(keys, 0)
    case Some((a, b)) => Err(PatternConflict(keys[a], keys[b]))
    case None => Ok(())
  }

  // ---------------------------------------------------------------------
  // Construction: `_convert_to_lower` followed by `_check_conflict`

  /** What the constructor stores, or the error it raises. */
  function Build(user: OrderedMap<string, string>): Result<PatternTable, Error>
    requires Valid(user)
  {
    match LowerSpec(user)
    case Err(e) => Err(e)
    case Ok(m) =>
      match CheckConflict(m.keys)
      case Err(e) => Err(e)
      case Ok(_) => Ok(m)
  }

  /** A pattern table a successful construction can produce. */
  predicate WellFormed(m: PatternTable) {
    && Valid(m)
    && ConflictFree(m.keys)
    && (forall k :: k in m.values ==> IsLower(k) && IsLower(m.values[k]) && m.values[k] != OtherClass)
  }

  /** The constructor runs `_convert_to_lower`, then `_check_conflict` on the lowered keys. */
  method NewPatternTable(user: OrderedMap<string, string>) returns (r: Result<PatternTable, Error>)
    requires Valid(user)
    ensures r == Build(user)
  {
    var lowered := ConvertToLower(user);
    if lowered.Err? {
      return Err(lowered.error);
    }
    var m := lowered.value;
    var checked := CheckConflict(m.keys);
    if checked.Err? {
      return Err(checked.error);
    }
    return Ok(m);
  }

  /**
   * Construction succeeds exactly when no category lowercases to `"others"`
   * and the lowered patterns are conflict-free; then it yields the lowered
   * map and that map is well formed.
   */
  lemma BuildCharacterization(user: OrderedMap<string, string>)
    requires Valid(user)
    ensures Build(user).Ok? <==>
      (forall i :: 0 <= i < |user.keys| ==> !Reserved(user.keys, user.values, i))
      && ConflictFree(LowerPairs(user.keys, user.values).keys)
    ensures Build(user).Ok? ==> Build(user).value == LowerPairs(user.keys, user.values)
    ensures Build(user).Ok? ==> WellFormed(Build(user).value)
  {
    if Build(user).Ok? {
      LowerPairsValid(user.keys, user.values);
      LowerPairsLowercase(user.keys, user.values);
      LowerPairsNotReserved(user.keys, user.values);
    }
  }

  /** A reserved category fails construction with the first such raw category. */
  lemma BuildReserved(user: OrderedMap<string, string>, i: nat)
    requires Valid(user) && Reserved(user.keys, user.values, i)
    requires forall j :: 0 <= j < i ==> !Reserved(user.keys, user.values, j)
    ensures Build(user) == Err(ReservedCategory(user.values[user.keys[i]]))
  {
    LowerSpecReserved(user, i);
  }

  // ---------------------------------------------------------------------
  // The first-match search of `_get_class`

  /** The first position at or after `j` whose pattern occurs in `name`. */
  function FirstMatchFrom(keys: seq<string>, name: string, j: nat): (r: Option<nat>)
    requires j <= |keys|
    ensures r.Some? ==> j <= r.value < |keys| && Contains(name, keys[r.value])
    ensures r.Some? ==> forall i :: j <= i < r.value ==> !Contains(name, keys[i])
    ensures r.None? <==> forall i :: j <= i < |keys| ==> !Contains(name, keys[i])
    decreases |keys| - j
  {
    if j == |keys| then None
    else if Contains(name, keys[j]) then Some(j)
    else FirstMatchFrom(keys, name, j + 1)
  }

  /** The category of the first pattern, in map order, contained in `name`; `"others"` if none is. */
  function Classify(m: PatternTable, name: string): string
    requires Valid(m)
  {
    match FirstMatchFrom(m.keys, name, 0)
    case Some(i) => m.values[m.keys[i]]
    case None => OtherClass
  }

  /** The first contained pattern decides the category. */
  lemma ClassifyFirstMatch(m: PatternTable, name: string, i: nat)
    requires Valid(m) && i < |m.keys| && Contains(name, m.keys[i])
    requires forall j :: 0 <= j < i ==> !Contains(name, m.keys[j])
    ensures Classify(m, name) == m.values[m.keys[i]]
  {
  }

  /** A name that contains no pattern is classified `"others"`. */
  lemma ClassifyNoMatch(m: PatternTable, name: string)
    requires Valid(m)
    requires forall j :: 0 <= j < |m.keys| ==> !Contains(name, m.keys[j])
    ensures Classify(m, name) == OtherClass
  {
  }

  /** The result is `"others"` or one of the stored categories. */
  lemma ClassifyRange(m: PatternTable, name: string)
    requires Valid(m)
    ensures Classify(m, name) == OtherClass || exists k :: k in m.values && m.values[k] == Classify(m, name)
  {
    var r := FirstMatchFrom(m.keys, name, 0);
    if r.Some? {
      assert m.keys[r.value] in m.values;
    }
  }

  /**
   * Conflict-freedom is what makes the order irrelevant for a pattern
   * itself: a name equal to a stored pattern gets that pattern's category.
   */
  lemma ClassifyPattern(m: PatternTable, i: nat)
    requires WellFormed(m) && i < |m.keys|
    ensures Classify(m, m.keys[i]) == m.values[m.keys[i]]
  {
    ContainsItself(m.keys[i]);
    forall j | 0 <= j < i
      ensures !Contains(m.keys[i], m.keys[j])
    {
      assert !Conflicting(m.keys[j], m.keys[i]);
    }
  }

  /** In a conflict-free table no stored pattern occurs in another stored pattern. */
  lemma ConflictFreeNoNesting(m: PatternTable, i: nat, j: nat)
    requires WellFormed(m) && i < |m.keys| && j < |m.keys| && i != j
    ensures !Contains(m.keys[i], m.keys[j])
  {
    if i < j {
      assert !Conflicting(m.keys[i], m.keys[j]);
    } else {
      assert !Conflicting(m.keys[j], m.keys[i]);
    }
  }

  // ---------------------------------------------------------------------
  // Seeding a statistics table with the categories

  /**
   * `for key in map: if map[key] not in table: table[map[key]] = zero`,
   * run over the keys `ks` starting from table `t`.
   */
  function Seed<V>(t: OrderedMap<string, V>, ks: seq<string>, vals: map<string, string>, zero: V): OrderedMap<string, V>
    requires AllMapped(ks, vals)
  {
    if ks == [] then t
    else
      var s := Seed(t, ks[..|ks| - 1], vals, zero);
      var c := vals[ks[|ks| - 1]];
      if c in s.values then s else Put(s, c, zero)
  }

  /** The seeding loop of the statistics routines. */
  method SeedCategories<V>(t: OrderedMap<string, V>, m: PatternTable, zero: V) returns (r: OrderedMap<string, V>)
    requires Valid(m)
    ensures r == Seed(t, m.keys, m.values, zero)
  {
    r := t;
    var i := 0;
    while i < |m.keys|
      invariant 0 <= i <= |m.keys|
      invariant r == Seed(t, m.keys[..i], m.values, zero)
    {
      SeedSnoc(t, m.keys, m.values, zero, i);
      var c := m.values[m.keys[i]];
      if c !in r.values {
        r := Put(r, c, zero);
      }
      i := i + 1;
    }
    assert m.keys[..i] == m.keys;
  }

  /** One more key visited by the seeding loop. */
  lemma SeedSnoc<V>(t: OrderedMap<string, V>, ks: seq<string>, vals: map<string, string>, zero: V, i: nat)
    requires AllMapped(ks, vals) && i < |ks|
    ensures Seed(t, ks[..i + 1], vals, zero) ==
      var s := Seed(t, ks[..i], vals, zero);
      if vals[ks[i]] in s.values then s else Put(s, vals[ks[i]], zero)
  {
    assert ks[..i + 1][..i] == ks[..i];
  }

  /** Seeding adds every category and nothing else and keeps the table well formed. */
  lemma {:induction false} SeedKeys<V>(t: OrderedMap<string, V>, ks: seq<string>, vals: map<string, string>, zero: V, c: string)
    requires AllMapped(ks, vals)
    ensures c in Seed(t, ks, vals, zero).values <==> c in t.values || exists i :: 0 <= i < |ks| && vals[ks[i]] == c
    decreases |ks|
  {
    if ks != [] {
      var p := ks[..|ks| - 1];
      SeedKeys(t, p, vals, zero, c);
      if exists i :: 0 <= i < |p| && vals[p[i]] == c {
        var i :| 0 <= i < |p| && vals[p[i]] == c;
        assert vals[ks[i]] == c;
      }
      if exists i :: 0 <= i < |ks| && vals[ks[i]] == c {
        var i :| 0 <= i < |ks| && vals[ks[i]] == c;
        if i < |p| {
          assert vals[p[i]] == c;
        }
      }
    }
  }

  /** Existing entries keep their values; new categories start at `zero`. */
  lemma {:induction false} SeedValues<V>(t: OrderedMap<string, V>, ks: seq<string>, vals: map<string, string>, zero: V, c: string)
    requires AllMapped(ks, vals) && c in Seed(t, ks, vals, zero).values
    ensures Seed(t, ks, vals, zero).values[c] == if c in t.values then t.values[c] else zero
    decreases |ks|
  {
    if ks != [] {
      var p := ks[..|ks| - 1];
      var s := Seed(t, p, vals, zero);
      if c in s.values {
        SeedValues(t, p, vals, zero, c);
      } else {
        SeedKeys(t, p, vals, zero, c);
      }
    }
  }

  lemma {:induction false} SeedValid<V>(t: OrderedMap<string, V>, ks: seq<string>, vals: map<string, string>, zero: V)
    requires AllMapped(ks, vals) && Valid(t)
    ensures Valid(Seed(t, ks, vals, zero))
    decreases |ks|
  {
    if ks != [] {
      var s := Seed(t, ks[..|ks| - 1], vals, zero);
      SeedValid(t, ks[..|ks| - 1], vals, zero);
      PutValid(s, vals[ks[|ks| - 1]], zero);
    }
  }

  /** Every possible classification result of a table is a key of the seeded table. */
  lemma ClassifySeeded<V>(t: OrderedMap<string, V>, m: PatternTable, zero: V, name: string)
    requires Valid(m) && OtherClass in t.values
    ensures Classify(m, name) in Seed(t, m.keys, m.values, zero).values
  {
    var r := FirstMatchFrom(m.keys, name, 0);
    SeedKeys(t, m.keys, m.values, zero, Classify(m, name));
    if r.Some? {
      assert m.values[m.keys[r.value]] == Classify(m, name);
    }
  }
}
