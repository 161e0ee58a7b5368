/** controllers/utils/lang.go: list difference, map helpers and int64 distance. */
module Lang {

  /** The elements of `a` that do not occur in `b`, in the order (and with the repetitions) of `a`. */
  function Missing(a: seq<string>, b: seq<string>): seq<string> {
    if a == [] then []
    else (if a[0] in b then [] else [a[0]]) + Missing(a[1..], b)
  }

  ghost predicate NoDuplicates(a: seq<string>) {
    forall i, j :: 0 <= i < j < |a| ==> a[i] != a[j]
  }

  ghost function Elements(a: seq<string>): set<string> {
    set x | x in a
  }

  lemma {:induction false} MissingAppend(a: seq<string>, x: string, b: seq<string>)
    ensures Missing(a + [x], b) == Missing(a, b) + (if x in b then [] else [x])
  {
    if a == [] {
      assert a + [x] == [x];
      assert Missing([x][1..], b) == [];
    } else {
      assert (a + [x])[1..] == a[1..] + [x];
      MissingAppend(a[1..], x, b);
    }
  }

  /** Marks every key of `b` in a map, then collects the keys of `a` that are not marked. */
  method Difference(a: seq<string>, b: seq<string>) returns (diff: seq<string>)
    ensures diff == Missing(a, b)
  {
    var bMap: map<string, ()> := map[];
    diff := [];
    for i := 0 to |b|
      invariant bMap.Keys == set k | k in b[..i]
    {
      assert b[..i + 1] == b[..i] + [b[i]];
      bMap := bMap[b[i] := ()];
    }
    assert b[..|b|] == b;
    for i := 0 to |a|
      invariant diff == Missing(a[..i], b)
    {
      assert a[..i + 1] == a[..i] + [a[i]];
      MissingAppend(a[..i], a[i], b);
      if a[i] !in bMap {
        diff := diff + [a[i]];
      }
    }
    assert a[..|a|] == a;
  }

  lemma {:induction false} ElementsCount(a: seq<string>)
    requires NoDuplicates(a)
    ensures |Elements(a)| == |a|
  {
    if a == [] {
      assert Elements(a) == {};
    } else {
      ElementsCount(a[1..]);
      assert a[0] !in a[1..];
      assert Elements(a) == {a[0]} + Elements(a[1..]);
    }
  }

  lemma {:induction false} MissingIn(a: seq<string>, b: seq<string>, x: string)
    ensures x in Missing(a, b) <==> x in a && x !in b
  {
    if a != [] {
      MissingIn(a[1..], b, x);
      assert a == [a[0]] + a[1..];
    }
  }

  lemma {:induction false} MissingKeepsDistinct(a: seq<string>, b: seq<string>)
    requires NoDuplicates(a)
    ensures NoDuplicates(Missing(a, b))
  {
    if a != [] {
      MissingKeepsDistinct(a[1..], b);
      MissingIn(a[1..], b, a[0]);
      var rest := Missing(a[1..], b);
      assert forall k :: 0 <= k < |rest| ==> rest[k] in rest;
      assert a[0] !in a[1..];
    }
  }

  /** For a duplicate-free list the loop returns exactly the set difference, each element once. */
  lemma DifferenceIsSetDifference(a: seq<string>, b: seq<string>)
    requires NoDuplicates(a)
    ensures NoDuplicates(Missing(a, b))
    ensures Elements(Missing(a, b)) == Elements(a) - Elements(b)
    ensures |Missing(a, b)| == |Elements(a) - Elements(b)|
  {
    MissingKeepsDistinct(a, b);
    forall x ensures x in Missing(a, b) <==> x in a && x !in b { MissingIn(a, b, x); }
    ElementsCount(Missing(a, b));
  }

  /** `value` without the keys in `ignored`. */
  function Without(value: map<string, string>, ignored: seq<string>): map<string, string> {
    map k | k in value && k !in ignored :: value[k]
  }

  method Omit(value: map<string, string>, ignoredKeys: seq<string>) returns (copy: map<string, string>)
    ensures copy == Without(value, ignoredKeys)
  {
    copy := map[];
    var todo := value.Keys;
    while todo != {}
      invariant todo <= value.Keys
      invariant copy == map k | k in value && k !in todo && k !in ignoredKeys :: value[k]
    {
      var k :| k in todo;
      var ignored := false;
      for i := 0 to |ignoredKeys|
        invariant ignored <==> k in ignoredKeys[..i]
      {
        if k == ignoredKeys[i] {
          ignored := true;
        }
      }
      if !ignored {
        copy := copy[k := value[k]];
      }
      todo := todo - {k};
    }
  }

  /** Left-to-right union in which later maps win. */
  function Merged(maps: seq<map<string, string>>): map<string, string> {
    if maps == [] then map[] else Merged(maps[..|maps| - 1]) + maps[|maps| - 1]
  }

  method Merge(maps: seq<map<string, string>>) returns (result: map<string, string>)
    ensures result == Merged(maps)
  {
    result := map[];
    for i := 0 to |maps|
      invariant result == Merged(maps[..i])
    {
      ghost var before := result;
      var todo := maps[i].Keys;
      while todo != {}
        invariant todo <= maps[i].Keys
        invariant result == before + (map k | k in maps[i] && k !in todo :: maps[i][k])
      {
        var k :| k in todo;
        result := result[k := maps[i][k]];
        todo := todo - {k};
      }
      assert (map k | k in maps[i] && k !in todo :: maps[i][k]) == maps[i];
      assert maps[..i + 1][..i] == maps[..i];
    }
    assert maps[..|maps|] == maps;
  }

  /** A key's merged value comes from the last map that defines it. */
  lemma {:induction false} LastMapWins(maps: seq<map<string, string>>, key: string, i: nat)
    requires i < |maps| && key in maps[i]
    requires forall j :: i < j < |maps| ==> key !in maps[j]
    ensures key in Merged(maps) && Merged(maps)[key] == maps[i][key]
  {
    if i < |maps| - 1 {
      LastMapWins(maps[..|maps| - 1], key, i);
    }
  }

  lemma {:induction false} MergedKeys(maps: seq<map<string, string>>, key: string)
    requires key in Merged(maps)
    ensures exists i :: 0 <= i < |maps| && key in maps[i]
  {
    var last := |maps| - 1;
    if key in maps[last] {
    } else {
      MergedKeys(maps[..last], key);
      var i :| 0 <= i < |maps[..last]| && key in maps[..last][i];
      assert key in maps[i];
    }
  }

  const TWO_63 := 0x8000_0000_0000_0000
  const TWO_64 := 0x1_0000_0000_0000_0000

  /** Two's complement wrap-around to 64 bits. */
  function Wrap64(x: int): int {
    (x + TWO_63) % TWO_64 - TWO_63
  }

  function Abs64(x: int): int {
    if x < 0 then Wrap64(-x) else x
  }

  function Abs(x: int): nat {
    if x < 0 then -x else x
  }

  /** `utils.Abs(a - b)` on int64 operands. */
  function Distance64(a: int, b: int): int {
    Abs64(Wrap64(a - b))
  }

  ghost predicate IsInt64(x: int) {
    -TWO_63 <= x < TWO_63
  }

  /** The machine distance is the mathematical one exactly when the latter fits an int64. */
  lemma DistanceIsExact(a: int, b: int)
    requires IsInt64(a) && IsInt64(b)
    ensures Distance64(a, b) == Abs(a - b) <==> Abs(a - b) < TWO_63
    ensures 0 <= a && 0 <= b ==> Distance64(a, b) == Abs(a - b)
  {
    var d := a - b;
    assert -TWO_64 < d < TWO_64;
    if -TWO_63 <= d < TWO_63 {
      assert Wrap64(d) == d;
    } else if d >= TWO_63 {
      assert Wrap64(d) == d - TWO_64;
    } else {
      assert Wrap64(d) == d + TWO_64;
    }
  }
}
