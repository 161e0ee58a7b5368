/** updateViewIfHealthier: which of two invalid tables the view shows. */
module LesserEvil {
  import opened Wrappers
  import opened Lang

  /** The table shown after giving up on `candidate`, given the inventory count and the tables' counts. */
  function Healthier(active: Option<string>, candidate: string, inventory: int, count: string -> int): string {
    if active.None? || active.value == candidate then candidate
    else if Distance64(inventory, count(candidate)) > Distance64(inventory, count(active.value)) then active.value
    else candidate
  }

  /** The table shown after giving up on each of `candidates` in turn, with the counts frozen. */
  function HealthierOf(active: Option<string>, candidates: seq<string>, inventory: int, count: string -> int): Option<string> {
    if candidates == [] then active
    else
      var n := |candidates| - 1;
      Some(Healthier(HealthierOf(active, candidates[..n], inventory, count), candidates[n], inventory, count))
  }

  /** Host counts as the databases report them: non-negative int64 values. */
  ghost predicate Counts(inventory: int, count: string -> int) {
    0 <= inventory < TWO_63 && forall t :: 0 <= count(t) < TWO_63
  }

  ghost function Gap(inventory: int, count: string -> int, table: string): nat {
    Abs(inventory - count(table))
  }

  /** `tables[i]` is the last of `tables` whose count is closest to the inventory's. */
  ghost predicate LastClosest(tables: seq<string>, i: nat, inventory: int, count: string -> int) {
    && i < |tables|
    && (forall j :: 0 <= j < |tables| ==> Gap(inventory, count, tables[i]) <= Gap(inventory, count, tables[j]))
    && (forall j :: i < j < |tables| ==> Gap(inventory, count, tables[i]) < Gap(inventory, count, tables[j]))
  }

  lemma HealthierHasSmallerGap(active: string, candidate: string, inventory: int, count: string -> int)
    requires Counts(inventory, count)
    ensures Healthier(Some(active), candidate, inventory, count)
         == if Gap(inventory, count, candidate) <= Gap(inventory, count, active) then candidate else active
  {
    DistanceIsExact(inventory, count(candidate));
    DistanceIsExact(inventory, count(active));
  }

  lemma LastClosestExtends(tables: seq<string>, i: nat, candidate: string, inventory: int, count: string -> int)
    requires LastClosest(tables, i, inventory, count)
    ensures LastClosest(tables + [candidate],
                        if Gap(inventory, count, candidate) <= Gap(inventory, count, tables[i]) then |tables| else i,
                        inventory, count)
  {
  }

  /** The table that was shown at first, if there was one, and the candidates after it. */
  function Contenders(first: Option<string>, candidates: seq<string>): seq<string> {
    (if first.Some? then [first.value] else []) + candidates
  }

  /** Over any chain of give-ups the active table is the last one with the smallest gap. */
  lemma {:induction false} ActiveTableIsLastClosest(first: Option<string>, candidates: seq<string>, inventory: int, count: string -> int)
    returns (i: nat)
    requires Counts(inventory, count) && Contenders(first, candidates) != []
    ensures LastClosest(Contenders(first, candidates), i, inventory, count)
    ensures HealthierOf(first, candidates, inventory, count) == Some(Contenders(first, candidates)[i])
  {
    if candidates == [] {
      i := 0;
    } else {
      var n := |candidates| - 1;
      var tables := Contenders(first, candidates[..n]);
      assert Contenders(first, candidates) == tables + [candidates[n]];
      if tables == [] {
        i := 0;
      } else {
        var k := ActiveTableIsLastClosest(first, candidates[..n], inventory, count);
        LastClosestExtends(tables, k, candidates[n], inventory, count);
        HealthierHasSmallerGap(tables[k], candidates[n], inventory, count);
        i := if Gap(inventory, count, candidates[n]) <= Gap(inventory, count, tables[k]) then |tables| else k;
      }
    }
  }

  /** A failed refresh never takes applications further away from the inventory. */
  lemma GapNeverGrows(active: string, candidate: string, inventory: int, count: string -> int)
    requires Counts(inventory, count)
    ensures Gap(inventory, count, Healthier(Some(active), candidate, inventory, count)) <= Gap(inventory, count, active)
  {
    HealthierHasSmallerGap(active, candidate, inventory, count);
  }
}
