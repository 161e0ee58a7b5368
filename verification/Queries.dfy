/** controllers/database/database.go: the two queries a validation compares, as SQL text. */
module Queries {
  import opened Wrappers
  import opened Pipeline

  function Property(filter: Filter, name: string): string {
    if name in filter then filter[name] else ""
  }

  function Join(parts: seq<string>, separator: string): string {
    if parts == [] then ""
    else if |parts| == 1 then parts[0]
    else parts[0] + separator + Join(parts[1..], separator)
  }

  /** The join properties of the filters, each once, in order of first occurrence. */
  function DistinctJoins(filters: seq<Filter>): seq<string> {
    if filters == [] then []
    else
      var before := DistinctJoins(filters[..|filters| - 1]);
      var join := Property(filters[|filters| - 1], "join");
      if join == "" || join in before then before else before + [join]
  }

  method GetJoinClause(additionalFilters: seq<Filter>) returns (clause: string)
    ensures clause == Join(DistinctJoins(additionalFilters), " ")
  {
    var joins: seq<string> := [];
    var seen: map<string, bool> := map[];
    for i := 0 to |additionalFilters|
      invariant joins == DistinctJoins(additionalFilters[..i])
      invariant forall j :: j in seen <==> j in joins
      invariant forall j :: j in seen ==> seen[j]
    {
      assert additionalFilters[..i + 1][..i] == additionalFilters[..i];
      var filter := additionalFilters[i];
      if "join" in filter && filter["join"] != "" {
        var join := filter["join"];
        if !(join in seen && seen[join]) {
          joins := joins + [join];
          seen := seen[join := true];
        }
      }
    }
    assert additionalFilters[..|additionalFilters|] == additionalFilters;
    clause := Join(joins, " ");
  }

  predicate HasJoinClause(filters: seq<Filter>) {
    exists i :: 0 <= i < |filters| && Property(filters[i], "join") != ""
  }

  lemma {:induction false} JoinsAreTheFiltersJoins(filters: seq<Filter>)
    ensures forall i, j :: 0 <= i < j < |DistinctJoins(filters)| ==> DistinctJoins(filters)[i] != DistinctJoins(filters)[j]
    ensures forall s :: s in DistinctJoins(filters) <==> s != "" && exists i :: 0 <= i < |filters| && Property(filters[i], "join") == s
  {
    if filters != [] {
      var n := |filters| - 1;
      var init := filters[..n];
      JoinsAreTheFiltersJoins(init);
      forall s ensures s in DistinctJoins(filters) <==> s != "" && exists i :: 0 <= i < |filters| && Property(filters[i], "join") == s {
        if exists i :: 0 <= i < n && Property(init[i], "join") == s {
          var i :| 0 <= i < n && Property(init[i], "join") == s;
          assert filters[i] == init[i];
        }
        if i :| 0 <= i < |filters| && Property(filters[i], "join") == s {
          assert i < n ==> init[i] == filters[i];
        }
      }
    }
  }

  /** Adding filters only appends joins, so the order is that of first occurrence. */
  lemma {:induction false} EarlierFiltersJoinFirst(filters: seq<Filter>, k: nat)
    requires k <= |filters|
    ensures DistinctJoins(filters[..k]) <= DistinctJoins(filters)
  {
    if k < |filters| {
      var init := filters[..|filters| - 1];
      EarlierFiltersJoinFirst(init, k);
      assert init[..k] == filters[..k];
    } else {
      assert filters[..k] == filters;
    }
  }

  lemma JoinIsEmptyIff(parts: seq<string>, separator: string)
    requires forall p :: p in parts ==> p != ""
    ensures Join(parts, separator) == "" <==> parts == []
  {
    if parts != [] { assert parts[0] in parts; }
  }

  lemma HasJoinClauseIff(filters: seq<Filter>)
    ensures HasJoinClause(filters) <==> Join(DistinctJoins(filters), " ") != ""
  {
    JoinsAreTheFiltersJoins(filters);
    var joins := DistinctJoins(filters);
    JoinIsEmptyIff(joins, " ");
    if joins != [] { assert joins[0] in joins; }
    if HasJoinClause(filters) {
      var i :| 0 <= i < |filters| && Property(filters[i], "join") != "";
      assert Property(filters[i], "join") in joins;
    }
  }

  const NIL_UUID := "00000000-0000-0000-0000-000000000000"

  const INSIGHTS_CONDITION := "insights_id != '" + NIL_UUID + "'::uuid"

  /** The conditions a host has to meet: every filter's where property, and the insights condition last. */
  function Conditions(insightsOnly: bool, filters: seq<Filter>): seq<string> {
    seq(|filters|, i requires 0 <= i < |filters| => Property(filters[i], "where"))
      + (if insightsOnly then [INSIGHTS_CONDITION] else [])
  }

  function Parenthesised(conditions: seq<string>): seq<string> {
    seq(|conditions|, i requires 0 <= i < |conditions| => "(" + conditions[i] + ")")
  }

  function WhereText(conditions: seq<string>): string {
    if conditions == [] then "" else "WHERE " + Join(Parenthesised(conditions), " AND ")
  }

  lemma JoinedConditionsNonEmpty(conditions: seq<string>)
    ensures Join(Parenthesised(conditions), " AND ") == "" <==> conditions == []
  {
    JoinIsEmptyIff(Parenthesised(conditions), " AND ");
  }

  method GetWhereClause(insightsOnly: bool, additionalFilters: seq<Filter>) returns (clause: string)
    ensures clause == WhereText(Conditions(insightsOnly, additionalFilters))
  {
    var length := |additionalFilters|;
    if insightsOnly {
      length := length + 1;
    }
    var where := new string[length](_ => "");
    for i := 0 to |additionalFilters|
      invariant forall k :: 0 <= k < i ==> where[k] == "(" + Property(additionalFilters[k], "where") + ")"
    {
      where[i] := "(" + Property(additionalFilters[i], "where") + ")";
    }
    if insightsOnly {
      where[length - 1] := "(" + INSIGHTS_CONDITION + ")";
    }
    ghost var conditions := Conditions(insightsOnly, additionalFilters);
    assert where[..] == Parenthesised(conditions);
    JoinedConditionsNonEmpty(conditions);
    var query := Join(where[..], " AND ");
    clause := if |query| > 0 then "WHERE " + query else "";
  }

  // ---- Reading a where clause back.

  /** Parentheses close in order and none stays open. */
  predicate Balanced(text: string, depth: nat) {
    if text == "" then depth == 0
    else if text[0] == '(' then Balanced(text[1..], depth + 1)
    else if text[0] == ')' then depth > 0 && Balanced(text[1..], depth - 1)
    else Balanced(text[1..], depth)
  }

  /** Where the innermost `depth` open parentheses have all been closed. */
  function Closing(text: string, depth: nat): Option<nat> {
    if text == "" then None
    else if text[0] == ')' && depth <= 1 then Some(0)
    else
      var depth' := if text[0] == '(' then depth + 1 else if text[0] == ')' then depth - 1 else depth;
      var rest :- Closing(text[1..], depth');
      Some(rest + 1)
  }

  lemma ClosingInText(text: string, depth: nat)
    ensures Closing(text, depth).Some? ==> Closing(text, depth).value < |text|
  {
  }

  /** The conditions of a text of the form (c1) AND (c2) AND ... */
  function Conjuncts(text: string): Option<seq<string>>
    decreases |text|
  {
    if text == "" || text[0] != '(' then None
    else
      ClosingInText(text[1..], 1);
      var close :- Closing(text[1..], 1);
      var condition, rest := text[1..close + 1], text[close + 2..];
      if rest == "" then Some([condition])
      else if |rest| >= 5 && rest[..5] == " AND " then
        var others :- Conjuncts(rest[5..]);
        Some([condition] + others)
      else None
  }

  function WhereConditions(clause: string): Option<seq<string>> {
    if clause == "" then Some([])
    else if |clause| >= 6 && clause[..6] == "WHERE " then Conjuncts(clause[6..])
    else None
  }

  lemma {:induction false} ClosesAfter(condition: string, depth: nat, rest: string)
    requires Balanced(condition, depth)
    ensures Closing(condition + ")" + rest, depth + 1) == Some(|condition|)
  {
    var text := condition + ")" + rest;
    if condition == "" {
      assert text[0] == ')';
    } else {
      assert text[1..] == condition[1..] + ")" + rest;
      if condition[0] == '(' {
        ClosesAfter(condition[1..], depth + 1, rest);
      } else if condition[0] == ')' {
        ClosesAfter(condition[1..], depth - 1, rest);
      } else {
        ClosesAfter(condition[1..], depth, rest);
      }
    }
  }

  lemma LastConjunct(condition: string)
    requires Balanced(condition, 0)
    ensures Conjuncts("(" + condition + ")") == Some([condition])
  {
    var text := "(" + condition + ")";
    assert text[1..] == condition + ")" + "";
    ClosesAfter(condition, 0, "");
    assert text + "" == text;
    Sliced(condition, "");
  }

  lemma NextConjunct(condition: string, tail: string)
    requires Balanced(condition, 0)
    ensures Conjuncts("(" + condition + ")" + " AND " + tail)
         == if Conjuncts(tail).Some? then Some([condition] + Conjuncts(tail).value) else None
  {
    var rest := " AND " + tail;
    var text := "(" + condition + ")" + rest;
    assert text == "(" + condition + ")" + " AND " + tail;
    assert text[1..] == condition + ")" + rest;
    ClosesAfter(condition, 0, rest);
    Sliced(condition, rest);
    assert rest[..5] == " AND " && rest[5..] == tail;
    ConjunctsOf(text, condition, rest);
  }

  /** One step of reading. */
  lemma ConjunctsOf(text: string, condition: string, rest: string)
    requires text != "" && text[0] == '(' && Closing(text[1..], 1) == Some(|condition|)
    requires |text| == |condition| + 2 + |rest| && text[1..|condition| + 1] == condition && text[|condition| + 2..] == rest
    requires |rest| >= 5 && rest[..5] == " AND "
    ensures Conjuncts(text)
         == if Conjuncts(rest[5..]).Some? then Some([condition] + Conjuncts(rest[5..]).value) else None
  {
  }

  lemma Sliced(condition: string, rest: string)
    ensures var text := "(" + condition + ")" + rest;
            text[1..|condition| + 1] == condition && text[|condition| + 2..] == rest
  {
  }

  lemma {:induction false} ConjunctsRoundTrip(conditions: seq<string>)
    requires conditions != []
    requires forall c :: c in conditions ==> Balanced(c, 0)
    ensures Conjuncts(Join(Parenthesised(conditions), " AND ")) == Some(conditions)
  {
    JoinedText(conditions);
    assert conditions[0] in conditions;
    if |conditions| == 1 {
      LastConjunct(conditions[0]);
      assert conditions == [conditions[0]];
    } else {
      ConjunctsRoundTrip(conditions[1..]);
      NextConjunct(conditions[0], Join(Parenthesised(conditions[1..]), " AND "));
      assert conditions == [conditions[0]] + conditions[1..];
    }
  }

  lemma JoinedText(conditions: seq<string>)
    requires conditions != []
    ensures Join(Parenthesised(conditions), " AND ")
         == if |conditions| == 1 then "(" + conditions[0] + ")"
            else "(" + conditions[0] + ")" + " AND " + Join(Parenthesised(conditions[1..]), " AND ")
  {
    assert Parenthesised(conditions)[1..] == Parenthesised(conditions[1..]);
  }

  lemma {:induction false} NoParenthesesIsBalanced(text: string)
    requires '(' !in text && ')' !in text
    ensures Balanced(text, 0)
  {
    if text != "" {
      NoParenthesesIsBalanced(text[1..]);
    }
  }

  lemma InsightsConditionIsBalanced()
    ensures Balanced(INSIGHTS_CONDITION, 0)
  {
    assert forall c :: c in "insights_id != '" ==> c != '(' && c != ')';
    assert forall c :: c in NIL_UUID ==> c in {'0', '-'};
    assert forall c :: c in "'::uuid" ==> c != '(' && c != ')';
    NoParenthesesIsBalanced(INSIGHTS_CONDITION);
  }

  predicate WellFormedFilters(filters: seq<Filter>) {
    forall i :: 0 <= i < |filters| ==> Balanced(Property(filters[i], "where"), 0)
  }

  /** The clause says exactly: all the filters' conditions, and the insights condition when asked for. */
  lemma WhereClauseIsTheConjunction(insightsOnly: bool, filters: seq<Filter>)
    requires WellFormedFilters(filters)
    ensures WhereConditions(WhereText(Conditions(insightsOnly, filters))) == Some(Conditions(insightsOnly, filters))
  {
    var conditions := Conditions(insightsOnly, filters);
    InsightsConditionIsBalanced();
    if conditions != [] {
      ConjunctsRoundTrip(conditions);
      var clause := WhereText(conditions);
      assert clause[..6] == "WHERE " && clause[6..] == Join(Parenthesised(conditions), " AND ");
    }
  }

  // ---- The two queries.

  function FromText(table: string, insightsOnly: bool, filters: seq<Filter>): string {
    var where := WhereText(Conditions(insightsOnly, filters));
    if HasJoinClause(filters) then table + " h " + Join(DistinctJoins(filters), " ") + " " + where
    else table + " " + where
  }

  function HostCountQuery(table: string, insightsOnly: bool, filters: seq<Filter>): string {
    var where := WhereText(Conditions(insightsOnly, filters));
    if HasJoinClause(filters) then
      "SELECT count(*) FROM " + table + " h " + Join(DistinctJoins(filters), " ") + " " + where
    else "SELECT count(*) FROM " + table + " " + where
  }

  function HostIdQuery(table: string, insightsOnly: bool, filters: seq<Filter>): string {
    var where := WhereText(Conditions(insightsOnly, filters));
    if HasJoinClause(filters) then
      "SELECT h.id FROM " + table + " h " + Join(DistinctJoins(filters), " ") + " " + where + " ORDER BY h.id"
    else "SELECT id FROM " + table + " " + where + " ORDER BY id"
  }

  /** A database snapshot: the ids of the rows that a FROM text selects, and the ordering of ids. */
  datatype Snapshot = Snapshot(rows: string -> seq<string>, sorted: seq<string> -> seq<string>)
  {
    ghost predicate Sorts() {
      forall ids :: multiset(sorted(ids)) == multiset(ids)
    }
  }

  function Between(text: string, prefix: string, suffix: string): Option<string> {
    if |text| >= |prefix| + |suffix| && text[..|prefix|] == prefix && text[|text| - |suffix|..] == suffix
    then Some(text[|prefix|..|text| - |suffix|])
    else None
  }

  /** The answer of a snapshot to a count query; None for a text of another form. */
  function RunCount(db: Snapshot, query: string): Option<nat> {
    var from_ :- Between(query, "SELECT count(*) FROM ", "");
    Some(|db.rows(from_)|)
  }

  /** The answer of a snapshot to an id query, with or without the alias. */
  function RunIds(db: Snapshot, query: string): Option<seq<string>> {
    var aliased := Between(query, "SELECT h.id FROM ", " ORDER BY h.id");
    var from_ :- if aliased.Some? then aliased else Between(query, "SELECT id FROM ", " ORDER BY id");
    Some(db.sorted(db.rows(from_)))
  }

  lemma Unwrap(prefix: string, middle: string, suffix: string)
    ensures Between(prefix + middle + suffix, prefix, suffix) == Some(middle)
  {
    var text := prefix + middle + suffix;
    assert text[..|prefix|] == prefix;
    assert text[|text| - |suffix|..] == suffix;
    assert text[|prefix|..|text| - |suffix|] == middle;
  }

  lemma AliasedIds(db: Snapshot, from_: string)
    ensures RunIds(db, "SELECT h.id FROM " + from_ + " ORDER BY h.id") == Some(db.sorted(db.rows(from_)))
  {
    Unwrap("SELECT h.id FROM ", from_, " ORDER BY h.id");
  }

  lemma PlainIds(db: Snapshot, from_: string)
    ensures RunIds(db, "SELECT id FROM " + from_ + " ORDER BY id") == Some(db.sorted(db.rows(from_)))
  {
    var query := "SELECT id FROM " + from_ + " ORDER BY id";
    Unwrap("SELECT id FROM ", from_, " ORDER BY id");
    assert query[7] == 'i';
    NotAliased(query);
  }

  lemma NotAliased(query: string)
    requires |query| > 7 && query[7] == 'i'
    ensures Between(query, "SELECT h.id FROM ", " ORDER BY h.id") == None
  {
    if |query| >= |"SELECT h.id FROM "| {
      assert query[..|"SELECT h.id FROM "|][7] == 'i';
      assert "SELECT h.id FROM "[7] == 'h';
    }
  }

  lemma Regroup(a: string, b: string, c: string, d: string, e: string, f: string, g: string)
    ensures a + b + c + d + e + f + g == a + (b + c + d + e + f) + g
    ensures a + b + c + d + g == a + (b + c + d) + g
  {
  }

  lemma IdQueryReads(db: Snapshot, table: string, insightsOnly: bool, filters: seq<Filter>)
    ensures RunIds(db, HostIdQuery(table, insightsOnly, filters)) == Some(db.sorted(db.rows(FromText(table, insightsOnly, filters))))
  {
    var from_ := FromText(table, insightsOnly, filters);
    var joins, where := Join(DistinctJoins(filters), " "), WhereText(Conditions(insightsOnly, filters));
    if HasJoinClause(filters) {
      AliasedIds(db, from_);
      Regroup("SELECT h.id FROM ", table, " h ", joins, " ", where, " ORDER BY h.id");
    } else {
      PlainIds(db, from_);
      Regroup("SELECT id FROM ", table, " ", where, "", "", " ORDER BY id");
    }
  }

  lemma CountQueryReads(db: Snapshot, table: string, insightsOnly: bool, filters: seq<Filter>)
    ensures RunCount(db, HostCountQuery(table, insightsOnly, filters)) == Some(|db.rows(FromText(table, insightsOnly, filters))|)
  {
    var from_ := FromText(table, insightsOnly, filters);
    var joins, where := Join(DistinctJoins(filters), " "), WhereText(Conditions(insightsOnly, filters));
    Unwrap("SELECT count(*) FROM ", from_, "");
    Regroup("SELECT count(*) FROM ", table, " h ", joins, " ", where, "");
    Regroup("SELECT count(*) FROM ", table, " ", where, "", "", "");
    assert HostCountQuery(table, insightsOnly, filters) + "" == HostCountQuery(table, insightsOnly, filters);
  }

  /** On one snapshot the count is the number of ids, whatever the filters and joins. */
  lemma CountIsNumberOfIds(db: Snapshot, table: string, insightsOnly: bool, filters: seq<Filter>)
    requires db.Sorts()
    ensures var count := RunCount(db, HostCountQuery(table, insightsOnly, filters));
            var ids := RunIds(db, HostIdQuery(table, insightsOnly, filters));
            count.Some? && ids.Some? && count.value == |ids.value|
  {
    CountQueryReads(db, table, insightsOnly, filters);
    IdQueryReads(db, table, insightsOnly, filters);
    var rows := db.rows(FromText(table, insightsOnly, filters));
    assert |multiset(db.sorted(rows))| == |multiset(rows)|;
  }

  // ---- The texts of the queries.

  /** Separators stand between the parts and nowhere else. */
  lemma {:induction false} JoinSpelledOut(a: seq<string>, b: seq<string>, separator: string)
    requires a != [] && b != []
    ensures Join(a + b, separator) == Join(a, separator) + separator + Join(b, separator)
    ensures forall part :: Join([part], separator) == part
  {
    if |a| == 1 {
      assert (a + b)[1..] == b;
    } else {
      assert (a + b)[1..] == a[1..] + b;
      JoinSpelledOut(a[1..], b, separator);
    }
  }

  /** The clause asks for every filter's condition, in order, and for an insights id exactly if only such hosts count. */
  lemma WhereClauseSpelledOut(insightsOnly: bool, filters: seq<Filter>)
    requires WellFormedFilters(filters)
    ensures var read := WhereConditions(WhereText(Conditions(insightsOnly, filters)));
            && read.Some? && |read.value| == |filters| + (if insightsOnly then 1 else 0)
            && (forall i :: 0 <= i < |filters| ==>
                  read.value[i] == if "where" in filters[i] then filters[i]["where"] else "")
            && (insightsOnly ==>
                  read.value[|filters|] == "insights_id != '" + "00000000-0000-0000-0000-000000000000" + "'::uuid")
  {
    WhereClauseIsTheConjunction(insightsOnly, filters);
  }

  /** Both queries name the table, the joins, if there are any, and the where clause, in this order. */
  lemma QueriesSpelledOut(table: string, insightsOnly: bool, filters: seq<Filter>)
    ensures var where, joins := WhereText(Conditions(insightsOnly, filters)), DistinctJoins(filters);
            var from_ := if joins == [] then table + " " + where else table + " h " + Join(joins, " ") + " " + where;
            && HostCountQuery(table, insightsOnly, filters) == "SELECT count(*) FROM " + from_
            && HostIdQuery(table, insightsOnly, filters)
               == if joins == [] then "SELECT id FROM " + from_ + " ORDER BY id" else "SELECT h.id FROM " + from_ + " ORDER BY h.id"
  {
    HasJoinClauseIffSomeJoin(filters);
    var where, joins := WhereText(Conditions(insightsOnly, filters)), Join(DistinctJoins(filters), " ");
    Regroup("SELECT count(*) FROM ", table, " h ", joins, " ", where, "");
    Regroup("SELECT count(*) FROM ", table, " ", where, "", "", "");
    Regroup("SELECT h.id FROM ", table, " h ", joins, " ", where, " ORDER BY h.id");
    Regroup("SELECT id FROM ", table, " ", where, "", "", " ORDER BY id");
    Unsuffixed("SELECT count(*) FROM " + table + " h " + joins + " " + where);
    Unsuffixed("SELECT count(*) FROM " + (table + " h " + joins + " " + where));
    Unsuffixed("SELECT count(*) FROM " + table + " " + where);
    Unsuffixed("SELECT count(*) FROM " + (table + " " + where));
  }

  lemma Unsuffixed(text: string)
    ensures text + "" == text
  {
  }

  lemma HasJoinClauseIffSomeJoin(filters: seq<Filter>)
    ensures HasJoinClause(filters) <==> DistinctJoins(filters) != []
  {
    HasJoinClauseIff(filters);
    JoinsAreTheFiltersJoins(filters);
    JoinIsEmptyIff(DistinctJoins(filters), " ");
  }
}
