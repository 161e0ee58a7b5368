/** api/v1alpha1/state.go: table and connector names derived from a pipeline version. */
module Names {

  const TABLE_PREFIX := "hosts_v"

  function TableName(version: string): string {
    TABLE_PREFIX + version
  }

  /** strings.Replace(s, old, new, 1) for one-character strings. */
  function ReplaceFirst(s: string, old_: char, new_: char): string {
    if s == "" then ""
    else if s[0] == old_ then [new_] + s[1..]
    else [s[0]] + ReplaceFirst(s[1..], old_, new_)
  }

  function ConnectorName(version: string, appName: string): string {
    "cyndi-" + appName + "-" + ReplaceFirst(version, '_', '-')
  }

  /** Slices the table prefix off; Go panics when the name is shorter than the prefix. */
  function TableNameToConnectorName(tableName: string, appName: string): string
    requires |tableName| >= |TABLE_PREFIX|
  {
    ConnectorName(tableName[|TABLE_PREFIX|..], appName)
  }

  /** LIKE 'hosts_%': the underscore stands for any one character. */
  predicate Listed(table: string) {
    |table| >= 6 && table[..5] == "hosts"
  }

  function Decimal(n: nat): string
    decreases n
  {
    var digit := ['0', '1', '2', '3', '4', '5', '6', '7', '8', '9'][n % 10];
    if n < 10 then [digit] else Decimal(n / 10) + [digit]
  }

  function FormatInt(x: int): string {
    if x < 0 then "-" + Decimal(-x) else Decimal(x)
  }

  function FormatBool(b: bool): string {
    if b then "true" else "false"
  }

  /** The version given to a pipeline at `now` nanoseconds. */
  function VersionAt(now: nat): string {
    "1_" + Decimal(now)
  }

  /** The only shape of version the controller generates: 1_digits. */
  predicate IsVersion(v: string) {
    |v| >= 3 && v[0] == '1' && v[1] == '_' && forall i :: 2 <= i < |v| ==> '0' <= v[i] <= '9'
  }

  lemma {:induction false} DecimalDigits(n: nat)
    ensures |Decimal(n)| >= 1
    ensures |Decimal(n)| == 1 <==> n < 10
    ensures forall i :: 0 <= i < |Decimal(n)| ==> '0' <= Decimal(n)[i] <= '9'
    decreases n
  {
    if n >= 10 {
      DecimalDigits(n / 10);
    }
  }

  lemma {:induction false} DecimalInjective(a: nat, b: nat)
    requires Decimal(a) == Decimal(b)
    ensures a == b
    decreases a + b
  {
    var da, db := Decimal(a), Decimal(b);
    assert da[|da| - 1] == db[|db| - 1];
    assert a % 10 == b % 10;
    DecimalDigits(a);
    DecimalDigits(b);
    if a >= 10 {
      assert da[..|da| - 1] == Decimal(a / 10);
      assert db[..|db| - 1] == Decimal(b / 10);
      DecimalInjective(a / 10, b / 10);
    }
  }

  /** Distinct timestamps give distinct versions, all of the shape 1_digits. */
  lemma VersionsAreFresh(now: nat, earlier: nat)
    ensures IsVersion(VersionAt(now))
    ensures now != earlier ==> VersionAt(now) != VersionAt(earlier)
  {
    DecimalDigits(now);
    if VersionAt(now) == VersionAt(earlier) {
      assert VersionAt(now)[2..] == Decimal(now) && VersionAt(earlier)[2..] == Decimal(earlier);
      DecimalInjective(now, earlier);
    }
  }

  lemma ReplaceInVersion(v: string)
    requires IsVersion(v)
    ensures ReplaceFirst(v, '_', '-') == "1-" + v[2..]
  {
    assert v[1..][0] == '_';
    assert v[1..][1..] == v[2..];
    assert ReplaceFirst(v[1..], '_', '-') == ['-'] + v[2..];
  }

  /** Connector names determine the version (for one application), table names always do. */
  lemma NamesAreInjective(v: string, w: string, appName: string)
    ensures TableName(v) == TableName(w) ==> v == w
    ensures IsVersion(v) && IsVersion(w) && ConnectorName(v, appName) == ConnectorName(w, appName) ==> v == w
  {
    assert TableName(v)[|TABLE_PREFIX|..] == v && TableName(w)[|TABLE_PREFIX|..] == w;
    if IsVersion(v) && IsVersion(w) && ConnectorName(v, appName) == ConnectorName(w, appName) {
      ReplaceInVersion(v);
      ReplaceInVersion(w);
      var n := |"cyndi-" + appName + "-1-"|;
      assert ConnectorName(v, appName)[n..] == v[2..];
      assert ConnectorName(w, appName)[n..] == w[2..];
      assert v == "1_" + v[2..] && w == "1_" + w[2..];
    }
  }

  /** The two routes from a version to its connector name agree, and every table the controller creates is listed. */
  lemma TableNameRoundTrip(v: string, appName: string)
    ensures |TableName(v)| >= |TABLE_PREFIX| && TableName(v)[|TABLE_PREFIX|..] == v
    ensures TableNameToConnectorName(TableName(v), appName) == ConnectorName(v, appName)
    ensures Listed(TableName(v))
  {
    assert TableName(v)[|TABLE_PREFIX|..] == v;
    assert TableName(v)[..5] == "hosts";
  }

  // ---- The texts themselves.

  lemma {:induction false} ReplacesTheFirst(before: string, old_: char, after: string, new_: char)
    requires old_ !in before
    ensures ReplaceFirst(before + [old_] + after, old_, new_) == before + [new_] + after
    ensures ReplaceFirst(before, old_, new_) == before
  {
    var s := before + [old_] + after;
    if before == "" {
      assert s[1..] == after && before + [new_] + after == [new_] + after;
    } else {
      assert s[1..] == before[1..] + [old_] + after;
      ReplacesTheFirst(before[1..], old_, after, new_);
    }
  }

  /** A version's table is hosts_v1_..., its connector cyndi-app-1-...; the rest of the version is kept as it is. */
  lemma NamesSpelledOut(v: string, appName: string)
    ensures TableName(v) == "hosts_v" + v
    ensures IsVersion(v) ==> ConnectorName(v, appName) == "cyndi-" + appName + "-1-" + v[2..]
  {
    if IsVersion(v) {
      ReplaceInVersion(v);
      var name := "cyndi-" + appName + "-";
      assert name + ("1-" + v[2..]) == "cyndi-" + appName + "-1-" + v[2..];
    }
  }

  /** What a decimal text stands for. */
  function Numeral(text: string): int {
    if text == "" then 0 else 10 * Numeral(text[..|text| - 1]) + (text[|text| - 1] as int - '0' as int)
  }

  lemma {:induction false} DecimalReadsBack(n: nat)
    ensures Numeral(Decimal(n)) == n
    decreases n
  {
    if n >= 10 {
      DecimalReadsBack(n / 10);
      assert Decimal(n)[..|Decimal(n)| - 1] == Decimal(n / 10);
    }
  }

  lemma FormatIntReadsBack(x: int)
    ensures var text := FormatInt(x);
            if x < 0 then text != "" && text[0] == '-' && Numeral(text[1..]) == -x else Numeral(text) == x
  {
    DecimalReadsBack(if x < 0 then -x else x);
  }
}
