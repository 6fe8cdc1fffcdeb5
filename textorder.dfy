/** Ordering and formatting of text as the tables use it: team names sort by
    code point, lexicographically; integers print in decimal. */
module TextOrder {

  /** Lexicographic "strictly before" on strings, comparing characters by code point. */
  predicate StrLess(a: string, b: string)
  {
    if |a| == 0 then |b| > 0
    else if |b| == 0 then false
    else a[0] < b[0] || (a[0] == b[0] && StrLess(a[1..], b[1..]))
  }

  lemma {:induction false} StrLessTransitive(a: string, b: string, c: string)
    requires StrLess(a, b) && StrLess(b, c)
    ensures StrLess(a, c)
  {
    if |a| > 0 && |b| > 0 && |c| > 0 && a[0] == b[0] && b[0] == c[0] {
      StrLessTransitive(a[1..], b[1..], c[1..]);
    }
  }

  lemma {:induction false} StrLessTotal(a: string, b: string)
    requires a != b
    ensures StrLess(a, b) || StrLess(b, a)
  {
    if |a| > 0 && |b| > 0 && a[0] == b[0] {
      assert a == [a[0]] + a[1..] && b == [b[0]] + b[1..];
      StrLessTotal(a[1..], b[1..]);
    }
  }

  /** Strictly ascending, hence without duplicates. */
  predicate StrictlyAscending(s: seq<string>)
  {
    forall i, j :: 0 <= i < j < |s| ==> StrLess(s[i], s[j])
  }

  /** Adds `t` to a strictly ascending list of distinct names, keeping it so. */
  function InsertName(s: seq<string>, t: string): (r: seq<string>)
    requires StrictlyAscending(s)
    ensures StrictlyAscending(r)
    ensures forall x :: x in r <==> x in s || x == t
  {
    if |s| == 0 then [t]
    else if t == s[0] then s
    else if StrLess(t, s[0]) then
      InsertFront(s, t);
      [t] + s
    else
      StrLessTotal(t, s[0]);
      var rest := InsertName(s[1..], t);
      AppendFront(s, t, rest);
      [s[0]] + rest
  }

  lemma InsertFront(s: seq<string>, t: string)
    requires StrictlyAscending(s) && |s| > 0 && StrLess(t, s[0])
    ensures StrictlyAscending([t] + s)
  {
    forall j | 0 <= j < |s| ensures StrLess(t, s[j]) {
      if j > 0 { StrLessTransitive(t, s[0], s[j]); }
    }
  }

  lemma AppendFront(s: seq<string>, t: string, rest: seq<string>)
    requires StrictlyAscending(s) && |s| > 0 && StrLess(s[0], t)
    requires StrictlyAscending(rest)
    requires forall x :: x in rest <==> x in s[1..] || x == t
    ensures StrictlyAscending([s[0]] + rest)
  {
    forall j | 0 <= j < |rest| ensures StrLess(s[0], rest[j]) {
      if rest[j] != t {
        assert rest[j] in s[1..];
      }
    }
  }

  /** Names in ascending order, each once. */
  function SortedDistinct(names: seq<string>): (r: seq<string>)
    ensures StrictlyAscending(r)
    ensures forall x :: x in r <==> x in names
  {
    if |names| == 0 then []
    else InsertName(SortedDistinct(names[..|names| - 1]), names[|names| - 1])
  }

  /** Decimal digits of a natural number, most significant first. */
  function NatToDecimal(n: nat): (r: string)
    ensures |r| > 0
    ensures forall k :: 0 <= k < |r| ==> '0' <= r[k] <= '9'
  {
    var d := ['0', '1', '2', '3', '4', '5', '6', '7', '8', '9'];
    if n < 10 then [d[n]] else NatToDecimal(n / 10) + [d[n % 10]]
  }

  /** An integer written as Python writes it. */
  function IntToDecimal(i: int): (r: string)
    ensures |r| > 0 && (r[0] == '-' <==> i < 0)
  {
    if i < 0 then "-" + NatToDecimal(-i) else NatToDecimal(i)
  }
}
