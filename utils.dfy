/** UniqueStrings (pkg/api/utils/utils.go): the distinct values of one string
    field over a list of records, in order of first occurrence.

    The source reaches the field by reflection, by name; here the field is a
    projection function from a record to its string. */
module Utils {

  /** The field values of the records, in record order. */
  function Fields<T>(items: seq<T>, field: T -> string): seq<string>
  {
    seq(|items|, k requires 0 <= k < |items| => field(items[k]))
  }

  /** The first occurrences among the first n values, in the order they occur:
      what the loop of UniqueStrings has collected after n steps. */
  function FirstOccurrences(xs: seq<string>, n: nat): (values: seq<string>)
    requires n <= |xs|
    ensures |values| <= n
  {
    if n == 0 then []
    else
      var values := FirstOccurrences(xs, n - 1);
      if xs[n - 1] in values then values else values + [xs[n - 1]]
  }

  predicate NoDuplicates(values: seq<string>)
  {
    forall i, j :: 0 <= i < j < |values| ==> values[i] != values[j]
  }

  /** The position of the first occurrence of s in xs. */
  function FirstIndex(xs: seq<string>, s: string): (k: nat)
    requires s in xs
    ensures k < |xs| && xs[k] == s
    ensures forall j :: 0 <= j < k ==> xs[j] != s
  {
    if xs[0] == s then 0 else 1 + FirstIndex(xs[1..], s)
  }

  /** The loop of UniqueStrings: a value is appended the first time it is met,
      and remembered in a set of values already seen. */
  method UniqueStrings<T>(items: seq<T>, field: T -> string) returns (values: seq<string>)
    ensures values == FirstOccurrences(Fields(items, field), |items|)
  {
    ghost var xs := Fields(items, field);
    var seen: set<string> := {};
    values := [];
    var i := 0;
    while i < |items|
      invariant 0 <= i <= |items|
      invariant values == FirstOccurrences(xs, i)
      invariant forall s :: s in seen <==> s in values
    {
      var item := field(items[i]);
      if item !in seen {
        values := values + [item];
        seen := seen + {item};
      }
      i := i + 1;
    }
  }

  /** No value is collected twice. */
  lemma {:induction false} FirstOccurrencesNoDuplicates(xs: seq<string>, n: nat)
    requires n <= |xs|
    ensures NoDuplicates(FirstOccurrences(xs, n))
  {
    if n > 0 {
      FirstOccurrencesNoDuplicates(xs, n - 1);
    }
  }

  /** A value is collected exactly when it occurs among the first n values. */
  lemma {:induction false} FirstOccurrencesMembers(xs: seq<string>, n: nat, s: string)
    requires n <= |xs|
    ensures s in FirstOccurrences(xs, n) <==> exists k :: 0 <= k < n && xs[k] == s
  {
    if n > 0 {
      FirstOccurrencesMembers(xs, n - 1, s);
      if xs[n - 1] == s {
        assert exists k :: 0 <= k < n && xs[k] == s;
      }
    }
  }

  /** Every value collected after n steps first occurs among the first n. */
  lemma {:induction false} CollectedFirstOccursBefore(xs: seq<string>, n: nat, i: int)
    requires n <= |xs| && 0 <= i < |FirstOccurrences(xs, n)|
    ensures FirstOccurrences(xs, n)[i] in xs
    ensures FirstIndex(xs, FirstOccurrences(xs, n)[i]) < n
  {
    var before := FirstOccurrences(xs, n - 1);
    if i < |before| {
      CollectedFirstOccursBefore(xs, n - 1, i);
    }
  }

  /** The values come out in the order of their first occurrences. */
  lemma {:induction false} FirstOccurrencesOrdered(xs: seq<string>, n: nat, i: int, j: int)
    requires n <= |xs| && 0 <= i < j < |FirstOccurrences(xs, n)|
    ensures FirstOccurrences(xs, n)[i] in xs && FirstOccurrences(xs, n)[j] in xs
    ensures FirstIndex(xs, FirstOccurrences(xs, n)[i]) < FirstIndex(xs, FirstOccurrences(xs, n)[j])
  {
    var before, x := FirstOccurrences(xs, n - 1), xs[n - 1];
    if j < |before| {
      FirstOccurrencesOrdered(xs, n - 1, i, j);
    } else {
      CollectedFirstOccursBefore(xs, n - 1, i);
      FirstOccurrencesMembers(xs, n - 1, x);
      assert FirstIndex(xs, x) == n - 1;
    }
  }

  /** A list without duplicates is its own de-duplication. */
  lemma {:induction false} FirstOccurrencesOfUnique(ys: seq<string>, m: nat)
    requires m <= |ys|
    requires NoDuplicates(ys)
    ensures FirstOccurrences(ys, m) == ys[..m]
  {
    if m > 0 {
      FirstOccurrencesOfUnique(ys, m - 1);
      assert ys[..m] == ys[..m - 1] + [ys[m - 1]];
      assert ys[m - 1] !in ys[..m - 1];
    }
  }

  /** De-duplicating twice gives what de-duplicating once gave. */
  lemma FirstOccurrencesIdempotent(xs: seq<string>)
    ensures var values := FirstOccurrences(xs, |xs|);
      FirstOccurrences(values, |values|) == values
  {
    var values := FirstOccurrences(xs, |xs|);
    FirstOccurrencesNoDuplicates(xs, |xs|);
    FirstOccurrencesOfUnique(values, |values|);
    assert values[..|values|] == values;
  }

  /** Records ["a", "b", "a", "c", "b"] give ["a", "b", "c"]; no records give none. */
  lemma UniqueStringsExample()
    ensures FirstOccurrences(["a", "b", "a", "c", "b"], 5) == ["a", "b", "c"]
    ensures FirstOccurrences([], 0) == []
  {
    var xs := ["a", "b", "a", "c", "b"];
    assert FirstOccurrences(xs, 1) == ["a"];
    assert FirstOccurrences(xs, 2) == ["a", "b"];
    assert FirstOccurrences(xs, 3) == ["a", "b"];
    assert FirstOccurrences(xs, 4) == ["a", "b", "c"];
  }
}
