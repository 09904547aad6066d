// Small vocabulary shared by the service models.
module Base {

  datatype Option<+T> = None | Some(value: T) {
    function GetOr(default: T): T {
      match this
      case Some(v) => v
      case None => default
    }
  }

  /** The elements of a sequence, as a set. */
  function Elements<T>(s: seq<T>): set<T> {
    set x | x in s
  }

  ghost predicate NoDuplicates<T>(s: seq<T>) {
    forall i, j :: 0 <= i < j < |s| ==> s[i] != s[j]
  }

  lemma LastIsNew<T>(s: seq<T>)
    requires s != [] && NoDuplicates(s)
    ensures s == s[..|s| - 1] + [s[|s| - 1]]
    ensures NoDuplicates(s[..|s| - 1]) && s[|s| - 1] !in s[..|s| - 1]
  {
  }

  /** A duplicate-free sequence is no longer than any set that holds its elements. */
  lemma {:induction false} PigeonHole<T>(s: seq<T>, bound: set<T>)
    requires NoDuplicates(s)
    requires forall x :: x in s ==> x in bound
    ensures |s| <= |bound|
  {
    if s == [] {
    } else {
      var last := s[|s| - 1];
      assert forall x :: x in s[..|s| - 1] ==> x in bound - {last};
      PigeonHole(s[..|s| - 1], bound - {last});
    }
  }

  lemma {:induction false} DistinctElements<T>(s: seq<T>)
    requires NoDuplicates(s)
    ensures |Elements(s)| == |s|
  {
    if s == [] {
    } else {
      LastIsNew(s);
      DistinctElements(s[..|s| - 1]);
      assert Elements(s) == Elements(s[..|s| - 1]) + {s[|s| - 1]};
    }
  }

  lemma {:induction false} OccursOnce<T>(t: seq<T>, x: T)
    requires NoDuplicates(t)
    ensures multiset(t)[x] <= 1
  {
    if t == [] {
    } else {
      LastIsNew(t);
      OccursOnce(t[..|t| - 1], x);
    }
  }

  lemma TwiceCountsTwo<T>(s: seq<T>, i: nat, j: nat)
    requires i < j < |s| && s[i] == s[j]
    ensures multiset(s)[s[i]] >= 2
  {
    assert s == s[..i] + [s[i]] + s[i + 1..j] + [s[j]] + s[j + 1..];
  }

  /** A permutation of a duplicate-free sequence is one too, over the same elements. */
  lemma PermutationKeepsElements<T>(s: seq<T>, t: seq<T>)
    requires multiset(s) == multiset(t) && NoDuplicates(t)
    ensures NoDuplicates(s)
    ensures forall x :: x in s <==> x in t
  {
    forall x
      ensures x in s <==> x in t
    {
      assert x in multiset(s) <==> x in multiset(t);
    }
    forall i, j | 0 <= i < j < |s|
      ensures s[i] != s[j]
    {
      if s[i] == s[j] {
        TwiceCountsTwo(s, i, j);
        OccursOnce(t, s[i]);
      }
    }
  }

  // ----- Searching -----

  /** The position of the first element that the condition holds of. */
  function FirstWhere<T>(s: seq<T>, holds: T -> bool): (at: Option<nat>)
    ensures at.Some? ==> at.value < |s| && holds(s[at.value])
    ensures at.None? ==> forall x :: x in s ==> !holds(x)
  {
    if s == [] then None
    else
      var earlier := FirstWhere(s[..|s| - 1], holds);
      if earlier.Some? then earlier
      else if holds(s[|s| - 1]) then Some(|s| - 1)
      else None
  }

  // ----- Sums -----

  function Sum<T>(s: seq<T>, weight: T -> int): int {
    if s == [] then 0 else Sum(s[..|s| - 1], weight) + weight(s[|s| - 1])
  }

  lemma SumAppend<T>(s: seq<T>, x: T, weight: T -> int)
    ensures Sum(s + [x], weight) == Sum(s, weight) + weight(x)
  {
    assert (s + [x])[..|s|] == s;
  }

  lemma {:induction false} SumUpdate<T>(s: seq<T>, i: nat, x: T, weight: T -> int)
    requires i < |s|
    ensures Sum(s[i := x], weight) == Sum(s, weight) - weight(s[i]) + weight(x)
  {
    var n := |s| - 1;
    if i == n {
      assert s[i := x][..n] == s[..n];
    } else {
      assert s[i := x][..n] == s[..n][i := x];
      SumUpdate(s[..n], i, x, weight);
    }
  }

  // ----- First occurrences: what a Set filled in order holds -----

  function FirstOccurrences<T(==)>(s: seq<T>): seq<T> {
    if s == [] then []
    else
      var d := FirstOccurrences(s[..|s| - 1]);
      if s[|s| - 1] in d then d else d + [s[|s| - 1]]
  }

  /** Each element once, in the order of first occurrence. */
  lemma {:induction false} FirstOccurrencesInOrder<T>(s: seq<T>)
    ensures NoDuplicates(FirstOccurrences(s))
    ensures forall x :: x in FirstOccurrences(s) <==> x in s
    ensures forall n :: 0 <= n <= |s| ==> FirstOccurrences(s[..n]) <= FirstOccurrences(s)
  {
    if s == [] {
    } else {
      var before := s[..|s| - 1];
      FirstOccurrencesInOrder(before);
      assert s == before + [s[|s| - 1]];
      forall n | 0 <= n <= |s|
        ensures FirstOccurrences(s[..n]) <= FirstOccurrences(s)
      {
        if n < |s| {
          assert before[..n] == s[..n];
        } else {
          assert s[..n] == s;
        }
      }
    }
  }

  lemma FirstOccurrencesSnoc<T>(s: seq<T>, x: T)
    ensures FirstOccurrences(s + [x]) ==
      if x in FirstOccurrences(s) then FirstOccurrences(s) else FirstOccurrences(s) + [x]
  {
    assert (s + [x])[..|s|] == s;
  }

  // ----- Text joined by a colon -----

  function FirstColon(s: string): nat {
    if s == "" || s[0] == ':' then 0 else 1 + FirstColon(s[1..])
  }

  lemma {:induction false} ColonEndsFirstId(a: string, b: string)
    requires ':' !in a
    ensures FirstColon(a + ":" + b) == |a|
  {
    if a == "" {
    } else {
      assert (a + ":" + b)[1..] == a[1..] + ":" + b;
      ColonEndsFirstId(a[1..], b);
    }
  }

  lemma SplitAtColon(a: string, b: string, c: string, d: string)
    requires ':' !in a && ':' !in c && a + ":" + b == c + ":" + d
    ensures a == c && b == d
  {
    var s := a + ":" + b;
    ColonEndsFirstId(a, b);
    ColonEndsFirstId(c, d);
    assert s[..|a|] == a && s[..|c|] == c;
    assert s[|a| + 1..] == b && s[|c| + 1..] == d;
  }
}
