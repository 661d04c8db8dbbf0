/**
  Code-point lexicographic order on strings: the order in which Python compares
  `str` values, and so the order in which a pandas group-by over a string key
  lists its groups.
 */
module TextOrder {

  /** `a` sorts strictly before `b`: a proper prefix, or smaller at the first difference. */
  predicate Less(a: string, b: string)
    ensures Less(a, b) ==> a != b
    decreases |a|
  {
    |b| > 0 && (|a| == 0 || a[0] < b[0] || (a[0] == b[0] && Less(a[1..], b[1..])))
  }

  lemma {:induction false} LessIrreflexive(a: string)
    ensures !Less(a, a)
    decreases |a|
  {
    if |a| > 0 {
      LessIrreflexive(a[1..]);
    }
  }

  lemma {:induction false} LessTransitive(a: string, b: string, c: string)
    requires Less(a, b) && Less(b, c)
    ensures Less(a, c)
    decreases |a|
  {
    if |a| > 0 && a[0] == b[0] && b[0] == c[0] {
      LessTransitive(a[1..], b[1..], c[1..]);
    }
  }

  lemma {:induction false} LessTotal(a: string, b: string)
    requires a != b
    ensures Less(a, b) || Less(b, a)
    decreases |a|
  {
    if |a| > 0 && |b| > 0 && a[0] == b[0] {
      assert a == [a[0]] + a[1..] && b == [b[0]] + b[1..];
      LessTotal(a[1..], b[1..]);
    }
  }

  /** Every earlier string sorts strictly before every later one. */
  predicate StrictlyAscending(s: seq<string>)
  {
    forall i, j :: 0 <= i < j < |s| ==> Less(s[i], s[j])
  }

  /** No string occurs twice. */
  predicate Distinct(s: seq<string>)
  {
    forall i, j :: 0 <= i < j < |s| ==> s[i] != s[j]
  }

  lemma AscendingIsDistinct(s: seq<string>)
    requires StrictlyAscending(s)
    ensures Distinct(s)
  {
    forall i, j | 0 <= i < j < |s|
      ensures s[i] != s[j]
    {
      LessIrreflexive(s[i]);
    }
  }

  /** Adds `x` to an ascending list of distinct keys, keeping it ascending; a key already present is not repeated. */
  function InsertKey(s: seq<string>, x: string): (r: seq<string>)
    requires StrictlyAscending(s)
    ensures StrictlyAscending(r)
    ensures forall y :: y in r <==> y in s || y == x
    ensures |r| == if x in s then |s| else |s| + 1
  {
    if s == [] then [x]
    else if x == s[0] then s
    else if Less(x, s[0]) then
      assert forall k :: 0 < k < |s| ==> Less(x, s[k]) by {
        forall k | 0 < k < |s| ensures Less(x, s[k]) {
          LessTransitive(x, s[0], s[k]);
        }
      }
      LessIrreflexive(x);
      [x] + s
    else
      LessTotal(x, s[0]);
      var rest := InsertKey(s[1..], x);
      assert forall y :: y in rest ==> Less(s[0], y);
      assert x in s <==> x in s[1..] by {
        assert s == [s[0]] + s[1..];
      }
      [s[0]] + rest
  }
}
