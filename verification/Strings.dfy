/** Finding, splitting and stripping, as the string operations of the printer and parsers do it. */
module Strings {

  function Find(s: string, c: char): (i: nat)
    ensures i <= |s| && (forall k | 0 <= k < i :: s[k] != c) && (i < |s| ==> s[i] == c)
  {
    if s == "" || s[0] == c then 0 else Find(s[1..], c) + 1
  }

  /** The text before the first `c`, or all of it. */
  function Before(s: string, c: char): string { s[..Find(s, c)] }

  /** The text after the first `c`, or none. */
  function Behind(s: string, c: char): string {
    if Find(s, c) < |s| then s[Find(s, c) + 1..] else ""
  }

  /** Where the last `c` is, or minus one. */
  function FindLast(s: string, c: char): (i: int)
    ensures -1 <= i < |s| && (forall k | i < k < |s| :: s[k] != c) && (i >= 0 ==> s[i] == c)
  {
    if s == "" then -1 else if s[|s| - 1] == c then |s| - 1 else FindLast(s[..|s| - 1], c)
  }

  function Split(s: string, c: char): (parts: seq<string>)
    ensures parts != [] && forall p <- parts :: c !in p && forall d <- p :: d in s
    decreases |s|
  {
    if Find(s, c) < |s| then [Before(s, c)] + Split(Behind(s, c), c) else [s]
  }

  function Join(parts: seq<string>, c: char): string {
    if parts == [] then ""
    else if |parts| == 1 then parts[0]
    else parts[0] + [c] + Join(parts[1..], c)
  }

  type CharTest = char -> bool

  function StripLeft(s: string, drop: CharTest): (r: string)
    ensures r != "" ==> !drop(r[0])
    ensures forall d <- r :: d in s
    ensures s != "" && r != "" ==> r[|r| - 1] == s[|s| - 1]
  {
    if s != "" && drop(s[0]) then StripLeft(s[1..], drop) else s
  }

  function StripRight(s: string, drop: CharTest): (r: string)
    ensures r != "" ==> !drop(r[|r| - 1])
    ensures forall d <- r :: d in s
    ensures s != "" && r != "" ==> r[0] == s[0]
  {
    if s != "" && drop(s[|s| - 1]) then StripRight(s[..|s| - 1], drop) else s
  }

  function Strip(s: string, drop: CharTest): (r: string)
    ensures r != "" ==> !drop(r[0]) && !drop(r[|r| - 1])
    ensures forall d <- r :: d in s
  {
    StripRight(StripLeft(s, drop), drop)
  }

  /** A text that neither begins nor ends with a dropped character. */
  predicate Trimmed(s: string, drop: CharTest) {
    s != "" ==> !drop(s[0]) && !drop(s[|s| - 1])
  }

  /** Stripping changes exactly the texts that are not trimmed. */
  lemma StripTrimmed(s: string, drop: CharTest)
    ensures Strip(s, drop) == s <==> Trimmed(s, drop)
  {
  }

  /** A text is cut at the first separator behind a part without one. */
  lemma CutFirst(a: string, c: char, b: string)
    requires c !in a
    ensures Find(a + [c] + b, c) == |a|
    ensures Before(a + [c] + b, c) == a && Behind(a + [c] + b, c) == b
  {
    var s := a + [c] + b;
    assert s[|a|] == c && forall k | 0 <= k < |a| :: s[k] == a[k];
    assert s[..|a|] == a && s[|a| + 1..] == b;
  }

  lemma CutLast(a: string, c: char, b: string)
    requires c !in b
    ensures FindLast(a + [c] + b, c) == |a|
    ensures (a + [c] + b)[..|a|] == a && (a + [c] + b)[|a| + 1..] == b
  {
    var s := a + [c] + b;
    assert s[..|a|] == a && s[|a| + 1..] == b && s[|a|] == c;
    forall k | |a| < k < |s| ensures s[k] != c {
      assert s[k] == b[k - |a| - 1] && b[k - |a| - 1] in b;
    }
  }

  /** Splitting undoes joining parts that do not hold the separator. */
  lemma {:induction false} SplitJoin(parts: seq<string>, c: char)
    requires parts != [] && forall p <- parts :: c !in p
    ensures Split(Join(parts, c), c) == parts
    decreases |parts|
  {
    if |parts| > 1 {
      CutFirst(parts[0], c, Join(parts[1..], c));
      SplitJoin(parts[1..], c);
      assert parts == [parts[0]] + parts[1..];
    } else {
      assert parts == [parts[0]] && parts[0] in parts;
    }
  }

  lemma {:induction false} JoinHolds(parts: seq<string>, c: char, d: char)
    requires c != d && forall p <- parts :: d !in p
    ensures d !in Join(parts, c)
    decreases |parts|
  {
    if |parts| <= 1 {
    } else {
      JoinHolds(parts[1..], c, d);
    }
  }

  // ----- Order -----

  /** Texts in order of their characters. */
  predicate Leq(a: string, b: string) {
    a == "" || (b != "" && (a[0] < b[0] || (a[0] == b[0] && Leq(a[1..], b[1..]))))
  }

  lemma {:induction false} LeqTotal(a: string, b: string)
    ensures Leq(a, b) || Leq(b, a)
    ensures Leq(a, b) && Leq(b, a) ==> a == b
  {
    if a == "" || b == "" {
    } else {
      LeqTotal(a[1..], b[1..]);
      assert a == [a[0]] + a[1..] && b == [b[0]] + b[1..];
    }
  }

  lemma {:induction false} LeqTransitive(a: string, b: string, c: string)
    requires Leq(a, b) && Leq(b, c)
    ensures Leq(a, c)
  {
    if a == "" || b == "" || c == "" || !(a[0] == b[0] == c[0]) {
    } else {
      LeqTransitive(a[1..], b[1..], c[1..]);
    }
  }

  ghost predicate IsLeast(k: string, keys: set<string>) {
    k in keys && forall j <- keys :: Leq(k, j)
  }

  lemma {:induction false} LeastExists(keys: set<string>)
    requires keys != {}
    ensures exists k :: IsLeast(k, keys)
  {
    var k :| k in keys;
    if keys == {k} {
      LeqTotal(k, k);
      assert IsLeast(k, keys);
    } else {
      assert keys - {k} != {};
      LeastExists(keys - {k});
      var m :| IsLeast(m, keys - {k});
      LeqTotal(k, m);
      LeqTotal(k, k);
      if Leq(m, k) {
        assert IsLeast(m, keys);
      } else {
        forall j <- keys ensures Leq(k, j) {
          if j != k { LeqTransitive(k, m, j); }
        }
        assert IsLeast(k, keys);
      }
    }
  }

  ghost function Least(keys: set<string>): (k: string)
    requires keys != {}
    ensures IsLeast(k, keys)
  {
    LeastExists(keys);
    var k :| IsLeast(k, keys);
    k
  }

  /** The keys in order. */
  ghost function Sorted(keys: set<string>): (s: seq<string>)
    ensures forall k :: k in s <==> k in keys
    ensures forall i, j | 0 <= i < j < |s| :: s[i] != s[j] && Leq(s[i], s[j])
  {
    if keys == {} then []
    else
      var k := Least(keys);
      [k] + Sorted(keys - {k})
  }
}
