/** Byte-wise lexicographic order, the order of object keys, ref names and
    object ids. Strings are compared by their character codes. */
module Order {

  predicate Less(a: seq<int>, b: seq<int>) {
    b != [] && (a == [] || a[0] < b[0] || (a[0] == b[0] && Less(a[1..], b[1..])))
  }

  predicate AtMost(a: seq<int>, b: seq<int>) {
    a == b || Less(a, b)
  }

  lemma LessTransitive(a: seq<int>, b: seq<int>, c: seq<int>)
    requires Less(a, b) && Less(b, c)
    ensures Less(a, c)
  {
    if a != [] && b[0] == a[0] && c[0] == b[0] {
      LessTransitive(a[1..], b[1..], c[1..]);
    }
  }

  lemma LessTotal(a: seq<int>, b: seq<int>)
    ensures Less(a, b) || a == b || Less(b, a)
  {
    if a != [] && b != [] && a[0] == b[0] {
      LessTotal(a[1..], b[1..]);
      assert a == [a[0]] + a[1..] && b == [b[0]] + b[1..];
    }
  }

  lemma LessAsymmetric(a: seq<int>, b: seq<int>)
    ensures !(Less(a, b) && Less(b, a)) && !Less(a, a)
  {
    if a != [] && b != [] && a[0] == b[0] {
      LessAsymmetric(a[1..], b[1..]);
    }
    if a != [] {
      LessAsymmetric(a[1..], a[1..]);
    }
  }

  function Codes(s: string): (c: seq<int>)
    ensures |c| == |s| && forall i :: 0 <= i < |s| ==> c[i] == s[i] as int
  {
    seq(|s|, i requires 0 <= i < |s| => s[i] as int)
  }

  lemma CodesInjective(a: string, b: string)
    requires Codes(a) == Codes(b)
    ensures a == b
  {
    forall i | 0 <= i < |a| ensures a[i] == b[i] {
      assert Codes(a)[i] == Codes(b)[i];
    }
  }

  predicate StringLess(a: string, b: string) {
    Less(Codes(a), Codes(b))
  }

  predicate StringAtMost(a: string, b: string) {
    AtMost(Codes(a), Codes(b))
  }

  /** `a` is a proper prefix of `b`, or smaller at `n`, the first place where they differ. */
  predicate ComesFirst(a: seq<int>, b: seq<int>, n: nat) {
    n <= |a| && n < |b| && a[..n] == b[..n] && (n < |a| ==> a[n] < b[n])
  }

  lemma LessIff(a: seq<int>, b: seq<int>)
    ensures Less(a, b) <==> exists n: nat :: ComesFirst(a, b, n)
  {
    if Less(a, b) { var n := Difference(a, b); }
    if n: nat :| ComesFirst(a, b, n) { ComesFirstIsLess(a, b, n); }
  }

  lemma {:induction false} Difference(a: seq<int>, b: seq<int>) returns (n: nat)
    requires Less(a, b)
    ensures ComesFirst(a, b, n)
  {
    if a == [] || a[0] < b[0] {
      n := 0;
    } else {
      n := Difference(a[1..], b[1..]);
      assert a[..n + 1] == [a[0]] + a[1..][..n] && b[..n + 1] == [b[0]] + b[1..][..n];
      n := n + 1;
    }
  }

  lemma {:induction false} ComesFirstIsLess(a: seq<int>, b: seq<int>, n: nat)
    requires ComesFirst(a, b, n)
    ensures Less(a, b)
  {
    if n > 0 {
      assert a[..n][0] == b[..n][0] && a[1..][..n - 1] == a[..n][1..] && b[1..][..n - 1] == b[..n][1..];
      ComesFirstIsLess(a[1..], b[1..], n - 1);
    }
  }
}
