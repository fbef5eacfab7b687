/** The typing-slip test of src/commands/bareCommands.ts against the recursive edit distance. */
module EditDistance {

  function Min(x: nat, y: nat): nat { if x < y then x else y }

  /** Whether both texts start with the same two symbols in opposite order. */
  predicate SwapsHead<T(==)>(a: seq<T>, b: seq<T>) {
    |a| >= 2 && |b| >= 2 && a[0] == b[1] && a[1] == b[0]
  }

  /** Least number of deletions, insertions, substitutions and adjacent swaps (optimal string alignment). */
  function Distance<T(==)>(a: seq<T>, b: seq<T>): nat
    decreases |a| + |b|
  {
    if a == [] then |b|
    else if b == [] then |a|
    else
      var substitute := Distance(a[1..], b[1..]) + (if a[0] == b[0] then 0 else 1);
      var delete := 1 + Distance(a[1..], b);
      var insert := 1 + Distance(a, b[1..]);
      var best := Min(substitute, Min(delete, insert));
      if SwapsHead(a, b) then Min(best, 1 + Distance(a[2..], b[2..])) else best
  }

  lemma {:induction false} DistanceZero<T>(a: seq<T>, b: seq<T>)
    ensures Distance(a, b) == 0 <==> a == b
    decreases |a| + |b|
  {
    if a != [] && b != [] {
      DistanceZero(a[1..], b[1..]);
      assert a == [a[0]] + a[1..] && b == [b[0]] + b[1..];
    }
  }

  lemma {:induction false} DistanceSymmetric<T>(a: seq<T>, b: seq<T>)
    ensures Distance(a, b) == Distance(b, a)
    decreases |a| + |b|
  {
    if a != [] && b != [] {
      DistanceSymmetric(a[1..], b[1..]);
      DistanceSymmetric(a[1..], b);
      DistanceSymmetric(a, b[1..]);
      if SwapsHead(a, b) { DistanceSymmetric(a[2..], b[2..]); }
    }
  }

  lemma {:induction false} DistanceCoversLengthGap<T>(a: seq<T>, b: seq<T>)
    ensures |a| <= |b| + Distance(a, b) && |b| <= |a| + Distance(a, b)
    decreases |a| + |b|
  {
    if a != [] && b != [] {
      DistanceCoversLengthGap(a[1..], b[1..]);
      DistanceCoversLengthGap(a[1..], b);
      DistanceCoversLengthGap(a, b[1..]);
      if SwapsHead(a, b) { DistanceCoversLengthGap(a[2..], b[2..]); }
    }
  }

  /** What one slip can be once the texts differ at their very first symbol. */
  lemma {:induction false} OneSlipAtHead<T>(a: seq<T>, b: seq<T>)
    requires a != [] && b != [] && a[0] != b[0]
    ensures Distance(a, b) <= 1 <==>
            || a[1..] == b[1..] || a[1..] == b || a == b[1..]
            || (SwapsHead(a, b) && a[2..] == b[2..])
  {
    DistanceZero(a[1..], b[1..]);
    DistanceZero(a[1..], b);
    DistanceZero(a, b[1..]);
    if SwapsHead(a, b) { DistanceZero(a[2..], b[2..]); }
  }

  lemma {:induction false} DroppingHeadIsOneEdit<T>(a: seq<T>)
    requires a != []
    ensures Distance(a, a[1..]) <= 1 && Distance(a[1..], a) <= 1
  {
    DistanceZero(a[1..], a[1..]);
    if |a| == 1 { assert a[1..] == []; }
  }

  /** A shared first symbol never decides whether one slip is enough. */
  lemma {:induction false} SharedHeadIsFree<T>(a: seq<T>, b: seq<T>)
    requires a != [] && b != [] && a[0] == b[0]
    ensures Distance(a, b) <= 1 <==> Distance(a[1..], b[1..]) <= 1
  {
    DistanceZero(a[1..], b);
    DistanceZero(a, b[1..]);
    if a[1..] == b { DroppingHeadIsOneEdit(b); }
    if a == b[1..] { DroppingHeadIsOneEdit(a); }
    if SwapsHead(a, b) {
      DistanceZero(a[2..], b[2..]);
      if a[2..] == b[2..] {
        assert a[1..] == [a[1]] + a[2..] && b[1..] == [b[1]] + b[2..];
        DistanceZero(a[1..], b[1..]);
      }
    }
  }

  lemma {:induction false} SharedPrefixIsFree<T>(a: seq<T>, b: seq<T>, n: nat)
    requires n <= |a| && n <= |b| && a[..n] == b[..n]
    ensures Distance(a, b) <= 1 <==> Distance(a[n..], b[n..]) <= 1
    decreases n
  {
    if n == 0 {
      assert a[0..] == a && b[0..] == b;
    } else {
      assert a[0] == a[..n][0] && b[0] == b[..n][0];
      assert a[1..][..n - 1] == a[..n][1..] && b[1..][..n - 1] == b[..n][1..];
      SharedHeadIsFree(a, b);
      SharedPrefixIsFree(a[1..], b[1..], n - 1);
      assert a[1..][n - 1..] == a[n..] && b[1..][n - 1..] == b[n..];
    }
  }

  /** The two-loop test, proved to decide exactly "at most one slip" by the recursive definition. */
  method WithinOneEdit<T(==)>(a: seq<T>, b: seq<T>) returns (within: bool)
    ensures within <==> Distance(a, b) <= 1
  {
    if a == b { DistanceZero(a, b); return true; }
    DistanceCoversLengthGap(a, b);
    if |a| > |b| + 1 || |b| > |a| + 1 { return false; }

    if |a| == |b| {
      within := SameLengthTest(a, b);
      return;
    }

    var shorter, longer := a, b;
    if |b| <= |a| { shorter, longer := b, a; DistanceSymmetric(a, b); }
    var i := 0;
    while i < |shorter| && shorter[i] == longer[i]
      invariant 0 <= i <= |shorter|
      invariant shorter[..i] == longer[..i]
    {
      assert shorter[..i + 1] == shorter[..i] + [shorter[i]] && longer[..i + 1] == longer[..i] + [longer[i]];
      i := i + 1;
    }
    SharedPrefixIsFree(shorter, longer, i);
    var rest := longer[i..];
    assert rest[1..] == longer[i + 1..];
    if i < |shorter| { OneSlipAtHead(shorter[i..], rest); }
    within := shorter[i..] == longer[i + 1..];
  }

  /** The equal-length half: one substitution, or one adjacent swap. */
  method SameLengthTest<T(==)>(a: seq<T>, b: seq<T>) returns (within: bool)
    requires |a| == |b| && a != b
    ensures within <==> Distance(a, b) <= 1
  {
    var first := -1;
    var i := 0;
    while i < |a|
      invariant 0 <= i <= |a|
      invariant -1 <= first < i
      invariant first == -1 ==> a[..i] == b[..i]
      invariant first != -1 ==> a[..first] == b[..first] && a[first] != b[first] && a[first + 1..i] == b[first + 1..i]
    {
      if a[i] == b[i] {
        if first == -1 {
          assert a[..i + 1] == a[..i] + [a[i]] && b[..i + 1] == b[..i] + [b[i]];
        } else {
          assert a[first + 1..i + 1] == a[first + 1..i] + [a[i]] && b[first + 1..i + 1] == b[first + 1..i] + [b[i]];
        }
        i := i + 1;
        continue;
      }
      if first == -1 {
        first := i;
        i := i + 1;
        continue;
      }
      var u, v := a[first..], b[first..];
      SharedPrefixIsFree(a, b, first);
      OneSlipAtHead(u, v);
      assert u[1..][i - first - 1] == a[i] && v[1..][i - first - 1] == b[i];
      within := first == i - 1 && a[first] == b[i] && a[i] == b[first] && a[i + 1..] == b[i + 1..];
      if first == i - 1 {
        assert u[2..] == a[i + 1..] && v[2..] == b[i + 1..];
      } else {
        assert u[1] == a[first + 1..i][0] && v[1] == b[first + 1..i][0];
      }
      return;
    }
    assert a[..i] == a && b[..i] == b;
    SharedPrefixIsFree(a, b, first);
    OneSlipAtHead(a[first..], b[first..]);
    assert a[first..][1..] == a[first + 1..i] && b[first..][1..] == b[first + 1..i];
    return true;
  }
}
