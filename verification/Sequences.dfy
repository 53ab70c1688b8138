/** Facts about sequences and sets that the proofs share. */
module Sequences {
  function Take<T>(s: seq<T>, n: nat): (t: seq<T>)
    ensures |t| <= n && t <= s
    ensures |t| < n ==> t == s
  {
    if |s| <= n then s else s[..n]
  }

  lemma TakeConcat<T>(s: seq<T>, t: seq<T>, n: nat)
    ensures |s| <= n ==> Take(s + t, n) == s + Take(t, n - |s|)
    ensures |s| >= n ==> Take(s + t, n) == Take(s, n)
  {
  }

  lemma ConcatIsAssociative<T>(a: seq<T>, b: seq<T>, c: seq<T>)
    ensures (a + b) + c == a + (b + c)
  {
  }

  lemma Rejoins<T>(s: seq<T>, i: nat)
    requires i <= |s|
    ensures s[..i] + s[i..] == s
  {
  }

  lemma {:induction false} SubsetSize<T>(x: set<T>, y: set<T>)
    requires x <= y
    ensures |x| <= |y|
  {
    if x == {} {
    } else {
      var e :| e in x;
      SubsetSize(x - {e}, y - {e});
    }
  }
}
