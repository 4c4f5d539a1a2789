/**
 * The order in which `getOrders` lists rows: `orderId` compared as text,
 * character code by character code, a proper prefix first. The listing
 * is this order reversed (descending).
 */
module StringOrder {

  /** Strict lexicographic order on character codes. */
  predicate Less(a: string, b: string)
  {
    if |a| == 0 then |b| != 0
    else if |b| == 0 then false
    else if a[0] != b[0] then a[0] < b[0]
    else Less(a[1..], b[1..])
  }

  lemma {:induction false} LessAsymmetric(a: string, b: string)
    requires Less(a, b)
    ensures !Less(b, a)
  {
    if |a| != 0 && |b| != 0 && a[0] == b[0] {
      LessAsymmetric(a[1..], b[1..]);
    }
  }

  lemma {:induction false} LessTransitive(a: string, b: string, c: string)
    requires Less(a, b) && Less(b, c)
    ensures Less(a, c)
  {
    if |a| != 0 && a[0] == b[0] && b[0] == c[0] {
      LessTransitive(a[1..], b[1..], c[1..]);
    }
  }

  lemma {:induction false} LessTotal(a: string, b: string)
    requires a != b
    ensures Less(a, b) || Less(b, a)
  {
    if |a| != 0 && |b| != 0 && a[0] == b[0] {
      assert a == [a[0]] + a[1..] && b == [b[0]] + b[1..];
      LessTotal(a[1..], b[1..]);
    }
  }

  /** `k` is above every other member of `s`. */
  predicate IsGreatest(k: string, s: set<string>)
  {
    k in s && forall j :: j in s && j != k ==> Less(j, k)
  }

  lemma {:induction false} GreatestExists(s: set<string>)
    requires s != {}
    ensures exists k :: IsGreatest(k, s)
  {
    var x :| x in s;
    if s != {x} {
      var rest := s - {x};
      GreatestExists(rest);
      var m :| IsGreatest(m, rest);
      if Less(x, m) {
        assert IsGreatest(m, s);
      } else {
        LessTotal(x, m);
        forall j | j in s && j != x
          ensures Less(j, x)
        {
          if j != m {
            LessTransitive(j, m, x);
          }
        }
        assert IsGreatest(x, s);
      }
    } else {
      assert IsGreatest(x, s);
    }
  }

  lemma GreatestUnique(s: set<string>)
    ensures forall k, k' :: IsGreatest(k, s) && IsGreatest(k', s) ==> k == k'
  {
    forall k, k' | IsGreatest(k, s) && IsGreatest(k', s)
      ensures k == k'
    {
      if k != k' {
        LessAsymmetric(k, k');
      }
    }
  }

  function Greatest(s: set<string>): (k: string)
    requires s != {}
    ensures IsGreatest(k, s)
  {
    GreatestExists(s);
    GreatestUnique(s);
    var k :| IsGreatest(k, s); k
  }

  /** The members of `s`, each once, in strictly descending order. */
  function Descending(s: set<string>): (r: seq<string>)
    ensures |r| == |s|
    ensures forall i :: 0 <= i < |r| ==> r[i] in s
    ensures forall k :: k in s ==> k in r
    ensures forall i, j :: 0 <= i < j < |r| ==> Less(r[j], r[i])
    decreases s
  {
    if s == {} then []
    else
      var k := Greatest(s);
      [k] + Descending(s - {k})
  }
}
