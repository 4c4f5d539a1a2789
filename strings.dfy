/**
 * String helpers shared by the webhook normaliser and the CSV export:
 * JavaScript's `Array.prototype.join`, its reading counterpart
 * `String.prototype.split` on one character, and the decimal text of a
 * whole number (what `Number.prototype.toString` prints for an integer).
 */
module Strings {

  /** `parts.join(sep)`: the parts with `sep` between neighbours; no parts give "". */
  function Join(parts: seq<string>, sep: string): string
  {
    if |parts| == 0 then ""
    else if |parts| == 1 then parts[0]
    else parts[0] + sep + Join(parts[1..], sep)
  }

  /** `s.split(c)`: the pieces between occurrences of `c`; "" gives [""]. */
  function Split(s: string, c: char): (pieces: seq<string>)
    ensures |pieces| >= 1
    ensures forall i :: 0 <= i < |pieces| ==> c !in pieces[i]
  {
    if |s| == 0 then [""]
    else
      var rest := Split(s[1..], c);
      if s[0] == c then [""] + rest
      else [[s[0]] + rest[0]] + rest[1..]
  }

  /** Joining two non-empty lists is joining each and putting one separator between. */
  lemma {:induction false} JoinConcat(a: seq<string>, b: seq<string>, sep: string)
    requires |a| >= 1 && |b| >= 1
    ensures Join(a + b, sep) == Join(a, sep) + sep + Join(b, sep)
  {
    assert (a + b)[0] == a[0];
    assert (a + b)[1..] == a[1..] + b;
    if |a| > 1 {
      JoinConcat(a[1..], b, sep);
    } else {
      assert a[1..] + b == b;
    }
  }

  /** A character absent from every part and from the separator is absent from the join. */
  lemma {:induction false} JoinAvoids(parts: seq<string>, sep: string, c: char)
    requires c !in sep
    requires forall i :: 0 <= i < |parts| ==> c !in parts[i]
    ensures c !in Join(parts, sep)
  {
    if |parts| > 1 {
      JoinAvoids(parts[1..], sep, c);
      assert Join(parts, sep) == parts[0] + sep + Join(parts[1..], sep);
    }
  }

  /** Joining on a single character `c` adds exactly one `c` per gap between parts. */
  lemma {:induction false} JoinCount(parts: seq<string>, c: char)
    requires forall i :: 0 <= i < |parts| ==> c !in parts[i]
    ensures multiset(Join(parts, [c]))[c] == if |parts| == 0 then 0 else |parts| - 1
  {
    if |parts| > 1 {
      JoinCount(parts[1..], c);
      assert Join(parts, [c]) == parts[0] + [c] + Join(parts[1..], [c]);
      assert multiset(parts[0])[c] == 0;
    } else if |parts| == 1 {
      assert multiset(parts[0])[c] == 0;
    }
  }

  /** A piece without the separator splits to itself. */
  lemma {:induction false} SplitWhole(a: string, c: char)
    requires c !in a
    ensures Split(a, c) == [a]
  {
    if |a| > 0 {
      SplitWhole(a[1..], c);
      assert [a[0]] + a[1..] == a;
    }
  }

  /** Splitting `a + [c] + b` peels `a` off the front when `a` has no `c`. */
  lemma {:induction false} SplitAfter(a: string, b: string, c: char)
    requires c !in a
    ensures Split(a + [c] + b, c) == [a] + Split(b, c)
  {
    var s := a + [c] + b;
    if |a| == 0 {
      assert s[0] == c && s[1..] == b;
    } else {
      assert s[0] == a[0] && s[1..] == a[1..] + [c] + b;
      SplitAfter(a[1..], b, c);
      assert [a[0]] + a[1..] == a;
    }
  }

  /** Three pieces joined by `c` split back into the three pieces. */
  lemma SplitThree(x: string, y: string, z: string, c: char)
    requires c !in x && c !in y && c !in z
    ensures Split(x + [c] + y + [c] + z, c) == [x, y, z]
  {
    var yz := y + [c] + z;
    SplitWhole(z, c);
    SplitAfter(y, z, c);
    assert Split(yz, c) == [y, z];
    assert x + [c] + y + [c] + z == x + [c] + yz;
    SplitAfter(x, yz, c);
    assert Split(x + [c] + yz, c) == [x] + [y, z];
  }

  /** SplitThree for any pieces: the split is known whenever none of them holds `c`. */
  lemma SplitThreeWhenFree(x: string, y: string, z: string, c: char)
    ensures c !in x && c !in y && c !in z ==> Split(x + [c] + y + [c] + z, c) == [x, y, z]
  {
    if c !in x && c !in y && c !in z {
      SplitThree(x, y, z, c);
    }
  }

  /** SplitJoin for any list: the split is known whenever the list is non-empty and no part holds `c`. */
  lemma SplitJoinWhenFree(parts: seq<string>, c: char)
    ensures |parts| >= 1 && (forall i :: 0 <= i < |parts| ==> c !in parts[i]) ==>
      Split(Join(parts, [c]), c) == parts
  {
    if |parts| >= 1 && (forall i :: 0 <= i < |parts| ==> c !in parts[i]) {
      SplitJoin(parts, c);
    }
  }

  /** Split undoes Join on a single character when no part contains it. */
  lemma {:induction false} SplitJoin(parts: seq<string>, c: char)
    requires |parts| >= 1
    requires forall i :: 0 <= i < |parts| ==> c !in parts[i]
    ensures Split(Join(parts, [c]), c) == parts
  {
    if |parts| == 1 {
      SplitWhole(parts[0], c);
    } else {
      SplitJoin(parts[1..], c);
      SplitAfter(parts[0], Join(parts[1..], [c]), c);
      assert [parts[0]] + parts[1..] == parts;
    }
  }

  function DigitChar(d: nat): (ch: char)
    requires d < 10
    ensures '0' <= ch <= '9'
  {
    (48 + d) as char
  }

  predicate AllDigits(s: string)
  {
    forall i :: 0 <= i < |s| ==> '0' <= s[i] <= '9'
  }

  /** Decimal text of a whole number: digits only, no leading zero unless the number is 0. */
  function DecimalString(n: nat): (s: string)
    ensures |s| >= 1 && AllDigits(s)
    ensures s[0] == '0' ==> n == 0
  {
    if n < 10 then [DigitChar(n)] else DecimalString(n / 10) + [DigitChar(n % 10)]
  }

  /** Reads a string of decimal digits back as a number (the inverse of DecimalString). */
  function DecimalValue(s: string): nat
    requires AllDigits(s)
  {
    if |s| == 0 then 0
    else DecimalValue(s[..|s| - 1]) * 10 + (s[|s| - 1] as int - 48)
  }

  lemma {:induction false} DecimalRoundTrip(n: nat)
    ensures DecimalValue(DecimalString(n)) == n
  {
    var s := DecimalString(n);
    if n >= 10 {
      DecimalRoundTrip(n / 10);
      assert s[..|s| - 1] == DecimalString(n / 10);
    }
  }
}
