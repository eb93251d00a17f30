/** The few string operations the URL and time code lean on. */
module Text {

  /** Position of the first character of `s` that is in `cs`, or |s|. */
  function First(s: string, cs: set<char>): (i: nat)
    ensures i <= |s| && (i < |s| ==> s[i] in cs) && forall j :: 0 <= j < i ==> s[j] !in cs
  {
    if s == "" || s[0] in cs then 0 else 1 + First(s[1..], cs)
  }

  /** str.rfind: position of the last `c`, or -1. */
  function Last(s: string, c: char): (i: int)
    ensures -1 <= i < |s| && (i >= 0 ==> s[i] == c) && forall j :: i < j < |s| ==> s[j] != c
  {
    if s == "" then -1 else if s[|s| - 1] == c then |s| - 1 else Last(s[..|s| - 1], c)
  }

  /** str.count for one character. */
  function Count(s: string, c: char): nat {
    if s == "" then 0 else (if s[0] == c then 1 else 0) + Count(s[1..], c)
  }

  /** str.replace with the empty string, for a set of characters. */
  function Without(s: string, cs: set<char>): string {
    if s == "" then "" else (if s[0] in cs then "" else [s[0]]) + Without(s[1..], cs)
  }

  predicate Free(s: string, cs: set<char>) {
    forall i :: 0 <= i < |s| ==> s[i] !in cs
  }

  /** Text before the first character of `cs`, and from it on. */
  function Cut(s: string, cs: set<char>): (r: (string, string))
    ensures r.0 + r.1 == s && Free(r.0, cs) && (r.1 == "" || r.1[0] in cs)
  {
    (s[..First(s, cs)], s[First(s, cs)..])
  }

  lemma CutConcat(a: string, b: string, cs: set<char>)
    requires Free(a, cs) && (b == "" || b[0] in cs)
    ensures Cut(a + b, cs) == (a, b)
  {
    var i := First(a + b, cs);
    assert forall j :: 0 <= j < |a| ==> (a + b)[j] == a[j];
    assert b != "" ==> (a + b)[|a|] == b[0];
    assert i == |a|;
    assert (a + b)[..|a|] == a && (a + b)[|a|..] == b;
  }

  /** Text up to and including the last `c`, and after it. */
  function CutLast(s: string, c: char): (r: (string, string))
    ensures r.0 + r.1 == s && c !in r.1 && (r.0 == "" || r.0[|r.0| - 1] == c)
  {
    var k := Last(s, c) + 1;
    assert s[..k] + s[k..] == s;
    assert forall j :: 0 <= j < |s[k..]| ==> s[k..][j] == s[k + j];
    (s[..k], s[k..])
  }

  lemma CutLastConcat(a: string, b: string, c: char)
    requires c !in b && (a == "" || a[|a| - 1] == c)
    ensures CutLast(a + b, c) == (a, b)
  {
    var i := Last(a + b, c);
    assert forall j :: |a| <= j < |a + b| ==> (a + b)[j] == b[j - |a|];
    assert a != "" ==> (a + b)[|a| - 1] == c;
    assert i == |a| - 1;
    assert (a + b)[..|a|] == a && (a + b)[|a|..] == b;
  }

  lemma FreeConcat(a: string, b: string, cs: set<char>)
    ensures Free(a + b, cs) <==> Free(a, cs) && Free(b, cs)
  {
    if Free(a + b, cs) {
      assert forall i :: 0 <= i < |a| ==> a[i] == (a + b)[i];
      assert forall i :: 0 <= i < |b| ==> b[i] == (a + b)[|a| + i];
    }
  }

  lemma {:induction false} WithoutFree(s: string, cs: set<char>)
    ensures Free(Without(s, cs), cs)
    ensures Free(s, cs) ==> Without(s, cs) == s
    decreases |s|
  {
    if s != "" {
      var rest := s[1..];
      WithoutFree(rest, cs);
      assert Free(s, cs) <==> s[0] !in cs && Free(rest, cs);
      assert [s[0]] + rest == s;
    }
  }

  lemma {:induction false} CountConcat(a: string, b: string, c: char)
    ensures Count(a + b, c) == Count(a, c) + Count(b, c)
    decreases |a|
  {
    if a == "" {
      assert a + b == b;
    } else {
      assert (a + b)[1..] == a[1..] + b;
      CountConcat(a[1..], b, c);
    }
  }

  lemma {:induction false} CountZero(s: string, c: char)
    ensures Count(s, c) == 0 <==> c !in s
    decreases |s|
  {
    if s != "" {
      CountZero(s[1..], c);
      assert c in s <==> c == s[0] || c in s[1..];
    }
  }

  /** str() of a number. */
  function Digits(n: nat): (r: string)
    ensures r != "" && forall i :: 0 <= i < |r| ==> '0' <= r[i] <= '9'
  {
    (if n < 10 then "" else Digits(n / 10)) + [('0' as int + n % 10) as char]
  }

  function Decimal(n: int): (r: string)
    ensures forall i :: 0 <= i < |r| ==> r[i] == '-' || '0' <= r[i] <= '9'
  {
    if n < 0 then "-" + Digits(-n) else Digits(n)
  }
}
