/** Small shared vocabulary: optional values, integer extrema and sums of sequences. */
module Basics {

  datatype Option<+T> = None | Some(value: T) {
    function UnwrapOr(default: T): T { if Some? then value else default }
  }

  function Min(a: int, b: int): int { if a <= b then a else b }

  function Max(a: int, b: int): int { if a <= b then b else a }

  function Sum(s: seq<int>): int {
    if |s| == 0 then 0 else Sum(s[..|s| - 1]) + s[|s| - 1]
  }

  lemma {:induction false} SumConcat(a: seq<int>, b: seq<int>)
    ensures Sum(a + b) == Sum(a) + Sum(b)
  {
    if |b| == 0 {
      assert a + b == a;
    } else {
      var n := |b| - 1;
      assert (a + b)[..|a + b| - 1] == a + b[..n];
      SumConcat(a, b[..n]);
    }
  }

  /** Sum of `f` over a sequence of rows. */
  function Total<T>(s: seq<T>, f: T -> int): int {
    if |s| == 0 then 0 else Total(s[..|s| - 1], f) + f(s[|s| - 1])
  }

  lemma {:induction false} TotalConcat<T>(a: seq<T>, b: seq<T>, f: T -> int)
    ensures Total(a + b, f) == Total(a, f) + Total(b, f)
  {
    if |b| == 0 {
      assert a + b == a;
    } else {
      var n := |b| - 1;
      assert (a + b)[..|a + b| - 1] == a + b[..n];
      TotalConcat(a, b[..n], f);
    }
  }

  lemma {:induction false} TotalZero<T>(s: seq<T>, f: T -> int)
    requires forall i :: 0 <= i < |s| ==> f(s[i]) == 0
    ensures Total(s, f) == 0
  {
    if |s| > 0 { TotalZero(s[..|s| - 1], f); }
  }

  lemma TotalSnoc<T>(s: seq<T>, x: T, f: T -> int)
    ensures Total(s + [x], f) == Total(s, f) + f(x)
  {
    assert (s + [x])[..|s|] == s;
  }

  lemma {:induction false} TotalUpdate<T>(s: seq<T>, i: nat, x: T, f: T -> int)
    requires i < |s|
    ensures Total(s[i := x], f) == Total(s, f) - f(s[i]) + f(x)
  {
    var n := |s| - 1;
    if i < n {
      assert s[i := x][..n] == s[..n][i := x];
      TotalUpdate(s[..n], i, x, f);
    } else {
      assert s[i := x][..n] == s[..n];
    }
  }

  lemma {:induction false} TotalMonotone<S, T>(s: seq<S>, t: seq<T>, f: S -> int, g: T -> int)
    requires |s| == |t| && forall i :: 0 <= i < |s| ==> f(s[i]) <= g(t[i])
    ensures Total(s, f) <= Total(t, g)
  {
    if |s| > 0 { TotalMonotone(s[..|s| - 1], t[..|t| - 1], f, g); }
  }

  lemma {:induction false} TotalPositive<T>(s: seq<T>, f: T -> int) returns (i: nat)
    requires Total(s, f) > 0
    ensures i < |s| && f(s[i]) > 0
  {
    i := |s| - 1;
    if f(s[i]) <= 0 { i := TotalPositive(s[..i], f); }
  }

  lemma {:induction false} TotalNonNegative<T>(s: seq<T>, f: T -> int)
    requires forall i :: 0 <= i < |s| ==> f(s[i]) >= 0
    ensures Total(s, f) >= 0
  {
    if |s| > 0 { TotalNonNegative(s[..|s| - 1], f); }
  }

  lemma {:induction false} TotalAtLeast<T>(s: seq<T>, i: nat, f: T -> int)
    requires i < |s| && forall j :: 0 <= j < |s| ==> f(s[j]) >= 0
    ensures Total(s, f) >= f(s[i])
  {
    if i < |s| - 1 { TotalAtLeast(s[..|s| - 1], i, f); } else { TotalNonNegative(s[..i], f); }
  }

  lemma {:induction false} SameTotal<T>(s: seq<T>, f: T -> int, g: T -> int)
    requires forall i :: 0 <= i < |s| ==> f(s[i]) == g(s[i])
    ensures Total(s, f) == Total(s, g)
  {
    if |s| > 0 { SameTotal(s[..|s| - 1], f, g); }
  }

  lemma {:induction false} SumOfTotals<T>(s: seq<T>, f: T -> int, g: T -> int, h: T -> int)
    requires forall i :: 0 <= i < |s| ==> h(s[i]) == f(s[i]) + g(s[i])
    ensures Total(s, h) == Total(s, f) + Total(s, g)
  {
    if |s| > 0 { SumOfTotals(s[..|s| - 1], f, g, h); }
  }

  lemma TwoParts<T>(s: seq<T>, i: nat, f: T -> int)
    requires i <= |s|
    ensures Total(s, f) == Total(s[..i], f) + Total(s[i..], f)
  {
    TotalConcat(s[..i], s[i..], f);
    assert s == s[..i] + s[i..];
  }

  predicate Distinct<T(==)>(s: seq<T>) {
    forall i, j :: 0 <= i < j < |s| ==> s[i] != s[j]
  }

  lemma Unused(s: set<nat>) returns (q: nat)
    ensures q !in s
  {
    q := if s == {} then 0 else 1 + Largest(s);
  }

  ghost function Largest(s: set<nat>): (m: nat)
    requires s != {}
    ensures m in s && forall x :: x in s ==> x <= m
  {
    var x :| x in s;
    if s == {x} then x
    else
      var m := Largest(s - {x});
      assert s == (s - {x}) + {x};
      if x <= m then m else x
  }
}

/** Characters and text as the platform's string functions see them. */
module Text {

  predicate IsDigit(c: char) { '0' <= c <= '9' }

  predicate Blank(c: char) {
    || '\t' <= c <= '\r' || c == ' ' || c == '\U{00A0}' || c == '\U{1680}' || '\U{2000}' <= c <= '\U{200A}'
    || c == '\U{2028}' || c == '\U{2029}' || c == '\U{202F}' || c == '\U{205F}' || c == '\U{3000}' || c == '\U{FEFF}'
  }

  function TrimStart(s: string): (r: string)
    ensures r == "" <==> forall c :: c in s ==> Blank(c)
    ensures r != "" ==> !Blank(r[0])
  {
    if s == "" then ""
    else assert s == [s[0]] + s[1..]; if Blank(s[0]) then TrimStart(s[1..]) else s
  }

  function TrimEnd(s: string): (r: string)
    ensures r == "" <==> forall c :: c in s ==> Blank(c)
    ensures r != "" ==> !Blank(r[|r| - 1]) && r[0] == s[0]
  {
    if s == "" then ""
    else assert s == s[..|s| - 1] + [s[|s| - 1]]; if Blank(s[|s| - 1]) then TrimEnd(s[..|s| - 1]) else s
  }

  /** `text.trim()` */
  function Trim(s: string): (r: string)
    ensures r == "" <==> forall c :: c in s ==> Blank(c)
    ensures r != "" ==> !Blank(r[0]) && !Blank(r[|r| - 1])
  {
    TrimEnd(TrimStart(s))
  }

  lemma TrimKeeps(s: string)
    requires s == "" || (!Blank(s[0]) && !Blank(s[|s| - 1]))
    ensures Trim(s) == s
  {}

  /** Index of the first `c` at or after `from`, or the length when there is none. */
  function Find(s: string, c: char, from: nat): (i: nat)
    requires from <= |s|
    ensures from <= i <= |s|
    ensures forall j :: from <= j < i ==> s[j] != c
    ensures i < |s| ==> s[i] == c
    decreases |s| - from
  {
    if from == |s| || s[from] == c then from else Find(s, c, from + 1)
  }
}
