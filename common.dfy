/** Small helpers shared by the backend and the bot models. */
module Common {

  datatype Option<T> = None | Some(value: T)

  /** Index of the first element satisfying `p`, as a query's `.first()`
      or a `for ... break` search returns it. */
  function FindFirst<T>(s: seq<T>, p: T -> bool): (r: Option<nat>)
    ensures r.Some? ==> r.value < |s| && p(s[r.value])
    ensures r.Some? ==> forall j :: 0 <= j < r.value ==> !p(s[j])
    ensures r.None? <==> forall j :: 0 <= j < |s| ==> !p(s[j])
    decreases |s|
  {
    if s == [] then None
    else if p(s[0]) then Some(0)
    else match FindFirst(s[1..], p)
      case None => None
      case Some(k) => Some(k + 1)
  }

  /** The number of elements satisfying `p`, as a query's `.count()`. */
  function CountWhere<T>(s: seq<T>, p: T -> bool): (n: nat)
    ensures n <= |s|
    ensures n == 0 <==> forall j :: 0 <= j < |s| ==> !p(s[j])
    decreases |s|
  {
    if s == [] then 0
    else (if p(s[0]) then 1 else 0) + CountWhere(s[1..], p)
  }

  /** Counting over a concatenation adds up. */
  lemma {:induction false} CountWhereAppend<T>(a: seq<T>, b: seq<T>, p: T -> bool)
    ensures CountWhere(a + b, p) == CountWhere(a, p) + CountWhere(b, p)
    decreases |a|
  {
    if a == [] {
      assert a + b == b;
    } else {
      assert (a + b)[1..] == a[1..] + b;
      CountWhereAppend(a[1..], b, p);
    }
  }

  /** Removing element `k` lowers the count by one exactly when it satisfies `p`. */
  lemma {:induction false} CountWhereRemove<T>(s: seq<T>, k: nat, p: T -> bool)
    requires k < |s|
    ensures CountWhere(s[..k] + s[k + 1..], p) + (if p(s[k]) then 1 else 0) == CountWhere(s, p)
  {
    var front, x, back := s[..k], [s[k]], s[k + 1..];
    assert s == front + (x + back);
    assert (x + back)[1..] == back;
    assert CountWhere(x + back, p) == (if p(s[k]) then 1 else 0) + CountWhere(back, p);
    CountWhereAppend(front, x + back, p);
    CountWhereAppend(front, back, p);
  }

  /** Replacing element `k` by `x` changes the count by what `x` and the
      old element contribute. */
  lemma {:induction false} CountWhereUpdate<T>(s: seq<T>, k: nat, x: T, p: T -> bool)
    requires k < |s|
    ensures CountWhere(s[k := x], p) + (if p(s[k]) then 1 else 0) == CountWhere(s, p) + (if p(x) then 1 else 0)
  {
    var t := s[k := x];
    CountWhereRemove(s, k, p);
    CountWhereRemove(t, k, p);
    assert t[..k] + t[k + 1..] == s[..k] + s[k + 1..];
  }

  /** The largest key in `s`, or 0 for an empty sequence: one less than the
      row id an SQLite `INTEGER PRIMARY KEY` column hands out next. */
  function MaxKey<T>(s: seq<T>, key: T -> int): (m: int)
    ensures m >= 0
    ensures forall j :: 0 <= j < |s| ==> key(s[j]) <= m
    decreases |s|
  {
    if s == [] then 0
    else
      var rest := MaxKey(s[1..], key);
      if key(s[0]) > rest then key(s[0]) else rest
  }
}
