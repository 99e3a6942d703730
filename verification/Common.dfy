/** Small datatypes shared by the other modules. */
module Common {

  datatype Option<+T> = None | Some(value: T)

  /** The elements of `s` that satisfy `keep`, in their original order. */
  function Select<T>(s: seq<T>, keep: T -> bool): (r: seq<T>) {
    if s == [] then []
    else (if keep(s[0]) then [s[0]] else []) + Select(s[1..], keep)
  }

  lemma {:induction false} SelectMembers<T>(s: seq<T>, keep: T -> bool)
    ensures forall x :: x in Select(s, keep) <==> x in s && keep(x)
  {
    if s == [] {
    } else {
      SelectMembers(s[1..], keep);
      assert s == [s[0]] + s[1..];
    }
  }

  lemma {:induction false} SelectAppend<T>(s: seq<T>, x: T, keep: T -> bool)
    ensures Select(s + [x], keep) == Select(s, keep) + if keep(x) then [x] else []
  {
    if s == [] {
    } else {
      SelectAppend(s[1..], x, keep);
      assert (s + [x])[1..] == s[1..] + [x];
    }
  }

  lemma {:induction false} SelectConcat<T>(s: seq<T>, t: seq<T>, keep: T -> bool)
    ensures Select(s + t, keep) == Select(s, keep) + Select(t, keep)
  {
    if t == [] {
      assert s + t == s;
    } else {
      var front, last := t[..|t| - 1], t[|t| - 1];
      var a, b, x := Select(s, keep), Select(front, keep), if keep(last) then [last] else [];
      SelectConcat(s, front, keep);
      SelectAppend(s + front, last, keep);
      SelectAppend(front, last, keep);
      assert s + t == (s + front) + [last] && t == front + [last];
      assert (a + b) + x == a + (b + x);
    }
  }

  lemma {:induction false} SelectAgrees<T>(s: seq<T>, p: T -> bool, q: T -> bool)
    requires forall x | x in s :: p(x) == q(x)
    ensures Select(s, p) == Select(s, q)
  {
    if s == [] {
    } else {
      SelectAgrees(s[1..], p, q);
    }
  }

  lemma {:induction false} SelectNone<T>(s: seq<T>, keep: T -> bool)
    requires forall x | x in s :: !keep(x)
    ensures Select(s, keep) == []
  {
    if s == [] {
    } else {
      SelectNone(s[1..], keep);
    }
  }

  /** Selecting everything changes nothing, and nothing short of that does. */
  lemma {:induction false} SelectAllIff<T>(s: seq<T>, keep: T -> bool)
    ensures |Select(s, keep)| <= |s|
    ensures Select(s, keep) == s <==> forall x | x in s :: keep(x)
  {
    if s == [] {
    } else {
      SelectAllIff(s[1..], keep);
      assert s == [s[0]] + s[1..];
      if keep(s[0]) {
        assert Select(s, keep)[1..] == Select(s[1..], keep);
      } else {
        assert |Select(s, keep)| < |s|;
      }
    }
  }

  function Both<T>(p: T -> bool, q: T -> bool): T -> bool {
    x => p(x) && q(x)
  }

  lemma {:induction false} SelectTwice<T>(s: seq<T>, p: T -> bool, q: T -> bool)
    ensures Select(Select(s, p), q) == Select(s, Both(p, q))
  {
    if s == [] {
    } else {
      SelectTwice(s[1..], p, q);
      var head := if p(s[0]) then [s[0]] else [];
      SelectConcat(head, Select(s[1..], p), q);
      assert Select(s, p) == head + Select(s[1..], p);
    }
  }
}
