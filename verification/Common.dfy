/** Vocabulary shared by every module: optional values, the clock's unit, and
    the text ordering PostgreSQL and Python sort identifiers by. */
module Common {

  datatype Option<+T> = None | Some(value: T)

  // Instants are whole microseconds, the resolution of `timestamptz` and of
  // Python's `datetime`.
  const SECOND: int := 1_000_000

  // Text ordering by code point.
  predicate Leq(a: string, b: string)
    decreases |a|
  {
    a == "" || (b != "" && (a[0] < b[0] || (a[0] == b[0] && Leq(a[1..], b[1..]))))
  }

  lemma {:induction false} LeqTotal(a: string, b: string)
    ensures Leq(a, b) || Leq(b, a)
    decreases |a|
  {
    if a != "" && b != "" { LeqTotal(a[1..], b[1..]); }
  }

  lemma {:induction false} LeqAntisymmetric(a: string, b: string)
    requires Leq(a, b) && Leq(b, a)
    ensures a == b
    decreases |a|
  {
    if a != "" && b != "" {
      LeqAntisymmetric(a[1..], b[1..]);
      assert a == [a[0]] + a[1..] && b == [b[0]] + b[1..];
    }
  }

  lemma {:induction false} LeqTransitive(a: string, b: string, c: string)
    requires Leq(a, b) && Leq(b, c)
    ensures Leq(a, c)
    decreases |a|
  {
    if a != "" && a[0] == b[0] && b[0] == c[0] { LeqTransitive(a[1..], b[1..], c[1..]); }
  }

  predicate IsLeast(among: set<string>, least: string) {
    least in among && forall x :: x in among ==> Leq(least, x)
  }

  lemma {:induction false} LeastExists(among: set<string>)
    requires among != {}
    ensures exists least :: IsLeast(among, least)
  {
    var x :| x in among;
    LeqTotal(x, x);
    if among == {x} {
      assert IsLeast(among, x);
    } else {
      LeastExists(among - {x});
      var y :| IsLeast(among - {x}, y);
      LeqTotal(x, y);
      var least := if Leq(x, y) then x else y;
      forall z | z in among ensures Leq(least, z) {
        if z != x && Leq(x, y) { LeqTransitive(x, y, z); }
      }
      assert IsLeast(among, least);
    }
  }

  lemma LeastIsUnique(among: set<string>)
    ensures forall a, b :: IsLeast(among, a) && IsLeast(among, b) ==> a == b
  {
    forall a, b | IsLeast(among, a) && IsLeast(among, b) ensures a == b { LeqAntisymmetric(a, b); }
  }

  function Least(among: set<string>): (least: string)
    requires among != {}
    ensures IsLeast(among, least)
  {
    LeastExists(among);
    LeastIsUnique(among);
    var least :| least in among && IsLeast(among, least);
    least
  }

  // How far a text goes before it has this character, if it has.
  function UpTo(s: string, c: char): nat { if s == "" || s[0] == c then 0 else 1 + UpTo(s[1..], c) }

  lemma {:induction false} UpToFinds(a: string, c: char, rest: string)
    requires c !in a
    ensures UpTo(a, c) == |a| && UpTo(a + [c] + rest, c) == |a|
  {
    if a != "" {
      assert (a + [c] + rest)[1..] == a[1..] + [c] + rest;
      UpToFinds(a[1..], c, rest);
    }
  }

  lemma {:induction false} UpToSplits(s: string, c: char)
    requires c in s
    ensures UpTo(s, c) < |s| && s[UpTo(s, c)] == c && c !in s[..UpTo(s, c)]
    ensures s == s[..UpTo(s, c)] + [c] + s[UpTo(s, c) + 1..]
    decreases |s|
  {
    if s[0] != c {
      UpToSplits(s[1..], c);
      assert s[..UpTo(s, c)] == [s[0]] + s[1..][..UpTo(s[1..], c)];
    }
  }
}
