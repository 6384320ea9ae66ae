/** Header names as the built request's `TreeMap(String.CASE_INSENSITIVE_ORDER)`
    compares them, plus a total order on names used to make the choice among
    colliding builder keys deterministic. */
module HeaderNames {

  /** Case folding of one character. Only the ASCII letters are folded;
      `CASE_INSENSITIVE_ORDER` also equates other case pairs. */
  function FoldChar(c: char): char
  {
    if 'A' <= c <= 'Z' then (c as int + 32) as char else c
  }

  /** The case-folded form of a name. For names made of ASCII characters,
      two names are equal under `CASE_INSENSITIVE_ORDER` exactly when their
      folded forms are equal; for other characters the model is stricter
      than the source. */
  function Fold(s: string): (f: string)
    ensures |f| == |s|
    ensures forall i :: 0 <= i < |s| ==> f[i] == FoldChar(s[i])
  {
    if s == [] then [] else [FoldChar(s[0])] + Fold(s[1..])
  }

  /** Lexicographic code-point order on names. */
  predicate NameLe(a: string, b: string)
    decreases |a|
  {
    a == [] || (b != [] && (a[0] < b[0] || (a[0] == b[0] && NameLe(a[1..], b[1..]))))
  }

  lemma {:induction false} NameLeAntisymmetric(a: string, b: string)
    requires NameLe(a, b) && NameLe(b, a)
    ensures a == b
    decreases |a|
  {
    if a != [] && b != [] {
      NameLeAntisymmetric(a[1..], b[1..]);
      assert a == [a[0]] + a[1..];
      assert b == [b[0]] + b[1..];
    }
  }

  lemma {:induction false} NameLeTotal(a: string, b: string)
    ensures NameLe(a, b) || NameLe(b, a)
    decreases |a|
  {
    if a != [] && b != [] && a[0] == b[0] {
      NameLeTotal(a[1..], b[1..]);
    }
  }

  lemma {:induction false} NameLeTransitive(a: string, b: string, c: string)
    requires NameLe(a, b) && NameLe(b, c)
    ensures NameLe(a, c)
    decreases |a|
  {
    if a != [] && b != [] && c != [] && a[0] == b[0] && b[0] == c[0] {
      NameLeTransitive(a[1..], b[1..], c[1..]);
    }
  }

  /** Every finite non-empty set of names has a least element. */
  lemma {:induction false} LeastExists(s: set<string>)
    requires s != {}
    ensures exists m :: m in s && IsLeast(m, s)
    decreases |s|
  {
    var y :| y in s;
    if s == {y} {
      NameLeTotal(y, y);
      assert IsLeast(y, s);
    } else {
      var rest := s - {y};
      LeastExists(rest);
      var m :| m in rest && IsLeast(m, rest);
      NameLeTotal(m, y);
      if NameLe(m, y) {
        LeastOfInsert(m, rest, y);
        assert rest + {y} == s;
      } else {
        BelowLeast(y, m, rest);
        assert rest + {y} == s;
      }
    }
  }

  predicate IsLeast(m: string, s: set<string>)
  {
    forall x :: x in s ==> NameLe(m, x)
  }

  lemma LeastOfInsert(m: string, rest: set<string>, y: string)
    requires IsLeast(m, rest) && NameLe(m, y)
    ensures IsLeast(m, rest + {y})
  {
  }

  lemma BelowLeast(y: string, m: string, rest: set<string>)
    requires IsLeast(m, rest) && NameLe(y, m)
    ensures IsLeast(y, rest + {y})
  {
    forall x | x in rest + {y}
      ensures NameLe(y, x)
    {
      if x == y {
        NameLeTotal(y, y);
      } else {
        NameLeTransitive(y, m, x);
      }
    }
  }

  lemma AntisymmetricAll()
    ensures forall a, b :: NameLe(a, b) && NameLe(b, a) ==> a == b
  {
    forall a, b | NameLe(a, b) && NameLe(b, a)
      ensures a == b
    {
      NameLeAntisymmetric(a, b);
    }
  }

  /** The least name of a non-empty set. */
  function Least(s: set<string>): (m: string)
    requires s != {}
    ensures m in s
    ensures forall x :: x in s ==> NameLe(m, x)
  {
    LeastExists(s);
    AntisymmetricAll();
    var m :| m in s && IsLeast(m, s);
    m
  }
}
