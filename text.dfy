/** Text comparisons the SKU queries rely on: ORDER BY on a text column and
    ILIKE pattern matching for the name search. */
module Text {

  /** Lower-casing of ASCII letters; every other character is its own lower case. */
  function Lower(c: char): char
  {
    if 'A' <= c <= 'Z' then (c as int - 'A' as int + 'a' as int) as char else c
  }

  /** Text order, by character code: a proper prefix sorts first. */
  predicate LexLe(a: string, b: string)
  {
    if a == [] then true
    else if b == [] then false
    else if a[0] != b[0] then a[0] < b[0]
    else LexLe(a[1..], b[1..])
  }

  lemma {:induction false} LexLeTotal(a: string, b: string)
    ensures LexLe(a, b) || LexLe(b, a)
  {
    if a != [] && b != [] && a[0] == b[0] {
      LexLeTotal(a[1..], b[1..]);
    }
  }

  lemma {:induction false} LexLeTransitive(a: string, b: string, c: string)
    requires LexLe(a, b) && LexLe(b, c)
    ensures LexLe(a, c)
  {
    if a != [] && b != [] && c != [] && a[0] == b[0] && b[0] == c[0] {
      LexLeTransitive(a[1..], b[1..], c[1..]);
    }
  }

  lemma {:induction false} LexLeAntisymmetric(a: string, b: string)
    requires LexLe(a, b) && LexLe(b, a)
    ensures a == b
  {
    if a != [] && b != [] {
      LexLeAntisymmetric(a[1..], b[1..]);
      assert a == [a[0]] + a[1..] && b == [b[0]] + b[1..];
    }
  }

  /** s matches the ILIKE pattern p: '%' stands for any run of characters,
      '_' for exactly one, a backslash makes the next character literal, and
      letters compare without regard to case. A pattern that ends in a lone
      backslash matches nothing. */
  predicate Like(s: string, p: string)
    decreases |s| + |p|
  {
    if p == [] then s == []
    else if p[0] == '%' then Like(s, p[1..]) || (s != [] && Like(s[1..], p))
    else if s == [] then false
    else if p[0] == '_' then Like(s[1..], p[1..])
    else if p[0] == '\\' then |p| >= 2 && Lower(s[0]) == Lower(p[1]) && Like(s[1..], p[2..])
    else Lower(s[0]) == Lower(p[0]) && Like(s[1..], p[1..])
  }

  /** Search text in which no character has a special meaning to LIKE. */
  predicate NoWildcards(q: string)
  {
    forall i :: 0 <= i < |q| ==> q[i] != '%' && q[i] != '_' && q[i] != '\\'
  }

  /** q occurs in s at offset i, ignoring case. */
  predicate OccursAt(s: string, q: string, i: int)
  {
    0 <= i && i + |q| <= |s| && forall j :: 0 <= j < |q| ==> Lower(s[i + j]) == Lower(q[j])
  }

  predicate ContainsIgnoringCase(s: string, q: string)
  {
    exists i :: 0 <= i <= |s| && OccursAt(s, q, i)
  }

  lemma {:induction false} LikeAnything(s: string)
    ensures Like(s, "%")
  {
    if s != [] {
      LikeAnything(s[1..]);
    }
  }

  lemma {:induction false} LikePrefix(s: string, q: string)
    requires NoWildcards(q)
    ensures Like(s, q + "%") <==> OccursAt(s, q, 0)
  {
    if q == [] {
      assert q + "%" == "%";
      LikeAnything(s);
    } else {
      var p := q + "%";
      assert p[0] == q[0] && p[1..] == q[1..] + "%";
      assert NoWildcards(q[1..]) by {
        forall i | 0 <= i < |q[1..]| ensures q[1..][i] != '%' && q[1..][i] != '_' && q[1..][i] != '\\' {
          assert q[1..][i] == q[i + 1];
        }
      }
      if s == [] {
      } else {
        LikePrefix(s[1..], q[1..]);
        assert Like(s, p) <==> Lower(s[0]) == Lower(q[0]) && Like(s[1..], q[1..] + "%");
        if OccursAt(s, q, 0) {
          assert Lower(s[0 + 0]) == Lower(q[0]);
          forall j | 0 <= j < |q[1..]| ensures Lower(s[1..][0 + j]) == Lower(q[1..][j]) {
            assert Lower(s[0 + (j + 1)]) == Lower(q[j + 1]);
          }
          assert OccursAt(s[1..], q[1..], 0);
        }
        if Lower(s[0]) == Lower(q[0]) && OccursAt(s[1..], q[1..], 0) {
          forall j | 0 <= j < |q| ensures Lower(s[0 + j]) == Lower(q[j]) {
            if j > 0 {
              assert Lower(s[1..][0 + (j - 1)]) == Lower(q[1..][j - 1]);
            }
          }
        }
      }
    }
  }

  lemma {:induction false} LikeSkip(s: string, p: string)
    ensures Like(s, "%" + p) <==> exists i :: 0 <= i <= |s| && Like(s[i..], p)
  {
    assert ("%" + p)[0] == '%' && ("%" + p)[1..] == p;
    assert s[0..] == s;
    if s != [] {
      LikeSkip(s[1..], p);
      if Like(s[1..], "%" + p) {
        var i :| 0 <= i <= |s[1..]| && Like(s[1..][i..], p);
        assert s[1..][i..] == s[i + 1..];
      }
      if exists i :: 0 <= i <= |s| && Like(s[i..], p) {
        var i :| 0 <= i <= |s| && Like(s[i..], p);
        if i > 0 {
          assert s[1..][i - 1..] == s[i..];
        }
      }
    }
  }

  lemma OccursShift(s: string, q: string, i: int)
    requires 0 <= i <= |s|
    ensures OccursAt(s[i..], q, 0) <==> OccursAt(s, q, i)
  {
    if OccursAt(s, q, i) {
      forall j | 0 <= j < |q| ensures Lower(s[i..][0 + j]) == Lower(q[j]) {
        assert s[i..][j] == s[i + j];
      }
    }
    if OccursAt(s[i..], q, 0) {
      forall j | 0 <= j < |q| ensures Lower(s[i + j]) == Lower(q[j]) {
        assert s[i..][0 + j] == s[i + j];
      }
    }
  }

  /** The name search of the SKU list wraps the search text in '%'. When that
      text holds no wildcard characters, the pattern matches exactly the names
      that contain it, ignoring case. */
  lemma SearchIsSubstring(s: string, q: string)
    requires NoWildcards(q)
    ensures Like(s, "%" + q + "%") <==> ContainsIgnoringCase(s, q)
  {
    assert "%" + q + "%" == "%" + (q + "%");
    LikeSkip(s, q + "%");
    if Like(s, "%" + q + "%") {
      var i :| 0 <= i <= |s| && Like(s[i..], q + "%");
      LikePrefix(s[i..], q);
      OccursShift(s, q, i);
    }
    if ContainsIgnoringCase(s, q) {
      var i :| 0 <= i <= |s| && OccursAt(s, q, i);
      OccursShift(s, q, i);
      LikePrefix(s[i..], q);
    }
  }
}
