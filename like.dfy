/**
 * SQLite's `LIKE` operator as the search queries use it: `%` matches any run of
 * characters, `_` exactly one, and letters compare ASCII-case-insensitively
 * (SQLite's default; no ESCAPE clause).
 */
module SqlLike {

  import opened Wrappers

  /** SQLite's case folding for LIKE: only the ASCII letters A-Z. */
  function FoldCase(c: char): char {
    if 'A' <= c <= 'Z' then (c as int + 32) as char else c
  }

  /** `s LIKE pattern`. */
  predicate Like(pattern: string, s: string)
    decreases |pattern| + |s|
  {
    if pattern == [] then s == []
    else if pattern[0] == '%' then Like(pattern[1..], s) || (s != [] && Like(pattern, s[1..]))
    else s != [] && (pattern[0] == '_' || FoldCase(pattern[0]) == FoldCase(s[0])) && Like(pattern[1..], s[1..])
  }

  /** The pattern `'%' || q || '%'` the search queries build around the user's text. */
  function ContainsPattern(q: string): string {
    "%" + q + "%"
  }

  predicate NoWildcards(q: string) {
    forall i :: 0 <= i < |q| ==> q[i] != '%' && q[i] != '_'
  }

  /** `a` and `b` are equal up to ASCII case. */
  predicate FoldEq(a: string, b: string) {
    |a| == |b| && forall i :: 0 <= i < |a| ==> FoldCase(a[i]) == FoldCase(b[i])
  }

  /** `q` occurs in `s` at position `i`, up to ASCII case. */
  predicate OccursAt(s: string, q: string, i: int) {
    0 <= i && i + |q| <= |s| && FoldEq(s[i..i + |q|], q)
  }

  /** `q` occurs somewhere in `s`, up to ASCII case: the reference meaning of a search. */
  predicate ContainsFold(s: string, q: string) {
    exists i :: 0 <= i <= |s| && OccursAt(s, q, i)
  }

  lemma {:induction false} PercentMatchesAll(s: string)
    ensures Like("%", s)
    decreases |s|
  {
    if s != [] {
      PercentMatchesAll(s[1..]);
    }
  }

  /** With an empty search text the pattern is `%%`, which every string matches. */
  lemma EmptyQueryMatchesAll(s: string)
    ensures Like(ContainsPattern(""), s)
  {
    assert ContainsPattern("") == "%%";
    assert "%%"[1..] == "%";
    PercentMatchesAll(s);
  }

  lemma {:induction false} PrefixMatch(q: string, s: string)
    requires NoWildcards(q)
    ensures Like(q + "%", s) <==> |q| <= |s| && FoldEq(s[..|q|], q)
    decreases |q|
  {
    if q == [] {
      assert q + "%" == "%";
      PercentMatchesAll(s);
    } else {
      var p := q + "%";
      assert p[0] == q[0] && p[1..] == q[1..] + "%";
      if s != [] {
        PrefixMatch(q[1..], s[1..]);
        if |q| <= |s| && FoldEq(s[..|q|], q) {
          assert FoldEq(s[1..][..|q| - 1], q[1..]) by {
            forall i | 0 <= i < |q| - 1
              ensures FoldCase(s[1..][..|q| - 1][i]) == FoldCase(q[1..][i])
            {
              assert s[1..][..|q| - 1][i] == s[..|q|][i + 1];
            }
          }
        }
        if Like(p, s) {
          assert FoldEq(s[..|q|], q) by {
            forall i | 0 <= i < |q|
              ensures FoldCase(s[..|q|][i]) == FoldCase(q[i])
            {
              if i > 0 {
                assert s[..|q|][i] == s[1..][..|q| - 1][i - 1];
              }
            }
          }
        }
      }
    }
  }

  lemma {:induction false} LeadingPercent(r: string, s: string)
    ensures Like("%" + r, s) <==> exists i :: 0 <= i <= |s| && Like(r, s[i..])
    decreases |s|
  {
    var p := "%" + r;
    assert p[0] == '%' && p[1..] == r;
    if s == [] {
      assert s[0..] == s;
    } else {
      LeadingPercent(r, s[1..]);
      if Like(p, s) {
        if !Like(r, s) {
          var i :| 0 <= i <= |s[1..]| && Like(r, s[1..][i..]);
          assert s[1..][i..] == s[i + 1..];
        } else {
          assert s[0..] == s;
        }
      }
      if exists i :: 0 <= i <= |s| && Like(r, s[i..]) {
        var i :| 0 <= i <= |s| && Like(r, s[i..]);
        if i == 0 {
          assert s[0..] == s;
        } else {
          assert s[1..][i - 1..] == s[i..];
        }
      }
    }
  }

  /** Without wildcards in `q`, `s LIKE '%' || q || '%'` holds exactly when `q` occurs in `s`, ignoring ASCII case. */
  lemma LikeIsContainsFold(q: string, s: string)
    requires NoWildcards(q)
    ensures Like(ContainsPattern(q), s) <==> ContainsFold(s, q)
  {
    assert ContainsPattern(q) == "%" + (q + "%");
    LeadingPercent(q + "%", s);
    if Like(ContainsPattern(q), s) {
      var i :| 0 <= i <= |s| && Like(q + "%", s[i..]);
      PrefixMatch(q, s[i..]);
      assert s[i..][..|q|] == s[i..i + |q|];
      assert OccursAt(s, q, i);
    }
    if ContainsFold(s, q) {
      var i :| 0 <= i <= |s| && OccursAt(s, q, i);
      PrefixMatch(q, s[i..]);
      assert s[i..][..|q|] == s[i..i + |q|];
    }
  }

  /**
   * `name LIKE '%' || q || '%' OR contact LIKE '%' || q || '%'`. A NULL name
   * makes its half NULL, so such a row matches only through its contact.
   */
  predicate NameOrContactLike(name: Option<string>, contact: string, q: string) {
    (name.Some? && Like(ContainsPattern(q), name.value)) || Like(ContainsPattern(q), contact)
  }

  /** Without wildcards in `q`, a row matches exactly when its name or its contact contains `q`, ignoring ASCII case. */
  lemma NameOrContactContains(name: Option<string>, contact: string, q: string)
    requires NoWildcards(q)
    ensures NameOrContactLike(name, contact, q) <==> (name.Some? && ContainsFold(name.value, q)) || ContainsFold(contact, q)
  {
    if name.Some? {
      LikeIsContainsFold(q, name.value);
    }
    LikeIsContainsFold(q, contact);
  }

  /** An empty search text matches every row, whatever its name. */
  lemma EmptySearchMatchesAll(name: Option<string>, contact: string)
    ensures NameOrContactLike(name, contact, "")
  {
    EmptyQueryMatchesAll(contact);
  }

  /** The user's text is a pattern: a lone `_` matches every row with a non-empty contact. */
  lemma {:induction false} UnderscoreMatchesAnyContact(name: Option<string>, contact: string)
    requires contact != []
    ensures NameOrContactLike(name, contact, "_")
  {
    assert ContainsPattern("_") == "%" + "_%";
    assert Like("_%", contact) by {
      assert "_%"[1..] == "%";
      PercentMatchesAll(contact[1..]);
    }
    LeadingPercent("_%", contact);
    assert contact[0..] == contact;
  }
}
