/** SQLite's `LIKE` operator as the list endpoint uses it: no ESCAPE clause,
    `%` matches any run of characters, `_` matches exactly one character, and
    every other pattern character matches a text character equal to it after
    ASCII case folding. */
module SqlLike {
  import opened Strings

  predicate Like(s: string, p: string)
    decreases |s| + |p|
  {
    if p == [] then s == []
    else if p[0] == '%' then Like(s, p[1..]) || (s != [] && Like(s[1..], p))
    else s != [] && (p[0] == '_' || LowerChar(s[0]) == LowerChar(p[0])) && Like(s[1..], p[1..])
  }

  /** The filter value holds neither LIKE wildcard. */
  predicate NoWildcards(v: string) {
    '%' !in v && '_' !in v
  }

  /** `v` occurs in `s` at position `i`, ignoring ASCII case. */
  predicate MatchesAt(s: string, v: string, i: nat) {
    i + |v| <= |s| && Lower(s[i..i + |v|]) == Lower(v)
  }

  /** `v` occurs in `s` once both are ASCII lower-cased. */
  predicate ContainsNoCase(s: string, v: string) {
    exists i: nat :: i <= |s| && MatchesAt(s, v, i)
  }

  lemma {:induction false} PercentMatchesAll(t: string)
    ensures Like(t, "%")
  {
    if t != [] {
      PercentMatchesAll(t[1..]);
    }
  }

  /** A leading `%` lets the rest of the pattern match any suffix. */
  lemma {:induction false} LeadingPercent(s: string, q: string)
    ensures Like(s, "%" + q) <==> exists i :: 0 <= i <= |s| && Like(s[i..], q)
  {
    assert ("%" + q)[1..] == q;
    assert s[0..] == s;
    if s != [] {
      LeadingPercent(s[1..], q);
      if Like(s[1..], "%" + q) {
        var j :| 0 <= j <= |s| - 1 && Like(s[1..][j..], q);
        assert s[1..][j..] == s[j + 1..];
      }
      if i :| 0 < i <= |s| && Like(s[i..], q) {
        assert s[1..][i - 1..] == s[i..];
      }
    }
  }

  /** A wildcard-free value followed by `%` matches exactly the texts that
      start with that value, ignoring ASCII case. */
  lemma {:induction false} PrefixPercent(t: string, v: string)
    requires NoWildcards(v)
    ensures Like(t, v + "%") <==> |v| <= |t| && Lower(t[..|v|]) == Lower(v)
  {
    if v == [] {
      assert v + "%" == "%";
      PercentMatchesAll(t);
      assert Lower(t[..0]) == Lower(v);
    } else {
      assert (v + "%")[0] == v[0];
      assert (v + "%")[1..] == v[1..] + "%";
      if t != [] {
        PrefixPercent(t[1..], v[1..]);
        if |v| <= |t| {
          var u := t[..|v|];
          assert t[1..][..|v| - 1] == t[1..|v|] == u[1..];
          assert u[0] == t[0];
          assert Lower(u) == [LowerChar(t[0])] + Lower(t[1..|v|]);
          assert Lower(v) == [LowerChar(v[0])] + Lower(v[1..]);
          assert Lower(u) == Lower(v) <==>
            LowerChar(t[0]) == LowerChar(v[0]) && Lower(t[1..|v|]) == Lower(v[1..]) by {
            if Lower(u) == Lower(v) {
              assert Lower(u)[0] == Lower(v)[0];
              assert Lower(u)[1..] == Lower(v)[1..];
            }
          }
        }
      }
    }
  }

  /** `LIKE '%v%'` is a case-insensitive substring test when `v` holds no
      wildcard. */
  lemma ContainsPattern(s: string, v: string)
    requires NoWildcards(v)
    ensures Like(s, "%" + v + "%") <==> ContainsNoCase(s, v)
  {
    assert "%" + v + "%" == "%" + (v + "%");
    LeadingPercent(s, v + "%");
    if Like(s, "%" + v + "%") {
      var i :| 0 <= i <= |s| && Like(s[i..], v + "%");
      PrefixPercent(s[i..], v);
      assert s[i..][..|v|] == s[i..i + |v|];
      assert MatchesAt(s, v, i);
    }
    if ContainsNoCase(s, v) {
      var i: nat :| i <= |s| && MatchesAt(s, v, i);
      PrefixPercent(s[i..], v);
      assert s[i..][..|v|] == s[i..i + |v|];
    }
  }

  /** Wildcards make the value a pattern, not a substring: `_` matches a
      text that does not contain an underscore. */
  lemma UnderscoreIsAWildcard()
    ensures Like("Target", "%" + "T_rget" + "%")
    ensures !ContainsNoCase("Target", "T_rget")
  {
    assert "%" + "T_rget" + "%" == "%T_rget%";
    UnderscoreMatchesTarget();
    TargetLacksUnderscore();
  }

  lemma UnderscoreMatchesTarget()
    ensures Like("Target", "%T_rget%")
  {
    assert Like("", "%");
    assert Like("Target", "T_rget%");
  }

  lemma TargetLacksUnderscore()
    ensures !ContainsNoCase("Target", "T_rget")
  {
    assert Lower("T_rget")[1] == '_';
    forall i: nat
      ensures !MatchesAt("Target", "T_rget", i)
    {
      if i == 0 {
        assert Lower("Target"[0..6])[1] == 'a';
      }
    }
  }
}
