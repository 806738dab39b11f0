/** SQL's LIKE with the default escape character, as PostgreSQL matches it. */
module LikePattern {
  import opened Text

  /** `%` matches any run of characters, `_` any one character, `\` makes the next character literal. */
  predicate Like(s: string, p: string)
    decreases |s| + |p|
  {
    if p == "" then s == ""
    else if p[0] == '%' then Like(s, p[1..]) || (s != "" && Like(s[1..], p))
    else if s == "" then false
    else if p[0] == '_' then Like(s[1..], p[1..])
    else if p[0] == '\\' then |p| >= 2 && s[0] == p[1] && Like(s[1..], p[2..])
    else s[0] == p[0] && Like(s[1..], p[1..])
  }

  predicate Plain(s: string) {
    forall i :: 0 <= i < |s| ==> s[i] !in "%_\\"
  }

  predicate NoEscape(s: string) {
    forall i :: 0 <= i < |s| ==> s[i] != '\\'
  }

  lemma {:induction false} PercentMatchesAll(s: string)
    ensures Like(s, "%")
  {
    if s == "" {
      assert "%"[1..] == "";
    } else {
      PercentMatchesAll(s[1..]);
    }
  }

  /** A percent sign stands for any run of characters. */
  lemma {:induction false} PercentIsAnyRun(s: string, p: string)
    ensures Like(s, "%" + p) <==> exists k :: 0 <= k <= |s| && Like(s[k..], p)
  {
    var q := "%" + p;
    assert q[1..] == p && s[0..] == s;
    if s != "" {
      PercentIsAnyRun(s[1..], p);
      forall k | 0 <= k < |s| ensures s[1..][k..] == s[k + 1..] {
      }
      if Like(s[1..], q) {
        var k :| 0 <= k <= |s[1..]| && Like(s[1..][k..], p);
        assert Like(s[k + 1..], p);
      }
      forall k | 1 <= k <= |s| && Like(s[k..], p) ensures Like(s[1..], q) {
        assert Like(s[1..][k - 1..], p);
      }
    } else {
      assert s[|s|..] == s;
    }
  }

  /** With a prefix free of metacharacters, `prefix%` matches exactly the strings that start with it. */
  lemma {:induction false} PlainPrefix(s: string, prefix: string)
    requires Plain(prefix)
    ensures Like(s, prefix + "%") <==> prefix <= s
  {
    if prefix == "" {
      assert prefix + "%" == "%";
      PercentMatchesAll(s);
    } else {
      var p := prefix + "%";
      assert p[1..] == prefix[1..] + "%";
      if s != "" {
        PlainPrefix(s[1..], prefix[1..]);
        if s[0] == prefix[0] {
          assert s == [s[0]] + s[1..] && prefix == [prefix[0]] + prefix[1..];
        }
      }
    }
  }

  /** Even with wildcards in it, a prefix without escapes matches every string that starts with it. */
  lemma {:induction false} PrefixMatchesItself(prefix: string, rest: string)
    requires NoEscape(prefix)
    ensures Like(prefix + rest, prefix + "%")
  {
    if prefix == "" {
      assert prefix + "%" == "%";
      PercentMatchesAll(prefix + rest);
    } else {
      var s, p := prefix + rest, prefix + "%";
      assert p[1..] == prefix[1..] + "%" && s[1..] == prefix[1..] + rest;
      PrefixMatchesItself(prefix[1..], rest);
      if p[0] == '%' {
        AbsorbOne(s, p);
      }
    }
  }

  lemma {:induction false} AbsorbOne(s: string, p: string)
    requires s != "" && p != "" && p[0] == '%' && Like(s[1..], p[1..])
    ensures Like(s, p)
  {
  }

  /** A common plain head takes no part in the match. */
  lemma {:induction false} LikeAfterPlainHead(head: string, s: string, p: string)
    requires Plain(head)
    ensures Like(head + s, head + p) <==> Like(s, p)
  {
    if head == "" {
      assert head + s == s && head + p == p;
    } else {
      LikeAfterPlainHead(head[1..], s, p);
      assert (head + s)[1..] == head[1..] + s && (head + p)[1..] == head[1..] + p;
    }
  }

  // ---------------------------------------------------------------- patterns of the form name:%

  /** The pattern made of one tenant reaches the names made of another: the only test that matters. */
  predicate Reaches(u: string, t: string) {
    Like(t + ":", u + ":%")
  }

  lemma {:induction false} TailOfPattern(y: string, k: nat)
    requires k <= |y|
    ensures (y + ":%")[k..] == y[k..] + ":%"
  {
  }

  /** Such a pattern needs a colon in the string. */
  lemma {:induction false} NoColonNoMatch(s: string, y: string)
    requires Lacks(s, ':')
    ensures !Like(s, y + ":%")
    decreases |s| + |y|
  {
    if y == "" {
      assert y + ":%" == ":%";
    } else {
      TailOfPattern(y, 1);
      NoColonNoMatch(s, y[1..]);
      if s != "" {
        NoColonNoMatch(s[1..], y);
        NoColonNoMatch(s[1..], y[1..]);
        if |y| >= 2 {
          TailOfPattern(y, 2);
          NoColonNoMatch(s[1..], y[2..]);
        }
      }
    }
  }

  /** What follows the last colon of the string takes no part in the match. */
  lemma {:induction false} TailIsIgnored(s: string, rest: string, y: string)
    requires Lacks(rest, ':')
    ensures Like(s + rest, y + ":%") <==> Like(s, y + ":%")
    decreases |s| + |y|
  {
    if s == "" {
      assert s + rest == rest;
      NoColonNoMatch(rest, y);
      NoColonNoMatch("", y);
    } else {
      var long, p := s + rest, y + ":%";
      assert long[0] == s[0] && long[1..] == s[1..] + rest;
      if y == "" {
        assert p == ":%" && p[1..] == "%";
        PercentMatchesAll(long[1..]);
        PercentMatchesAll(s[1..]);
      } else if y[0] == '%' {
        TailOfPattern(y, 1);
        TailIsIgnored(s, rest, y[1..]);
        TailIsIgnored(s[1..], rest, y);
      } else if y == "\\" {
        assert p == "\\:%" && p[2..] == "%";
        PercentMatchesAll(long[1..]);
        PercentMatchesAll(s[1..]);
      } else if y[0] == '\\' {
        TailOfPattern(y, 2);
        TailIsIgnored(s[1..], rest, y[2..]);
      } else {
        TailOfPattern(y, 1);
        TailIsIgnored(s[1..], rest, y[1..]);
      }
    }
  }

  /** Under a common plain head, the pattern of u matches a name of t exactly when u reaches t, whatever the name. */
  lemma {:induction false} MatchesIffReaches(head: string, t: string, suffix: string, u: string)
    requires Plain(head) && Lacks(suffix, ':')
    ensures Like(head + t + ":" + suffix, head + u + ":" + "%") <==> Reaches(u, t)
  {
    assert head + t + ":" + suffix == head + (t + ":" + suffix);
    assert head + u + ":" + "%" == head + (u + ":%");
    LikeAfterPlainHead(head, t + ":" + suffix, u + ":%");
    TailIsIgnored(t + ":", suffix, u);
  }

  /** A tenant without a backslash reaches itself, wildcards or not. */
  lemma {:induction false} EscapeFreeReachesItself(t: string)
    requires NoEscape(t)
    ensures Reaches(t, t)
  {
    PrefixMatchesItself(t + ":", "");
    assert t + ":" + "" == t + ":" && t + ":" + "%" == t + ":%";
  }

  /** A tenant free of metacharacters and colons reaches, among colon-free ones, only itself. */
  lemma {:induction false} PlainReachesOnlyItself(u: string, t: string)
    requires Plain(u) && Lacks(u, ':') && Lacks(t, ':')
    ensures Reaches(u, t) <==> u == t
  {
    assert u + ":" + "%" == u + ":%";
    PlainPrefix(t + ":", u + ":");
    if u + ":" <= t + ":" {
      HeadIsUnique(u, (t + ":")[|u| + 1..], t, "", ':');
    }
  }

  /** Wildcards reach further: an underscore reaches every tenant that differs from it in that one character. */
  lemma {:induction false} UnderscoreReaches(a: string, c: char, b: string)
    requires Plain(a) && Plain(b)
    ensures Reaches(a + "_" + b, a + [c] + b)
  {
    var s, p := [c] + (b + ":"), "_" + (b + ":%");
    assert a + [c] + b + ":" == a + s && a + "_" + b + ":%" == a + p;
    LikeAfterPlainHead(a, s, p);
    assert s[1..] == b + ":" && p[1..] == b + ":%";
    EscapeFreeReachesItself(b);
  }

  /** A lone backslash does not even reach itself: it turns the colon after it into the character to match. */
  lemma {:induction false} BackslashReachesNothingOfItself()
    ensures !Reaches("\\", "\\")
  {
    assert "\\" + ":" == "\\:" && "\\" + ":%" == "\\:%";
  }
}
