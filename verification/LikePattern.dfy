// Name search: escapeLikePattern and the ILIKE condition of ListPlaces,
// cmd/api/main.go:221-224 and 256-258.
module LikePattern {
  predicate IsSpecial(c: char) {
    c == '\\' || c == '%' || c == '_'
  }

  function Escape(s: string): string {
    if s == [] then []
    else (if IsSpecial(s[0]) then ['\\', s[0]] else [s[0]]) + Escape(s[1..])
  }

  // LIKE with ESCAPE '\': % stands for any text, _ for any character, and a
  // backslash makes the next character stand for itself.
  predicate Like(pattern: string, s: string)
    decreases |pattern| + |s|
  {
    if pattern == [] then s == []
    else if pattern[0] == '%' then Like(pattern[1..], s) || (s != [] && Like(pattern, s[1..]))
    else if pattern[0] == '_' then s != [] && Like(pattern[1..], s[1..])
    else if pattern[0] == '\\' then
      // A backslash at the very end is an error in PostgreSQL.
      |pattern| >= 2 && s != [] && s[0] == pattern[1] && Like(pattern[2..], s[1..])
    else s != [] && s[0] == pattern[0] && Like(pattern[1..], s[1..])
  }

  // No backslash at the end: PostgreSQL never reports an error.
  predicate WellFormed(pattern: string) {
    if pattern == [] then true
    else if pattern[0] == '\\' then |pattern| >= 2 && WellFormed(pattern[2..])
    else WellFormed(pattern[1..])
  }

  function Folded(fold: char -> char, s: string): string {
    seq(|s|, i requires 0 <= i < |s| => fold(s[i]))
  }

  // ILIKE compares both sides after folding the case of every character.
  predicate ILike(fold: char -> char, s: string, pattern: string) {
    Like(Folded(fold, pattern), Folded(fold, s))
  }

  // Folding keeps the three special characters and makes no new ones.
  ghost predicate FixesSpecials(fold: char -> char) {
    forall c: char :: (IsSpecial(c) ==> fold(c) == c) && (IsSpecial(fold(c)) ==> IsSpecial(c))
  }

  function SearchPattern(q: string): string {
    "%" + Escape(q) + "%"
  }

  ghost predicate Contains(s: string, q: string) {
    exists i :: 0 <= i <= |s| && StartsAt(s, q, i)
  }

  predicate StartsAt(s: string, q: string, i: nat) {
    i + |q| <= |s| && s[i..i + |q|] == q
  }

  // Why the text is escaped: a bare underscore finds every name that is not
  // empty, and a bare percent sign every name.
  lemma UnescapedOvermatches(name: string)
    ensures Like("%_%", name) <==> name != ""
    ensures Like("%%%", name)
  {
    var one := "%_%"[1..];
    PercentSearches("%_%", name);
    assert one[0] == '_' && one[1..] == "%";
    if name != "" {
      TrailingPercent(name[1..]);
      assert name[0..] == name && Like(one, name[0..]);
    }
    TrailingPercent(name);
    assert "%%"[1..] == "%" && "%%%"[1..] == "%%";
    assert Like("%%", name);
  }

  // Escaping and folding can be done in either order.
  lemma {:induction false} FoldEscape(fold: char -> char, q: string)
    requires FixesSpecials(fold)
    ensures Folded(fold, Escape(q)) == Escape(Folded(fold, q))
  {
    if q != [] {
      var head := if IsSpecial(q[0]) then ['\\', q[0]] else [q[0]];
      FoldEscape(fold, q[1..]);
      assert Folded(fold, q)[1..] == Folded(fold, q[1..]);
      assert IsSpecial('\\');
      assert Folded(fold, head + Escape(q[1..])) == Folded(fold, head) + Folded(fold, Escape(q[1..]));
      assert Folded(fold, head) == if IsSpecial(fold(q[0])) then ['\\', fold(q[0])] else [fold(q[0])];
    }
  }

  lemma {:induction false} TrailingPercent(s: string)
    ensures Like("%", s)
  {
    if s != [] {
      TrailingPercent(s[1..]);
      assert Like("%"[1..], s) || Like("%", s[1..]);
    } else {
      assert "%"[1..] == [] && Like("%"[1..], s);
    }
  }

  lemma StartsAtNext(q: string, s: string)
    requires q != [] && s != []
    ensures StartsAt(s, q, 0) <==> s[0] == q[0] && StartsAt(s[1..], q[1..], 0)
  {
    if |q| <= |s| {
      assert s[..|q|] == [s[0]] + s[1..][..|q| - 1];
      assert q == [q[0]] + q[1..];
    }
  }

  // An escaped character matches itself only.
  lemma EscapedCharMatchesItself(q: string, s: string)
    requires q != []
    ensures Like(Escape(q) + "%", s) <==> s != [] && s[0] == q[0] && Like(Escape(q[1..]) + "%", s[1..])
  {
    var pattern := Escape(q) + "%";
    assert pattern[if IsSpecial(q[0]) then 2 else 1..] == Escape(q[1..]) + "%";
  }

  // Escaped text matches itself and nothing else.
  lemma {:induction false} EscapedMatchesItself(q: string, s: string)
    ensures Like(Escape(q) + "%", s) <==> StartsAt(s, q, 0)
    decreases |q|
  {
    if q == [] {
      TrailingPercent(s);
      assert Escape(q) + "%" == "%";
    } else {
      EscapedCharMatchesItself(q, s);
      if s != [] {
        EscapedMatchesItself(q[1..], s[1..]);
        StartsAtNext(q, s);
      }
    }
  }

  lemma {:induction false} PercentSearches(pattern: string, s: string)
    requires pattern != [] && pattern[0] == '%'
    ensures Like(pattern, s) <==> exists i :: 0 <= i <= |s| && Like(pattern[1..], s[i..])
    decreases |s|
  {
    assert s[0..] == s;
    if s == [] {
    } else {
      PercentSearches(pattern, s[1..]);
      forall i | 0 <= i <= |s| - 1
        ensures s[1..][i..] == s[i + 1..]
      {
      }
      if Like(pattern, s[1..]) {
        var i :| 0 <= i <= |s[1..]| && Like(pattern[1..], s[1..][i..]);
        assert Like(pattern[1..], s[i + 1..]);
      }
      if i :| 0 < i <= |s| && Like(pattern[1..], s[i..]) {
        assert s[1..][i - 1..] == s[i..];
      }
    }
  }

  // The search condition holds of a name exactly when q is a substring of it,
  // up to case, for every q and every name.
  lemma SearchMeansContains(fold: char -> char, name: string, q: string)
    requires FixesSpecials(fold)
    ensures ILike(fold, name, SearchPattern(q)) <==> Contains(Folded(fold, name), Folded(fold, q))
  {
    var s, f := Folded(fold, name), Folded(fold, q);
    FoldedPattern(fold, q);
    PercentSearches(SearchPattern(f), s);
    assert SearchPattern(f)[1..] == Escape(f) + "%";
    forall i | 0 <= i <= |s|
      ensures Like(Escape(f) + "%", s[i..]) <==> StartsAt(s, f, i)
    {
      EscapedMatchesItself(f, s[i..]);
      if i + |f| <= |s| {
        assert s[i..][..|f|] == s[i..i + |f|];
      }
    }
  }

  lemma {:induction false} EscapeThenPercent(q: string)
    ensures WellFormed(Escape(q) + "%")
  {
    var pattern := Escape(q) + "%";
    if q == [] {
      assert pattern == "%" && pattern[1..] == [];
    } else {
      EscapeThenPercent(q[1..]);
      assert pattern[if IsSpecial(q[0]) then 2 else 1..] == Escape(q[1..]) + "%";
    }
  }

  lemma FoldedPattern(fold: char -> char, q: string)
    requires FixesSpecials(fold)
    ensures Folded(fold, SearchPattern(q)) == SearchPattern(Folded(fold, q))
  {
    assert IsSpecial('%');
    FoldEscape(fold, q);
  }

  // The pattern never makes PostgreSQL fail, even when q ends in a backslash.
  lemma SearchNeverFails(fold: char -> char, q: string)
    requires FixesSpecials(fold)
    ensures WellFormed(Folded(fold, SearchPattern(q)))
  {
    var f := Folded(fold, q);
    FoldedPattern(fold, q);
    EscapeThenPercent(f);
    assert SearchPattern(f)[1..] == Escape(f) + "%";
  }
}
