// Name normalization, internal/identity/normalize.go.
module Normalization {

  // The Unicode tables, as parameters. `fold` is what one rune becomes after
  // NFKD, mark removal, NFC and lower-casing (possibly several runes, possibly
  // none); `isWord` is unicode.IsLetter || unicode.IsDigit.
  datatype Alphabet = Alphabet(fold: char -> string, isWord: char -> bool)

  const BUSINESS_SUFFIXES: set<string> := {"inc", "ltd", "llc", "co", "corp", "gmbh", "oy", "ab"}

  // Folding is idempotent, and a space is an ordinary separator.
  ghost predicate Lawful(a: Alphabet) {
    && a.fold(' ') == " "
    && !a.isWord(' ')
    && forall c, i | 0 <= i < |a.fold(c)| :: a.fold(a.fold(c)[i]) == [a.fold(c)[i]]
  }

  // ---- Specification ----

  function Folded(a: Alphabet, s: string): string {
    if s == "" then "" else a.fold(s[0]) + Folded(a, s[1..])
  }

  function Spaced(a: Alphabet, s: string): (r: string)
    ensures |r| == |s|
    ensures forall i | 0 <= i < |s| :: r[i] == if a.isWord(s[i]) then s[i] else ' '
  {
    seq(|s|, i requires 0 <= i < |s| => if a.isWord(s[i]) then s[i] else ' ')
  }

  // Length of the leading run without spaces.
  function RunLength(s: string): (n: nat)
    ensures n <= |s|
    ensures forall i | 0 <= i < n :: s[i] != ' '
    ensures n < |s| ==> s[n] == ' '
  {
    if s == "" || s[0] == ' ' then 0 else 1 + RunLength(s[1..])
  }

  // strings.Fields on a text whose only white space is ' '.
  function Fields(s: string): seq<string>
    decreases |s|
  {
    if s == "" then []
    else if s[0] == ' ' then Fields(s[1..])
    else [s[..RunLength(s)]] + Fields(s[RunLength(s)..])
  }

  function DropSuffixes(toks: seq<string>): seq<string> {
    if toks == [] then []
    else (if toks[0] in BUSINESS_SUFFIXES then [] else [toks[0]]) + DropSuffixes(toks[1..])
  }

  function Tokens(a: Alphabet, s: string): seq<string> {
    DropSuffixes(Fields(Spaced(a, Folded(a, s))))
  }

  // ---- The algorithm ----

  lemma DropSuffixesSnoc(toks: seq<string>, t: string)
    ensures DropSuffixes(toks + [t]) == DropSuffixes(toks) + if t in BUSINESS_SUFFIXES then [] else [t]
  {
    if toks != [] {
      assert (toks + [t])[1..] == toks[1..] + [t];
      DropSuffixesSnoc(toks[1..], t);
    }
  }

  // nil and the empty slice are both the empty sequence.
  method Normalize(a: Alphabet, s: string) returns (out: seq<string>)
    ensures out == Tokens(a, s)
  {
    var folded := Folded(a, s);
    var b := "";
    for i := 0 to |folded|
      invariant b == Spaced(a, folded)[..i]
    {
      b := b + [if a.isWord(folded[i]) then folded[i] else ' '];
    }
    assert b == Spaced(a, folded);
    var fields := Fields(b);
    out := [];
    for i := 0 to |fields|
      invariant out == DropSuffixes(fields[..i])
    {
      assert fields[..i + 1] == fields[..i] + [fields[i]];
      DropSuffixesSnoc(fields[..i], fields[i]);
      if fields[i] !in BUSINESS_SUFFIXES {
        out := out + [fields[i]];
      }
    }
    assert fields[..|fields|] == fields;
  }

  // ---- Normalizing twice changes nothing ----

  function Join(toks: seq<string>): string {
    if toks == [] then ""
    else if |toks| == 1 then toks[0]
    else toks[0] + " " + Join(toks[1..])
  }

  // Folding leaves every character of s alone.
  ghost predicate Stable(a: Alphabet, s: string) {
    forall i | 0 <= i < |s| :: a.fold(s[i]) == [s[i]]
  }

  ghost predicate IsToken(a: Alphabet, t: string) {
    t != "" && Stable(a, t) && forall i | 0 <= i < |t| :: a.isWord(t[i])
  }

  lemma {:induction false} FoldedIsStable(a: Alphabet, s: string)
    requires Lawful(a)
    ensures Stable(a, Folded(a, s))
  {
    if s != "" {
      FoldedIsStable(a, s[1..]);
    }
  }

  lemma {:induction false} StableIsFixed(a: Alphabet, s: string)
    requires Stable(a, s)
    ensures Folded(a, s) == s
  {
    if s != "" {
      StableIsFixed(a, s[1..]);
      assert s == [s[0]] + s[1..];
    }
  }

  // Every field of a spaced, stable text is a token.
  lemma {:induction false} FieldsAreTokens(a: Alphabet, s: string)
    requires Stable(a, s)
    requires forall i | 0 <= i < |s| :: s[i] == ' ' || a.isWord(s[i])
    ensures forall t | t in Fields(s) :: IsToken(a, t)
    decreases |s|
  {
    if s == "" {
    } else if s[0] == ' ' {
      FieldsAreTokens(a, s[1..]);
    } else {
      FieldsAreTokens(a, s[RunLength(s)..]);
    }
  }

  lemma {:induction false} DropSuffixesKeeps(toks: seq<string>)
    ensures forall t | t in DropSuffixes(toks) :: t in toks && t !in BUSINESS_SUFFIXES
  {
    if toks != [] {
      DropSuffixesKeeps(toks[1..]);
    }
  }

  lemma {:induction false} DropSuffixesFixed(toks: seq<string>)
    requires forall t | t in toks :: t !in BUSINESS_SUFFIXES
    ensures DropSuffixes(toks) == toks
  {
    if toks != [] {
      DropSuffixesFixed(toks[1..]);
    }
  }

  // What Normalize returns: non-empty folded words, none a business suffix.
  lemma TokensAreClean(a: Alphabet, s: string)
    requires Lawful(a)
    ensures forall t | t in Tokens(a, s) :: IsToken(a, t) && t !in BUSINESS_SUFFIXES
  {
    var spaced := Spaced(a, Folded(a, s));
    FoldedIsStable(a, s);
    FieldsAreTokens(a, spaced);
    DropSuffixesKeeps(Fields(spaced));
  }

  lemma {:induction false} JoinedIsStable(a: Alphabet, toks: seq<string>)
    requires Lawful(a) && forall t | t in toks :: IsToken(a, t)
    ensures Stable(a, Join(toks)) && Spaced(a, Join(toks)) == Join(toks)
  {
    if toks == [] {
    } else if |toks| == 1 {
      assert IsToken(a, toks[0]);
    } else {
      assert IsToken(a, toks[0]);
      JoinedIsStable(a, toks[1..]);
      var rest := Join(toks[1..]);
      assert Stable(a, toks[0] + " " + rest);
      assert Spaced(a, toks[0] + " " + rest) == toks[0] + " " + Spaced(a, rest);
    }
  }

  // A text without spaces is one field, and a space splits: together these
  // determine Fields on every text.
  lemma {:induction false} RunWithoutSpaces(w: string, rest: string)
    requires forall i | 0 <= i < |w| :: w[i] != ' '
    requires rest == "" || rest[0] == ' '
    ensures RunLength(w + rest) == |w|
  {
    if w != "" {
      assert (w + rest)[1..] == w[1..] + rest;
      RunWithoutSpaces(w[1..], rest);
    } else {
      assert w + rest == rest;
    }
  }

  lemma FieldsOfWord(w: string)
    requires w != "" && forall i | 0 <= i < |w| :: w[i] != ' '
    ensures Fields(w) == [w]
  {
    RunWithoutSpaces(w, "");
    assert w + "" == w;
  }

  lemma {:induction false} FieldsSplitAtSpace(s: string, t: string)
    ensures Fields(s + " " + t) == Fields(s) + Fields(t)
    decreases |s|
  {
    var whole := s + " " + t;
    if s == "" {
      assert whole == " " + t;
    } else if s[0] == ' ' {
      assert whole[1..] == s[1..] + " " + t;
      FieldsSplitAtSpace(s[1..], t);
    } else {
      var n := RunLength(s);
      var w, rest := s[..n], s[n..];
      var tail := rest + " " + t;
      assert whole == w + tail;
      RunWithoutSpaces(w, tail);
      FieldsSplitAtSpace(rest, t);
    }
  }

  lemma {:induction false} FieldsOfJoin(a: Alphabet, toks: seq<string>)
    requires Lawful(a) && forall t | t in toks :: IsToken(a, t)
    ensures Fields(Join(toks)) == toks
  {
    if toks != [] {
      var t := toks[0];
      assert IsToken(a, t) && !a.isWord(' ');
      FieldsOfWord(t);
      if |toks| > 1 {
        FieldsSplitAtSpace(t, Join(toks[1..]));
        FieldsOfJoin(a, toks[1..]);
      }
    }
  }

  // Normalizing a normalized name gives the same tokens.
  lemma NormalizeIsIdempotent(a: Alphabet, s: string)
    requires Lawful(a)
    ensures Tokens(a, Join(Tokens(a, s))) == Tokens(a, s)
  {
    var toks := Tokens(a, s);
    TokensAreClean(a, s);
    JoinedIsStable(a, toks);
    StableIsFixed(a, Join(toks));
    FieldsOfJoin(a, toks);
    DropSuffixesFixed(toks);
  }

  // ---- What the tokens are ----

  lemma {:induction false} FoldedConcat(a: Alphabet, s: string, t: string)
    ensures Folded(a, s + t) == Folded(a, s) + Folded(a, t)
  {
    if s == "" {
      assert s + t == t;
    } else {
      assert (s + t)[1..] == s[1..] + t;
      FoldedConcat(a, s[1..], t);
    }
  }

  lemma {:induction false} DropSuffixesConcat(s: seq<string>, t: seq<string>)
    ensures DropSuffixes(s + t) == DropSuffixes(s) + DropSuffixes(t)
  {
    if s == [] {
      assert s + t == t;
    } else {
      assert (s + t)[1..] == s[1..] + t;
      DropSuffixesConcat(s[1..], t);
    }
  }

  lemma FoldedChar(a: Alphabet, c: char)
    ensures Folded(a, [c]) == a.fold(c)
  {
    assert [c][1..] == "";
  }

  // Any character that folds to one that is neither letter nor digit separates:
  // no token is lost, added or moved.
  lemma TokensSplitAtSeparator(a: Alphabet, s: string, c: char, t: string)
    requires |a.fold(c)| == 1 && !a.isWord(a.fold(c)[0])
    ensures Tokens(a, s + [c] + t) == Tokens(a, s) + Tokens(a, t)
  {
    var left, right := Spaced(a, Folded(a, s)), Spaced(a, Folded(a, t));
    FoldedChar(a, c);
    FoldedConcat(a, s, [c]);
    FoldedConcat(a, s + [c], t);
    assert Spaced(a, Folded(a, s + [c] + t)) == left + " " + right;
    FieldsSplitAtSpace(left, right);
    DropSuffixesConcat(Fields(left), Fields(right));
  }

  // A text that folds to letters and digits only is one token, its folding,
  // unless that is a business suffix or nothing.
  lemma TokensOfWord(a: Alphabet, w: string)
    requires !a.isWord(' ')
    requires forall i | 0 <= i < |Folded(a, w)| :: a.isWord(Folded(a, w)[i])
    ensures Tokens(a, w)
            == if Folded(a, w) in {"", "inc", "ltd", "llc", "co", "corp", "gmbh", "oy",
                "ab"} then [] else [Folded(a, w)]
  {
    var f := Folded(a, w);
    assert Spaced(a, f) == f;
    if f != "" {
      FieldsOfWord(f);
      assert DropSuffixes([f]) == if f in BUSINESS_SUFFIXES then [] else [f];
    }
  }
}
