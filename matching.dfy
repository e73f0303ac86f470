/**
  The answer comparison of the guessing game: a guess is right when, after
  trimming surrounding whitespace and lower-casing, it equals the stored
  answer trimmed and lower-cased the same way.
 */
module Matching {

  /** The characters the string `trim` removes: white space and line
      terminators. */
  predicate IsWhitespace(c: char) {
    || c == ' ' || c == '\t' || c == '\n' || c == '\U{B}' || c == '\U{C}' || c == '\r'
    || c == '\U{A0}' || c == '\U{1680}' || ('\U{2000}' <= c <= '\U{200A}')
    || c == '\U{2028}' || c == '\U{2029}' || c == '\U{202F}' || c == '\U{205F}'
    || c == '\U{3000}' || c == '\U{FEFF}'
  }

  predicate AllWhitespace(s: string) {
    forall i :: 0 <= i < |s| ==> IsWhitespace(s[i])
  }

  /** No whitespace at either end (the empty string qualifies). */
  predicate Trimmed(s: string) {
    s != [] ==> !IsWhitespace(s[0]) && !IsWhitespace(s[|s| - 1])
  }

  /** Drops leading whitespace (the first half of `trim`). */
  function TrimStart(s: string): (r: string)
    ensures |r| <= |s|
  {
    if s != [] && IsWhitespace(s[0]) then TrimStart(s[1..]) else s
  }

  /** Drops trailing whitespace (the second half of `trim`). */
  function TrimEnd(s: string): (r: string)
    ensures |r| <= |s|
  {
    if s != [] && IsWhitespace(s[|s| - 1]) then TrimEnd(s[..|s| - 1]) else s
  }

  /** `trim`: the input with whitespace removed from both ends. */
  function Trim(s: string): string {
    TrimEnd(TrimStart(s))
  }

  /** TrimStart keeps a suffix of its input, drops only whitespace, and leaves
      no whitespace in front. */
  lemma {:induction false} TrimStartSpec(s: string)
    ensures var r := TrimStart(s);
      r == s[|s| - |r|..] && AllWhitespace(s[..|s| - |r|]) && (r != [] ==> !IsWhitespace(r[0]))
  {
    if s != [] && IsWhitespace(s[0]) {
      TrimStartSpec(s[1..]);
      var r := TrimStart(s);
      assert s[1..][|s| - 1 - |r|..] == s[|s| - |r|..];
      assert s[..|s| - |r|] == [s[0]] + s[1..][..|s| - 1 - |r|];
    }
  }

  /** TrimEnd keeps a prefix of its input, drops only whitespace, and leaves
      no whitespace behind. */
  lemma {:induction false} TrimEndSpec(s: string)
    ensures var r := TrimEnd(s);
      r == s[..|r|] && AllWhitespace(s[|r|..]) && (r != [] ==> !IsWhitespace(r[|r| - 1]))
  {
    if s != [] && IsWhitespace(s[|s| - 1]) {
      TrimEndSpec(s[..|s| - 1]);
      var r := TrimEnd(s);
      assert s[..|s| - 1][..|r|] == s[..|r|];
      assert s[|r|..] == s[..|s| - 1][|r|..] + [s[|s| - 1]];
    }
  }

  /** What trim removes is whitespace at the two ends and nothing else: the
      result is a contiguous part of the input with no whitespace at its ends. */
  lemma TrimSpec(s: string)
    ensures Trimmed(Trim(s))
    ensures exists i, j :: 0 <= i <= j <= |s| && Trim(s) == s[i..j] && AllWhitespace(s[..i]) && AllWhitespace(s[j..])
  {
    var t := TrimStart(s);
    var r := TrimEnd(t);
    TrimStartSpec(s);
    TrimEndSpec(t);
    var i, j := |s| - |t|, |s| - |t| + |r|;
    assert r != [] ==> r[0] == t[0];
    assert r == s[i..j];
    assert s[j..] == t[|r|..];
  }

  /** Leading whitespace in front of a string that does not start with any is
      exactly what TrimStart drops. */
  lemma {:induction false} TrimStartPadded(pre: string, rest: string)
    requires AllWhitespace(pre)
    requires rest != [] ==> !IsWhitespace(rest[0])
    ensures TrimStart(pre + rest) == rest
  {
    if pre == [] {
      assert pre + rest == rest;
    } else {
      assert (pre + rest)[0] == pre[0];
      assert (pre + rest)[1..] == pre[1..] + rest;
      TrimStartPadded(pre[1..], rest);
    }
  }

  /** Trailing whitespace behind a string that does not end with any is
      exactly what TrimEnd drops. */
  lemma {:induction false} TrimEndPadded(rest: string, post: string)
    requires AllWhitespace(post)
    requires rest != [] ==> !IsWhitespace(rest[|rest| - 1])
    ensures TrimEnd(rest + post) == rest
  {
    if post == [] {
      assert rest + post == rest;
    } else {
      var s := rest + post;
      assert s[|s| - 1] == post[|post| - 1];
      assert s[..|s| - 1] == rest + post[..|post| - 1];
      TrimEndPadded(rest, post[..|post| - 1]);
    }
  }

  /** Trim is fully determined: padding any trimmed string with whitespace on
      both sides and trimming gives the string back. */
  lemma TrimPadded(pre: string, core: string, post: string)
    requires AllWhitespace(pre) && AllWhitespace(post) && Trimmed(core)
    ensures Trim(pre + core + post) == core
  {
    if core == [] {
      assert pre + core + post == (pre + post) + core;
      assert AllWhitespace(pre + post) by {
        forall i | 0 <= i < |pre + post| ensures IsWhitespace((pre + post)[i]) {
          if i < |pre| { assert (pre + post)[i] == pre[i]; } else { assert (pre + post)[i] == post[i - |pre|]; }
        }
      }
      TrimStartPadded(pre + post, core);
    } else {
      assert pre + core + post == pre + (core + post);
      assert (core + post)[0] == core[0];
      TrimStartPadded(pre, core + post);
      TrimEndPadded(core, post);
    }
  }

  /** Trimming twice is trimming once. */
  lemma TrimIdempotent(s: string)
    ensures Trim(Trim(s)) == Trim(s)
  {
    TrimSpec(s);
    TrimPadded([], Trim(s), []);
    assert [] + Trim(s) + [] == Trim(s);
  }

  /** `toLowerCase` on one character (ASCII letters only). */
  function LowerChar(c: char): char {
    if 'A' <= c <= 'Z' then (c as int - 'A' as int + 'a' as int) as char else c
  }

  /** `toLowerCase` on a string, character by character. */
  function Lower(s: string): (r: string)
    ensures |r| == |s|
  {
    seq(|s|, i requires 0 <= i < |s| => LowerChar(s[i]))
  }

  /** Two strings that differ at most in the case of ASCII letters. */
  predicate SameIgnoringCase(a: string, b: string) {
    |a| == |b| && forall i :: 0 <= i < |a| ==> LowerChar(a[i]) == LowerChar(b[i])
  }

  /** Lower-casing identifies exactly the strings that are equal up to case. */
  lemma LowerEqualIff(a: string, b: string)
    ensures Lower(a) == Lower(b) <==> SameIgnoringCase(a, b)
  {
    if SameIgnoringCase(a, b) {
      assert forall i :: 0 <= i < |a| ==> Lower(a)[i] == Lower(b)[i];
    }
    if Lower(a) == Lower(b) {
      assert forall i :: 0 <= i < |a| ==> Lower(a)[i] == LowerChar(a[i]);
    }
  }

  /** Case folding neither creates nor removes whitespace. */
  lemma LowerCharKeepsWhitespace(c: char)
    ensures IsWhitespace(LowerChar(c)) <==> IsWhitespace(c)
  {
  }

  /** A guess or an answer as the comparison sees it. */
  function Normalize(s: string): string {
    Lower(Trim(s))
  }

  /** The comparison of submit_answer. */
  predicate Matches(guess: string, answer: string) {
    Normalize(guess) == Normalize(answer)
  }

  /** A guess matches whenever it is the trimmed answer in any mix of upper and
      lower case, surrounded by any whitespace. */
  lemma MatchesPaddedCaseVariant(pre: string, core: string, post: string, answer: string)
    requires AllWhitespace(pre) && AllWhitespace(post)
    requires SameIgnoringCase(core, Trim(answer))
    ensures Matches(pre + core + post, answer)
  {
    var ta := Trim(answer);
    TrimSpec(answer);
    if core != [] {
      LowerCharKeepsWhitespace(core[0]);
      LowerCharKeepsWhitespace(ta[0]);
      LowerCharKeepsWhitespace(core[|core| - 1]);
      LowerCharKeepsWhitespace(ta[|ta| - 1]);
    }
    TrimPadded(pre, core, post);
    LowerEqualIff(core, ta);
  }

  /** Conversely, a match means the two trimmed strings are equal up to case. */
  lemma MatchesMeansSameIgnoringCase(guess: string, answer: string)
    requires Matches(guess, answer)
    ensures SameIgnoringCase(Trim(guess), Trim(answer))
  {
    LowerEqualIff(Trim(guess), Trim(answer));
  }

  /** The trimmed answer "Paris", the one the examples below compare against. */
  lemma TrimParis()
    ensures Trim("Paris") == "Paris"
  {
    TrimPadded("", "Paris", "");
    assert "" + "Paris" + "" == "Paris";
  }

  /** The answer "Paris" accepts "paris" ... */
  lemma ParisAcceptsLowerCase()
    ensures Matches("paris", "Paris")
  {
    TrimParis();
    TrimPadded("", "paris", "");
    assert "" + "paris" + "" == "paris";
    assert Lower("paris") == "paris";
    assert Lower("Paris") == "paris";
  }

  /** ... and " Paris " ... */
  lemma ParisAcceptsPadded()
    ensures Matches(" Paris ", "Paris")
  {
    TrimParis();
    TrimPadded(" ", "Paris", " ");
    assert " " + "Paris" + " " == " Paris ";
  }

  /** ... and "PARIS". */
  lemma ParisAcceptsUpperCase()
    ensures Matches("PARIS", "Paris")
  {
    TrimParis();
    TrimPadded("", "PARIS", "");
    assert "" + "PARIS" + "" == "PARIS";
    assert Lower("PARIS") == "paris";
    assert Lower("Paris") == "paris";
  }

  /** The answer "Paris" rejects "pari". */
  lemma ParisRejectsPrefix()
    ensures !Matches("pari", "Paris")
  {
    TrimParis();
    TrimPadded("", "pari", "");
    assert "" + "pari" + "" == "pari";
    assert |Normalize("pari")| == 4;
    assert |Normalize("Paris")| == 5;
  }
}
