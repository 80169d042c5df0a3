/**
 * The answer check of `user_confirmation`: every line feed and carriage
 * return is removed from the line read from standard input, and only "y"
 * or "Y" is taken as consent.
 */
module Confirm {

  /** `s` with every occurrence of `c` removed, as `str::replace(c, "")` does. */
  function Strip(s: string, c: char): (r: string)
    ensures forall x :: x in r <==> x in s && x != c
    ensures |r| <= |s|
    ensures forall x :: x != c ==> multiset(r)[x] == multiset(s)[x]
  {
    if s == [] then []
    else
      assert s == [s[0]] + s[1..];
      (if s[0] == c then [] else [s[0]]) + Strip(s[1..], c)
  }

  /** Removing a character distributes over concatenation, so order is kept. */
  lemma {:induction false} StripAppend(a: string, b: string, c: char)
    ensures Strip(a + b, c) == Strip(a, c) + Strip(b, c)
  {
    if a != [] {
      assert (a + b)[0] == a[0] && (a + b)[1..] == a[1..] + b;
      StripAppend(a[1..], b, c);
    } else {
      assert a + b == b;
    }
  }

  /** Removing a character that does not occur changes nothing. */
  lemma {:induction false} StripAbsent(s: string, c: char)
    requires c !in s
    ensures Strip(s, c) == s
  {
    if s != [] {
      StripAbsent(s[1..], c);
    }
  }

  /** The line after both `replace` calls. */
  function Normalize(line: string): (r: string)
    ensures '\n' !in r && '\r' !in r
    ensures forall x :: x != '\n' && x != '\r' ==> multiset(r)[x] == multiset(line)[x]
  {
    Strip(Strip(line, '\n'), '\r')
  }

  /** Normalizing is idempotent. */
  lemma NormalizeIdempotent(line: string)
    ensures Normalize(Normalize(line)) == Normalize(line)
  {
    var n := Normalize(line);
    StripAbsent(n, '\n');
    StripAbsent(n, '\r');
  }

  /** Whether the operator consented: the normalized line is "y" or "Y". */
  function IsAffirmative(line: string): (r: bool)
    ensures r <==> multiset(line)['y'] + multiset(line)['Y'] == 1 &&
                   forall i :: 0 <= i < |line| ==> line[i] in {'y', 'Y', '\n', '\r'}
  {
    var n := Normalize(line);
    AffirmativeByCounts(line);
    n == "y" || n == "Y"
  }

  /**
   * The normalized line is a single "y" or "Y" exactly when the raw line holds
   * one of those letters once and nothing else besides line ends.
   */
  lemma AffirmativeByCounts(line: string)
    ensures (Normalize(line) == "y" || Normalize(line) == "Y") <==>
            (multiset(line)['y'] + multiset(line)['Y'] == 1 &&
             forall i :: 0 <= i < |line| ==> line[i] in {'y', 'Y', '\n', '\r'})
  {
    var n := Normalize(line);
    var m := multiset(line);
    if n == "y" || n == "Y" {
      assert multiset(n)['y'] + multiset(n)['Y'] == 1;
      forall i | 0 <= i < |line| ensures line[i] in {'y', 'Y', '\n', '\r'} {
        assert m[line[i]] > 0;
      }
    }
    if m['y'] + m['Y'] == 1 && forall i :: 0 <= i < |line| ==> line[i] in {'y', 'Y', '\n', '\r'} {
      forall x | x in n ensures x == 'y' || x == 'Y' {
        assert multiset(n)[x] == m[x] > 0;
        assert x in line;
      }
      assert |multiset(n)| == multiset(n)['y'] + multiset(n)['Y'] by {
        OnlyLetters(n);
      }
      assert |n| == 1;
      assert n == [n[0]];
    }
  }

  /** A string of only `y` and `Y` has as many elements as it has of those letters. */
  lemma {:induction false} OnlyLetters(s: string)
    requires forall x :: x in s ==> x == 'y' || x == 'Y'
    ensures |multiset(s)| == multiset(s)['y'] + multiset(s)['Y']
  {
    if s != [] {
      assert s == [s[0]] + s[1..];
      assert forall x :: x in s[1..] ==> x in s;
      OnlyLetters(s[1..]);
      var rest := multiset(s[1..]);
      assert multiset(s) == multiset{s[0]} + rest;
      assert |multiset(s)| == 1 + |rest|;
      if s[0] == 'y' {
        assert multiset(s)['y'] == 1 + rest['y'] && multiset(s)['Y'] == rest['Y'];
      } else {
        assert s[0] in s;
        assert multiset(s)['Y'] == 1 + rest['Y'] && multiset(s)['y'] == rest['y'];
      }
    }
  }

  /** Normalizing distributes over concatenation. */
  lemma NormalizeAppend(a: string, b: string)
    ensures Normalize(a + b) == Normalize(a) + Normalize(b)
  {
    StripAppend(a, b, '\n');
    StripAppend(Strip(a, '\n'), Strip(b, '\n'), '\r');
  }

  /** A string of line feeds and carriage returns normalizes to the empty string. */
  lemma NormalizeLineEnds(ends: string)
    requires forall i :: 0 <= i < |ends| ==> ends[i] == '\n' || ends[i] == '\r'
    ensures Normalize(ends) == []
  {
    var n := Normalize(ends);
    assert forall x :: x !in n;
    assert multiset(n) == multiset{};
  }

  /**
   * Line feeds and carriage returns make no difference wherever they stand:
   * inserting any run of them leaves the normalized line and the answer as
   * they were.
   */
  lemma LineEndsIgnored(a: string, ends: string, b: string)
    requires forall i :: 0 <= i < |ends| ==> ends[i] == '\n' || ends[i] == '\r'
    ensures Normalize(a + ends + b) == Normalize(a + b)
    ensures IsAffirmative(a + ends + b) == IsAffirmative(a + b)
  {
    NormalizeAppend(a + ends, b);
    NormalizeAppend(a, ends);
    NormalizeAppend(a, b);
    NormalizeLineEnds(ends);
    assert Normalize(a) + [] == Normalize(a);
  }

  /** A single "y" or "Y" surrounded by any line feeds and carriage returns is consent. */
  lemma ConsentWithLineEnds(before: string, letter: char, after: string)
    requires letter == 'y' || letter == 'Y'
    requires forall i :: 0 <= i < |before| ==> before[i] == '\n' || before[i] == '\r'
    requires forall i :: 0 <= i < |after| ==> after[i] == '\n' || after[i] == '\r'
    ensures IsAffirmative(before + [letter] + after)
  {
    NormalizeAppend(before + [letter], after);
    NormalizeAppend(before, [letter]);
    NormalizeLineEnds(before);
    NormalizeLineEnds(after);
    StripAbsent([letter], '\n');
    StripAbsent([letter], '\r');
    assert Normalize(before + [letter] + after) == [letter];
  }

  /** "y" followed by a line feed is consent. */
  lemma ConsentLf()
    ensures IsAffirmative("y\n")
  {
  }

  /** Empty input is refusal. */
  lemma RefuseEmpty()
    ensures !IsAffirmative("")
  {
  }

  /** "n" is refusal. */
  lemma RefuseNo()
    ensures !IsAffirmative("n\n")
  {
  }

  /** "yes" is refusal: only the single letter is accepted. */
  lemma RefuseYes()
    ensures !IsAffirmative("yes\n")
  {
  }
}
