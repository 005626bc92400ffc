/** The pieces of Python's string API that both utilities rely on:
    `str.split()` with no separator, `" ".join(...)` and `sub in s`.
    `str.startswith(p)` is Dafny's prefix test `p <= s`. */
module PyText {

  /** `c.isspace()` in Python 3: the ASCII controls 9-13 and 28-31, the space,
      and the Unicode space separators, line and paragraph separators. */
  predicate IsSpace(c: char) {
    var n := c as int;
    || 9 <= n <= 13
    || 28 <= n <= 32
    || n == 0x85 || n == 0xA0 || n == 0x1680
    || 0x2000 <= n <= 0x200A
    || n == 0x2028 || n == 0x2029 || n == 0x202F || n == 0x205F || n == 0x3000
  }

  /** A token as `split()` yields it: non-empty and free of whitespace. */
  predicate IsToken(w: string) {
    |w| > 0 && forall i :: 0 <= i < |w| ==> !IsSpace(w[i])
  }

  /** Length of the leading run of non-whitespace characters of `s`. */
  function WordLength(s: string): (n: nat)
    ensures n <= |s|
    ensures forall i :: 0 <= i < n ==> !IsSpace(s[i])
    ensures n < |s| ==> IsSpace(s[n])
  {
    if |s| == 0 || IsSpace(s[0]) then 0 else 1 + WordLength(s[1..])
  }

  /** `s.split()`: the maximal runs of non-whitespace characters, in order;
      leading, trailing and repeated whitespace produce no empty tokens. */
  function Split(s: string): (r: seq<string>)
    ensures forall k :: 0 <= k < |r| ==> IsToken(r[k])
    ensures |r| <= |s|
    decreases |s|
  {
    if |s| == 0 then []
    else if IsSpace(s[0]) then Split(s[1..])
    else
      var n := WordLength(s);
      [s[..n]] + Split(s[n..])
  }

  /** A string as `" ".join(...)` of tokens writes it: every whitespace
      character is a plain space standing strictly between two
      non-whitespace characters. */
  predicate SingleSpaced(s: string) {
    forall i :: 0 <= i < |s| ==> SpacedAt(s, i)
  }

  /** Position `i` of `s` is a non-space, or a plain space between two
      non-spaces. */
  predicate SpacedAt(s: string, i: nat)
    requires i < |s|
  {
    IsSpace(s[i]) ==> s[i] == ' ' && 0 < i < |s| - 1 && !IsSpace(s[i + 1])
  }

  /** `" ".join(ws)`: the tokens separated by single spaces. */
  function Join(ws: seq<string>): string
  {
    if |ws| == 0 then ""
    else if |ws| == 1 then ws[0]
    else ws[0] + " " + Join(ws[1..])
  }

  /** `sub in s` for two strings: `sub` occurs in `s` at some offset. */
  predicate Contains(s: string, sub: string)
    decreases |s|
  {
    sub <= s || (|s| > 0 && Contains(s[1..], sub))
  }

  lemma {:induction false} WordLengthOfToken(w: string, s: string)
    requires IsToken(w)
    requires |s| == 0 || IsSpace(s[0])
    ensures WordLength(w + s) == |w|
    decreases |w|
  {
    if |w| > 1 {
      assert (w + s)[1..] == w[1..] + s;
      WordLengthOfToken(w[1..], s);
    } else {
      assert (w + s)[1..] == s;
    }
  }

  /** A token followed by whitespace (or nothing) splits off as the first token. */
  lemma SplitToken(w: string, s: string)
    requires IsToken(w)
    requires |s| == 0 || IsSpace(s[0])
    ensures Split(w + s) == [w] + Split(s)
  {
    WordLengthOfToken(w, s);
    assert (w + s)[..|w|] == w;
    assert (w + s)[|w|..] == s;
  }

  lemma SplitSpace(s: string)
    ensures Split(" " + s) == Split(s)
  {
    assert (" " + s)[1..] == s;
  }

  /** `split()` undoes `" ".join(...)` on tokens: joining with single spaces
      loses nothing that splitting cannot recover. */
  lemma {:induction false} SplitJoin(ws: seq<string>)
    requires forall k :: 0 <= k < |ws| ==> IsToken(ws[k])
    ensures Split(Join(ws)) == ws
    decreases |ws|
  {
    if |ws| == 0 {
    } else if |ws| == 1 {
      SplitToken(ws[0], "");
      assert ws[0] + "" == ws[0];
    } else {
      var rest := Join(ws[1..]);
      assert Join(ws) == ws[0] + (" " + rest);
      SplitToken(ws[0], " " + rest);
      SplitSpace(rest);
      SplitJoin(ws[1..]);
      assert [ws[0]] + ws[1..] == ws;
    }
  }

  /** `sub in a + sub + b`. */
  lemma {:induction false} ContainsAt(a: string, sub: string, b: string)
    ensures Contains(a + sub + b, sub)
    decreases |a|
  {
    if |a| == 0 {
      assert a + sub + b == sub + b;
    } else {
      assert (a + sub + b)[1..] == a[1..] + sub + b;
      ContainsAt(a[1..], sub, b);
    }
  }

  /** Whatever contains `sub` still contains it behind a prefix. */
  lemma {:induction false} ContainsInside(s: string, sub: string, a: string)
    requires Contains(s, sub)
    ensures Contains(a + s, sub)
    decreases |a|
  {
    if |a| > 0 {
      assert (a + s)[1..] == a[1..] + s;
      ContainsInside(s, sub, a[1..]);
    } else {
      assert a + s == s;
    }
  }

  /** A token splits into itself. */
  lemma SplitOfToken(w: string)
    requires IsToken(w)
    ensures Split(w) == [w]
  {
    SplitToken(w, "");
    assert w + "" == w;
  }

  lemma {:induction false} WordLengthBeforeSpace(a: string, c: char, b: string)
    requires IsSpace(c)
    ensures WordLength(a + [c] + b) == WordLength(a)
    decreases |a|
  {
    if |a| == 0 {
      assert (a + [c] + b)[0] == c;
    } else if !IsSpace(a[0]) {
      assert (a + [c] + b)[0] == a[0];
      assert (a + [c] + b)[1..] == a[1..] + [c] + b;
      WordLengthBeforeSpace(a[1..], c, b);
    } else {
      assert (a + [c] + b)[0] == a[0];
    }
  }

  /** Any whitespace character separates: what lies before it and what lies
      after it split independently. With `Split("") == []` and
      `SplitOfToken`, this pins `split()` down on every string. */
  lemma {:induction false} SplitAtSpace(a: string, c: char, b: string)
    requires IsSpace(c)
    ensures Split(a + [c] + b) == Split(a) + Split(b)
    decreases |a|
  {
    var s := a + [c] + b;
    if |a| == 0 {
      assert s[0] == c && s[1..] == b;
      assert [] + Split(b) == Split(b);
    } else if IsSpace(a[0]) {
      assert s[0] == a[0] && s[1..] == a[1..] + [c] + b;
      SplitAtSpace(a[1..], c, b);
    } else {
      assert s[0] == a[0];
      var n := WordLength(a);
      WordLengthBeforeSpace(a, c, b);
      assert s[..n] == a[..n];
      assert s[n..] == a[n..] + [c] + b;
      SplitAtSpace(a[n..], c, b);
      assert [a[..n]] + (Split(a[n..]) + Split(b)) == ([a[..n]] + Split(a[n..])) + Split(b);
    }
  }

  /** The joined text is single-spaced, and starts with a non-space when
      there is at least one token. */
  lemma {:induction false} JoinSingleSpaced(ws: seq<string>)
    requires forall k :: 0 <= k < |ws| ==> IsToken(ws[k])
    ensures SingleSpaced(Join(ws))
    ensures |ws| > 0 ==> |Join(ws)| > 0 && !IsSpace(Join(ws)[0])
    decreases |ws|
  {
    if |ws| >= 2 {
      var rest := Join(ws[1..]);
      JoinSingleSpaced(ws[1..]);
      var s := Join(ws);
      var m := |ws[0]|;
      assert s == ws[0] + " " + rest;
      forall i | 0 <= i < |s|
        ensures SpacedAt(s, i)
      {
        if i < m {
          assert s[i] == ws[0][i];
        } else if i == m {
          assert s[i + 1] == rest[0];
        } else {
          assert s[i] == rest[i - m - 1];
          assert SpacedAt(rest, i - m - 1);
          assert i + 1 < |s| ==> s[i + 1] == rest[i - m];
        }
      }
    }
  }

  /** What follows a space of a single-spaced string is single-spaced and
      starts with a token. */
  lemma SingleSpacedAfter(s: string, n: nat)
    requires SingleSpaced(s) && n < |s| && IsSpace(s[n])
    ensures n + 1 < |s| && !IsSpace(s[n + 1])
    ensures SingleSpaced(s[n + 1..])
  {
    var t := s[n + 1..];
    assert SpacedAt(s, n);
    forall i | 0 <= i < |t|
      ensures SpacedAt(t, i)
    {
      assert SpacedAt(s, n + 1 + i);
      assert t[i] == s[n + 1 + i];
      assert i + 1 < |t| ==> t[i + 1] == s[n + 2 + i];
    }
  }

  lemma JoinCons(w: string, ws: seq<string>)
    requires |ws| > 0
    ensures Join([w] + ws) == w + " " + Join(ws)
  {
    assert ([w] + ws)[1..] == ws;
  }

  /** A string starting with a word and going on after a space splits into
      that word and the tokens after the space. */
  lemma SplitFirstWord(s: string)
    requires |s| > 0 && !IsSpace(s[0]) && WordLength(s) < |s|
    ensures Split(s) == [s[..WordLength(s)]] + Split(s[WordLength(s) + 1..])
    ensures Split(s) != []
  {
    var n := WordLength(s);
    assert s[n..] == "" + [s[n]] + s[n + 1..];
    SplitAtSpace("", s[n], s[n + 1..]);
  }

  /** Joining the tokens of a single-spaced string gives the string back. */
  lemma {:induction false} JoinSplit(s: string)
    requires SingleSpaced(s)
    ensures Join(Split(s)) == s
    decreases |s|
  {
    if |s| > 0 {
      assert SpacedAt(s, 0);
      var n := WordLength(s);
      if n == |s| {
        SplitOfToken(s);
      } else {
        var w, t := s[..n], s[n + 1..];
        assert Split(s) == [w] + Split(t) by { SplitFirstWord(s); }
        assert SingleSpaced(t) && |t| > 0 && !IsSpace(t[0]) by { SingleSpacedAfter(s, n); }
        JoinSplit(t);
        assert Split(t) != [] by {
          if WordLength(t) < |t| { SplitFirstWord(t); } else { SplitOfToken(t); }
        }
        assert Join([w] + Split(t)) == w + " " + t by { JoinCons(w, Split(t)); }
        assert s == w + " " + t by { assert SpacedAt(s, n); }
      }
    }
  }

  /** A single-spaced string is the only one with its tokens. */
  lemma SingleSpacedUnique(x: string, y: string)
    requires SingleSpaced(x) && SingleSpaced(y) && Split(x) == Split(y)
    ensures x == y
  {
    JoinSplit(x);
    JoinSplit(y);
  }
}
