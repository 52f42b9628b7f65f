/**
 * The handful of Python string operations the scripts rely on, over
 * strings as sequences of Unicode scalar values: str.isspace, str.strip,
 * str.startswith, the `in` substring test, str.lower (ASCII letters only),
 * str.split() on whitespace, str.split(sep) and sep.join(parts).
 */
module Text {

  /** Python's str.isspace for a single character. */
  predicate IsSpace(c: char) {
    var n := c as int;
    (9 <= n <= 13) || (28 <= n <= 32) || n == 0x85 || n == 0xA0 || n == 0x1680
    || (0x2000 <= n <= 0x200A) || n == 0x2028 || n == 0x2029 || n == 0x202F
    || n == 0x205F || n == 0x3000
  }

  /** A non-empty string without any whitespace: a single token. */
  predicate IsToken(s: string) {
    s != [] && forall i :: 0 <= i < |s| ==> !IsSpace(s[i])
  }

  /**
   * Python's str.strip() with no argument: whitespace at the front goes
   * first, then whitespace at the end.
   */
  function Strip(s: string): (r: string)
    ensures |r| <= |s|
    decreases |s|
  {
    if s != [] && IsSpace(s[0]) then Strip(s[1..])
    else if s != [] && IsSpace(s[|s| - 1]) then Strip(s[..|s| - 1])
    else s
  }

  /** What strip leaves neither starts nor ends with whitespace. */
  lemma {:induction false} StripEnds(s: string)
    ensures var r := Strip(s); r != [] ==> !IsSpace(r[0]) && !IsSpace(r[|r| - 1])
    decreases |s|
  {
    if s != [] && IsSpace(s[0]) {
      StripEnds(s[1..]);
    } else if s != [] && IsSpace(s[|s| - 1]) {
      StripEnds(s[..|s| - 1]);
    }
  }

  /** Strip leaves nothing exactly when the text is blank. */
  lemma {:induction false} StripBlank(s: string)
    ensures Strip(s) == [] <==> forall i :: 0 <= i < |s| ==> IsSpace(s[i])
    decreases |s|
  {
    if s != [] && IsSpace(s[0]) {
      var t := s[1..];
      StripBlank(t);
      assert forall i :: 0 < i < |s| ==> s[i] == t[i - 1];
    } else if s != [] && IsSpace(s[|s| - 1]) {
      var t := s[..|s| - 1];
      StripBlank(t);
      assert forall i :: 0 <= i < |t| ==> s[i] == t[i];
    }
  }

  /** What strip leaves is a piece of the text. */
  lemma {:induction false} StripContained(s: string)
    ensures Contains(s, Strip(s))
    decreases |s|
  {
    var r := Strip(s);
    if s != [] && IsSpace(s[0]) {
      StripContained(s[1..]);
    } else if s != [] && IsSpace(s[|s| - 1]) {
      var t := s[..|s| - 1];
      StripContained(t);
      assert r == Strip(t);
      ContainsMatch(t, r);
      var i :| 0 <= i <= |t| - |r| && MatchAt(t, r, i);
      MatchInPrefix(s, |t|, r, i);
      ContainsMatch(s, r);
    } else {
      assert s[..|s|] == s;
    }
  }

  /** Everything of `s` before `i` and from `j` on is whitespace. */
  predicate BlankAround(s: string, i: int, j: int) {
    && 0 <= i <= j <= |s|
    && (forall m :: 0 <= m < i ==> IsSpace(s[m]))
    && (forall m :: j <= m < |s| ==> IsSpace(s[m]))
  }

  /** Strip removes whitespace only: what it leaves lies between a blank prefix and a blank suffix. */
  lemma {:induction false} StripTrims(s: string)
    ensures exists i, j :: BlankAround(s, i, j) && Strip(s) == s[i..j]
    decreases |s|
  {
    if s != [] && IsSpace(s[0]) {
      var t := s[1..];
      StripTrims(t);
      var i, j :| BlankAround(t, i, j) && Strip(t) == t[i..j];
      BlankAroundFront(s, i, j);
    } else if s != [] && IsSpace(s[|s| - 1]) {
      var t := s[..|s| - 1];
      StripTrims(t);
      var i, j :| BlankAround(t, i, j) && Strip(t) == t[i..j];
      BlankAroundBack(s, i, j);
    } else {
      assert BlankAround(s, 0, |s|) && Strip(s) == s[0..|s|];
    }
  }

  /** A blank first character widens the blank prefix by one. */
  lemma BlankAroundFront(s: string, i: int, j: int)
    requires s != [] && IsSpace(s[0]) && BlankAround(s[1..], i, j)
    ensures BlankAround(s, i + 1, j + 1) && s[i + 1..j + 1] == s[1..][i..j]
  {
    assert forall m :: 0 < m < |s| ==> s[m] == s[1..][m - 1];
  }

  /** A blank last character widens the blank suffix by one. */
  lemma BlankAroundBack(s: string, i: int, j: int)
    requires s != [] && IsSpace(s[|s| - 1]) && BlankAround(s[..|s| - 1], i, j)
    ensures BlankAround(s, i, j) && s[i..j] == s[..|s| - 1][i..j]
  {
    assert forall m :: 0 <= m < |s| - 1 ==> s[m] == s[..|s| - 1][m];
  }

  /** A match in a prefix of the text is a match in the text. */
  lemma MatchInPrefix(s: string, n: nat, r: string, i: int)
    requires n <= |s| && MatchAt(s[..n], r, i)
    ensures MatchAt(s, r, i)
  {
    assert s[..n][i..i + |r|] == s[i..i + |r|];
  }

  /** Stripping a token changes nothing. */
  lemma StripToken(s: string)
    requires IsToken(s)
    ensures Strip(s) == s
  {
    assert !IsSpace(s[0]) && !IsSpace(s[|s| - 1]);
  }

  /** A token followed by a line terminator strips back to the token. */
  lemma StripTokenLine(s: string)
    requires IsToken(s)
    ensures Strip(s + "\n") == s
  {
    var t := s + "\n";
    assert t[0] == s[0] && !IsSpace(t[0]);
    assert t[..|t| - 1] == s;
    StripToken(s);
  }

  /** Whitespace added at the end does not change what a string strips to. */
  lemma {:induction false} StripAppendSpace(l: string, c: char)
    requires IsSpace(c)
    ensures Strip(l + [c]) == Strip(l)
    decreases |l|
  {
    var s := l + [c];
    if l == [] {
      assert s[1..] == [];
    } else if IsSpace(l[0]) {
      assert s[0] == l[0] && s[1..] == l[1..] + [c];
      StripAppendSpace(l[1..], c);
    } else {
      assert s[0] == l[0] && s[..|s| - 1] == l;
    }
  }

  /** Concatenation regrouped, for proofs that split a sequence in two. */
  lemma Regroup<T>(a: seq<T>, b: seq<T>, c: seq<T>)
    ensures (a + b) + c == a + (b + c)
  {
  }

  /** Python's str.startswith. */
  predicate StartsWith(s: string, prefix: string) {
    |prefix| <= |s| && s[..|prefix|] == prefix
  }

  /** `t` occurs in `s` at index `i`. */
  predicate MatchAt(s: string, t: string, i: int) {
    0 <= i && i + |t| <= |s| && s[i..i + |t|] == t
  }

  /** Python's `t in s` for strings: `t` starts `s` or occurs after its first character. */
  predicate Contains(s: string, t: string)
    decreases |s|
  {
    StartsWith(s, t) || (s != [] && Contains(s[1..], t))
  }

  /** A match after the first character is a match one further on, and back. */
  lemma MatchShift(s: string, t: string, i: int)
    requires s != [] && 0 <= i
    ensures MatchAt(s[1..], t, i) <==> MatchAt(s, t, i + 1)
  {
    if i + |t| <= |s| - 1 {
      assert s[1..][i..i + |t|] == s[i + 1..i + 1 + |t|];
    }
  }

  /** `t` occurs in `s` exactly when it matches at some index. */
  lemma {:induction false} ContainsMatch(s: string, t: string)
    ensures Contains(s, t) <==> exists i | 0 <= i <= |s| - |t| :: MatchAt(s, t, i)
    decreases |s|
  {
    if StartsWith(s, t) {
      assert s[0..|t|] == s[..|t|];
      assert MatchAt(s, t, 0);
    }
    if s != [] {
      ContainsMatch(s[1..], t);
      if Contains(s[1..], t) {
        var i :| 0 <= i <= |s[1..]| - |t| && MatchAt(s[1..], t, i);
        MatchShift(s, t, i);
      }
      if exists i | 0 <= i <= |s| - |t| :: MatchAt(s, t, i) {
        var i :| 0 <= i <= |s| - |t| && MatchAt(s, t, i);
        if i == 0 {
          assert s[0..|t|] == s[..|t|];
        } else {
          MatchShift(s, t, i - 1);
        }
      }
    } else if exists i | 0 <= i <= |s| - |t| :: MatchAt(s, t, i) {
      assert t == [];
      assert StartsWith(s, t);
    }
  }

  /** A pattern with a character that `s` lacks does not occur in `s`. */
  lemma {:induction false} NotContainsByChar(s: string, t: string, k: nat)
    requires k < |t| && t[k] !in s
    ensures !Contains(s, t)
    decreases |s|
  {
    if s != [] {
      assert forall c :: c in s[1..] ==> c in s;
      NotContainsByChar(s[1..], t, k);
    }
  }

  /** Python's str.lower on one character, restricted to ASCII letters. */
  function LowerChar(c: char): char {
    if 'A' <= c <= 'Z' then (c as int + 32) as char else c
  }

  /** Lowering a character never changes whether it is whitespace. */
  lemma LowerCharSpace(c: char)
    ensures IsSpace(LowerChar(c)) == IsSpace(c)
  {
  }

  /** Python's str.lower, restricted to ASCII letters. */
  function Lower(s: string): (r: string)
    ensures |r| == |s|
    ensures forall i :: 0 <= i < |s| ==> r[i] == LowerChar(s[i])
    decreases |s|
  {
    if s == [] then [] else [LowerChar(s[0])] + Lower(s[1..])
  }

  /** A lower-case letter in the lowered text comes from that letter or its capital. */
  lemma LowerHas(s: string, c: char)
    requires 'a' <= c <= 'z'
    ensures c in Lower(s) ==> c in s || (c as int - 32) as char in s
  {
    if c in Lower(s) {
      var i :| 0 <= i < |s| && Lower(s)[i] == c;
      assert s[i] == c || s[i] == (c as int - 32) as char;
    }
  }

  /** Length of the leading run of non-whitespace characters. */
  function TokenLength(s: string): (n: nat)
    ensures n <= |s|
    ensures forall i :: 0 <= i < n ==> !IsSpace(s[i])
    ensures n < |s| ==> IsSpace(s[n])
  {
    if s != [] && !IsSpace(s[0]) then 1 + TokenLength(s[1..]) else 0
  }

  /** Python's str.split() with no argument: the maximal runs of non-whitespace. */
  function Words(s: string): (r: seq<string>)
    ensures forall k :: 0 <= k < |r| ==> IsToken(r[k])
    decreases |s|
  {
    if s == [] then []
    else if IsSpace(s[0]) then Words(s[1..])
    else
      var n := TokenLength(s);
      [s[..n]] + Words(s[n..])
  }

  /** Leading whitespace does not change the words. */
  lemma {:induction false} WordsSkipSpace(s: string, n: nat)
    requires n <= |s|
    requires forall i :: 0 <= i < n ==> IsSpace(s[i])
    ensures Words(s[n..]) == Words(s)
  {
    if n > 0 {
      assert s[1..][n - 1..] == s[n..];
      WordsSkipSpace(s[1..], n - 1);
    }
  }

  /** A token followed by whitespace and more text is the first word. */
  lemma WordsCons(w: string, sp: char, rest: string)
    requires IsToken(w) && IsSpace(sp)
    ensures Words(w + [sp] + rest) == [w] + Words(rest)
  {
    var s := w + [sp] + rest;
    TokenOf(w, [sp] + rest);
    assert s == w + ([sp] + rest);
    assert s[|w|..] == [sp] + rest;
    assert ([sp] + rest)[1..] == rest;
  }

  /** A lone token is one word. */
  lemma WordsToken(w: string)
    requires IsToken(w)
    ensures Words(w) == [w]
  {
    TokenOf(w, []);
    assert w + [] == w;
    assert w[|w|..] == [];
  }

  /** The first word of a token followed by text starting with whitespace. */
  lemma {:induction false} TokenOf(w: string, rest: string)
    requires IsToken(w)
    requires rest == [] || IsSpace(rest[0])
    ensures TokenLength(w + rest) == |w|
  {
    if |w| > 1 {
      assert (w + rest)[1..] == w[1..] + rest;
      TokenOf(w[1..], rest);
    }
  }

  /** Text holding a non-whitespace character has at least one word. */
  lemma {:induction false} WordsNonEmpty(s: string, i: nat)
    requires i < |s| && !IsSpace(s[i])
    ensures |Words(s)| >= 1
    decreases |s|
  {
    if IsSpace(s[0]) {
      WordsNonEmpty(s[1..], i - 1);
    }
  }

  /**
   * Text with a non-whitespace character, later a whitespace character and
   * later again a non-whitespace character has at least two words.
   */
  lemma {:induction false} WordsAtLeastTwo(s: string, i: nat, j: nat, k: nat)
    requires i < j < k < |s|
    requires !IsSpace(s[i]) && IsSpace(s[j]) && !IsSpace(s[k])
    ensures |Words(s)| >= 2
    decreases |s|
  {
    if IsSpace(s[0]) {
      WordsAtLeastTwo(s[1..], i - 1, j - 1, k - 1);
    } else {
      var n := TokenLength(s);
      assert n <= j;
      WordsNonEmpty(s[n..], k - n);
    }
  }

  /** Text after the end of a leading token does not change the token's length. */
  lemma {:induction false} TokenLengthAppend(x: string, z: string)
    requires TokenLength(x) < |x|
    ensures TokenLength(x + z) == TokenLength(x)
  {
    if TokenLength(x) > 0 {
      assert (x + z)[1..] == x[1..] + z;
      TokenLengthAppend(x[1..], z);
    }
  }

  /** The words on either side of a blank are the words of each side. */
  lemma {:induction false} WordsAppend(x: string, y: string)
    ensures Words(x + [' '] + y) == Words(x) + Words(y)
    decreases |x|
  {
    if x == [] {
      WordsAfterSpace([] + [' '] + y, y);
    } else if IsSpace(x[0]) {
      WordsAfterSpace(x + [' '] + y, x[1..] + [' '] + y);
      WordsAppend(x[1..], y);
    } else if TokenLength(x) == |x| {
      WordsAppendToken(x, y);
    } else {
      var n := TokenLength(x);
      WordsAppendLonger(x, y);
      WordsAppend(x[n..], y);
      assert [x[..n]] + (Words(x[n..]) + Words(y)) == [x[..n]] + Words(x[n..]) + Words(y);
    }
  }

  /** Text starting with whitespace has the words of the rest. */
  lemma WordsAfterSpace(s: string, rest: string)
    requires s != [] && IsSpace(s[0]) && s[1..] == rest
    ensures Words(s) == Words(rest)
  {
  }

  /** A token, a blank and more text: the token, then the words of the rest. */
  lemma WordsAppendToken(x: string, y: string)
    requires IsToken(x)
    ensures Words(x + [' '] + y) == Words(x) + Words(y)
  {
    var s := x + [' '] + y;
    TokenOf(x, [' '] + y);
    WordsToken(x);
    assert s == x + ([' '] + y);
    assert s[|x|..] == [' '] + y;
    WordsAfterSpace([' '] + y, y);
  }

  /** Text whose first word ends before its end keeps that first word when more text follows. */
  lemma WordsAppendLonger(x: string, y: string)
    requires x != [] && !IsSpace(x[0]) && TokenLength(x) < |x|
    ensures Words(x) == [x[..TokenLength(x)]] + Words(x[TokenLength(x)..])
    ensures Words(x + [' '] + y) == [x[..TokenLength(x)]] + Words(x[TokenLength(x)..] + [' '] + y)
  {
    var n := TokenLength(x);
    var s := x + [' '] + y;
    TokenLengthAppend(x, [' '] + y);
    assert s == x + ([' '] + y);
    assert s[..n] == x[..n];
    assert s[n..] == x[n..] + [' '] + y;
  }

  /** A blank and a token after some text add that token as the last word. */
  lemma WordsSnoc(x: string, w: string)
    requires IsToken(w)
    ensures Words(x + [' '] + w) == Words(x) + [w]
  {
    WordsAppend(x, w);
    WordsToken(w);
  }

  /** Six tokens joined by blanks split back into those six words. */
  lemma WordsSix(a: string, b: string, c: string, d: string, e: string, f: string)
    requires IsToken(a) && IsToken(b) && IsToken(c) && IsToken(d) && IsToken(e) && IsToken(f)
    ensures var r := Words(a + [' '] + b + [' '] + c + [' '] + d + [' '] + e + [' '] + f);
      |r| == 6 && r[3] == d && r[5] == f
  {
    var x2 := a + [' '] + b;
    var x3 := x2 + [' '] + c;
    var x4 := x3 + [' '] + d;
    var x5 := x4 + [' '] + e;
    WordsToken(a);
    WordsSnoc(a, b);
    WordsSnoc(x2, c);
    assert |Words(x3)| == 3;
    WordsSnoc(x3, d);
    assert Words(x4)[3] == d;
    WordsSnoc(x4, e);
    assert Words(x5)[3] == d;
    WordsSnoc(x5, f);
  }

  /** A word followed by a blank and more text is the first word. */
  lemma WordsFirst(w: string, rest: string)
    requires IsToken(w)
    ensures |Words(w + [' '] + rest)| >= 1 && Words(w + [' '] + rest)[0] == w
  {
    WordsAppend(w, rest);
    WordsToken(w);
  }

  /** `t` is `w` with its capitals lowered, character by character. */
  predicate Lowered(w: string, t: string) {
    |w| == |t| && forall k :: 0 <= k < |w| ==> LowerChar(w[k]) == t[k]
  }

  /** Lowering a whole text that is `t` with its capitals lowered gives `t`. */
  lemma LowerOfLowered(w: string, t: string)
    requires Lowered(w, t)
    ensures Lower(w) == t
  {
  }

  /** Two words, a blank and more text: the second word is the second of them. */
  lemma WordsSecond(a: string, b: string, rest: string)
    requires IsToken(a) && IsToken(b)
    ensures |Words(a + [' '] + b + [' '] + rest)| >= 2 && Words(a + [' '] + b + [' '] + rest)[1] == b
  {
    WordsToken(a);
    WordsSnoc(a, b);
    WordsAppend(a + [' '] + b, rest);
  }

  /** The lowered text holds, at the same place, the lowered form of any piece of the text. */
  lemma ContainsLowered(a: string, w: string, b: string, t: string)
    requires Lowered(w, t)
    ensures Contains(Lower(a + w + b), t)
  {
    var s := a + w + b;
    forall k | 0 <= k < |t|
      ensures Lower(s)[|a| + k] == t[k]
    {
      assert s[|a| + k] == w[k];
    }
    assert Lower(s)[|a|..|a| + |t|] == t;
    assert MatchAt(Lower(s), t, |a|);
    ContainsMatch(Lower(s), t);
  }

  /** No character of `s` is one of `cs`. */
  predicate Avoids(s: string, cs: string) {
    forall i :: 0 <= i < |s| ==> s[i] !in cs
  }

  /** Text avoiding some characters lacks each of them. */
  lemma AvoidsNotIn(s: string, cs: string, c: char)
    requires Avoids(s, cs) && c in cs
    ensures c !in s
  {
  }

  /** Two texts avoiding the same characters avoid them together. */
  lemma AvoidsConcat(s: string, t: string, cs: string)
    requires Avoids(s, cs) && Avoids(t, cs)
    ensures Avoids(s + t, cs)
  {
    forall i | 0 <= i < |s + t|
      ensures (s + t)[i] !in cs
    {
      if i >= |s| {
        assert (s + t)[i] == t[i - |s|];
      }
    }
  }

  /** A pattern holding a lower-case letter the text lacks in either case is not in the lowered text. */
  lemma LacksLowered(s: string, t: string, k: nat)
    requires k < |t| && 'a' <= t[k] <= 'z'
    requires t[k] !in s && (t[k] as int - 32) as char !in s
    ensures !Contains(Lower(s), t)
  {
    LowerHas(s, t[k]);
    NotContainsByChar(Lower(s), t, k);
  }

  /** Python's str.split(sep) for a one-character separator. */
  function Split(s: string, sep: char): (r: seq<string>)
    ensures |r| >= 1
    ensures forall k :: 0 <= k < |r| ==> sep !in r[k]
  {
    if s == [] then [[]]
    else
      var rest := Split(s[1..], sep);
      if s[0] == sep then [[]] + rest else [[s[0]] + rest[0]] + rest[1..]
  }

  /** Python's sep.join(parts) for a one-character separator. */
  function Join(sep: char, parts: seq<string>): (r: string)
    ensures |parts| == 1 ==> r == parts[0]
  {
    if parts == [] then []
    else if |parts| == 1 then parts[0]
    else parts[0] + [sep] + Join(sep, parts[1..])
  }

  /** Joining the pieces of a split gives the text back. */
  lemma {:induction false} JoinSplit(s: string, sep: char)
    ensures Join(sep, Split(s, sep)) == s
  {
    if s != [] {
      var rest := Split(s[1..], sep);
      JoinSplit(s[1..], sep);
      if s[0] == sep {
        assert ([[]] + rest)[1..] == rest;
      } else if |rest| == 1 {
      } else {
        var parts := [[s[0]] + rest[0]] + rest[1..];
        assert parts[1..] == rest[1..];
        assert Join(sep, rest) == rest[0] + [sep] + Join(sep, rest[1..]);
      }
    }
  }

  /** A piece free of the separator, then the separator, splits off as the first piece. */
  lemma {:induction false} SplitCons(a: string, sep: char, b: string)
    requires sep !in a
    ensures Split(a + [sep] + b, sep) == [a] + Split(b, sep)
  {
    if a == [] {
      assert [] + [sep] + b == [sep] + b;
      assert ([sep] + b)[1..] == b;
    } else {
      assert (a + [sep] + b)[1..] == a[1..] + [sep] + b;
      SplitCons(a[1..], sep, b);
      assert [a[0]] + a[1..] == a;
    }
  }

  /** A piece free of the separator splits to itself. */
  lemma {:induction false} SplitNone(a: string, sep: char)
    requires sep !in a
    ensures Split(a, sep) == [a]
  {
    if a != [] {
      SplitNone(a[1..], sep);
      assert [a[0]] + a[1..] == a;
    }
  }

  /** Splitting a join of separator-free pieces gives the pieces back. */
  lemma {:induction false} SplitJoin(parts: seq<string>, sep: char)
    requires |parts| >= 1
    requires forall k :: 0 <= k < |parts| ==> sep !in parts[k]
    ensures Split(Join(sep, parts), sep) == parts
  {
    if |parts| == 1 {
      SplitNone(parts[0], sep);
    } else {
      SplitJoin(parts[1..], sep);
      SplitCons(parts[0], sep, Join(sep, parts[1..]));
      assert [parts[0]] + parts[1..] == parts;
    }
  }

  /** Joining one more piece puts the separator and the piece at the end. */
  lemma {:induction false} JoinSnoc(sep: char, parts: seq<string>, x: string)
    requires parts != []
    ensures Join(sep, parts + [x]) == Join(sep, parts) + [sep] + x
  {
    if |parts| > 1 {
      assert (parts + [x])[1..] == parts[1..] + [x];
      JoinSnoc(sep, parts[1..], x);
      Regroup(parts[0] + [sep], Join(sep, parts[1..]) + [sep], x);
    }
  }

  /** A trailing separator splits off one empty last piece. */
  lemma {:induction false} SplitSnocSep(s: string, sep: char)
    ensures Split(s + [sep], sep) == Split(s, sep) + [[]]
  {
    if s != [] {
      assert (s + [sep])[1..] == s[1..] + [sep];
      SplitSnocSep(s[1..], sep);
    }
  }
}
