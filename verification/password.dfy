/**
 * PasswordGenerator.generate: a character set assembled from the policy's
 * classes, a guaranteed minimum of characters from every enabled class,
 * padding from the whole set up to the requested length, and a shuffle.
 * The random source is a supplied stream: the k-th call of secrets.choice
 * on an alphabet A returns A[draw(k) % |A|], and the shuffle's k-th swap
 * partner comes from pick(k).
 */
module Password {

  /** The `password_policy` section of the settings, with its keys as fields. */
  datatype Policy = Policy(
    length: int,
    includeUppercase: bool,
    includeLowercase: bool,
    includeDigits: bool,
    includeSpecial: bool,
    specialChars: string,
    excludeAmbiguous: bool,
    minLowercase: int,
    minUppercase: int,
    minDigits: int,
    minSpecial: int)

  /** The policy used for every key the settings leave out. */
  const DefaultPolicy := Policy(16, true, true, true, true, "!@#$%^&*-_=+", true, 2, 2, 2, 2)

  /** `n` consecutive characters from `first` on. */
  function Run(first: char, n: nat): (r: string)
    requires first as int + n <= 0xD800
    ensures |r| == n
    ensures forall c :: c in r <==> first <= c && c as int < first as int + n
  {
    var r := seq(n, i requires 0 <= i < n => (first as int + i) as char);
    forall c | first <= c && c as int < first as int + n ensures c in r {
      assert r[c as int - first as int] == c;
    }
    r
  }

  /** string.ascii_lowercase, string.ascii_uppercase and string.digits. */
  const AsciiLowercase := Run('a', 26)
  const AsciiUppercase := Run('A', 26)
  const AsciiDigits := Run('0', 10)

  /** The characters exclude_ambiguous takes out of the letter and digit classes. */
  const Ambiguous := "loIO01"

  /** `s.replace(c, '')`. */
  function RemoveChar(s: string, c: char): (r: string)
    ensures c !in r
    ensures forall x :: x != c ==> (x in r <==> x in s)
  {
    if s == [] then []
    else (if s[0] == c then [] else [s[0]]) + RemoveChar(s[1..], c)
  }

  /** The lower-case alphabet the policy draws from. */
  function LowerClass(p: Policy): string {
    if p.excludeAmbiguous then RemoveChar(RemoveChar(AsciiLowercase, 'l'), 'o') else AsciiLowercase
  }

  /** The upper-case alphabet the policy draws from. */
  function UpperClass(p: Policy): string {
    if p.excludeAmbiguous then RemoveChar(RemoveChar(AsciiUppercase, 'I'), 'O') else AsciiUppercase
  }

  /** The digit alphabet the policy draws from. */
  function DigitClass(p: Policy): string {
    if p.excludeAmbiguous then RemoveChar(RemoveChar(AsciiDigits, '0'), '1') else AsciiDigits
  }

  /** The letter and digit alphabets are never empty, whatever the policy. */
  lemma ClassesNonEmpty(p: Policy)
    ensures 'a' in LowerClass(p) && 'A' in UpperClass(p) && '2' in DigitClass(p)
  {
    LowerRange(p, 'a');
    UpperRange(p, 'A');
    DigitRange(p, '2');
  }

  /** The lower-case class: the ASCII range, less `l` and `o` when ambiguous characters are excluded. */
  lemma LowerRange(p: Policy, c: char)
    ensures c in LowerClass(p) <==> 'a' <= c <= 'z' && !(p.excludeAmbiguous && (c == 'l' || c == 'o'))
  {
    assert c in AsciiLowercase <==> 'a' <= c <= 'z';
  }

  /** The upper-case class: the ASCII range, less `I` and `O` when ambiguous characters are excluded. */
  lemma UpperRange(p: Policy, c: char)
    ensures c in UpperClass(p) <==> 'A' <= c <= 'Z' && !(p.excludeAmbiguous && (c == 'I' || c == 'O'))
  {
    assert c in AsciiUppercase <==> 'A' <= c <= 'Z';
  }

  /** The digit class: the ASCII range, less `0` and `1` when ambiguous characters are excluded. */
  lemma DigitRange(p: Policy, c: char)
    ensures c in DigitClass(p) <==> '0' <= c <= '9' && !(p.excludeAmbiguous && (c == '0' || c == '1'))
  {
    assert c in AsciiDigits <==> '0' <= c <= '9';
  }

  /**
   * For each enabled class, in the order generate visits them: the
   * alphabet it draws from and how many characters its minimum guarantees.
   */
  function Segments(p: Policy): seq<(string, nat)> {
    Optional(p.includeLowercase, LowerClass(p), p.minLowercase)
    + Optional(p.includeUppercase, UpperClass(p), p.minUppercase)
    + Optional(p.includeDigits, DigitClass(p), p.minDigits)
    + Optional(p.includeSpecial, p.specialChars, p.minSpecial)
  }

  /** The segment of one class: present only when the class is enabled. */
  function Optional(enabled: bool, alphabet: string, minimum: int): seq<(string, nat)> {
    if enabled then [(alphabet, Times(minimum))] else []
  }

  /** The alphabets of the segments, concatenated. */
  function Alphabets(segs: seq<(string, nat)>): string {
    if segs == [] then [] else Alphabets(segs[..|segs| - 1]) + segs[|segs| - 1].0
  }

  /** The counts of the segments, summed. */
  function Total(segs: seq<(string, nat)>): nat {
    if segs == [] then 0 else Total(segs[..|segs| - 1]) + segs[|segs| - 1].1
  }

  /** The full character set: the enabled classes, in the order generate adds them. */
  function Charset(p: Policy): (cs: string)
    ensures cs ==
      (if p.includeLowercase then LowerClass(p) else [])
      + (if p.includeUppercase then UpperClass(p) else [])
      + (if p.includeDigits then DigitClass(p) else [])
      + (if p.includeSpecial then p.specialChars else [])
  {
    SegmentsAlphabets(p);
    Alphabets(Segments(p))
  }

  /** How often `for _ in range(n)` runs. */
  function Times(n: int): nat {
    if n > 0 then n else 0
  }

  /** The number of characters the class minimums guarantee. */
  function Required(p: Policy): nat {
    Total(Segments(p))
  }

  /** Every segment that draws at least once has something to draw from. */
  predicate Drawable(segs: seq<(string, nat)>) {
    forall k :: 0 <= k < |segs| && segs[k].1 > 0 ==> segs[k].0 != []
  }

  /**
   * The policies generate can complete: secrets.choice raises on an empty
   * sequence, so the special characters must be there when a minimum asks
   * for them, and the character set must be there when padding is needed.
   */
  predicate CanGenerate(p: Policy) {
    && SpecialsDrawable(p)
    && (p.length > Required(p) ==> Charset(p) != [])
  }

  /** The class minimums can be drawn: a special-character minimum has characters to draw from. */
  predicate SpecialsDrawable(p: Policy) {
    p.includeSpecial && p.minSpecial > 0 ==> p.specialChars != []
  }

  lemma SegmentsDrawable(p: Policy)
    requires SpecialsDrawable(p)
    ensures Drawable(Segments(p))
  {
    ClassesNonEmpty(p);
    var L := Optional(p.includeLowercase, LowerClass(p), p.minLowercase);
    var U := Optional(p.includeUppercase, UpperClass(p), p.minUppercase);
    var D := Optional(p.includeDigits, DigitClass(p), p.minDigits);
    DrawableOptional([], p.includeLowercase, LowerClass(p), p.minLowercase);
    assert [] + L == L;
    DrawableOptional(L, p.includeUppercase, UpperClass(p), p.minUppercase);
    DrawableOptional(L + U, p.includeDigits, DigitClass(p), p.minDigits);
    DrawableOptional(L + U + D, p.includeSpecial, p.specialChars, p.minSpecial);
  }

  /** The segment of a class that can supply its minimum keeps the segments drawable. */
  lemma DrawableOptional(pre: seq<(string, nat)>, enabled: bool, alphabet: string, minimum: int)
    requires Drawable(pre) && (enabled && minimum > 0 ==> alphabet != [])
    ensures Drawable(pre + Optional(enabled, alphabet, minimum))
  {
    if enabled {
      DrawableSnoc(pre, (alphabet, Times(minimum)));
    } else {
      assert pre + [] == pre;
    }
  }

  /** secrets.choice(alphabet) when the random source yields `r`. */
  function Choose(alphabet: string, r: nat): (c: char)
    requires alphabet != []
    ensures c in alphabet
  {
    alphabet[r % |alphabet|]
  }

  /** `count` successive choices from `alphabet`, the first using draw number `from`. */
  function Picks(alphabet: string, count: nat, draw: nat -> nat, from: nat): (r: seq<char>)
    requires count > 0 ==> alphabet != []
    ensures |r| == count
  {
    seq(count, i requires 0 <= i < count => Choose(alphabet, draw(from + i)))
  }

  /** Choices from an alphabet stay in it. */
  lemma PicksIn(alphabet: string, count: nat, draw: nat -> nat, from: nat)
    requires count > 0 ==> alphabet != []
    ensures AllIn(Picks(alphabet, count, draw, from), alphabet)
  {
    var r := Picks(alphabet, count, draw, from);
    forall i | 0 <= i < count ensures r[i] in alphabet {
      assert r[i] == Choose(alphabet, draw(from + i));
    }
  }

  /** The choices for each segment in turn, numbering the draws from `from`. */
  function PicksFrom(segs: seq<(string, nat)>, draw: nat -> nat, from: nat): (r: seq<char>)
    requires Drawable(segs)
    ensures |r| == Total(segs)
  {
    if segs == [] then []
    else
      var init := segs[..|segs| - 1];
      DrawableInit(segs);
      PicksFrom(init, draw, from) + Picks(segs[|segs| - 1].0, segs[|segs| - 1].1, draw, from + Total(init))
  }

  /** The characters guaranteed by the class minimums, drawn in class order. */
  function Minimums(p: Policy, draw: nat -> nat): (r: seq<char>)
    requires SpecialsDrawable(p)
    ensures |r| == Required(p)
  {
    SegmentsDrawable(p);
    PicksFrom(Segments(p), draw, 0)
  }

  /** The password before the shuffle: the minimums, then padding from the whole set. */
  function Drawn(p: Policy, draw: nat -> nat): (d: seq<char>)
    requires CanGenerate(p)
    ensures |d| >= p.length && |d| >= Required(p)
  {
    Minimums(p, draw) + Picks(Charset(p), Times(p.length - Required(p)), draw, Required(p))
  }

  /** Every character of `s` is in `cs`. */
  predicate AllIn(s: seq<char>, cs: string) {
    forall i :: 0 <= i < |s| ==> s[i] in cs
  }

  /** Number of positions of `s` holding a character of `alphabet`. */
  function CountIn(s: seq<char>, alphabet: string): (n: nat)
    ensures n <= |s|
  {
    if s == [] then 0 else (if s[0] in alphabet then 1 else 0) + CountIn(s[1..], alphabet)
  }

  lemma {:induction false} CountConcat(a: seq<char>, b: seq<char>, alphabet: string)
    ensures CountIn(a + b, alphabet) == CountIn(a, alphabet) + CountIn(b, alphabet)
  {
    if a == [] {
      assert a + b == b;
    } else {
      assert (a + b)[1..] == a[1..] + b;
      CountConcat(a[1..], b, alphabet);
    }
  }

  /** A permutation has as many characters of every alphabet as the original. */
  lemma {:induction false} CountPermutation(a: seq<char>, b: seq<char>, alphabet: string)
    requires multiset(a) == multiset(b)
    ensures CountIn(a, alphabet) == CountIn(b, alphabet)
    decreases |a|
  {
    if a == [] {
      assert |multiset(b)| == 0;
    } else {
      var x := a[0];
      assert x in multiset(b);
      var j :| 0 <= j < |b| && b[j] == x;
      var rest := b[..j] + b[j + 1..];
      assert b == b[..j] + ([x] + b[j + 1..]);
      assert multiset(b) == multiset(b[..j]) + multiset{x} + multiset(b[j + 1..]);
      assert multiset(rest) == multiset(b[..j]) + multiset(b[j + 1..]);
      assert a == [x] + a[1..];
      assert multiset(a) == multiset{x} + multiset(a[1..]);
      assert multiset(a[1..]) == multiset(a) - multiset{x};
      assert multiset(rest) == multiset(b) - multiset{x};
      CountPermutation(a[1..], rest, alphabet);
      CountConcat(b[..j], [x] + b[j + 1..], alphabet);
      CountConcat([x], b[j + 1..], alphabet);
      CountConcat(b[..j], b[j + 1..], alphabet);
      assert CountIn([x], alphabet) == (if x in alphabet then 1 else 0) by {
        assert [x][1..] == [];
      }
    }
  }

  /** Choices from an alphabet all count for it. */
  lemma {:induction false} CountPicks(alphabet: string, count: nat, draw: nat -> nat, from: nat)
    requires count > 0 ==> alphabet != []
    ensures CountIn(Picks(alphabet, count, draw, from), alphabet) == count
  {
    if count > 0 {
      var r := Picks(alphabet, count, draw, from);
      CountPicks(alphabet, count - 1, draw, from + 1);
      assert r[1..] == Picks(alphabet, count - 1, draw, from + 1);
      assert r[0] == Choose(alphabet, draw(from));
      assert CountIn(r, alphabet) == 1 + CountIn(r[1..], alphabet);
    }
  }

  /** Each segment contributes at least its count of characters from its alphabet. */
  lemma {:induction false} CountPicksFrom(segs: seq<(string, nat)>, draw: nat -> nat, from: nat, k: nat)
    requires Drawable(segs) && k < |segs|
    ensures CountIn(PicksFrom(segs, draw, from), segs[k].0) >= segs[k].1
  {
    var n := |segs| - 1;
    var init := segs[..n];
    PicksFromLast(segs, draw, from);
    var front := PicksFrom(init, draw, from);
    var back := Picks(segs[n].0, segs[n].1, draw, from + Total(init));
    var alphabet := segs[k].0;
    CountConcat(front, back, alphabet);
    assert CountIn(PicksFrom(segs, draw, from), alphabet) == CountIn(front, alphabet) + CountIn(back, alphabet);
    if k == n {
      CountPicks(segs[n].0, segs[n].1, draw, from + Total(init));
    } else {
      assert init[k] == segs[k];
      CountPicksFrom(init, draw, from, k);
    }
  }

  /** The alphabets of two runs of segments, one after the other. */
  lemma {:induction false} AlphabetsConcat(s1: seq<(string, nat)>, s2: seq<(string, nat)>)
    ensures Alphabets(s1 + s2) == Alphabets(s1) + Alphabets(s2)
    decreases |s2|
  {
    if s2 == [] {
      assert s1 + s2 == s1;
    } else {
      var n := |s2| - 1;
      assert (s1 + s2)[..|s1 + s2| - 1] == s1 + s2[..n];
      assert (s1 + s2)[|s1 + s2| - 1] == s2[n];
      AlphabetsConcat(s1, s2[..n]);
      assert Alphabets(s1 + s2) == Alphabets(s1) + Alphabets(s2[..n]) + s2[n].0;
    }
  }

  /** The alphabets of the segments are the enabled classes, one after the other. */
  lemma SegmentsAlphabets(p: Policy)
    ensures Alphabets(Segments(p)) ==
      (if p.includeLowercase then LowerClass(p) else [])
      + (if p.includeUppercase then UpperClass(p) else [])
      + (if p.includeDigits then DigitClass(p) else [])
      + (if p.includeSpecial then p.specialChars else [])
  {
    var l: seq<(string, nat)> := if p.includeLowercase then [(LowerClass(p), Times(p.minLowercase))] else [];
    var u: seq<(string, nat)> := if p.includeUppercase then [(UpperClass(p), Times(p.minUppercase))] else [];
    var d: seq<(string, nat)> := if p.includeDigits then [(DigitClass(p), Times(p.minDigits))] else [];
    var x: seq<(string, nat)> := if p.includeSpecial then [(p.specialChars, Times(p.minSpecial))] else [];
    AlphabetsConcat(l + u + d, x);
    AlphabetsConcat(l + u, d);
    AlphabetsConcat(l, u);
    assert forall seg: (string, nat) :: Alphabets([seg]) == seg.0 by {
      forall seg: (string, nat) ensures Alphabets([seg]) == seg.0 {
        assert [seg][..0] == [];
      }
    }
  }

  /** Each segment's choices come from the concatenated alphabets. */
  lemma {:induction false} PicksFromIn(segs: seq<(string, nat)>, draw: nat -> nat, from: nat)
    requires Drawable(segs)
    ensures AllIn(PicksFrom(segs, draw, from), Alphabets(segs))
  {
    if segs != [] {
      var n := |segs| - 1;
      var init := segs[..n];
      PicksFromLast(segs, draw, from);
      PicksFromIn(init, draw, from);
      var front := PicksFrom(init, draw, from);
      var back := Picks(segs[n].0, segs[n].1, draw, from + Total(init));
      var all := Alphabets(init) + segs[n].0;
      assert all == Alphabets(segs);
      PicksIn(segs[n].0, segs[n].1, draw, from + Total(init));
      forall i | 0 <= i < |front + back| ensures (front + back)[i] in all {
        if i < |front| {
          assert front[i] in Alphabets(init);
        } else {
          assert back[i - |front|] in segs[n].0;
        }
      }
    }
  }

  /** The choices of all segments but the last, then those of the last. */
  lemma PicksFromLast(segs: seq<(string, nat)>, draw: nat -> nat, from: nat)
    requires Drawable(segs) && segs != []
    ensures Drawable(segs[..|segs| - 1])
    ensures PicksFrom(segs, draw, from) == PicksFrom(segs[..|segs| - 1], draw, from)
      + Picks(segs[|segs| - 1].0, segs[|segs| - 1].1, draw, from + Total(segs[..|segs| - 1]))
  {
    DrawableInit(segs);
  }

  /** Dropping the last segment keeps the others drawable. */
  lemma DrawableInit(segs: seq<(string, nat)>)
    requires Drawable(segs) && segs != []
    ensures Drawable(segs[..|segs| - 1])
  {
    var init := segs[..|segs| - 1];
    forall j | 0 <= j < |init| && init[j].1 > 0 ensures init[j].0 != [] {
      assert init[j] == segs[j];
    }
  }

  /** One more drawable segment at the end keeps the segments drawable. */
  lemma DrawableSnoc(segs: seq<(string, nat)>, seg: (string, nat))
    requires Drawable(segs) && (seg.1 > 0 ==> seg.0 != [])
    ensures Drawable(segs + [seg])
  {
    var all := segs + [seg];
    forall k | 0 <= k < |all| && all[k].1 > 0 ensures all[k].0 != [] {
      if k < |segs| { assert all[k] == segs[k]; }
    }
  }

  /** One more segment at the end adds its count, its alphabet and its choices at the end. */
  lemma PicksFromSnoc(segs: seq<(string, nat)>, seg: (string, nat), draw: nat -> nat, from: nat)
    requires Drawable(segs) && (seg.1 > 0 ==> seg.0 != [])
    ensures Drawable(segs + [seg])
    ensures Total(segs + [seg]) == Total(segs) + seg.1
    ensures Alphabets(segs + [seg]) == Alphabets(segs) + seg.0
    ensures PicksFrom(segs + [seg], draw, from) ==
      PicksFrom(segs, draw, from) + Picks(seg.0, seg.1, draw, from + Total(segs))
  {
    DrawableSnoc(segs, seg);
    var all := segs + [seg];
    assert all[..|all| - 1] == segs;
    assert all[|all| - 1] == seg;
  }

  /** The password has the requested length, or the guaranteed count when that is larger. */
  lemma DrawnLength(p: Policy, draw: nat -> nat)
    requires CanGenerate(p)
    ensures |Drawn(p, draw)| == if p.length > Required(p) then p.length else Required(p)
  {
  }

  /** Every drawn character belongs to the assembled character set. */
  lemma DrawnInCharset(p: Policy, draw: nat -> nat)
    requires CanGenerate(p)
    ensures AllIn(Drawn(p, draw), Charset(p))
  {
    SegmentsDrawable(p);
    PicksFromIn(Segments(p), draw, 0);
    var m := Minimums(p, draw);
    var pad := Picks(Charset(p), Times(p.length - Required(p)), draw, Required(p));
    PicksIn(Charset(p), Times(p.length - Required(p)), draw, Required(p));
    forall i | 0 <= i < |m + pad| ensures (m + pad)[i] in Charset(p) {
      if i < |m| {
        assert m[i] in Charset(p);
      } else {
        assert pad[i - |m|] in Charset(p);
      }
    }
  }

  /** Each enabled class contributes at least its minimum count of characters. */
  lemma DrawnMinimums(p: Policy, draw: nat -> nat, k: nat)
    requires CanGenerate(p) && k < |Segments(p)|
    ensures CountIn(Drawn(p, draw), Segments(p)[k].0) >= Segments(p)[k].1
  {
    SegmentsDrawable(p);
    CountPicksFrom(Segments(p), draw, 0, k);
    CountConcat(Minimums(p, draw), Picks(Charset(p), Times(p.length - Required(p)), draw, Required(p)),
      Segments(p)[k].0);
  }

  /** With exclude_ambiguous, an ambiguous character is in the set only as a special character. */
  lemma CharsetUnambiguous(p: Policy, c: char)
    requires p.excludeAmbiguous && c in Charset(p) && c in Ambiguous
    ensures p.includeSpecial && c in p.specialChars
  {
    ClassesUnambiguous(p, c);
  }

  /** With exclude_ambiguous, no letter or digit class holds an ambiguous character. */
  lemma ClassesUnambiguous(p: Policy, c: char)
    requires p.excludeAmbiguous && c in Ambiguous
    ensures c !in LowerClass(p) && c !in UpperClass(p) && c !in DigitClass(p)
  {
    assert c == 'l' || c == 'o' || c == 'I' || c == 'O' || c == '0' || c == '1';
    LowerRange(p, c);
    UpperRange(p, c);
    DigitRange(p, c);
  }

  /** `for _ in range(count): chars.append(secrets.choice(alphabet))`. */
  method AppendPicks(chars: seq<char>, alphabet: string, count: int, draw: nat -> nat)
    returns (result: seq<char>)
    requires count > 0 ==> alphabet != []
    ensures result == chars + Picks(alphabet, Times(count), draw, |chars|)
  {
    result := chars;
    var n := Times(count);
    for i := 0 to n
      invariant result == chars + Picks(alphabet, i, draw, |chars|)
    {
      result := result + [Choose(alphabet, draw(|chars| + i))];
      assert Picks(alphabet, i + 1, draw, |chars|) ==
        Picks(alphabet, i, draw, |chars|) + [Choose(alphabet, draw(|chars| + i))];
    }
  }

  /** The sequence with positions `i` and `j` exchanged. */
  function Swap<T>(s: seq<T>, i: nat, j: nat): (r: seq<T>)
    requires i < |s| && j < |s|
    ensures |r| == |s|
    ensures r[i] == s[j] && r[j] == s[i]
    ensures forall k :: 0 <= k < |s| && k != i && k != j ==> r[k] == s[k]
  {
    s[i := s[j]][j := s[i]]
  }

  /** A swap only reorders. */
  lemma SwapPermutes<T>(s: seq<T>, i: nat, j: nat)
    requires i < |s| && j < |s|
    ensures multiset(Swap(s, i, j)) == multiset(s)
  {
  }

  /**
   * random.shuffle's swaps for positions i, i - 1, ..., 1: each position
   * exchanged with one at or before it, chosen by `pick`.
   */
  function ShuffleFrom<T>(s: seq<T>, i: int, pick: nat -> nat): (r: seq<T>)
    requires i < |s|
    ensures |r| == |s|
    decreases i
  {
    if i <= 0 then s else ShuffleFrom(Swap(s, i, pick(i) % (i + 1)), i - 1, pick)
  }

  /** The shuffle only reorders: every element keeps its number of occurrences. */
  lemma {:induction false} ShuffleFromPermutes<T>(s: seq<T>, i: int, pick: nat -> nat)
    requires i < |s|
    ensures multiset(ShuffleFrom(s, i, pick)) == multiset(s)
    decreases i
  {
    if i > 0 {
      SwapPermutes(s, i, pick(i) % (i + 1));
      ShuffleFromPermutes(Swap(s, i, pick(i) % (i + 1)), i - 1, pick);
    }
  }

  /** random.shuffle with the swap partners `pick` supplies. */
  function Shuffled<T>(s: seq<T>, pick: nat -> nat): (r: seq<T>)
    ensures |r| == |s|
  {
    ShuffleFrom(s, |s| - 1, pick)
  }

  /** The shuffle only reorders. */
  lemma ShuffledPermutes<T>(s: seq<T>, pick: nat -> nat)
    ensures multiset(Shuffled(s, pick)) == multiset(s)
  {
    ShuffleFromPermutes(s, |s| - 1, pick);
  }

  /** The password generate returns for the given random streams. */
  function Generated(p: Policy, draw: nat -> nat, pick: nat -> nat): (password: string)
    requires CanGenerate(p)
    ensures multiset(password) == multiset(Drawn(p, draw))
  {
    var chars := Drawn(p, draw);
    ShuffledPermutes(chars, pick);
    Shuffled(chars, pick)
  }

  /** random.shuffle on the array, in place. */
  method Shuffle<T>(a: array<T>, pick: nat -> nat)
    modifies a
    ensures a[..] == Shuffled(old(a[..]), pick)
  {
    var i := a.Length - 1;
    while i > 0
      invariant i < a.Length
      invariant ShuffleFrom(a[..], i, pick) == Shuffled(old(a[..]), pick)
    {
      var j := pick(i) % (i + 1);
      ghost var before := a[..];
      assert ShuffleFrom(before, i, pick) == ShuffleFrom(Swap(before, i, j), i - 1, pick);
      a[i], a[j] := a[j], a[i];
      assert a[..] == Swap(before, i, j);
      i := i - 1;
    }
  }

  /**
   * Whatever order the shuffle leaves them in, the drawn characters have the
   * promised length, stay in the character set, meet every class minimum and
   * avoid the ambiguous characters unless the special characters supply them.
   */
  lemma ShuffledProperties(p: Policy, draw: nat -> nat, password: string)
    requires CanGenerate(p) && multiset(password) == multiset(Drawn(p, draw))
    ensures |password| == if p.length > Required(p) then p.length else Required(p)
    ensures AllIn(password, Charset(p))
    ensures forall k :: 0 <= k < |Segments(p)| ==> CountIn(password, Segments(p)[k].0) >= Segments(p)[k].1
    ensures p.excludeAmbiguous ==>
      forall i :: 0 <= i < |password| && password[i] in Ambiguous ==> password[i] in p.specialChars
  {
    var chars := Drawn(p, draw);
    assert |password| == |multiset(password)| == |chars|;
    DrawnLength(p, draw);
    DrawnInCharset(p, draw);
    forall i | 0 <= i < |password| ensures password[i] in Charset(p) {
      assert password[i] in multiset(chars);
    }
    forall k | 0 <= k < |Segments(p)| ensures CountIn(password, Segments(p)[k].0) >= Segments(p)[k].1 {
      DrawnMinimums(p, draw, k);
      CountPermutation(password, chars, Segments(p)[k].0);
    }
    if p.excludeAmbiguous {
      forall i | 0 <= i < |password| && password[i] in Ambiguous ensures password[i] in p.specialChars {
        CharsetUnambiguous(p, password[i]);
      }
    }
  }

  /** Each enabled class's segment, for reading the minimums off `Segments`. */
  lemma SegmentsClasses(p: Policy)
    ensures p.includeLowercase ==> (LowerClass(p), Times(p.minLowercase)) in Segments(p)
    ensures p.includeUppercase ==> (UpperClass(p), Times(p.minUppercase)) in Segments(p)
    ensures p.includeDigits ==> (DigitClass(p), Times(p.minDigits)) in Segments(p)
    ensures p.includeSpecial ==> (p.specialChars, Times(p.minSpecial)) in Segments(p)
  {
  }

  /** The draws so far, extended by the next class when it is enabled. */
  lemma ExtendDrawn(pre: seq<(string, nat)>, enabled: bool, alphabet: string, minimum: int,
                    draw: nat -> nat, chars: seq<char>, charset: string)
    requires Drawable(pre) && chars == PicksFrom(pre, draw, 0) && charset == Alphabets(pre)
    requires enabled && minimum > 0 ==> alphabet != []
    ensures Drawable(pre + Optional(enabled, alphabet, minimum))
    ensures !enabled ==> pre + Optional(enabled, alphabet, minimum) == pre
    ensures enabled ==>
      chars + Picks(alphabet, Times(minimum), draw, |chars|) == PicksFrom(pre + Optional(enabled, alphabet, minimum), draw, 0)
    ensures enabled ==> charset + alphabet == Alphabets(pre + Optional(enabled, alphabet, minimum))
  {
    if !enabled {
      assert pre + [] == pre;
    } else {
      PicksFromSnoc(pre, (alphabet, Times(minimum)), draw, 0);
    }
  }

  /**
   * One `if include_...:` block of generate: when the class is enabled,
   * its alphabet joins the character set and its minimum is drawn from it.
   */
  method AddClass(charset: string, chars: seq<char>, enabled: bool, alphabet: string, minimum: int,
                  draw: nat -> nat, ghost pre: seq<(string, nat)>)
    returns (charset': string, chars': seq<char>)
    requires Drawable(pre) && chars == PicksFrom(pre, draw, 0) && charset == Alphabets(pre)
    requires enabled && minimum > 0 ==> alphabet != []
    ensures Drawable(pre + Optional(enabled, alphabet, minimum))
    ensures chars' == PicksFrom(pre + Optional(enabled, alphabet, minimum), draw, 0)
    ensures charset' == Alphabets(pre + Optional(enabled, alphabet, minimum))
  {
    ExtendDrawn(pre, enabled, alphabet, minimum, draw, chars, charset);
    charset', chars' := charset, chars;
    if enabled {
      charset' := charset + alphabet;
      chars' := AppendPicks(chars, alphabet, minimum, draw);
    }
  }

  /** The four class blocks of generate: the character set and the class minimums. */
  method DrawMinimums(p: Policy, draw: nat -> nat) returns (charset: string, chars: seq<char>)
    requires SpecialsDrawable(p)
    ensures charset == Charset(p)
    ensures chars == Minimums(p, draw)
  {
    ClassesNonEmpty(p);
    ghost var L := Optional(p.includeLowercase, LowerClass(p), p.minLowercase);
    ghost var U := Optional(p.includeUppercase, UpperClass(p), p.minUppercase);
    ghost var D := Optional(p.includeDigits, DigitClass(p), p.minDigits);
    charset, chars := AddClass([], [], p.includeLowercase, LowerClass(p), p.minLowercase, draw, []);
    assert [] + L == L;
    charset, chars := AddClass(charset, chars, p.includeUppercase, UpperClass(p), p.minUppercase, draw, L);
    charset, chars := AddClass(charset, chars, p.includeDigits, DigitClass(p), p.minDigits, draw, L + U);
    charset, chars := AddClass(charset, chars, p.includeSpecial, p.specialChars, p.minSpecial, draw, L + U + D);
  }

  /**
   * The first half of PasswordGenerator.generate: the character set, the
   * class minimums in class order, then the padding from the whole set.
   */
  method DrawCharacters(p: Policy, draw: nat -> nat) returns (charset: string, chars: seq<char>)
    requires CanGenerate(p)
    ensures charset == Charset(p)
    ensures chars == Drawn(p, draw)
  {
    charset, chars := DrawMinimums(p, draw);
    var remaining := p.length - |chars|;
    chars := AppendPicks(chars, charset, remaining, draw);
  }

  /** The generated password meets every promise of the policy. */
  lemma GeneratedMeetsPolicy(p: Policy, draw: nat -> nat, pick: nat -> nat)
    requires CanGenerate(p)
    ensures var password := Generated(p, draw, pick);
      && |password| == (if p.length > Required(p) then p.length else Required(p))
      && AllIn(password, Charset(p))
      && (p.includeLowercase ==> CountIn(password, LowerClass(p)) >= Times(p.minLowercase))
      && (p.includeUppercase ==> CountIn(password, UpperClass(p)) >= Times(p.minUppercase))
      && (p.includeDigits ==> CountIn(password, DigitClass(p)) >= Times(p.minDigits))
      && (p.includeSpecial ==> CountIn(password, p.specialChars) >= Times(p.minSpecial))
      && (p.excludeAmbiguous ==>
            forall i :: 0 <= i < |password| && password[i] in Ambiguous ==> password[i] in p.specialChars)
  {
    ShuffledProperties(p, draw, Generated(p, draw, pick));
    SegmentsClasses(p);
  }

  /** PasswordGenerator.generate: the drawn characters, shuffled. */
  method Generate(p: Policy, draw: nat -> nat, pick: nat -> nat) returns (password: string)
    requires CanGenerate(p)
    ensures password == Generated(p, draw, pick)
  {
    var charset, chars := DrawCharacters(p, draw);
    var a := new char[|chars|](i requires 0 <= i < |chars| => chars[i]);
    assert a[..] == chars;
    Shuffle(a, pick);
    password := a[..];
  }
}
