/** The java.lang.String operations the classifier and the device list rely
    on: toLowerCase, indexOf, contains, substring and compareToIgnoreCase.
    Case mapping is modelled for the ASCII letters only. */
module JavaStrings {
  import opened Wrappers

  /** Lower-case mapping of one character (ASCII letters; every other
      character is left as it is). */
  function LowerChar(c: char): char {
    if 'A' <= c <= 'Z' then (c as int + 32) as char else c
  }

  /** String.toLowerCase. */
  function ToLower(s: string): (r: string)
    ensures |r| == |s|
    ensures forall k :: 0 <= k < |s| ==> r[k] == LowerChar(s[k])
    ensures forall k :: 0 <= k < |r| ==> !('A' <= r[k] <= 'Z')
  {
    if s == [] then [] else [LowerChar(s[0])] + ToLower(s[1..])
  }

  /** t occurs in s starting at position i. */
  predicate OccursAt(s: string, t: string, i: int) {
    0 <= i && i + |t| <= |s| && s[i..i + |t|] == t
  }

  /** String.indexOf(t): the first position at which t occurs in s, or -1. */
  function IndexOf(s: string, t: string): (r: int)
    ensures r == -1 <==> forall i :: !OccursAt(s, t, i)
    ensures r != -1 ==> OccursAt(s, t, r) && forall i :: 0 <= i < r ==> !OccursAt(s, t, i)
  {
    IndexOfFrom(s, t, 0)
  }

  /** The search loop of String.indexOf, started at position from. */
  function IndexOfFrom(s: string, t: string, from: nat): (r: int)
    requires from <= |s|
    decreases |s| - from
    ensures r == -1 ==> forall i :: from <= i ==> !OccursAt(s, t, i)
    ensures r != -1 ==> from <= r && OccursAt(s, t, r) && forall i :: from <= i < r ==> !OccursAt(s, t, i)
  {
    if OccursAt(s, t, from) then from
    else if from + |t| >= |s| then -1
    else IndexOfFrom(s, t, from + 1)
  }

  /** String.contains(t), which the JDK defines as indexOf(t) >= 0. */
  function Contains(s: string, t: string): (r: bool)
    ensures r <==> exists i :: OccursAt(s, t, i)
  {
    IndexOf(s, t) >= 0
  }

  /** String.substring(begin, end): throws unless 0 <= begin <= end <= length. */
  function Substring(s: string, begin: int, end: int): (r: Outcome<string>)
    ensures r.Returns? <==> 0 <= begin <= end <= |s|
    ensures r.Throws? ==> r.exception == StringIndexOutOfBoundsException
    ensures r.Returns? ==> |r.value| == end - begin
                           && forall k :: 0 <= k < |r.value| ==> r.value[k] == s[begin + k]
  {
    if 0 <= begin <= end <= |s| then Returns(s[begin..end])
    else Throws(StringIndexOutOfBoundsException)
  }

  /** A one-character string occurs exactly where that character stands. */
  lemma OccursAtChar(s: string, c: char, i: int)
    ensures OccursAt(s, [c], i) <==> 0 <= i < |s| && s[i] == c
  {
    if 0 <= i < |s| {
      assert s[i..i + 1] == [s[i]];
    }
  }

  /** indexOf of a one-character string is the position of the first
      occurrence of that character, and -1 when it does not occur. */
  lemma IndexOfChar(s: string, c: char)
    ensures IndexOf(s, [c]) == -1 <==> c !in s
    ensures IndexOf(s, [c]) != -1 ==>
              0 <= IndexOf(s, [c]) < |s| && s[IndexOf(s, [c])] == c && c !in s[..IndexOf(s, [c])]
  {
    var r := IndexOf(s, [c]);
    if r == -1 {
      forall k | 0 <= k < |s| ensures s[k] != c {
        OccursAtChar(s, c, k);
      }
    } else {
      OccursAtChar(s, c, r);
      forall k | 0 <= k < r ensures s[..r][k] != c {
        OccursAtChar(s, c, k);
      }
    }
  }

  /** Where u occurs in s, the lower-cased u occurs in the lower-cased s. */
  lemma OccursLowered(s: string, u: string, i: int)
    requires OccursAt(s, u, i)
    ensures OccursAt(ToLower(s), ToLower(u), i) && Contains(ToLower(s), ToLower(u))
  {
    var ls, lu := ToLower(s), ToLower(u);
    var window := ls[i..i + |u|];
    assert |window| == |lu|;
    forall k | 0 <= k < |u| ensures window[k] == lu[k] {
      assert s[i..i + |u|][k] == u[k];
      assert s[i + k] == u[k];
      assert ls[i + k] == LowerChar(s[i + k]);
    }
    assert window == lu;
    assert OccursAt(ls, lu, i);
  }

  /** A string does not contain t when it lacks t's first character. */
  lemma MissingFirstChar(s: string, t: string)
    requires |t| > 0 && t[0] !in s
    ensures !Contains(s, t)
  {
  }

  /** Lower-casing commutes with taking a prefix. */
  lemma ToLowerPrefix(s: string, n: nat)
    requires n <= |s|
    ensures ToLower(s[..n]) == ToLower(s)[..n]
  {
  }

  /** What occurs in a prefix of s occurs in s. */
  lemma ContainsFromPrefix(s: string, n: nat, t: string)
    requires n <= |s|
    requires Contains(s[..n], t)
    ensures Contains(s, t)
  {
    var i :| OccursAt(s[..n], t, i);
    assert s[..n][i..i + |t|] == s[i..i + |t|];
    assert OccursAt(s, t, i);
  }

  /** String.compareToIgnoreCase: the difference of the first pair of
      characters that differ after case folding, else the difference of the
      lengths. */
  function CompareToIgnoreCase(a: string, b: string): (r: int)
    ensures r == 0 ==> |a| == |b|
  {
    if a == [] || b == [] then |a| - |b|
    else if LowerChar(a[0]) != LowerChar(b[0]) then LowerChar(a[0]) as int - LowerChar(b[0]) as int
    else CompareToIgnoreCase(a[1..], b[1..])
  }

  /** x comes strictly before y in lexicographic order of characters: they
      differ first at a position where x has the smaller character, or x is
      a proper prefix of y. */
  predicate LexLess(x: string, y: string) {
    (exists k :: 0 <= k < |x| && k < |y| && x[..k] == y[..k] && x[k] < y[k])
    || (|x| < |y| && x == y[..|x|])
  }

  /** Lower-casing a string with a first character lower-cases its tail. */
  lemma ToLowerTail(s: string)
    requires s != []
    ensures ToLower(s)[0] == LowerChar(s[0]) && ToLower(s)[1..] == ToLower(s[1..])
  {
  }

  /** Two strings with the same first character are in lexicographic order
      exactly when their tails are. */
  lemma LexLessCons(x: string, y: string)
    requires x != [] && y != [] && x[0] == y[0]
    ensures LexLess(x, y) <==> LexLess(x[1..], y[1..])
  {
    var x', y' := x[1..], y[1..];
    if LexLess(x, y) {
      if |x| < |y| && x == y[..|x|] {
        assert x' == y'[..|x'|];
      } else {
        var k :| 0 <= k < |x| && k < |y| && x[..k] == y[..k] && x[k] < y[k];
        assert k != 0;
        assert x'[..k - 1] == x[1..k] == y[1..k] == y'[..k - 1];
        assert x'[k - 1] < y'[k - 1];
      }
    }
    if LexLess(x', y') {
      if |x'| < |y'| && x' == y'[..|x'|] {
        assert x == [x[0]] + x' && y[..|x|] == [y[0]] + y'[..|x'|];
      } else {
        var j :| 0 <= j < |x'| && j < |y'| && x'[..j] == y'[..j] && x'[j] < y'[j];
        assert x[..j + 1] == [x[0]] + x'[..j] && y[..j + 1] == [y[0]] + y'[..j];
        assert x[j + 1] < y[j + 1];
      }
    }
  }

  /** compareToIgnoreCase is negative exactly when the lower-cased a comes
      strictly before the lower-cased b in lexicographic order. */
  lemma {:induction false} CompareToIgnoreCaseLex(a: string, b: string)
    ensures CompareToIgnoreCase(a, b) < 0 <==> LexLess(ToLower(a), ToLower(b))
  {
    var x, y := ToLower(a), ToLower(b);
    if a == [] || b == [] {
      if |x| < |y| {
        assert x == y[..|x|];
      }
    } else {
      ToLowerTail(a);
      ToLowerTail(b);
      if LowerChar(a[0]) != LowerChar(b[0]) {
        if LowerChar(a[0]) < LowerChar(b[0]) {
          assert x[..0] == y[..0];
        } else if LexLess(x, y) && !(|x| < |y| && x == y[..|x|]) {
          var k :| 0 <= k < |x| && k < |y| && x[..k] == y[..k] && x[k] < y[k];
          if k > 0 {
            assert x[..k][0] == y[..k][0];
          }
        }
      } else {
        CompareToIgnoreCaseLex(a[1..], b[1..]);
        LexLessCons(x, y);
      }
    }
  }

  /** Swapping the arguments negates the comparison. */
  lemma {:induction false} CompareToIgnoreCaseAntisymmetric(a: string, b: string)
    ensures CompareToIgnoreCase(a, b) == -CompareToIgnoreCase(b, a)
  {
    if a != [] && b != [] && LowerChar(a[0]) == LowerChar(b[0]) {
      CompareToIgnoreCaseAntisymmetric(a[1..], b[1..]);
    }
  }

  /** Two strings compare equal exactly when they agree up to case. */
  lemma {:induction false} CompareToIgnoreCaseZero(a: string, b: string)
    ensures CompareToIgnoreCase(a, b) == 0 <==> ToLower(a) == ToLower(b)
  {
    if a == [] || b == [] {
    } else if LowerChar(a[0]) != LowerChar(b[0]) {
      assert ToLower(a)[0] != ToLower(b)[0];
    } else {
      CompareToIgnoreCaseZero(a[1..], b[1..]);
      assert ToLower(a) == [LowerChar(a[0])] + ToLower(a[1..]);
      assert ToLower(b) == [LowerChar(b[0])] + ToLower(b[1..]);
    }
  }

  /** The order "compares at most 0" is transitive. */
  lemma {:induction false} CompareToIgnoreCaseTransitive(a: string, b: string, c: string)
    requires CompareToIgnoreCase(a, b) <= 0 && CompareToIgnoreCase(b, c) <= 0
    ensures CompareToIgnoreCase(a, c) <= 0
  {
    if a != [] && b != [] && c != []
       && LowerChar(a[0]) == LowerChar(b[0]) && LowerChar(b[0]) == LowerChar(c[0]) {
      CompareToIgnoreCaseTransitive(a[1..], b[1..], c[1..]);
    }
  }
}
