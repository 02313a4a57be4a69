/**
 * Diagnostics shown in the editor's gutter, the filter that drops known false
 * positives of the bundled HTML checker, and the string by which replies of the
 * Python checker are compared.
 */
module Annotations {

  /** One inline diagnostic of the editing engine. */
  datatype Annotation = Annotation(row: int, column: int, text: string, kind: string)

  /**
   * The four ignored patterns. Each is an unanchored regular expression whose only
   * special character, a dot, is escaped, so matching one is containing its text.
   */
  const IgnoredPhrases: seq<string> := [
    "doctype first. Expected",
    "Unexpected End of file. Expected",
    "'-' after '--' found in comment",
    "Unexpected character in comment found"
  ]

  /** `p` occurs in `s` starting at index `i`. */
  predicate MatchesAt(s: string, p: string, i: int) {
    0 <= i && i + |p| <= |s| && s[i..i + |p|] == p
  }

  /** `p` occurs somewhere in `s` (what an unanchored literal pattern tests). */
  predicate Contains(s: string, p: string)
    decreases |s|
  {
    |p| <= |s| && (s[..|p|] == p || Contains(s[1..], p))
  }

  /** Contains agrees with the window-by-window definition of an occurrence. */
  lemma {:induction false} ContainsIffSomeMatch(s: string, p: string)
    ensures Contains(s, p) <==> exists i :: MatchesAt(s, p, i)
    decreases |s|
  {
    if |p| == 0 {
      assert MatchesAt(s, p, 0);
    } else if |p| <= |s| {
      ContainsIffSomeMatch(s[1..], p);
      if Contains(s, p) {
        if s[..|p|] == p {
          assert MatchesAt(s, p, 0);
        } else {
          var i :| MatchesAt(s[1..], p, i);
          assert s[i + 1..i + 1 + |p|] == s[1..][i..i + |p|];
          assert MatchesAt(s, p, i + 1);
        }
      } else {
        forall i | MatchesAt(s, p, i) ensures false {
          if i != 0 {
            assert s[1..][i - 1..i - 1 + |p|] == s[i..i + |p|];
            assert MatchesAt(s[1..], p, i - 1);
          }
        }
      }
    }
  }

  /**
   * The annotation's text contains one of the ignored phrases: some ignored phrase
   * occurs at some index of the text.
   */
  function IsNoise(a: Annotation): (noisy: bool)
    ensures noisy <==> exists phrase, i | phrase in IgnoredPhrases :: MatchesAt(a.text, phrase, i)
  {
    ContainsIffSomeMatch(a.text, IgnoredPhrases[0]);
    ContainsIffSomeMatch(a.text, IgnoredPhrases[1]);
    ContainsIffSomeMatch(a.text, IgnoredPhrases[2]);
    ContainsIffSomeMatch(a.text, IgnoredPhrases[3]);
    exists phrase | phrase in IgnoredPhrases :: Contains(a.text, phrase)
  }

  /** Some annotation of the list is noise. */
  predicate HasNoise(anns: seq<Annotation>) {
    exists a | a in anns :: IsNoise(a)
  }

  /** `xs` is `ys` with some elements left out and the rest in their order. */
  predicate IsSubsequence<T(==)>(xs: seq<T>, ys: seq<T>)
    decreases |ys|
  {
    xs == [] ||
    (ys != [] && if xs[0] == ys[0] then IsSubsequence(xs[1..], ys[1..]) else IsSubsequence(xs, ys[1..]))
  }

  /** The annotations that survive the noise filter, in their original order. */
  function FilterNoise(anns: seq<Annotation>): (r: seq<Annotation>)
    ensures |r| <= |anns|
    ensures forall a | a in r :: a in anns && !IsNoise(a)
  {
    if anns == [] then []
    else (if IsNoise(anns[0]) then [] else [anns[0]]) + FilterNoise(anns[1..])
  }

  /** The filtered list is an order-preserving selection of the raw list. */
  lemma {:induction false} FilterIsSubsequence(anns: seq<Annotation>)
    ensures IsSubsequence(FilterNoise(anns), anns)
  {
    if anns != [] {
      var r, tail := FilterNoise(anns), FilterNoise(anns[1..]);
      FilterIsSubsequence(anns[1..]);
      if IsNoise(anns[0]) {
        assert r == tail;
        if r != [] {
          assert r[0] in r;
          assert r[0] != anns[0];
        }
      } else {
        assert r == [anns[0]] + tail;
        assert r[1..] == tail;
      }
    }
  }

  /** The filter keeps every clean annotation as often as it occurs and no noisy one. */
  lemma {:induction false} FilterCounts(anns: seq<Annotation>, a: Annotation)
    ensures multiset(FilterNoise(anns))[a] == if IsNoise(a) then 0 else multiset(anns)[a]
  {
    if anns != [] {
      FilterCounts(anns[1..], a);
      assert anns == [anns[0]] + anns[1..];
      assert multiset(anns) == multiset{anns[0]} + multiset(anns[1..]);
      if IsNoise(anns[0]) {
        assert FilterNoise(anns) == FilterNoise(anns[1..]);
      } else {
        assert FilterNoise(anns) == [anns[0]] + FilterNoise(anns[1..]);
        assert multiset(FilterNoise(anns)) == multiset{anns[0]} + multiset(FilterNoise(anns[1..]));
      }
    }
  }

  /** The filtered list never contains noise. */
  lemma FilterIsClean(anns: seq<Annotation>)
    ensures !HasNoise(FilterNoise(anns))
  {
  }

  /** A list without noise passes the filter unchanged. */
  lemma {:induction false} CleanIsUnfiltered(anns: seq<Annotation>)
    requires !HasNoise(anns)
    ensures FilterNoise(anns) == anns
  {
    if anns != [] {
      assert anns[0] in anns;
      assert forall a | a in anns[1..] :: a in anns;
      CleanIsUnfiltered(anns[1..]);
    }
  }

  /**
   * The filter shortens the list exactly when the list holds noise; otherwise it
   * returns the list as it was. This is the guard on writing annotations back.
   */
  lemma {:induction false} ShorterIffNoise(anns: seq<Annotation>)
    ensures |FilterNoise(anns)| < |anns| <==> HasNoise(anns)
    ensures !HasNoise(anns) ==> FilterNoise(anns) == anns
  {
    if anns != [] {
      ShorterIffNoise(anns[1..]);
      assert anns[0] in anns;
      assert forall a | a in anns :: a == anns[0] || a in anns[1..];
      assert forall a | a in anns[1..] :: a in anns;
    }
  }

  /** Filtering twice removes nothing more than filtering once. */
  lemma FilterIdempotent(anns: seq<Annotation>)
    ensures FilterNoise(FilterNoise(anns)) == FilterNoise(anns)
  {
    FilterIsClean(anns);
    CleanIsUnfiltered(FilterNoise(anns));
  }

  /** A noisy HTML diagnostic is dropped and a real error is kept. */
  lemma FilterExample()
    ensures FilterNoise([Annotation(0, 0, "doctype first. Expected >", "error"),
                         Annotation(3, 1, "real error", "error")])
         == [Annotation(3, 1, "real error", "error")]
  {
    var noisy := Annotation(0, 0, "doctype first. Expected >", "error");
    var genuine := Annotation(3, 1, "real error", "error");
    assert Contains(noisy.text, IgnoredPhrases[0]);
    assert IsNoise(noisy);
    forall phrase | phrase in IgnoredPhrases ensures !Contains(genuine.text, phrase) {
      assert |phrase| > |genuine.text|;
    }
    assert [noisy, genuine][1..] == [genuine];
  }

  /** `parts.join(sep)`: the parts in order with `sep` between neighbours. */
  function Join(parts: seq<string>, sep: string): string {
    if |parts| == 0 then ""
    else if |parts| == 1 then parts[0]
    else parts[0] + sep + Join(parts[1..], sep)
  }

  /** The texts of the annotations, in order. */
  function Texts(anns: seq<Annotation>): (ts: seq<string>)
    ensures |ts| == |anns| && forall i | 0 <= i < |anns| :: ts[i] == anns[i].text
  {
    seq(|anns|, i requires 0 <= i < |anns| => anns[i].text)
  }

  /** The summed length of the parts. */
  function TotalLength(parts: seq<string>): nat {
    if parts == [] then 0 else |parts[0]| + TotalLength(parts[1..])
  }

  /** A join is as long as its parts plus one separator between each pair of neighbours. */
  lemma {:induction false} JoinLength(parts: seq<string>, sep: string)
    ensures |Join(parts, sep)| == TotalLength(parts) + if |parts| == 0 then 0 else (|parts| - 1) * |sep|
  {
    if |parts| >= 2 {
      JoinLength(parts[1..], sep);
      assert TotalLength(parts[1..]) == |parts[1]| + TotalLength(parts[2..]);
    } else if |parts| == 1 {
      assert parts[1..] == [];
    }
  }

  /**
   * The string by which a checker reply is compared with the previous one: the
   * texts in order, with a "-" between neighbours. It starts with the first text
   * and ends with the last, and is as long as the texts plus one per separator.
   */
  function ErrorString(errs: seq<Annotation>): (r: string)
    ensures |errs| > 0 ==> errs[0].text <= r
    ensures |errs| > 0 ==> (|r| >= |errs[|errs| - 1].text| &&
                            r[|r| - |errs[|errs| - 1].text|..] == errs[|errs| - 1].text)
    ensures |r| == TotalLength(Texts(errs)) + if |errs| == 0 then 0 else |errs| - 1
  {
    JoinLength(Texts(errs), "-");
    if |errs| == 0 then Join(Texts(errs), "-")
    else JoinEnds(Texts(errs), "-"); Join(Texts(errs), "-")
  }

  /** A join of at least one part starts with the first part and ends with the last. */
  lemma {:induction false} JoinEnds(parts: seq<string>, sep: string)
    requires |parts| > 0
    ensures parts[0] <= Join(parts, sep)
    ensures |Join(parts, sep)| >= |parts[|parts| - 1]|
    ensures Join(parts, sep)[|Join(parts, sep)| - |parts[|parts| - 1]|..] == parts[|parts| - 1]
  {
    if |parts| >= 2 {
      JoinEnds(parts[1..], sep);
      var rest := Join(parts[1..], sep);
      var last := parts[|parts| - 1];
      assert parts[1..][|parts| - 2] == last;
      var whole := parts[0] + sep + rest;
      assert whole[|whole| - |last|..] == rest[|rest| - |last|..];
    }
  }

  /**
   * A reply's error string is empty exactly when the reply is empty or is one
   * annotation with an empty text.
   */
  lemma ErrorStringEmptyIff(errs: seq<Annotation>)
    ensures ErrorString(errs) == "" <==> |errs| == 0 || (|errs| == 1 && errs[0].text == "")
  {
  }

  /** Lists with the same texts give the same error string, wherever the annotations sit. */
  lemma ErrorStringSeesOnlyTexts(errs: seq<Annotation>, moved: seq<Annotation>)
    requires |errs| == |moved|
    requires forall i | 0 <= i < |errs| :: errs[i].text == moved[i].text
    ensures ErrorString(errs) == ErrorString(moved)
  {
    assert Texts(errs) == Texts(moved);
  }

  /** Different replies can join to the same error string. */
  lemma ErrorStringCollision()
    ensures ErrorString([Annotation(0, 0, "a-b", "error")])
         == ErrorString([Annotation(0, 0, "a", "error"), Annotation(1, 0, "b", "error")])
  {
  }
}
