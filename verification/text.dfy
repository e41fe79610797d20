/**
 * The two string operations the search filter relies on: lower-casing
 * (`str.lower`) and the substring test (`needle in hay`).
 */
module Text {

  /** ASCII lower-casing of one character. */
  function LowerChar(c: char): char
  {
    if 'A' <= c <= 'Z' then (c as int + 32) as char else c
  }

  /** `s.lower()`, restricted to ASCII letters. */
  function Lower(s: string): (r: string)
    ensures |r| == |s|
    ensures forall i :: 0 <= i < |s| ==> r[i] == LowerChar(s[i])
  {
    if s == [] then [] else [LowerChar(s[0])] + Lower(s[1..])
  }

  /** `needle` occurs in `hay` starting at position `i`. */
  predicate OccursAt(hay: string, needle: string, i: nat)
  {
    i + |needle| <= |hay| && hay[i..i + |needle|] == needle
  }

  /** Python's `needle in hay` on strings. */
  predicate Contains(hay: string, needle: string): (r: bool)
    ensures r ==> |needle| <= |hay|
  {
    needle <= hay || (hay != [] && Contains(hay[1..], needle))
  }

  /** An occurrence at any position is found by `Contains`. */
  lemma {:induction false} ContainsFromOccurrence(hay: string, needle: string, i: nat)
    requires OccursAt(hay, needle, i)
    ensures Contains(hay, needle)
  {
    if i > 0 {
      assert hay[1..][i - 1..i - 1 + |needle|] == hay[i..i + |needle|];
      ContainsFromOccurrence(hay[1..], needle, i - 1);
    }
  }

  /** `Contains` only succeeds when there is an occurrence. */
  lemma {:induction false} OccurrenceFromContains(hay: string, needle: string) returns (i: nat)
    requires Contains(hay, needle)
    ensures OccursAt(hay, needle, i)
  {
    if needle <= hay {
      i := 0;
    } else {
      var j := OccurrenceFromContains(hay[1..], needle);
      assert hay[1..][j..j + |needle|] == hay[j + 1..j + 1 + |needle|];
      i := j + 1;
    }
  }

  /** The recursive test agrees with the positional definition of a substring. */
  lemma ContainsIff(hay: string, needle: string)
    ensures Contains(hay, needle) <==> exists i: nat :: OccursAt(hay, needle, i)
  {
    if Contains(hay, needle) {
      var i := OccurrenceFromContains(hay, needle);
    }
    forall i: nat | OccursAt(hay, needle, i)
      ensures Contains(hay, needle)
    {
      ContainsFromOccurrence(hay, needle, i);
    }
  }

  /** The empty string is a substring of every string: `"" in s` is always true. */
  lemma ContainsEmpty(hay: string)
    ensures Contains(hay, "")
  {
    assert OccursAt(hay, "", 0);
    ContainsFromOccurrence(hay, "", 0);
  }

  /** A substring of a substring is a substring. */
  lemma ContainsTransitive(a: string, b: string, c: string)
    requires Contains(a, b) && Contains(b, c)
    ensures Contains(a, c)
  {
    var i := OccurrenceFromContains(a, b);
    var j := OccurrenceFromContains(b, c);
    assert b == a[i..i + |b|];
    forall k | 0 <= k < |c|
      ensures a[i + j + k] == c[k]
    {
      assert c[k] == b[j + k];
    }
    assert a[i + j..i + j + |c|] == c;
    ContainsFromOccurrence(a, c, i + j);
  }

  /** A needle longer than the string never occurs in it. */
  lemma {:induction false} NotContainsLonger(hay: string, needle: string)
    requires |hay| < |needle|
    ensures !Contains(hay, needle)
  {
    if hay != [] {
      NotContainsLonger(hay[1..], needle);
    }
  }

  /** A needle whose first character is absent from the string never occurs in it. */
  lemma {:induction false} NotContainsFirstChar(hay: string, needle: string)
    requires needle != [] && needle[0] !in hay
    ensures !Contains(hay, needle)
  {
    if hay != [] {
      NotContainsFirstChar(hay[1..], needle);
    }
  }
}
