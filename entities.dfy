/**
 * The fallback entity extractor used when no NER model is loaded: every
 * `re.findall` match of `\b([A-Z][a-zA-Z]{2,}(?:\s+[A-Z][a-zA-Z]{2,})*)\b`,
 * lowercased, as a set. The regular expression is written out as a scan:
 * a match starts at a word boundary with a capitalised word of at least three
 * ASCII letters and greedily takes further such words across whitespace; a
 * word that runs on into a digit or `_` cannot end a match, so the engine
 * backs off to the previous word.
 */
module Entities {
  import opened Text

  /** `\w` on ASCII text. */
  predicate IsWordChar(c: char)
  {
    IsLetter(c) || IsDigit(c) || c == '_'
  }

  /** `\b` in front of a word character at `p`. */
  predicate StartBoundary(s: string, p: nat)
    requires p <= |s|
  {
    p == 0 || !IsWordChar(s[p - 1])
  }

  /** `\b` after a word character ending at `e`. */
  predicate EndBoundary(s: string, e: nat)
    requires e <= |s|
  {
    e == |s| || !IsWordChar(s[e])
  }

  /** The end of the run of ASCII letters starting at `a`. */
  function LetterRunEnd(s: string, a: nat): (e: nat)
    requires a <= |s|
    ensures a <= e <= |s|
    ensures forall k :: a <= k < e ==> IsLetter(s[k])
    ensures e == |s| || !IsLetter(s[e])
    decreases |s| - a
  {
    if a < |s| && IsLetter(s[a]) then LetterRunEnd(s, a + 1) else a
  }

  /** The end of the run of whitespace starting at `a`. */
  function SpaceRunEnd(s: string, a: nat): (e: nat)
    requires a <= |s|
    ensures a <= e <= |s|
    ensures forall k :: a <= k < e ==> IsSpace(s[k])
    ensures e == |s| || !IsSpace(s[e])
    decreases |s| - a
  {
    if a < |s| && IsSpace(s[a]) then SpaceRunEnd(s, a + 1) else a
  }

  /**
   * `[A-Z][a-zA-Z]{2,}` at `a`, in the only form a match can use: the whole
   * letter run, which must be followed by a non-word character or the end.
   */
  predicate CapWord(s: string, a: nat)
    requires a <= |s|
  {
    a < |s| && IsUpper(s[a]) && LetterRunEnd(s, a) >= a + 3 && EndBoundary(s, LetterRunEnd(s, a))
  }

  /** `(?:\s+[A-Z][a-zA-Z]{2,})*` from `e`, greedy, backing off to the last word that can end a match. */
  function ChainEnd(s: string, e: nat): (r: nat)
    requires e <= |s|
    ensures e <= r <= |s|
    decreases |s| - e
  {
    var w := SpaceRunEnd(s, e);
    if w > e && CapWord(s, w) then ChainEnd(s, LetterRunEnd(s, w)) else e
  }

  /** Whether a match starts at `p`. */
  predicate MatchesAt(s: string, p: nat)
    requires p <= |s|
  {
    StartBoundary(s, p) && CapWord(s, p)
  }

  /** The end of the match starting at `p`. */
  function MatchEnd(s: string, p: nat): (e: nat)
    requires p <= |s| && MatchesAt(s, p)
    ensures p + 3 <= e <= |s|
  {
    ChainEnd(s, LetterRunEnd(s, p))
  }

  /** `re.findall` from position `p`: a failed attempt moves on by one, a match resumes at its end. */
  function FindAll(s: string, p: nat): seq<string>
    requires p <= |s|
    decreases |s| - p
  {
    if p == |s| then []
    else if MatchesAt(s, p) then [s[p..MatchEnd(s, p)]] + FindAll(s, MatchEnd(s, p))
    else FindAll(s, p + 1)
  }

  /** `extract_entities` with no NER model loaded. */
  function ExtractEntities(text: string): (r: set<string>)
    ensures text == [] ==> r == {}
  {
    if text == [] then {} else LowerAll(FindAll(text, 0))
  }

  /** `{m.lower() for m in ms}`. */
  function LowerAll(ms: seq<string>): set<string>
  {
    set m | m in ms :: Lower(m)
  }

  // ---------------------------------------------------------------------
  // What a match looks like
  // ---------------------------------------------------------------------

  /**
   * `s[a..e]` is one or more words separated by whitespace, each word an
   * upper-case ASCII letter followed by at least two more ASCII letters.
   */
  ghost predicate PhraseAt(s: string, a: nat, e: nat)
    requires a <= e <= |s|
  {
    && e >= a + 3 && IsUpper(s[a]) && IsLetter(s[e - 1])
    && (forall k :: a <= k < e ==> IsLetter(s[k]) || IsSpace(s[k]))
    && (forall k {:trigger WordStart(s, a, k)} :: a <= k < e && WordStart(s, a, k) ==>
          IsUpper(s[k]) && k + 2 < e && IsLetter(s[k + 1]) && IsLetter(s[k + 2]))
  }

  /** A word of the phrase starting at `a` begins at `k`. */
  predicate WordStart(s: string, a: nat, k: nat)
    requires a <= k < |s|
  {
    IsLetter(s[k]) && (k == a || !IsLetter(s[k - 1]))
  }

  /** One capitalised word is a phrase. */
  lemma WordPhrase(s: string, a: nat)
    requires a <= |s| && CapWord(s, a)
    ensures PhraseAt(s, a, LetterRunEnd(s, a))
  {
    var r := LetterRunEnd(s, a);
    forall k | a <= k < r && WordStart(s, a, k)
      ensures IsUpper(s[k]) && k + 2 < r && IsLetter(s[k + 1]) && IsLetter(s[k + 2])
    {
    }
  }

  /** A phrase followed by whitespace and another capitalised word is a phrase. */
  lemma PhraseExtend(s: string, a: nat, e: nat, w: nat)
    requires a <= e < w <= |s| && PhraseAt(s, a, e)
    requires forall k :: e <= k < w ==> IsSpace(s[k]) && !IsLetter(s[k])
    requires CapWord(s, w)
    ensures PhraseAt(s, a, LetterRunEnd(s, w))
  {
    var r := LetterRunEnd(s, w);
    forall k | a <= k < r
      ensures IsLetter(s[k]) || IsSpace(s[k])
    {
    }
    forall k | a <= k < r && WordStart(s, a, k)
      ensures IsUpper(s[k]) && k + 2 < r && IsLetter(s[k + 1]) && IsLetter(s[k + 2])
    {
      if k < e {
        assert WordStart(s, a, k);
      }
    }
  }

  /** The chain from the end of a phrase still ends a phrase, at a word boundary. */
  lemma {:induction false} ChainPhrase(s: string, a: nat, e: nat)
    requires a <= e <= |s| && PhraseAt(s, a, e) && EndBoundary(s, e)
    ensures PhraseAt(s, a, ChainEnd(s, e)) && EndBoundary(s, ChainEnd(s, e))
    decreases |s| - e
  {
    var w := SpaceRunEnd(s, e);
    if w > e && CapWord(s, w) {
      PhraseExtend(s, a, e, w);
      ChainPhrase(s, a, LetterRunEnd(s, w));
    }
  }

  /** Every match is a phrase between word boundaries. */
  lemma MatchPhrase(s: string, p: nat)
    requires p <= |s| && MatchesAt(s, p)
    ensures PhraseAt(s, p, MatchEnd(s, p)) && StartBoundary(s, p) && EndBoundary(s, MatchEnd(s, p))
  {
    WordPhrase(s, p);
    ChainPhrase(s, p, LetterRunEnd(s, p));
  }

  /** Every string `findall` returns from `p` on is a phrase of `s` between word boundaries. */
  lemma {:induction false} FindAllSound(s: string, p: nat, m: string) returns (a: nat, e: nat)
    requires p <= |s| && m in FindAll(s, p)
    ensures p <= a < e <= |s| && m == s[a..e]
    ensures PhraseAt(s, a, e) && StartBoundary(s, a) && EndBoundary(s, e)
    decreases |s| - p
  {
    if MatchesAt(s, p) && m == s[p..MatchEnd(s, p)] {
      a, e := p, MatchEnd(s, p);
      MatchPhrase(s, p);
    } else if MatchesAt(s, p) {
      a, e := FindAllSound(s, MatchEnd(s, p), m);
    } else {
      a, e := FindAllSound(s, p + 1, m);
    }
  }

  /** Every entity is the lowercase form of a phrase of the text that sits between word boundaries. */
  lemma EntitySound(text: string, x: string) returns (a: nat, e: nat)
    requires x in ExtractEntities(text)
    ensures a < e <= |text| && x == Lower(text[a..e])
    ensures PhraseAt(text, a, e) && StartBoundary(text, a) && EndBoundary(text, e)
  {
    var m :| m in FindAll(text, 0) && x == Lower(m);
    a, e := FindAllSound(text, 0, m);
  }

  /** Entities hold no upper-case ASCII letter. */
  lemma EntitiesLowercase(text: string, x: string)
    requires x in ExtractEntities(text)
    ensures forall k :: 0 <= k < |x| ==> !IsUpper(x[k])
  {
    var m :| m in FindAll(text, 0) && x == Lower(m);
  }

  /** Without an upper-case position from `p` on, `findall` finds nothing. */
  lemma {:induction false} NoUpperNoMatch(s: string, p: nat)
    requires p <= |s|
    requires forall k :: p <= k < |s| ==> !IsUpper(s[k])
    ensures FindAll(s, p) == []
    decreases |s| - p
  {
    if p < |s| {
      NoUpperNoMatch(s, p + 1);
    }
  }

  /** Text without an upper-case ASCII letter has no entities. */
  lemma NoUpperNoEntities(text: string)
    requires forall k :: 0 <= k < |text| ==> !IsUpper(text[k])
    ensures ExtractEntities(text) == {}
  {
    NoUpperNoMatch(text, 0);
  }

  /** A match the scan can reach is found. */
  lemma {:induction false} MatchFound(s: string, q: nat, p: nat)
    requires q <= p <= |s| && MatchesAt(s, p)
    requires forall k :: q <= k < p ==> !MatchesAt(s, k)
    ensures FindAll(s, q) != []
    decreases p - q
  {
    if q < p {
      MatchFound(s, q + 1, p);
    }
  }

  /** The first position where a match starts yields an entity: text with any match has an entity. */
  lemma SomeMatchSomeEntity(text: string, p: nat)
    requires p <= |text| && MatchesAt(text, p)
    ensures ExtractEntities(text) != {}
  {
    var q := FirstMatch(text, 0, p);
    MatchFound(text, 0, q);
    var m := FindAll(text, 0)[0];
    assert Lower(m) in ExtractEntities(text);
  }

  /** The first position at or after `from` where a match starts, given one at `p`. */
  lemma {:induction false} FirstMatch(s: string, from: nat, p: nat) returns (q: nat)
    requires from <= p <= |s| && MatchesAt(s, p)
    ensures from <= q <= p && MatchesAt(s, q)
    ensures forall k :: from <= k < q ==> !MatchesAt(s, k)
    decreases p - from
  {
    if MatchesAt(s, from) {
      q := from;
    } else {
      q := FirstMatch(s, from + 1, p);
    }
  }

  /** Lowercasing a list of matches into a set never makes more entities than there were matches. */
  lemma {:induction false} LowerSetSize(ms: seq<string>)
    ensures |LowerAll(ms)| <= |ms|
  {
    if ms != [] {
      var rest := LowerAll(ms[1..]);
      LowerSetSize(ms[1..]);
      assert LowerAll(ms) == {Lower(ms[0])} + rest by {
        forall m | m in ms ensures m == ms[0] || m in ms[1..] {
          var k :| 0 <= k < |ms| && ms[k] == m;
          if k > 0 { assert ms[1..][k - 1] == m; }
        }
      }
      if Lower(ms[0]) in rest {
        assert LowerAll(ms) == rest;
      } else {
        assert |LowerAll(ms)| == |rest| + 1;
      }
    }
  }

  /** Repeated mentions collapse: there are at most as many entities as matches. */
  lemma EntitiesAtMostMatches(text: string)
    ensures |ExtractEntities(text)| <= |FindAll(text, 0)|
  {
    LowerSetSize(FindAll(text, 0));
  }
}
