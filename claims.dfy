/**
 * The claim extractor of the research analyst: a snippet is split into
 * sentences after `.`, `!` or `?` followed by whitespace, short sentences are
 * dropped, and each sentence is normalised into a comparable claim string.
 */
module Claims {
  import opened Text

  /** The shortest sentence `_sentences_from_text` keeps. */
  const MinSentenceLength := 20

  predicate IsTerminator(c: char) { c == '.' || c == '!' || c == '?' }

  /** `(?<=[.!?])\s+` can start matching at index `k` of `s`. */
  predicate BreakAt(s: string, k: nat)
  {
    1 <= k < |s| && IsTerminator(s[k - 1]) && IsSpace(s[k])
  }

  /** The first index at or after `i` where a sentence break starts, or `|s|`. */
  function FirstBreak(s: string, i: nat): (k: nat)
    requires i <= |s|
    ensures i <= k <= |s|
    ensures k < |s| ==> BreakAt(s, k)
    ensures forall j :: i <= j < k ==> !BreakAt(s, j)
    decreases |s| - i
  {
    if i == |s| || BreakAt(s, i) then i else FirstBreak(s, i + 1)
  }

  /**
   * `re.split(r"(?<=[.!?])\s+", s)`: the pieces between the maximal whitespace
   * runs that follow a terminator.
   */
  function SplitSentences(s: string): (pieces: seq<string>)
    ensures |pieces| >= 1
    decreases |s|
  {
    var k := FirstBreak(s, 0);
    if k == |s| then [s]
    else [s[..k]] + SplitSentences(TrimStart(s[k..]))
  }

  /** No piece of the split contains a terminator followed by whitespace. */
  lemma {:induction false} SplitPiecesUnbroken(s: string)
    ensures forall p, j :: p in SplitSentences(s) ==> !BreakAt(p, j)
    decreases |s|
  {
    var k := FirstBreak(s, 0);
    if k < |s| {
      var rest := TrimStart(s[k..]);
      SplitPiecesUnbroken(rest);
      forall j | BreakAt(s[..k], j) ensures false {
        assert BreakAt(s, j);
      }
    }
  }

  /** `pieces[0] + seps[0] + pieces[1] + ... + pieces[|pieces| - 1]`. */
  function Interleave(pieces: seq<string>, seps: seq<string>): string
    requires |pieces| == |seps| + 1
    decreases |seps|
  {
    if seps == [] then pieces[0]
    else pieces[0] + seps[0] + Interleave(pieces[1..], seps[1..])
  }

  /**
   * `sep` is a whole match of `(?<=[.!?])\s+` between `before` and `after`:
   * a non-empty whitespace run, right after a terminator, and not followed
   * by more whitespace.
   */
  predicate SeparatorBetween(before: string, sep: string, after: string)
  {
    && before != [] && IsTerminator(before[|before| - 1])
    && sep != [] && (forall k :: 0 <= k < |sep| ==> IsSpace(sep[k]))
    && (after == [] || !IsSpace(after[0]))
  }

  /** `seps` are the separators `re.split` removed between the pieces of `s`. */
  predicate SplitBy(s: string, pieces: seq<string>, seps: seq<string>)
  {
    && |pieces| == |seps| + 1
    && Interleave(pieces, seps) == s
    && forall i :: 0 <= i < |seps| ==> SeparatorBetween(pieces[i], seps[i], pieces[i + 1])
  }

  /** The first piece of the split is a prefix of the text. */
  lemma SplitFirstPrefix(s: string)
    ensures |SplitSentences(s)[0]| <= |s| && SplitSentences(s)[0] == s[..|SplitSentences(s)[0]|]
  {
  }

  /**
   * The pieces of `re.split(r"(?<=[.!?])\s+", s)`, in order and interleaved
   * with the whitespace runs it matched, give back `s`.
   */
  lemma {:induction false} SplitCovers(s: string)
    ensures exists seps :: SplitBy(s, SplitSentences(s), seps)
    decreases |s|
  {
    var k := FirstBreak(s, 0);
    if k == |s| {
      assert SplitBy(s, SplitSentences(s), []);
    } else {
      var rest := TrimStart(s[k..]);
      var sep := s[k..|s| - |rest|];
      SplitCovers(rest);
      var seps' :| SplitBy(rest, SplitSentences(rest), seps');
      var pieces := SplitSentences(s);
      assert pieces == [s[..k]] + SplitSentences(rest);
      assert pieces[1..] == SplitSentences(rest);
      SplitFirstPrefix(rest);
      assert SeparatorBetween(s[..k], sep, pieces[1]) by {
        assert s[k] == sep[0];
      }
      var seps := [sep] + seps';
      assert seps[1..] == seps';
      assert Interleave(pieces, seps) == s[..k] + sep + rest;
      assert s == s[..k] + sep + rest;
      assert SplitBy(s, pieces, seps);
    }
  }

  /** Keeps the stripped pieces of at least `MinSentenceLength` characters, in order. */
  function KeepLong(pieces: seq<string>): (sents: seq<string>)
    ensures forall t :: t in sents ==> exists p :: p in pieces && t == Strip(p)
  {
    if pieces == [] then []
    else if |Strip(pieces[0])| >= MinSentenceLength then [Strip(pieces[0])] + KeepLong(pieces[1..])
    else KeepLong(pieces[1..])
  }

  /** `_sentences_from_text`. */
  function SentencesFromText(text: string): seq<string>
  {
    KeepLong(SplitSentences(Strip(text)))
  }

  /** A piece of a string that has no break has none either. */
  lemma SliceUnbroken(p: string, i: nat, j: nat)
    requires i <= j <= |p|
    requires forall m :: !BreakAt(p, m)
    ensures forall m :: !BreakAt(p[i..j], m)
  {
    forall m | BreakAt(p[i..j], m) ensures false {
      assert BreakAt(p, i + m);
    }
  }

  /**
   * Every sentence is trimmed, at least 20 characters long, and contains no
   * terminator followed by whitespace.
   */
  lemma SentencesShape(text: string)
    ensures forall t :: t in SentencesFromText(text) ==>
      |t| >= MinSentenceLength && Trimmed(t) && forall m :: !BreakAt(t, m)
  {
    var pieces := SplitSentences(Strip(text));
    SplitPiecesUnbroken(Strip(text));
    forall t | t in SentencesFromText(text)
      ensures |t| >= MinSentenceLength && Trimmed(t) && forall m :: !BreakAt(t, m)
    {
      KeepLongLong(pieces, t);
      var p :| p in pieces && t == Strip(p);
      StripShape(p);
      var i, j :| 0 <= i <= j <= |p| && Strip(p) == p[i..j];
      SliceUnbroken(p, i, j);
    }
  }

  lemma {:induction false} KeepLongLong(pieces: seq<string>, t: string)
    requires t in KeepLong(pieces)
    ensures |t| >= MinSentenceLength
  {
    if |Strip(pieces[0])| >= MinSentenceLength && t == Strip(pieces[0]) {
    } else {
      KeepLongLong(pieces[1..], t);
    }
  }

  /** An empty or whitespace-only text has no sentences. */
  lemma BlankTextHasNoSentences(text: string)
    requires forall k :: 0 <= k < |text| ==> IsSpace(text[k])
    ensures SentencesFromText(text) == []
  {
    TrimAllSpace(text);
    assert Strip(text) == [];
    assert SplitSentences([]) == [[]];
    var blank: seq<string> := [[]];
    assert blank[1..] == [];
    assert KeepLong(blank) == [];
  }

  // ---------------------------------------------------------------------
  // Claim normalisation

  /** The shortest normalised claim `verify_facts` keeps. */
  const MinClaimLength := 40

  /** The characters `[a-z0-9 .,]` that survive normalisation. */
  predicate IsClaimChar(c: char)
  {
    'a' <= c <= 'z' || IsDigit(c) || c == ' ' || c == '.' || c == ','
  }

  /** `re.sub(r"\s+", " ", s)`: each maximal whitespace run becomes one space. */
  function CollapseSpaces(s: string): (r: string)
    ensures s == [] <==> r == []
    ensures s != [] ==> (r[0] == ' ' <==> IsSpace(s[0]))

    decreases |s|
  {
    if s == [] then []
    else if IsSpace(s[0]) then [' '] + CollapseSpaces(TrimStart(s))
    else [s[0]] + CollapseSpaces(s[1..])
  }

  /** `re.sub(r"[^a-z0-9 .,]", "", s)`. */
  function KeepClaimChars(s: string): (r: string)
    ensures forall k :: 0 <= k < |r| ==> IsClaimChar(r[k])
  {
    if s == [] then []
    else if IsClaimChar(s[0]) then [s[0]] + KeepClaimChars(s[1..])
    else KeepClaimChars(s[1..])
  }

  /** `_normalize_claim`: lower-case, collapse whitespace, drop other characters, strip. */
  function NormalizeClaim(s: string): string
  {
    Strip(KeepClaimChars(CollapseSpaces(Lower(s))))
  }

  /** A normalised claim holds only `[a-z0-9 .,]` and neither starts nor ends with a space. */
  lemma NormalizeShape(s: string)
    ensures forall k :: 0 <= k < |NormalizeClaim(s)| ==> IsClaimChar(NormalizeClaim(s)[k])
    ensures NormalizeClaim(s) == [] || (NormalizeClaim(s)[0] != ' ' && NormalizeClaim(s)[|NormalizeClaim(s)| - 1] != ' ')
  {
    var kept := KeepClaimChars(CollapseSpaces(Lower(s)));
    StripKeepsChars(kept);
  }

  /** Stripping keeps only characters of its input, each at some index of it. */
  lemma StripKeepsChars(s: string)
    requires forall k :: 0 <= k < |s| ==> IsClaimChar(s[k])
    ensures forall k :: 0 <= k < |Strip(s)| ==> IsClaimChar(Strip(s)[k])
    ensures Trimmed(Strip(s))
  {
    forall k | 0 <= k < |Strip(s)| ensures IsClaimChar(Strip(s)[k]) {
      StripIndex(s, k);
    }
    StripIsTrimmed(s);
  }

  /**
   * Normalisation is not idempotent: whitespace is collapsed before other
   * characters are removed, so removing `-` can leave two spaces side by side.
   */
  lemma NormalizeNotIdempotent()
    ensures NormalizeClaim("a - b") == "a  b"
    ensures NormalizeClaim("a  b") == "a b"
    ensures NormalizeClaim(NormalizeClaim("a - b")) != NormalizeClaim("a - b")
  {
    DashExampleFirstPass();
    DashExampleSecondPass();
  }

  lemma DashExampleFirstPass()
    ensures NormalizeClaim("a - b") == "a  b"
  {
    calc {
      NormalizeClaim("a - b");
      == { DashLower(); }
      Strip(KeepClaimChars(CollapseSpaces("a - b")));
      == { DashCollapse(); }
      Strip(KeepClaimChars("a - b"));
      == { DashKeep(); }
      Strip("a  b");
      == { DashStrip(); }
      "a  b";
    }
  }

  lemma DashLower()
    ensures Lower("a - b") == "a - b"
  {
    assert Lower("b") == "b";
    assert Lower(" b") == " b";
    assert Lower("- b") == "- b";
    assert Lower(" - b") == " - b";
  }

  lemma DashCollapse()
    ensures CollapseSpaces("a - b") == "a - b"
  {
    DashCollapse3();
    assert "a - b"[1..] == " - b";
  }

  lemma DashKeep()
    ensures KeepClaimChars("a - b") == "a  b"
  {
    assert KeepClaimChars("b") == "b";
    assert KeepClaimChars(" b") == " b";
    assert KeepClaimChars("- b") == " b";
    assert KeepClaimChars(" - b") == "  b";
  }

  lemma DashStrip()
    ensures Strip("a  b") == "a  b"
  {
    assert TrimStart("a  b") == "a  b";
    assert TrimEnd("a  b") == "a  b";
  }

  lemma DashExampleSecondPass()
    ensures NormalizeClaim("a  b") == "a b"
  {
    calc {
      NormalizeClaim("a  b");
      == { SecondLower(); }
      Strip(KeepClaimChars(CollapseSpaces("a  b")));
      == { SecondCollapse(); }
      Strip(KeepClaimChars("a b"));
      == { SecondKeep(); }
      Strip("a b");
      == { SecondStrip(); }
      "a b";
    }
  }

  lemma SecondLower()
    ensures Lower("a  b") == "a  b"
  {
    LowerConcat("a", "  b");
    LowerConcat(" ", " b");
    LowerConcat(" ", "b");
  }

  lemma SecondCollapse()
    ensures CollapseSpaces("a  b") == "a b"
  {
    CollapseLeadingChar("a  b");
    assert "a  b"[1..] == "  b";
    CollapseLeadingSpace("  b");
    TrimStep("  b");
    assert "  b"[1..] == " b";
    TrimSpaceB();
    CollapseB();
  }

  lemma SecondKeep()
    ensures KeepClaimChars("a b") == "a b"
  {
    assert "a b"[1..] == " b";
    assert " b"[1..] == "b";
    assert "b"[1..] == [];
  }

  lemma SecondStrip()
    ensures Strip("a b") == "a b"
  {
    NoTrim("a b");
    assert TrimEnd("a b") == "a b";
  }

  lemma DashCollapse1()
    ensures CollapseSpaces(" b") == " b"
  {
    CollapseLeadingSpace(" b");
    TrimSpaceB();
    CollapseB();
  }

  lemma TrimSpaceB()
    ensures TrimStart(" b") == "b"
  {
    assert " b"[1..] == "b";
    NoTrim("b");
  }

  lemma CollapseB()
    ensures CollapseSpaces("b") == "b"
  {
    assert "b"[1..] == [];
  }

  lemma DashCollapse2()
    ensures CollapseSpaces("- b") == "- b"
  {
    CollapseLeadingChar("- b");
    assert "- b"[1..] == " b";
    DashCollapse1();
  }

  lemma DashCollapse3()
    ensures CollapseSpaces(" - b") == " - b"
  {
    CollapseLeadingSpace(" - b");
    TrimSpaceDash();
    DashCollapse2();
  }

  lemma TrimSpaceDash()
    ensures TrimStart(" - b") == "- b"
  {
    assert " - b"[1..] == "- b";
    NoTrim("- b");
  }

  /** A character other than whitespace is kept by the collapsing. */
  lemma CollapseLeadingChar(s: string)
    requires s != [] && !IsSpace(s[0])
    ensures CollapseSpaces(s) == [s[0]] + CollapseSpaces(s[1..])
  {
  }

  lemma LowerConcat(a: string, b: string)
    ensures Lower(a + b) == Lower(a) + Lower(b)
  {
  }

  lemma {:induction false} KeepConcat(a: string, b: string)
    ensures KeepClaimChars(a + b) == KeepClaimChars(a) + KeepClaimChars(b)
  {
    if a != [] {
      assert (a + b)[0] == a[0];
      assert (a + b)[1..] == a[1..] + b;
      KeepConcat(a[1..], b);
    } else {
      assert a + b == b;
    }
  }

  predicate AllSpace(s: string)
  {
    forall k :: 0 <= k < |s| ==> IsSpace(s[k])
  }

  lemma {:induction false} TrimStartConcat(a: string, b: string)
    ensures AllSpace(a) ==> TrimStart(a + b) == TrimStart(b)
    ensures !AllSpace(a) ==> TrimStart(a + b) == TrimStart(a) + b
  {
    if a == [] {
      assert a + b == b;
    } else if IsSpace(a[0]) {
      assert (a + b)[0] == a[0];
      assert (a + b)[1..] == a[1..] + b;
      TrimStep(a + b);
      TrimStep(a);
      TrimStartConcat(a[1..], b);
      AllSpaceTail(a);
    } else {
      assert (a + b)[0] == a[0];
      NoTrim(a + b);
      NoTrim(a);
    }
  }

  /** A leading whitespace character is dropped by `lstrip`. */
  lemma TrimStep(s: string)
    requires s != [] && IsSpace(s[0])
    ensures TrimStart(s) == TrimStart(s[1..])
  {
  }

  lemma AllSpaceTail(a: string)
    requires a != []
    ensures AllSpace(a) <==> IsSpace(a[0]) && AllSpace(a[1..])
  {
    if IsSpace(a[0]) && AllSpace(a[1..]) {
      forall k | 0 <= k < |a| ensures IsSpace(a[k]) {
        if k > 0 { assert a[k] == a[1..][k - 1]; }
      }
    }
  }

  predicate EndsWithSpace(s: string) { s != [] && IsSpace(s[|s| - 1]) }
  predicate StartsWithSpace(s: string) { s != [] && IsSpace(s[0]) }

  /** Collapsing distributes over a concatenation that does not join two whitespace runs. */
  lemma {:induction false} CollapseConcat(a: string, b: string)
    requires !(EndsWithSpace(a) && StartsWithSpace(b))
    ensures CollapseSpaces(a + b) == CollapseSpaces(a) + CollapseSpaces(b)
    decreases |a|
  {
    if a == [] {
      assert a + b == b;
    } else if !IsSpace(a[0]) {
      assert (a + b)[0] == a[0];
      assert (a + b)[1..] == a[1..] + b;
      CollapseConcat(a[1..], b);
    } else {
      assert (a + b)[0] == a[0];
      TrimStartConcat(a, b);
      if AllSpace(a) {
        CollapseAllSpace(a, b);
      } else {
        var t := TrimStart(a);
        assert t[|t| - 1] == a[|a| - 1];
        CollapseConcat(t, b);
        calc {
          CollapseSpaces(a + b);
          [' '] + CollapseSpaces(t + b);
          [' '] + (CollapseSpaces(t) + CollapseSpaces(b));
        }
      }
    }
  }

  lemma CollapseAllSpace(a: string, b: string)
    requires a != [] && AllSpace(a) && !StartsWithSpace(b)
    requires TrimStart(a + b) == TrimStart(b)
    ensures CollapseSpaces(a + b) == CollapseSpaces(a) + CollapseSpaces(b)
  {
    assert (a + b)[0] == a[0];
    calc {
      CollapseSpaces(a + b);
      == { CollapseLeadingSpace(a + b); }
      [' '] + CollapseSpaces(TrimStart(a + b));
      == { NoTrim(b); }
      [' '] + CollapseSpaces(b);
      == { CollapseLeadingSpace(a); TrimAllSpace(a); }
      CollapseSpaces(a) + CollapseSpaces(b);
    }
  }

  /** A whitespace run at the front collapses to one space. */
  lemma CollapseLeadingSpace(s: string)
    requires s != [] && IsSpace(s[0])
    ensures CollapseSpaces(s) == [' '] + CollapseSpaces(TrimStart(s))
  {
  }

  lemma NoTrim(b: string)
    requires !StartsWithSpace(b)
    ensures TrimStart(b) == b
  {
  }

  lemma TrimAllSpace(a: string)
    requires AllSpace(a)
    ensures TrimStart(a) == []
  {
  }

  /**
   * A character that is neither whitespace nor kept (such as `%`) disappears
   * without trace, unless it separated two whitespace runs: so "70% of" and
   * "70 of" give the same claim.
   */
  lemma DroppedCharVanishes(p: string, c: char, q: string)
    requires !IsSpace(c) && !IsClaimChar(LowerChar(c))
    requires !(EndsWithSpace(p) && StartsWithSpace(q))
    ensures NormalizeClaim(p + [c] + q) == NormalizeClaim(p + q)
  {
    var d := LowerChar(c);
    var lp, lq := Lower(p), Lower(q);
    LowerAround(p, c, q);
    CollapseAround(lp, d, lq);
    KeepAround(CollapseSpaces(lp), d, CollapseSpaces(lq));
  }

  /** Lower-casing works character by character around `c`. */
  lemma LowerAround(p: string, c: char, q: string)
    ensures Lower(p + [c] + q) == Lower(p) + [LowerChar(c)] + Lower(q)
    ensures Lower(p + q) == Lower(p) + Lower(q)
    ensures EndsWithSpace(Lower(p)) == EndsWithSpace(p) && StartsWithSpace(Lower(q)) == StartsWithSpace(q)
  {
    LowerConcat(p + [c], q);
    LowerConcat(p, [c]);
    LowerConcat(p, q);
    LowerEnds(p);
    LowerEnds(q);
  }

  /** Lower-casing neither adds nor removes whitespace at either end. */
  lemma LowerEnds(s: string)
    ensures EndsWithSpace(Lower(s)) == EndsWithSpace(s)
    ensures StartsWithSpace(Lower(s)) == StartsWithSpace(s)
  {
    if s != [] {
      LowerKeepsSpace(s[0]);
      LowerKeepsSpace(s[|s| - 1]);
    }
  }

  lemma LowerKeepsSpace(c: char)
    ensures IsSpace(LowerChar(c)) == IsSpace(c)
  {
  }

  /** Collapsing around a non-space character `d` leaves it in place. */
  lemma CollapseAround(lp: string, d: char, lq: string)
    requires !IsSpace(d) && !(EndsWithSpace(lp) && StartsWithSpace(lq))
    ensures CollapseSpaces(lp + [d] + lq) == CollapseSpaces(lp) + [d] + CollapseSpaces(lq)
    ensures CollapseSpaces(lp + lq) == CollapseSpaces(lp) + CollapseSpaces(lq)
  {
    CollapseConcat([d], lq);
    assert lp + [d] + lq == lp + ([d] + lq);
    CollapseConcat(lp, [d] + lq);
    CollapseConcat(lp, lq);
    assert CollapseSpaces([d]) == [d];
  }

  /** Filtering drops `d`, which is not a claim character. */
  lemma KeepAround(cp: string, d: char, cq: string)
    requires !IsClaimChar(d)
    ensures KeepClaimChars(cp + [d] + cq) == KeepClaimChars(cp + cq)
  {
    assert cp + [d] + cq == cp + ([d] + cq);
    KeepConcat(cp, [d] + cq);
    KeepConcat([d], cq);
    KeepConcat(cp, cq);
  }

  /** The two sentences of the fuzzy-merge test: one says "70%", the other "70". */
  const SurveyHead := "A 2023 survey on topic found that 70"
  const SurveyTail := " of practitioners adopt hybrid techniques."

  /** The survey sentences with and without `%` normalise to the same claim. */
  lemma SurveySentencesAgree()
    ensures NormalizeClaim(SurveyHead + "%" + SurveyTail) == NormalizeClaim(SurveyHead + SurveyTail)
  {
    assert SurveyHead[|SurveyHead| - 1] == '0';
    assert SurveyHead + "%" + SurveyTail == SurveyHead + ['%'] + SurveyTail;
    DroppedCharVanishes(SurveyHead, '%', SurveyTail);
  }
}
