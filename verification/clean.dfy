/**
 * clean_text (app.py:19-29): a fixed pipeline of regular-expression rewrites,
 * one function per stage, composed in the order the source applies them.
 */
module Cleaning {
  import opened Seqs
  import opened CharClasses

  /** `re.sub(<one-character class>, ' ', s)`: every character in the class becomes a space. */
  function BlankOut(s: string, hit: char -> bool): (r: string)
    ensures |r| == |s|
    ensures forall i :: 0 <= i < |r| ==> r[i] == ' ' || !hit(r[i])
    ensures forall i :: 0 <= i < |r| ==> r[i] == s[i] || r[i] == ' '
    ensures forall i :: 0 <= i < |s| && !hit(s[i]) ==> r[i] == s[i]
    ensures forall i :: 0 <= i < |s| && hit(s[i]) ==> r[i] == ' '
  {
    seq(|s|, i requires 0 <= i < |s| => if hit(s[i]) then ' ' else s[i])
  }

  /** A blanking stage leaves its input alone exactly when every character it would blank already is a space. */
  lemma BlankOutFixpoint(s: string, hit: char -> bool)
    ensures BlankOut(s, hit) == s <==> forall i :: 0 <= i < |s| && hit(s[i]) ==> s[i] == ' '
  {
    var r := BlankOut(s, hit);
    if forall i :: 0 <= i < |s| && hit(s[i]) ==> s[i] == ' ' {
      assert forall i :: 0 <= i < |s| ==> r[i] == s[i];
    }
  }

  /**
   * `re.sub(<class>+, ' ', s)`: every maximal run of characters in the class
   * becomes one space. A run character emits the space only where its run ends.
   */
  function CollapseRuns(s: string, hit: char -> bool): (r: string)
    ensures |r| <= |s|
    ensures |s| > 0 ==> |r| > 0
    ensures |s| > 0 && !hit(s[0]) ==> r[0] == s[0]
    ensures forall i :: 0 <= i < |r| ==> r[i] == ' ' || !hit(r[i])
    ensures forall i :: 0 <= i < |r| ==> r[i] == ' ' || r[i] in s
    ensures forall i :: 0 <= i < |r| - 1 ==> !(hit(r[i]) && hit(r[i + 1]))
    decreases |s|
  {
    if |s| == 0 then []
    else if hit(s[0]) then
      if |s| > 1 && hit(s[1]) then CollapseRuns(s[1..], hit)
      else [' '] + CollapseRuns(s[1..], hit)
    else [s[0]] + CollapseRuns(s[1..], hit)
  }

  /** The characters outside the class, other than spaces, in order. */
  function Content(s: string, hit: char -> bool): string {
    Without(s, c => hit(c) || c == ' ')
  }

  /** Collapsing runs never touches, drops, reorders or invents a character outside the class. */
  lemma {:induction false} CollapseRunsKeepsContent(s: string, hit: char -> bool)
    ensures Content(CollapseRuns(s, hit), hit) == Content(s, hit)
    decreases |s|
  {
    if |s| > 0 {
      CollapseRunsKeepsContent(s[1..], hit);
      var rest := CollapseRuns(s[1..], hit);
      if hit(s[0]) {
        if !(|s| > 1 && hit(s[1])) {
          assert ([' '] + rest)[1..] == rest;
        }
      } else {
        assert ([s[0]] + rest)[1..] == rest;
      }
    }
  }

  /**
   * When the space itself is in the class, collapsing leaves a text alone exactly
   * when its only class characters are single spaces.
   */
  lemma {:induction false} CollapseRunsFixpoint(s: string, hit: char -> bool)
    requires hit(' ')
    ensures CollapseRuns(s, hit) == s <==>
      (forall i :: 0 <= i < |s| && hit(s[i]) ==> s[i] == ' ') &&
      (forall i :: 0 <= i < |s| - 1 ==> !(hit(s[i]) && hit(s[i + 1])))
    decreases |s|
  {
    if |s| > 0 {
      CollapseRunsFixpoint(s[1..], hit);
      assert s == [s[0]] + s[1..];
      if hit(s[0]) && |s| > 1 && hit(s[1]) {
        assert |CollapseRuns(s, hit)| < |s|;
      }
    }
  }

  /** Collapsing whitespace twice is the same as once (app.py:26 on its own output). */
  lemma CollapseRunsIdempotent(s: string, hit: char -> bool)
    requires hit(' ')
    ensures CollapseRuns(CollapseRuns(s, hit), hit) == CollapseRuns(s, hit)
  {
    CollapseRunsFixpoint(CollapseRuns(s, hit), hit);
  }

  /** A whole run of class characters collapses to a single space. */
  lemma {:induction false} CollapseRunsOfRun(s: string, hit: char -> bool)
    requires |s| > 0
    requires forall i :: 0 <= i < |s| ==> hit(s[i])
    ensures CollapseRuns(s, hit) == " "
    decreases |s|
  {
    if |s| > 1 {
      CollapseRunsOfRun(s[1..], hit);
    }
  }

  /**
   * Collapsing works piecewise across a boundary that no run straddles: where
   * one side has a character outside the class next to the cut.
   */
  lemma {:induction false} CollapseRunsAppend(a: string, b: string, hit: char -> bool)
    requires (|a| > 0 && !hit(a[|a| - 1])) || (|b| > 0 && !hit(b[0]))
    ensures CollapseRuns(a + b, hit) == CollapseRuns(a, hit) + CollapseRuns(b, hit)
    decreases |a|
  {
    if |a| == 0 {
      assert a + b == b;
    } else {
      assert (a + b)[0] == a[0];
      assert (a + b)[1..] == a[1..] + b;
      if |a| == 1 {
        assert a[1..] == [];
        if hit(a[0]) {
          assert (a + b)[1] == b[0];
        }
      } else {
        assert (a + b)[1] == a[1];
        assert a[1..][|a[1..]| - 1] == a[|a| - 1];
        CollapseRunsAppend(a[1..], b, hit);
      }
    }
  }

  /** app.py:22: a character that is neither a word character nor whitespace becomes a space. */
  function MaskSymbols(u: Tables, s: string): (r: string)
    ensures |r| == |s|
    ensures forall i :: 0 <= i < |r| ==> r[i] == ' ' || u.isWord(r[i]) || u.isSpace(r[i])
    ensures forall i :: 0 <= i < |s| && (u.isWord(s[i]) || u.isSpace(s[i])) ==> r[i] == s[i]
    ensures forall i :: 0 <= i < |s| && !(u.isWord(s[i]) || u.isSpace(s[i])) ==> r[i] == ' '
  {
    BlankOut(s, c => !(u.isWord(c) || u.isSpace(c)))
  }

  /** app.py:23: each run of digits becomes one space. */
  function StripDigits(u: Tables, s: string): (r: string)
    ensures |r| <= |s|
    ensures |s| > 0 ==> |r| > 0
    ensures forall i :: 0 <= i < |r| ==> r[i] == ' ' || (!u.isDigit(r[i]) && r[i] in s)
    ensures Content(r, u.isDigit) == Content(s, u.isDigit)
  {
    CollapseRunsKeepsContent(s, u.isDigit);
    CollapseRuns(s, u.isDigit)
  }

  /** app.py:24: newlines become spaces. */
  function JoinLines(s: string): (r: string)
    ensures |r| == |s|
    ensures forall i :: 0 <= i < |r| ==> r[i] != '\n' && (r[i] == ' ' || r[i] == s[i])
    ensures forall i :: 0 <= i < |s| ==> r[i] == (if s[i] == '\n' then ' ' else s[i])
  {
    BlankOut(s, c => c == '\n')
  }

  /** app.py:25: ASCII Latin letters become spaces. */
  function StripLatin(s: string): (r: string)
    ensures |r| == |s|
    ensures forall i :: 0 <= i < |r| ==> !IsAsciiLetter(r[i]) && (r[i] == ' ' || r[i] == s[i])
    ensures forall i :: 0 <= i < |s| ==> r[i] == (if IsAsciiLetter(s[i]) then ' ' else s[i])
  {
    BlankOut(s, IsAsciiLetter)
  }

  /** app.py:26: each whitespace run becomes one space. */
  function CollapseSpaces(u: Tables, s: string): (r: string)
    ensures |r| <= |s|
    ensures |s| > 0 ==> |r| > 0
    ensures Content(r, u.isSpace) == Content(s, u.isSpace)
    ensures forall i :: 0 <= i < |r| ==> r[i] == ' ' || (!u.isSpace(r[i]) && r[i] in s)
    ensures forall i :: 0 <= i < |r| - 1 ==> !(u.isSpace(r[i]) && u.isSpace(r[i + 1]))
  {
    CollapseRunsKeepsContent(s, u.isSpace);
    CollapseRuns(s, u.isSpace)
  }

  /** app.py:27: str.lower, one code point at a time. */
  function Lower(u: Tables, s: string): (r: string)
    ensures s == [] ==> r == []
    ensures |s| > 0 ==> u.lower(s[0]) <= r
    ensures |s| == 1 ==> r == u.lower(s[0])
    decreases |s|
  {
    if |s| == 0 then [] else u.lower(s[0]) + Lower(u, s[1..])
  }

  /** Lowercasing distributes over concatenation. */
  lemma {:induction false} LowerAppend(u: Tables, a: string, b: string)
    ensures Lower(u, a + b) == Lower(u, a) + Lower(u, b)
    decreases |a|
  {
    if |a| > 0 {
      assert (a + b)[0] == a[0];
      assert (a + b)[1..] == a[1..] + b;
      LowerAppend(u, a[1..], b);
    } else {
      assert a + b == b;
    }
  }

  /** Text made of ASCII characters other than capitals is its own lower-case form. */
  lemma {:induction false} LowerFixesAsciiNonCapitals(u: Tables, s: string)
    requires u.Valid()
    requires forall i :: 0 <= i < |s| ==> IsAscii(s[i]) && !IsAsciiUpper(s[i])
    ensures Lower(u, s) == s
    decreases |s|
  {
    if |s| > 0 {
      LowerFixesAsciiNonCapitals(u, s[1..]);
      assert s == [s[0]] + s[1..];
    }
  }

  /** app.py:28: every character of `string.punctuation` is deleted. */
  function DeletePunctuation(s: string): (r: string)
    ensures |r| <= |s|
    ensures forall i :: 0 <= i < |r| ==> !IsPunctuation(r[i]) && r[i] in s
    ensures forall i :: 0 <= i < |s| && !IsPunctuation(s[i]) ==> s[i] in r
    ensures |s| == 1 ==> r == (if IsPunctuation(s[0]) then [] else s)
    decreases |s|
  {
    if |s| == 0 then []
    else if IsPunctuation(s[0]) then DeletePunctuation(s[1..])
    else [s[0]] + DeletePunctuation(s[1..])
  }

  /** Deletion works character by character, so it distributes over concatenation and keeps order. */
  lemma {:induction false} DeletePunctuationAppend(a: string, b: string)
    ensures DeletePunctuation(a + b) == DeletePunctuation(a) + DeletePunctuation(b)
    decreases |a|
  {
    if |a| > 0 {
      assert (a + b)[0] == a[0];
      assert (a + b)[1..] == a[1..] + b;
      DeletePunctuationAppend(a[1..], b);
    } else {
      assert a + b == b;
    }
  }

  /** Deleting punctuation leaves a text alone exactly when it has none. */
  lemma {:induction false} DeletePunctuationFixpoint(s: string)
    ensures DeletePunctuation(s) == s <==> forall i :: 0 <= i < |s| ==> !IsPunctuation(s[i])
    decreases |s|
  {
    if |s| > 0 {
      DeletePunctuationFixpoint(s[1..]);
      if IsPunctuation(s[0]) {
        assert |DeletePunctuation(s)| < |s|;
      } else if forall i :: 0 <= i < |s| ==> !IsPunctuation(s[i]) {
        assert s == [s[0]] + s[1..];
      }
    }
  }

  /** app.py:22-26: the text as it stands just before lowercasing. */
  function Normalize(u: Tables, s: string): (r: string)
    ensures |s| > 0 ==> |r| > 0
    ensures forall i :: 0 <= i < |r| - 1 ==> !(u.isSpace(r[i]) && u.isSpace(r[i + 1]))
  {
    CollapseSpaces(u, StripLatin(JoinLines(StripDigits(u, MaskSymbols(u, s)))))
  }

  /** app.py:19-29. A missing text (None) cleans to the empty string. */
  function CleanText(u: Tables, text: Option<string>): (r: string)
    ensures text.None? ==> r == []
    ensures text == Some([]) ==> r == []
    ensures forall i :: 0 <= i < |r| ==> !IsPunctuation(r[i])
  {
    match text
    case None => []
    case Some(s) => DeletePunctuation(Lower(u, Normalize(u, s)))
  }

  /** A character that may stand in the text just before lowercasing. */
  ghost predicate NormalizedChar(u: Tables, c: char) {
    c == ' ' ||
    (u.isWord(c) && !u.isDigit(c) && !u.isSpace(c) && !IsAsciiDigit(c) && c != '\n' && !IsAsciiLetter(c))
  }

  /**
   * Before lowercasing, the text has no ASCII digit, newline or Latin letter,
   * no two whitespace characters in a row, and only plain spaces for whitespace.
   */
  lemma NormalizedText(u: Tables, s: string)
    requires u.Valid()
    ensures forall i :: 0 <= i < |Normalize(u, s)| ==> NormalizedChar(u, Normalize(u, s)[i])
    ensures forall i :: 0 <= i < |Normalize(u, s)| - 1 ==>
      !(u.isSpace(Normalize(u, s)[i]) && u.isSpace(Normalize(u, s)[i + 1]))
  {
    var a := MaskSymbols(u, s);
    var b := StripDigits(u, a);
    var c := JoinLines(b);
    var d := StripLatin(c);
    var e := CollapseSpaces(u, d);
    assert forall x :: x in b && x != ' ' ==> !u.isDigit(x) && (u.isWord(x) || u.isSpace(x));
    assert forall x :: x in c && x != ' ' ==> x in b && x != '\n';
    assert forall x :: x in d && x != ' ' ==> x in c && !IsAsciiLetter(x);
    forall i | 0 <= i < |e|
      ensures NormalizedChar(u, e[i])
    {
      if e[i] != ' ' {
        assert e[i] in d;
      }
    }
  }

  /** Each stage up to the collapse leaves " _ " alone: `_` is a word character. */
  lemma NormalizeSpacedUnderscore(u: Tables)
    requires u.Valid()
    ensures Normalize(u, " _ ") == " _ "
  {
    SpacedUnderscoreFirstStages(u);
    SpacedUnderscoreLastStages(u);
  }

  lemma SpacedUnderscoreFirstStages(u: Tables)
    requires u.Valid()
    ensures StripDigits(u, MaskSymbols(u, " _ ")) == " _ "
  {
    var s := " _ ";
    assert MaskSymbols(u, s) == s;
    assert CollapseRuns(s[2..], u.isDigit) == " ";
    assert CollapseRuns(s[1..], u.isDigit) == "_ ";
  }

  lemma SpacedUnderscoreLastStages(u: Tables)
    requires u.Valid()
    ensures CollapseSpaces(u, StripLatin(JoinLines(" _ "))) == " _ "
  {
    var s := " _ ";
    assert JoinLines(s) == s;
    assert StripLatin(s) == s;
    assert CollapseRuns(s[2..], u.isSpace) == " ";
    assert CollapseRuns(s[1..], u.isSpace) == "_ ";
  }

  /** Two spaces reach the collapse unchanged and leave it as one. */
  lemma NormalizeDoubleSpace(u: Tables)
    requires u.Valid()
    ensures Normalize(u, "  ") == " "
  {
    var t := "  ";
    assert MaskSymbols(u, t) == t;
    assert CollapseRuns(t[1..], u.isDigit) == " ";
    assert StripDigits(u, t) == t;
    assert JoinLines(t) == t;
    assert StripLatin(t) == t;
    assert CollapseRuns(t[1..], u.isSpace) == " ";
  }

  /**
   * Cleaning is not idempotent: an underscore survives app.py:22 as a word
   * character and is deleted only at app.py:28, after the whitespace collapse,
   * so the result may hold two spaces in a row, which a second pass merges.
   */
  lemma CleanTextNotIdempotent(u: Tables)
    requires u.Valid()
    ensures CleanText(u, Some(" _ ")) == "  "
    ensures CleanText(u, Some("  ")) == " "
  {
    CleanSpacedUnderscore(u);
    CleanDoubleSpace(u);
  }

  lemma CleanSpacedUnderscore(u: Tables)
    requires u.Valid()
    ensures CleanText(u, Some(" _ ")) == "  "
  {
    NormalizeSpacedUnderscore(u);
    LowerSpacedUnderscore(u);
    DeleteSpacedUnderscore();
  }

  lemma CleanDoubleSpace(u: Tables)
    requires u.Valid()
    ensures CleanText(u, Some("  ")) == " "
  {
    NormalizeDoubleSpace(u);
    LowerSingleSpace(u);
    DeleteSingleSpace();
  }

  lemma LowerSingleSpace(u: Tables)
    requires u.Valid()
    ensures Lower(u, " ") == " "
  {
    LowerFixesAsciiNonCapitals(u, " ");
  }

  lemma DeleteSingleSpace()
    ensures DeletePunctuation(" ") == " "
  {
    assert !IsPunctuation(' ');
    assert " "[1..] == [];
  }

  lemma LowerSpacedUnderscore(u: Tables)
    requires u.Valid()
    ensures Lower(u, " _ ") == " _ "
  {
    LowerFixesAsciiNonCapitals(u, " _ ");
  }

  /** The final translate removes the underscore and keeps both spaces around it. */
  lemma DeleteSpacedUnderscore()
    ensures DeletePunctuation(" _ ") == "  "
  {
    var s := " _ ";
    assert !IsPunctuation(' ') && IsPunctuation('_');
    assert DeletePunctuation(s[2..]) == " ";
    assert DeletePunctuation(s[1..]) == " ";
  }
}
