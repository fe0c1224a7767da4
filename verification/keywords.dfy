/**
 * extract_key_words (app.py:96-105): the distinct whitespace-separated words
 * longer than four characters, at most twenty of them. Python's set has no
 * order, so the order in which `list(set(...))` yields the words is a
 * parameter: a rearrangement of the distinct words taken in first-occurrence order.
 */
module Keywords {
  import opened Seqs
  import opened CharClasses

  /** Length of the leading run of non-whitespace characters. */
  function WordLength(u: Tables, s: string): (n: nat)
    ensures n <= |s|
    ensures forall i :: 0 <= i < n ==> !u.isSpace(s[i])
    ensures n < |s| ==> u.isSpace(s[n])
    decreases |s|
  {
    if |s| == 0 || u.isSpace(s[0]) then 0 else 1 + WordLength(u, s[1..])
  }

  /** str.split() with no separator: the maximal non-whitespace runs, in order. */
  function Split(u: Tables, s: string): (words: seq<string>)
    ensures forall k :: 0 <= k < |words| ==> |words[k]| > 0
    ensures forall k, i :: 0 <= k < |words| && 0 <= i < |words[k]| ==> !u.isSpace(words[k][i])
    ensures forall k :: 0 <= k < |words| ==> Occurs(words[k], s)
    decreases |s|
  {
    if |s| == 0 then []
    else if u.isSpace(s[0]) then
      var words := Split(u, s[1..]);
      OccursInLonger(words, s[1..], s, 1);
      words
    else
      var n := WordLength(u, s);
      var words := Split(u, s[n..]);
      OccursInLonger(words, s[n..], s, n);
      assert Occurs(s[..n], s);
      [s[..n]] + words
  }

  /** An occurrence in a suffix is an occurrence in the whole text. */
  lemma OccursInLonger(words: seq<string>, suffix: string, s: string, n: nat)
    requires n <= |s| && suffix == s[n..]
    requires forall k :: 0 <= k < |words| ==> Occurs(words[k], suffix)
    ensures forall k :: 0 <= k < |words| ==> Occurs(words[k], s)
  {
    forall k | 0 <= k < |words|
      ensures Occurs(words[k], s)
    {
      OccursIffSomePosition(words[k], suffix);
      var i :| OccursAt(words[k], suffix, i);
      assert s[n + i..n + i + |words[k]|] == suffix[i..i + |words[k]|];
      assert OccursAt(words[k], s, n + i);
      OccursIffSomePosition(words[k], s);
    }
  }

  /** A word ends before the first whitespace character, whatever follows it. */
  lemma {:induction false} WordLengthBeforeSpace(u: Tables, a: string, c: char, b: string)
    requires u.isSpace(c)
    ensures WordLength(u, a + [c] + b) == WordLength(u, a)
    decreases |a|
  {
    var s := a + [c] + b;
    if |a| == 0 {
      assert s[0] == c;
    } else {
      assert s[0] == a[0];
      assert s[1..] == a[1..] + [c] + b;
      WordLengthBeforeSpace(u, a[1..], c, b);
    }
  }

  /** A whitespace character separates: the words on either side of it are split independently. */
  lemma {:induction false} SplitAtSpace(u: Tables, a: string, c: char, b: string)
    requires u.isSpace(c)
    ensures Split(u, a + [c] + b) == Split(u, a) + Split(u, b)
    decreases |a|
  {
    var s := a + [c] + b;
    if |a| == 0 {
      assert s[0] == c && s[1..] == b;
    } else if u.isSpace(a[0]) {
      assert s[0] == a[0];
      assert s[1..] == a[1..] + [c] + b;
      SplitAtSpace(u, a[1..], c, b);
      SplitSkipsSpace(u, s);
      SplitSkipsSpace(u, a);
    } else {
      assert s[0] == a[0];
      WordLengthBeforeSpace(u, a, c, b);
      var n := WordLength(u, a);
      assert s[..n] == a[..n];
      assert s[n..] == a[n..] + [c] + b;
      SplitAtSpace(u, a[n..], c, b);
      SplitTakesWord(u, s);
      SplitTakesWord(u, a);
    }
  }

  lemma SplitSkipsSpace(u: Tables, s: string)
    requires |s| > 0 && u.isSpace(s[0])
    ensures Split(u, s) == Split(u, s[1..])
  {
  }

  lemma SplitTakesWord(u: Tables, s: string)
    requires |s| > 0 && !u.isSpace(s[0])
    ensures Split(u, s) == [s[..WordLength(u, s)]] + Split(u, s[WordLength(u, s)..])
  {
  }

  /** A non-empty run without whitespace is one word. */
  lemma SplitOfWord(u: Tables, w: string)
    requires |w| > 0
    requires forall i :: 0 <= i < |w| ==> !u.isSpace(w[i])
    ensures Split(u, w) == [w]
  {
    assert WordLength(u, w) == |w|;
    assert w[..|w|] == w;
  }

  function Concat(words: seq<string>): string {
    if |words| == 0 then [] else words[0] + Concat(words[1..])
  }

  /** Splitting loses nothing but whitespace: the words, glued together, are the non-whitespace text. */
  lemma {:induction false} SplitKeepsText(u: Tables, s: string)
    ensures Concat(Split(u, s)) == Without(s, u.isSpace)
    decreases |s|
  {
    if |s| > 0 {
      if u.isSpace(s[0]) {
        SplitKeepsText(u, s[1..]);
      } else {
        var n := WordLength(u, s);
        SplitKeepsText(u, s[n..]);
        assert s == s[..n] + s[n..];
        WithoutAppend(s[..n], s[n..], u.isSpace);
        WithoutKeepsAll(s[..n], u.isSpace);
        assert ([s[..n]] + Split(u, s[n..]))[1..] == Split(u, s[n..]);
      }
    }
  }

  /** app.py:103: the words longer than four characters, in order. */
  function LongWords(words: seq<string>): (r: seq<string>)
    ensures forall w :: w in r <==> w in words && |w| > 4
    decreases |words|
  {
    if |words| == 0 then []
    else if |words[0]| > 4 then [words[0]] + LongWords(words[1..])
    else LongWords(words[1..])
  }

  /** Each element once, at its first occurrence: the contents of Python's `set(...)`. */
  function Dedup(s: seq<string>): (r: seq<string>)
    ensures Distinct(r)
    ensures forall x :: x in r <==> x in s
    decreases |s|
  {
    if |s| == 0 then []
    else
      var init := s[..|s| - 1];
      var last := s[|s| - 1];
      assert s == init + [last];
      if last in init then Dedup(init) else Dedup(init) + [last]
  }

  /** The distinct long words of the text, in first-occurrence order. */
  function Candidates(u: Tables, text: string): (r: seq<string>)
    ensures Distinct(r)
    ensures forall w :: w in r <==> w in Split(u, text) && |w| > 4
  {
    Dedup(LongWords(Split(u, text)))
  }

  /**
   * app.py:96-105. `order` is the order in which the set yields its elements;
   * the result keeps the first twenty.
   */
  function ExtractKeyWords(u: Tables, text: string, order: seq<nat>): (r: seq<string>)
    requires IsPermutation(order, |Candidates(u, text)|)
    ensures |r| == Min(20, |Candidates(u, text)|)
    ensures Distinct(r)
    ensures forall k :: 0 <= k < |r| ==> |r[k]| > 4 && r[k] in Split(u, text)
    ensures |Candidates(u, text)| <= 20 ==>
      forall w :: w in Split(u, text) && |w| > 4 ==> w in r
  {
    var all := Permute(Candidates(u, text), order);
    var r := Take(all, 20);
    assert forall k :: 0 <= k < |r| ==> r[k] == all[k];
    assert |Candidates(u, text)| <= 20 ==> forall w :: w in Split(u, text) && |w| > 4 ==> w in r by {
      if |Candidates(u, text)| <= 20 {
        assert r == all;
        forall w | w in Split(u, text) && |w| > 4
          ensures w in r
        {
          var c := Candidates(u, text);
          assert w in c;
          var k :| 0 <= k < |c| && c[k] == w;
        }
      }
    }
    r
  }

  /** Whatever order the set yields, the key words are found in the text as whole words. */
  lemma KeyWordsOccurInText(u: Tables, text: string, order: seq<nat>)
    requires IsPermutation(order, |Candidates(u, text)|)
    ensures forall k :: 0 <= k < |ExtractKeyWords(u, text, order)| ==>
      Occurs(ExtractKeyWords(u, text, order)[k], text)
  {
  }
}
