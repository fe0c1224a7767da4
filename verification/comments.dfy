/**
 * The rule-based comment synthesiser (app.py:78-172): a base sentence per
 * class, then at most two sentences triggered by keyword categories found in
 * the lowercased first 1000 characters of the raw text. The random choices
 * are inputs: `choice` is the index random.choice picks, `order` the
 * arrangement random.shuffle produces.
 */
module Comments {
  import opened Seqs
  import opened CharClasses
  import Cleaning

  // The first sentence of each list is written as two literals, split at the
  // sentence break, so that the verifier can read single characters of the
  // first clause; it does not look inside one literal that long.
  const Recommended: seq<string> := [
    "Кандидат рекомендован." + " Профиль соответствует требованиям позиции.",
    "Резюме демонстрирует необходимые навыки и опыт для данной должности.",
    "Положительное решение. Квалификация кандидата соответствует ожиданиям."
  ]

  const NotRecommended: seq<string> := [
    "Кандидат не рекомендован." + " Недостаточное соответствие требованиям.",
    "Резюме не содержит необходимого опыта для данной позиции.",
    "Профиль кандидата не соответствует критериям отбора."
  ]

  /** The three sentences get_class_specific_comment chooses from; class 1 is the positive decision. */
  function ClassSentences(classId: nat): seq<string> {
    if classId == 1 then Recommended else NotRecommended
  }

  /** app.py:78-93, with random.choice picking index `choice`. */
  function ClassComment(classId: nat, choice: nat): (r: string)
    requires choice < 3
    ensures classId == 1 ==> r in Recommended
    ensures classId != 1 ==> r in NotRecommended
    ensures |r| > 0
  {
    ClassSentences(classId)[choice]
  }

  /** No sentence serves both classes, so a base comment reveals the class it was chosen for. */
  lemma ClassCommentRevealsClass(classId: nat, choice: nat)
    requires choice < 3
    ensures ClassComment(classId, choice) in Recommended <==> classId == 1
    ensures ClassComment(classId, choice) in NotRecommended <==> classId != 1
  {
    var r := ClassComment(classId, choice);
    assert Recommended[0][9] == 'р' && NotRecommended[0][9] == 'н';
    assert |Recommended[1]| != |NotRecommended[1]|;
    assert |Recommended[2]| != |NotRecommended[2]|;
    assert |Recommended[1]| != |NotRecommended[0]|;
    assert |Recommended[2]| != |NotRecommended[0]|;
    assert |Recommended[0]| != |NotRecommended[1]|;
    assert |Recommended[0]| != |NotRecommended[2]|;
    assert |Recommended[1]| != |NotRecommended[2]|;
    assert |Recommended[2]| != |NotRecommended[1]|;
  }

  /** Every one of the class's three sentences can be drawn. */
  lemma ClassCommentReachesAll(classId: nat, s: string)
    requires s in ClassSentences(classId)
    ensures exists choice :: choice < 3 && ClassComment(classId, choice) == s
  {
    var k :| 0 <= k < 3 && ClassSentences(classId)[k] == s;
    assert ClassComment(classId, k) == s;
  }

  /** The four keyword categories, scanned in this order. */
  datatype Category = Experience | Education | Skills | Sales

  function Indicators(c: Category): seq<string> {
    match c
    case Experience => ["опыт работы", "лет опыта", "год опыта", "опыт в", "работал в", "занимал должность"]
    case Education => ["высшее образование", "университет", "вуз", "бакалавр", "магистр", "специальность"]
    case Skills => ["навыки", "владение", "знание", "умение", "компетенции", "технологии"]
    case Sales => ["продаж", "клиент", "менеджер", "сделк", "переговор", "презентаци"]
  }

  /** The sentence a category contributes. */
  function Enhancement(c: Category): string {
    match c
    case Experience => "Имеет релевантный опыт работы."
    case Education => "Обладает подходящим образованием."
    case Skills => "Демонстрирует необходимые технические навыки."
    case Sales => "Имеет опыт в сфере продаж."
  }

  /** Distinct categories contribute distinct sentences. */
  lemma EnhancementInjective(c: Category, d: Category)
    ensures Enhancement(c) == Enhancement(d) <==> c == d
  {
    EnhancementSize(c);
    EnhancementSize(d);
  }

  /** The sentences have pairwise different lengths. */
  lemma EnhancementSize(c: Category)
    ensures |Enhancement(c)| == match c
      case Experience => 30
      case Education => 33
      case Skills => 45
      case Sales => 26
  {
    match c
    case Experience =>
    case Education =>
    case Skills =>
    case Sales =>
  }

  /** Some indicator of the category occurs in the sample. */
  predicate Detected(c: Category, sample: string) {
    ScanIndicators(Indicators(c), sample)
  }

  /** One `for indicator ...: if indicator in text_sample: ...; break` loop: whether it appends; true as soon as one indicator occurs. */
  function ScanIndicators(indicators: seq<string>, sample: string): (found: bool)
    ensures found <==> exists k :: 0 <= k < |indicators| && Occurs(indicators[k], sample)
    decreases |indicators|
  {
    if |indicators| == 0 then false
    else if Occurs(indicators[0], sample) then true
    else
      var found := ScanIndicators(indicators[1..], sample);
      assert forall k :: 1 <= k < |indicators| ==> indicators[k] == indicators[1..][k - 1];
      found
  }

  /** At most one contribution per category, thanks to the `break`. */
  function Contribution(c: Category, sample: string): (r: seq<Category>)
    ensures r == [] || r == [c]
    ensures r == [c] <==> Detected(c, sample)
    ensures forall d :: d in r <==> d == c && Detected(c, sample)
  {
    if Detected(c, sample) then [c] else []
  }

  /**
   * app.py:117-145: the categories whose sentence enters the enhancement list,
   * before shuffling; the four loops run in this order.
   */
  function Matched(sample: string): (r: seq<Category>)
    ensures |r| <= 4
    ensures Distinct(r)
    ensures forall c :: c in r <==> Detected(c, sample)
  {
    var r := Contribution(Experience, sample) + Contribution(Education, sample)
      + Contribution(Skills, sample) + Contribution(Sales, sample);
    ContributionsDistinct(sample);
    forall c
      ensures c in r <==> Detected(c, sample)
    {
      ContributionsReportDetected(sample, c);
    }
    r
  }

  /** The four loops together report each category at most once. */
  lemma ContributionsDistinct(sample: string)
    ensures Distinct(Contribution(Experience, sample) + Contribution(Education, sample)
      + Contribution(Skills, sample) + Contribution(Sales, sample))
  {
    var e, ed, sk, sa := Contribution(Experience, sample), Contribution(Education, sample),
      Contribution(Skills, sample), Contribution(Sales, sample);
    DistinctAppend(e, ed);
    DistinctAppend(e + ed, sk);
    DistinctAppend(e + ed + sk, sa);
  }

  /** The four loops together report exactly the detected categories. */
  lemma ContributionsReportDetected(sample: string, c: Category)
    ensures c in Contribution(Experience, sample) + Contribution(Education, sample)
      + Contribution(Skills, sample) + Contribution(Sales, sample)
      <==> Detected(c, sample)
  {
    var e, ed, sk, sa := Contribution(Experience, sample), Contribution(Education, sample),
      Contribution(Skills, sample), Contribution(Sales, sample);
    assert c in e + ed + sk + sa <==> c in e || c in ed || c in sk || c in sa;
    match c
    case Experience =>
    case Education =>
    case Skills =>
    case Sales =>
  }

  /** app.py:114: the lowercased first 1000 characters; an empty text gives the empty sample. */
  function Sample(u: Tables, text: string): (r: string)
    ensures |text| <= 1000 ==> r == Cleaning.Lower(u, text)
    ensures |text| > 1000 ==> r == Cleaning.Lower(u, text[..1000])
  {
    if |text| == 0 then []
    else
      assert |text| <= 1000 ==> text[..Min(1000, |text|)] == text;
      Cleaning.Lower(u, text[..Min(1000, |text|)])
  }

  /** What random.shuffle may produce for the matches of this text. */
  predicate ShuffleFits(u: Tables, text: string, order: seq<nat>) {
    IsPermutation(order, |Matched(Sample(u, text))|)
  }

  /** app.py:148-150: the matches, shuffled, of which at most two are kept. */
  function Chosen(u: Tables, text: string, order: seq<nat>): (r: seq<Category>)
    requires ShuffleFits(u, text, order)
    ensures |r| == Min(2, |Matched(Sample(u, text))|)
    ensures Distinct(r)
    ensures forall k :: 0 <= k < |r| ==> Detected(r[k], Sample(u, text))
  {
    var all := Permute(Matched(Sample(u, text)), order);
    var r := Take(all, 2);
    assert forall k :: 0 <= k < |r| ==> r[k] == all[k];
    r
  }

  /** The sentences of the given categories, in the same order. */
  function Sentences(cs: seq<Category>): (r: seq<string>)
    ensures |r| == |cs|
    ensures forall k :: 0 <= k < |r| ==> r[k] == Enhancement(cs[k])
  {
    if |cs| == 0 then [] else [Enhancement(cs[0])] + Sentences(cs[1..])
  }

  /** Distinct categories give distinct sentences. */
  lemma SentencesDistinct(cs: seq<Category>)
    requires Distinct(cs)
    ensures Distinct(Sentences(cs))
  {
    var r := Sentences(cs);
    forall i, j | 0 <= i < j < |r|
      ensures r[i] != r[j]
    {
      EnhancementInjective(cs[i], cs[j]);
    }
  }

  /** The appended sentences are pairwise distinct, and each belongs to a detected category. */
  lemma AppendedSentencesDistinct(u: Tables, text: string, order: seq<nat>)
    requires ShuffleFits(u, text, order)
    ensures Distinct(Sentences(Chosen(u, text, order)))
    ensures forall k :: 0 <= k < |Chosen(u, text, order)| ==>
      exists c :: Detected(c, Sample(u, text)) && Sentences(Chosen(u, text, order))[k] == Enhancement(c)
  {
    var cs := Chosen(u, text, order);
    SentencesDistinct(cs);
    forall k | 0 <= k < |cs|
      ensures exists c :: Detected(c, Sample(u, text)) && Sentences(cs)[k] == Enhancement(c)
    {
      assert Detected(cs[k], Sample(u, text)) && Sentences(cs)[k] == Enhancement(cs[k]);
    }
  }

  /** `" ".join(parts)`. */
  function JoinSpaces(parts: seq<string>): (r: string)
    ensures |parts| == 1 ==> r == parts[0]
    ensures |parts| > 0 ==> parts[0] <= r
    ensures |parts| == 2 ==> r == parts[0] + " " + parts[1]
  {
    if |parts| == 0 then []
    else if |parts| == 1 then parts[0]
    else parts[0] + " " + JoinSpaces(parts[1..])
  }

  /** The base comment enhance_comment_with_text starts from (app.py:110-111). */
  function EffectiveBase(base: string, classId: nat, choice: nat): (b: string)
    requires choice < 3
    ensures |b| > 0
    ensures base != [] ==> b == base
    ensures base == [] ==> b in ClassSentences(classId)
  {
    if base == [] then ClassComment(classId, choice) else base
  }

  /** app.py:152-154: the base, then a space and the joined extras when there are any. */
  function Extend(base: string, extras: seq<string>): (r: string)
    ensures base <= r
    ensures r == base <==> |extras| == 0
    ensures |extras| > 0 ==> r == base + " " + JoinSpaces(extras)
  {
    if |extras| > 0 then
      var r := base + " " + JoinSpaces(extras);
      assert |r| > |base|;
      r
    else
      base
  }

  /**
   * app.py:108-154. `choice` is only drawn when the base comment is empty;
   * `order` is the shuffle of the matched sentences.
   */
  function EnhanceComment(u: Tables, base: string, text: string, classId: nat, choice: nat, order: seq<nat>): (r: string)
    requires choice < 3
    requires ShuffleFits(u, text, order)
    ensures EffectiveBase(base, classId, choice) <= r
    ensures r == EffectiveBase(base, classId, choice) <==> |Matched(Sample(u, text))| == 0
    ensures r != EffectiveBase(base, classId, choice) ==>
      r == EffectiveBase(base, classId, choice) + " " + JoinSpaces(Sentences(Chosen(u, text, order)))
  {
    Extend(EffectiveBase(base, classId, choice), Sentences(Chosen(u, text, order)))
  }

  /** The enhancement list is empty exactly when no category is detected. */
  lemma NothingMatchedIffNothingDetected(sample: string)
    ensures |Matched(sample)| == 0 <==> forall c :: !Detected(c, sample)
  {
    var m := Matched(sample);
    if |m| > 0 {
      assert m[0] in m;
    }
  }

  /** The comment is the base comment exactly when no indicator of any category occurs in the sample. */
  lemma EnhanceKeepsBaseIffNoIndicator(u: Tables, base: string, text: string, classId: nat, choice: nat, order: seq<nat>)
    requires choice < 3
    requires ShuffleFits(u, text, order)
    ensures EnhanceComment(u, base, text, classId, choice, order) == EffectiveBase(base, classId, choice)
        <==> forall c :: !Detected(c, Sample(u, text))
  {
    NothingMatchedIffNothingDetected(Sample(u, text));
  }

  /** The random draws one comment consumes. */
  datatype Draw = Draw(choice: nat, order: seq<nat>)

  predicate DrawFits(u: Tables, text: string, d: Draw) {
    d.choice < 3 && ShuffleFits(u, text, d.order)
  }

  /** Every text admits a draw: the first sentence and the unshuffled matches. */
  lemma SomeDrawFits(u: Tables, text: string)
    ensures DrawFits(u, text, Draw(0, Identity(|Matched(Sample(u, text))|)))
  {
  }

  /**
   * app.py:157-165, the path without exception. The base comment is never
   * empty, so enhance_comment_with_text draws no second base sentence.
   */
  function GenerateComment(u: Tables, text: string, classId: nat, d: Draw): (r: string)
    requires DrawFits(u, text, d)
    ensures ClassComment(classId, d.choice) <= r
    ensures r in ClassSentences(classId) <==> |Matched(Sample(u, text))| == 0
    ensures r != ClassComment(classId, d.choice) ==>
      r == ClassComment(classId, d.choice) + " " + JoinSpaces(Sentences(Chosen(u, text, d.order)))
  {
    var base := ClassComment(classId, d.choice);
    var r := EnhanceComment(u, base, text, classId, d.choice, d.order);
    assert r != base ==> r !in ClassSentences(classId) by {
      if r != base {
        var extras := Sentences(Chosen(u, text, d.order));
        ClassSentenceLengths(classId);
        EnhancementLength(extras[0]);
        assert |r| >= |base| + 1 + |extras[0]|;
      }
    }
    r
  }

  lemma ClassSentenceLengths(classId: nat)
    ensures forall k :: 0 <= k < 3 ==> 52 <= |ClassSentences(classId)[k]| <= 70
  {
  }

  lemma EnhancementLength(s: string)
    requires exists c :: s == Enhancement(c)
    ensures |s| >= 26
  {
  }

  /** Text past the first 1000 characters never reaches the sample. */
  lemma {:induction false} SampleIgnoresTail(u: Tables, text: string, tail: string)
    requires |text| >= 1000
    ensures Sample(u, text + tail) == Sample(u, text)
  {
    assert (text + tail)[..1000] == text[..1000];
  }

  /** Keyword occurrences beyond position 1000 never affect the comment. */
  lemma EnhanceIgnoresTail(u: Tables, base: string, text: string, tail: string, classId: nat, choice: nat, order: seq<nat>)
    requires |text| >= 1000
    requires choice < 3
    requires ShuffleFits(u, text, order)
    ensures ShuffleFits(u, text + tail, order)
    ensures EnhanceComment(u, base, text + tail, classId, choice, order) == EnhanceComment(u, base, text, classId, choice, order)
  {
    SampleIgnoresTail(u, text, tail);
  }

  /**
   * When experience and at most one other category are detected, every shuffle
   * keeps the experience sentence.
   */
  lemma ExperienceKeptWhenFewMatch(u: Tables, text: string, order: seq<nat>)
    requires ShuffleFits(u, text, order)
    requires Detected(Experience, Sample(u, text))
    requires |Matched(Sample(u, text))| <= 2
    ensures Experience in Chosen(u, text, order)
    ensures Enhancement(Experience) in Sentences(Chosen(u, text, order))
  {
    var m := Matched(Sample(u, text));
    var k :| 0 <= k < |m| && m[k] == Experience;
    PermutationIsOnto(order, |m|, k);
  }

  /** Experience is scanned first, so when detected it heads the enhancement list. */
  lemma ExperienceScannedFirst(sample: string)
    requires Experience in Matched(sample)
    ensures Matched(sample)[0] == Experience
  {
    assert Contribution(Experience, sample) == [Experience];
  }

  /**
   * With experience and at least two other categories detected, some shuffle
   * drops the experience sentence: finding "опыт работы" does not guarantee it
   * appears in the comment.
   */
  lemma ExperienceMayBeDropped(u: Tables, text: string)
    requires Experience in Matched(Sample(u, text))
    requires |Matched(Sample(u, text))| >= 3
    ensures exists order :: ShuffleFits(u, text, order) && Experience !in Chosen(u, text, order)
  {
    var m := Matched(Sample(u, text));
    ExperienceScannedFirst(Sample(u, text));
    var order := RotateLeft(|m|);
    RotationDropsHead(m, order);
    assert Chosen(u, text, order) == Take(Permute(m, order), 2);
  }

  /** Rotating left and keeping two leaves out the head of a list of distinct items. */
  lemma RotationDropsHead(m: seq<Category>, order: seq<nat>)
    requires Distinct(m) && 3 <= |m| <= 4 && order == RotateLeft(|m|)
    ensures m[0] !in Take(Permute(m, order), 2)
  {
    var r := Take(Permute(m, order), 2);
    assert r == [m[1], m[2]];
  }

  /** The shuffle that moves the first item to the back. */
  function RotateLeft(n: nat): (order: seq<nat>)
    requires 3 <= n <= 4
    ensures IsPermutation(order, n)
    ensures order[0] == 1 && order[1] == 2
  {
    if n == 3 then [1, 2, 0] else [1, 2, 3, 0]
  }

  /** Education is reported when its first indicator occurs, sales likewise. */
  lemma FirstIndicatorDetects(sample: string)
    ensures Occurs("высшее образование", sample) ==> Detected(Education, sample)
    ensures Occurs("продаж", sample) ==> Detected(Sales, sample)
  {
    assert Indicators(Education)[0] == "высшее образование";
    assert Indicators(Sales)[0] == "продаж";
  }

  /**
   * A sample with education and sales indicators but no experience or skills
   * indicator yields both of those sentences, in one order or the other.
   */
  lemma EducationAndSalesScenario(u: Tables, text: string, order: seq<nat>)
    requires ShuffleFits(u, text, order)
    requires Occurs("высшее образование", Sample(u, text))
    requires Occurs("продаж", Sample(u, text))
    requires !Detected(Experience, Sample(u, text)) && !Detected(Skills, Sample(u, text))
    ensures Chosen(u, text, order) == [Education, Sales] || Chosen(u, text, order) == [Sales, Education]
  {
    var s := Sample(u, text);
    FirstIndicatorDetects(s);
    OnlyEducationAndSales(s);
    ShufflesOfPair([Education, Sales], order);
  }

  /** Either shuffle of a two-item list keeps both items. */
  lemma ShufflesOfPair(m: seq<Category>, order: seq<nat>)
    requires |m| == 2 && IsPermutation(order, 2)
    ensures Take(Permute(m, order), 2) == m || Take(Permute(m, order), 2) == [m[1], m[0]]
  {
    assert order == [0, 1] || order == [1, 0] by {
      assert order[0] < 2 && order[1] < 2 && order[0] != order[1];
    }
  }

  lemma OnlyEducationAndSales(s: string)
    requires Detected(Education, s) && Detected(Sales, s)
    requires !Detected(Experience, s) && !Detected(Skills, s)
    ensures Matched(s) == [Education, Sales]
  {
  }

}
