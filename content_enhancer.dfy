/** The content enhancer: it prepends a randomly drawn transition phrase to every
    third sentence (indices 1, 4, 7, ...) that has more than four words. The
    sentence tokenizer and the random number generator are parameters. */
module ContentEnhancer {
  import opened Values

  /** The fixed catalogue `random.choice` picks transition phrases from. */
  const Transitions: seq<string> := [
    "Furthermore, ", "In addition, ", "Moreover, ", "Similarly, ", "Likewise, ",
    "For instance, ", "To illustrate, ", "Specifically, ", "As a result, ",
    "Consequently, ", "Therefore, ", "Hence, ", "In contrast, ",
    "On the other hand, ", "However, ", "Nevertheless, ", "In conclusion, ",
    "To summarize, "
  ]

  /** What one call of `random.choice(transition_phrases)` picks: an index into the catalogue. */
  type PhraseIndex = k: int | 0 <= k < 18

  /** The sentences shorter than this many words plus one are left alone. */
  const MaxSkippedWords := 4

  /** The dictionary `enhance_content` returns. */
  datatype Enhancement = Enhancement(enhancedText: string, originalLength: nat, enhancedLength: nat, changesMade: nat)

  /** A phrase of the catalogue: at least seven characters, ending in a comma and a space. */
  predicate IsTransition(p: string)
  {
    |p| >= 7 && p[|p| - 2] == ',' && p[|p| - 1] == ' '
  }

  lemma CatalogueShape()
    ensures |Transitions| == 18
    ensures forall k :: 0 <= k < |Transitions| ==> IsTransition(Transitions[k])
  {
    forall k | 0 <= k < |Transitions|
      ensures IsTransition(Transitions[k])
    {
      assert Transitions[k] in Transitions;
    }
  }

  /** Index `i` is one of those `range(1, len(sentences), 3)` produces (given `i < len(sentences)`). */
  predicate Visited(i: nat)
  {
    i % 3 == 1
  }

  /** Sentence `i` is visited and long enough to receive a transition. */
  predicate Eligible(sentences: seq<string>, i: nat)
    requires i < |sentences|
  {
    Visited(i) && WordCount(sentences[i]) > MaxSkippedWords
  }

  /** How many sentences below index `n` receive a transition; this is also how many
      draws the random generator has made when the loop reaches index `n`. */
  function EligibleBefore(sentences: seq<string>, n: nat): nat
    requires n <= |sentences|
  {
    if n == 0 then 0
    else EligibleBefore(sentences, n - 1) + (if Eligible(sentences, n - 1) then 1 else 0)
  }

  /** The phrase drawn for sentence `i`: the generator's next draw at that point. */
  function PhraseFor(sentences: seq<string>, draws: nat -> PhraseIndex, i: nat): string
    requires i < |sentences|
  {
    Transitions[draws(EligibleBefore(sentences, i))]
  }

  /** Sentence `i` after enhancement. */
  function EnhancedSentence(sentences: seq<string>, draws: nat -> PhraseIndex, i: nat): string
    requires i < |sentences|
  {
    if Eligible(sentences, i) then PhraseFor(sentences, draws, i) + sentences[i] else sentences[i]
  }

  /** All sentences after enhancement. */
  function EnhancedSentences(sentences: seq<string>, draws: nat -> PhraseIndex): seq<string>
  {
    seq(|sentences|, i requires 0 <= i < |sentences| => EnhancedSentence(sentences, draws, i))
  }

  /** The upper-case branch keeps the first character in place and appends the rest,
      so it builds the same string as the lower-case branch. */
  lemma CaseBranchesAgree(transition: string, sentence: string)
    requires |sentence| > 0
    ensures transition + [sentence[0]] + sentence[1..] == transition + sentence
  {
    assert [sentence[0]] + sentence[1..] == sentence;
  }

  lemma EligibleBeforeStride(sentences: seq<string>, i: nat)
    requires Visited(i) && i < |sentences|
    ensures EligibleBefore(sentences, if i + 3 < |sentences| then i + 3 else |sentences|)
         == EligibleBefore(sentences, i) + (if Eligible(sentences, i) then 1 else 0)
  {
    assert EligibleBefore(sentences, i + 1) == EligibleBefore(sentences, i) + (if Eligible(sentences, i) then 1 else 0);
    if i + 2 <= |sentences| {
      assert EligibleBefore(sentences, i + 2) == EligibleBefore(sentences, i + 1);
    }
    if i + 3 <= |sentences| {
      assert EligibleBefore(sentences, i + 3) == EligibleBefore(sentences, i + 2);
    }
  }

  /** The two indices after a visited one are not visited, so they keep their sentence. */
  lemma StrideGap(sentences: seq<string>, draws: nat -> PhraseIndex, i: nat)
    requires Visited(i)
    ensures forall j :: i < j < i + 3 && j < |sentences| ==> EnhancedSentence(sentences, draws, j) == sentences[j]
  {
    forall j | i < j < i + 3 && j < |sentences|
      ensures EnhancedSentence(sentences, draws, j) == sentences[j]
    {
      assert j == i + 1 || j == i + 2;
      assert !Visited(j);
    }
  }

  /** One turn of the loop: sentence `i` gets its final form, and the two after it
      already have theirs. */
  lemma AdvanceStride(sentences: seq<string>, draws: nat -> PhraseIndex, before: seq<string>, after: seq<string>, i: nat)
    requires Visited(i) && i < |sentences| == |before|
    requires forall j :: 0 <= j < |sentences| ==>
      before[j] == if j < i then EnhancedSentence(sentences, draws, j) else sentences[j]
    requires after == before[i := EnhancedSentence(sentences, draws, i)]
    ensures forall j :: 0 <= j < |sentences| ==>
      after[j] == if j < i + 3 then EnhancedSentence(sentences, draws, j) else sentences[j]
  {
    StrideGap(sentences, draws, i);
  }

  /** The loop of `enhance_content` over indices 1, 4, 7, ...: every eligible sentence
      gets the next drawn phrase in front of it, and each insertion is counted. */
  method InsertTransitions(sentences: seq<string>, draws: nat -> PhraseIndex)
    returns (enhanced: seq<string>, changesMade: nat)
    ensures enhanced == EnhancedSentences(sentences, draws)
    ensures changesMade == EligibleBefore(sentences, |sentences|)
  {
    enhanced := sentences;
    changesMade := 0;
    var i := 1;
    while i < |sentences|
      invariant 1 <= i <= |sentences| + 2 && Visited(i)
      invariant |enhanced| == |sentences|
      invariant changesMade == EligibleBefore(sentences, if i < |sentences| then i else |sentences|)
      invariant forall j :: 0 <= j < |sentences| ==>
        enhanced[j] == if j < i then EnhancedSentence(sentences, draws, j) else sentences[j]
    {
      ghost var before := enhanced;
      if i < |sentences| {
        if WordCount(sentences[i]) > MaxSkippedWords {
          var transition := Transitions[draws(changesMade)];
          WordCountPositive(sentences[i]);
          if IsUpper(sentences[i][0]) {
            var firstChar := sentences[i][0];
            var restOfSentence := sentences[i][1..];
            CaseBranchesAgree(transition, sentences[i]);
            enhanced := enhanced[i := transition + [firstChar] + restOfSentence];
          } else {
            enhanced := enhanced[i := transition + sentences[i]];
          }
          changesMade := changesMade + 1;
        }
      }
      assert enhanced == before[i := EnhancedSentence(sentences, draws, i)];
      AdvanceStride(sentences, draws, before, enhanced, i);
      EligibleBeforeStride(sentences, i);
      i := i + 3;
    }
    assert enhanced == EnhancedSentences(sentences, draws);
  }

  /** `enhance_content(text)`, with `sentTokenize` standing for NLTK's `sent_tokenize`
      and `draws(k)` for the k-th result of `random.choice`. */
  method EnhanceContent(text: string, sentTokenize: string -> seq<string>, draws: nat -> PhraseIndex)
    returns (result: Enhancement)
    ensures IsBlank(text) ==> result == Enhancement("", 0, 0, 0)
    ensures !IsBlank(text) && |sentTokenize(text)| < 3 ==> result == Enhancement(text, |text|, |text|, 0)
    ensures !IsBlank(text) && |sentTokenize(text)| >= 3 ==>
      var sentences := sentTokenize(text);
      && result.enhancedText == Join(EnhancedSentences(sentences, draws))
      && result.originalLength == |text|
      && result.enhancedLength == |result.enhancedText|
      && result.changesMade == EligibleBefore(sentences, |sentences|)
  {
    if IsBlank(text) {
      return Enhancement("", 0, 0, 0);
    }
    var sentences := sentTokenize(text);
    if |sentences| < 3 {
      return Enhancement(text, |text|, |text|, 0);
    }
    var enhanced, changesMade := InsertTransitions(sentences, draws);
    var enhancedText := Join(enhanced);
    result := Enhancement(enhancedText, |text|, |enhancedText|, changesMade);
  }

  /** Which sentences change, and into what: exactly the eligible ones, each by having
      a catalogue phrase put in front of it; the first sentence and every index
      outside 1, 4, 7, ... stay as they were. */
  lemma SentenceChange(sentences: seq<string>, draws: nat -> PhraseIndex, j: nat)
    requires j < |sentences|
    ensures |EnhancedSentences(sentences, draws)| == |sentences|
    ensures EnhancedSentences(sentences, draws)[j] != sentences[j] <==> Eligible(sentences, j)
    ensures Eligible(sentences, j) <==> j % 3 == 1 && WordCount(sentences[j]) > 4
    ensures Eligible(sentences, j) ==>
      && PhraseFor(sentences, draws, j) in Transitions
      && IsTransition(PhraseFor(sentences, draws, j))
      && EnhancedSentences(sentences, draws)[j] == PhraseFor(sentences, draws, j) + sentences[j]
    ensures j % 3 != 1 ==> EnhancedSentences(sentences, draws)[j] == sentences[j]
  {
    CatalogueShape();
    var p := PhraseFor(sentences, draws, j);
    assert IsTransition(p);
    if Eligible(sentences, j) {
      assert |EnhancedSentences(sentences, draws)[j]| == |p| + |sentences[j]|;
    }
  }

  /** The number of indices below `n` at which `enhanced` differs from `sentences`. */
  function ChangedBefore(sentences: seq<string>, enhanced: seq<string>, n: nat): nat
    requires n <= |sentences| == |enhanced|
  {
    if n == 0 then 0
    else ChangedBefore(sentences, enhanced, n - 1) + (if enhanced[n - 1] != sentences[n - 1] then 1 else 0)
  }

  /** `changes_made` counts the sentences that changed. */
  lemma {:induction false} ChangesMadeCounts(sentences: seq<string>, draws: nat -> PhraseIndex, n: nat)
    requires n <= |sentences|
    ensures ChangedBefore(sentences, EnhancedSentences(sentences, draws), n) == EligibleBefore(sentences, n)
  {
    if n > 0 {
      ChangesMadeCounts(sentences, draws, n - 1);
      SentenceChange(sentences, draws, n - 1);
    }
  }

  /** At most one change per index 1, 4, 7, ... below `n`: of every three consecutive
      indices only one is visited. */
  lemma {:induction false} ChangesBound(sentences: seq<string>, n: nat)
    requires n <= |sentences|
    ensures 3 * EligibleBefore(sentences, n) <= n + 1
    ensures EligibleBefore(sentences, n) <= (n + 1) / 3
  {
    if n > 0 {
      ChangesBound(sentences, n - 1);
      if Eligible(sentences, n - 1) {
        var q := (n - 1) / 3;
        assert n - 1 == 3 * q + 1;
        assert 3 * EligibleBefore(sentences, n - 1) <= 3 * q + 2;
      }
    }
  }

  /** The total length of the phrases put in front of sentences below index `n`. */
  function InsertedLength(sentences: seq<string>, draws: nat -> PhraseIndex, n: nat): nat
    requires n <= |sentences|
  {
    if n == 0 then 0
    else
      var added := if Eligible(sentences, n - 1) then |PhraseFor(sentences, draws, n - 1)| else 0;
      InsertedLength(sentences, draws, n - 1) + added
  }

  lemma {:induction false} PrefixLengths(sentences: seq<string>, draws: nat -> PhraseIndex, n: nat)
    requires n <= |sentences|
    ensures SumLengths(EnhancedSentences(sentences, draws)[..n])
         == SumLengths(sentences[..n]) + InsertedLength(sentences, draws, n)
    ensures InsertedLength(sentences, draws, n) >= 7 * EligibleBefore(sentences, n)
  {
    if n > 0 {
      PrefixLengths(sentences, draws, n - 1);
      var e := EnhancedSentences(sentences, draws);
      assert e[..n][..n - 1] == e[..n - 1];
      assert sentences[..n][..n - 1] == sentences[..n - 1];
      SentenceChange(sentences, draws, n - 1);
    }
  }

  /** The enhanced text is the joined original sentences lengthened by exactly the
      inserted phrases, each at least seven characters long. This is relative to the
      joined sentences, not to `text`: the tokenizer may drop whitespace. */
  lemma EnhancedLength(sentences: seq<string>, draws: nat -> PhraseIndex)
    requires |sentences| > 0
    ensures |Join(EnhancedSentences(sentences, draws))|
         == |Join(sentences)| + InsertedLength(sentences, draws, |sentences|)
    ensures InsertedLength(sentences, draws, |sentences|) >= 7 * EligibleBefore(sentences, |sentences|)
  {
    var e := EnhancedSentences(sentences, draws);
    PrefixLengths(sentences, draws, |sentences|);
    assert e[..|sentences|] == e;
    assert sentences[..|sentences|] == sentences;
    JoinLength(e);
    JoinLength(sentences);
  }
}
