/** The keyword extractor: filter the tokens, count them, and keep the `n` most
    frequent, most frequent first, ties in the order the tokens first appear. The
    word tokenizer and the stopword list are parameters. */
module KeywordExtractor {
  import opened Values

  /** `string.punctuation` */
  const Punctuation: string := "!\"#$%&'()*+,-./:;<=>?@[\\]^_`{|}~"

  /** The dictionary `extract_keywords` returns; `keywords` keeps the dict's order. */
  datatype Keywords = Keywords(keywords: seq<(string, nat)>, wordCount: nat, totalExtracted: nat)

  /** The list comprehension's filter. `word not in string.punctuation` is a substring
      test against the punctuation string, not a test on single characters. */
  predicate Kept(word: string, stopWords: set<string>)
  {
    word !in stopWords && !IsSubstring(word, Punctuation) && |word| > 2
  }

  /** `cleaned_tokens`: the kept tokens, in order. */
  function Cleaned(tokens: seq<string>, stopWords: set<string>): (cleaned: seq<string>)
    ensures forall w :: w in cleaned <==> w in tokens && Kept(w, stopWords)
  {
    if |tokens| == 0 then []
    else
      var init := tokens[..|tokens| - 1];
      var last := tokens[|tokens| - 1];
      assert tokens == init + [last];
      Cleaned(init, stopWords) + (if Kept(last, stopWords) then [last] else [])
  }

  /** A kept token occurs as often among the filtered tokens as among all tokens; a
      dropped one does not occur. */
  lemma {:induction false} CleanedCounts(tokens: seq<string>, stopWords: set<string>)
    ensures forall w :: multiset(Cleaned(tokens, stopWords))[w] == if Kept(w, stopWords) then multiset(tokens)[w] else 0
  {
    if |tokens| > 0 {
      var init := tokens[..|tokens| - 1];
      var last := tokens[|tokens| - 1];
      assert tokens == init + [last];
      CleanedCounts(init, stopWords);
      assert multiset(tokens) == multiset(init) + multiset{last};
    }
  }

  /** The filter works token by token: filtering a concatenation filters each part. */
  lemma {:induction false} CleanedAppend(a: seq<string>, b: seq<string>, stopWords: set<string>)
    ensures Cleaned(a + b, stopWords) == Cleaned(a, stopWords) + Cleaned(b, stopWords)
    decreases |b|
  {
    if |b| == 0 {
      assert a + b == a;
    } else {
      var init := b[..|b| - 1];
      var last := b[|b| - 1];
      assert (a + b)[..|a + b| - 1] == a + init;
      assert (a + b)[|a + b| - 1] == last;
      CleanedAppend(a, init, stopWords);
    }
  }

  /** A single token is kept or dropped as the filter says. */
  lemma CleanedSingle(w: string, stopWords: set<string>)
    ensures Cleaned([w], stopWords) == if Kept(w, stopWords) then [w] else []
  {
    assert [w][..0] == [];
  }

  /** Extending a list leaves the first occurrence of a word already present where it was. */
  lemma {:induction false} FirstIndexExtend(t: seq<string>, x: string, w: string)
    requires w in t + [x]
    ensures w in t ==> FirstIndex(t + [x], w) == FirstIndex(t, w)
    ensures w !in t ==> FirstIndex(t + [x], w) == |t|
  {
    if w in t {
      var k := FirstIndex(t, w);
      assert (t + [x])[k] == w;
      forall j | 0 <= j < k ensures (t + [x])[j] != w {
        assert (t + [x])[j] == t[j];
      }
    } else {
      assert (t + [x])[|t|] == w;
      forall j | 0 <= j < |t| ensures (t + [x])[j] != w {
        assert (t + [x])[j] == t[j];
      }
    }
  }

  /** Two kept words first occur in the filtered list in the order they first occur in
      the token list: the filter keeps the tokens' order. */
  lemma {:induction false} CleanedKeepsOrder(tokens: seq<string>, stopWords: set<string>, u: string, v: string)
    requires u in Cleaned(tokens, stopWords) && v in Cleaned(tokens, stopWords)
    ensures u in tokens && v in tokens
    ensures FirstIndex(Cleaned(tokens, stopWords), u) < FirstIndex(Cleaned(tokens, stopWords), v)
        <==> FirstIndex(tokens, u) < FirstIndex(tokens, v)
  {
    var init := tokens[..|tokens| - 1];
    var last := tokens[|tokens| - 1];
    assert tokens == init + [last];
    var c := Cleaned(init, stopWords);
    var cleaned := Cleaned(tokens, stopWords);
    if Kept(last, stopWords) {
      assert cleaned == c + [last];
      FirstIndexExtend(c, last, u);
      FirstIndexExtend(c, last, v);
    } else {
      assert cleaned == c;
    }
    FirstIndexExtend(init, last, u);
    FirstIndexExtend(init, last, v);
    if u in c && v in c {
      CleanedKeepsOrder(init, stopWords, u, v);
    } else if u in c {
      assert FirstIndex(c, u) < |c|;
      assert FirstIndex(init, u) < |init|;
    } else if v in c {
      assert FirstIndex(c, v) < |c|;
      assert FirstIndex(init, v) < |init|;
    }
  }

  predicate NoDuplicates<T(==)>(s: seq<T>)
  {
    forall i, j :: 0 <= i < j < |s| ==> s[i] != s[j]
  }

  /** The index of the first occurrence of `w` in `t`. */
  function FirstIndex(t: seq<string>, w: string): (k: nat)
    requires w in t
    ensures k < |t| && t[k] == w
    ensures forall j :: 0 <= j < k ==> t[j] != w
  {
    if t[0] == w then 0 else 1 + FirstIndex(t[1..], w)
  }

  /** The distinct tokens in order of first occurrence: the key order of `Counter(t)`. */
  function Distinct(t: seq<string>): (d: seq<string>)
    ensures forall w :: w in d <==> w in t
    ensures NoDuplicates(d)
  {
    if |t| == 0 then []
    else
      var d := Distinct(t[..|t| - 1]);
      var last := t[|t| - 1];
      assert t == t[..|t| - 1] + [last];
      if last in d then d else d + [last]
  }

  /** Earlier keys of the counter occur earlier in the token list. */
  lemma {:induction false} DistinctInFirstOccurrenceOrder(t: seq<string>, i: nat, j: nat)
    requires i < j < |Distinct(t)|
    ensures FirstIndex(t, Distinct(t)[i]) < FirstIndex(t, Distinct(t)[j])
  {
    var init := t[..|t| - 1];
    var d := Distinct(init);
    var last := t[|t| - 1];
    assert t == init + [last];
    var a, b := Distinct(t)[i], Distinct(t)[j];
    if j < |d| {
      DistinctInFirstOccurrenceOrder(init, i, j);
      assert FirstIndex(t, a) == FirstIndex(init, a) by {
        var k := FirstIndex(init, a);
        assert t[k] == a;
      }
      assert FirstIndex(t, b) == FirstIndex(init, b) by {
        var k := FirstIndex(init, b);
        assert t[k] == b;
      }
    } else {
      assert b == last && last !in init;
      assert FirstIndex(t, b) == |t| - 1;
      assert FirstIndex(t, a) < |init| by {
        var k := FirstIndex(init, a);
        assert t[k] == a;
      }
    }
  }

  /** `Counter(t).items()`: each distinct token with its number of occurrences. */
  function Tally(t: seq<string>): (items: seq<(string, nat)>)
    ensures |items| == |Distinct(t)|
    ensures forall i :: 0 <= i < |items| ==> items[i] == (Distinct(t)[i], multiset(t)[Distinct(t)[i]])
  {
    var d := Distinct(t);
    seq(|d|, i requires 0 <= i < |d| => (d[i], multiset(t)[d[i]]))
  }

  /** Item `i` comes before item `j` in `sorted(items, key=count, reverse=True)`:
      a higher count, or the same count and an earlier position (the sort is stable). */
  predicate Before(items: seq<(string, nat)>, i: nat, j: nat)
    requires i < |items| && j < |items|
  {
    items[i].1 > items[j].1 || (items[i].1 == items[j].1 && i < j)
  }

  /** Every entry of `rem` is an index of `items`. */
  predicate Indices(items: seq<(string, nat)>, rem: seq<nat>)
  {
    forall k :: 0 <= k < |rem| ==> rem[k] < |items|
  }

  /** The index among `rem` that comes first. */
  function Best(items: seq<(string, nat)>, rem: seq<nat>): (b: nat)
    requires rem != [] && Indices(items, rem)
    ensures b in rem && b < |items|
    ensures forall k :: 0 <= k < |rem| && rem[k] != b ==> Before(items, b, rem[k])
  {
    if |rem| == 1 then rem[0]
    else
      var tail := rem[1..];
      assert Indices(items, tail);
      var b := Best(items, tail);
      assert forall k :: 1 <= k < |rem| ==> rem[k] == tail[k - 1];
      if Before(items, rem[0], b) then rem[0] else b
  }

  /** `rem` with `x` removed. */
  function Without(rem: seq<nat>, x: nat): (r: seq<nat>)
    ensures forall y :: y in r <==> y in rem && y != x
    ensures NoDuplicates(rem) ==> NoDuplicates(r)
    ensures NoDuplicates(rem) && x in rem ==> |r| == |rem| - 1
    ensures x !in rem ==> r == rem
  {
    if |rem| == 0 then []
    else
      var tail := Without(rem[1..], x);
      assert forall y :: y in rem ==> y == rem[0] || y in rem[1..];
      assert NoDuplicates(rem) ==> NoDuplicates(rem[1..]) && rem[0] !in rem[1..];
      if rem[0] == x then tail else [rem[0]] + tail
  }

  /** The indices of the first `n` items of the stable descending sort of `rem`. */
  function TopIndices(items: seq<(string, nat)>, rem: seq<nat>, n: int): (top: seq<nat>)
    requires Indices(items, rem) && NoDuplicates(rem)
    ensures |top| == if n <= 0 then 0 else if n < |rem| then n else |rem|
    ensures NoDuplicates(top)
    ensures forall x :: x in top ==> x in rem
    ensures Indices(items, top)
    decreases |rem|
  {
    if n <= 0 || rem == [] then []
    else
      var b := Best(items, rem);
      var others := Without(rem, b);
      OthersAreIndices(items, rem, b);
      var rest := TopIndices(items, others, n - 1);
      assert forall y :: y in [b] + rest ==> y == b || y in rest;
      [b] + rest
  }

  lemma OthersAreIndices(items: seq<(string, nat)>, rem: seq<nat>, b: nat)
    requires Indices(items, rem)
    ensures Indices(items, Without(rem, b))
  {
    var others := Without(rem, b);
    forall k | 0 <= k < |others| ensures others[k] < |items| {
      assert others[k] in others;
      var j :| 0 <= j < |rem| && rem[j] == others[k];
    }
  }

  /** The selected indices come out in sorted order. */
  lemma {:induction false} TopIndicesSorted(items: seq<(string, nat)>, rem: seq<nat>, n: int)
    requires Indices(items, rem) && NoDuplicates(rem)
    ensures forall a, b :: 0 <= a < b < |TopIndices(items, rem, n)| ==>
      Before(items, TopIndices(items, rem, n)[a], TopIndices(items, rem, n)[b])
    decreases |rem|
  {
    if n > 0 && rem != [] {
      var b := Best(items, rem);
      var others := Without(rem, b);
      OthersAreIndices(items, rem, b);
      var rest := TopIndices(items, others, n - 1);
      TopIndicesSorted(items, others, n - 1);
      var top := [b] + rest;
      assert top == TopIndices(items, rem, n);
      forall a, c | 0 <= a < c < |top|
        ensures Before(items, top[a], top[c])
      {
        assert top[c] == rest[c - 1] && rest[c - 1] in rest;
        if a > 0 {
          assert top[a] == rest[a - 1];
          assert Before(items, rest[a - 1], rest[c - 1]);
        } else {
          assert top[c] in others && top[c] != b;
          var j :| 0 <= j < |rem| && rem[j] == top[c];
          assert Before(items, b, rem[j]);
        }
      }
    }
  }

  /** Each selected index comes before every index of `rem` that was not selected. */
  lemma {:induction false} TopIndicesDominate(items: seq<(string, nat)>, rem: seq<nat>, n: int)
    requires Indices(items, rem) && NoDuplicates(rem)
    ensures forall k, a :: 0 <= k < |rem| && rem[k] !in TopIndices(items, rem, n) && 0 <= a < |TopIndices(items, rem, n)| ==>
      Before(items, TopIndices(items, rem, n)[a], rem[k])
    decreases |rem|
  {
    if n > 0 && rem != [] {
      var b := Best(items, rem);
      var others := Without(rem, b);
      OthersAreIndices(items, rem, b);
      var rest := TopIndices(items, others, n - 1);
      TopIndicesDominate(items, others, n - 1);
      var top := [b] + rest;
      assert top == TopIndices(items, rem, n);
      forall k, a | 0 <= k < |rem| && rem[k] !in top && 0 <= a < |top|
        ensures Before(items, top[a], rem[k])
      {
        assert rem[k] in others;
        var j :| 0 <= j < |others| && others[j] == rem[k];
        if a > 0 {
          assert top[a] == rest[a - 1];
        }
      }
    }
  }

  function Range(n: nat): (r: seq<nat>)
    ensures |r| == n && forall i :: 0 <= i < n ==> r[i] == i
  {
    seq(n, i requires 0 <= i < n => i)
  }

  /** `Counter.most_common(n)`: which is `sorted(items, key=count, reverse=True)[:n]`. */
  function MostCommon(items: seq<(string, nat)>, n: int): (r: seq<(string, nat)>)
    ensures |r| == if n <= 0 then 0 else if n < |items| then n else |items|
    ensures forall a :: 0 <= a < |r| ==> r[a] in items
  {
    var rem := Range(|items|);
    assert forall x :: x in rem ==> x < |items|;
    var top := TopIndices(items, rem, n);
    seq(|top|, k requires 0 <= k < |top| => items[top[k]])
  }

  /** The order of the selection: counts never increase, equal counts keep the items'
      order, and an item left out has a lower count than every selected one, or the same
      count and a later position. */
  lemma MostCommonSelects(items: seq<(string, nat)>, n: int)
    ensures var r := MostCommon(items, n);
      && (forall a, b :: 0 <= a < b < |r| ==> r[a].1 >= r[b].1)
      && (forall a, b :: 0 <= a < b < |r| && r[a].1 == r[b].1 ==>
            exists i, j :: 0 <= i < j < |items| && items[i] == r[a] && items[j] == r[b])
      && (forall i, a :: 0 <= i < |items| && items[i] !in r && 0 <= a < |r| ==>
            items[i].1 < r[a].1 || (items[i].1 == r[a].1 && exists j :: 0 <= j < i && items[j] == r[a]))
  {
    var rem := Range(|items|);
    assert forall x :: x in rem ==> x < |items|;
    var top := TopIndices(items, rem, n);
    TopIndicesSorted(items, rem, n);
    TopIndicesDominate(items, rem, n);
    var r := MostCommon(items, n);
    assert |r| == |top| && forall a :: 0 <= a < |r| ==> r[a] == items[top[a]];
    forall a, b | 0 <= a < b < |r|
      ensures r[a].1 >= r[b].1
      ensures r[a].1 == r[b].1 ==> exists i, j :: 0 <= i < j < |items| && items[i] == r[a] && items[j] == r[b]
    {
      assert Before(items, top[a], top[b]);
    }
    forall i, a | 0 <= i < |items| && items[i] !in r && 0 <= a < |r|
      ensures items[i].1 < r[a].1 || (items[i].1 == r[a].1 && exists j :: 0 <= j < i && items[j] == r[a])
    {
      assert rem[i] == i;
      assert Before(items, top[a], rem[i]);
    }
  }

  /** `extract_keywords(text, num_keywords)`; `wordTokenize` stands for NLTK's
      `word_tokenize` and `stopWords` for its English stopword list. */
  function ExtractKeywords(text: string, numKeywords: int, wordTokenize: string -> seq<string>, stopWords: set<string>): (r: Keywords)
    // blank text: no keywords and no counts
    ensures IsBlank(text) ==> r == Keywords([], 0, 0)
    // the word count is taken before filtering
    ensures !IsBlank(text) ==> r.wordCount == |wordTokenize(Lower(text))|
    // `num_keywords` keywords, or every distinct filtered token if there are fewer
    ensures r.totalExtracted == |r.keywords|
    ensures !IsBlank(text) ==>
      r.totalExtracted == (if numKeywords <= 0 then 0
                           else if numKeywords < |Distinct(Cleaned(wordTokenize(Lower(text)), stopWords))| then numKeywords
                           else |Distinct(Cleaned(wordTokenize(Lower(text)), stopWords))|)
  {
    if IsBlank(text) then Keywords([], 0, 0)
    else
      var tokens := wordTokenize(Lower(text));
      var keywords := MostCommon(Tally(Cleaned(tokens, stopWords)), numKeywords);
      Keywords(keywords, |tokens|, |keywords|)
  }

  /** Every keyword is a cleaned token, paired with its number of occurrences. */
  lemma {:induction false} KeywordCountsExact(cleaned: seq<string>, n: int)
    ensures var kw := MostCommon(Tally(cleaned), n);
      forall a :: 0 <= a < |kw| ==> kw[a].0 in cleaned && kw[a].1 == multiset(cleaned)[kw[a].0]
  {
    var items := Tally(cleaned);
    var kw := MostCommon(items, n);
    MostCommonSelects(items, n);
    forall a | 0 <= a < |kw|
      ensures kw[a].0 in cleaned && kw[a].1 == multiset(cleaned)[kw[a].0]
    {
      var i :| 0 <= i < |items| && items[i] == kw[a];
      assert Distinct(cleaned)[i] in Distinct(cleaned);
    }
  }

  /** The keywords are distinct, by non-increasing count, equal counts in the order the
      tokens first appear. */
  lemma {:induction false} KeywordsSorted(cleaned: seq<string>, n: int)
    ensures var kw := MostCommon(Tally(cleaned), n);
      forall a, b :: 0 <= a < b < |kw| ==>
        && kw[a].0 != kw[b].0
        && kw[a].1 >= kw[b].1
        && (kw[a].1 == kw[b].1 ==>
              kw[a].0 in cleaned && kw[b].0 in cleaned && FirstIndex(cleaned, kw[a].0) < FirstIndex(cleaned, kw[b].0))
  {
    var items := Tally(cleaned);
    var kw := MostCommon(items, n);
    MostCommonSelects(items, n);
    forall a, b | 0 <= a < b < |kw|
      ensures kw[a].0 != kw[b].0 && kw[a].1 >= kw[b].1
      ensures kw[a].1 == kw[b].1 ==>
        kw[a].0 in cleaned && kw[b].0 in cleaned && FirstIndex(cleaned, kw[a].0) < FirstIndex(cleaned, kw[b].0)
    {
      var i :| 0 <= i < |items| && items[i] == kw[a];
      var j :| 0 <= j < |items| && items[j] == kw[b];
      assert Distinct(cleaned)[i] in Distinct(cleaned) && Distinct(cleaned)[j] in Distinct(cleaned);
      if kw[a].1 == kw[b].1 {
        var i', j' :| 0 <= i' < j' < |items| && items[i'] == kw[a] && items[j'] == kw[b];
        DistinctInFirstOccurrenceOrder(cleaned, i', j');
      }
    }
  }

  /** No cleaned token left out is more frequent than a selected keyword, and one that
      is as frequent first occurs after it. */
  lemma KeywordsDominate(cleaned: seq<string>, n: int)
    ensures var kw := MostCommon(Tally(cleaned), n);
      forall w, a :: w in cleaned && 0 <= a < |kw| && (forall c :: 0 <= c < |kw| ==> kw[c].0 != w) ==>
        && multiset(cleaned)[w] <= kw[a].1
        && (multiset(cleaned)[w] == kw[a].1 ==> kw[a].0 in cleaned && FirstIndex(cleaned, kw[a].0) < FirstIndex(cleaned, w))
  {
    var kw := MostCommon(Tally(cleaned), n);
    forall w, a | w in cleaned && 0 <= a < |kw| && (forall c :: 0 <= c < |kw| ==> kw[c].0 != w)
      ensures multiset(cleaned)[w] <= kw[a].1
      ensures multiset(cleaned)[w] == kw[a].1 ==> kw[a].0 in cleaned && FirstIndex(cleaned, kw[a].0) < FirstIndex(cleaned, w)
    {
      DominatesOne(cleaned, n, w, a);
    }
  }

  lemma DominatesOne(cleaned: seq<string>, n: int, w: string, a: nat)
    requires w in cleaned && a < |MostCommon(Tally(cleaned), n)|
    requires forall c :: 0 <= c < |MostCommon(Tally(cleaned), n)| ==> MostCommon(Tally(cleaned), n)[c].0 != w
    ensures multiset(cleaned)[w] <= MostCommon(Tally(cleaned), n)[a].1
    ensures multiset(cleaned)[w] == MostCommon(Tally(cleaned), n)[a].1 ==>
      MostCommon(Tally(cleaned), n)[a].0 in cleaned &&
      FirstIndex(cleaned, MostCommon(Tally(cleaned), n)[a].0) < FirstIndex(cleaned, w)
  {
    var items := Tally(cleaned);
    var d := Distinct(cleaned);
    var kw := MostCommon(items, n);
    MostCommonSelects(items, n);
    assert w in d;
    var i :| 0 <= i < |d| && d[i] == w;
    assert items[i] !in kw;
    assert items[i].1 < kw[a].1 || (items[i].1 == kw[a].1 && exists j :: 0 <= j < i && items[j] == kw[a]);
    if multiset(cleaned)[w] == kw[a].1 {
      var j :| 0 <= j < i && items[j] == kw[a];
      assert d[j] in d;
      DistinctInFirstOccurrenceOrder(cleaned, j, i);
    }
  }

  /** Every keyword is a token of the lower-cased text that passes the filter, with
      the number of times it occurs among the tokens; keywords with equal counts come in
      the order the tokens first appear in the text. */
  lemma KeywordsAreKeptTokens(text: string, numKeywords: int, wordTokenize: string -> seq<string>, stopWords: set<string>)
    requires !IsBlank(text)
    ensures var tokens := wordTokenize(Lower(text));
      var kw := ExtractKeywords(text, numKeywords, wordTokenize, stopWords).keywords;
      forall a :: 0 <= a < |kw| ==>
        kw[a].0 in tokens && Kept(kw[a].0, stopWords) && kw[a].1 == multiset(tokens)[kw[a].0]
    ensures var tokens := wordTokenize(Lower(text));
      var kw := ExtractKeywords(text, numKeywords, wordTokenize, stopWords).keywords;
      forall a, b :: 0 <= a < b < |kw| && kw[a].1 == kw[b].1 ==>
        kw[a].0 in tokens && kw[b].0 in tokens && FirstIndex(tokens, kw[a].0) < FirstIndex(tokens, kw[b].0)
  {
    var tokens := wordTokenize(Lower(text));
    var cleaned := Cleaned(tokens, stopWords);
    var kw := ExtractKeywords(text, numKeywords, wordTokenize, stopWords).keywords;
    KeywordCountsExact(cleaned, numKeywords);
    CleanedCounts(tokens, stopWords);
    KeywordsSorted(cleaned, numKeywords);
    forall a, b | 0 <= a < b < |kw| && kw[a].1 == kw[b].1
      ensures kw[a].0 in tokens && kw[b].0 in tokens && FirstIndex(tokens, kw[a].0) < FirstIndex(tokens, kw[b].0)
    {
      CleanedKeepsOrder(tokens, stopWords, kw[a].0, kw[b].0);
    }
  }

  /** No kept token of the text that was not selected occurs more often than a selected
      keyword, and one that occurs as often first appears in the text after it. */
  lemma KeywordsDominateTokens(text: string, numKeywords: int, wordTokenize: string -> seq<string>, stopWords: set<string>)
    requires !IsBlank(text)
    ensures var tokens := wordTokenize(Lower(text));
      var kw := ExtractKeywords(text, numKeywords, wordTokenize, stopWords).keywords;
      forall w, a :: w in tokens && Kept(w, stopWords) && 0 <= a < |kw| && (forall c :: 0 <= c < |kw| ==> kw[c].0 != w) ==>
        && multiset(tokens)[w] <= kw[a].1
        && (multiset(tokens)[w] == kw[a].1 ==> kw[a].0 in tokens && FirstIndex(tokens, kw[a].0) < FirstIndex(tokens, w))
  {
    var tokens := wordTokenize(Lower(text));
    var cleaned := Cleaned(tokens, stopWords);
    var kw := ExtractKeywords(text, numKeywords, wordTokenize, stopWords).keywords;
    KeywordCountsExact(cleaned, numKeywords);
    CleanedCounts(tokens, stopWords);
    forall w, a | w in tokens && Kept(w, stopWords) && 0 <= a < |kw| && (forall c :: 0 <= c < |kw| ==> kw[c].0 != w)
      ensures multiset(tokens)[w] <= kw[a].1
      ensures multiset(tokens)[w] == kw[a].1 ==> kw[a].0 in tokens && FirstIndex(tokens, kw[a].0) < FirstIndex(tokens, w)
    {
      assert w in cleaned;
      DominatesOne(cleaned, numKeywords, w, a);
      if multiset(tokens)[w] == kw[a].1 {
        CleanedKeepsOrder(tokens, stopWords, kw[a].0, w);
      }
    }
  }
}
