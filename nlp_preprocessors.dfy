/** The query cleaner of utils/nlp_preprocessors.py: lower-case the query,
    tokenize it, strip every non-word character from each token, and keep
    the tokens that are neither empty nor stopwords. The tokenizer and the
    stopword list belong to a library and are parameters here. */
module NlpPreprocessors {
  import opened Text
  import opened Subsequences

  /** The regular-expression substitution that deletes every run of
      non-word characters from a token: what is left is the token's word
      characters, in their order and with their multiplicities. */
  function StripNonWord(word: string): (r: string)
    ensures forall c :: c in r ==> IsWordChar(c) && c in word
    ensures forall c :: c in word && IsWordChar(c) ==> c in r
    ensures forall c :: multiset(r)[c] == if IsWordChar(c) then multiset(word)[c] else 0
    ensures SubsequenceOf(r, word)
    ensures |r| <= |word|
  {
    if word == [] then []
    else
      var rest := StripNonWord(word[1..]);
      var r := if IsWordChar(word[0]) then [word[0]] + rest else rest;
      StripCountsStep(word, rest);
      SubsequencePrepend(word, IsWordChar(word[0]), rest);
      WordCharsFromCounts(r, word);
      r
  }

  /** Counting step of `StripNonWord`: the first character is kept exactly
      when it is a word character. */
  lemma StripCountsStep(word: string, rest: string)
    requires word != []
    requires forall c :: multiset(rest)[c] == if IsWordChar(c) then multiset(word[1..])[c] else 0
    ensures forall c ::
      multiset(if IsWordChar(word[0]) then [word[0]] + rest else rest)[c] == (if IsWordChar(c) then multiset(word)[c] else 0)
  {
    CountsOfHead(word);
    assert multiset([word[0]] + rest) == multiset{word[0]} + multiset(rest);
  }

  /** A string holding each word character of `word` as often as `word`
      does, and nothing else, holds exactly the word characters of `word`. */
  lemma WordCharsFromCounts(r: string, word: string)
    requires forall c :: multiset(r)[c] == if IsWordChar(c) then multiset(word)[c] else 0
    ensures forall c :: c in r ==> IsWordChar(c) && c in word
    ensures forall c :: c in word && IsWordChar(c) ==> c in r
  {
    forall c | c in r ensures IsWordChar(c) && c in word {
      assert multiset(r)[c] > 0;
    }
    forall c | c in word && IsWordChar(c) ensures c in r {
      assert multiset(word)[c] > 0;
    }
  }

  /** The list comprehension that strips every token. */
  function CleanTokens(words: seq<string>): seq<string> {
    seq(|words|, k requires 0 <= k < |words| => StripNonWord(words[k]))
  }

  /** The filtering list comprehension: drop stopwords and empty tokens,
      keep every other token as often as it occurs, in order. */
  function KeepKeywords(words: seq<string>, stopWords: set<string>): (r: seq<string>)
    ensures forall k :: 0 <= k < |r| ==> r[k] !in stopWords && r[k] != ""
    ensures forall w :: w in words && w !in stopWords && w != "" ==> w in r
    ensures forall w :: multiset(r)[w] == if w !in stopWords && w != "" then multiset(words)[w] else 0
    ensures SubsequenceOf(r, words)
  {
    if words == [] then []
    else
      var rest := KeepKeywords(words[1..], stopWords);
      var r := if words[0] !in stopWords && words[0] != "" then [words[0]] + rest else rest;
      KeepCountsStep(words, stopWords, rest);
      SubsequencePrepend(words, words[0] !in stopWords && words[0] != "", rest);
      KeywordsFromCounts(r, words, stopWords);
      r
  }

  /** Counting step of `KeepKeywords`: the first token is kept exactly when
      it is neither a stopword nor empty. */
  lemma KeepCountsStep(words: seq<string>, stopWords: set<string>, rest: seq<string>)
    requires words != []
    requires forall w :: multiset(rest)[w] == if w !in stopWords && w != "" then multiset(words[1..])[w] else 0
    ensures forall w ::
      multiset(if words[0] !in stopWords && words[0] != "" then [words[0]] + rest else rest)[w] ==
      (if w !in stopWords && w != "" then multiset(words)[w] else 0)
  {
    CountsOfHead(words);
    assert multiset([words[0]] + rest) == multiset{words[0]} + multiset(rest);
  }

  /** A list holding each non-stopword non-empty token of `words` as often
      as `words` does, and nothing else, holds exactly those tokens. */
  lemma KeywordsFromCounts(r: seq<string>, words: seq<string>, stopWords: set<string>)
    requires forall w :: multiset(r)[w] == if w !in stopWords && w != "" then multiset(words)[w] else 0
    ensures forall k :: 0 <= k < |r| ==> r[k] !in stopWords && r[k] != ""
    ensures forall w :: w in words && w !in stopWords && w != "" ==> w in r
  {
    forall k | 0 <= k < |r| ensures r[k] !in stopWords && r[k] != "" {
      assert multiset(r)[r[k]] > 0;
    }
    forall w | w in words && w !in stopWords && w != "" ensures w in r {
      assert multiset(words)[w] > 0;
    }
  }

  /** `preprocess_user_query`: `tokenize` stands for `word_tokenize` and
      `stopWords` for NLTK's English stopword set. */
  function PreprocessUserQuery(query: string, tokenize: string -> seq<string>, stopWords: set<string>): (keywords: seq<string>)
    ensures forall k :: 0 <= k < |keywords| ==> keywords[k] !in stopWords
    ensures forall k :: 0 <= k < |keywords| ==> keywords[k] != ""
    ensures forall k, c :: 0 <= k < |keywords| && c in keywords[k] ==> IsWordChar(c)
    ensures SubsequenceOf(keywords, CleanTokens(tokenize(Lower(query))))
    ensures |keywords| <= |tokenize(Lower(query))|
    ensures forall w :: w in CleanTokens(tokenize(Lower(query))) && w !in stopWords && w != "" ==> w in keywords
    ensures forall w ::
      multiset(keywords)[w] == (if w !in stopWords && w != "" then multiset(CleanTokens(tokenize(Lower(query))))[w] else 0)
  {
    var words := CleanTokens(tokenize(Lower(query)));
    var keywords := KeepKeywords(words, stopWords);
    SubsequenceLength(keywords, words);
    forall k, c | 0 <= k < |keywords| && c in keywords[k]
      ensures IsWordChar(c)
    {
      SubsequenceMembers(keywords, words);
      assert keywords[k] in words;
    }
    keywords
  }

  /** Keywords come from the lower-cased query: as long as every word
      character the tokenizer emits occurs in the text it was given (it may
      rewrite punctuation, which is stripped anyway), every keyword is its
      own lower-case form. */
  lemma KeywordsAreLowercase(query: string, tokenize: string -> seq<string>, stopWords: set<string>)
    requires forall i, c :: 0 <= i < |tokenize(Lower(query))| && c in tokenize(Lower(query))[i] && IsWordChar(c) ==> c in Lower(query)
    ensures forall k :: 0 <= k < |PreprocessUserQuery(query, tokenize, stopWords)| ==>
      Lower(PreprocessUserQuery(query, tokenize, stopWords)[k]) == PreprocessUserQuery(query, tokenize, stopWords)[k]
  {
    var tokens := tokenize(Lower(query));
    var words := CleanTokens(tokens);
    var keywords := PreprocessUserQuery(query, tokenize, stopWords);
    SubsequenceMembers(keywords, words);
    forall k | 0 <= k < |keywords|
      ensures Lower(keywords[k]) == keywords[k]
    {
      assert keywords[k] in words;
      var i :| 0 <= i < |words| && words[i] == keywords[k];
      forall c | c in keywords[k] ensures !IsUpper(c) {
        assert c in tokens[i] && IsWordChar(c);
        assert c in Lower(query);
      }
      LowerOfLowercase(keywords[k]);
    }
  }
}
