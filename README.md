# Text-processing API: a Dafny model

This project models the request pipeline of a small text-processing web service. It covers:

- the five Flask API handlers (`app.py`);
- the serverless content-enhancement function (`api/enhance_content.py`), with its envelope helper (`api/utils/response_wrapper.py`) and input validator (`api/utils/validators.py`);
- four of the text services the handlers call:
  - the content enhancer inserts transition phrases;
  - the keyword extractor filters and counts tokens, then picks the most common;
  - the translator maps language names to codes, takes an English shortcut, and turns failures into data;
  - the sentiment analyzer sorts polarity into five categories.

The external libraries are parameters of the model: NLTK's tokenizers and stopword list, TextBlob's scorer, the Google translator, `random.choice`, and Python's `int` on strings. What the program does around them is modelled as the code does it.

Python's dynamic behaviour is explicit wherever the code relies on it. This covers `json.loads` values (module `Values`), truthiness, `in` on dicts, lists and strings, `dict.get`, and the exceptions these raise on other types. As a result the model shows which request bodies make the handlers raise rather than answer.

Modules:

- `Values`: JSON values and the Python built-ins used.
- `ContentEnhancer`
- `Validators`
- `ResponseWrapper`
- `EnhanceContentApi`: the serverless handler, a class whose methods write response events and log records.
- `KeywordExtractor`
- `Translator`
- `SentimentAnalyzer`
- `App`: the Flask handlers, and a class for the response that `add_cors_headers` mutates.

Behaviour worth knowing, as the code is written:

- `validate_text_input` assumes a dict. On a truthy number, a list containing `"text"`, or a string containing `"text"`, the validator raises. `do_POST` then sends no response and logs nothing (`Validators.ValidateTextInput`, `EnhanceContentApi.Handler.DoPost`).
- The Flask handlers only check that the `text` key is present. An empty or non-string `text` reaches the service:
  - a falsy non-string takes the service's blank-text branch;
  - a truthy non-string raises `AttributeError` in `strip`, which the handler answers with 500 (`App.TextArgument`, `App.AcceptsMoreThanValidator`).
- `word in string.punctuation` is a substring test against the punctuation string, not a test on single characters (`KeywordExtractor.Kept`).

## Model

| member | source | states |
|---|---|---|
| Values.Contains | api/utils/validators.py:14 | `key in v`: key membership on a dict, element equality on a list, substring on a str; a TypeError for every other type |
| Values.Get | api/utils/validators.py:17 | `v.get(key, default)`: the field or the default on a dict; an AttributeError for every other type |
| Values.WordCountPositive | services/content_enhancer.py:71-77 | a sentence with more than four words has a first character, so `sentences[i][0]` is defined; `len(s.split()) > 0` exactly when `s` is not blank |
| Values.Lower | services/keyword_extractor.py:34 | `lower()` keeps the length and maps each ASCII capital to its small letter, leaving every other character alone |
| Values.JoinLength | services/content_enhancer.py:89 | `" ".join` of n > 0 parts is as long as the parts plus n - 1 separators |
| ContentEnhancer.CatalogueShape | services/content_enhancer.py:30-49 | the catalogue holds 18 phrases, each at least seven characters long and ending in ", " |
| ContentEnhancer.CaseBranchesAgree | services/content_enhancer.py:77-84 | the upper-case branch (first character, then the rest) builds the same sentence as the lower-case branch |
| ContentEnhancer.InsertTransitions | services/content_enhancer.py:64-86 | the loop over indices 1, 4, 7, ... yields exactly the enhanced sentences (an eligible sentence gets the next drawn phrase in front, every other sentence is kept) and counts one change per eligible sentence |
| ContentEnhancer.EnhanceContent | services/content_enhancer.py:15-96 | blank text gives `("", 0, 0, 0)`; fewer than three sentences return the text unchanged with no changes; otherwise the enhanced sentences joined with single spaces, `len(text)`, the length of the joined text, and the number of eligible sentences |
| ContentEnhancer.SentenceChange | services/content_enhancer.py:68-84 | a sentence changes exactly when it is at an index 1, 4, 7, ... and has more than four words; a changed sentence is a catalogue phrase followed by the original; every other index keeps its sentence |
| ContentEnhancer.ChangesMadeCounts | services/content_enhancer.py:86 | `changes_made` equals the number of sentences that differ from the originals |
| ContentEnhancer.ChangesBound | services/content_enhancer.py:68 | at most one change per visited index: `changes_made <= (n + 1) / 3` for n sentences |
| ContentEnhancer.PrefixLengths | services/content_enhancer.py:81-84 | over any prefix, the enhanced sentences are as long as the originals plus the inserted phrases, which add at least seven characters per change |
| ContentEnhancer.EnhancedLength | services/content_enhancer.py:89-94 | `enhanced_length` is the length of the joined originals plus the inserted phrases, at least seven characters per change |
| Validators.ValidateTextInput | api/utils/validators.py:11-24 | the four guards in order, each with its message; valid with no message exactly on an object whose `text` is a non-blank string; raises exactly on truthy scalars, lists holding `"text"` and strings containing `"text"`; valid exactly when there is no message |
| ResponseWrapper.MakeResponse | api/utils/response_wrapper.py:4-33 | status "success" exactly for 2xx codes and "error" otherwise; the message as given; `data` present exactly when given; the four envelope headers |
| ResponseWrapper.ParseBody | api/utils/response_wrapper.py:38-48 | a failing Content-Length raises; length 0 or undecodable JSON give `{}`; otherwise the decoded value |
| EnhanceContentApi.PostDecision | api/enhance_content.py:17-55 | an empty body gives 400 "Request body is empty" and logs `{}`; undecodable JSON gives 400 "Invalid JSON in request body" and logs `{}`; a validator failure gives 400 with the validator's message; a valid request gives 200 with the enhancer's result, or 500 "Error processing request: " + the error; nothing is answered exactly when Content-Length fails or the validator raises |
| EnhanceContentApi.PostResponseShape | api/enhance_content.py:22-51 | each answer is 200, 400 or 500; data is present and the status is "success" exactly at 200; only a valid request gets anything but 400 |
| EnhanceContentApi.ParseBodyAgrees | api/enhance_content.py:21-35 | an empty or undecodable body, which `do_POST` rejects itself, is what `parse_body` turns into `{}`, which the validator also rejects; an accepted body is what `parse_body` returns |
| EnhanceContentApi.HeaderEvents | api/enhance_content.py:58-60 | one header line per header, in order |
| EnhanceContentApi.Handler.DoOptions | api/enhance_content.py:10-15 | a 200 status, then Allow-Origin `*`, Allow-Methods `POST` and Allow-Headers `Content-Type`, the end of the headers, no body, nothing logged |
| EnhanceContentApi.Handler.SendResponse | api/enhance_content.py:57-62 | the status line, every header in order, the end of the headers, then the body; nothing logged |
| EnhanceContentApi.Handler.LogRequest | api/enhance_content.py:25 | appends one log record with the route, the logged body and the status code, and writes nothing |
| EnhanceContentApi.Handler.DoPost | api/enhance_content.py:17-55 | every answered request writes exactly the events of the response `PostDecision` chooses and logs exactly one record; a request on which Content-Length or the validator raises writes and logs nothing |
| KeywordExtractor.Cleaned | services/keyword_extractor.py:38-42 | a word is among the filtered tokens exactly when it is a token that is not a stopword, not a substring of the punctuation string and longer than two characters |
| KeywordExtractor.CleanedCounts | services/keyword_extractor.py:38-42 | a kept word occurs among the filtered tokens as often as among all tokens; a dropped word does not occur |
| KeywordExtractor.CleanedAppend | services/keyword_extractor.py:38-42 | the filter keeps token order: filtering a concatenation is the concatenation of the filtered parts |
| KeywordExtractor.CleanedSingle | services/keyword_extractor.py:38-42 | a single token is kept exactly when it passes the filter |
| KeywordExtractor.CleanedKeepsOrder | services/keyword_extractor.py:38-42 | two kept words first occur among the filtered tokens in the same order as they first occur among all tokens |
| KeywordExtractor.DistinctInFirstOccurrenceOrder | services/keyword_extractor.py:45 | the counter's keys appear in the order of their first occurrence in the token list |
| KeywordExtractor.Tally | services/keyword_extractor.py:45 | `Counter(tokens).items()`: each distinct token once, with its number of occurrences |
| KeywordExtractor.MostCommon | services/keyword_extractor.py:48 | `most_common(n)` returns `min(n, distinct)` items (none for n <= 0), each taken from the counter; its order is stated by `MostCommonSelects` |
| KeywordExtractor.MostCommonSelects | services/keyword_extractor.py:48 | the stable descending sort: counts non-increasing, ties in counter order; an item left out has a lower count than every selected one, or the same count and a later position in the counter |
| KeywordExtractor.ExtractKeywords | services/keyword_extractor.py:7-54 | blank text gives no keywords, a word count of 0 and no extractions; otherwise the word count is the number of tokens before filtering, and `total_extracted` is the number of keywords, which is `min(num_keywords, distinct filtered tokens)`; which keywords and in what order is stated by `KeywordsAreKeptTokens` and `KeywordsDominateTokens` |
| KeywordExtractor.KeywordsAreKeptTokens | services/keyword_extractor.py:34-48 | each keyword is a token of the lower-cased text that passes the filter, its count is its number of occurrences among the tokens, and keywords with equal counts come in the order they first occur among the tokens |
| KeywordExtractor.KeywordsDominateTokens | services/keyword_extractor.py:34-48 | a kept token of the text that was not selected occurs no more often than any keyword, and if exactly as often, it first occurs after that keyword |
| KeywordExtractor.KeywordCountsExact | services/keyword_extractor.py:45-48 | each keyword's count equals its number of occurrences in the filtered token list |
| KeywordExtractor.KeywordsSorted | services/keyword_extractor.py:45-48 | the keywords are distinct, by non-increasing count, and equal counts appear in first-occurrence order within the filtered list |
| KeywordExtractor.KeywordsDominate | services/keyword_extractor.py:48 | no filtered token that was not selected occurs more often than a selected keyword, and one that occurs as often first occurs after it in the filtered list |
| KeywordExtractor.DominatesOne | services/keyword_extractor.py:48 | the same for one unselected filtered token and one keyword |
| Translator.TargetCode | services/translator.py:24-40 | a name in any letter case becomes the code the mapping gives for its lower-case form; any other `to_lang` is kept unchanged |
| Translator.TargetCodeIdempotent | services/translator.py:24-40 | no code is itself a name, so mapping a mapped target again changes nothing |
| Translator.TargetCodeIgnoresCase | services/translator.py:39-40 | a name written with capitals maps to the same code as the same name in small letters |
| Translator.TranslateText | services/translator.py:15-77 | blank text gives `""`, both languages as given and length 0; a non-string `to_lang` raises AttributeError; mapped target "en" with source "auto" returns the text, source "auto-detected (English)" and target "en"; otherwise the mapped target, `len(text)`, and either the translation with source "auto-detected" (for "auto") or `from_lang`, or "Translation error: " + the description with source `from_lang` |
| Translator.ShortcutNeedsNoTranslator | services/translator.py:43-50 | on the English shortcut the result does not depend on the translator at all |
| Translator.EnglishNamesShortcut | services/translator.py:39-50 | "en", or "english" in any letter case, with source "auto" always takes the shortcut |
| SentimentAnalyzer.Category | services/sentiment_analyzer.py:28-37 | "Strongly Positive" exactly for polarity >= 0.5; "Positive" exactly for 0 < p < 0.5; "Neutral" exactly for 0; "Negative" exactly for -0.5 < p < 0; "Strongly Negative" exactly for p <= -0.5 |
| SentimentAnalyzer.CategoryMonotone | services/sentiment_analyzer.py:28-37 | every polarity lands in one of the five categories, and a higher polarity never gets a more negative category |
| SentimentAnalyzer.AnalyzeSentiment | services/sentiment_analyzer.py:13-43 | blank text gives 0, 0, "Neutral"; otherwise the scorer's polarity and subjectivity unchanged, with the category of that polarity |
| SentimentAnalyzer.CategoryFitsPolarity | services/sentiment_analyzer.py:24-43 | the reported category is always the category of the reported polarity |
| App.ReadRequest | app.py:55-62 | a failing `get_json` is an error; a falsy body or one without `text` is 400; an object holding `text` proceeds with that field; a truthy scalar raises TypeError in `in`; a list or string that passes `in` raises in `get` |
| App.AcceptsMoreThanValidator | app.py:56 | every body the serverless validator accepts also proceeds here, but `{"text": 7}` proceeds too although the validator rejects it |
| App.TextArgument | app.py:62-63 | a string text goes on as it is; any other falsy value takes the services' blank branch; any other value raises AttributeError |
| App.TruncateTowardZero | app.py:90 | `int` of a float drops the fraction toward zero |
| App.PyInt | app.py:90 | `int(v)` of an int is itself, of a bool 0 or 1, of a float its truncation toward zero, of a string what parsing gives; None, a list or a dict fail with TypeError |
| App.Coerced | app.py:87-94 | an absent option takes the default; a value converting to an integer of at least 1 is kept; anything else becomes the default, so the count is always at least 1 |
| App.ApiAnalyzeSentiment | app.py:53-74 | 400 exactly when the text is missing; 500 "Error processing request: ..." for every exception; otherwise 200 "success" with the sentiment result; data present and status "success" exactly at 200 |
| App.ApiSummarize | app.py:77-107 | the same envelope rules, with the summarizer called on the text and the coerced `num_sentences`, default 3 |
| App.ApiExtractKeywords | app.py:110-140 | the same envelope rules, with the keyword result for the text and the coerced `num_keywords`, default 5 |
| App.ApiEnhanceContent | app.py:143-164 | the same envelope rules; success carries the enhancement of the text, as `EnhanceContent` specifies it |
| App.ApiTranslate | app.py:167-191 | the same envelope rules, with `from_lang` defaulting to "auto" and `to_lang` to "en"; an error the translation raises (a non-string `to_lang`) gives 500 |
| App.DefaultsTakeShortcut | app.py:177-180 | a request with only a non-blank text takes the English shortcut: an automatic source and English target return the text itself |
| App.FlaskResponse.AddCorsHeaders | app.py:37-41 | appends Allow-Origin `*`, Allow-Headers `Content-Type` and Allow-Methods `POST, OPTIONS`, in order, and changes nothing else |

## Left out

- Clocks and logging output: the model keeps one log record per request (route, body, status). It leaves out the timestamp, the latency, and what `log_request` prints (`api/utils/logger.py` is not part of this model). It also leaves out the line `translate_text` prints when translation fails, and the access-log line `BaseHTTPRequestHandler.send_response` writes to standard error; "nothing logged" in the rows above refers to the `log_request` records only.
- `services/text_summarizer.py` is not part of this model. `App.ApiSummarize` takes the summarizer as a parameter.
- External capabilities are parameters:
  - NLTK's `sent_tokenize`, `word_tokenize` and English stopword list;
  - TextBlob's polarity and subjectivity;
  - `GoogleTranslator`, as a translation or the description of the exception it raised;
  - `int` on a string;
  - `random.choice`, as a sequence of catalogue indices, the k-th draw used for the k-th change.
- NLTK resource lookups and downloads, at startup and inside the services, are left out. They are I/O.
- `json.dumps` is left out: bodies are kept as structures. `json.loads` is a parameter (a value or a decoding error), and its `UnicodeDecodeError` on bytes that are not UTF-8 is not modelled.
- `EnhanceContentApi.PostDecision`: `enhance` stands for `enhance_content` as a whole, including any exception its tokenizer raises. `ContentEnhancer.EnhanceContent` gives its value when it returns.
- HTTP plumbing is left out: the `Server` and `Date` headers `send_response` adds, stream writes, Flask routing, static file serving, `app.run`, and the headers `jsonify` sets. `App.FlaskResponse` holds only a status and headers.
- Values.Lower: only ASCII letters are lower-cased. For the translator's name lookup this is exact: the only non-ASCII character whose lower case is a plain ASCII letter is the Kelvin sign, which becomes `k`, and no name contains a `k`. For keywords, tokens with non-ASCII capitals keep those capitals in the model.
- Values.IsUpper: only ASCII capitals count. A sentence starting with another capital takes the lower-case branch, which builds the same string (`ContentEnhancer.CaseBranchesAgree`).
- Floating point: polarity, subjectivity and JSON numbers are exact reals. NaN and infinities, which `json.loads` accepts, are not represented. So `int()` of an infinite float, which raises `OverflowError` past the handler's `except (ValueError, TypeError)`, is not modelled.
- SentimentAnalyzer.AnalyzeSentiment: the blank branch returns the integers 0 and 0, which the model does not distinguish from the reals 0.0.
- Exception messages follow CPython's wording for `in` and attribute errors. The messages of exceptions raised inside the external libraries are parameters.
- App.ApiAnalyzeSentiment: the scorer is assumed not to raise, so an exception inside TextBlob (a missing corpus, say) is not modelled; the handler's 500 answer is modelled only for the exceptions raised before the scorer is called.
- App.ApiExtractKeywords: the word tokenizer and the stopword list are assumed not to raise, so a `LookupError` for a missing NLTK resource inside `extract_keywords` is not modelled; it would be answered with 500.
- App.ApiEnhanceContent: the sentence tokenizer is assumed not to raise, so the contract promises 200 for every text that reaches `enhance_content`; a `LookupError` for a missing NLTK resource, which the handler answers with 500, is not modelled.
- Concurrency between requests is not modelled. Each handler call is one sequential run.
