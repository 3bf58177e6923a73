# Research assistant: keyword lookup and question rejection

This project models the logic of a small research-source finder. The user types a
research topic. The application looks up curated links (`{title, url}` records)
in three fixed keyword tables and shows them. If the topic is phrased as a
question, the application refuses it.

The model has four modules:

- `Text` (`text.dfy`) models the string operations the code relies on, over ASCII:
  - Python's `str.lower()` and `str.strip()`.
  - The regex classes `\s` and `\w`.
  - The substring operator `k in t`.
- `SourceRecords` (`source_records.dfy`) holds the record type `Source(title, url)`
  and `Dedup`, the specification of the first-occurrence-wins URL
  deduplication. Lemmas show that `Dedup`:
  - yields no duplicate URL;
  - is an order-preserving subsequence of its input;
  - covers every input URL;
  - keeps the first record for each URL;
  - is idempotent;
  - keeps a prefix that already has unique URLs.
- `SourcesOnly` (`sources_only.dfy`) models `sources_only.py`:
  - The tables are copied verbatim as constants:
    - eight institutional rule blocks;
    - the six academic keys;
    - the four historical-figure keys.
  - `institutional_sources` has no loop. Its `if` chain is a function over the rule table.
  - The `for key, items in mapping.items()` loop shared by `academic_sources`
    and `historical_figures` is the method `ScanMapping`, proved against `MatchEntries`.
  - `collect_sources` is the method `CollectSources`. Its `seen`/`unique` loop is
    the method `SourceRecords.KeepFirstPerUrl`, proved against `Dedup`.
  - `normalize_topic` is the function `NormalizeTopic`, with its regex written
    as the predicate `PhraseAt`.
- `App` (`app.dfy`) models `app.py`:
  - `is_question` is the predicate `IsQuestion`, with the regex `^(who|what|how|why|when|where)\b`
    written as `WordAt`.
  - The branching of the `index` view is `Index`, a pure function from a
    request (GET, or POST with its form fields) to the rendered
    topic, results and warning.

Characters follow Python's ASCII behaviour:
- `lower()` maps only `A`-`Z`.
- Whitespace is space, `\t` to `\r` and `\x1c` to `\x1f`.
- Word characters are `[A-Za-z0-9_]`.

`is_question` strips first and lowers second. `IsQuestionIff` shows that
lowering first and stripping second gives the same answer.

## Model

| member | source | states |
|---|---|---|
| `Text.Strip` | app.py:15 | `str.strip()`: the result has no whitespace at either end, is no longer than the input, and is empty exactly when the input is all whitespace |
| `Text.LowerChar` | sources_only.py:14 | `lower()` on one character: an upper-case letter becomes its lower-case letter, a character that is not upper-case is unchanged, and whitespace and word characters stay so |
| `Text.Lower` | sources_only.py:14 | `str.lower()`: the length is kept, every upper-case letter becomes its lower-case letter, and every character that is not an upper-case letter is unchanged |
| `Text.StripIsSlice` | app.py:15 | `str.strip()` returns exactly the input between its leading and its trailing run of whitespace |
| `Text.LowerIdempotent` | sources_only.py:14 | lowering twice is lowering once |
| `Text.StripLower` | app.py:15 | stripping and lowering commute |
| `Text.StripKeepsContains` | sources_only.py:30 | a key with no whitespace at either end occurs in `t.strip()` exactly when it occurs in `t` |
| `Text.Contains` | sources_only.py:30 | the operator `k in t` on strings: `k` is a prefix of some suffix of `t` |
| `Text.ContainsIffWindow` | sources_only.py:30 | `k in t` holds exactly when some window of `t` of length `len(k)` equals `k` |
| `Text.ContainsInLonger` | sources_only.py:134 | a key that occurs in `t` occurs in any text that contains `t` |
| `SourceRecords.Dedup` | sources_only.py:182-189 | the deduplicated list has no two records with one URL, has the same URL set as its input, and is no longer than it |
| `SourceRecords.KeepFirstPerUrl` | sources_only.py:182-189 | the `seen`/`unique` loop returns exactly `Dedup` of its input |
| `SourceRecords.FirstIndex` | sources_only.py:185 | the first position of a URL: it holds that URL and no earlier position does |
| `SourceRecords.DedupIsSubsequence` | sources_only.py:184-187 | the deduplicated list is an order-preserving subsequence of its input |
| `SourceRecords.DedupKeepsFirst` | sources_only.py:184-187 | each kept record is the first input record with its URL |
| `SourceRecords.DedupOfUnique` | sources_only.py:182-187 | a list without duplicate URLs passes through unchanged |
| `SourceRecords.DedupIdempotent` | sources_only.py:182-187 | deduplicating an already deduplicated list changes nothing |
| `SourceRecords.DedupPrefix` | sources_only.py:184-187 | later records never displace earlier ones: the deduplication of a prefix is a prefix of the deduplication |
| `SourceRecords.DedupKeepsUniquePrefix` | sources_only.py:176-187 | a leading block with distinct URLs opens the deduplicated output unchanged |
| `SourceRecords.DedupEmpty` | sources_only.py:182-189 | the result is empty exactly when the input is |
| `SourcesOnly.ScanMapping` | sources_only.py:133-137 | the mapping loop appends the records of exactly the keys that occur in the topic, in mapping order |
| `SourcesOnly.AcademicSources` | sources_only.py:100-137 | `academic_sources` scans the six-key academic mapping against `topic.lower()` |
| `SourcesOnly.HistoricalFigures` | sources_only.py:144-170 | `historical_figures` scans the four-key figures mapping against `topic.lower()` |
| `SourcesOnly.InstitutionalSources` | sources_only.py:25-94 | a record is in `institutional_sources(topic)` exactly when it belongs to a block one of whose keywords occurs in `topic.lower()` |
| `SourcesOnly.Fires` | sources_only.py:30 | `any(w in t for w in keywords)`: some keyword of the block occurs in `t` |
| `SourcesOnly.MatchRules` | sources_only.py:30-92 | the chain of `if any(...)` blocks: the whole record list of every block that fires, appended in declaration order |
| `SourcesOnly.MatchEntries` | sources_only.py:133-135 | the `for key, items in mapping.items()` scan (also at lines 166-168): the records of every key that occurs in `t`, appended in the mapping's order |
| `SourcesOnly.Collected` | sources_only.py:175-189 | `collect_sources`' result has no repeated URL, keeps the matchers' order and covers every URL they found |
| `SourcesOnly.AllMatches` | sources_only.py:176-179 | the institutional, academic and historical-figure records, concatenated in that order before duplicates are removed |
| `SourcesOnly.CollectSources` | sources_only.py:175-189 | the method returns the deduplication of institutional ++ academic ++ historical. The result has no duplicate URL, is an order-preserving subsequence of that concatenation, covers all its URLs and is no longer than it |
| `SourcesOnly.NormalizeTopic` | sources_only.py:13-20 | the normalized topic is lowercase, has no whitespace at either end and is no longer than the input |
| `SourcesOnly.RemovePhraseThenStrip` | sources_only.py:15-20 | removing a phrase and stripping keeps lowercase text lowercase and never lengthens it |
| `SourcesOnly.PrefixPhrasesArePrefixFree` | sources_only.py:16 | no question phrase is a prefix of another, so at most one can match |
| `SourcesOnly.PhraseAt` | sources_only.py:16 | one alternative of `^(...)\s+` matches: `t` starts with the phrase and the next character is whitespace |
| `SourcesOnly.RemoveLeadingPhrase` | sources_only.py:15-19 | the substitution returns a suffix of its input: either the input unchanged, or what follows a phrase at index 0 and its whitespace run |
| `SourcesOnly.RemoveLeadingPhraseNone` | sources_only.py:15-19 | without a phrase followed by whitespace at index 0, the substitution leaves the text unchanged |
| `SourcesOnly.RemoveLeadingPhraseFound` | sources_only.py:15-19 | a phrase followed by whitespace at index 0 is removed together with the whole whitespace run after it |
| `SourcesOnly.NormalizeWithoutPhrase` | sources_only.py:13-20 | a topic that does not start with a phrase and whitespace is only lowercased and stripped |
| `SourcesOnly.NormalizeRemovesPhrase` | sources_only.py:13-20 | a topic starting with a phrase and whitespace loses exactly that phrase (one removal only), then is stripped |
| `SourcesOnly.NormalizeIndentedTopic` | sources_only.py:13-20 | the phrase must sit at index 0 before trimming: a topic with leading whitespace keeps its phrase |
| `SourcesOnly.MatchEntriesMember` | sources_only.py:133-137 | a record is in a mapping's output iff it belongs to some key that occurs in the topic |
| `SourcesOnly.MatchRulesMember` | sources_only.py:25-94 | a record is in `institutional_sources`' output iff it belongs to a block one of whose keywords occurs in the topic |
| `SourcesOnly.MatchRulesAppend` | sources_only.py:25-94 | rule blocks are independent and appended in declaration order |
| `SourcesOnly.FiresInLongerTopic` | sources_only.py:30 | `any(w in t for w in keywords)` stays true when text is added around `t` |
| `SourcesOnly.PollutionFiresClimateAndPollution` | sources_only.py:61-76 | "pollution" fires both the climate and the pollution block, in that order, adjacent |
| `SourcesOnly.MatchRulesFirstFires` | sources_only.py:30-35 | when the first block fires, its records start the output |
| `SourcesOnly.FirstBlockLeads` | sources_only.py:176-187 | a firing first block with distinct URLs opens the collected output |
| `SourcesOnly.RaceRecordsComeFirst` | sources_only.py:29-35 | any race keyword puts the three race records at the head of `collect_sources`' result |
| `SourcesOnly.MatchRulesEmptyIff` | sources_only.py:25-94 | the rule chain outputs nothing exactly when no rule fires |
| `SourcesOnly.MatchEntriesEmptyIff` | sources_only.py:133-137 | a mapping outputs nothing exactly when no key occurs |
| `SourcesOnly.TablesHaveRecords` | sources_only.py:30-163 | every block of every table holds at least one record |
| `SourcesOnly.CollectedEmptyIff` | sources_only.py:175-189 | `collect_sources` returns nothing exactly when the lowercased topic contains no keyword of any table |
| `SourcesOnly.CollectedIgnoresCase` | sources_only.py:26 | `collect_sources(x.lower()) == collect_sources(x)` (lines 26, 101 and 145 all lower the topic) |
| `SourcesOnly.FiredRuleUrls` | sources_only.py:25-94 | every record of a firing block reaches the collected output by its URL |
| `SourcesOnly.FiredEntryUrls` | sources_only.py:166-170 | every record of an occurring key reaches the collected output by its URL |
| `SourcesOnly.MigrationRefugeeData` | sources_only.py:46-51 | "migration" yields the UNHCR refugee data from the institutional migration block |
| `SourcesOnly.MigrationArendtPapers` | sources_only.py:161-163 | "migration" also yields the Hannah Arendt papers from the figures table |
| `SourcesOnly.KeywordsAreTrimmed` | sources_only.py:30-163 | no keyword starts or ends with whitespace |
| `SourcesOnly.MatchRulesSameFiring` | sources_only.py:25-94 | the rule chain's output depends only on which rules fire |
| `SourcesOnly.MatchEntriesSameKeys` | sources_only.py:133-137 | a mapping's output depends only on which keys occur |
| `SourcesOnly.FiresIgnoresStrip` | sources_only.py:30 | whitespace around the topic does not change whether a block fires |
| `SourcesOnly.MatchRulesIgnoreStrip` | sources_only.py:25-94 | whitespace around the topic does not change `institutional_sources` |
| `SourcesOnly.MatchEntriesIgnoreStrip` | sources_only.py:133-137 | whitespace around the topic does not change a mapping's output |
| `SourcesOnly.CollectedIgnoresSurroundingSpace` | sources_only.py:175-189 | `collect_sources(x.strip()) == collect_sources(x)` |
| `SourcesOnly.RomeMentionsNoKeyword` | sources_only.py:212 | "rome" contains no keyword of any table |
| `SourcesOnly.RomeFindsNothing` | sources_only.py:212 | `collect_sources("rome")` is empty, although the command-line hint suggests it |
| `App.Index` | app.py:19-34 | GET renders the empty topic. POST renders the stripped form topic. The question warning appears exactly for a POST whose topic is a question. Non-empty results come with no warning, are `collect_sources(topic)` and have distinct URLs |
| `App.FormTopic` | app.py:25 | `request.form.get("topic", "")`: the submitted field, or the empty string when there is none |
| `App.WordAt` | app.py:16 | `^w\b` matches: `t` starts with `w`, and `t` ends there or the next character is not a word character |
| `App.StartsWithQuestionWord` | app.py:16 | the pattern `^(...)\b` over the six question words matches: some question word opens `t` as a whole word |
| `App.IsQuestion` | app.py:10-16 | a question has at least three characters after stripping, the length of the shortest question word |
| `App.BlankIsNotQuestion` | app.py:15-16 | the empty or whitespace-only input is not a question |
| `App.IsQuestionIgnoresCase` | app.py:15 | `is_question(x.lower()) == is_question(x)` |
| `App.IsQuestionIgnoresSurroundingSpace` | app.py:15 | whitespace around the input does not change `is_question` |
| `App.IsQuestionIff` | app.py:15-16 | `is_question(s)` iff `strip(lower(s))` starts with a question word followed by end of input or a non-word character |
| `App.IsQuestionOfTrimmed` | app.py:15-16 | for input without surrounding whitespace only the lowering matters |
| `App.QuestionWordAt` | app.py:16 | a question word followed by a non-word character matches the question pattern |
| `App.QuestionWordOpens` | app.py:15-16 | a lowercase topic that opens with a question word and a non-word character, and does not end in whitespace, is a question |
| `App.QuestionWordInAnyCase` | app.py:15-16 | a topic that opens with a question word typed in any case, followed by a non-word character or by the end of the topic, is a question, whatever whitespace follows it |
| `App.WhoeverIsNotQuestion` | app.py:16 | "whoever" is not a question: `\b` needs a boundary after the word |
| `App.BareQuestionWordIsQuestion` | app.py:16 | "who" alone is a question |
| `App.CapitalisedQuestionIsQuestion` | app.py:15-16 | "Who is Karl Marx" is a question |
| `App.TopicIsNotQuestion` | app.py:16 | "karl marx" is not a question |
| `App.IndexIdle` | app.py:20-25 | a GET, a POST without a topic field and a POST with a blank topic render an empty topic, no results and no warning |
| `App.IndexRejectsQuestion` | app.py:27-28 | a question gets the question warning and no results |
| `App.IndexRejectsTypedQuestion` | app.py:25-28 | a question typed without surrounding whitespace is echoed back with the question warning and no results |
| `App.IndexRunsPipeline` | app.py:29-32 | a non-blank non-question topic gets `collect_sources(topic)`. The no-sources warning appears exactly when that is empty, which is exactly when no keyword occurs |
| `App.WhatIsRacismFindsSources` | sources_only.py:30-35 | `collect_sources("what is racism")` starts with the race records |
| `App.WhatIsRacismIsQuestion` | app.py:16 | "what is racism" is a question |
| `App.WhatIsRacismIsRejected` | app.py:27-28 | the page for "what is racism" is the question warning with no results |
| `App.KeywordQuestionIsRejected` | app.py:27-28 | "what is racism" has race sources, yet the page shows only the question warning and no results |

## Left out

- The command-line loop (sources_only.py:194-217) is left out because it is interactive `input`/`print` I/O with exit words.
- The Flask plumbing is left out because it has no decision logic:
  - the app object and route decorator;
  - `render_template`;
  - `app.run`;
  - the `PORT` environment read.
  `request.form` becomes the `form` map of a `Post` request, and the rendered template becomes the `Page` value.
- The imports `requests`, `quote` and the `warnings` filter (sources_only.py:1-7) are left out because they have no behaviour.
- Full Unicode case mapping and the Unicode `\s`/`\w` classes are left out. Only ASCII is modelled: other characters are unchanged by `lower()`, are not whitespace and are not word characters.
- No regex engine is modelled. The two patterns are written as direct predicates: `PhraseAt` for the `normalize_topic` pattern and `WordAt` for the `is_question` pattern.
- `normalize_topic` is not called anywhere in the code. `NormalizeTopic` is modelled on its own and is not part of `collect_sources` or `index`.

## Notes

- The command-line hint at sources_only.py:212 suggests "rome" as a topic, but no table has a keyword that occurs in it. `RomeMentionsNoKeyword` and `RomeFindsNothing` state that `collect_sources("rome")` returns nothing, as the code is written.
