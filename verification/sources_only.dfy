// The keyword lookup of sources_only.py: the topic normalizer, the three
// category matchers over their fixed tables, and collect_sources, which
// concatenates the matchers' output and keeps the first record per URL.
module SourcesOnly {
  import opened Text
  import opened SourceRecords

  /** One block of institutional_sources: when any keyword occurs in the
      lowercased topic, all of the records are appended. */
  datatype Rule = Rule(keywords: seq<string>, records: seq<Source>)

  /** One item of the keyword mappings of academic_sources and
      historical_figures: when the key occurs in the lowercased topic, its
      records are appended. */
  datatype Entry = Entry(key: string, records: seq<Source>)

  // ---------------------------------------------------------------------
  // Institutional sources, in declaration order
  // ---------------------------------------------------------------------

  const RACE_KEYWORDS: seq<string> :=
    ["racism", "race", "racial", "segregation", "apartheid", "discrimination"]
  const RACE_RECORDS: seq<Source> := [
    Source("UN CERD Committee Reports", "https://www.ohchr.org/en/treaty-bodies/cerd"),
    Source("US DOJ Civil Rights Cases", "https://www.justice.gov/crt/case-summaries"),
    Source("APA Race Guidelines PDF", "https://www.apa.org/about/policy/guidelines-race-ethnicity.pdf")
  ]

  const INEQUALITY_KEYWORDS: seq<string> := ["inequality", "poverty", "economy", "class"]
  const INEQUALITY_RECORDS: seq<Source> := [
    Source("World Bank Gini Data", "https://data.worldbank.org/indicator/SI.POV.GINI"),
    Source("OECD Inequality Stats", "https://stats.oecd.org/Index.aspx?DataSetCode=IDD"),
    Source("UNDP Inequality HDI", "https://hdr.undp.org/data-center/inequality-adjusted-human-development-index")
  ]

  const MIGRATION_KEYWORDS: seq<string> :=
    ["migration", "migrate", "immigration", "emigration", "refugee", "asylum", "border", "displacement"]
  const MIGRATION_RECORDS: seq<Source> := [
    Source("UNHCR Refugee Data", "https://www.unhcr.org/refugee-statistics/"),
    Source("IOM Migration Report 2024", "https://worldmigrationreport.iom.int/"),
    Source("UN Migrant Stock Data", "https://www.un.org/development/desa/pd/content/international-migrant-stock")
  ]

  const POLITICS_KEYWORDS: seq<string> := ["government", "policy", "politics", "democracy"]
  const POLITICS_RECORDS: seq<Source> := [
    Source("Freedom House 2025 Report", "https://freedomhouse.org/report/freedom-world"),
    Source("World Bank Governance Data", "https://www.worldbank.org/en/publication/worldwide-governance-indicators"),
    Source("V-Dem Democracy Dataset", "https://v-dem.net/")
  ]

  const CLIMATE_KEYWORDS: seq<string> :=
    ["climate", "climate change", "climate crisis", "global warming", "environment", "carbon", "pollution"]
  const CLIMATE_RECORDS: seq<Source> := [
    Source("IPCC AR6 Climate Report", "https://www.ipcc.ch/report/ar6/syr/"),
    Source("World Bank Climate Data", "https://climateknowledgeportal.worldbank.org/"),
    Source("UNEP Emissions Gap Report", "https://www.unep.org/emissions-gap-report-2024")
  ]

  const POLLUTION_KEYWORDS: seq<string> :=
    ["pollution", "air pollution", "water pollution", "soil pollution", "pm2.5"]
  const POLLUTION_RECORDS: seq<Source> := [
    Source("World Bank PM2.5 Pollution Data", "https://data.worldbank.org/indicator/EN.ATM.PM25.MC.M3"),
    Source("WHO Air Quality Database", "https://www.who.int/data/gho/data/themes/air-pollution"),
    Source("World Bank Pollution Management", "https://ieg.worldbankgroup.org/evaluations/pollution")
  ]

  const POPULATION_KEYWORDS: seq<string> :=
    ["population", "mortality", "fertility", "birth", "death", "aging"]
  const POPULATION_RECORDS: seq<Source> := [
    Source("UN Population Prospects CSV", "https://population.un.org/wpp/Download/Standard/CSV_WPP/"),
    Source("World Bank Birth Rates", "https://data.worldbank.org/indicator/SP.DYN.CBRT.IN"),
    Source("World Bank Death Rates", "https://data.worldbank.org/indicator/SP.DYN.CDRT.IN")
  ]

  const WAR_KEYWORDS: seq<string> := ["war", "genocide", "holocaust"]
  const WAR_RECORDS: seq<Source> := [
    Source("USHMM Document Archive", "https://www.ushmm.org/online/hsv/source_view.php"),
    Source("Uppsala Conflict Database", "https://ucdp.uu.se/downloads/index.html"),
    Source("UN Genocide Documents", "https://www.un.org/en/genocideprevention/documents")
  ]

  const INSTITUTIONAL_RULES: seq<Rule> := [
    Rule(RACE_KEYWORDS, RACE_RECORDS),
    Rule(INEQUALITY_KEYWORDS, INEQUALITY_RECORDS),
    Rule(MIGRATION_KEYWORDS, MIGRATION_RECORDS),
    Rule(POLITICS_KEYWORDS, POLITICS_RECORDS),
    Rule(CLIMATE_KEYWORDS, CLIMATE_RECORDS),
    Rule(POLLUTION_KEYWORDS, POLLUTION_RECORDS),
    Rule(POPULATION_KEYWORDS, POPULATION_RECORDS),
    Rule(WAR_KEYWORDS, WAR_RECORDS)
  ]

  // ---------------------------------------------------------------------
  // Academic sources and historical figures, in insertion order
  // ---------------------------------------------------------------------

  const ACADEMIC_MAPPING: seq<Entry> := [
    Entry("ancient", [
      Source("Perseus Digital Library", "http://www.perseus.tufts.edu/hopper/"),
      Source("Fordham Ancient Texts", "https://sourcebooks.fordham.edu/ancient/asbook.asp")]),
    Entry("sumer", [
      Source("Electronic Text Corpus Sumerian", "https://etcsl.orinst.ox.ac.uk/"),
      Source("CDLI Cuneiform Digital Library", "https://cdli.ucla.edu/")]),
    Entry("1700s", [
      Source("Enlightenment Documents - Yale Avalon", "https://avalon.law.yale.edu/subject_menus/18th.asp"),
      Source("French Revolution Primary Sources", "https://revolution.chnm.org/")]),
    Entry("world war", [
      Source("US Army WWII Records", "https://www.history.army.mil/html/reference/wwII/index.html"),
      Source("Imperial War Museum WWII", "https://www.iwm.org.uk/history/second-world-war")]),
    Entry("cold war", [
      Source("Wilson Cold War Archive", "https://digitalarchive.wilsoncenter.org/"),
      Source("Cold War History Project", "https://www.wilsoncenter.org/program/cold-war-international-history-project")]),
    Entry("gulf war", [
      Source("Gulf War Documents - National Security Archive", "https://nsarchive2.gwu.edu/project/gulf-war-files"),
      Source("British National Archives Gulf War", "https://www.nationalarchives.gov.uk/education/resources/gulf-war/"),
      Source("US Army Gulf War Official History", "https://history.army.mil/html/bookshelves/collect/72-29.html")])
  ]

  const FIGURES_MAPPING: seq<Entry> := [
    Entry("racism", [
      Source("MLK Papers Project", "https://kinginstitute.stanford.edu/papers"),
      Source("Du Bois Papers Edition", "https://credo.library.harvard.edu/view/fulltext?doc=DuBois")]),
    Entry("inequality", [
      Source("Marx Collected Works", "https://www.marxists.org/archive/marx/works/"),
      Source("Weber Economy Society", "https://www.maxweberstiftung.de/en")]),
    Entry("psychology", [
      Source("Freud Complete Works", "https://www.freud.org.uk/learn-discover/freud-online/"),
      Source("Jung Collected Works", "https://press.princeton.edu/series/collected-works-of-c-g-jung")]),
    Entry("migration", [
      Source("Hannah Arendt Papers", "https://hac.bard.edu/")])
  ]

  // ---------------------------------------------------------------------
  // Matching
  // ---------------------------------------------------------------------

  /** `any(w in t for w in rule.keywords)`. */
  predicate Fires(t: string, rule: Rule) {
    exists w :: w in rule.keywords && Contains(t, w)
  }

  /** The records a chain of rule blocks appends, in declaration order: the
      whole block of every rule that fires. */
  function MatchRules(t: string, rules: seq<Rule>): (r: seq<Source>)
    decreases |rules|
  {
    if rules == [] then []
    else
      var last := rules[|rules| - 1];
      MatchRules(t, rules[..|rules| - 1]) + (if Fires(t, last) then last.records else [])
  }

  /** The records a keyword mapping appends, in insertion order: the records
      of every key that occurs in t. */
  function MatchEntries(t: string, mapping: seq<Entry>): (r: seq<Source>)
    decreases |mapping|
  {
    if mapping == [] then []
    else
      var last := mapping[|mapping| - 1];
      MatchEntries(t, mapping[..|mapping| - 1]) + (if Contains(t, last.key) then last.records else [])
  }

  /** institutional_sources: the rule blocks matched against topic.lower().
      A record is in the result exactly when it belongs to a block one of
      whose keywords occurs in the lowercased topic. */
  function InstitutionalSources(topic: string): (r: seq<Source>)
    ensures forall x :: x in r <==>
      exists k :: 0 <= k < |INSTITUTIONAL_RULES| && Fires(Lower(topic), INSTITUTIONAL_RULES[k])
        && x in INSTITUTIONAL_RULES[k].records
  {
    MatchRulesMember(Lower(topic), INSTITUTIONAL_RULES);
    MatchRules(Lower(topic), INSTITUTIONAL_RULES)
  }

  /** The loop `for key, items in mapping.items(): if key in t: sources.extend(items)`
      shared by academic_sources and historical_figures. */
  method ScanMapping(t: string, mapping: seq<Entry>) returns (sources: seq<Source>)
    ensures sources == MatchEntries(t, mapping)
    ensures forall x :: x in sources <==>
      exists k :: 0 <= k < |mapping| && Contains(t, mapping[k].key) && x in mapping[k].records
  {
    sources := [];
    for i := 0 to |mapping|
      invariant sources == MatchEntries(t, mapping[..i])
    {
      assert mapping[..i + 1][..i] == mapping[..i];
      if Contains(t, mapping[i].key) {
        sources := sources + mapping[i].records;
      }
    }
    assert mapping[..|mapping|] == mapping;
    MatchEntriesMember(t, mapping);
  }

  method AcademicSources(topic: string) returns (sources: seq<Source>)
    ensures sources == MatchEntries(Lower(topic), ACADEMIC_MAPPING)
  {
    sources := ScanMapping(Lower(topic), ACADEMIC_MAPPING);
  }

  method HistoricalFigures(topic: string) returns (figures: seq<Source>)
    ensures figures == MatchEntries(Lower(topic), FIGURES_MAPPING)
  {
    figures := ScanMapping(Lower(topic), FIGURES_MAPPING);
  }

  /** The three matchers' output concatenated, before deduplication. */
  function AllMatches(topic: string): (r: seq<Source>) {
    InstitutionalSources(topic)
      + MatchEntries(Lower(topic), ACADEMIC_MAPPING)
      + MatchEntries(Lower(topic), FIGURES_MAPPING)
  }

  /** What collect_sources returns: the matchers' records without a repeated
      URL, in their original order, covering every URL they found. */
  function Collected(topic: string): (r: seq<Source>)
    ensures NoDupUrls(r)
    ensures IsSubsequence(r, AllMatches(topic))
    ensures Urls(r) == Urls(AllMatches(topic))
  {
    DedupIsSubsequence(AllMatches(topic));
    Dedup(AllMatches(topic))
  }

  /** collect_sources: concatenate the matchers' output, then keep each
      record whose URL has not been seen yet. */
  method CollectSources(topic: string) returns (unique: seq<Source>)
    ensures unique == Collected(topic)
    ensures NoDupUrls(unique)
    ensures IsSubsequence(unique, AllMatches(topic))
    ensures Urls(unique) == Urls(AllMatches(topic)) && |unique| <= |AllMatches(topic)|
  {
    var sources := InstitutionalSources(topic);
    var academic := AcademicSources(topic);
    var figures := HistoricalFigures(topic);
    sources := sources + academic + figures;
    unique := KeepFirstPerUrl(sources);
    DedupIsSubsequence(sources);
  }

  // ---------------------------------------------------------------------
  // Topic normalizer
  // ---------------------------------------------------------------------

  const PREFIX_PHRASES: seq<string> := ["who is", "what is", "how does", "why does", "tell me about"]

  /** The pattern `^phrase\s+` matches at the start of t. */
  predicate PhraseAt(t: string, phrase: string) {
    phrase <= t && |phrase| < |t| && IsSpace(t[|phrase|])
  }

  /** re.sub of `^(p1|...|pn)\s+` by "": the alternatives are tried in order,
      and the first whose phrase is followed by whitespace is removed together
      with the whole whitespace run after it. */
  function RemoveLeadingPhrase(t: string, phrases: seq<string>): (r: string)
    ensures |r| <= |t| && r == t[|t| - |r|..]
    ensures r == t || exists p :: p in phrases && PhraseAt(t, p) && r == TrimStart(t[|p|..])
    decreases |phrases|
  {
    if phrases == [] then t
    else if PhraseAt(t, phrases[0]) then
      var rest := t[|phrases[0]|..];
      var r := TrimStart(rest);
      assert rest[|rest| - |r|..] == t[|t| - |r|..];
      r
    else RemoveLeadingPhrase(t, phrases[1..])
  }

  /** normalize_topic: lowercased, at most one leading question phrase
      removed, stripped. */
  function NormalizeTopic(topic: string): (r: string)
    ensures IsLowerCase(r)
    ensures r == [] || Trimmed(r)
    ensures |r| <= |topic|
  {
    RemovePhraseThenStrip(Lower(topic), PREFIX_PHRASES);
    Strip(RemoveLeadingPhrase(Lower(topic), PREFIX_PHRASES))
  }

  /** Removing a phrase and stripping keeps a lowercase text lowercase and
      never lengthens it. */
  lemma {:induction false} RemovePhraseThenStrip(t: string, phrases: seq<string>)
    requires IsLowerCase(t)
    ensures IsLowerCase(Strip(RemoveLeadingPhrase(t, phrases)))
    ensures |Strip(RemoveLeadingPhrase(t, phrases))| <= |t|
  {
    var rest := RemoveLeadingPhrase(t, phrases);
    var n := |t| - |rest|;
    assert t[n..|t|] == t[n..];
    SliceKeepsLowerCase(t, n, |t|);
    StripKeepsLowerCase(rest);
  }

  lemma {:induction false} SliceKeepsLowerCase(t: string, lo: nat, hi: nat)
    requires IsLowerCase(t) && lo <= hi <= |t|
    ensures IsLowerCase(t[lo..hi])
  {
    assert forall i :: 0 <= i < hi - lo ==> t[lo..hi][i] == t[lo + i];
  }

  lemma {:induction false} StripKeepsLowerCase(s: string)
    requires IsLowerCase(s)
    ensures IsLowerCase(Strip(s))
  {
    var lo, hi := StripIsSlice(s);
    SliceKeepsLowerCase(s, lo, hi);
  }

  /** No phrase is a prefix of another, so at most one can sit at the start
      of a topic. */
  predicate PrefixFree(phrases: seq<string>) {
    forall i, j :: 0 <= i < |phrases| && 0 <= j < |phrases| && i != j ==> !(phrases[i] <= phrases[j])
  }

  /** The phrases differ at index 0 or 2, so none is a prefix of another,
      and none starts with whitespace. */
  lemma PrefixPhrasesArePrefixFree()
    ensures PrefixFree(PREFIX_PHRASES)
    ensures forall p :: p in PREFIX_PHRASES ==> |p| > 2 && !IsSpace(p[0])
  {
    var ps := PREFIX_PHRASES;
    assert ps[0][0] == 'w' && ps[0][2] == 'o';
    assert ps[1][0] == 'w' && ps[1][2] == 'a';
    assert ps[2][0] == 'h' && ps[2][2] == 'w';
    assert ps[3][0] == 'w' && ps[3][2] == 'y';
    assert ps[4][0] == 't' && ps[4][2] == 'l';
    forall i, j | 0 <= i < |ps| && 0 <= j < |ps| && i != j
      ensures !(ps[i] <= ps[j])
    {
      assert ps[i][0] != ps[j][0] || ps[i][2] != ps[j][2];
    }
  }

  lemma {:induction false} RemoveLeadingPhraseNone(t: string, phrases: seq<string>)
    requires forall p :: p in phrases ==> !PhraseAt(t, p)
    ensures RemoveLeadingPhrase(t, phrases) == t
    decreases |phrases|
  {
    if phrases != [] {
      assert phrases[0] in phrases;
      RemoveLeadingPhraseNone(t, phrases[1..]);
    }
  }

  lemma {:induction false} RemoveLeadingPhraseFound(t: string, phrases: seq<string>, p: string)
    requires p in phrases && PhraseAt(t, p) && PrefixFree(phrases)
    ensures RemoveLeadingPhrase(t, phrases) == TrimStart(t[|p|..])
    decreases |phrases|
  {
    var q := phrases[0];
    var j :| 0 <= j < |phrases| && phrases[j] == p;
    if j == 0 {
    } else if PhraseAt(t, q) {
      assert false;
    } else {
      var tail := phrases[1..];
      assert tail[j - 1] == p;
      assert PrefixFree(tail) by {
        forall i, k | 0 <= i < |tail| && 0 <= k < |tail| && i != k ensures !(tail[i] <= tail[k]) {
          assert tail[i] == phrases[i + 1] && tail[k] == phrases[k + 1];
        }
      }
      RemoveLeadingPhraseFound(t, tail, p);
    }
  }

  /** Without a question phrase followed by whitespace at index 0, the topic
      is only lowercased and stripped. */
  lemma {:induction false} NormalizeWithoutPhrase(topic: string)
    requires forall p :: p in PREFIX_PHRASES ==> !PhraseAt(Lower(topic), p)
    ensures NormalizeTopic(topic) == Strip(Lower(topic))
  {
    RemoveLeadingPhraseNone(Lower(topic), PREFIX_PHRASES);
  }

  /** With a question phrase and whitespace at index 0, exactly that phrase
      is removed; the rest is stripped and nothing further is removed. */
  lemma {:induction false} NormalizeRemovesPhrase(topic: string, p: string)
    requires p in PREFIX_PHRASES && PhraseAt(Lower(topic), p)
    ensures NormalizeTopic(topic) == Strip(Lower(topic)[|p|..])
  {
    PrefixPhrasesArePrefixFree();
    RemoveLeadingPhraseFound(Lower(topic), PREFIX_PHRASES, p);
    TrimStartIdempotent(Lower(topic)[|p|..]);
  }

  /** A phrase is removed only at index 0 before stripping: a topic that
      starts with whitespace keeps any phrase that follows it. */
  lemma {:induction false} NormalizeIndentedTopic(topic: string)
    requires topic != [] && IsSpace(topic[0])
    ensures NormalizeTopic(topic) == Strip(Lower(topic))
  {
    PrefixPhrasesArePrefixFree();
    var t := Lower(topic);
    forall p | p in PREFIX_PHRASES ensures !PhraseAt(t, p) {
      assert p[0] != t[0];
    }
    NormalizeWithoutPhrase(topic);
  }

  // ---------------------------------------------------------------------
  // Properties of the matchers
  // ---------------------------------------------------------------------

  lemma {:induction false} MatchEntriesMember(t: string, mapping: seq<Entry>)
    ensures forall x :: x in MatchEntries(t, mapping) <==>
      exists k :: 0 <= k < |mapping| && Contains(t, mapping[k].key) && x in mapping[k].records
    decreases |mapping|
  {
    if mapping != [] {
      var init := mapping[..|mapping| - 1];
      MatchEntriesMember(t, init);
      forall k | 0 <= k < |init| ensures init[k] == mapping[k] { }
    }
  }

  lemma {:induction false} MatchRulesMember(t: string, rules: seq<Rule>)
    ensures forall x :: x in MatchRules(t, rules) <==>
      exists k :: 0 <= k < |rules| && Fires(t, rules[k]) && x in rules[k].records
    decreases |rules|
  {
    if rules != [] {
      var init := rules[..|rules| - 1];
      MatchRulesMember(t, init);
      forall k | 0 <= k < |init| ensures init[k] == rules[k] { }
    }
  }

  /** Rule blocks are independent: matching a concatenation of rule chains
      concatenates their output. */
  lemma {:induction false} MatchRulesAppend(t: string, a: seq<Rule>, b: seq<Rule>)
    ensures MatchRules(t, a + b) == MatchRules(t, a) + MatchRules(t, b)
    decreases |b|
  {
    if b == [] {
      assert a + b == a;
    } else {
      var init := b[..|b| - 1];
      assert (a + b)[..|a + b| - 1] == a + init;
      assert (a + b)[|a + b| - 1] == b[|b| - 1];
      MatchRulesAppend(t, a, init);
    }
  }

  /** Rules are not exclusive: a topic mentioning "pollution" gets the climate
      block and, right after it, the pollution block. */
  lemma {:induction false} PollutionFiresClimateAndPollution(topic: string)
    requires Contains(Lower(topic), "pollution")
    ensures InstitutionalSources(topic) ==
      MatchRules(Lower(topic), INSTITUTIONAL_RULES[..4])
      + CLIMATE_RECORDS + POLLUTION_RECORDS
      + MatchRules(Lower(topic), INSTITUTIONAL_RULES[6..])
  {
    var t, rules := Lower(topic), INSTITUTIONAL_RULES;
    assert Fires(t, rules[4]) by { assert "pollution" in CLIMATE_KEYWORDS; }
    assert Fires(t, rules[5]) by { assert "pollution" in POLLUTION_KEYWORDS; }
    assert rules == rules[..4] + [rules[4]] + [rules[5]] + rules[6..];
    MatchRulesAppend(t, rules[..4] + [rules[4]] + [rules[5]], rules[6..]);
    MatchRulesAppend(t, rules[..4] + [rules[4]], [rules[5]]);
    MatchRulesAppend(t, rules[..4], [rules[4]]);
    assert MatchRules(t, [rules[4]]) == CLIMATE_RECORDS by {
      assert [rules[4]][..0] == [];
    }
    assert MatchRules(t, [rules[5]]) == POLLUTION_RECORDS by {
      assert [rules[5]][..0] == [];
    }
  }

  lemma RaceRecordsUnique()
    ensures NoDupUrls(RACE_RECORDS)
  {
  }

  /** `k in t` survives any text added around t, so a block that fires for a
      topic fires for every longer topic that contains it. */
  lemma {:induction false} FiresInLongerTopic(a: string, t: string, b: string, rule: Rule)
    requires Fires(t, rule)
    ensures Fires(a + t + b, rule)
  {
    var w :| w in rule.keywords && Contains(t, w);
    ContainsInLonger(a, t, b, w);
  }

  /** When the first rule fires, its block starts the output. */
  lemma {:induction false} MatchRulesFirstFires(t: string, rules: seq<Rule>)
    requires rules != [] && Fires(t, rules[0])
    ensures MatchRules(t, rules) == rules[0].records + MatchRules(t, rules[1..])
  {
    assert rules == [rules[0]] + rules[1..];
    MatchRulesAppend(t, [rules[0]], rules[1..]);
    assert [rules[0]][..0] == [];
  }

  /** When the first rule fires and its records have distinct URLs, they
      open the deduplicated output, whatever follows. */
  lemma {:induction false} FirstBlockLeads(t: string, rules: seq<Rule>, more: seq<Source>, most: seq<Source>)
    requires rules != [] && Fires(t, rules[0]) && NoDupUrls(rules[0].records)
    ensures rules[0].records <= Dedup(MatchRules(t, rules) + more + most)
  {
    MatchRulesFirstFires(t, rules);
    var rest := MatchRules(t, rules[1..]) + more + most;
    assert MatchRules(t, rules) + more + most == rules[0].records + rest;
    DedupKeepsUniquePrefix(rules[0].records, rest);
  }

  /** A topic mentioning any race keyword gets the three race records first,
      in table order. */
  lemma {:induction false} RaceRecordsComeFirst(topic: string)
    requires exists w :: w in RACE_KEYWORDS && Contains(Lower(topic), w)
    ensures RACE_RECORDS <= Collected(topic)
  {
    var t := Lower(topic);
    assert INSTITUTIONAL_RULES[0] == Rule(RACE_KEYWORDS, RACE_RECORDS);
    assert Fires(t, INSTITUTIONAL_RULES[0]);
    RaceRecordsUnique();
    FirstBlockLeads(t, INSTITUTIONAL_RULES, MatchEntries(t, ACADEMIC_MAPPING), MatchEntries(t, FIGURES_MAPPING));
  }

  /** A rule chain whose blocks all hold records outputs nothing exactly when
      no rule fires. */
  lemma {:induction false} MatchRulesEmptyIff(t: string, rules: seq<Rule>)
    requires forall k :: 0 <= k < |rules| ==> rules[k].records != []
    ensures MatchRules(t, rules) == [] <==> forall k :: 0 <= k < |rules| ==> !Fires(t, rules[k])
  {
    var out := MatchRules(t, rules);
    MatchRulesMember(t, rules);
    if out != [] {
      assert out[0] in out;
    }
    forall k | 0 <= k < |rules| && Fires(t, rules[k]) ensures out != [] {
      assert rules[k].records[0] in rules[k].records;
      assert rules[k].records[0] in out;
    }
  }

  lemma {:induction false} MatchEntriesEmptyIff(t: string, mapping: seq<Entry>)
    requires forall k :: 0 <= k < |mapping| ==> mapping[k].records != []
    ensures MatchEntries(t, mapping) == [] <==> forall k :: 0 <= k < |mapping| ==> !Contains(t, mapping[k].key)
  {
    var out := MatchEntries(t, mapping);
    MatchEntriesMember(t, mapping);
    if out != [] {
      assert out[0] in out;
    }
    forall k | 0 <= k < |mapping| && Contains(t, mapping[k].key) ensures out != [] {
      assert mapping[k].records[0] in mapping[k].records;
      assert mapping[k].records[0] in out;
    }
  }

  /** Every block of every table holds at least one record. */
  lemma TablesHaveRecords()
    ensures forall k :: 0 <= k < |INSTITUTIONAL_RULES| ==> INSTITUTIONAL_RULES[k].records != []
    ensures forall k :: 0 <= k < |ACADEMIC_MAPPING| ==> ACADEMIC_MAPPING[k].records != []
    ensures forall k :: 0 <= k < |FIGURES_MAPPING| ==> FIGURES_MAPPING[k].records != []
  {
  }

  /** Some keyword of some table occurs in t. */
  predicate MentionsKeyword(t: string) {
    (exists k :: 0 <= k < |INSTITUTIONAL_RULES| && Fires(t, INSTITUTIONAL_RULES[k]))
    || (exists k :: 0 <= k < |ACADEMIC_MAPPING| && Contains(t, ACADEMIC_MAPPING[k].key))
    || (exists k :: 0 <= k < |FIGURES_MAPPING| && Contains(t, FIGURES_MAPPING[k].key))
  }

  /** collect_sources finds nothing exactly when the lowercased topic
      contains no keyword of any table. */
  lemma {:induction false} CollectedEmptyIff(topic: string)
    ensures Collected(topic) == [] <==> !MentionsKeyword(Lower(topic))
  {
    var t := Lower(topic);
    DedupEmpty(AllMatches(topic));
    TablesHaveRecords();
    MatchRulesEmptyIff(t, INSTITUTIONAL_RULES);
    MatchEntriesEmptyIff(t, ACADEMIC_MAPPING);
    MatchEntriesEmptyIff(t, FIGURES_MAPPING);
  }

  /** Matching depends only on topic.lower(). */
  lemma {:induction false} CollectedIgnoresCase(topic: string)
    ensures Collected(Lower(topic)) == Collected(topic)
  {
    LowerIdempotent(topic);
  }

  /** Every record of a block that fires reaches the deduplicated output
      by its URL. */
  lemma {:induction false} FiredRuleUrls(t: string, rules: seq<Rule>, k: int, more: seq<Source>, most: seq<Source>)
    requires 0 <= k < |rules| && Fires(t, rules[k])
    ensures forall x :: x in rules[k].records ==> x.url in Urls(Dedup(MatchRules(t, rules) + more + most))
  {
    MatchRulesMember(t, rules);
    var all := MatchRules(t, rules) + more + most;
    forall x | x in rules[k].records ensures x.url in Urls(all) {
      assert x in all;
    }
  }

  lemma {:induction false} FiredEntryUrls(t: string, before: seq<Source>, mapping: seq<Entry>, k: int)
    requires 0 <= k < |mapping| && Contains(t, mapping[k].key)
    ensures forall x :: x in mapping[k].records ==> x.url in Urls(Dedup(before + MatchEntries(t, mapping)))
  {
    MatchEntriesMember(t, mapping);
    var all := before + MatchEntries(t, mapping);
    forall x | x in mapping[k].records ensures x.url in Urls(all) {
      assert x in all;
    }
  }

  /** The URLs found for "migration" include the UNHCR refugee data, from
      the institutional migration block. */
  lemma MigrationRefugeeData()
    ensures "https://www.unhcr.org/refugee-statistics/" in Urls(Collected("migration"))
  {
    var t := "migration";
    LowerOfLowerCase(t);
    assert Contains(t, "migration") by { assert "migration" <= t[0..]; }
    assert Fires(t, INSTITUTIONAL_RULES[2]) by { assert "migration" in INSTITUTIONAL_RULES[2].keywords; }
    FiredRuleUrls(t, INSTITUTIONAL_RULES, 2, MatchEntries(t, ACADEMIC_MAPPING), MatchEntries(t, FIGURES_MAPPING));
    assert INSTITUTIONAL_RULES[2].records[0] in INSTITUTIONAL_RULES[2].records;
  }

  /** The URLs found for "migration" also include the Hannah Arendt papers,
      from the historical figures. */
  lemma MigrationArendtPapers()
    ensures "https://hac.bard.edu/" in Urls(Collected("migration"))
  {
    var t := "migration";
    LowerOfLowerCase(t);
    assert Contains(t, "migration") by { assert "migration" <= t[0..]; }
    FiredEntryUrls(t, InstitutionalSources(t) + MatchEntries(t, ACADEMIC_MAPPING), FIGURES_MAPPING, 3);
    assert FIGURES_MAPPING[3].records[0] in FIGURES_MAPPING[3].records;
  }

  lemma KeywordsAreTrimmed()
    ensures forall k, w :: 0 <= k < |INSTITUTIONAL_RULES| && w in INSTITUTIONAL_RULES[k].keywords ==> Trimmed(w)
    ensures forall k :: 0 <= k < |ACADEMIC_MAPPING| ==> Trimmed(ACADEMIC_MAPPING[k].key)
    ensures forall k :: 0 <= k < |FIGURES_MAPPING| ==> Trimmed(FIGURES_MAPPING[k].key)
  {
  }

  lemma {:induction false} MatchRulesSameFiring(t1: string, t2: string, rules: seq<Rule>)
    requires forall k :: 0 <= k < |rules| ==> (Fires(t1, rules[k]) <==> Fires(t2, rules[k]))
    ensures MatchRules(t1, rules) == MatchRules(t2, rules)
    decreases |rules|
  {
    if rules != [] {
      MatchRulesSameFiring(t1, t2, rules[..|rules| - 1]);
    }
  }

  lemma {:induction false} MatchEntriesSameKeys(t1: string, t2: string, mapping: seq<Entry>)
    requires forall k :: 0 <= k < |mapping| ==> (Contains(t1, mapping[k].key) <==> Contains(t2, mapping[k].key))
    ensures MatchEntries(t1, mapping) == MatchEntries(t2, mapping)
    decreases |mapping|
  {
    if mapping != [] {
      MatchEntriesSameKeys(t1, t2, mapping[..|mapping| - 1]);
    }
  }

  lemma {:induction false} FiresIgnoresStrip(t: string, rule: Rule)
    requires forall w :: w in rule.keywords ==> Trimmed(w)
    ensures Fires(Strip(t), rule) <==> Fires(t, rule)
  {
    if Fires(t, rule) {
      var w :| w in rule.keywords && Contains(t, w);
      StripKeepsContains(t, w);
    }
    if Fires(Strip(t), rule) {
      var w :| w in rule.keywords && Contains(Strip(t), w);
      StripKeepsContains(t, w);
    }
  }

  lemma {:induction false} MatchRulesIgnoreStrip(t: string, rules: seq<Rule>)
    requires forall k, w :: 0 <= k < |rules| && w in rules[k].keywords ==> Trimmed(w)
    ensures MatchRules(Strip(t), rules) == MatchRules(t, rules)
  {
    forall k | 0 <= k < |rules|
      ensures Fires(Strip(t), rules[k]) <==> Fires(t, rules[k])
    {
      FiresIgnoresStrip(t, rules[k]);
    }
    MatchRulesSameFiring(Strip(t), t, rules);
  }

  lemma {:induction false} MatchEntriesIgnoreStrip(t: string, mapping: seq<Entry>)
    requires forall k :: 0 <= k < |mapping| ==> Trimmed(mapping[k].key)
    ensures MatchEntries(Strip(t), mapping) == MatchEntries(t, mapping)
  {
    forall k | 0 <= k < |mapping|
      ensures Contains(Strip(t), mapping[k].key) <==> Contains(t, mapping[k].key)
    {
      StripKeepsContains(t, mapping[k].key);
    }
    MatchEntriesSameKeys(Strip(t), t, mapping);
  }

  /** Whitespace around the topic changes nothing: no keyword starts or ends
      with whitespace. */
  lemma {:induction false} CollectedIgnoresSurroundingSpace(topic: string)
    ensures Collected(Strip(topic)) == Collected(topic)
  {
    var t := Lower(topic);
    StripLower(topic);
    KeywordsAreTrimmed();
    MatchRulesIgnoreStrip(t, INSTITUTIONAL_RULES);
    MatchEntriesIgnoreStrip(t, ACADEMIC_MAPPING);
    MatchEntriesIgnoreStrip(t, FIGURES_MAPPING);
  }

  lemma RomeMentionsNoKeyword()
    ensures !MentionsKeyword("rome")
  {
    var t := "rome";
    forall k, w | 0 <= k < |INSTITUTIONAL_RULES| && w in INSTITUTIONAL_RULES[k].keywords
      ensures !Contains(t, w)
    {
      if |w| > |t| {
        ContainsNeedsRoom(t, w);
      } else {
        assert w == "race" || w == "war";
        forall i | 0 <= i <= |t| ensures !(w <= t[i..]) {
          if i == 0 {
            assert t[1] == 'o' && w[1] == 'a';
          } else if i == 1 {
            assert t[1] == 'o' && w[0] != 'o';
          }
        }
      }
    }
    forall k | 0 <= k < |ACADEMIC_MAPPING| ensures !Contains(t, ACADEMIC_MAPPING[k].key) {
      ContainsNeedsRoom(t, ACADEMIC_MAPPING[k].key);
    }
    forall k | 0 <= k < |FIGURES_MAPPING| ensures !Contains(t, FIGURES_MAPPING[k].key) {
      ContainsNeedsRoom(t, FIGURES_MAPPING[k].key);
    }
  }

  /** No table has a keyword for Roman history, so "rome" finds nothing. */
  lemma RomeFindsNothing()
    ensures Collected("rome") == []
  {
    LowerOfLowerCase("rome");
    RomeMentionsNoKeyword();
    CollectedEmptyIff("rome");
  }
}
