// The request logic of app.py: the question detector and the three-way
// decision of the index page, as pure functions of the submitted form.
module App {
  import opened Text
  import opened SourceRecords
  import opened SourcesOnly

  const QUESTION_WORDS: seq<string> := ["who", "what", "how", "why", "when", "where"]

  /** The regex `^w\b` matches t: t starts with w, and the character after
      it, if any, is not a word character. */
  predicate WordAt(t: string, w: string) {
    w <= t && (|t| == |w| || !IsWordChar(t[|w|]))
  }

  /** The regex `^(who|what|how|why|when|where)\b` matches t. */
  predicate StartsWithQuestionWord(t: string) {
    exists w :: w in QUESTION_WORDS && WordAt(t, w)
  }

  /** is_question: after strip() and lower(), the topic starts with one of
      the question words as a whole word. */
  predicate IsQuestion(topic: string)
    ensures IsQuestion(topic) ==> |Strip(topic)| >= 3
  {
    QuestionNeedsThreeChars(Lower(Strip(topic)));
    StartsWithQuestionWord(Lower(Strip(topic)))
  }

  /** Every question word has at least three letters. */
  lemma {:induction false} QuestionNeedsThreeChars(t: string)
    ensures StartsWithQuestionWord(t) ==> |t| >= 3
  {
    if StartsWithQuestionWord(t) {
      var w :| w in QUESTION_WORDS && WordAt(t, w);
      assert |w| >= 3;
    }
  }

  /** The request as the page handler sees it: a GET, or a POST with its
      form fields. */
  datatype Request = Get | Post(form: map<string, string>)

  /** What the handler renders: the stripped topic, the results and the
      warning line. */
  datatype Page = Page(topic: string, results: seq<Source>, warning: string)

  const QUESTION_WARNING: string := "\U{26A0}\U{FE0F} Please enter a research topic, not a direct question."
  const NO_SOURCES_WARNING: string := "No sources found. Try a different research topic."

  /** `request.form.get("topic", "")`: the submitted field, or the empty
      string when the form has none. */
  function FormTopic(form: map<string, string>): (topic: string)
    ensures "topic" in form ==> topic == form["topic"]
    ensures "topic" !in form ==> topic == ""
  {
    if "topic" in form then form["topic"] else ""
  }

  /** index: a question gets a warning and no results; another non-blank
      topic gets collect_sources' results, with a warning when they are
      empty; anything else renders an idle page. */
  function Index(request: Request): (page: Page)
    ensures page.topic == if request.Post? then Strip(FormTopic(request.form)) else ""
    ensures NoDupUrls(page.results)
    ensures page.results != [] ==> page.warning == "" && page.results == Collected(page.topic)
    ensures page.warning == QUESTION_WARNING <==> request.Post? && IsQuestion(page.topic)
  {
    match request
    case Get => Page("", [], "")
    case Post(form) =>
      var topic := Strip(FormTopic(form));
      if IsQuestion(topic) then Page(topic, [], QUESTION_WARNING)
      else if topic != [] then
        var results := Collected(topic);
        Page(topic, results, if results == [] then NO_SOURCES_WARNING else "")
      else Page(topic, [], "")
  }

  // ---------------------------------------------------------------------
  // The question detector
  // ---------------------------------------------------------------------

  /** Blank input is never a question. */
  lemma {:induction false} BlankIsNotQuestion(topic: string)
    requires AllSpace(topic)
    ensures !IsQuestion(topic)
  {
    assert Lower(Strip(topic)) == [];
  }

  /** Upper and lower case do not matter. */
  lemma {:induction false} IsQuestionIgnoresCase(topic: string)
    ensures IsQuestion(Lower(topic)) <==> IsQuestion(topic)
  {
    StripLower(topic);
    LowerIdempotent(Strip(topic));
    assert Lower(Strip(Lower(topic))) == Lower(Strip(topic));
  }

  /** Whitespace around the topic does not matter. */
  lemma {:induction false} IsQuestionIgnoresSurroundingSpace(w1: string, topic: string, w2: string)
    requires AllSpace(w1) && AllSpace(w2)
    ensures IsQuestion(w1 + topic + w2) <==> IsQuestion(topic)
  {
    StripIgnoresSurroundingSpace(w1, topic, w2);
  }

  /** Lowering first and stripping second gives the same answer. */
  lemma {:induction false} IsQuestionIff(topic: string)
    ensures IsQuestion(topic) <==>
      StartsWithQuestionWord(Strip(Lower(topic)))
  {
    StripLower(topic);
  }

  /** For a topic with no surrounding whitespace only the lowering is
      left. */
  lemma {:induction false} IsQuestionOfTrimmed(t: string)
    requires Trimmed(t)
    ensures IsQuestion(t) <==> StartsWithQuestionWord(Lower(t))
  {
    StripUnchanged(t);
  }

  /** For a lower-case topic with no surrounding whitespace the regex is
      matched against the topic itself. */
  lemma {:induction false} IsQuestionOfLowerCase(t: string)
    requires Trimmed(t) && IsLowerCase(t)
    ensures IsQuestion(t) <==> StartsWithQuestionWord(t)
  {
    IsQuestionOfTrimmed(t);
    LowerOfLowerCase(t);
  }

  lemma {:induction false} QuestionWordAt(t: string, w: string)
    requires w in QUESTION_WORDS && |w| < |t| && t[..|w|] == w && !IsWordChar(t[|w|])
    ensures StartsWithQuestionWord(t)
  {
    assert WordAt(t, w);
  }

  /** A question word needs a word boundary after it. */
  lemma WhoeverIsNotQuestion()
    ensures !IsQuestion("whoever")
  {
    var t := "whoever";
    assert !StartsWithQuestionWord(t) by {
      forall w | w in QUESTION_WORDS ensures !WordAt(t, w) {
        if w == "who" {
          assert t[3] == 'e';
        }
      }
    }
    IsQuestionOfLowerCase(t);
  }

  lemma BareQuestionWordIsQuestion()
    ensures IsQuestion("who")
  {
    var t := "who";
    IsQuestionOfLowerCase(t);
    assert "who" in QUESTION_WORDS && WordAt(t, "who");
  }

  /** A question word typed in any case, followed by a non-word character or
      by the end of the topic, opens a question, whatever whitespace
      follows. */
  lemma {:induction false} QuestionWordInAnyCase(t: string, w: string)
    requires w in QUESTION_WORDS && |w| <= |t|
    requires forall i :: 0 <= i < |w| ==> LowerChar(t[i]) == w[i]
    requires |w| == |t| || !IsWordChar(t[|w|])
    ensures IsQuestion(t)
  {
    var u := Lower(t);
    assert u[..|w|] == w by {
      forall i | 0 <= i < |w| ensures u[i] == w[i] {
        assert u[i] == LowerChar(t[i]);
      }
    }
    assert !IsSpace(u[0]) && !IsSpace(u[|w| - 1]) by {
      assert IsWordChar(w[0]) && IsWordChar(w[|w| - 1]);
    }
    StripKeepsPrefix(u, |w|);
    var r := Strip(u);
    assert WordAt(r, w) by {
      assert r[..|w|] == u[..|w|];
      if |w| < |r| {
        assert r[|w|] == u[|w|] == LowerChar(t[|w|]);
      }
    }
    IsQuestionIff(t);
  }

  lemma CapitalisedQuestionIsQuestion()
    ensures IsQuestion("Who is Karl Marx")
  {
    var t := "Who is Karl Marx";
    assert LowerChar(t[0]) == 'w';
    QuestionWordInAnyCase(t, "who");
  }

  lemma TopicIsNotQuestion()
    ensures !IsQuestion("karl marx")
  {
    var t := "karl marx";
    assert !StartsWithQuestionWord(t) by {
      forall w | w in QUESTION_WORDS ensures !WordAt(t, w) {
        assert w[0] != t[0];
      }
    }
    IsQuestionOfLowerCase(t);
  }

  // ---------------------------------------------------------------------
  // The page handler
  // ---------------------------------------------------------------------

  /** A GET, a POST without a topic field and a POST with a blank topic all
      render the idle page. */
  lemma {:induction false} IndexIdle(request: Request)
    requires request.Post? ==> AllSpace(FormTopic(request.form))
    ensures Index(request) == Page("", [], "")
  {
    if request.Post? {
      BlankIsNotQuestion(Strip(FormTopic(request.form)));
    }
  }

  /** A question gets the question warning and no results, whatever keywords
      it contains. */
  lemma {:induction false} IndexRejectsQuestion(form: map<string, string>)
    requires IsQuestion(Strip(FormTopic(form)))
    ensures Index(Post(form)) == Page(Strip(FormTopic(form)), [], QUESTION_WARNING)
  {
  }

  /** A non-blank topic that is not a question gets collect_sources'
      results for the raw topic, and the no-sources warning exactly when they
      are empty, which is exactly when no keyword occurs in it. */
  lemma {:induction false} IndexRunsPipeline(form: map<string, string>)
    requires !AllSpace(FormTopic(form)) && !IsQuestion(Strip(FormTopic(form)))
    ensures Index(Post(form)).results == Collected(FormTopic(form))
    ensures Index(Post(form)).warning == NO_SOURCES_WARNING <==> Index(Post(form)).results == []
    ensures Index(Post(form)).warning == "" <==> Index(Post(form)).results != []
    ensures Index(Post(form)).results == [] <==> !MentionsKeyword(Lower(FormTopic(form)))
  {
    CollectedIgnoresSurroundingSpace(FormTopic(form));
    CollectedEmptyIff(FormTopic(form));
  }

  lemma WhatIsRacismFindsSources()
    ensures RACE_RECORDS <= Collected("what is racism")
  {
    var t := "what is racism";
    LowerOfLowerCase(t);
    assert "racism" <= t[8..];
    assert "racism" in RACE_KEYWORDS && Contains(Lower(t), "racism");
    RaceRecordsComeFirst(t);
  }

  /** A lowercase topic that opens with a question word and a non-word
      character, and does not end in whitespace, is a question. */
  lemma {:induction false} QuestionWordOpens(t: string, w: string)
    requires w in QUESTION_WORDS && IsLowerCase(t)
    requires |w| < |t| && t[..|w|] == w && !IsWordChar(t[|w|]) && !IsSpace(t[|t| - 1])
    ensures IsQuestion(t)
  {
    assert t[0] == w[0];
    IsQuestionOfTrimmed(t);
    LowerOfLowerCase(t);
    QuestionWordAt(t, w);
  }

  lemma WhatIsRacismIsQuestion()
    ensures IsQuestion("what is racism")
  {
    var t := "what is racism";
    assert t[..4] == "what";
    QuestionWordOpens(t, "what");
  }

  /** A question typed without surrounding whitespace is echoed back with
      the question warning. */
  lemma {:induction false} IndexRejectsTypedQuestion(t: string)
    requires Trimmed(t) && IsQuestion(t)
    ensures Index(Post(map["topic" := t])) == Page(t, [], QUESTION_WARNING)
  {
    var form := map["topic" := t];
    assert FormTopic(form) == t;
    StripUnchanged(t);
    IndexRejectsQuestion(form);
  }

  lemma WhatIsRacismIsRejected()
    ensures Index(Post(map["topic" := "what is racism"])) == Page("what is racism", [], QUESTION_WARNING)
  {
    WhatIsRacismIsQuestion();
    IndexRejectsTypedQuestion("what is racism");
  }

  /** "what is racism" names a keyword, yet it is a question: the page shows
      the question warning and none of the sources collect_sources would
      give. */
  lemma KeywordQuestionIsRejected()
    ensures RACE_RECORDS <= Collected("what is racism")
    ensures Index(Post(map["topic" := "what is racism"])) == Page("what is racism", [], QUESTION_WARNING)
  {
    WhatIsRacismFindsSources();
    WhatIsRacismIsRejected();
  }
}
