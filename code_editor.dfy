/** The interview code editor's state (src/components/CodeEditor.tsx): the
    selected question, the language and the code in the editor. The
    question and language lists are constants of the application that are
    not part of this model, so they are constructor parameters. */
module CodeEditor {
  import opened Prelude

  datatype Lang = JavaScript | Python | Java

  /** A question's starter code, one string per language. */
  datatype StarterCode = StarterCode(javascript: string, python: string, java: string) {
    /** `starterCode[language]` */
    function For(l: Lang): string {
      match l
      case JavaScript => javascript
      case Python => python
      case Java => java
    }
  }

  datatype Question = Question(id: string, title: string, starterCode: StarterCode)

  datatype Language = Language(id: Lang, name: string)

  /** The three state variables of the component. */
  datatype State = State(question: Question, language: Lang, code: string)

  /** The first list entry with this id (`CODING_QUESTIONS.find`). */
  function FindQuestion(questions: seq<Question>, id: string): (r: Option<Question>)
    ensures r.None? <==> forall i :: 0 <= i < |questions| ==> questions[i].id != id
    ensures r.Some? ==> exists k :: 0 <= k < |questions| && questions[k] == r.value && r.value.id == id
                                    && forall j :: 0 <= j < k ==> questions[j].id != id
  {
    FirstWhere(questions, (q: Question) => q.id == id)
  }

  /** `LANGUAGES.find` */
  function FindLanguage(languages: seq<Language>, id: Lang): (r: Option<Language>)
    ensures r.None? <==> forall i :: 0 <= i < |languages| ==> languages[i].id != id
    ensures r.Some? ==> exists k :: 0 <= k < |languages| && languages[k] == r.value && r.value.id == id
                                    && forall j :: 0 <= j < k ==> languages[j].id != id
  {
    FirstWhere(languages, (l: Language) => l.id == id)
  }

  /** The first question, the first language and its starter code. */
  function Initial(questions: seq<Question>, languages: seq<Language>): State
    requires |questions| > 0 && |languages| > 0
  {
    State(questions[0], languages[0].id, questions[0].starterCode.For(languages[0].id))
  }

  /** handleQuestionChange as a state transition. */
  function QuestionChanged(questions: seq<Question>, s: State, id: string): State {
    match FindQuestion(questions, id)
    case None => s
    case Some(q) => s.(question := q, code := q.starterCode.For(s.language))
  }

  /** handleLanguageChange as a state transition. */
  function LanguageChanged(languages: seq<Language>, s: State, id: Lang): State {
    match FindLanguage(languages, id)
    case None => s
    case Some(l) => s.(language := l.id, code := s.question.starterCode.For(l.id))
  }

  /** The editor's onChange: `setCode(value || '')`. */
  function Edited(s: State, value: Option<string>): State {
    s.(code := value.GetOr(""))
  }

  class Editor {
    const questions: seq<Question>
    const languages: seq<Language>
    var selectedQuestion: Question
    var language: Lang
    var code: string

    function Current(): State
      reads this
    {
      State(selectedQuestion, language, code)
    }

    /** The component reads `CODING_QUESTIONS[0]` and `LANGUAGES[0]`, so
        both lists must be non-empty. */
    constructor (questions: seq<Question>, languages: seq<Language>)
      requires |questions| > 0 && |languages| > 0
      ensures this.questions == questions && this.languages == languages
      ensures Current() == Initial(questions, languages)
    {
      this.questions := questions;
      this.languages := languages;
      selectedQuestion := questions[0];
      language := languages[0].id;
      code := questions[0].starterCode.For(languages[0].id);
    }

    method HandleQuestionChange(questionId: string)
      modifies this
      ensures Current() == QuestionChanged(questions, old(Current()), questionId)
    {
      var question := FindQuestion(questions, questionId);
      if question.None? {
        return;
      }
      selectedQuestion := question.value;
      code := question.value.starterCode.For(language);
    }

    method HandleLanguageChange(languageId: Lang)
      modifies this
      ensures Current() == LanguageChanged(languages, old(Current()), languageId)
    {
      var found := FindLanguage(languages, languageId);
      if found.None? {
        return;
      }
      language := found.value.id;
      code := selectedQuestion.starterCode.For(found.value.id);
    }

    method OnEditorChange(value: Option<string>)
      modifies this
      ensures Current() == Edited(old(Current()), value)
    {
      if value.Some? {
        code := value.value;
      } else {
        code := "";
      }
    }
  }

  /** The initial code is the first question's starter code in the first
      language. */
  lemma InitialCodeIsStarter(questions: seq<Question>, languages: seq<Language>)
    requires |questions| > 0 && |languages| > 0
    ensures var s := Initial(questions, languages);
            s.question == questions[0] && s.language == languages[0].id
            && s.code == questions[0].starterCode.For(languages[0].id)
  {
  }

  /** An id no question has changes nothing. */
  lemma UnknownQuestionKeepsState(questions: seq<Question>, s: State, id: string)
    requires forall i :: 0 <= i < |questions| ==> questions[i].id != id
    ensures QuestionChanged(questions, s, id) == s
  {
  }

  /** A known id selects the first question with it and loads its starter
      code in the current language, which stays. */
  lemma KnownQuestionSelectsFirst(questions: seq<Question>, s: State, k: nat)
    requires k < |questions| && forall j :: 0 <= j < k ==> questions[j].id != questions[k].id
    ensures var t := QuestionChanged(questions, s, questions[k].id);
            t.question == questions[k] && t.language == s.language
            && t.code == questions[k].starterCode.For(s.language)
  {
    var r := FindQuestion(questions, questions[k].id);
    var m :| 0 <= m < |questions| && questions[m] == r.value && r.value.id == questions[k].id
             && forall j :: 0 <= j < m ==> questions[j].id != questions[k].id;
    assert m == k;
  }

  /** A language missing from the list changes nothing. */
  lemma UnknownLanguageKeepsState(languages: seq<Language>, s: State, id: Lang)
    requires forall i :: 0 <= i < |languages| ==> languages[i].id != id
    ensures LanguageChanged(languages, s, id) == s
  {
  }

  /** A listed language becomes current and the code becomes the current
      question's starter code for it; the question stays. */
  lemma KnownLanguageLoadsStarter(languages: seq<Language>, s: State, id: Lang)
    requires exists i :: 0 <= i < |languages| && languages[i].id == id
    ensures var t := LanguageChanged(languages, s, id);
            t.language == id && t.question == s.question && t.code == s.question.starterCode.For(id)
  {
  }

  /** Switching question or language discards edits: after a successful
      switch the code does not depend on what was typed before. */
  lemma {:induction false} SwitchDiscardsEdits(questions: seq<Question>, languages: seq<Language>, s: State,
                                               typed: Option<string>, qid: string, lid: Lang)
    ensures FindQuestion(questions, qid).Some? ==>
              QuestionChanged(questions, Edited(s, typed), qid) == QuestionChanged(questions, s, qid)
    ensures FindLanguage(languages, lid).Some? ==>
              LanguageChanged(languages, Edited(s, typed), lid) == LanguageChanged(languages, s, lid)
  {
  }

  /** An editor change keeps the question and the language, and an
      undefined value empties the editor. */
  lemma EditKeepsSelection(s: State, value: Option<string>)
    ensures var t := Edited(s, value);
            t.question == s.question && t.language == s.language
            && (value.None? ==> t.code == "") && (value.Some? ==> t.code == value.value)
  {
  }
}
