/**
 * The in-memory quiz registry (`quizzes`, main.py line 19) and the abstract
 * audio store, with the invariant every reachable state keeps.
 */
module Registry {
  import opened Outcomes
  import opened Decimal
  import opened AudioNaming

  type Bytes = seq<bv8>

  /** One question as the client submits it. */
  datatype QuestionForm = QuestionForm(questionText: string, choices: seq<string>, correctAnswer: string)

  /** A create-quiz request body. */
  datatype QuizForm = QuizForm(title: string, questions: seq<QuestionForm>)

  /** A stored question: the submitted fields plus the `audio_url` key, absent until set. */
  datatype Question = Question(form: QuestionForm, audioUrl: Option<string>)

  /** A stored quiz record. */
  datatype Quiz = Quiz(title: string, questions: seq<Question>)

  /** The process state: the registry and the audio file store, keyed by path. */
  datatype State = State(quizzes: map<string, Quiz>, files: map<string, Bytes>)

  /** A fresh process: no quizzes, whatever files earlier runs left on disk. */
  function Init(files: map<string, Bytes>): State {
    State(map[], files)
  }

  /**
   * Python list indexing `questions[index]`: the position addressed, or
   * None where Python raises IndexError.
   */
  function Slot(n: nat, index: int): (r: Option<nat>)
    ensures r.Some? <==> -(n as int) <= index < n
    ensures r.Some? ==> r.value < n && (r.value == index || r.value == index + n)
  {
    if 0 <= index < n then Some(index)
    else if -(n as int) <= index < 0 then Some(index + n)
    else None
  }

  /** The identifier `str(count + 1)` that create assigns when the registry holds `count` quizzes. */
  function NextId(count: nat): string {
    NatText(count + 1)
  }

  /** The identifiers of the first `n` quizzes: "1" through `str(n)`. */
  function IssuedIds(n: nat): set<string> {
    if n == 0 then {} else IssuedIds(n - 1) + {NatText(n)}
  }

  /** An identifier issued later than the first `n` is none of theirs. */
  lemma {:induction false} LaterIdNotIssued(n: nat, m: nat)
    requires n < m
    ensures NatText(m) !in IssuedIds(n)
  {
    if n > 0 {
      LaterIdNotIssued(n - 1, m);
      NatTextInjective(n, m);
    }
  }

  /**
   * A question's `audio_url` is unset or names its own quiz and an index
   * that addresses this very position (`p` itself, or the negative index
   * `p - n` an upload may have used).
   */
  predicate UrlFits(id: string, n: nat, p: nat, url: Option<string>) {
    url.None? || url == Some(AudioPath(id, p)) || url == Some(AudioPath(id, p - n))
  }

  predicate UrlsFit(id: string, qs: seq<Question>) {
    forall p :: 0 <= p < |qs| ==> UrlFits(id, |qs|, p, qs[p].audioUrl)
  }

  /**
   * The registry invariant: the keys are exactly "1".."n" for n quizzes, and
   * every stored audio reference points at its own question's file.
   */
  predicate Wf(s: State) {
    && s.quizzes.Keys == IssuedIds(|s.quizzes|)
    && forall id :: id in s.quizzes ==> UrlsFit(id, s.quizzes[id].questions)
  }

  lemma InitWf(files: map<string, Bytes>)
    ensures Wf(Init(files))
  {
  }

  /** Freshness: in a well-formed state the next identifier is not yet a key. */
  lemma NextIdFresh(s: State)
    requires Wf(s)
    ensures NextId(|s.quizzes|) !in s.quizzes
  {
    LaterIdNotIssued(|s.quizzes|, |s.quizzes| + 1);
  }

  /**
   * Position fidelity of a well-formed state: two different question
   * positions never share an audio file.
   */
  lemma DistinctPositionsDistinctAudio(s: State, id1: string, p1: nat, id2: string, p2: nat)
    requires Wf(s)
    requires id1 in s.quizzes && p1 < |s.quizzes[id1].questions|
    requires id2 in s.quizzes && p2 < |s.quizzes[id2].questions|
    requires s.quizzes[id1].questions[p1].audioUrl.Some?
    requires id1 != id2 || p1 != p2
    ensures s.quizzes[id1].questions[p1].audioUrl != s.quizzes[id2].questions[p2].audioUrl
  {
    var n1, n2 := |s.quizzes[id1].questions|, |s.quizzes[id2].questions|;
    assert UrlFits(id1, n1, p1, s.quizzes[id1].questions[p1].audioUrl);
    assert UrlFits(id2, n2, p2, s.quizzes[id2].questions[p2].audioUrl);
    AudioPathInjective(id1, p1, id2, p2);
    AudioPathInjective(id1, p1 - n1, id2, p2);
    AudioPathInjective(id1, p1, id2, p2 - n2);
    AudioPathInjective(id1, p1 - n1, id2, p2 - n2);
  }
}
