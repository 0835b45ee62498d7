/**
 * The request handlers of main.py as pure transitions over the registry
 * state: create_quiz, play_audio, upload_audio and read_audio_file.
 */
module Service {
  import opened Outcomes
  import opened AudioNaming
  import opened Registry
  import opened Synthesis

  /** The errors a handler raises; all but the last are 404 responses. */
  datatype Failure =
    | QuizNotFound            // "Quiz not found"
    | QuestionIndexOutOfRange // "Question index out of range"
    | AudioNotFound           // "Audio not found"
    | QuizOrQuestionNotFound  // "Quiz or question not found"
    | AudioFileNotFound       // "Audio file not found"
    | IndexError              // Python's IndexError, left unhandled (a server error)

  /** A served file: the path handed to the file response and its bytes. */
  datatype Audio = Audio(path: string, bytes: Bytes)

  /** The stored questions of a new quiz once every `audio_url` is stamped. */
  function Stamp(id: string, forms: seq<QuestionForm>): seq<Question> {
    seq(|forms|, i requires 0 <= i < |forms| => Question(forms[i], Some(AudioPath(id, i))))
  }

  /**
   * create_quiz: assign `str(len + 1)`, store the quiz, run one synthesis
   * job per question (in submission order: any completion order gives the
   * same store), then stamp every question with its audio path, whether or
   * not its job succeeded.
   */
  function Create(s: State, form: QuizForm, synth: JobOutcomes): (r: (State, string))
    requires |synth| == |form.questions|
    ensures r.1 == NextId(|s.quizzes|)
    ensures r.0.quizzes.Keys == s.quizzes.Keys + {r.1}
    ensures forall k :: k in s.quizzes && k != r.1 ==> r.0.quizzes[k] == s.quizzes[k]
    ensures r.0.quizzes[r.1].title == form.title
    ensures |r.0.quizzes[r.1].questions| == |form.questions|
    ensures forall i :: 0 <= i < |form.questions| ==>
      r.0.quizzes[r.1].questions[i] == Question(form.questions[i], Some(AudioPath(r.1, i)))
    ensures forall i :: 0 <= i < |synth| && synth[i].Some? ==>
      AudioPath(r.1, i) in r.0.files && r.0.files[AudioPath(r.1, i)] == synth[i].value
    ensures forall p :: p in r.0.files <==> p in s.files || Written(r.1, synth, AllJobs(|synth|), p)
    ensures forall p :: p in s.files && !Written(r.1, synth, AllJobs(|synth|), p) ==> r.0.files[p] == s.files[p]
  {
    var id := NextId(|s.quizzes|);
    var quiz := Quiz(form.title, Stamp(id, form.questions));
    assert |quiz.questions| == |form.questions|;
    var quizzes := s.quizzes[id := quiz];
    assert quizzes.Keys == s.quizzes.Keys + {id};
    (State(quizzes, RunAll(s.files, id, synth)), id)
  }

  /**
   * create_quiz step by step, as the handler runs it: store the quiz with no
   * audio, submit and join one job per question, then stamp each question.
   */
  method CreateQuiz(s: State, form: QuizForm, synth: JobOutcomes) returns (s': State, quizId: string)
    requires |synth| == |form.questions|
    ensures (s', quizId) == Create(s, form, synth)
  {
    quizId := NextId(|s.quizzes|);
    var questions := seq(|form.questions|, i requires 0 <= i < |form.questions| => Question(form.questions[i], None));
    var quizzes := s.quizzes[quizId := Quiz(form.title, questions)];
    var files := SubmitAndJoin(s.files, quizId, synth);
    questions := StampAudioUrls(quizId, questions);
    assert questions == Stamp(quizId, form.questions);
    s' := State(quizzes[quizId := Quiz(form.title, questions)], files);
    assert s'.quizzes == s.quizzes[quizId := Quiz(form.title, questions)];
  }

  /**
   * The stamping loop of create_quiz: question i's `audio_url` becomes its
   * path, and nothing else about any question changes.
   */
  method StampAudioUrls(id: string, questions: seq<Question>) returns (qs: seq<Question>)
    ensures |qs| == |questions|
    ensures forall k :: 0 <= k < |qs| ==>
      qs[k].form == questions[k].form && qs[k].audioUrl == Some(AudioPath(id, k))
  {
    qs := questions;
    var j := 0;
    while j < |qs|
      invariant 0 <= j <= |qs| == |questions|
      invariant forall k :: 0 <= k < j ==> qs[k] == questions[k].(audioUrl := Some(AudioPath(id, k)))
      invariant forall k :: j <= k < |qs| ==> qs[k] == questions[k]
    {
      qs := qs[j := qs[j].(audioUrl := Some(AudioPath(id, j)))];
      j := j + 1;
    }
  }

  /** The position (quiz id, list position) that `questions[index]` of quiz `id` names, if both exist. */
  function Target(s: State, id: string, index: int): Option<(string, nat)> {
    if id !in s.quizzes then None
    else match Slot(|s.quizzes[id].questions|, index)
      case None => None
      case Some(p) => Some((id, p))
  }

  /** The question at `Target(s, id, index)`. */
  function Addressed(s: State, id: string, index: int): Option<Question> {
    match Target(s, id, index)
    case None => None
    case Some((k, p)) => Some(s.quizzes[k].questions[p])
  }

  /** `audio_url` is set, non-empty, and names an existing file. */
  predicate Servable(files: map<string, Bytes>, url: Option<string>) {
    url.Some? && url.value != "" && url.value in files
  }

  /**
   * play_audio: look the quiz up, bound the index from above only, then
   * serve the question's stored `audio_url` if that file exists.
   */
  function PlayAudio(s: State, id: string, index: int): (r: Result<Audio, Failure>)
    ensures r == Err(QuizNotFound) <==> id !in s.quizzes
    ensures r == Err(QuestionIndexOutOfRange) <==> id in s.quizzes && index >= |s.quizzes[id].questions|
    ensures r == Err(IndexError) <==> id in s.quizzes && index < -|s.quizzes[id].questions|
    ensures r == Err(AudioNotFound) <==> Addressed(s, id, index).Some? && !Servable(s.files, Addressed(s, id, index).value.audioUrl)
    ensures r.Ok? <==> Addressed(s, id, index).Some? && Servable(s.files, Addressed(s, id, index).value.audioUrl)
    ensures r.Ok? ==> Some(r.value.path) == Addressed(s, id, index).value.audioUrl
    ensures r.Ok? ==> r.value.path in s.files && r.value.bytes == s.files[r.value.path]
  {
    if id !in s.quizzes then Err(QuizNotFound)
    else
      var qs := s.quizzes[id].questions;
      if index >= |qs| then Err(QuestionIndexOutOfRange)
      else if index < -|qs| then Err(IndexError)
      else
        var url := qs[Slot(|qs|, index).value].audioUrl;
        if !Servable(s.files, url) then Err(AudioNotFound)
        else Ok(Audio(url.value, s.files[url.value]))
  }

  /**
   * upload_audio: reject an unknown quiz or an index at or past the end;
   * otherwise write the file at the naming rule's path, then set that
   * question's `audio_url`. An index below -len passes the check, so the
   * file is written before the IndexError is raised.
   */
  function UploadAudio(s: State, id: string, index: int, data: Bytes): (r: (State, Result<(), Failure>))
    ensures r.1 == Err(QuizOrQuestionNotFound) <==> id !in s.quizzes || index >= |s.quizzes[id].questions|
    ensures r.1 == Err(QuizOrQuestionNotFound) ==> r.0 == s
    ensures r.1 == Err(IndexError) <==> id in s.quizzes && index < -|s.quizzes[id].questions|
    ensures r.1.Ok? || r.1 == Err(QuizOrQuestionNotFound) || r.1 == Err(IndexError)
    ensures r.1 != Err(QuizOrQuestionNotFound) ==>
      AudioPath(id, index) in r.0.files && r.0.files[AudioPath(id, index)] == data
    ensures forall p :: p != AudioPath(id, index) ==> (p in r.0.files <==> p in s.files)
    ensures forall p :: p != AudioPath(id, index) && p in s.files ==> r.0.files[p] == s.files[p]
    ensures r.1.Err? ==> r.0.quizzes == s.quizzes
    ensures r.0.quizzes.Keys == s.quizzes.Keys
    ensures forall k :: k in s.quizzes && k != id ==> r.0.quizzes[k] == s.quizzes[k]
    ensures r.1.Ok? ==>
      var qs, qs' := s.quizzes[id].questions, r.0.quizzes[id].questions;
      && r.0.quizzes[id].title == s.quizzes[id].title
      && |qs'| == |qs|
      && Slot(|qs|, index).Some?
      && (forall p :: 0 <= p < |qs| && Some(p) != Slot(|qs|, index) ==> qs'[p] == qs[p])
      && qs'[Slot(|qs|, index).value].form == qs[Slot(|qs|, index).value].form
      && qs'[Slot(|qs|, index).value].audioUrl == Some(AudioPath(id, index))
  {
    if id !in s.quizzes || index >= |s.quizzes[id].questions| then (s, Err(QuizOrQuestionNotFound))
    else
      var path := AudioPath(id, index);
      var files := s.files[path := data];
      var quiz := s.quizzes[id];
      match Slot(|quiz.questions|, index)
      case None => (State(s.quizzes, files), Err(IndexError))
      case Some(p) =>
        var q := quiz.questions[p].(audioUrl := Some(path));
        (State(s.quizzes[id := quiz.(questions := quiz.questions[p := q])], files), Ok(()))
  }

  /** read_audio_file: serve `/app/audio/{filename}` exactly when it exists. */
  function ReadAudioFile(s: State, filename: string): (r: Result<Audio, Failure>)
    ensures r.Ok? <==> InAudioDir(filename) in s.files
    ensures r.Ok? ==> r.value.path == InAudioDir(filename) && r.value.bytes == s.files[InAudioDir(filename)]
    ensures r.Err? ==> r.error == AudioFileNotFound
  {
    var path := InAudioDir(filename);
    if path in s.files then Ok(Audio(path, s.files[path])) else Err(AudioFileNotFound)
  }
}
