/**
 * The service as a state machine: each request is one handler call, and a
 * process run is a sequence of requests from a fresh registry.
 */
module Machine {
  import opened Outcomes
  import opened AudioNaming
  import opened Registry
  import opened Synthesis
  import opened Service
  import opened ServiceProperties

  datatype Request =
    | CreateQuizRequest(form: QuizForm, synth: JobOutcomes)
    | PlayAudioRequest(quizId: string, index: int)
    | UploadAudioRequest(quizId: string, index: int, data: Bytes)
    | ReadAudioFileRequest(filename: string)

  datatype Response =
    | QuizCreated(quizId: string)
    | AudioServed(audio: Audio)
    | AudioUploaded
    | Failed(failure: Failure)

  /** A create request carries exactly one job outcome per question. */
  predicate WellFormedRequest(req: Request) {
    req.CreateQuizRequest? ==> |req.synth| == |req.form.questions|
  }

  predicate WellFormedRequests(reqs: seq<Request>) {
    forall k :: 0 <= k < |reqs| ==> WellFormedRequest(reqs[k])
  }

  function Served(r: Result<Audio, Failure>): Response {
    match r
    case Ok(a) => AudioServed(a)
    case Err(f) => Failed(f)
  }

  /**
   * One request. Reads change nothing, and no request ever removes a quiz
   * or alters a quiz's title or submitted questions.
   */
  function Step(s: State, req: Request): (r: (State, Response))
    requires WellFormedRequest(req)
    ensures req.PlayAudioRequest? || req.ReadAudioFileRequest? ==> r.0 == s
    ensures s.quizzes.Keys <= r.0.quizzes.Keys
    ensures forall k :: k in s.quizzes && (!req.CreateQuizRequest? || k != NextId(|s.quizzes|)) ==>
      && r.0.quizzes[k].title == s.quizzes[k].title
      && |r.0.quizzes[k].questions| == |s.quizzes[k].questions|
      && forall p :: 0 <= p < |s.quizzes[k].questions| ==>
        r.0.quizzes[k].questions[p].form == s.quizzes[k].questions[p].form
  {
    match req
    case CreateQuizRequest(form, synth) =>
      var (s', id) := Create(s, form, synth);
      (s', QuizCreated(id))
    case PlayAudioRequest(id, index) =>
      (s, Served(PlayAudio(s, id, index)))
    case UploadAudioRequest(id, index, data) =>
      var (s', r) := UploadAudio(s, id, index, data);
      (s', if r.Ok? then AudioUploaded else Failed(r.error))
    case ReadAudioFileRequest(filename) =>
      (s, Served(ReadAudioFile(s, filename)))
  }

  /** The state after serving the requests one after another. */
  function Run(s: State, reqs: seq<Request>): State
    requires WellFormedRequests(reqs)
  {
    if reqs == [] then s else Step(Run(s, reqs[..|reqs| - 1]), reqs[|reqs| - 1]).0
  }

  /** Every step keeps the registry invariant. */
  lemma StepPreservesWf(s: State, req: Request)
    requires Wf(s)
    requires WellFormedRequest(req)
    ensures Wf(Step(s, req).0)
  {
    match req
    case CreateQuizRequest(form, synth) => CreatePreservesWf(s, form, synth);
    case PlayAudioRequest(_, _) =>
    case UploadAudioRequest(id, index, data) => UploadPreservesWf(s, id, index, data);
    case ReadAudioFileRequest(_) =>
  }

  /**
   * Every state a process reaches is well formed: its keys are exactly
   * "1".."n", so the next `str(len + 1)` is fresh, and no two questions
   * share an audio file.
   */
  lemma {:induction false} RunPreservesWf(files: map<string, Bytes>, reqs: seq<Request>)
    requires WellFormedRequests(reqs)
    ensures Wf(Run(Init(files), reqs))
    ensures NextId(|Run(Init(files), reqs).quizzes|) !in Run(Init(files), reqs).quizzes
  {
    if reqs == [] {
      InitWf(files);
    } else {
      var init := reqs[..|reqs| - 1];
      assert WellFormedRequests(init);
      RunPreservesWf(files, init);
      StepPreservesWf(Run(Init(files), init), reqs[|reqs| - 1]);
    }
    NextIdFresh(Run(Init(files), reqs));
  }

  /** Quizzes are only ever added: a run never loses an identifier. */
  lemma {:induction false} RunOnlyAddsQuizzes(s: State, reqs: seq<Request>)
    requires WellFormedRequests(reqs)
    ensures s.quizzes.Keys <= Run(s, reqs).quizzes.Keys
  {
    if reqs != [] {
      var init := reqs[..|reqs| - 1];
      assert WellFormedRequests(init);
      RunOnlyAddsQuizzes(s, init);
    }
  }

  /**
   * The first quiz of a fresh process gets id "1"; its first question's
   * audio lives at `/app/audio/1_0.mp3` and plays once synthesis succeeded.
   */
  lemma FirstQuizScenario(files: map<string, Bytes>, audio: Bytes)
    ensures var form := QuizForm("Test", [QuestionForm("ما هي العاصمة؟", ["الرباط", "مكة"], "الرباط")]);
      var (s', id) := Create(Init(files), form, [Some(audio)]);
      && id == "1"
      && AudioPath(id, 0) == "/app/audio/1_0.mp3"
      && PlayAudio(s', "1", 0) == Ok(Audio("/app/audio/1_0.mp3", audio))
  {
  }

  /**
   * A negative index passes the upper-bound-only check: uploading to -1 of a
   * one-question quiz writes `1_-1.mp3` and repoints question 0 at it.
   */
  lemma NegativeIndexUploadScenario(files: map<string, Bytes>, form: QuestionForm, audio: Bytes, data: Bytes)
    ensures var (s', _) := Create(Init(files), QuizForm("Test", [form]), [Some(audio)]);
      var (s'', r) := UploadAudio(s', "1", -1, data);
      && r == Ok(())
      && AudioPath("1", -1) == "/app/audio/1_-1.mp3"
      && s''.quizzes["1"].questions[0].audioUrl == Some("/app/audio/1_-1.mp3")
      && PlayAudio(s'', "1", 0) == Ok(Audio("/app/audio/1_-1.mp3", data))
  {
  }
}
