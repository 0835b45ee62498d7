/**
 * Properties that relate several handlers: the registry invariant is kept,
 * created audio is what play serves, an upload overwrites exactly one
 * question's audio, and the named-file route sees the same files.
 */
module ServiceProperties {
  import opened Outcomes
  import opened AudioNaming
  import opened Registry
  import opened Synthesis
  import opened Service

  /**
   * Create keeps the invariant: the id it issues is fresh, so the registry
   * grows by exactly one entry and its keys become "1".."n+1".
   */
  lemma CreatePreservesWf(s: State, form: QuizForm, synth: JobOutcomes)
    requires Wf(s)
    requires |synth| == |form.questions|
    ensures Create(s, form, synth).1 !in s.quizzes
    ensures |Create(s, form, synth).0.quizzes| == |s.quizzes| + 1
    ensures Wf(Create(s, form, synth).0)
  {
    var (s', id) := Create(s, form, synth);
    NextIdFresh(s);
    assert s'.quizzes.Keys == IssuedIds(|s.quizzes| + 1);
    var qs := s'.quizzes[id].questions;
    assert UrlsFit(id, qs) by {
      forall p | 0 <= p < |qs|
        ensures UrlFits(id, |qs|, p, qs[p].audioUrl)
      {
        assert qs[p].audioUrl == Some(AudioPath(id, p));
      }
    }
  }

  /**
   * The id create returns names the quiz just stored, and every other
   * quiz is untouched: a sequence of creates never loses a quiz.
   */
  lemma CreateKeepsOtherQuizzes(s: State, form: QuizForm, synth: JobOutcomes, k: string)
    requires Wf(s)
    requires |synth| == |form.questions|
    requires k in s.quizzes
    ensures k in Create(s, form, synth).0.quizzes
    ensures Create(s, form, synth).0.quizzes[k] == s.quizzes[k]
  {
    NextIdFresh(s);
  }

  /** Upload keeps the invariant: it only ever stores a path that fits its question. */
  lemma UploadPreservesWf(s: State, id: string, index: int, data: Bytes)
    requires Wf(s)
    ensures Wf(UploadAudio(s, id, index, data).0)
  {
  }

  /**
   * Right after create, question i plays the bytes its job wrote; if the job
   * wrote nothing, play serves whatever file already sat at that path (left
   * by an earlier process) or reports the audio missing. The negative index
   * i - n addresses the same question.
   */
  lemma PlayAfterCreate(s: State, form: QuizForm, synth: JobOutcomes, i: nat)
    requires |synth| == |form.questions|
    requires i < |form.questions|
    ensures var (s', id) := Create(s, form, synth);
      var path := AudioPath(id, i);
      && PlayAudio(s', id, i) == PlayAudio(s', id, i - |form.questions|)
      && PlayAudio(s', id, i) ==
        if synth[i].Some? then Ok(Audio(path, synth[i].value))
        else if path in s.files then Ok(Audio(path, s.files[path]))
        else Err(AudioNotFound)
  {
    var (s', id) := Create(s, form, synth);
    var path := AudioPath(id, i);
    assert Addressed(s', id, i) == Addressed(s', id, i - |form.questions|);
    assert path != "" by {
      assert path[0] == '/';
    }
    if synth[i].None? {
      assert !Written(id, synth, AllJobs(|synth|), path) by {
        if Written(id, synth, AllJobs(|synth|), path) {
          var j :| j in AllJobs(|synth|) && 0 <= j < |synth| && synth[j].Some? && path == AudioPath(id, j);
          AudioPathInjective(id, i, id, j);
        }
      }
    }
  }

  /** The named-file route serves created audio exactly as play does. */
  lemma NamedFileServesCreatedAudio(s: State, form: QuizForm, synth: JobOutcomes, i: nat)
    requires |synth| == |form.questions|
    requires i < |form.questions|
    ensures var (s', id) := Create(s, form, synth);
      && (ReadAudioFile(s', FileName(id, i)).Ok? <==> PlayAudio(s', id, i).Ok?)
      && (PlayAudio(s', id, i).Ok? ==> ReadAudioFile(s', FileName(id, i)) == PlayAudio(s', id, i))
  {
  }

  /**
   * A create whose jobs completed in any order covering every job leaves
   * the same store as the sequential run create is defined by.
   */
  lemma CreateMatchesAnyCompletion(s: State, form: QuizForm, synth: JobOutcomes, order: seq<int>)
    requires |synth| == |form.questions|
    requires ValidOrder(synth, order)
    requires Elems(order) == AllJobs(|synth|)
    ensures Create(s, form, synth).0.files == RunInOrder(s.files, NextId(|s.quizzes|), synth, order)
  {
    SameJobsSameStore(s.files, NextId(|s.quizzes|), synth, order, Submitted(|synth|));
  }

  /**
   * An upload wins over synthesis: afterwards every index that addresses
   * the uploaded question plays exactly the uploaded bytes.
   */
  lemma UploadThenPlay(s: State, id: string, index: int, data: Bytes, j: int)
    requires UploadAudio(s, id, index, data).1.Ok?
    requires Slot(|s.quizzes[id].questions|, j) == Slot(|s.quizzes[id].questions|, index)
    ensures PlayAudio(UploadAudio(s, id, index, data).0, id, j) == Ok(Audio(AudioPath(id, index), data))
  {
  }

  /**
   * An upload disturbs no other question: in a well-formed state, play on
   * any index that does not address the uploaded question answers exactly
   * as before, whether the upload succeeded, was rejected, or crashed after
   * writing its file.
   */
  lemma UploadIsolation(s: State, id: string, index: int, data: Bytes, id2: string, j: int)
    requires Wf(s)
    requires Target(s, id2, j).None? || Target(s, id2, j) != Target(s, id, index)
    ensures PlayAudio(UploadAudio(s, id, index, data).0, id2, j) == PlayAudio(s, id2, j)
  {
    var (s', r) := UploadAudio(s, id, index, data);
    if r != Err(QuizOrQuestionNotFound) && Target(s, id2, j).Some? {
      var path := AudioPath(id, index);
      var p := Target(s, id2, j).value.1;
      var qs := s.quizzes[id2].questions;
      var n := |qs|;
      assert Addressed(s', id2, j) == Addressed(s, id2, j);
      assert UrlFits(id2, n, p, qs[p].audioUrl);
      assert qs[p].audioUrl != Some(path) by {
        AudioPathInjective(id, index, id2, p);
        AudioPathInjective(id, index, id2, p - n);
      }
    }
  }

  /** The named-file route is unaffected by an upload to any other file. */
  lemma UploadLeavesOtherNamedFiles(s: State, id: string, index: int, data: Bytes, filename: string)
    requires filename != FileName(id, index)
    ensures ReadAudioFile(UploadAudio(s, id, index, data).0, filename) == ReadAudioFile(s, filename)
  {
    InAudioDirInjective(filename, FileName(id, index));
  }

  /**
   * An upload whose index lies below -len passes validation, writes its
   * file, and only then raises IndexError: the registry is unchanged and the
   * new file is referenced by no question at all.
   */
  lemma CrashedUploadLeavesOrphanFile(s: State, id: string, index: int, data: Bytes)
    requires Wf(s)
    requires id in s.quizzes && index < -|s.quizzes[id].questions|
    ensures var (s', r) := UploadAudio(s, id, index, data);
      && r == Err(IndexError)
      && s'.quizzes == s.quizzes
      && AudioPath(id, index) in s'.files
      && forall k, p :: k in s'.quizzes && 0 <= p < |s'.quizzes[k].questions| ==>
        s'.quizzes[k].questions[p].audioUrl != Some(AudioPath(id, index))
  {
    forall k, p | k in s.quizzes && 0 <= p < |s.quizzes[k].questions|
      ensures s.quizzes[k].questions[p].audioUrl != Some(AudioPath(id, index))
    {
      var n := |s.quizzes[k].questions|;
      assert UrlFits(k, n, p, s.quizzes[k].questions[p].audioUrl);
      AudioPathInjective(id, index, k, p);
      AudioPathInjective(id, index, k, p - n);
    }
  }
}
