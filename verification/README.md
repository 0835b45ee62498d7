# Quiz audio service: registry and audio-naming model

A Dafny model of the core of a small quiz service (`main.py`). Clients create
a quiz (a title and multiple-choice questions). The service synthesises a
spoken rendition of every question into an audio file and serves that file
back by quiz id and question index. A client may also upload a recording
that replaces a question's audio.

The model is a functional state machine. The state (`Registry.State`) holds
the `quizzes` map from id string to quiz record and an abstract file store
mapping paths to bytes. Each handler is a pure transition that returns a new
state and a result value or a `Service.Failure`.

- `Decimal`: Python's `str` on integers, with parsers proving it is injective.
- `AudioNaming`: the naming rule `/app/audio/{quiz_id}_{index}.mp3`. It is
  injective for any id text and any int index, because the text after the
  last `_` never contains a `_`.
- `Registry`: the data model, Python list indexing (`Slot`), and the
  invariant `Wf`. `Wf` says the keys are exactly "1".."n" and every stored
  `audio_url` names its own question's file.
- `Synthesis`: one job per question. A job either writes its file or writes
  nothing (the store is unchanged). The job outcomes are a caller-supplied
  vector with one entry per question. The thread pool is sequentialised, and
  `SameJobsSameStore` proves that any completion order gives the same store.
- `Service`: `Create`, with `CreateQuiz` as the handler's own loops, plus
  `PlayAudio`, `UploadAudio` and `ReadAudioFile`.
- `ServiceProperties`: properties that relate several handlers.
- `Machine`: requests, responses, runs from a fresh process, and reachability
  of `Wf`.

Python's index semantics are kept. `play_audio` and `upload_audio` check
only `index >= len`. An index from -len to -1 therefore addresses a question
from the end and yields a file name such as `1_-1.mp3`. An index below -len
raises an unhandled `IndexError`, modelled as `Failure.IndexError`. In
`upload_audio` the file write (main.py:108-109) comes before the failing list
access (main.py:112). Such an upload therefore leaves a file behind that no
question references.

Two behaviours of the code are easy to miss, and the model keeps both:
- Create stamps `audio_url` on every question, even one whose synthesis
  failed (the text-to-speech error is caught and only logged). It does not
  leave that reference unset.
- Play checks whether the stored path exists in the store. A file left at that
  path by an earlier process (files outlive the in-memory registry) is
  therefore served after a synthesis that wrote nothing; see
  `PlayAfterCreate`.

## Model

| member | source | states |
|---|---|---|
| Decimal.NatText | main.py:46 | `str(n)` is a non-empty digit string with no leading zero |
| Decimal.NatTextRoundTrip | main.py:46 | parsing `str(n)` gives back n |
| Decimal.NatTextInjective | main.py:46 | distinct quiz counts give distinct id strings, and conversely |
| Decimal.IntText | main.py:55 | `str(i)` for any int is an optional minus sign followed by digits; the sign appears exactly for negatives |
| Decimal.IntTextRoundTrip | main.py:105 | parsing the index text of a file name gives back the index, negative ones included |
| Decimal.IntTextInjective | main.py:105 | distinct indices give distinct index texts |
| AudioNaming.InAudioDirInjective | main.py:119 | `/app/audio/{filename}` names distinct paths for distinct file names |
| AudioNaming.SplitAtLastSeparator | main.py:55 | a name `a_t` whose tail t has no `_` splits uniquely into a and t |
| AudioNaming.FileNameInjective | main.py:55 | `{id}_{i}.mp3` is equal for two pairs exactly when the ids and the indices are equal |
| AudioNaming.AudioPathInjective | main.py:73 | the audio path is equal for two (id, index) pairs exactly when the pairs are equal, for any id and any int index |
| AudioNaming.AudioPathsOfQuizDistinct | main.py:53-55 | within one quiz, no two indices share an audio path |
| Registry.Slot | main.py:90 | Python `questions[index]` addresses a position exactly when -len <= index < len, namely index or index + len |
| Registry.LaterIdNotIssued | main.py:46 | an id `str(m)` is none of "1".."n" when m > n |
| Registry.InitWf | main.py:19 | the empty registry satisfies the invariant, whatever files are on disk |
| Registry.NextIdFresh | main.py:46-47 | under the invariant, `str(len + 1)` is not already a key |
| Registry.DistinctPositionsDistinctAudio | main.py:72-74 | under the invariant, two different question positions never hold the same audio reference |
| Synthesis.RunInOrderEffect | main.py:34-41 | after jobs run in any order, each job that wrote its file leaves its bytes there; a job that wrote nothing changes nothing; every other path is unchanged |
| Synthesis.RunAll | main.py:64-66 | once all jobs have joined, each written job's file holds its bytes, a job that wrote nothing leaves its path as it was, and no other path changes |
| Synthesis.SubmitAndJoin | main.py:53-66 | submitting one job per position in order and waiting for all of them yields exactly the joined store `RunAll` |
| Synthesis.SameJobsSameStore | main.py:57-66 | two completion orders of the same jobs leave the same file store |
| Service.Create | main.py:45-76 | returns `str(len + 1)` and adds exactly that key; other quizzes are unchanged; title and questions equal the input; question i gets `audio_url` = its path whether or not synthesis succeeded; each written job's file holds its bytes; no other path changes |
| Service.CreateQuiz | main.py:45-76 | storing the quiz, submitting and joining the jobs, then stamping, computes exactly `Create` |
| Service.StampAudioUrls | main.py:72-74 | every question's `audio_url` becomes the path of its own position; nothing else about any question changes |
| Service.PlayAudio | main.py:79-95 | errors in fixed order: unknown id gives QuizNotFound, then `index >= len` gives QuestionIndexOutOfRange, then `index < -len` gives IndexError, then an unset, empty or absent `audio_url` file gives AudioNotFound; on success serves the addressed question's stored path and its bytes |
| Service.UploadAudio | main.py:98-114 | unknown id or `index >= len` rejects with no change; otherwise writes the data at the (id, index) path; on success only the addressed question's `audio_url` changes; below -len the write happens and IndexError follows with the registry unchanged |
| Service.ReadAudioFile | main.py:117-122 | serves `/app/audio/{filename}` exactly when it exists, else AudioFileNotFound |
| ServiceProperties.CreatePreservesWf | main.py:46-47 | create issues a fresh id, grows the registry by one, and keeps the invariant |
| ServiceProperties.CreateKeepsOtherQuizzes | main.py:47 | under the invariant, create never replaces or loses an existing quiz |
| ServiceProperties.UploadPreservesWf | main.py:112 | upload keeps the invariant |
| ServiceProperties.PlayAfterCreate | main.py:72-93 | after create, question i and index i - len play the bytes the job wrote; if it wrote nothing, they play a file already on disk at that path, or else give AudioNotFound |
| ServiceProperties.NamedFileServesCreatedAudio | main.py:119-122 | after create, `/audio/{id}_{i}.mp3` succeeds exactly when play of (id, i) does, and serves the same audio |
| ServiceProperties.CreateMatchesAnyCompletion | main.py:53-66 | any completion order covering all jobs gives create's file store |
| ServiceProperties.UploadThenPlay | main.py:105-112 | after a successful upload, every index addressing that question plays exactly the uploaded bytes |
| ServiceProperties.UploadIsolation | main.py:105-112 | under the invariant, play of any other question answers as before the upload, whether the upload succeeded, was rejected or crashed |
| ServiceProperties.UploadLeavesOtherNamedFiles | main.py:108-109 | the named-file route answers as before for every file name except the uploaded one |
| ServiceProperties.CrashedUploadLeavesOrphanFile | main.py:101-112 | under the invariant, an upload below -len raises IndexError with the registry unchanged; its written file is referenced by no question |
| Machine.Step | main.py:44-122 | play and read change nothing; no request removes a quiz or alters any existing quiz's title or submitted questions |
| Machine.StepPreservesWf | main.py:19 | every request keeps the registry invariant |
| Machine.RunPreservesWf | main.py:46-47 | every state reachable from a fresh process satisfies the invariant, so the next id is always fresh |
| Machine.RunOnlyAddsQuizzes | main.py:47 | a run never loses a quiz id |
| Machine.FirstQuizScenario | main.py:46-95 | the first quiz gets id "1", its question 0 is stored at `/app/audio/1_0.mp3`, and play serves the synthesised bytes |
| Machine.NegativeIndexUploadScenario | main.py:101-112 | uploading to index -1 of a one-question quiz writes `1_-1.mp3`, repoints question 0 at it, and play of index 0 serves it |

## Left out

- HTTP routing, request parsing and validation, `FileResponse` streaming, status codes and detail strings: framework code. Each error detail is one `Failure` constructor.
- The text-to-speech call (main.py:37-38) is a network call to a foreign library. What each job leaves in its file comes from the caller-supplied outcome vector. `None` means the job wrote nothing at all. A save that raises after opening its output file (a network error mid-download) leaves an empty or partial file; that is a `Some` outcome carrying those bytes, and play then serves that file. The model does not decide which failures happen before the file is opened. `Create` requires that vector to have one entry per question. This constrains only the oracle, not the quiz.
- Filesystem I/O (`os.makedirs`, `open`/`write`, `os.path.exists`) is replaced by a path-to-bytes map. Paths are plain strings with no normalisation, so `..` or `/` inside a file name given to `/audio/{filename}` are not interpreted.
- The thread pool and its join (main.py:31, main.py:58, main.py:65-66) run sequentially in submission order. `SameJobsSameStore` and `CreateMatchesAnyCompletion` show that the completion order cannot matter.
- Concurrent requests interleaving with one another are not modelled. Each request is one atomic step.
- Timing, debug prints and the startup `sys.path` print (main.py:12, main.py:51-69, main.py:81-94) have no behavioural content.
- The health-check endpoint (main.py:125-127) returns a constant.
- The truthiness test `if not quiz` (main.py:83) is modelled as key absence. A stored quiz record is never empty. The default of `quiz.get("questions", [])` (main.py:86) is never used, since the key is always present.
