/**
 * The rule that names each question's audio file: `{quiz_id}_{index}.mp3`
 * inside the fixed audio directory. Create, upload and the named-file route
 * all address the store through these functions.
 */
module AudioNaming {
  import opened Decimal

  /** The fixed base directory of every audio artifact. */
  const AudioDir: string := "/app/audio"

  /** The store path of a file name inside the audio directory. */
  function InAudioDir(filename: string): string {
    AudioDir + "/" + filename
  }

  /** The file name of the audio for question `index` of quiz `id`. */
  function FileName(id: string, index: int): string {
    id + "_" + IntText(index) + ".mp3"
  }

  /** The store path of the audio for question `index` of quiz `id`. */
  function AudioPath(id: string, index: int): string {
    InAudioDir(FileName(id, index))
  }

  lemma InAudioDirInjective(a: string, b: string)
    ensures InAudioDir(a) == InAudioDir(b) <==> a == b
  {
    var prefix := AudioDir + "/";
    if InAudioDir(a) == InAudioDir(b) {
      assert a == InAudioDir(a)[|prefix|..];
      assert b == InAudioDir(b)[|prefix|..];
    }
  }

  /**
   * Two strings that end in `_` followed by a separator-free tail split at
   * the same place: the last `_` is where the tail starts.
   */
  lemma SplitAtLastSeparator(a1: string, t1: string, a2: string, t2: string)
    requires '_' !in t1 && '_' !in t2
    requires a1 + "_" + t1 == a2 + "_" + t2
    ensures a1 == a2 && t1 == t2
  {
    var w := a1 + "_" + t1;
    assert w == a2 + "_" + t2;
    // Just before the shorter tail sits a `_`, which the longer tail cannot hold.
    var m := if |t1| <= |t2| then |t1| else |t2|;
    assert w[|w| - m - 1] == '_';
    assert |t1| == |t2|;
    assert t1 == w[|w| - |t1|..];
    assert t2 == w[|w| - |t2|..];
    assert a1 == w[..|a1|];
    assert a2 == w[..|a2|];
  }

  /**
   * Position fidelity of the naming rule: distinct (quiz id, index) pairs
   * name distinct files, for any id text and any Python int index.
   */
  lemma FileNameInjective(id1: string, i1: int, id2: string, i2: int)
    ensures FileName(id1, i1) == FileName(id2, i2) <==> id1 == id2 && i1 == i2
  {
    if FileName(id1, i1) == FileName(id2, i2) {
      var t1 := IntText(i1) + ".mp3";
      var t2 := IntText(i2) + ".mp3";
      assert FileName(id1, i1) == id1 + "_" + t1;
      assert FileName(id2, i2) == id2 + "_" + t2;
      SplitAtLastSeparator(id1, t1, id2, t2);
      assert IntText(i1) == t1[..|t1| - 4];
      assert IntText(i2) == t2[..|t2| - 4];
      IntTextInjective(i1, i2);
    }
  }

  lemma AudioPathInjective(id1: string, i1: int, id2: string, i2: int)
    ensures AudioPath(id1, i1) == AudioPath(id2, i2) <==> id1 == id2 && i1 == i2
  {
    InAudioDirInjective(FileName(id1, i1), FileName(id2, i2));
    FileNameInjective(id1, i1, id2, i2);
  }

  /** The naming rule applied to one quiz never names two indices alike. */
  lemma AudioPathsOfQuizDistinct(id: string)
    ensures forall i: int, j: int :: AudioPath(id, i) == AudioPath(id, j) ==> i == j
  {
    forall i: int, j: int | AudioPath(id, i) == AudioPath(id, j)
      ensures i == j
    {
      AudioPathInjective(id, i, id, j);
    }
  }
}
