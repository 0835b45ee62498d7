/**
 * The synthesis fan-out of create_quiz: one job per question, each either
 * writing its audio file or, when the text-to-speech call fails before the
 * file is opened, leaving the store as it was. Jobs run on a thread pool and may complete in any order;
 * this module shows that the order cannot change the resulting store, which
 * is what lets the model run them one after another.
 */
module Synthesis {
  import opened Outcomes
  import opened AudioNaming
  import opened Registry

  /**
   * The outcome of each job, by question position: the bytes the job left in
   * its file, or None where it raised before opening the file (the error is
   * swallowed either way). A save that fails after opening the file leaves
   * an empty or partial file, which is a Some outcome.
   */
  type JobOutcomes = seq<Option<Bytes>>

  /** Positions 0..n-1 in submission order: every job of an n-question quiz. */
  function Submitted(n: nat): (order: seq<int>)
    ensures |order| == n
    ensures forall k :: 0 <= k < n ==> order[k] == k
  {
    seq(n, k => k)
  }

  /**
   * Job `i` completing: a job that wrote its file (with audio, or with the
   * partial bytes of a save that failed mid-way) stores those bytes; a job
   * that wrote nothing leaves the store as it was.
   */
  function Job(files: map<string, Bytes>, id: string, synth: JobOutcomes, i: int): map<string, Bytes>
    requires 0 <= i < |synth|
  {
    if synth[i].Some? then files[AudioPath(id, i) := synth[i].value] else files
  }

  predicate ValidOrder(synth: JobOutcomes, order: seq<int>) {
    forall k :: 0 <= k < |order| ==> 0 <= order[k] < |synth|
  }

  /** The store after the jobs complete in the given order (a later write wins). */
  function RunInOrder(files: map<string, Bytes>, id: string, synth: JobOutcomes, order: seq<int>): map<string, Bytes>
    requires ValidOrder(synth, order)
  {
    if order == [] then files
    else Job(RunInOrder(files, id, synth, order[..|order| - 1]), id, synth, order[|order| - 1])
  }

  /** Path `p` is the file of some successful job among `done`. */
  predicate Written(id: string, synth: JobOutcomes, done: set<int>, p: string) {
    exists i :: i in done && 0 <= i < |synth| && synth[i].Some? && p == AudioPath(id, i)
  }

  function Elems(order: seq<int>): set<int> {
    set k | k in order
  }

  /**
   * What a run of jobs does to the store, whatever their order: each
   * successful job's file holds that job's audio, and every other path is
   * exactly as before.
   */
  lemma {:induction false} RunInOrderEffect(files: map<string, Bytes>, id: string, synth: JobOutcomes, order: seq<int>)
    requires ValidOrder(synth, order)
    ensures forall i :: i in order && 0 <= i < |synth| && synth[i].Some? ==>
      AudioPath(id, i) in RunInOrder(files, id, synth, order) &&
      RunInOrder(files, id, synth, order)[AudioPath(id, i)] == synth[i].value
    ensures forall p :: p in RunInOrder(files, id, synth, order) <==> p in files || Written(id, synth, Elems(order), p)
    ensures forall p :: p in files && !Written(id, synth, Elems(order), p) ==>
      RunInOrder(files, id, synth, order)[p] == files[p]
  {
    if order != [] {
      var init, last := order[..|order| - 1], order[|order| - 1];
      assert order == init + [last];
      assert Elems(order) == Elems(init) + {last};
      RunInOrderEffect(files, id, synth, init);
      AudioPathsOfQuizDistinct(id);
      var before := RunInOrder(files, id, synth, init);
      var after := RunInOrder(files, id, synth, order);
      forall p
        ensures Written(id, synth, Elems(order), p) <==>
          Written(id, synth, Elems(init), p) || (synth[last].Some? && p == AudioPath(id, last))
      {
        if Written(id, synth, Elems(order), p) {
          var i :| i in Elems(order) && 0 <= i < |synth| && synth[i].Some? && p == AudioPath(id, i);
          if i != last {
            assert i in Elems(init);
          }
        }
        if synth[last].Some? && p == AudioPath(id, last) {
          assert last in Elems(order);
        }
      }
      forall i | i in order && 0 <= i < |synth| && synth[i].Some?
        ensures AudioPath(id, i) in after && after[AudioPath(id, i)] == synth[i].value
      {
        if i != last {
          assert i in init;
        }
      }
    }
  }

  /**
   * Completion order is irrelevant: two completion orders of the same set of
   * jobs leave the same store.
   */
  lemma SameJobsSameStore(files: map<string, Bytes>, id: string, synth: JobOutcomes, order1: seq<int>, order2: seq<int>)
    requires ValidOrder(synth, order1) && ValidOrder(synth, order2)
    requires Elems(order1) == Elems(order2)
    ensures RunInOrder(files, id, synth, order1) == RunInOrder(files, id, synth, order2)
  {
    RunInOrderEffect(files, id, synth, order1);
    RunInOrderEffect(files, id, synth, order2);
    var r1, r2 := RunInOrder(files, id, synth, order1), RunInOrder(files, id, synth, order2);
    assert r1.Keys == r2.Keys;
    forall p | p in r1
      ensures r1[p] == r2[p]
    {
      if Written(id, synth, Elems(order1), p) {
        var i :| i in Elems(order1) && 0 <= i < |synth| && synth[i].Some? && p == AudioPath(id, i);
        assert i in order1 && i in order2;
      }
    }
  }

  /** Every position of an n-question quiz, 0 to n-1. */
  function AllJobs(n: nat): set<int> {
    Elems(Submitted(n))
  }

  /**
   * The join of create_quiz: the store once every job has completed (run
   * here in submission order). Each successful job's file holds its audio;
   * a job that wrote nothing leaves its path as it was; no other path changes.
   */
  function RunAll(files: map<string, Bytes>, id: string, synth: JobOutcomes): (m: map<string, Bytes>)
    ensures forall i :: 0 <= i < |synth| && synth[i].Some? ==>
      AudioPath(id, i) in m && m[AudioPath(id, i)] == synth[i].value
    ensures forall p :: p in m <==> p in files || Written(id, synth, AllJobs(|synth|), p)
    ensures forall p :: p in files && !Written(id, synth, AllJobs(|synth|), p) ==> m[p] == files[p]
  {
    var order := Submitted(|synth|);
    RunInOrderEffect(files, id, synth, order);
    assert forall i :: 0 <= i < |synth| ==> i in order by {
      forall i | 0 <= i < |synth| ensures i in order {
        assert order[i] == i;
      }
    }
    RunInOrder(files, id, synth, order)
  }

  /**
   * The submit-and-join loops of create_quiz, run one job at a time in
   * submission order: the result is the joined store.
   */
  method SubmitAndJoin(files: map<string, Bytes>, id: string, synth: JobOutcomes) returns (m: map<string, Bytes>)
    ensures m == RunAll(files, id, synth)
  {
    m := files;
    var i := 0;
    while i < |synth|
      invariant 0 <= i <= |synth|
      invariant m == RunInOrder(files, id, synth, Submitted(i))
    {
      assert Submitted(i + 1)[..i] == Submitted(i);
      m := Job(m, id, synth, i);
      i := i + 1;
    }
  }
}
