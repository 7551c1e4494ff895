/**
 * The calls the ingestion strategy makes on its collaborators, recorded in
 * order. A file handle is named by the enumeration pass that yielded it and
 * its position in that enumeration.
 */
module Events {
  import opened Base
  import opened Sections

  /** `list()` is called once by the descriptor search and once by Add; a
      user upload works on one file handed in by its caller. */
  datatype Pass = DescriptorSearch | Ingest | UserUpload

  datatype Handle = Handle(pass: Pass, index: nat)

  /** An embedding vector; its values are never inspected. */
  type Vector = seq<real>

  datatype Event =
    | Close(handle: Handle)                          // file.close()
    | Upload(handle: Handle)                         // blob_manager.upload_blob(file)
    | CreateEmbeddings(handle: Handle, uris: seq<string>)   // image_embeddings.create_embeddings(uris)
    | UpdateContent(handle: Handle, sections: seq<Section>, embeddings: Option<seq<Vector>>, url: Option<string>)
    | RemoveBlob(path: Option<string>)               // blob_manager.remove_blob(path); None removes all
    | RemoveContent(path: Option<string>, oid: Option<string>)  // search_manager.remove_content(path, oid)
    | CreateIndex                                    // search_manager.create_index()
    | CreateAnalyzer(endpoint: string)               // ContentUnderstandingDescriber(...).create_analyzer()

  /** True when the event is a call about file handle `h`. */
  predicate About(e: Event, h: Handle)
  {
    (e.Close? || e.Upload? || e.CreateEmbeddings? || e.UpdateContent?) && e.handle == h
  }

  /** The events of `trace` about handle `h`, in order. */
  function EventsAbout(trace: seq<Event>, h: Handle): (r: seq<Event>)
    ensures |r| <= |trace|
  {
    if trace == [] then []
    else (if About(trace[0], h) then [trace[0]] else []) + EventsAbout(trace[1..], h)
  }

  /** `EventsAbout` keeps exactly the events of the trace that are about `h`. */
  lemma {:induction false} EventsAboutIn(trace: seq<Event>, h: Handle, e: Event)
    ensures e in EventsAbout(trace, h) <==> e in trace && About(e, h)
  {
    if trace != [] {
      EventsAboutIn(trace[1..], h, e);
      assert trace == [trace[0]] + trace[1..];
    }
  }

  lemma {:induction false} EventsAboutAppend(a: seq<Event>, b: seq<Event>, h: Handle)
    ensures EventsAbout(a + b, h) == EventsAbout(a, h) + EventsAbout(b, h)
  {
    if a != [] {
      assert (a + b)[1..] == a[1..] + b;
      EventsAboutAppend(a[1..], b, h);
    } else {
      assert a + b == b;
    }
  }

  /** Closing the first `n` handles of pass `p`, in enumeration order. */
  function Closes(p: Pass, n: nat): (r: seq<Event>)
    ensures |r| == n
    ensures forall k :: 0 <= k < n ==> r[k] == Close(Handle(p, k))
  {
    if n == 0 then [] else Closes(p, n - 1) + [Close(Handle(p, n - 1))]
  }

  /** In `Closes(p, n)` each of the first `n` handles is closed exactly once
      and no other handle is touched. */
  lemma {:induction false} ClosesOnce(p: Pass, n: nat, h: Handle)
    ensures EventsAbout(Closes(p, n), h) == if h.pass == p && h.index < n then [Close(h)] else []
  {
    if n > 0 {
      var front, last := Closes(p, n - 1), Close(Handle(p, n - 1));
      assert Closes(p, n) == front + [last];
      ClosesOnce(p, n - 1, h);
      EventsAboutAppend(front, [last], h);
      assert EventsAbout([last], h) == (if About(last, h) then [last] else []) + EventsAbout([], h);
      if h == Handle(p, n - 1) {
        assert EventsAbout(front, h) == [];
        assert EventsAbout(Closes(p, n), h) == [] + [Close(h)];
      } else {
        assert EventsAbout([last], h) == [];
        assert EventsAbout(Closes(p, n), h) == EventsAbout(front, h) + [];
      }
    }
  }

  /** A trace whose events are all about handle `g` is, seen from any handle
      `h`, either all of itself or nothing. */
  lemma {:induction false} EventsAboutOne(trace: seq<Event>, g: Handle, h: Handle)
    requires forall k :: 0 <= k < |trace| ==> About(trace[k], g)
    ensures EventsAbout(trace, h) == if g == h then trace else []
  {
    if trace != [] {
      EventsAboutOne(trace[1..], g, h);
    }
  }

  // ---------------------------------------------------------------- runs of steps

  /** `Raised(at)`: an exception left the run while it handled the element
      (file or path) at position `at` of its enumeration. */
  datatype Outcome = Completed | Raised(at: nat)

  /** The calls a step (or a whole run) made, and how it ended. */
  datatype Effects = Effects(trace: seq<Event>, outcome: Outcome)

  /** Running the steps from position `i` in order: the calls of each step
      follow those of the one before, and the first exception ends the run. */
  function Sequence(steps: seq<Effects>, i: nat): Effects
    requires i <= |steps|
    decreases |steps| - i
  {
    if i == |steps| then Effects([], Completed)
    else if steps[i].outcome.Raised? then steps[i]
    else
      var rest := Sequence(steps, i + 1);
      Effects(steps[i].trace + rest.trace, rest.outcome)
  }

  /** Every step ends normally or raises at its own position. */
  ghost predicate OwnOutcomes(steps: seq<Effects>)
  {
    forall j :: 0 <= j < |steps| ==> steps[j].outcome == Completed || steps[j].outcome == Raised(j)
  }

  /** Every call of the `j`-th step is about handle `j` of pass `p`. */
  ghost predicate OwnHandles(steps: seq<Effects>, p: Pass)
  {
    forall j, k :: 0 <= j < |steps| && 0 <= k < |steps[j].trace| ==> About(steps[j].trace[k], Handle(p, j))
  }

  /** A run completes when every step does; otherwise it raises at the first
      step that raises, and every step before it completed. */
  lemma {:induction false} SequenceOutcome(steps: seq<Effects>, i: nat)
    requires i <= |steps| && OwnOutcomes(steps)
    ensures Sequence(steps, i).outcome == Completed <==> forall j :: i <= j < |steps| ==> steps[j].outcome == Completed
    ensures Sequence(steps, i).outcome.Raised? ==>
      var k := Sequence(steps, i).outcome.at;
      && i <= k < |steps| && steps[k].outcome == Raised(k)
      && forall j :: i <= j < k ==> steps[j].outcome == Completed
    decreases |steps| - i
  {
    if i < |steps| && steps[i].outcome.Completed? {
      SequenceOutcome(steps, i + 1);
    }
  }

  /** One past the last step a run from `i` reaches. */
  function Reached(steps: seq<Effects>, i: nat): (n: nat)
    requires i <= |steps|
    ensures n <= |steps|
  {
    var r := Sequence(steps, i);
    if r.outcome.Raised? && r.outcome.at < |steps| then r.outcome.at + 1 else |steps|
  }

  /** Seen from one handle, a run's calls are exactly that handle's own step,
      uninterleaved, when the run reaches it, and nothing otherwise. */
  lemma {:induction false} SequencePerHandle(steps: seq<Effects>, p: Pass, i: nat, h: Handle)
    requires i <= |steps| && OwnOutcomes(steps) && OwnHandles(steps, p)
    ensures EventsAbout(Sequence(steps, i).trace, h) ==
      if h.pass == p && i <= h.index < Reached(steps, i) then steps[h.index].trace else []
    decreases |steps| - i
  {
    if i < |steps| {
      var step := steps[i];
      assert forall k :: 0 <= k < |step.trace| ==> About(step.trace[k], Handle(p, i));
      EventsAboutOne(step.trace, Handle(p, i), h);
      if step.outcome.Raised? {
        PerHandleRaised(steps, p, i, h);
      } else {
        SequenceOutcome(steps, i + 1);
        SequencePerHandle(steps, p, i + 1, h);
        PerHandleCompleted(steps, p, i, h);
      }
    }
  }

  /** `SequencePerHandle` for a step that raises: the run ends with it. */
  lemma PerHandleRaised(steps: seq<Effects>, p: Pass, i: nat, h: Handle)
    requires i < |steps| && steps[i].outcome == Raised(i)
    requires EventsAbout(steps[i].trace, h) == if h == Handle(p, i) then steps[i].trace else []
    ensures EventsAbout(Sequence(steps, i).trace, h) ==
      if h.pass == p && i <= h.index < Reached(steps, i) then steps[h.index].trace else []
  {
    assert Sequence(steps, i) == steps[i];
    assert Reached(steps, i) == i + 1;
  }

  /** The inductive step of `SequencePerHandle` for a step that completes. */
  lemma PerHandleCompleted(steps: seq<Effects>, p: Pass, i: nat, h: Handle)
    requires i < |steps| && !steps[i].outcome.Raised?
    requires EventsAbout(steps[i].trace, h) == if h == Handle(p, i) then steps[i].trace else []
    requires Sequence(steps, i + 1).outcome.Raised? ==> i + 1 <= Sequence(steps, i + 1).outcome.at < |steps|
    requires EventsAbout(Sequence(steps, i + 1).trace, h) ==
      if h.pass == p && i + 1 <= h.index < Reached(steps, i + 1) then steps[h.index].trace else []
    ensures EventsAbout(Sequence(steps, i).trace, h) ==
      if h.pass == p && i <= h.index < Reached(steps, i) then steps[h.index].trace else []
  {
    var rest := Sequence(steps, i + 1);
    assert Sequence(steps, i) == Effects(steps[i].trace + rest.trace, rest.outcome);
    assert Reached(steps, i) == Reached(steps, i + 1) >= i + 1;
    EventsAboutAppend(steps[i].trace, rest.trace, h);
    if h == Handle(p, i) {
      assert EventsAbout(rest.trace, h) == [];
      assert EventsAbout(Sequence(steps, i).trace, h) == steps[i].trace + [];
    } else {
      assert EventsAbout(Sequence(steps, i).trace, h) == [] + EventsAbout(rest.trace, h);
    }
  }

  /** One step of a loop that runs the steps in order: after the calls
      `done`, running from step `i` adds that step's calls and then, unless it
      raised, the run from step `i + 1`. */
  lemma SequenceAdvance(steps: seq<Effects>, i: nat, done: seq<Event>)
    requires i < |steps|
    ensures steps[i].outcome.Raised? ==>
      Effects(done + Sequence(steps, i).trace, Sequence(steps, i).outcome) == Effects(done + steps[i].trace, steps[i].outcome)
    ensures !steps[i].outcome.Raised? ==>
      Effects(done + Sequence(steps, i).trace, Sequence(steps, i).outcome) ==
        Effects((done + steps[i].trace) + Sequence(steps, i + 1).trace, Sequence(steps, i + 1).outcome)
  {
    assert (done + steps[i].trace) + Sequence(steps, i + 1).trace == done + (steps[i].trace + Sequence(steps, i + 1).trace);
  }
}
