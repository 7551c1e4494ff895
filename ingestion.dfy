/**
 * `FileStrategy.setup` and `FileStrategy.run`: the Add / Remove / RemoveAll
 * state machine. Collaborators are fields of `Environment`; each call the
 * strategy makes on them is an `Event`, and a collaborator result of `None`
 * (or a `...Raises` flag) stands for an exception, which propagates out of
 * `run` after the current file's `finally` has closed it.
 */
module Ingestion {
  import opened Base
  import opened Text
  import opened Metadata
  import opened Sections
  import opened Events
  import opened Resolver

  datatype DocumentAction = Add | Remove | RemoveAll

  /** `search_info.credential`: a key credential, or a keyless (token) one. */
  datatype Credential = KeyCredential | TokenCredential

  /** The configuration a `FileStrategy` is built with; `run` never changes it. */
  datatype FileStrategy = FileStrategy(
    processors: map<string, Processor>,
    action: DocumentAction,
    imageEmbeddings: bool,
    category: Option<string>,
    useContentUnderstanding: bool,
    contentUnderstandingEndpoint: Option<string>,
    credential: Credential)

  /** What `upload_blob` returns (the SAS URIs) and the `url` it leaves on the file. */
  datatype UploadResult = UploadResult(sasUris: seq<string>, url: Option<string>)

  /** The collaborators as seen by one run. Every `list()` call enumerates
      `files`; `list_paths()` enumerates `paths`. `upload(i)` is the result of
      uploading the `i`-th enumerated file. */
  datatype Environment = Environment(
    database: Option<Lookup>,
    files: seq<FileInfo>,
    paths: seq<string>,
    read: Content -> Option<Descriptor>,
    upload: nat -> Option<UploadResult>,
    embed: seq<string> -> Option<seq<Vector>>,
    updateRaises: nat -> bool,
    blobRemovalRaises: Option<string> -> bool,
    contentRemovalRaises: Option<string> -> bool)

  // ---------------------------------------------------------------- setup

  datatype SetupResult = Ready | MissingEndpoint | KeyCredentialRejected

  /** `setup`, lines 188-200: the index is created first; with Content
      Understanding enabled, a missing endpoint and then a key credential are
      configuration errors, otherwise the analyzer is created. */
  method Setup(s: FileStrategy) returns (trace: seq<Event>, result: SetupResult)
    ensures |trace| > 0 && trace[0] == CreateIndex
    ensures result == MissingEndpoint <==> s.useContentUnderstanding && s.contentUnderstandingEndpoint.None?
    ensures result == KeyCredentialRejected <==>
      s.useContentUnderstanding && s.contentUnderstandingEndpoint.Some? && s.credential == KeyCredential
    ensures result == Ready && s.useContentUnderstanding ==>
      trace == [CreateIndex, CreateAnalyzer(s.contentUnderstandingEndpoint.value)]
    ensures result != Ready || !s.useContentUnderstanding ==> trace == [CreateIndex]
  {
    trace := [CreateIndex];
    result := Ready;
    if s.useContentUnderstanding {
      if s.contentUnderstandingEndpoint.None? {
        return trace, MissingEndpoint;
      }
      if s.credential == KeyCredential {
        return trace, KeyCredentialRejected;
      }
      trace := trace + [CreateAnalyzer(s.contentUnderstandingEndpoint.value)];
    }
  }

  // ---------------------------------------------------------------- Add

  /** The sections `run` builds for file `f`: `parse_file` with the metadata
      resolved from the lookup. */
  function FileSections(s: FileStrategy, lookup: Lookup, f: FileInfo): Option<seq<Section>>
  {
    var m := ResolveMetadata(lookup, f.name, s.category);
    ParseFile(f, s.processors, m.category, m.publicationDate, Some(m.topics))
  }

  /** Shorthand for the calls that index sections and close the file. */
  function Indexed(before: seq<Event>, h: Handle, sections: seq<Section>, embeddings: Option<seq<Vector>>,
                   url: Option<string>, raises: bool): Effects
  {
    Effects(before + [UpdateContent(h, sections, embeddings, url), Close(h)], if raises then Raised(h.index) else Completed)
  }

  /** The calls `run` makes for the `i`-th enumerated file (lines 210-244). */
  function FileStep(s: FileStrategy, env: Environment, lookup: Lookup, i: nat): Effects
    requires i < |env.files|
  {
    var f := env.files[i];
    var h := Handle(Ingest, i);
    if IsDescriptorName(f.name) then Effects([Close(h), Close(h)], Completed)
    else
      match FileSections(s, lookup, f)
      case None => Effects([Close(h)], Raised(i))
      case Some(sections) =>
        if sections == [] then Effects([Close(h)], Completed)
        else UploadStep(s, env, i, sections)
  }

  /** The calls for the `i`-th file once it has sections (lines 237-244):
      upload, embeddings when configured and URIs came back, index update,
      and the close of the `finally`. */
  function UploadStep(s: FileStrategy, env: Environment, i: nat, sections: seq<Section>): Effects
  {
    var h := Handle(Ingest, i);
    match env.upload(i)
    case None => Effects([Upload(h), Close(h)], Raised(i))
    case Some(u) =>
      if s.imageEmbeddings && u.sasUris != [] then
        match env.embed(u.sasUris)
        case None => Effects([Upload(h), CreateEmbeddings(h, u.sasUris), Close(h)], Raised(i))
        case Some(v) => Indexed([Upload(h), CreateEmbeddings(h, u.sasUris)], h, sections, Some(v), u.url, env.updateRaises(i))
      else Indexed([Upload(h)], h, sections, None, u.url, env.updateRaises(i))
  }

  /** What happens to one enumerated file, on every path through the
      `try`/`finally` of lines 210-244. */
  lemma FileStepShape(s: FileStrategy, env: Environment, lookup: Lookup, i: nat)
    requires i < |env.files|
    // the file is closed last, on every path, and no call is about another file
    ensures var r := FileStep(s, env, lookup, i);
      && |r.trace| > 0 && r.trace[|r.trace| - 1] == Close(Handle(Ingest, i))
      && (forall k :: 0 <= k < |r.trace| ==> About(r.trace[k], Handle(Ingest, i)))
      && (r.outcome == Completed || r.outcome == Raised(i))
    // the descriptor is closed (twice) and nothing else
    ensures IsDescriptorName(env.files[i].name) ==>
      FileStep(s, env, lookup, i) == Effects([Close(Handle(Ingest, i)), Close(Handle(Ingest, i))], Completed)
    // any other file is closed exactly once
    ensures var r := FileStep(s, env, lookup, i);
      !IsDescriptorName(env.files[i].name) ==> forall k :: 0 <= k < |r.trace| - 1 ==> !r.trace[k].Close?
    // the upload happens, first and once, exactly when there are sections
    ensures var r := FileStep(s, env, lookup, i);
      && (Upload(Handle(Ingest, i)) in r.trace <==>
            && !IsDescriptorName(env.files[i].name)
            && FileSections(s, lookup, env.files[i]).Some?
            && FileSections(s, lookup, env.files[i]).value != [])
      && forall k :: 0 <= k < |r.trace| && r.trace[k].Upload? ==> k == 0
    // embeddings only when configured and the upload gave URIs
    ensures var r := FileStep(s, env, lookup, i);
      forall k :: 0 <= k < |r.trace| && r.trace[k].CreateEmbeddings? ==>
        && k == 1 && s.imageEmbeddings
        && env.upload(i).Some? && r.trace[k].uris == env.upload(i).value.sasUris != []
    // the index update comes once, after the upload, with the file's sections,
    // the uploaded url and exactly the vectors the embeddings returned
    ensures var r := FileStep(s, env, lookup, i);
      forall k :: 0 <= k < |r.trace| && r.trace[k].UpdateContent? ==>
        && k == |r.trace| - 2 && r.trace[0] == Upload(Handle(Ingest, i))
        && FileSections(s, lookup, env.files[i]) == Some(r.trace[k].sections)
        && env.upload(i).Some? && r.trace[k].url == env.upload(i).value.url
        && (r.trace[k].embeddings.Some? <==> s.imageEmbeddings && env.upload(i).value.sasUris != [])
        && r.trace[k].embeddings ==
             (if s.imageEmbeddings && env.upload(i).value.sasUris != [] then env.embed(env.upload(i).value.sasUris) else None)
    // a file with sections has its embeddings created, right after the
    // upload, whenever they are configured and the upload gave URIs
    ensures var r := FileStep(s, env, lookup, i);
      var secs := FileSections(s, lookup, env.files[i]);
      && !IsDescriptorName(env.files[i].name) && secs.Some? && secs.value != []
      && env.upload(i).Some? && s.imageEmbeddings && env.upload(i).value.sasUris != [] ==>
        |r.trace| > 1 && r.trace[1] == CreateEmbeddings(Handle(Ingest, i), env.upload(i).value.sasUris)
  {
    var f := env.files[i];
    var h := Handle(Ingest, i);
    var r := FileStep(s, env, lookup, i);
    if IsDescriptorName(f.name) {
      assert r == Effects([Close(h), Close(h)], Completed);
    } else {
      var secs := FileSections(s, lookup, f);
      if secs.None? {
        assert r == Effects([Close(h)], Raised(i));
      } else if secs.value == [] {
        assert r == Effects([Close(h)], Completed);
      } else {
        assert r == UploadStep(s, env, i, secs.value);
        UploadStepShape(s, env, i, secs.value);
      }
    }
  }

  /** The calls for a file with sections: the upload comes first and only
      there, the close last, embeddings second when requested, and the index
      update second to last. */
  lemma UploadStepShape(s: FileStrategy, env: Environment, i: nat, sections: seq<Section>)
    ensures var r := UploadStep(s, env, i, sections);
      && |r.trace| >= 2 && r.trace[0] == Upload(Handle(Ingest, i))
      && r.trace[|r.trace| - 1] == Close(Handle(Ingest, i))
      && (forall k :: 0 <= k < |r.trace| ==> About(r.trace[k], Handle(Ingest, i)))
      && (r.outcome == Completed || r.outcome == Raised(i))
    ensures var r := UploadStep(s, env, i, sections);
      && (forall k :: 0 <= k < |r.trace| - 1 ==> !r.trace[k].Close?)
      && (forall k :: 0 < k < |r.trace| ==> !r.trace[k].Upload?)
    ensures var r := UploadStep(s, env, i, sections);
      forall k :: 0 <= k < |r.trace| && r.trace[k].CreateEmbeddings? ==>
        && k == 1 && s.imageEmbeddings
        && env.upload(i).Some? && r.trace[k].uris == env.upload(i).value.sasUris != []
    ensures var r := UploadStep(s, env, i, sections);
      forall k :: 0 <= k < |r.trace| && r.trace[k].UpdateContent? ==>
        && k == |r.trace| - 2 && r.trace[k].sections == sections
        && env.upload(i).Some? && r.trace[k].url == env.upload(i).value.url
        && (r.trace[k].embeddings.Some? <==> s.imageEmbeddings && env.upload(i).value.sasUris != [])
        && r.trace[k].embeddings ==
             (if s.imageEmbeddings && env.upload(i).value.sasUris != [] then env.embed(env.upload(i).value.sasUris) else None)
    // embeddings are created, right after the upload, whenever they are
    // configured and the upload gave URIs
    ensures var r := UploadStep(s, env, i, sections);
      env.upload(i).Some? && s.imageEmbeddings && env.upload(i).value.sasUris != [] ==>
        |r.trace| > 1 && r.trace[1] == CreateEmbeddings(Handle(Ingest, i), env.upload(i).value.sasUris)
  {
    var h := Handle(Ingest, i);
    var r := UploadStep(s, env, i, sections);
    match env.upload(i)
    case None =>
      assert r.trace == [Upload(h), Close(h)];
    case Some(u) =>
      if s.imageEmbeddings && u.sasUris != [] {
        match env.embed(u.sasUris)
        case None =>
          assert r.trace == [Upload(h), CreateEmbeddings(h, u.sasUris), Close(h)];
        case Some(v) =>
          assert r.trace == [Upload(h), CreateEmbeddings(h, u.sasUris), UpdateContent(h, sections, Some(v), u.url), Close(h)];
      } else {
        assert r.trace == [Upload(h), UpdateContent(h, sections, None, u.url), Close(h)];
      }
  }

  /** Which failures end the Add run at a file: a raising `parse_file`,
      `upload_blob`, `create_embeddings` (when it is called) or
      `update_content` propagates out of the `try`/`finally`; nothing else
      raises, and the descriptor never does. */
  lemma FileStepRaises(s: FileStrategy, env: Environment, lookup: Lookup, i: nat)
    requires i < |env.files|
    ensures var secs := FileSections(s, lookup, env.files[i]);
      var embeds := env.upload(i).Some? && s.imageEmbeddings && env.upload(i).value.sasUris != [];
      FileStep(s, env, lookup, i).outcome == Raised(i) <==>
        && !IsDescriptorName(env.files[i].name)
        && (|| secs.None?
            || (&& secs.value != []
                && (|| env.upload(i).None?
                    || (embeds && env.embed(env.upload(i).value.sasUris).None?)
                    || ((embeds ==> env.embed(env.upload(i).value.sasUris).Some?) && env.updateRaises(i)))))
  {
    var f := env.files[i];
    if !IsDescriptorName(f.name) {
      var secs := FileSections(s, lookup, f);
      if secs.Some? && secs.value != [] {
        assert FileStep(s, env, lookup, i) == UploadStep(s, env, i, secs.value);
      }
    }
  }

  /** The index is updated for a file exactly when it has sections and
      the upload (and the embeddings, when requested) did not raise. */
  lemma FileStepUpdates(s: FileStrategy, env: Environment, lookup: Lookup, i: nat)
    requires i < |env.files|
    ensures var r := FileStep(s, env, lookup, i);
      var secs := FileSections(s, lookup, env.files[i]);
      (exists k :: 0 <= k < |r.trace| && r.trace[k].UpdateContent?) <==>
        && !IsDescriptorName(env.files[i].name)
        && secs.Some? && secs.value != [] && env.upload(i).Some?
        && (s.imageEmbeddings && env.upload(i).value.sasUris != [] ==> env.embed(env.upload(i).value.sasUris).Some?)
  {
    var r := FileStep(s, env, lookup, i);
    var secs := FileSections(s, lookup, env.files[i]);
    if !IsDescriptorName(env.files[i].name) && secs.Some? && secs.value != [] {
      assert r == UploadStep(s, env, i, secs.value);
      if env.upload(i).Some? &&
         (s.imageEmbeddings && env.upload(i).value.sasUris != [] ==> env.embed(env.upload(i).value.sasUris).Some?) {
        assert r.trace[|r.trace| - 2].UpdateContent?;
      } else {
        assert forall k :: 0 <= k < |r.trace| ==> !r.trace[k].UpdateContent?;
      }
    } else {
      assert forall k :: 0 <= k < |r.trace| ==> !r.trace[k].UpdateContent?;
    }
  }

  /** The steps of the Add loop, one per enumerated file. */
  function FileSteps(s: FileStrategy, env: Environment, lookup: Lookup): (steps: seq<Effects>)
    ensures |steps| == |env.files|
  {
    seq(|env.files|, j requires 0 <= j < |env.files| => FileStep(s, env, lookup, j))
  }

  /** Each file's step raises, if at all, at that file, and only calls about
      that file's handle. */
  lemma FileStepsOwn(s: FileStrategy, env: Environment, lookup: Lookup)
    ensures OwnOutcomes(FileSteps(s, env, lookup))
    ensures OwnHandles(FileSteps(s, env, lookup), Ingest)
  {
    forall j | 0 <= j < |env.files| {
      FileStepShape(s, env, lookup, j);
    }
  }

  /** Seen from one file handle, the Add loop's calls are exactly that file's
      own calls, uninterleaved, for every file up to the first exception, and
      none for the files after it. */
  lemma AddPerFile(s: FileStrategy, env: Environment, lookup: Lookup, h: Handle)
    ensures EventsAbout(Sequence(FileSteps(s, env, lookup), 0).trace, h) ==
        if h.pass == Ingest && h.index < Reached(FileSteps(s, env, lookup), 0)
        then FileStep(s, env, lookup, h.index).trace else []
  {
    FileStepsOwn(s, env, lookup);
    SequencePerHandle(FileSteps(s, env, lookup), Ingest, 0, h);
  }
  /** Every file the Add loop reaches is closed, and a file after an
      exception is never touched. */
  lemma AddClosesReached(s: FileStrategy, env: Environment, lookup: Lookup, j: nat)
    ensures var steps := FileSteps(s, env, lookup);
      j < Reached(steps, 0) ==> Close(Handle(Ingest, j)) in Sequence(steps, 0).trace
    ensures var steps := FileSteps(s, env, lookup);
      j >= Reached(steps, 0) ==> forall e :: e in Sequence(steps, 0).trace ==> !About(e, Handle(Ingest, j))
  {
    var steps := FileSteps(s, env, lookup);
    var h := Handle(Ingest, j);
    AddPerFile(s, env, lookup, h);
    if j < Reached(steps, 0) {
      FileStepShape(s, env, lookup, j);
      var t := FileStep(s, env, lookup, j).trace;
      assert Close(h) in EventsAbout(Sequence(steps, 0).trace, h) by {
        assert t[|t| - 1] == Close(h);
      }
      EventsAboutIn(Sequence(steps, 0).trace, h, Close(h));
    } else {
      forall e | e in Sequence(steps, 0).trace
        ensures !About(e, h)
      {
        EventsAboutIn(Sequence(steps, 0).trace, h, e);
      }
    }
  }

  /** A file named `metadata.json` (in any case) is never parsed into
      sections, uploaded or indexed: its only calls are two closes. */
  lemma AddSkipsDescriptor(s: FileStrategy, env: Environment, lookup: Lookup, j: nat)
    requires j < |env.files| && IsDescriptorName(env.files[j].name)
    ensures var mine := EventsAbout(Sequence(FileSteps(s, env, lookup), 0).trace, Handle(Ingest, j));
      mine == [] || mine == [Close(Handle(Ingest, j)), Close(Handle(Ingest, j))]
  {
    AddPerFile(s, env, lookup, Handle(Ingest, j));
    FileStepShape(s, env, lookup, j);
  }

  /** Everything the Add action does: the lookup (with its own enumeration
      pass) followed by the Add loop over a fresh enumeration. */
  function AddSpec(s: FileStrategy, env: Environment): Effects
  {
    var lk := ResolveLookupAsWritten(env.database, env.files, env.read);
    var a := Sequence(FileSteps(s, env, lk.lookup), 0);
    Effects(lk.trace + a.trace, a.outcome)
  }

  /** The Add action completes exactly when every file's step completes;
      when it raises, it raises at the first file whose step raises. */
  lemma AddOutcome(s: FileStrategy, env: Environment)
    ensures var lookup := ResolveLookupAsWritten(env.database, env.files, env.read).lookup;
      AddSpec(s, env).outcome == Completed <==>
        forall j :: 0 <= j < |env.files| ==> FileStep(s, env, lookup, j).outcome == Completed
    ensures var lookup := ResolveLookupAsWritten(env.database, env.files, env.read).lookup;
      AddSpec(s, env).outcome.Raised? ==>
        var k := AddSpec(s, env).outcome.at;
        && k < |env.files|
        && FileStep(s, env, lookup, k).outcome == Raised(k)
        && forall j :: 0 <= j < k ==> FileStep(s, env, lookup, j).outcome == Completed
  {
    var lookup := ResolveLookupAsWritten(env.database, env.files, env.read).lookup;
    FileStepsOwn(s, env, lookup);
    SequenceOutcome(FileSteps(s, env, lookup), 0);
  }

  /** The body of the Add loop for the `i`-th enumerated file, lines 210-244:
      the calls it makes, and whether it raised. */
  method IngestFile(s: FileStrategy, env: Environment, lookup: Lookup, i: nat)
    returns (events: seq<Event>, raised: bool)
    requires i < |env.files|
    ensures FileStep(s, env, lookup, i) == Effects(events, if raised then Raised(i) else Completed)
  {
    var f := env.files[i];
    var h := Handle(Ingest, i);
    if IsDescriptorName(f.name) {
      // the explicit close before `continue`, then the `finally`
      return [Close(h), Close(h)], false;
    }
    var m := ResolveMetadata(lookup, f.name, s.category);
    var sections := ParseFile(f, s.processors, m.category, m.publicationDate, Some(m.topics));
    if sections.None? {
      events, raised := [], true;
    } else if sections.value == [] {
      events, raised := [], false;
    } else {
      events, raised := IndexSections(s, env, i, sections.value);
      return;
    }
    // the `finally` clause
    events := events + [Close(h)];
  }

  /** Lines 237-244 for a file with sections. */
  method IndexSections(s: FileStrategy, env: Environment, i: nat, sections: seq<Section>)
    returns (events: seq<Event>, raised: bool)
    ensures UploadStep(s, env, i, sections) == Effects(events, if raised then Raised(i) else Completed)
  {
    var h := Handle(Ingest, i);
    events, raised := [Upload(h)], false;
    var uploaded := env.upload(i);
    if uploaded.None? {
      raised := true;
    } else {
      var uris := uploaded.value.sasUris;
      var embeddings: Option<seq<Vector>> := None;
      if s.imageEmbeddings && uris != [] {
        events := events + [CreateEmbeddings(h, uris)];
        var vectors := env.embed(uris);
        if vectors.None? {
          raised := true;
        } else {
          embeddings := vectors;
        }
      }
      if !raised {
        events := events + [UpdateContent(h, sections, embeddings, uploaded.value.url)];
        raised := env.updateRaises(i);
      }
    }
    // the `finally` clause
    events := events + [Close(h)];
  }

  /** The Add branch of `run`, lines 204-244. */
  method RunAdd(s: FileStrategy, env: Environment) returns (trace: seq<Event>, outcome: Outcome)
    ensures Effects(trace, outcome) == AddSpec(s, env)
  {
    var lookup, searchTrace := LoadMetadataLookup(env.database, env.files, env.read);
    ghost var steps := FileSteps(s, env, lookup);
    var ingest: seq<Event> := [];
    outcome := Completed;
    var i := 0;
    while i < |env.files|
      invariant 0 <= i <= |env.files|
      invariant outcome == Completed
      invariant Sequence(steps, 0) == Effects(ingest + Sequence(steps, i).trace, Sequence(steps, i).outcome)
      decreases |env.files| - i
    {
      var events, raised := IngestFile(s, env, lookup, i);
      assert steps[i] == Effects(events, if raised then Raised(i) else Completed);
      SequenceAdvance(steps, i, ingest);
      ingest := ingest + events;
      if raised {
        outcome := Raised(i);
        break;
      }
      i := i + 1;
    }
    trace := searchTrace + ingest;
  }

  // ---------------------------------------------------------------- Remove

  /** Removing every path in `ps`, blob before indexed content for each. */
  function RemovePlan(ps: seq<string>): (r: seq<Event>)
    ensures |r| == 2 * |ps|
  {
    if ps == [] then []
    else [RemoveBlob(Some(ps[0])), RemoveContent(Some(ps[0]), None)] + RemovePlan(ps[1..])
  }

  /** The `k`-th path is the `2k`-th and `2k+1`-th call of the plan. */
  lemma {:induction false} RemovePlanAt(ps: seq<string>, k: nat)
    requires k < |ps|
    ensures RemovePlan(ps)[2 * k] == RemoveBlob(Some(ps[k]))
    ensures RemovePlan(ps)[2 * k + 1] == RemoveContent(Some(ps[k]), None)
  {
    if k > 0 {
      RemovePlanAt(ps[1..], k - 1);
    }
  }

  lemma {:induction false} RemovePlanStep(ps: seq<string>, i: nat, j: nat)
    requires i < j <= |ps|
    ensures RemovePlan(ps[i..j]) == [RemoveBlob(Some(ps[i])), RemoveContent(Some(ps[i]), None)] + RemovePlan(ps[i + 1..j])
  {
    assert ps[i..j][1..] == ps[i + 1..j];
  }

  /** True when removing `p` raises, at either call. */
  predicate RemovalRaises(env: Environment, p: string)
  {
    env.blobRemovalRaises(Some(p)) || env.contentRemovalRaises(Some(p))
  }

  /** The calls of one iteration of the Remove loop, lines 246-249: the blob
      removal, then (unless it raised) the index removal. */
  function RemoveStep(env: Environment, i: nat): Effects
    requires i < |env.paths|
  {
    var p := env.paths[i];
    if env.blobRemovalRaises(Some(p)) then Effects([RemoveBlob(Some(p))], Raised(i))
    else Effects([RemoveBlob(Some(p)), RemoveContent(Some(p), None)],
                 if env.contentRemovalRaises(Some(p)) then Raised(i) else Completed)
  }

  /** The steps of the Remove loop, one per given path. */
  function RemoveSteps(env: Environment): (steps: seq<Effects>)
    ensures |steps| == |env.paths|
  {
    seq(|env.paths|, j requires 0 <= j < |env.paths| => RemoveStep(env, j))
  }

  /** Everything the Remove action does. */
  function RemoveSpec(env: Environment): Effects
  {
    Sequence(RemoveSteps(env), 0)
  }

  /** The Remove loop from the `i`-th path on: it completes exactly when no
      removal raises, and then made both calls for every path in order; when
      a removal raises, every earlier path was fully removed and nothing is
      attempted after the failing call. */
  lemma {:induction false} RemoveShapeFrom(env: Environment, i: nat)
    requires i <= |env.paths|
    ensures var r := Sequence(RemoveSteps(env), i);
      && (r.outcome == Completed <==> forall j :: i <= j < |env.paths| ==> !RemovalRaises(env, env.paths[j]))
      && (r.outcome == Completed ==> r.trace == RemovePlan(env.paths[i..]))
    ensures var r := Sequence(RemoveSteps(env), i);
      r.outcome.Raised? ==>
        var k := r.outcome.at;
        && i <= k < |env.paths|
        && RemovalRaises(env, env.paths[k])
        && (forall j :: i <= j < k ==> !RemovalRaises(env, env.paths[j]))
        && r.trace == RemovePlan(env.paths[i..k]) +
             if env.blobRemovalRaises(Some(env.paths[k])) then [RemoveBlob(Some(env.paths[k]))]
             else [RemoveBlob(Some(env.paths[k])), RemoveContent(Some(env.paths[k]), None)]
    decreases |env.paths| - i
  {
    var steps := RemoveSteps(env);
    if i < |env.paths| {
      var p := env.paths[i];
      assert steps[i] == RemoveStep(env, i);
      if RemovalRaises(env, p) {
        assert env.paths[i..i] == [];
      } else {
        RemoveShapeFrom(env, i + 1);
        var rest := Sequence(steps, i + 1);
        assert Sequence(steps, i) == Effects([RemoveBlob(Some(p)), RemoveContent(Some(p), None)] + rest.trace, rest.outcome);
        if rest.outcome.Raised? {
          RemovePlanStep(env.paths, i, rest.outcome.at);
        } else {
          RemovePlanStep(env.paths, i, |env.paths|);
          assert env.paths[i..] == env.paths[i..|env.paths|];
        }
      }
    }
  }

  /** The Remove branch of `run`, lines 245-249. */
  method RunRemove(env: Environment) returns (trace: seq<Event>, outcome: Outcome)
    ensures Effects(trace, outcome) == RemoveSpec(env)
  {
    ghost var steps := RemoveSteps(env);
    trace, outcome := [], Completed;
    var i := 0;
    while i < |env.paths|
      invariant 0 <= i <= |env.paths|
      invariant outcome == Completed
      invariant Sequence(steps, 0) == Effects(trace + Sequence(steps, i).trace, Sequence(steps, i).outcome)
      decreases |env.paths| - i
    {
      var p := env.paths[i];
      var events := [RemoveBlob(Some(p))];
      var raised := env.blobRemovalRaises(Some(p));
      if !raised {
        events := events + [RemoveContent(Some(p), None)];
        raised := env.contentRemovalRaises(Some(p));
      }
      assert steps[i] == Effects(events, if raised then Raised(i) else Completed);
      SequenceAdvance(steps, i, trace);
      trace := trace + events;
      if raised {
        outcome := Raised(i);
        break;
      }
      i := i + 1;
    }
  }

  // ---------------------------------------------------------------- RemoveAll

  /** The RemoveAll branch: one remove-all on the blob store, then one on the
      index, with no enumeration. */
  function RemoveAllSpec(env: Environment): (r: Effects)
    ensures 0 < |r.trace| <= 2 && r.trace[0] == RemoveBlob(None)
    ensures env.blobRemovalRaises(None) ==> r == Effects([RemoveBlob(None)], Raised(0))
    ensures r.outcome == Completed <==> !env.blobRemovalRaises(None) && !env.contentRemovalRaises(None)
    ensures r.outcome == Completed ==> r.trace == [RemoveBlob(None), RemoveContent(None, None)]
    ensures forall e :: e in r.trace ==> e == RemoveBlob(None) || e == RemoveContent(None, None)
  {
    if env.blobRemovalRaises(None) then Effects([RemoveBlob(None)], Raised(0))
    else Effects([RemoveBlob(None), RemoveContent(None, None)],
                 if env.contentRemovalRaises(None) then Raised(0) else Completed)
  }

  /** The RemoveAll branch of `run`, lines 250-252. */
  method RunRemoveAll(env: Environment) returns (trace: seq<Event>, outcome: Outcome)
    ensures Effects(trace, outcome) == RemoveAllSpec(env)
  {
    trace := [RemoveBlob(None)];
    if env.blobRemovalRaises(None) {
      return trace, Raised(0);
    }
    trace := trace + [RemoveContent(None, None)];
    outcome := if env.contentRemovalRaises(None) then Raised(0) else Completed;
  }

  // ---------------------------------------------------------------- run

  /** `run`, lines 202-252: the configured action alone decides what is done. */
  method Run(s: FileStrategy, env: Environment) returns (trace: seq<Event>, outcome: Outcome)
    ensures s.action == Add ==> Effects(trace, outcome) == AddSpec(s, env)
    ensures s.action == Remove ==> Effects(trace, outcome) == RemoveSpec(env)
    ensures s.action == RemoveAll ==> Effects(trace, outcome) == RemoveAllSpec(env)
  {
    match s.action
    case Add => trace, outcome := RunAdd(s, env);
    case Remove => trace, outcome := RunRemove(env);
    case RemoveAll => trace, outcome := RunRemoveAll(env);
  }
}
