# Document ingestion strategy — a Dafny model

This project models the ingestion orchestration of the document-preparation
backend (`app/backend/prepdocslib/filestrategy.py`). It covers the following:

- `parse_file` turns one file into search sections, using the processor
  registered for its extension.
- `FileStrategy.load_metadata_lookup` builds a per-file metadata lookup. The
  lookup comes from a database, or else from a `metadata.json` descriptor
  found among the enumerated files.
- `FileStrategy.setup` holds the configuration guards.
- `FileStrategy.run` is the Add / Remove / RemoveAll state machine.
  - Add derives each file's category, publication date and topics from the
    lookup. It parses, uploads, embeds and indexes the file, and closes every
    file in a `finally`.
  - Remove removes each listed path from the blob store and then from the
    index.
  - RemoveAll clears both.
- `UploadUserFileStrategy.add_file` and `remove_file` serve the user-upload
  feature.

The collaborators are modelled as function-typed fields of value datatypes:
the parser and splitter, blob manager, search manager, image embeddings and
the JSON decoder. The file lister is modelled as the sequences it yields. A collaborator result of `None`, or a
`...Raises` flag, stands for an exception. The calls with an effect outside
the strategy are recorded, in order, as `Event`s in a trace that the
operations return: `close()` on a file, `upload_blob`, `create_embeddings`,
`update_content`, `remove_blob`, `remove_content`, `create_index` and
`create_analyzer`. Calls that only produce values are not events. These are
`list()`, `list_paths()`, the parser and splitter, and the descriptor read;
they appear as the inputs `files`, `paths`, `processors` and `read`. The
properties are stated about the trace and the outcome: `Completed`, or
`Raised(i)` at the `i`-th file or path.

The Add action is modelled on `load_metadata_lookup` as written, which leaves
an unparsable descriptor open (see "## Findings"). The corrected lookup
loading is `Resolver.ResolveLookup`, which closes it.

A file handle is named by the enumeration pass that yielded it and its
position in that pass. There are two passes: `DescriptorSearch`, the
`list()` call inside the lookup loading, and `Ingest`, the `list()` call of
the Add loop. A third name, `UserUpload`, is for the single file handed to
the user-upload strategy. The Add and Remove loops are both instances of one
combinator, `Events.Sequence`. It runs steps in order and stops at the first
one that raises. Its two lemmas say which step raised and what each handle
sees.

Modules: `Base` (Option), `Text` (lower-casing, `strip`, `split(",")`),
`Metadata`, `Sections` (`parse_file`), `Events`, `Resolver` (lookup loading),
`Ingestion` (`setup`, `run`) and `UserUpload`.

## Model

| member | source | states |
|---|---|---|
| Text.DescriptorNameIgnoresCase | app/backend/prepdocslib/filestrategy.py:144 | a name is the descriptor exactly when it is `metadata.json` with any of its letters in either case, and nothing else |
| Text.Strip | app/backend/prepdocslib/filestrategy.py:226 | `strip()` gives a slice of its input from which only whitespace was cut, and which neither starts nor ends with whitespace |
| Text.StripUnique | app/backend/prepdocslib/filestrategy.py:226 | that description of `strip()` admits exactly one result |
| Text.SplitCommas | app/backend/prepdocslib/filestrategy.py:226 | `split(",")` gives at least one piece; no piece holds a comma; joining the pieces with commas gives back the input |
| Text.SplitCommasCount | app/backend/prepdocslib/filestrategy.py:226 | `split(",")` gives one piece more than there are commas in the string |
| Text.SplitUnique | app/backend/prepdocslib/filestrategy.py:226 | any comma-free pieces are exactly what `split(",")` returns for their comma-join (the split is unique) |
| Metadata.ListLookupSpec | app/backend/prepdocslib/filestrategy.py:166-174 | a name is a key of the list-built lookup iff some record has it as a non-empty `downloaded_filename`; its entry is the last such record's `content_type`, `date` (as publication date) and `topic` |
| Metadata.DescriptorLookup | app/backend/prepdocslib/filestrategy.py:165-177 | a mapping-shaped descriptor is taken unchanged; a list holding a non-object gives an empty lookup (the error is caught); otherwise it is the list-built lookup of `ListLookupSpec`, whose keys are exactly the records' non-empty names |
| Metadata.Topics | app/backend/prepdocslib/filestrategy.py:225-226 | an absent or empty topic string gives no topics; otherwise there is one topic per comma-separated piece, in order, each the strip of its piece (empty pieces kept) |
| Metadata.TopicsExample | app/backend/prepdocslib/filestrategy.py:226 | the topic string `"a, b ,c"` gives `["a", "b", "c"]` |
| Metadata.ResolveMetadata | app/backend/prepdocslib/filestrategy.py:217-226 | a lookup miss gives the default category, no date and no topics; a non-empty `content_type` is the category, an absent or empty one falls back to the default; the date is never `""` and, when present, is the record's; the topics are those of the record's topic string |
| Sections.ParseFile | app/backend/prepdocslib/filestrategy.py:19-41 | with no processor for the lower-cased extension the result is `[]`; otherwise it is defined exactly when parser and splitter do not raise, and then holds one section per splitter chunk, in order, each carrying the file and the given category, date and topics |
| Sections.ParseFileStamps | app/backend/prepdocslib/filestrategy.py:37-40 | every returned section belongs to the file and carries the same category, publication date and topics; a non-empty result implies a registered processor |
| Resolver.FirstDescriptorFrom | app/backend/prepdocslib/filestrategy.py:142-146 | the position found is a descriptor with no descriptor before it; none found means no file is a descriptor |
| Resolver.FindDescriptor | app/backend/prepdocslib/filestrategy.py:139-149 | the loop stops at the first `metadata.json` (any case), leaving it open, and closes every file before it in enumeration order |
| Resolver.FinishDescriptorAsWritten | app/backend/prepdocslib/filestrategy.py:151-184 | as written: when reading or `json.loads` raises, the lookup is empty and the descriptor handle is not closed |
| Resolver.FinishDescriptor | app/backend/prepdocslib/filestrategy.py:151-184 | corrected: the descriptor handle is closed exactly once whether or not its content parses; the lookup is the descriptor's, or empty when it does not parse |
| Resolver.ResolveLookup | app/backend/prepdocslib/filestrategy.py:97-186 | corrected `load_metadata_lookup` (the descriptor is closed whether or not it parses): a database result is used as is, with no file touched; otherwise the lookup is that of the first descriptor file, empty when there is none or it does not parse |
| Resolver.DescriptorLeakAsWritten | app/backend/prepdocslib/filestrategy.py:155-162 | with `metadata.json` first and its content unparsable, the code as written makes no call at all about its handle |
| Resolver.ResolveLookupAsWritten | app/backend/prepdocslib/filestrategy.py:97-186 | `load_metadata_lookup` as written: a database result is used as is, with no file touched; otherwise the lookup is that of the first descriptor file, empty when there is none or it does not parse |
| Resolver.ResolveLookupAsWrittenCloses | app/backend/prepdocslib/filestrategy.py:139-184 | as written, without a database result, each file the search passes over is closed exactly once; the descriptor is closed once when its content parses and never otherwise; no other handle is touched |
| Resolver.ResolveLookupClosesOnce | app/backend/prepdocslib/filestrategy.py:139-162 | corrected: without a database result, each file the search enumerates (the descriptor included) is closed exactly once, and no other handle is touched |
| Resolver.LoadMetadataLookup | app/backend/prepdocslib/filestrategy.py:90-186 | the loop-based method returns exactly the lookup and the calls of `ResolveLookupAsWritten`: the close of the descriptor is skipped when its content does not parse |
| Ingestion.Setup | app/backend/prepdocslib/filestrategy.py:188-200 | the index is created first; with Content Understanding on, a missing endpoint is an error, else a key credential is an error, else the analyzer is created at that endpoint; with it off, only the index is created |
| Ingestion.FileStepShape | app/backend/prepdocslib/filestrategy.py:209-244 | for one file: its last call is its close and every call is about its handle; a descriptor is closed twice and nothing else; any other file is closed once; the upload is made (first) iff there are sections; embeddings are created second exactly when the file has sections, embeddings are configured and the upload gave URIs; an index update comes after the upload, second to last, with the file's sections, the upload's url and exactly the vectors `create_embeddings` returned (none when it was not called) |
| Ingestion.UploadStepShape | app/backend/prepdocslib/filestrategy.py:237-244 | for a file with sections: the upload comes first and only there, the close last and only there, embeddings second whenever, and only when, they are configured and the upload gave URIs, and an index update second to last with the given sections, the upload's url and exactly the vectors `create_embeddings` returned (none when it was not called) |
| Ingestion.FileStepRaises | app/backend/prepdocslib/filestrategy.py:228-244 | a file ends the Add run (fail-fast) exactly when it is not the descriptor and `parse_file` raises, or it has sections and `upload_blob` raises, or `create_embeddings` is called and raises, or `update_content` is reached and raises |
| Ingestion.FileStepUpdates | app/backend/prepdocslib/filestrategy.py:236-241 | the index is updated for a file exactly when it is not the descriptor, has sections, and the upload and (when requested) the embeddings did not raise |
| Ingestion.FileStepsOwn | app/backend/prepdocslib/filestrategy.py:209-244 | each file's step raises, if at all, at that file and makes calls about that file's handle only |
| Ingestion.AddPerFile | app/backend/prepdocslib/filestrategy.py:208-244 | seen from one handle, the Add loop's calls are that file's own calls, uninterleaved, for each file up to the first exception, and none for later files |
| Ingestion.AddClosesReached | app/backend/prepdocslib/filestrategy.py:242-244 | every file the Add loop reaches is closed, on every path; a file after an exception is never touched |
| Ingestion.AddSkipsDescriptor | app/backend/prepdocslib/filestrategy.py:211-214 | a `metadata.json` file is never parsed, uploaded or indexed: its only calls are two closes |
| Ingestion.AddOutcome | app/backend/prepdocslib/filestrategy.py:204-244 | Add completes iff every file's step completes; when it raises, it is at the first file whose step raises |
| Ingestion.IngestFile | app/backend/prepdocslib/filestrategy.py:210-244 | the per-file loop body makes exactly the calls, and raises exactly when, `FileStep` says |
| Ingestion.IndexSections | app/backend/prepdocslib/filestrategy.py:237-244 | the imperative upload, embeddings, index update and `finally` close for a file with sections make exactly the calls, and raise exactly when, `UploadStep` says |
| Ingestion.RunAdd | app/backend/prepdocslib/filestrategy.py:204-244 | the Add loop's calls and outcome are exactly the as-written lookup's calls followed by the file steps run in order up to the first exception |
| Ingestion.RemovePlanAt | app/backend/prepdocslib/filestrategy.py:246-249 | for the `k`-th path, the blob removal comes at position `2k` and the index removal right after it |
| Ingestion.RemoveShapeFrom | app/backend/prepdocslib/filestrategy.py:245-249 | Remove completes iff no removal raises, and then removed blob then content for every path in order; when a removal raises, every earlier path was fully removed and nothing follows the failing call |
| Ingestion.RunRemove | app/backend/prepdocslib/filestrategy.py:245-249 | the Remove loop's calls and outcome are exactly those of the removal steps run in order up to the first exception |
| Ingestion.RemoveAllSpec | app/backend/prepdocslib/filestrategy.py:250-252 | RemoveAll makes one remove-all call on the blob store; when it raises, that is the only call; otherwise one remove-all call on the index follows, and nothing else; it completes iff neither raises |
| Ingestion.RunRemoveAll | app/backend/prepdocslib/filestrategy.py:250-252 | the method makes exactly the calls of `RemoveAllSpec` |
| Ingestion.Run | app/backend/prepdocslib/filestrategy.py:202-252 | the configured action alone selects the Add, Remove or RemoveAll behaviour |
| UserUpload.AddFile | app/backend/prepdocslib/filestrategy.py:283-288 | the file's sections, carrying no category, date or topics, are indexed (without image embeddings) exactly when there are any; no upload and no close; a raising parse makes no call |
| UserUpload.UploadedSectionsUnstamped | app/backend/prepdocslib/filestrategy.py:285-286 | every section of a user upload belongs to the file and carries no category, publication date or topic |
| UserUpload.RemoveFile | app/backend/prepdocslib/filestrategy.py:290-294 | a missing or empty file name removes nothing and completes; any other name makes one index removal for that name and owner, and the call raises exactly when that removal raises |

## Left out

- The MSSQL branch of `load_metadata_lookup` (lines 100-132): the database client is foreign code. Its result is the input `database`. `Some(lookup)` means the query succeeded, with its rows already filtered to rows with a name; a query that returns no rows is `Some(map[])`, since line 126 returns then too, with no descriptor search. `None` means there is no connection string, or the driver, connection or query failed.
- Reading, UTF-8 decoding and `json.loads` of the descriptor (lines 154-161) are the collaborator `read`. Its result is the parsed `Descriptor`, or `None` when any of them raises.
- A descriptor that is a JSON scalar (number, string, `null`, boolean): line 177 makes it the lookup, and the `metadata_lookup.get` at line 217 then raises at the first file that is not a descriptor, so Add aborts there. `Descriptor` has no variant for it, so the model does not capture this abort.
- Listing failures: a `list()` that raises during the descriptor search (caught at line 183), and a `list()` or `list_paths()` that raises during the Add or Remove loop (propagating out of `run`), are not modelled.
- Both `list()` calls of one Add run (lines 139 and 208) are taken to yield the same files, `files`, in the same order.
- JSON values the model does not represent: a `downloaded_filename`, `content_type`, `date` or `topic` that is not a string, and a mapping-shaped descriptor whose values are not objects.
- Text.Lower: `lower()` is modelled on ASCII letters only. This is exact for the comparison with `metadata.json` and for extension keys written in ASCII, but not for other Unicode case mappings.
- `File.filename()` and `File.file_extension()` are the `name` and `extension` fields; their derivation from a path lives in `listfilestrategy.py`, which is not part of this model.
- Aliasing between a file and its sections: each `Section` holds a copy of the file record (`FileInfo`), not a reference to the `File` object. In the source (line 38 with line 237), `upload_blob` sets `url` on the very object the sections hold. In the model the sections passed to `update_content` keep the file's url from before the upload, and the url set by `upload_blob` is seen only through `update_content`'s `url` argument.
- The `if file:` test in the `finally` of the Add loop is taken as always true: a yielded `File` object is always truthy.
- `setup_search_manager` (lines 79-88) only builds a collaborator object; its arguments and the search manager's internals are not modelled. A `create_index` or `create_analyzer` that raises is not modelled either.
- The internals of the blob manager, search manager, image embeddings, Content Understanding describer, parsers and splitters. Embedding vectors stay opaque.
- The `image_embeddings` argument of `parse_file` only logs a warning (lines 35-36), and so do all other logging calls; neither is modelled.
- Async iteration and `await`: the code runs one flow at a time, so it is modelled as sequential loops.
- Constructors: `FileStrategy.__init__` only stores its arguments, and `UploadUserFileStrategy.__init__` also builds its `SearchManager` (with access control on and image search off, lines 272-280). The configuration datatypes `FileStrategy` and `UserUploadStrategy` stand for them; the search manager's configuration is not modelled.

## Findings

| source | as written | input that shows it | evidently intended | confidence | as-written member | corrected member |
|---|---|---|---|---|---|---|
| app/backend/prepdocslib/filestrategy.py:155-162 | `metadata_file.close()` runs only after `json.loads` succeeds; the exception is caught at line 183, so the descriptor handle stays open | no database, `metadata.json` is the first file and its content is not valid JSON | the descriptor is closed whether or not its content parses, as every other file is | not executed | Resolver.DescriptorLeakAsWritten | Resolver.ResolveLookupClosesOnce |
