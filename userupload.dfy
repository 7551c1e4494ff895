/**
 * The strategy behind the user-upload feature: one file that the user has
 * already put into the storage account is parsed and indexed, or one file is
 * removed from the index on behalf of its owner. No blob is uploaded or
 * removed, no file handle is closed and no metadata descriptor is consulted.
 */
module UserUpload {
  import opened Base
  import opened Sections
  import opened Events

  /** The configuration of the user-upload strategy that its two operations
      read: the file processors. Its image embeddings only cause a warning. */
  datatype UserUploadStrategy = UserUploadStrategy(processors: map<string, Processor>)

  /** The handle under which the single uploaded file appears in a trace. */
  const UploadedFile: Handle := Handle(UserUpload, 0)

  /** `add_file`: the file's sections carry no category, date or topic, and are
      indexed (without image embeddings, whatever the configuration) only
      when there are any. `updateRaises` says whether the index update raises. */
  method AddFile(s: UserUploadStrategy, f: FileInfo, updateRaises: bool) returns (trace: seq<Event>, outcome: Outcome)
    // parsing that raises ends the call before any other call
    ensures ParseFile(f, s.processors, None, None, None).None? ==> trace == [] && outcome == Raised(0)
    // the index is updated exactly when the file has sections
    ensures trace != [] <==>
      ParseFile(f, s.processors, None, None, None).Some? && ParseFile(f, s.processors, None, None, None).value != []
    // the only call made is one index update, with the parsed sections, the
    // file's url and no image embeddings
    ensures forall k :: 0 <= k < |trace| ==>
      && k == 0
      && trace[k] == UpdateContent(UploadedFile, ParseFile(f, s.processors, None, None, None).value, None, f.url)
    // the call completes unless parsing, or the update it makes, raises
    ensures outcome == Completed <==> ParseFile(f, s.processors, None, None, None).Some? && (trace == [] || !updateRaises)
    ensures outcome == Completed || outcome == Raised(0)
  {
    var sections := ParseFile(f, s.processors, None, None, None);
    if sections.None? {
      return [], Raised(0);
    }
    trace, outcome := [], Completed;
    if sections.value != [] {
      trace := [UpdateContent(UploadedFile, sections.value, None, f.url)];
      if updateRaises {
        outcome := Raised(0);
      }
    }
  }

  /** Every section a user upload indexes belongs to the uploaded file and
      carries no category, publication date or topic. */
  lemma UploadedSectionsUnstamped(s: UserUploadStrategy, f: FileInfo, k: int)
    requires ParseFile(f, s.processors, None, None, None).Some?
    requires 0 <= k < |ParseFile(f, s.processors, None, None, None).value|
    ensures var sec := ParseFile(f, s.processors, None, None, None).value[k];
      sec.file == f && sec.category.None? && sec.publicationDate.None? && sec.topic.None?
  {
    ParseFileStamps(f, s.processors, None, None, None, k);
  }

  /** `remove_file`: a missing or empty file name removes nothing; any other
      name removes that file's content from the index, for that owner only.
      `removalRaises` says whether that removal raises. */
  method RemoveFile(filename: Option<string>, oid: string, removalRaises: bool) returns (trace: seq<Event>, outcome: Outcome)
    ensures trace == [] <==> filename.None? || filename.value == ""
    ensures forall k :: 0 <= k < |trace| ==> k == 0 && trace[k] == RemoveContent(filename, Some(oid))
    ensures outcome == Raised(0) <==> trace != [] && removalRaises
    ensures outcome == Completed || outcome == Raised(0)
  {
    if filename.None? || filename.value == "" {
      return [], Completed;
    }
    trace := [RemoveContent(filename, Some(oid))];
    outcome := if removalRaises then Raised(0) else Completed;
  }
}
