/**
 * `load_metadata_lookup`: the lookup comes from the database when that query
 * succeeds; otherwise from the first enumerated file named `metadata.json`.
 * The search closes every file it passes over, and the descriptor after its
 * content is read. Reading, decoding and `json.loads` are one collaborator,
 * `read`, whose `None` stands for any exception they raise.
 */
module Resolver {
  import opened Base
  import opened Text
  import opened Metadata
  import opened Sections
  import opened Events

  /** Position of the first descriptor file at or after `i`, if any. */
  function FirstDescriptorFrom(files: seq<FileInfo>, i: nat): (r: Option<nat>)
    requires i <= |files|
    ensures r.Some? ==>
      && i <= r.value < |files|
      && IsDescriptorName(files[r.value].name)
      && forall j :: i <= j < r.value ==> !IsDescriptorName(files[j].name)
    ensures r.None? ==> forall j :: i <= j < |files| ==> !IsDescriptorName(files[j].name)
    decreases |files| - i
  {
    if i == |files| then None
    else if IsDescriptorName(files[i].name) then Some(i)
    else FirstDescriptorFrom(files, i + 1)
  }

  /** How many files the search enumerates: up to and including the
      descriptor, or all of them. */
  function Visited(files: seq<FileInfo>): (n: nat)
    ensures n <= |files|
  {
    match FirstDescriptorFrom(files, 0)
    case Some(i) => i + 1
    case None => |files|
  }

  /** The search loop of lines 142-149: stops at the first descriptor file,
      leaving its handle open, and closes every file it passes over. */
  method FindDescriptor(files: seq<FileInfo>) returns (found: Option<nat>, trace: seq<Event>)
    ensures found.Some? ==>
      && found.value < |files|
      && IsDescriptorName(files[found.value].name)
      && forall j :: 0 <= j < found.value ==> !IsDescriptorName(files[j].name)
    ensures found.None? ==> forall j :: 0 <= j < |files| ==> !IsDescriptorName(files[j].name)
    ensures trace == Closes(DescriptorSearch, if found.Some? then found.value else |files|)
  {
    found, trace := None, [];
    var i := 0;
    while i < |files|
      invariant 0 <= i <= |files|
      invariant forall j :: 0 <= j < i ==> !IsDescriptorName(files[j].name)
      invariant trace == Closes(DescriptorSearch, i)
    {
      if IsDescriptorName(files[i].name) {
        found := Some(i);
        return;
      }
      trace := trace + [Close(Handle(DescriptorSearch, i))];
      i := i + 1;
    }
  }

  datatype LookupResult = LookupResult(lookup: Lookup, trace: seq<Event>)

  /** Lines 151-177 as written: `metadata_file.close()` comes after
      `json.loads`, so when reading or parsing raises, the handle is never
      closed and the lookup stays empty. */
  function FinishDescriptorAsWritten(i: nat, parsed: Option<Descriptor>): (r: LookupResult)
    ensures parsed.None? ==> r == LookupResult(map[], [])
    ensures parsed.Some? ==> r == LookupResult(DescriptorLookup(parsed.value), [Close(Handle(DescriptorSearch, i))])
  {
    match parsed
    case None => LookupResult(map[], [])
    case Some(d) => LookupResult(DescriptorLookup(d), [Close(Handle(DescriptorSearch, i))])
  }

  /** Lines 151-177 with the close in a `finally`: the descriptor handle is
      closed whether or not its content parses. */
  function FinishDescriptor(i: nat, parsed: Option<Descriptor>): (r: LookupResult)
    ensures r.trace == [Close(Handle(DescriptorSearch, i))]
    ensures r.lookup == if parsed.Some? then DescriptorLookup(parsed.value) else map[]
  {
    match parsed
    case None => LookupResult(map[], [Close(Handle(DescriptorSearch, i))])
    case Some(d) => LookupResult(DescriptorLookup(d), [Close(Handle(DescriptorSearch, i))])
  }

  /** The lookup and the calls of `load_metadata_lookup`. `database` is the
      outcome of the MSSQL query: `Some` when it returned rows, `None` when
      no connection string is set or the driver, connection or query failed. */
  function ResolveLookup(database: Option<Lookup>, files: seq<FileInfo>, read: Content -> Option<Descriptor>): (r: LookupResult)
    ensures database.Some? ==> r == LookupResult(database.value, [])
    ensures database.None? && FirstDescriptorFrom(files, 0).None? ==> r.lookup == map[]
    ensures database.None? && FirstDescriptorFrom(files, 0).Some? ==>
      var i := FirstDescriptorFrom(files, 0).value;
      r.lookup == if read(files[i].content).Some? then DescriptorLookup(read(files[i].content).value) else map[]
  {
    if database.Some? then LookupResult(database.value, [])
    else
      match FirstDescriptorFrom(files, 0)
      case None => LookupResult(map[], Closes(DescriptorSearch, |files|))
      case Some(i) =>
        var fin := FinishDescriptor(i, read(files[i].content));
        LookupResult(fin.lookup, Closes(DescriptorSearch, i) + fin.trace)
  }

  /** The lookup and the calls of `load_metadata_lookup` as written: like
      `ResolveLookup`, except that a descriptor whose content does not parse
      is left open. */
  function ResolveLookupAsWritten(database: Option<Lookup>, files: seq<FileInfo>, read: Content -> Option<Descriptor>): (r: LookupResult)
    ensures database.Some? ==> r == LookupResult(database.value, [])
    ensures database.None? && FirstDescriptorFrom(files, 0).None? ==> r.lookup == map[]
    ensures database.None? && FirstDescriptorFrom(files, 0).Some? ==>
      var i := FirstDescriptorFrom(files, 0).value;
      r.lookup == if read(files[i].content).Some? then DescriptorLookup(read(files[i].content).value) else map[]
  {
    if database.Some? then LookupResult(database.value, [])
    else
      match FirstDescriptorFrom(files, 0)
      case None => LookupResult(map[], Closes(DescriptorSearch, |files|))
      case Some(i) =>
        var fin := FinishDescriptorAsWritten(i, read(files[i].content));
        LookupResult(fin.lookup, Closes(DescriptorSearch, i) + fin.trace)
  }

  /** As written, a descriptor whose content does not parse is never closed:
      with `metadata.json` first among the files and `read` raising on it,
      no event of the search is about its handle. */
  lemma DescriptorLeakAsWritten(files: seq<FileInfo>, read: Content -> Option<Descriptor>)
    requires |files| > 0 && IsDescriptorName(files[0].name)
    requires read(files[0].content).None?
    ensures EventsAbout(ResolveLookupAsWritten(None, files, read).trace, Handle(DescriptorSearch, 0)) == []
    ensures ResolveLookupAsWritten(None, files, read).lookup == map[]
  {
    assert FirstDescriptorFrom(files, 0) == Some(0);
    assert ResolveLookupAsWritten(None, files, read).trace == [];
  }

  /** As written, without a database result, the search closes every file it
      passes over exactly once; the descriptor it stops at is closed once when
      its content parses and never otherwise; no other handle is touched. */
  lemma {:induction false} ResolveLookupAsWrittenCloses(files: seq<FileInfo>, read: Content -> Option<Descriptor>, h: Handle)
    ensures EventsAbout(ResolveLookupAsWritten(None, files, read).trace, h) ==
      if && h.pass == DescriptorSearch && h.index < Visited(files)
         && !(FirstDescriptorFrom(files, 0) == Some(h.index) && read(files[h.index].content).None?)
      then [Close(h)] else []
  {
    match FirstDescriptorFrom(files, 0)
    case None =>
      ClosesOnce(DescriptorSearch, |files|, h);
    case Some(i) =>
      if read(files[i].content).Some? {
        AsWrittenClosesParsed(files, read, i, h);
      } else {
        AsWrittenClosesUnparsed(files, read, i, h);
      }
  }

  /** `ResolveLookupAsWritten` when the descriptor at `i` parses. */
  lemma AsWrittenClosesParsed(files: seq<FileInfo>, read: Content -> Option<Descriptor>, i: nat, h: Handle)
    requires FirstDescriptorFrom(files, 0) == Some(i) && read(files[i].content).Some?
    ensures EventsAbout(ResolveLookupAsWritten(None, files, read).trace, h) ==
      if h.pass == DescriptorSearch && h.index < i + 1 then [Close(h)] else []
  {
    assert ResolveLookupAsWritten(None, files, read).trace == Closes(DescriptorSearch, i) + [Close(Handle(DescriptorSearch, i))];
    assert Closes(DescriptorSearch, i) + [Close(Handle(DescriptorSearch, i))] == Closes(DescriptorSearch, i + 1);
    ClosesOnce(DescriptorSearch, i + 1, h);
  }

  /** `ResolveLookupAsWritten` when the descriptor at `i` does not parse. */
  lemma AsWrittenClosesUnparsed(files: seq<FileInfo>, read: Content -> Option<Descriptor>, i: nat, h: Handle)
    requires FirstDescriptorFrom(files, 0) == Some(i) && read(files[i].content).None?
    ensures EventsAbout(ResolveLookupAsWritten(None, files, read).trace, h) ==
      if h.pass == DescriptorSearch && h.index < i then [Close(h)] else []
  {
    assert ResolveLookupAsWritten(None, files, read).trace == Closes(DescriptorSearch, i) + [];
    assert Closes(DescriptorSearch, i) + [] == Closes(DescriptorSearch, i);
    ClosesOnce(DescriptorSearch, i, h);
  }

  /** Without a database result, the search closes every file it enumerates
      exactly once (the descriptor included) and touches no other handle. */
  lemma {:induction false} ResolveLookupClosesOnce(files: seq<FileInfo>, read: Content -> Option<Descriptor>, h: Handle)
    ensures EventsAbout(ResolveLookup(None, files, read).trace, h) ==
      if h.pass == DescriptorSearch && h.index < Visited(files) then [Close(h)] else []
  {
    match FirstDescriptorFrom(files, 0)
    case None =>
      ClosesOnce(DescriptorSearch, |files|, h);
    case Some(i) =>
      assert Closes(DescriptorSearch, i) + [Close(Handle(DescriptorSearch, i))] == Closes(DescriptorSearch, i + 1);
      ClosesOnce(DescriptorSearch, i + 1, h);
  }

  /** `load_metadata_lookup`, lines 97-186, as written. */
  method LoadMetadataLookup(database: Option<Lookup>, files: seq<FileInfo>, read: Content -> Option<Descriptor>)
    returns (lookup: Lookup, trace: seq<Event>)
    ensures LookupResult(lookup, trace) == ResolveLookupAsWritten(database, files, read)
  {
    if database.Some? {
      return database.value, [];
    }
    var found;
    found, trace := FindDescriptor(files);
    lookup := map[];
    if found.Some? {
      var i := found.value;
      var parsed := read(files[i].content);
      // an exception from reading or `json.loads` skips the close and is
      // caught at line 183
      if parsed.Some? {
        trace := trace + [Close(Handle(DescriptorSearch, i))];
        lookup := DescriptorLookup(parsed.value);
      }
    }
    assert FirstDescriptorFrom(files, 0) == found;
  }
}
