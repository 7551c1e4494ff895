/**
 * `parse_file`: one file is turned into sections by the processor registered
 * for its lower-cased extension. Parser and splitter are collaborators, held
 * as functions; `None` from either stands for an exception it raises.
 */
module Sections {
  import opened Base
  import opened Text

  /** Raw content of a file. */
  type Content = seq<bv8>

  /** A parsed page and a split chunk, as the parser and splitter yield them. */
  datatype Page = Page(pageNum: nat, offset: nat, text: string)
  datatype SplitPage = SplitPage(pageNum: nat, text: string)

  /** A parser and a splitter registered for one file extension. */
  datatype Processor = Processor(parse: Content -> Option<seq<Page>>, split: seq<Page> -> Option<seq<SplitPage>>)

  /** An enumerated file: its name and extension as `filename()` and
      `file_extension()` return them, its content, and its `url`. */
  datatype FileInfo = FileInfo(name: string, extension: string, content: Content, url: Option<string>)

  /** One chunk of the file, stamped with the file's metadata. */
  datatype Section = Section(
    splitPage: SplitPage, file: FileInfo,
    category: Option<string>, publicationDate: Option<string>, topic: Option<seq<string>>)

  /** True when `sections` holds one section per chunk of `chunks`, in the
      same order, each for file `f` and stamped with the same metadata. */
  ghost predicate StampedChunks(sections: seq<Section>, chunks: seq<SplitPage>, f: FileInfo,
                                category: Option<string>, date: Option<string>, topic: Option<seq<string>>)
  {
    && |sections| == |chunks|
    && forall k :: 0 <= k < |sections| ==>
         sections[k] == Section(chunks[k], f, category, date, topic)
  }

  /** The sections of file `f`: `Some([])` when no processor is registered
      for its lower-cased extension, `None` when parser or splitter raises,
      otherwise one section per splitter chunk. */
  function ParseFile(f: FileInfo, processors: map<string, Processor>,
                     category: Option<string>, date: Option<string>, topic: Option<seq<string>>): (r: Option<seq<Section>>)
    ensures Lower(f.extension) !in processors ==> r == Some([])
    ensures Lower(f.extension) in processors ==>
      var p := processors[Lower(f.extension)];
      && (r.Some? <==> p.parse(f.content).Some? && p.split(p.parse(f.content).value).Some?)
      && (r.Some? ==> StampedChunks(r.value, p.split(p.parse(f.content).value).value, f, category, date, topic))
  {
    var key := Lower(f.extension);
    if key !in processors then Some([])
    else
      var p := processors[key];
      match p.parse(f.content)
      case None => None
      case Some(pages) =>
        match p.split(pages)
        case None => None
        case Some(chunks) =>
          Some(seq(|chunks|, k requires 0 <= k < |chunks| => Section(chunks[k], f, category, date, topic)))
  }

  /** Every section `parse_file` returns carries the file and the metadata it
      was given, and a file without a processor gives none. */
  lemma ParseFileStamps(f: FileInfo, processors: map<string, Processor>,
                        category: Option<string>, date: Option<string>, topic: Option<seq<string>>, k: int)
    requires ParseFile(f, processors, category, date, topic).Some?
    requires 0 <= k < |ParseFile(f, processors, category, date, topic).value|
    ensures Lower(f.extension) in processors
    ensures var s := ParseFile(f, processors, category, date, topic).value[k];
      s.file == f && s.category == category && s.publicationDate == date && s.topic == topic
  {
  }
}
