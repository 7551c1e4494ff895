/**
 * Per-file metadata: the records of the descriptor file (`metadata.json`),
 * the lookup built from them, and the category, publication date and topics
 * that the Add action derives for one file from that lookup.
 */
module Metadata {
  import opened Base
  import opened Text

  /** A lookup entry: the keys `run` reads from it. */
  datatype Record = Record(contentType: Option<string>, publicationDate: Option<string>, topic: Option<string>)

  /** File name to metadata record. */
  type Lookup = map<string, Record>

  /** One element of a list-shaped descriptor: a JSON object, whose absent keys
      read as `None`, or any other JSON value (on which `.get` raises). */
  datatype DescriptorItem =
    | Item(downloadedFilename: Option<string>, contentType: Option<string>, date: Option<string>, topic: Option<string>)
    | NonObject

  /** The parsed descriptor: a JSON array of records, or a JSON object that
      already maps file names to records. */
  datatype Descriptor = RecordList(items: seq<DescriptorItem>) | Mapping(lookup: Lookup)

  /** `item.get("downloaded_filename")` is truthy and equals `name`. */
  predicate NamedAs(item: DescriptorItem, name: string)
  {
    item.Item? && item.downloadedFilename == Some(name) && name != ""
  }

  /** The lookup entry built from one list record: its `date` becomes the
      `publication_date`. */
  function RecordOf(item: DescriptorItem): Record
    requires item.Item?
  {
    Record(item.contentType, item.date, item.topic)
  }

  /** The dictionary comprehension over a list-shaped descriptor, evaluated
      left to right, so a later record with the same name overwrites. */
  function ListLookup(items: seq<DescriptorItem>): Lookup
  {
    if items == [] then map[]
    else
      var last := items[|items| - 1];
      var m := ListLookup(items[..|items| - 1]);
      if last.Item? && last.downloadedFilename.Some? && last.downloadedFilename.value != ""
      then m[last.downloadedFilename.value := RecordOf(last)]
      else m
  }

  /** A name is a key exactly when some record carries it, and its entry comes
      from the last record that carries it. */
  lemma {:induction false} ListLookupSpec(items: seq<DescriptorItem>, name: string)
    ensures name in ListLookup(items) <==> exists i :: 0 <= i < |items| && NamedAs(items[i], name)
    ensures name in ListLookup(items) ==>
      exists i :: 0 <= i < |items| && NamedAs(items[i], name) && ListLookup(items)[name] == RecordOf(items[i]) &&
        forall j :: i < j < |items| ==> !NamedAs(items[j], name)
  {
    if items != [] {
      var n := |items| - 1;
      var front := items[..n];
      ListLookupSpec(front, name);
      assert forall i :: 0 <= i < n ==> items[i] == front[i];
      if NamedAs(items[n], name) {
        assert ListLookup(items)[name] == RecordOf(items[n]);
      } else if name in ListLookup(front) {
        var i :| 0 <= i < n && NamedAs(front[i], name) && ListLookup(front)[name] == RecordOf(front[i]) &&
          forall j :: i < j < n ==> !NamedAs(front[j], name);
        assert NamedAs(items[i], name);
      }
    }
  }

  /** The lookup a parsed descriptor gives: a list is turned into a map (and
      gives an empty lookup when one of its elements is not an object, since
      the error is caught); a mapping is taken as it is. */
  function DescriptorLookup(d: Descriptor): (m: Lookup)
    ensures d.Mapping? ==> m == d.lookup
    ensures d.RecordList? && NonObject in d.items ==> m == map[]
    ensures d.RecordList? && NonObject !in d.items ==>
      forall name :: name in m <==> exists i :: 0 <= i < |d.items| && NamedAs(d.items[i], name)
    ensures d.RecordList? && NonObject !in d.items ==> m == ListLookup(d.items)
  {
    match d
    case Mapping(l) => l
    case RecordList(items) =>
      if NonObject in items then map[]
      else
        var m := ListLookup(items);
        assert forall name :: name in m <==> exists i :: 0 <= i < |items| && NamedAs(items[i], name) by {
          forall name ensures name in m <==> exists i :: 0 <= i < |items| && NamedAs(items[i], name) {
            ListLookupSpec(items, name);
          }
        }
        m
  }

  // ---------------------------------------------------------------- one file

  /** `[t.strip() for t in topic_str.split(",")] if topic_str else []` */
  function Topics(topic: Option<string>): (r: seq<string>)
    ensures topic == None || topic == Some("") ==> r == []
    ensures topic.Some? && topic.value != "" ==>
      var pieces := SplitCommas(topic.value);
      && |r| == |pieces|
      && forall k :: 0 <= k < |r| ==> IsStripOf(pieces[k], r[k])
  {
    if topic.Some? && topic.value != "" then
      var pieces := SplitCommas(topic.value);
      seq(|pieces|, k requires 0 <= k < |pieces| => Strip(pieces[k]))
    else []
  }

  /** `"a, b ,c"` gives the topics `a`, `b`, `c`. */
  lemma SplitExample()
    ensures SplitCommas("a, b ,c") == ["a", " b ", "c"]
  {
    var ps := ["a", " b ", "c"];
    assert JoinCommas(ps[1..]) == " b ,c" by {
      assert ps[1..][1..] == ["c"];
    }
    assert JoinCommas(ps) == "a, b ,c";
    SplitUnique(ps);
  }

  lemma StripExample()
    ensures Strip(" b ") == "b"
  {
    assert LeadingSpace(" b ") == 1 by { assert LeadingSpace("b ") == 0; }
    assert TrailingCut(" b ", 1) == 2 by { assert " b "[..2] == " b"; }
  }

  lemma StripLetter(c: char)
    requires !IsSpace(c)
    ensures Strip([c]) == [c]
  {
    assert LeadingSpace([c]) == 0;
    assert TrailingCut([c], 0) == 1;
  }

  lemma TopicsOfThree(t: string, p0: string, p1: string, p2: string)
    requires t != "" && SplitCommas(t) == [p0, p1, p2]
    ensures Topics(Some(t)) == [Strip(p0), Strip(p1), Strip(p2)]
  {
  }

  lemma TopicsExample(t: string)
    requires t == "a, b ,c"
    ensures Topics(Some(t)) == ["a", "b", "c"]
  {
    SplitExample();
    TopicsOfThree(t, "a", " b ", "c");
    StripThree();
  }

  lemma StripThree()
    ensures [Strip("a"), Strip(" b "), Strip("c")] == ["a", "b", "c"]
  {
    StripExample();
    StripLetter('a');
    StripLetter('c');
  }

  /** Category, publication date and topics derived for one file. */
  datatype FileMetadata = FileMetadata(category: Option<string>, publicationDate: Option<string>, topics: seq<string>)

  /** The metadata the Add action attaches to the file `filename`, given the
      run's lookup and the strategy's default category. */
  function ResolveMetadata(lookup: Lookup, filename: string, default: Option<string>): (m: FileMetadata)
    ensures filename !in lookup ==> m == FileMetadata(default, None, [])
    ensures filename in lookup && lookup[filename].contentType.Some? && lookup[filename].contentType.value != "" ==>
      m.category == lookup[filename].contentType
    ensures filename in lookup && (lookup[filename].contentType == None || lookup[filename].contentType == Some("")) ==>
      m.category == default
    ensures m.publicationDate != Some("")
    ensures m.publicationDate.Some? ==> filename in lookup && lookup[filename].publicationDate == m.publicationDate
    ensures filename in lookup && lookup[filename].publicationDate != Some("") ==>
      m.publicationDate == lookup[filename].publicationDate
    ensures m.topics == if filename in lookup then Topics(lookup[filename].topic) else []
  {
    if filename in lookup then
      var rec := lookup[filename];
      var category := if rec.contentType.Some? && rec.contentType.value != "" then rec.contentType else default;
      var date := if rec.publicationDate == Some("") then None else rec.publicationDate;
      FileMetadata(category, date, Topics(rec.topic))
    else
      FileMetadata(default, None, [])
  }
}
