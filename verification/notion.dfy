/** The part of the hosted store's page representation that the tracker reads
    or writes: a page is an id plus a map from property name to a property
    value whose shape depends on the property's kind. */
module Notion {
  import opened Wrappers

  /** One run of rich text; only its `plain_text` is ever read. */
  datatype Segment = Segment(plainText: string)

  /** A select or status option; only its `name` is ever read. */
  datatype Choice = Choice(name: string)

  /** A date property's value; only its `start` is ever read. */
  datatype DateRange = DateRange(start: string)

  /** An attached file; the tracker only counts them. */
  datatype FileRef = FileRef(name: string)

  /** A property value, tagged by its kind. A `null` select, status, date,
      email or url is `None`; kinds the tracker never reads are `OtherKind`. */
  datatype PropertyValue =
    | Title(segments: seq<Segment>)
    | RichText(segments: seq<Segment>)
    | Select(selected: Option<Choice>)
    | Status(current: Option<Choice>)
    | Date(date: Option<DateRange>)
    | Email(address: Option<string>)
    | Files(files: seq<FileRef>)
    | Url(url: Option<string>)
    | OtherKind

  datatype Page = Page(id: string, properties: map<string, PropertyValue>)

  /** The text of a rich-text list: its runs' plain texts, concatenated. */
  function PlainText(segments: seq<Segment>): (text: string)
    ensures |segments| == 0 ==> text == ""
    ensures |segments| == 1 ==> text == segments[0].plainText
    ensures text == "" <==> forall i :: 0 <= i < |segments| ==> segments[i].plainText == ""
  {
    if |segments| == 0 then "" else segments[0].plainText + PlainText(segments[1..])
  }
}
