/** The labels `renderTimeline` and `renderProjectInfo` in script.js choose,
    as data rather than markup. Locale date formatting is not modelled: a
    timestamp or date is carried as the raw text the API returned. */
module Render {
  import opened Wrappers

  /** One update as the API returns it. */
  datatype Comment = Comment(text: string, timestamp: string)

  /** A timeline list item: an update, or the placeholder
      "No progress updates found.". */
  datatype TimelineItem = Update(date: string, description: string) | NoUpdates

  datatype TimelineView = TimelineView(heading: string, items: seq<TimelineItem>)

  /** The list items: one per comment in the given order, or the single
      placeholder when the comments are missing or empty. */
  function TimelineItems(comments: Option<seq<Comment>>): (items: seq<TimelineItem>)
    ensures |items| >= 1
    ensures NoUpdates in items <==> comments.None? || |comments.value| == 0
    ensures NoUpdates in items ==> items == [NoUpdates]
    ensures NoUpdates !in items ==> |items| == |comments.value|
  {
    if comments.Some? && |comments.value| > 0 then
      var cs := comments.value;
      seq(|cs|, i requires 0 <= i < |cs| => Update(cs[i].timestamp, cs[i].text))
    else [NoUpdates]
  }

  /** Comments are rendered in the order given, never re-sorted: rendering a
      concatenation concatenates the renderings. */
  lemma TimelineKeepsOrder(first: seq<Comment>, second: seq<Comment>)
    requires |first| > 0 && |second| > 0
    ensures TimelineItems(Some(first + second)) == TimelineItems(Some(first)) + TimelineItems(Some(second))
  {
  }

  /** Item `i` shows comment `i`'s text under its timestamp. */
  lemma TimelineItemShowsComment(comments: seq<Comment>, i: int)
    requires 0 <= i < |comments|
    ensures TimelineItems(Some(comments))[i] == Update(comments[i].timestamp, comments[i].text)
  {
  }

  /** The heading line and the items. */
  function Timeline(status: string, comments: Option<seq<Comment>>): TimelineView {
    TimelineView("Current Status: " + status, TimelineItems(comments))
  }

  datatype Document = Document(name: string, url: string)

  /** The fields of the project payload that `renderProjectInfo` reads; a
      missing or `null` field is `None`. */
  datatype ProjectData = ProjectData(
    projectName: string,
    clientName: string,
    email: Option<string>,
    timeline: Option<string>,
    documents: Option<seq<Document>>)

  datatype TimelineStart = NotSet | StartsOn(date: string)

  datatype DocumentsView = NoFilesUploaded | DocumentLinks(links: seq<Document>)

  datatype InfoView = InfoView(
    projectName: string,
    clientName: string,
    contactEmail: string,
    timelineStart: TimelineStart,
    documents: DocumentsView)

  /** JavaScript truthiness of an optional string: present and non-empty. */
  predicate Truthy(s: Option<string>) {
    s.Some? && s.value != ""
  }

  /** The project information block: a falsy email shows 'N/A', a falsy start
      date shows 'Not set', and a missing or empty document list shows
      "No files uploaded". Name and client are shown as given. */
  function ProjectInfo(data: ProjectData): (view: InfoView)
    ensures view.projectName == data.projectName && view.clientName == data.clientName
    ensures view.contactEmail != ""
    ensures view.contactEmail == "N/A" <==> !Truthy(data.email) || data.email.value == "N/A"
    ensures Truthy(data.email) ==> view.contactEmail == data.email.value
    ensures view.timelineStart.NotSet? <==> !Truthy(data.timeline)
    ensures view.timelineStart.StartsOn? ==> Some(view.timelineStart.date) == data.timeline
    ensures view.documents.NoFilesUploaded? <==> data.documents.None? || data.documents == Some([])
    ensures view.documents.DocumentLinks? ==> |view.documents.links| > 0 && Some(view.documents.links) == data.documents
  {
    InfoView(
      data.projectName,
      data.clientName,
      if Truthy(data.email) then data.email.value else "N/A",
      if Truthy(data.timeline) then StartsOn(data.timeline.value) else NotSet,
      if data.documents.Some? && |data.documents.value| > 0 then DocumentLinks(data.documents.value)
      else NoFilesUploaded)
  }

  /** Only truthiness decides a fallback: payloads that differ only in how an
      email or start date is falsy (missing, `null` or ''), or in whether an
      empty document list is present, render the same block. */
  lemma FalsyFieldsRenderAlike(a: ProjectData, b: ProjectData)
    requires a.projectName == b.projectName && a.clientName == b.clientName
    requires !Truthy(a.email) && !Truthy(b.email)
    requires !Truthy(a.timeline) && !Truthy(b.timeline)
    requires a.documents.None? || a.documents == Some([])
    requires b.documents.None? || b.documents == Some([])
    ensures ProjectInfo(a) == ProjectInfo(b)
    ensures ProjectInfo(a) == InfoView(a.projectName, a.clientName, "N/A", NotSet, NoFilesUploaded)
  {
  }
}
