/** The `cleanData` record built from one page's properties, shared by
    api/get-latest-item.js and api/notion.js. Reading a property the page
    does not have, or indexing a list the property's kind does not carry,
    throws a TypeError in the source; optional chaining and `||` turn every
    other gap into a per-field default. */
module CleanData {
  import opened Wrappers
  import opened Notion

  datatype CleanData = CleanData(
    projectId: string,
    projectName: string,
    description: string,
    clientName: string,
    status: string,
    timeline: Option<string>,
    email: string,
    documentCount: nat)

  /** A TypeError raised while reading the named property. */
  datatype Thrown = TypeError(property: string)

  /** The seven properties the record is built from. */
  const ReadProperties: set<string> :=
    {"Name", "Description", "Client", "Status", "Timeline", "Email", "Documents"}

  /** Exactly the pages that do not make the extraction throw: all seven
      properties present, and the three that are indexed or measured
      (`title[0]`, `rich_text[0]`, `files.length`) of the right kind. */
  predicate WellShaped(properties: map<string, PropertyValue>) {
    && ReadProperties <= properties.Keys
    && properties["Name"].Title?
    && properties["Description"].RichText?
    && properties["Documents"].Files?
  }

  /** `props.<key>`, where going on to read a field of `undefined` throws. */
  function Read(properties: map<string, PropertyValue>, key: string): Result<PropertyValue, Thrown> {
    if key in properties then Success(properties[key]) else Failure(TypeError(key))
  }

  /** `v.title` or `v.rich_text` about to be indexed: the wrong kind throws. */
  function TextList(key: string, v: PropertyValue, wantTitle: bool): Result<seq<Segment>, Thrown> {
    if wantTitle && v.Title? then Success(v.segments)
    else if !wantTitle && v.RichText? then Success(v.segments)
    else Failure(TypeError(key))
  }

  /** `v.files` about to be measured: the wrong kind throws. */
  function FileList(key: string, v: PropertyValue): Result<seq<FileRef>, Thrown> {
    if v.Files? then Success(v.files) else Failure(TypeError(key))
  }

  /** `list[0]?.plain_text`. */
  function FirstText(segments: seq<Segment>): Option<string> {
    if |segments| > 0 then Some(segments[0].plainText) else None
  }

  /** `v.select?.name`: undefined unless `v` is a select with an option. */
  function SelectName(v: PropertyValue): Option<string> {
    if v.Select? && v.selected.Some? then Some(v.selected.value.name) else None
  }

  /** `v.status?.name`: undefined unless `v` is a status with a value. */
  function StatusName(v: PropertyValue): Option<string> {
    if v.Status? && v.current.Some? then Some(v.current.value.name) else None
  }

  /** `v.date?.start`: undefined unless `v` is a date with a value. */
  function DateStart(v: PropertyValue): Option<string> {
    if v.Date? && v.date.Some? then Some(v.date.value.start) else None
  }

  /** `v.email`: undefined or null unless `v` is an email with an address. */
  function EmailAddress(v: PropertyValue): Option<string> {
    if v.Email? then v.address else None
  }

  /** `text || fallback` for a string that may be undefined: the empty
      string is falsy too. */
  function Or(text: Option<string>, fallback: string): string {
    if text.Some? && text.value != "" then text.value else fallback
  }

  /** The cleanData record, or the TypeError of the first property (in the
      order the fields are written) that makes reading throw. Every string
      field that has a non-empty default is non-empty, and a timeline, when
      present, is a non-empty date. */
  function Normalize(page: Page): (r: Result<CleanData, Thrown>)
    ensures r.Success? <==> WellShaped(page.properties)
    ensures r.Failure? ==> r.error.property in ReadProperties
    ensures r.Success? ==> r.value.projectId == page.id
    ensures r.Success? ==> r.value.documentCount == |page.properties["Documents"].files|
    ensures r.Success? ==> r.value.projectName != "" && r.value.clientName != "" && r.value.status != ""
    ensures r.Success? && r.value.timeline.Some? ==> r.value.timeline.value != ""
  {
    var props := page.properties;
    var name :- Read(props, "Name");
    var title :- TextList("Name", name, true);
    var description :- Read(props, "Description");
    var text :- TextList("Description", description, false);
    var client :- Read(props, "Client");
    var status :- Read(props, "Status");
    var timeline :- Read(props, "Timeline");
    var email :- Read(props, "Email");
    var documents :- Read(props, "Documents");
    var files :- FileList("Documents", documents);
    Success(CleanData(
      page.id,
      Or(FirstText(title), "Untitled"),
      Or(FirstText(text), ""),
      Or(SelectName(client), "N/A"),
      Or(StatusName(status), "Backlog"),
      if Or(DateStart(timeline), "") != "" then Some(DateStart(timeline).value) else None,
      Or(EmailAddress(email), ""),
      |files|))
  }

  /** A page missing any one of the seven properties yields no record at all. */
  lemma MissingPropertyThrows(page: Page, key: string)
    requires key in ReadProperties && key !in page.properties
    ensures Normalize(page).Failure?
  {
  }

  /** projectName is the first title run's text when that is non-empty, and
      'Untitled' when the title is empty or its first run has no text. */
  lemma ProjectNameField(page: Page)
    requires WellShaped(page.properties)
    ensures var title := page.properties["Name"].segments;
      Normalize(page).value.projectName ==
        if |title| > 0 && title[0].plainText != "" then title[0].plainText else "Untitled"
  {
  }

  /** Runs after the first in the title are ignored. */
  lemma LaterTitleRunsIgnored(page: Page, more: seq<Segment>)
    requires WellShaped(page.properties) && |page.properties["Name"].segments| > 0
    ensures var longer := page.(properties := page.properties["Name" := Title(page.properties["Name"].segments + more)]);
      Normalize(longer) == Normalize(page)
  {
    var title := page.properties["Name"].segments;
    assert (title + more)[0] == title[0];
  }

  /** description is the first rich-text run's text, or ''. */
  lemma DescriptionField(page: Page)
    requires WellShaped(page.properties)
    ensures var text := page.properties["Description"].segments;
      Normalize(page).value.description == if |text| > 0 then text[0].plainText else ""
  {
  }

  /** clientName is the selected option's name, or 'N/A' when the property is
      not a select, nothing is selected, or the name is empty; a Client of
      another kind does not throw. */
  lemma ClientNameField(page: Page)
    requires WellShaped(page.properties)
    ensures var client := page.properties["Client"];
      Normalize(page).value.clientName ==
        if client.Select? && client.selected.Some? && client.selected.value.name != ""
        then client.selected.value.name else "N/A"
  {
  }

  /** status is the status value's name, or 'Backlog'. */
  lemma StatusField(page: Page)
    requires WellShaped(page.properties)
    ensures var status := page.properties["Status"];
      Normalize(page).value.status ==
        if status.Status? && status.current.Some? && status.current.value.name != ""
        then status.current.value.name else "Backlog"
  {
  }

  /** timeline is the date's start, or null; email is the address, or ''. */
  lemma TimelineAndEmailFields(page: Page)
    requires WellShaped(page.properties)
    ensures var timeline := page.properties["Timeline"];
      Normalize(page).value.timeline ==
        if timeline.Date? && timeline.date.Some? && timeline.date.value.start != ""
        then Some(timeline.date.value.start) else None
    ensures var email := page.properties["Email"];
      Normalize(page).value.email == if email.Email? && email.address.Some? then email.address.value else ""
  {
  }

  /** Only the page id and the seven read properties matter. */
  lemma OnlyReadPropertiesMatter(a: Page, b: Page)
    requires a.id == b.id
    requires forall k :: k in ReadProperties ==>
      (k in a.properties <==> k in b.properties) && (k in a.properties ==> a.properties[k] == b.properties[k])
    ensures Normalize(a) == Normalize(b)
  {
  }
}
