/** The record normalisers: `extract_release_data` turns a Dev Releases page into
    {title, description, date, status}, `extract_task_data` a Development Tasks
    page into {title, description, date, priority}. Every structural error inside
    the script's `try` blocks degrades to a default; the lookups outside them
    (`page['properties']`, `props[name].get(...)`, `page['id']`) raise. */
module Records {
  import opened PyJson
  import opened Text

  /** The dict `extract_release_data` returns. The script does not check the types
      of the values it copies out of the page, so the fields are JSON values. */
  datatype Release = Release(title: Json, description: Json, date: Json, status: Json)

  /** The dict `extract_task_data` returns. */
  datatype Task = Task(title: Json, description: Json, date: Json, priority: Json)

  const Untitled := JStr("Untitled")
  const Blank := JStr("")

  /** `except (KeyError, IndexError, TypeError)` around a first-fragment lookup. */
  const FragmentErrors: set<Exc> := {KeyError, IndexError, TypeError}

  /** `except (KeyError, TypeError)` around a nested lookup. */
  const NestedErrors: set<Exc> := {KeyError, TypeError}

  /** `f"{prefix}{page['id'][-8:]}"`. A non-string id is treated as an error. */
  function IdTag(page: Json, prefix: string): (r: Py<Json>)
    ensures r.Ok? <==> Path(page, ["id"]).Some? && Path(page, ["id"]).value.JStr?
    ensures r.Ok? ==> r.value.JStr? && r.value.s == prefix + LastEight(Path(page, ["id"]).value.s)
    ensures page.JObj? && Path(page, ["id"]).None? ==> r == Raise(KeyError)
    ensures Path(page, ["id"]).Some? && !Path(page, ["id"]).value.JStr? ==> r == Raise(TypeError)
  {
    OneStep(page, "id");
    var id :- Lookup(page, "id");
    if id.JStr? then Ok(JStr(prefix + LastEight(id.s))) else Raise(TypeError)
  }

  /** `list[0]['text']['content']`. */
  function FragmentContent(list: Json): Py<Json> {
    var first :- Index0(list);
    var text :- Lookup(first, "text");
    Lookup(text, "content")
  }

  /** The guarded first-fragment read used for 'Event Name' and 'Description':
      if `name in props and props[name].get(field)` then, inside a try that
      catches FragmentErrors with `handler`, the content of the first fragment
      when `len(props[name][field]) > 0`; `default` otherwise. */
  function FirstFragmentField(props: Json, name: string, field: string, default: Json, handler: Py<Json>): (r: Py<Json>)
    ensures r.Raise? ==> r.exc in {TypeError, AttributeError} || r == handler
  {
    var present :- Contains(name, props);
    if !present then Ok(default)
    else
      var prop :- Lookup(props, name);
      var list :- Get(prop, field);
      if !Truthy(list) then Ok(default)
      else
        // props[name][field] is `list`: `get` found the key
        var attempt: Py<Json> :=
          var n :- Len(list);
          if n > 0 then FragmentContent(list) else Ok(default);
        Catch(attempt, FragmentErrors, handler)
  }

  /** The guarded nested read used for dates, statuses and priorities: if
      `name in props and props[name].get(field)` then `props[name][field][leaf]`
      inside a try that catches NestedErrors with "", and "" otherwise. */
  function NestedField(props: Json, name: string, field: string, leaf: string): (r: Py<Json>)
    ensures r.Raise? ==> r.exc in {TypeError, AttributeError}
  {
    var present :- Contains(name, props);
    if !present then Ok(Blank)
    else
      var prop :- Lookup(props, name);
      var value :- Get(prop, field);
      if !Truthy(value) then Ok(Blank)
      else Catch(Lookup(value, leaf), NestedErrors, Ok(Blank))
  }

  /** `extract_release_data(page)`. */
  function ReleaseRecord(page: Json): (r: Py<Release>)
    ensures r.Raise? ==> r.exc in {KeyError, TypeError, AttributeError}
  {
    var props :- Lookup(page, "properties");
    var title :- FirstFragmentField(props, "Event Name", "title", Untitled, IdTag(page, "Event "));
    var description :- FirstFragmentField(props, "Description", "rich_text", Blank, Ok(Blank));
    var date :- NestedField(props, "Date", "date", "start");
    var status :- NestedField(props, "Status", "status", "name");
    Ok(Release(title, description, date, status))
  }

  /** The value of `title` after the scan of `properties.items()` in
      `extract_task_data`, starting from "Untitled": the first property whose
      `type` is "title" and whose `title` is truthy with a positive length gives
      it (through a try that catches FragmentErrors with `handler`) and ends the
      scan. */
  function TitleScan(entries: seq<(string, Json)>, handler: Py<Json>): (r: Py<Json>)
    ensures r.Raise? ==> r.exc in {TypeError, AttributeError} || r == handler
  {
    if entries == [] then Ok(Untitled)
    else
      var data := entries[0].1;
      var kind :- Get(data, "type");
      if kind != JStr("title") then TitleScan(entries[1..], handler)
      else
        var list :- Get(data, "title");
        if !Truthy(list) then TitleScan(entries[1..], handler)
        else
          var n :- Len(list);
          if n > 0 then Catch(FragmentContent(list), FragmentErrors, handler)
          else TitleScan(entries[1..], handler)
  }

  /** `extract_task_data(page)`. The guard `'properties' in page` always holds
      once `page['properties']` has been read, so the scan always runs. */
  function TaskRecord(page: Json): (r: Py<Task>)
    ensures r.Raise? ==> r.exc in {KeyError, TypeError, AttributeError}
  {
    var props :- Lookup(page, "properties");
    var entries :- Items(props);
    var scanned :- TitleScan(entries, IdTag(page, "Task "));
    var title :- if scanned == Untitled then IdTag(page, "Task ") else Ok(scanned);
    var description :- FirstFragmentField(props, "Description", "rich_text", Blank, Ok(Blank));
    var date :- NestedField(props, "Done Date", "date", "start");
    var priority :- NestedField(props, "Priority", "select", "name");
    Ok(Task(title, description, date, priority))
  }

  /** `extract_task_data(page)`, as the script runs it: the scan over the
      properties is a loop that stops at the first usable title property. */
  method ExtractTaskData(page: Json) returns (r: Py<Task>)
    ensures r == TaskRecord(page)
  {
    var props := Lookup(page, "properties");
    if props.Raise? {
      return Raise(props.exc);
    }
    var items := Items(props.value);
    if items.Raise? {
      return Raise(items.exc);
    }
    var entries := items.value;
    var tag := IdTag(page, "Task ");
    var title: Py<Json> := Ok(Untitled);
    var i := 0;
    while i < |entries|
      invariant 0 <= i <= |entries|
      invariant title == Ok(Untitled)
      invariant TitleScan(entries, tag) == TitleScan(entries[i..], tag)
    {
      var data := entries[i].1;
      var kind := Get(data, "type");
      if kind.Raise? {
        return Raise(kind.exc);
      }
      if kind.value == JStr("title") {
        var list := Get(data, "title").value;
        if Truthy(list) {
          var n := Len(list);
          if n.Raise? {
            return Raise(n.exc);
          }
          if n.value > 0 {
            title := Catch(FragmentContent(list), FragmentErrors, tag);
            break;
          }
        }
      }
      assert entries[i..][1..] == entries[i + 1..];
      i := i + 1;
    }
    assert title == TitleScan(entries, tag);
    if title.Raise? {
      return Raise(title.exc);
    }
    var t := title.value;
    if t == Untitled {
      if tag.Raise? {
        return Raise(tag.exc);
      }
      t := tag.value;
    }
    var description := FirstFragmentField(props.value, "Description", "rich_text", Blank, Ok(Blank));
    if description.Raise? {
      return Raise(description.exc);
    }
    var date := NestedField(props.value, "Done Date", "date", "start");
    if date.Raise? {
      return Raise(date.exc);
    }
    var priority := NestedField(props.value, "Priority", "select", "name");
    if priority.Raise? {
      return Raise(priority.exc);
    }
    r := Ok(Task(t, description.value, date.value, priority.value));
  }

  // ---------------------------------------------------------------------------
  // What the normalisers return, stated through `Path` and `FirstContent`.

  /** The Notion content of the first fragment of the list at `path`, if any. */
  function FirstContentAt(page: Json, path: seq<string>): Option<Json> {
    var list := Path(page, path);
    if list.Some? then FirstContent(list.value) else None
  }

  /** The shape the Notion API gives a page: a string id, and a dict of
      properties each of which is a dict whose `title`, when present, is a list. */
  predicate NotionPage(page: Json) {
    && Path(page, ["id"]).Some? && Path(page, ["id"]).value.JStr?
    && Path(page, ["properties"]).Some? && Path(page, ["properties"]).value.JObj?
    && var fields := Path(page, ["properties"]).value.fields;
       forall k :: 0 <= k < |fields| ==> NotionProperty(fields[k].1)
  }

  predicate NotionProperty(prop: Json) {
    prop.JObj? && (Path(prop, ["title"]).Some? ==> Path(prop, ["title"]).value.JArr?)
  }

  /** A title property in Notion's sense: `type` "title" and a non-empty `title` list. */
  predicate IsTitleProperty(prop: Json) {
    Path(prop, ["type"]) == Some(JStr("title")) && Path(prop, ["title"]).Some?
    && Path(prop, ["title"]).value.JArr? && Path(prop, ["title"]).value.items != []
  }

  /** The try around a first-fragment read: for a truthy list, the read gives the
      well-formed first fragment's content, and fails only with a caught error. */
  lemma FragmentRead(list: Json, default: Json)
    requires Truthy(list)
    ensures var attempt: Py<Json> := (var n :- Len(list); if n > 0 then FragmentContent(list) else Ok(default));
      && (attempt.Raise? ==> attempt.exc in FragmentErrors)
      && (attempt.Ok? <==> FirstContent(list).Some?)
      && (attempt.Ok? ==> attempt.value == FirstContent(list).value)
  {
    if list.JArr? {
      var first := list.items[0];
      TwoSteps(first, "text", "content");
      match Lookup(first, "text")
      case Ok(text) => OneStep(text, "content");
      case Raise(_) =>
    }
  }

  /** The guarded first-fragment read reports the Notion content of the first
      fragment, the default when the list is missing or empty, and the handler
      when the list is there but malformed. */
  lemma FirstFragmentFieldValue(props: Json, name: string, field: string, default: Json, handler: Py<Json>)
    requires FirstFragmentField(props, name, field, default, handler).Ok?
    ensures var r := FirstFragmentField(props, name, field, default, handler).value;
      var list := Path(props, [name, field]);
      if list.None? || !Truthy(list.value) then r == default
      else if FirstContent(list.value).Some? then r == FirstContent(list.value).value
      else handler == Ok(r)
  {
    TwoSteps(props, name, field);
    match Lookup(props, name)
    case Ok(prop) =>
      OneStep(prop, field);
      var list := Get(prop, field).value;
      if Truthy(list) {
        FragmentRead(list, default);
      }
    case Raise(_) =>
  }

  /** The guarded nested read reports the value at the path, or "". */
  lemma NestedFieldValue(props: Json, name: string, field: string, leaf: string)
    requires NestedField(props, name, field, leaf).Ok?
    ensures NestedField(props, name, field, leaf).value == Path(props, [name, field, leaf]).GetOr(Blank)
  {
    ThreeSteps(props, name, field, leaf);
    match Lookup(props, name)
    case Ok(prop) =>
      TwoSteps(prop, field, leaf);
      match Lookup(prop, field) {
        case Ok(value) => OneStep(value, leaf);
        case Raise(_) =>
      }
    case Raise(_) =>
  }

  /** The release title is "Untitled" when 'Event Name' or its title list is
      missing or falsy, the content of the first title fragment when that is well
      formed, and "Event " + id[-8:] when it is not; never anything else. */
  lemma ReleaseTitle(page: Json)
    requires ReleaseRecord(page).Ok?
    ensures var title := ReleaseRecord(page).value.title;
      var list := Path(page, ["properties", "Event Name", "title"]);
      if list.None? || !Truthy(list.value) then title == Untitled
      else if FirstContent(list.value).Some? then title == FirstContent(list.value).value
      else IdTag(page, "Event ") == Ok(title)
  {
    var props := Lookup(page, "properties").value;
    ThreeSteps(page, "properties", "Event Name", "title");
    OneStep(page, "id");
    FirstFragmentFieldValue(props, "Event Name", "title", Untitled, IdTag(page, "Event "));
  }

  /** The release description is the content of the first 'Description'
      fragment only, and "" when it is missing, empty or malformed; the date and
      status are `Date.date.start` and `Status.status.name`, or "". */
  lemma ReleaseFields(page: Json)
    requires ReleaseRecord(page).Ok?
    ensures var r := ReleaseRecord(page).value;
      && r.description == FirstContentAt(page, ["properties", "Description", "rich_text"]).GetOr(Blank)
      && r.date == Path(page, ["properties", "Date", "date", "start"]).GetOr(Blank)
      && r.status == Path(page, ["properties", "Status", "status", "name"]).GetOr(Blank)
  {
    var props := Lookup(page, "properties").value;
    ThreeSteps(page, "properties", "Description", "rich_text");
    FourSteps(page, "properties", "Date", "date", "start");
    FourSteps(page, "properties", "Status", "status", "name");
    FirstFragmentFieldValue(props, "Description", "rich_text", Blank, Ok(Blank));
    NestedFieldValue(props, "Date", "date", "start");
    NestedFieldValue(props, "Status", "status", "name");
  }

  /** On a page of the shape Notion produces, the guarded first-fragment read of
      one property does not raise. */
  lemma NotionFragmentRead(page: Json, name: string, field: string, default: Json, handler: Py<Json>)
    requires NotionPage(page) && handler.Ok?
    ensures FirstFragmentField(Path(page, ["properties"]).value, name, field, default, handler).Ok?
  {
    var props := Path(page, ["properties"]).value;
    var i := KeyIndex(props.fields, name);
    if i < |props.fields| {
      assert NotionProperty(props.fields[i].1);
      var list := Get(props.fields[i].1, field).value;
      if Truthy(list) {
        FragmentRead(list, default);
      }
    }
  }

  /** On a page of the shape Notion produces, the guarded nested read of one
      property does not raise. */
  lemma NotionNestedRead(page: Json, name: string, field: string, leaf: string)
    requires NotionPage(page)
    ensures NestedField(Path(page, ["properties"]).value, name, field, leaf).Ok?
  {
    var props := Path(page, ["properties"]).value;
    var i := KeyIndex(props.fields, name);
    if i < |props.fields| {
      assert NotionProperty(props.fields[i].1);
    }
  }

  /** Release normalisation does not fail on a page of Notion's shape, however
      malformed its fragments and nested values are. */
  lemma ReleaseNeverRaises(page: Json)
    requires NotionPage(page)
    ensures ReleaseRecord(page).Ok?
  {
    OneStep(page, "properties");
    OneStep(page, "id");
    NotionFragmentRead(page, "Event Name", "title", Untitled, IdTag(page, "Event "));
    NotionFragmentRead(page, "Description", "rich_text", Blank, Ok(Blank));
    NotionNestedRead(page, "Date", "date", "start");
    NotionNestedRead(page, "Status", "status", "name");
  }

  /** A property of Notion's shape that is not a title property lets the scan go on. */
  lemma ScanSkips(entries: seq<(string, Json)>, handler: Py<Json>)
    requires entries != [] && NotionProperty(entries[0].1) && !IsTitleProperty(entries[0].1)
    ensures TitleScan(entries, handler) == TitleScan(entries[1..], handler)
  {
    OneStep(entries[0].1, "type");
    OneStep(entries[0].1, "title");
  }

  /** When the properties up to the first title property have Notion's shape, the
      scan ends at that property, with the content of its first fragment when that
      is well formed and with the handler otherwise; title-typed properties with
      empty lists do not stop it, and nothing after it is read. */
  lemma {:induction false} ScanFindsFirst(entries: seq<(string, Json)>, handler: Py<Json>, i: nat)
    requires i < |entries|
    requires forall k :: 0 <= k <= i ==> NotionProperty(entries[k].1)
    requires IsTitleProperty(entries[i].1)
    requires forall j :: 0 <= j < i ==> !IsTitleProperty(entries[j].1)
    ensures var c := FirstContent(Path(entries[i].1, ["title"]).value);
      TitleScan(entries, handler) == if c.Some? then Ok(c.value) else handler
  {
    if i == 0 {
      var d := entries[0].1;
      OneStep(d, "type");
      OneStep(d, "title");
      FragmentRead(Lookup(d, "title").value, Untitled);
    } else {
      ScanSkips(entries, handler);
      assert forall k :: 0 <= k <= i - 1 ==> entries[1..][k] == entries[k + 1];
      ScanFindsFirst(entries[1..], handler, i - 1);
    }
  }

  /** The `break`: once the scan reaches a title property, whatever follows the
      properties read so far makes no difference, be it malformed or not. */
  lemma ScanIgnoresLater(entries: seq<(string, Json)>, later: seq<(string, Json)>, handler: Py<Json>, i: nat)
    requires i < |entries|
    requires forall k :: 0 <= k <= i ==> NotionProperty(entries[k].1)
    requires IsTitleProperty(entries[i].1)
    requires forall j :: 0 <= j < i ==> !IsTitleProperty(entries[j].1)
    ensures TitleScan(entries + later, handler) == TitleScan(entries, handler)
  {
    var all := entries + later;
    assert forall k :: 0 <= k <= i ==> all[k] == entries[k];
    ScanFindsFirst(entries, handler, i);
    ScanFindsFirst(all, handler, i);
  }

  /** Without a title property the scan leaves the title "Untitled". */
  lemma {:induction false} ScanFindsNone(entries: seq<(string, Json)>, handler: Py<Json>)
    requires forall k :: 0 <= k < |entries| ==> NotionProperty(entries[k].1)
    requires forall j :: 0 <= j < |entries| ==> !IsTitleProperty(entries[j].1)
    ensures TitleScan(entries, handler) == Ok(Untitled)
  {
    if entries != [] {
      ScanSkips(entries, handler);
      ScanFindsNone(entries[1..], handler);
    }
  }

  /** On Notion-shaped properties the scan does not raise. */
  lemma {:induction false} ScanNeverRaises(entries: seq<(string, Json)>, handler: Py<Json>)
    requires handler.Ok?
    requires forall k :: 0 <= k < |entries| ==> NotionProperty(entries[k].1)
    ensures TitleScan(entries, handler).Ok?
  {
    if entries != [] {
      if IsTitleProperty(entries[0].1) {
        ScanFindsFirst(entries, handler, 0);
      } else {
        ScanSkips(entries, handler);
        ScanNeverRaises(entries[1..], handler);
      }
    }
  }

  /** Task normalisation does not fail on a page of Notion's shape. */
  lemma TaskNeverRaises(page: Json)
    requires NotionPage(page)
    ensures TaskRecord(page).Ok?
  {
    OneStep(page, "properties");
    OneStep(page, "id");
    var props := Path(page, ["properties"]).value;
    assert Lookup(page, "properties") == Ok(props);
    assert Items(props) == Ok(props.fields);
    var tag := IdTag(page, "Task ");
    assert tag.Ok?;
    ScanNeverRaises(props.fields, tag);
    NotionFragmentRead(page, "Description", "rich_text", Blank, Ok(Blank));
    NotionNestedRead(page, "Done Date", "date", "start");
    NotionNestedRead(page, "Priority", "select", "name");
  }

  /** Where each field of a task comes from, in terms of the steps of the normaliser. */
  lemma TaskSteps(page: Json)
    requires TaskRecord(page).Ok?
    ensures Lookup(page, "properties").Ok? && Items(Lookup(page, "properties").value).Ok?
    ensures var scanned := TitleScan(Items(Lookup(page, "properties").value).value, IdTag(page, "Task "));
      scanned.Ok? && (scanned.value == Untitled ==> IdTag(page, "Task ").Ok?) &&
      TaskRecord(page).value.title == if scanned.value == Untitled then IdTag(page, "Task ").value else scanned.value
    ensures var props, r := Lookup(page, "properties").value, TaskRecord(page).value;
      && FirstFragmentField(props, "Description", "rich_text", Blank, Ok(Blank)) == Ok(r.description)
      && NestedField(props, "Done Date", "date", "start") == Ok(r.date)
      && NestedField(props, "Priority", "select", "name") == Ok(r.priority)
  {
  }

  /** The task title comes from the first property, in iteration order, whose
      type is "title" and whose title list is non-empty: the content of its
      first fragment, or "Task " + id[-8:] when that fragment is malformed or
      its content is literally "Untitled". The properties after it are never read,
      so neither later title properties nor malformed ones matter. */
  lemma TaskTitleFromTitleProperty(page: Json, i: nat)
    requires TaskRecord(page).Ok?
    requires Path(page, ["properties"]).Some? && Path(page, ["properties"]).value.JObj?
    requires i < |Path(page, ["properties"]).value.fields|
    requires forall k :: 0 <= k <= i ==> NotionProperty(Path(page, ["properties"]).value.fields[k].1)
    requires IsTitleProperty(Path(page, ["properties"]).value.fields[i].1)
    requires forall j :: 0 <= j < i ==> !IsTitleProperty(Path(page, ["properties"]).value.fields[j].1)
    ensures var c := FirstContent(Path(Path(page, ["properties"]).value.fields[i].1, ["title"]).value);
      var title := TaskRecord(page).value.title;
      if c.Some? && c.value != Untitled then title == c.value else IdTag(page, "Task ") == Ok(title)
  {
    OneStep(page, "properties");
    var props := Path(page, ["properties"]).value;
    var tag := IdTag(page, "Task ");
    assert Lookup(page, "properties") == Ok(props) && Items(props) == Ok(props.fields);
    ScanFindsFirst(props.fields, tag, i);
    var c := FirstContent(Path(props.fields[i].1, ["title"]).value);
    assert TitleScan(props.fields, tag) == if c.Some? then Ok(c.value) else tag;
    TaskSteps(page);
    if c.None? {
      assert tag.value != Untitled by {
        assert tag.value.s[0] == 'T';
      }
    }
  }

  /** Without a title property the task title is "Task " + id[-8:]. */
  lemma TaskTitleWithoutTitleProperty(page: Json)
    requires NotionPage(page)
    requires forall j :: 0 <= j < |Path(page, ["properties"]).value.fields| ==>
      !IsTitleProperty(Path(page, ["properties"]).value.fields[j].1)
    ensures TaskRecord(page).Ok? && TaskRecord(page).value.title == IdTag(page, "Task ").value
  {
    TaskNeverRaises(page);
    OneStep(page, "properties");
    OneStep(page, "id");
    var props := Path(page, ["properties"]).value;
    var tag := IdTag(page, "Task ");
    assert Lookup(page, "properties") == Ok(props) && Items(props) == Ok(props.fields);
    ScanFindsNone(props.fields, tag);
    TaskSteps(page);
  }

  /** Whatever the page, a task title is never "Untitled". */
  lemma TaskTitleNeverUntitled(page: Json)
    requires TaskRecord(page).Ok?
    ensures TaskRecord(page).value.title != Untitled
  {
    TaskSteps(page);
    var props := Lookup(page, "properties").value;
    var tag := IdTag(page, "Task ");
    var scanned := TitleScan(Items(props).value, tag).value;
    var title := TaskRecord(page).value.title;
    if scanned == Untitled {
      assert title == tag.value;
      assert "Task " <= title.s;
      assert title.s[0] == 'T';
    } else {
      assert title == scanned;
    }
  }

  /** The task description is the content of the first 'Description' fragment
      only, or ""; the date and priority are `Done Date.date.start` and
      `Priority.select.name`, or "". */
  lemma TaskFields(page: Json)
    requires TaskRecord(page).Ok?
    ensures var r := TaskRecord(page).value;
      && r.description == FirstContentAt(page, ["properties", "Description", "rich_text"]).GetOr(Blank)
      && r.date == Path(page, ["properties", "Done Date", "date", "start"]).GetOr(Blank)
      && r.priority == Path(page, ["properties", "Priority", "select", "name"]).GetOr(Blank)
  {
    TaskSteps(page);
    var props := Lookup(page, "properties").value;
    ThreeSteps(page, "properties", "Description", "rich_text");
    FourSteps(page, "properties", "Done Date", "date", "start");
    FourSteps(page, "properties", "Priority", "select", "name");
    FirstFragmentFieldValue(props, "Description", "rich_text", Blank, Ok(Blank));
    NestedFieldValue(props, "Done Date", "date", "start");
    NestedFieldValue(props, "Priority", "select", "name");
  }
}
