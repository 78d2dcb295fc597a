/**
 * The server's task schema: `title` and `description` are required strings
 * that are trimmed when set, `status` is a required string restricted to the
 * three status names and defaulting to "pending", and every saved document
 * gets `createdAt` / `updatedAt` timestamps.
 */
module TaskSchema {
  import opened Wrappers
  import opened TaskTypes
  import opened JsString

  /** A task as submitted; `None` marks an omitted path. */
  datatype RawTask = RawTask(title: Option<string>, description: Option<string>, status: Option<string>)

  /** One failed validator, one per path at most. */
  datatype SchemaError =
    | TitleRequired
    | DescriptionRequired
    | StatusRequired
    | StatusNotInEnum(value: string)

  /** The message reported for each error; the `status` ones are the schema library's default messages. */
  function Message(e: SchemaError): (m: string)
    ensures m != ""
  {
    match e
    case TitleRequired => "Please add a title"
    case DescriptionRequired => "Please add a description"
    case StatusRequired => "Path `status` is required."
    case StatusNotInEnum(v) => "`" + v + "` is not a valid enum value for path `status`."
  }

  /** Different errors are reported with different messages. */
  lemma MessagesDistinct(e1: SchemaError, e2: SchemaError)
    ensures Message(e1) == Message(e2) ==> e1 == e2
  {
    if Message(e1) == Message(e2) && e1.StatusNotInEnum? && e2.StatusNotInEnum? {
      var tail := "` is not a valid enum value for path `status`.";
      var m := Message(e1);
      assert m == "`" + e1.value + tail && m == "`" + e2.value + tail;
      assert |e1.value| == |e2.value|;
      assert e1.value == m[1..1 + |e1.value|];
      assert e2.value == m[1..1 + |e2.value|];
    }
  }

  /** The validated, normalised paths of a task. */
  datatype TaskFields = TaskFields(title: string, description: string, status: Status)

  /** A saved task document. */
  datatype TaskDocument = TaskDocument(fields: TaskFields, createdAt: string, updatedAt: string)

  /** The `trim: true` setter: applied to a supplied string, nothing to an omitted one. */
  function Cast(v: Option<string>): Option<string>
  {
    match v
    case Some(s) => Some(Trim(s))
    case None => None
  }

  /** The `required` check for a string path: present and not empty. */
  predicate Present(v: Option<string>)
  {
    v.Some? && v.value != ""
  }

  /** The status after the `default: 'pending'` rule. */
  function StatusValue(raw: RawTask): string
  {
    raw.status.GetOr("pending")
  }

  /** The first failing validator of `status`: `required` runs before `enum`. */
  function StatusErrors(v: string): (r: seq<SchemaError>)
    ensures |r| <= 1
    ensures r == [] <==> ParseStatus(v).Some?
    ensures v == "" ==> r == [StatusRequired]
    ensures v != "" && ParseStatus(v).None? ==> r == [StatusNotInEnum(v)]
  {
    if v == "" then [StatusRequired]
    else if ParseStatus(v).None? then [StatusNotInEnum(v)]
    else []
  }

  /** The title, description and status errors, one list after the other, never repeat and add nothing else. */
  lemma ErrorListShape(title: seq<SchemaError>, description: seq<SchemaError>, status: seq<SchemaError>)
    requires title == [] || title == [TitleRequired]
    requires description == [] || description == [DescriptionRequired]
    requires |status| <= 1 && forall e | e in status :: e.StatusRequired? || e.StatusNotInEnum?
    ensures var r := title + description + status;
      forall i, j | 0 <= i < j < |r| :: r[i] != r[j]
    ensures forall e | e in title + description + status ::
      e == TitleRequired || e == DescriptionRequired || e in status
  {
    var r := title + description + status;
    forall i, j | 0 <= i < j < |r| ensures r[i] != r[j] {
      if j < |title| + |description| {
        assert i < |title| && r[i] == TitleRequired && r[j] == DescriptionRequired;
      } else {
        assert r[j] == status[j - |title| - |description|];
        assert r[j] in status;
      }
    }
  }

  /** Every failing path, in schema order. */
  function Errors(raw: RawTask): (r: seq<SchemaError>)
    ensures |r| <= 3
    ensures TitleRequired in r <==> !Present(Cast(raw.title))
    ensures DescriptionRequired in r <==> !Present(Cast(raw.description))
    ensures (StatusRequired in r || StatusNotInEnum(StatusValue(raw)) in r) <==> ParseStatus(StatusValue(raw)).None?
  {
    (if Present(Cast(raw.title)) then [] else [TitleRequired])
    + (if Present(Cast(raw.description)) then [] else [DescriptionRequired])
    + StatusErrors(StatusValue(raw))
  }

  /** At most one error per path, none repeated, and a status error only for the submitted (or defaulted) value. */
  lemma ErrorsWellFormed(raw: RawTask)
    ensures var r := Errors(raw); forall i, j | 0 <= i < j < |r| :: r[i] != r[j]
    ensures forall e | e in Errors(raw) ::
      e == TitleRequired || e == DescriptionRequired || e in StatusErrors(StatusValue(raw))
  {
    ErrorListShape(if Present(Cast(raw.title)) then [] else [TitleRequired],
                   if Present(Cast(raw.description)) then [] else [DescriptionRequired],
                   StatusErrors(StatusValue(raw)));
  }

  /** Casting, defaulting and validation of a submitted task. */
  function Normalize(raw: RawTask): (r: Result<TaskFields, seq<SchemaError>>)
    ensures r.Success? <==> Errors(raw) == []
    ensures r.Failure? ==> r.error == Errors(raw) && r.error != []
  {
    var errors := Errors(raw);
    if errors == [] then
      Success(TaskFields(Cast(raw.title).value, Cast(raw.description).value,
                         ParseStatus(StatusValue(raw)).value))
    else
      Failure(errors)
  }

  /** Validation followed by the timestamps of a newly saved document. */
  function Create(raw: RawTask, now: string): (r: Result<TaskDocument, seq<SchemaError>>)
    ensures r.Success? ==> r.value.createdAt == now && r.value.updatedAt == now
    ensures r.Success? <==> Normalize(raw).Success?
    ensures r.Success? ==> r.value.fields == Normalize(raw).value
    ensures r.Failure? ==> r.error == Normalize(raw).error
  {
    match Normalize(raw)
    case Success(f) => Success(TaskDocument(f, now, now))
    case Failure(e) => Failure(e)
  }

  /** A path counts as given when it holds a character other than white space. */
  predicate Visible(v: Option<string>)
  {
    v.Some? && exists k | 0 <= k < |v.value| :: !IsWhiteSpace(v.value[k])
  }

  /** The `title` check fails exactly when the title is omitted or trims to "". */
  lemma TitleRule(raw: RawTask)
    ensures TitleRequired in Errors(raw) <==> !Visible(raw.title)
    ensures !Visible(raw.title) ==> Normalize(raw).Failure? && TitleRequired in Normalize(raw).error
    ensures Message(TitleRequired) == "Please add a title"
    ensures Normalize(raw).Success? ==> Normalize(raw).value.title == Trim(raw.title.value)
  {
    if raw.title.Some? {
      TrimEmpty(raw.title.value);
    }
  }

  /** The `description` check fails exactly when the description is omitted or trims to "". */
  lemma DescriptionRule(raw: RawTask)
    ensures DescriptionRequired in Errors(raw) <==> !Visible(raw.description)
    ensures !Visible(raw.description) ==> Normalize(raw).Failure? && DescriptionRequired in Normalize(raw).error
    ensures Message(DescriptionRequired) == "Please add a description"
    ensures Normalize(raw).Success? ==> Normalize(raw).value.description == Trim(raw.description.value)
  {
    if raw.description.Some? {
      TrimEmpty(raw.description.value);
    }
  }

  /** `status` is accepted exactly when omitted or one of the three names, and an omitted one is "pending". */
  lemma StatusRule(raw: RawTask)
    ensures (StatusRequired in Errors(raw) || StatusNotInEnum(StatusValue(raw)) in Errors(raw))
      <==> raw.status.Some? && ParseStatus(raw.status.value).None?
    ensures raw.status.None? && Normalize(raw).Success? ==> Normalize(raw).value.status == Pending
    ensures raw.status.Some? && Normalize(raw).Success? ==> StatusName(Normalize(raw).value.status) == raw.status.value
    ensures raw.status == Some("") ==> StatusErrors(StatusValue(raw)) == [StatusRequired]
    ensures raw.status.Some? && raw.status.value != "" && ParseStatus(raw.status.value).None? ==>
      StatusErrors(StatusValue(raw)) == [StatusNotInEnum(raw.status.value)]
    ensures |StatusErrors(StatusValue(raw))| <= 1
  {
    var v := StatusValue(raw);
    if StatusErrors(v) != [] {
      assert StatusErrors(v)[0] in Errors(raw);
    }
  }

  /** A submission is accepted exactly when title and description are given and the status is valid. */
  lemma Accepts(raw: RawTask)
    ensures Normalize(raw).Success? <==>
      Visible(raw.title) && Visible(raw.description)
      && (raw.status.None? || ParseStatus(raw.status.value).Some?)
  {
    TitleRule(raw);
    DescriptionRule(raw);
    StatusRule(raw);
  }

  /** The fields of an accepted task, submitted again, are accepted unchanged. */
  lemma NormalizeIdempotent(raw: RawTask)
    requires Normalize(raw).Success?
    ensures var f := Normalize(raw).value;
      Normalize(RawTask(Some(f.title), Some(f.description), Some(StatusName(f.status)))) == Success(f)
  {
    var f := Normalize(raw).value;
    TrimIdempotent(raw.title.value);
    TrimIdempotent(raw.description.value);
    ParseStatusName(f.status);
  }
}
