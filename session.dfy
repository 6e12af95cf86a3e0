/**
 * The session state of the `Home` page as one value, and the effect of each
 * event on it. The seven slots are the page's `useState` hooks; every function
 * here writes exactly the slots the corresponding handler calls a setter for.
 * The network and JSON are abstracted: a split request is a value this page
 * builds, and the server's answer arrives as an `Outcome`.
 */
module Session {
  import opened Wrappers
  import opened Decimal

  /** One fragment as the splitting service returns it. */
  datatype Fragment = Fragment(filename: string, content: string, rawLength: Option<int>)

  /** The bytes of a `File`: those of an uploaded file, or the UTF-8 encoding of a text. */
  datatype Body = Bytes(data: seq<bv8>) | Utf8Text(text: string)

  /** A browser `File`: its name, its MIME type and its contents. */
  datatype Blob = Blob(name: string, mimeType: string, body: Body)

  /** A value appended to a `FormData`. */
  datatype FormValue = FileValue(blob: Blob) | TextValue(text: string)

  datatype FormEntry = FormEntry(name: string, value: FormValue)

  /** A multipart POST to the splitting service. */
  datatype SplitRequest = SplitRequest(httpMethod: string, url: string, form: seq<FormEntry>)

  /** How one split request ends. */
  datatype Outcome =
    | Ok(fragments: Option<seq<Fragment>>, totalCharacters: Option<int>) // 2xx with a JSON body; absent fields are None
    | NotOk(errorField: Option<string>)   // non-2xx with a JSON body; its `error` field, None when absent or null
    | Exception(message: string)          // an Error thrown: fetch rejected, or the body was not JSON
    | OtherThrow                          // a thrown value that is not an Error

  /** How the fetch of the default document ends. */
  datatype FetchOutcome = Loaded(text: string) | LoadFailed

  /** The seven state slots of `Home`, in declaration order. */
  datatype Slots = Slots(
    fragments: seq<Fragment>,
    error: Option<string>,
    loading: bool,
    totalCharacters: Option<int>,
    maxLen: int,
    file: Option<Blob>,
    sourceHtml: Option<string>)

  /** What `handleSubmit` did before the request's answer: nothing sent, or one request. */
  datatype Submission = Rejected | Issued(request: SplitRequest)

  datatype Submitted = Submitted(state: Slots, sent: Submission)

  /** The state after the default-document fetch settled, and the request the auto-submit issued. */
  datatype Settled = Settled(state: Slots, auto: Option<SplitRequest>)

  /** What a server reading the multipart body gets: the uploaded file and the maximum length. */
  datatype SplitFields = SplitFields(upload: Blob, maxLen: int)

  const DefaultMaxLen: int := 4096
  const NotLoadedMessage: string := "Default HTML source is not loaded yet."
  const UnknownServiceError: string := "Unknown error occurred"
  const UnknownThrown: string := "An unknown error occurred"
  const LoadFailedMessage: string := "Failed to load default HTML source."
  const DefaultFileName: string := "source.html"
  const DefaultMimeType: string := "text/html"
  const SplitUrl: string := "http://localhost:8002/api/split"
  const FileField: string := "file"
  const MaxLenField: string := "max_len"

  /** The state when the page mounts. */
  const Initial: Slots := Slots([], None, false, None, DefaultMaxLen, None, None)

  /** JavaScript truthiness of a `string | null`: the empty string is falsy. */
  predicate Truthy(s: Option<string>) {
    s.Some? && s.value != ""
  }

  /** The negation of the guard in `handleSubmit`: a file is chosen, or the default text is non-empty. */
  predicate HasSource(s: Slots) {
    s.file.Some? || Truthy(s.sourceHtml)
  }

  /**
   * The strict reading of a split request's body: exactly the part `file`
   * holding a file, then the part `max_len` holding an integer numeral.
   */
  function DecodeSplitForm(form: seq<FormEntry>): Option<SplitFields> {
    if |form| == 2 && form[0].name == FileField && form[0].value.FileValue?
       && form[1].name == MaxLenField && form[1].value.TextValue?
    then
      match ParseInteger(form[1].value.text)
      case Some(n) => Some(SplitFields(form[0].value.blob, n))
      case None => None
    else None
  }

  /**
   * The synchronous part of `handleSubmit`: the guard, the clearing of the
   * result slots, and the request built from the chosen file or, failing
   * that, from the default text.
   */
  function Submit(s: Slots): (r: Submitted)
    ensures r.sent.Rejected? <==> !HasSource(s)
    ensures r.sent.Rejected? ==> r.state == s.(error := Some(NotLoadedMessage))
    ensures r.sent.Issued? ==>
      && r.state == s.(loading := true, error := None, fragments := [], totalCharacters := None)
      && r.sent.request.httpMethod == "POST" && r.sent.request.url == SplitUrl
      && DecodeSplitForm(r.sent.request.form) == Some(SplitFields(
           if s.file.Some? then s.file.value
           else Blob(DefaultFileName, DefaultMimeType, Utf8Text(s.sourceHtml.value)),
           s.maxLen))
  {
    if s.file.None? && !Truthy(s.sourceHtml) then
      Submitted(s.(error := Some(NotLoadedMessage)), Rejected)
    else
      var cleared := s.(loading := true, error := None, fragments := [], totalCharacters := None);
      var upload :=
        if s.file.Some? then s.file.value
        else Blob(DefaultFileName, DefaultMimeType, Utf8Text(s.sourceHtml.value));
      var form := [FormEntry(FileField, FileValue(upload)),
                   FormEntry(MaxLenField, TextValue(IntegerString(s.maxLen)))];
      Submitted(cleared, Issued(SplitRequest("POST", SplitUrl, form)))
  }

  /**
   * The asynchronous part of `handleSubmit`: the slots written once the
   * answer is in. Only the slots the code sets change; `loading` is always
   * reset by the `finally` block.
   */
  function Complete(s: Slots, o: Outcome): (r: Slots)
    ensures !r.loading
    ensures r.file == s.file && r.sourceHtml == s.sourceHtml && r.maxLen == s.maxLen
    ensures o.Ok? ==> r.error == s.error
    ensures !o.Ok? ==> r.fragments == s.fragments && r.totalCharacters == s.totalCharacters && r.error.Some?
  {
    match o
    case Ok(fs, total) => s.(fragments := fs.GetOr([]), totalCharacters := total, loading := false)
    case NotOk(field) =>
      s.(error := Some(if Truthy(field) then field.value else UnknownServiceError), loading := false)
    case Exception(message) => s.(error := Some(message), loading := false)
    case OtherThrow => s.(error := Some(UnknownThrown), loading := false)
  }

  /** The slots `fetchHtml` writes when the default-document fetch settles. */
  function Settle(s: Slots, f: FetchOutcome): Slots {
    match f
    case Loaded(text) => s.(sourceHtml := Some(text))
    case LoadFailed => s.(error := Some(LoadFailedMessage))
  }

  /** The auto-submit effect runs when `sourceHtml` changed and is now truthy. */
  predicate AutoSubmitFires(before: Option<string>, after: Option<string>) {
    before != after && Truthy(after)
  }

  /**
   * The fetch settling, followed by the auto-submit effect the new `sourceHtml`
   * triggers: a failure only sets the load error; a load submits exactly when
   * it brings a new non-empty text, sending the chosen file if there is one.
   */
  function FetchSettled(s: Slots, f: FetchOutcome): (r: Settled)
    ensures f.LoadFailed? ==> r == Settled(s.(error := Some(LoadFailedMessage)), None)
    ensures r.auto.Some? <==> f.Loaded? && f.text != "" && s.sourceHtml != Some(f.text)
    ensures s.sourceHtml.None? ==> (r.auto.Some? <==> f.Loaded? && f.text != "")
    ensures f.Loaded? && r.auto.None? ==> r.state == s.(sourceHtml := Some(f.text))
    ensures r.auto.Some? ==>
      && f.Loaded?
      && r.state == s.(sourceHtml := Some(f.text), loading := true, error := None,
                       fragments := [], totalCharacters := None)
      && r.auto.value.httpMethod == "POST" && r.auto.value.url == SplitUrl
      && DecodeSplitForm(r.auto.value.form) == Some(SplitFields(
           if s.file.Some? then s.file.value
           else Blob(DefaultFileName, DefaultMimeType, Utf8Text(f.text)),
           s.maxLen))
  {
    var settled := Settle(s, f);
    if AutoSubmitFires(s.sourceHtml, settled.sourceHtml) then
      var r := Submit(settled);
      Settled(r.state, Some(r.sent.request))
    else
      Settled(settled, None)
  }

  /** The file input's change handler: the first chosen file, or none. */
  function SelectFiles(s: Slots, chosen: seq<Blob>): Slots {
    s.(file := if |chosen| > 0 then Some(chosen[0]) else None)
  }

  /** The `max_len` input's change handler. */
  function EditMaxLen(s: Slots, value: int): Slots {
    s.(maxLen := value)
  }

  // Properties of single events

  /** With no file and no non-empty default text, submitting only sets the error. */
  lemma GuardRejects(s: Slots)
    requires s.file.None? && (s.sourceHtml.None? || s.sourceHtml == Some(""))
    ensures var r := Submit(s);
      && r.sent == Rejected
      && r.state.error == Some(NotLoadedMessage)
      && r.state.loading == s.loading
      && r.state.fragments == s.fragments
      && r.state.totalCharacters == s.totalCharacters
  {
  }

  /** A chosen file is sent unchanged, whatever the default text is. */
  lemma UploadTakesPrecedence(s: Slots, html: Option<string>)
    requires s.file.Some?
    ensures var r := Submit(s.(sourceHtml := html));
      r.sent.Issued? && DecodeSplitForm(r.sent.request.form) == Some(SplitFields(s.file.value, s.maxLen))
  {
  }

  /** Without a file, the default text is sent as "source.html" of type text/html. */
  lemma DefaultDocumentSynthesized(s: Slots)
    requires s.file.None? && Truthy(s.sourceHtml)
    ensures var r := Submit(s);
      && r.sent.Issued?
      && var fields := DecodeSplitForm(r.sent.request.form);
      && fields.Some?
      && fields.value.upload.name == "source.html"
      && fields.value.upload.mimeType == "text/html"
      && fields.value.upload.body == Utf8Text(s.sourceHtml.value)
  {
  }

  /** The request has exactly the parts `file` and `max_len`, the latter the base-10 text of `maxLen`. */
  lemma RequestParts(s: Slots)
    requires HasSource(s)
    ensures var r := Submit(s);
      && r.sent.Issued?
      && var form := r.sent.request.form;
      && |form| == 2 && form[0].name == "file" && form[1].name == "max_len"
      && form[1].value == TextValue(IntegerString(s.maxLen))
      && IsIntegerNumeral(form[1].value.text)
  {
  }

  /**
   * A submission followed by its own answer: the result slots end as the
   * outcome says, `loading` is false, and the source slots are kept.
   */
  lemma SubmitThenComplete(s: Slots, o: Outcome)
    requires HasSource(s)
    ensures var t := Complete(Submit(s).state, o);
      && !t.loading
      && t.file == s.file && t.sourceHtml == s.sourceHtml && t.maxLen == s.maxLen
      && (o.Ok? ==>
            t.error == None && t.fragments == o.fragments.GetOr([])
            && t.totalCharacters == o.totalCharacters)
      && (!o.Ok? ==> t.fragments == [] && t.totalCharacters == None && t.error.Some?)
      && (o.NotOk? && Truthy(o.errorField) ==> t.error == o.errorField)
      && (o.NotOk? && !Truthy(o.errorField) ==> t.error == Some("Unknown error occurred"))
      && (o.Exception? ==> t.error == Some(o.message))
      && (o.OtherThrow? ==> t.error == Some("An unknown error occurred"))
  {
  }

  /** A body that is not JSON surfaces the parser's own message, on any status. */
  lemma NonJsonBodySurfacesParserMessage(s: Slots, parserMessage: string)
    requires HasSource(s)
    ensures Complete(Submit(s).state, Exception(parserMessage)).error == Some(parserMessage)
  {
  }

  /** A failed default fetch sets only the error; a successful one only the text. */
  lemma FetchSettles(s: Slots, f: FetchOutcome)
    ensures f.LoadFailed? ==> Settle(s, f) == s.(error := Some("Failed to load default HTML source."))
    ensures f.Loaded? ==> Settle(s, f) == s.(sourceHtml := Some(f.text))
  {
  }

  /** From the mounted state, a successful fetch auto-submits exactly when the text is non-empty. */
  lemma FetchAutoSubmits(f: FetchOutcome)
    ensures var r := FetchSettled(Initial, f);
      && (r.auto.Some? <==> f.Loaded? && f.text != "")
      && (r.auto.Some? ==>
            && r.state.loading
            && DecodeSplitForm(r.auto.value.form)
               == Some(SplitFields(Blob("source.html", "text/html", Utf8Text(f.text)), 4096)))
  {
  }

  /** No other handler changes `sourceHtml`, so none of them re-runs the auto-submit effect. */
  lemma OnlyFetchRunsEffect(s: Slots, chosen: seq<Blob>, value: int, o: Outcome)
    ensures !AutoSubmitFires(s.sourceHtml, Submit(s).state.sourceHtml)
    ensures !AutoSubmitFires(s.sourceHtml, Complete(s, o).sourceHtml)
    ensures !AutoSubmitFires(s.sourceHtml, SelectFiles(s, chosen).sourceHtml)
    ensures !AutoSubmitFires(s.sourceHtml, EditMaxLen(s, value).sourceHtml)
  {
  }

  /** Choosing no file (a cancelled dialog) brings back the default document as the source. */
  lemma EmptySelectionRevertsToDefault(s: Slots, f: Blob)
    requires Truthy(s.sourceHtml)
    ensures var t := SelectFiles(s.(file := Some(f)), []);
      && t.file.None? && Submit(t).sent.Issued?
      && DecodeSplitForm(Submit(t).sent.request.form)
         == Some(SplitFields(Blob(DefaultFileName, DefaultMimeType, Utf8Text(s.sourceHtml.value)), s.maxLen))
  {
  }
}
