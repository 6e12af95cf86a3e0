/**
 * The `Home` component as an object: its seven `useState` slots are fields,
 * and each event handler is a method that overwrites those fields one setter
 * at a time, as the page does. Each method's new state is the one the
 * corresponding `Session` function gives.
 */
module Page {
  import opened Wrappers
  import opened Decimal
  import opened Session

  class Home {
    var fragments: seq<Fragment>
    var error: Option<string>
    var loading: bool
    var totalCharacters: Option<int>
    var maxLen: int
    var file: Option<Blob>
    var sourceHtml: Option<string>

    /** The slots as one value. */
    function Snapshot(): Slots
      reads this
    {
      Slots(fragments, error, loading, totalCharacters, maxLen, file, sourceHtml)
    }

    /** Mounting the page: every slot takes its `useState` initial value. */
    constructor ()
      ensures Snapshot() == Initial
      ensures fragments == [] && error == None && !loading && totalCharacters == None
      ensures maxLen == 4096 && file == None && sourceHtml == None
    {
      fragments := [];
      error := None;
      loading := false;
      totalCharacters := None;
      maxLen := DefaultMaxLen;
      file := None;
      sourceHtml := None;
    }

    /**
     * `handleSubmit` up to the `fetch`: the guard, then the four resets, then
     * the form data appended part by part.
     */
    method BeginSubmit() returns (r: Submission)
      modifies this
      ensures Submitted(Snapshot(), r) == Submit(old(Snapshot()))
    {
      ghost var before := Snapshot();
      if file.None? && !Truthy(sourceHtml) {
        error := Some(NotLoadedMessage);
        return Rejected;
      }
      loading := true;
      error := None;
      fragments := [];
      totalCharacters := None;
      assert Snapshot() == Submit(before).state;

      var form: seq<FormEntry> := [];
      if file.Some? {
        form := form + [FormEntry(FileField, FileValue(file.value))];
      } else {
        var defaultFile := Blob(DefaultFileName, DefaultMimeType, Utf8Text(sourceHtml.value));
        form := form + [FormEntry(FileField, FileValue(defaultFile))];
      }
      form := form + [FormEntry(MaxLenField, TextValue(IntegerString(maxLen)))];
      r := Issued(SplitRequest("POST", SplitUrl, form));
      assert r == Submit(before).sent;
    }

    /** The rest of `handleSubmit`, once the answer `o` is in. */
    method CompleteSubmit(o: Outcome)
      modifies this
      ensures Snapshot() == Complete(old(Snapshot()), o)
      ensures !loading
    {
      match o {
        case Ok(fs, total) =>
          fragments := fs.GetOr([]);
          totalCharacters := total;
        case NotOk(field) =>
          error := Some(if Truthy(field) then field.value else UnknownServiceError);
        case Exception(message) =>
          error := Some(message);
        case OtherThrow =>
          error := Some(UnknownThrown);
      }
      loading := false;
    }

    /**
     * `fetchHtml` settling, then the auto-submit effect, which runs when the
     * new `sourceHtml` differs from the old one and is truthy.
     */
    method DefaultFetchSettled(f: FetchOutcome) returns (auto: Option<SplitRequest>)
      modifies this
      ensures Settled(Snapshot(), auto) == FetchSettled(old(Snapshot()), f)
    {
      var before := sourceHtml;
      match f {
        case Loaded(text) => sourceHtml := Some(text);
        case LoadFailed => error := Some(LoadFailedMessage);
      }
      auto := None;
      if before != sourceHtml && Truthy(sourceHtml) {
        var r := BeginSubmit();
        auto := Some(r.request);
      }
    }

    /** The file input's `onChange`: the first chosen file, or none. */
    method ChooseFiles(chosen: seq<Blob>)
      modifies this
      ensures Snapshot() == SelectFiles(old(Snapshot()), chosen)
    {
      if |chosen| > 0 {
        file := Some(chosen[0]);
      } else {
        file := None;
      }
    }

    /** The `max_len` input's `onChange`. */
    method ChangeMaxLen(value: int)
      modifies this
      ensures Snapshot() == EditMaxLen(old(Snapshot()), value)
    {
      maxLen := value;
    }
  }

  /**
   * A page whose default document loads while nothing is chosen: the
   * auto-submit sends the text, and an ok answer fills the result slots.
   */
  method DefaultLoadScenario(html: string, fs: seq<Fragment>, total: int)
    returns (sent: Option<SplitRequest>, page: Home)
    requires html != ""
    ensures sent.Some? && DecodeSplitForm(sent.value.form)
              == Some(SplitFields(Blob("source.html", "text/html", Utf8Text(html)), 4096))
    ensures page.fragments == fs && page.totalCharacters == Some(total)
    ensures page.error == None && !page.loading
  {
    page := new Home();
    sent := page.DefaultFetchSettled(Loaded(html));
    page.CompleteSubmit(Ok(Some(fs), Some(total)));
  }
}
