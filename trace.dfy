/**
 * Runs of the page from mount: sequences of events, each applied to the
 * session state in the order it happens. Answers to split requests are not
 * tied to the request they answer; whichever arrives is applied to the
 * current state, and the last one written wins.
 */
module Trace {
  import opened Wrappers
  import opened Session
  import opened Presenter

  datatype Event =
    | DefaultFetched(f: FetchOutcome)   // the mount-time fetch of the default document settles
    | FilesChosen(chosen: seq<Blob>)    // the file input changes
    | MaxLenEdited(value: int)          // the max_len input changes
    | SubmitClicked                     // the user submits the form
    | AnswerArrived(o: Outcome)         // some outstanding split request settles

  /**
   * The page with what surrounds it: the number of split requests still
   * outstanding, whether the mount-time fetch has settled, how many requests
   * the auto-submit effect issued, and every request sent so far.
   */
  datatype World = World(page: Slots, inFlight: nat, fetchSettled: bool, autoSubmits: nat, sent: seq<SplitRequest>)

  const Mounted: World := World(Initial, 0, false, 0, [])

  /**
   * One event: its handler's own writes, then the auto-submit effect, which
   * React runs after any update that changed `sourceHtml` to a truthy value.
   */
  function Step(w: World, e: Event): World {
    var h := Handle(w, e);
    if AutoSubmitFires(w.page.sourceHtml, h.page.sourceHtml) then AutoSubmit(h) else h
  }

  /**
   * The writes of an event's handler. The fetch settles at most once (its
   * effect runs once per mount); a click while the button is disabled, that
   * is while `loading`, does nothing; an answer needs an outstanding request.
   */
  function Handle(w: World, e: Event): World {
    match e
    case DefaultFetched(f) =>
      if w.fetchSettled then w else w.(page := Settle(w.page, f), fetchSettled := true)
    case FilesChosen(chosen) => w.(page := SelectFiles(w.page, chosen))
    case MaxLenEdited(value) => w.(page := EditMaxLen(w.page, value))
    case SubmitClicked => ClickStep(w)
    case AnswerArrived(o) => AnswerStep(w, o)
  }

  /** The effect's call of `handleSubmit`, which does not look at `loading`. */
  function AutoSubmit(w: World): World {
    var r := Submit(w.page);
    match r.sent
    case Rejected => w.(page := r.state)
    case Issued(q) =>
      w.(page := r.state, inFlight := w.inFlight + 1, autoSubmits := w.autoSubmits + 1, sent := w.sent + [q])
  }

  function ClickStep(w: World): World {
    if w.page.loading then w
    else
      var r := Submit(w.page);
      match r.sent
      case Rejected => w.(page := r.state)
      case Issued(q) => w.(page := r.state, inFlight := w.inFlight + 1, sent := w.sent + [q])
  }

  function AnswerStep(w: World, o: Outcome): World {
    if w.inFlight == 0 then w
    else w.(page := Complete(w.page, o), inFlight := w.inFlight - 1)
  }

  /** The first settling of the fetch in a run does what `Session.FetchSettled` says. */
  lemma FetchStepIsFetchSettled(w: World, f: FetchOutcome)
    requires !w.fetchSettled
    ensures var n := Step(w, DefaultFetched(f));
      var r := FetchSettled(w.page, f);
      && n.page == r.state && n.fetchSettled
      && (r.auto.None? ==> n.sent == w.sent && n.inFlight == w.inFlight && n.autoSubmits == w.autoSubmits)
      && (r.auto.Some? ==>
            n.sent == w.sent + [r.auto.value] && n.inFlight == w.inFlight + 1
            && n.autoSubmits == w.autoSubmits + 1)
  {
  }

  function Run(w: World, evs: seq<Event>): World
    decreases |evs|
  {
    if evs == [] then w else Run(Step(w, evs[0]), evs[1..])
  }

  /**
   * What every run keeps: the auto-submit fires at most once and only after
   * the fetch; the default text stays null until the fetch settles; and the
   * number of outstanding requests is at most the number of auto-submits,
   * plus one while `loading`.
   */
  predicate Inv(w: World) {
    && w.autoSubmits <= 1
    && (w.autoSubmits == 1 ==> w.fetchSettled)
    && (!w.fetchSettled ==> w.page.sourceHtml.None?)
    && w.inFlight <= w.autoSubmits + (if w.page.loading then 1 else 0)
  }

  lemma StepKeepsInv(w: World, e: Event)
    requires Inv(w)
    ensures Inv(Step(w, e))
  {
  }

  /** What one event does to the fetch flag, the auto-submit count and the default text. */
  lemma StepFacts(w: World, e: Event)
    requires Inv(w)
    ensures var n := Step(w, e);
      var first := !w.fetchSettled && e.DefaultFetched?;
      && Inv(n)
      && n.fetchSettled == (w.fetchSettled || e.DefaultFetched?)
      && n.autoSubmits == w.autoSubmits + (if first && LoadsText(Some(e.f)) then 1 else 0)
      && n.page.sourceHtml == (if first && e.f.Loaded? then Some(e.f.text) else w.page.sourceHtml)
  {
    StepKeepsInv(w, e);
  }

  lemma {:induction false} RunKeepsInv(w: World, evs: seq<Event>)
    requires Inv(w)
    ensures Inv(Run(w, evs))
    decreases |evs|
  {
    if evs != [] {
      StepKeepsInv(w, evs[0]);
      RunKeepsInv(Step(w, evs[0]), evs[1..]);
    }
  }

  /**
   * At most two split requests are ever outstanding at once, and two only
   * once the auto-submit has happened.
   */
  lemma InFlightBound(evs: seq<Event>)
    ensures Run(Mounted, evs).inFlight <= 2
    ensures Run(Mounted, evs).autoSubmits == 0 ==> Run(Mounted, evs).inFlight <= 1
  {
    RunKeepsInv(Mounted, evs);
  }

  /** The outcome of the first fetch event of a run, if there is one. */
  function FirstFetch(evs: seq<Event>): Option<FetchOutcome>
    decreases |evs|
  {
    if evs == [] then None
    else if evs[0].DefaultFetched? then Some(evs[0].f)
    else FirstFetch(evs[1..])
  }

  predicate LoadsText(f: Option<FetchOutcome>) {
    f.Some? && f.value.Loaded? && f.value.text != ""
  }

  lemma {:induction false} AutoSubmitsFrom(w: World, evs: seq<Event>)
    requires Inv(w)
    ensures Run(w, evs).autoSubmits
            == w.autoSubmits + (if !w.fetchSettled && LoadsText(FirstFetch(evs)) then 1 else 0)
    ensures Run(w, evs).fetchSettled == (w.fetchSettled || FirstFetch(evs).Some?)
    decreases |evs|
  {
    if evs != [] {
      StepFacts(w, evs[0]);
      AutoSubmitsFrom(Step(w, evs[0]), evs[1..]);
    }
  }

  /**
   * Over any run, the auto-submit fires once if the default document loaded
   * with a non-empty text, and never otherwise.
   */
  lemma AutoSubmitOnce(evs: seq<Event>)
    ensures Run(Mounted, evs).autoSubmits == if LoadsText(FirstFetch(evs)) then 1 else 0
  {
    AutoSubmitsFrom(Mounted, evs);
  }

  lemma {:induction false} SourceFrom(w: World, evs: seq<Event>)
    requires Inv(w)
    ensures Run(w, evs).page.sourceHtml ==
      if w.fetchSettled then w.page.sourceHtml
      else match FirstFetch(evs)
        case Some(Loaded(text)) => Some(text)
        case _ => None
    decreases |evs|
  {
    if evs != [] {
      StepFacts(w, evs[0]);
      SourceFrom(Step(w, evs[0]), evs[1..]);
    }
  }

  /** The default text of a run is the one the fetch loaded, and null if it failed or is pending. */
  lemma SourceOnlyFromFetch(evs: seq<Event>)
    ensures Run(Mounted, evs).page.sourceHtml ==
      match FirstFetch(evs)
      case Some(Loaded(text)) => Some(text)
      case _ => None
  {
    SourceFrom(Mounted, evs);
  }

  predicate NoFileChoice(evs: seq<Event>) {
    forall i :: 0 <= i < |evs| ==> !evs[i].FilesChosen?
  }

  /** Every request issued by one event uploads the chosen file. */
  lemma StepSendsUpload(w: World, e: Event, f: Blob)
    requires w.page.file == Some(f) && !e.FilesChosen?
    ensures var n := Step(w, e);
      && n.page.file == Some(f)
      && |w.sent| <= |n.sent| && n.sent[..|w.sent|] == w.sent
      && forall i :: |w.sent| <= i < |n.sent| ==>
           DecodeSplitForm(n.sent[i].form).Some? && DecodeSplitForm(n.sent[i].form).value.upload == f
  {
  }

  /**
   * Once a file is chosen, every request sent until the next change of the
   * file input uploads that file, automatic or not, whenever the default
   * document arrives.
   */
  lemma {:induction false} UploadSentThroughout(w: World, evs: seq<Event>, f: Blob)
    requires w.page.file == Some(f) && NoFileChoice(evs)
    ensures var end := Run(w, evs);
      && |w.sent| <= |end.sent| && end.sent[..|w.sent|] == w.sent
      && forall i :: |w.sent| <= i < |end.sent| ==>
           DecodeSplitForm(end.sent[i].form).Some? && DecodeSplitForm(end.sent[i].form).value.upload == f
    decreases |evs|
  {
    if evs != [] {
      var next := Step(w, evs[0]);
      StepSendsUpload(w, evs[0], f);
      assert NoFileChoice(evs[1..]) by {
        forall i | 0 <= i < |evs[1..]| ensures !evs[1..][i].FilesChosen? {
          assert evs[1..][i] == evs[i + 1];
        }
      }
      UploadSentThroughout(next, evs[1..], f);
      var end := Run(next, evs[1..]);
      assert end == Run(w, evs);
      forall i | |w.sent| <= i < |end.sent|
        ensures DecodeSplitForm(end.sent[i].form).Some? && DecodeSplitForm(end.sent[i].form).value.upload == f
      {
        if i < |next.sent| {
          assert end.sent[i] == end.sent[..|next.sent|][i] == next.sent[i];
        }
      }
      assert end.sent[..|w.sent|] == end.sent[..|next.sent|][..|w.sent|];
    }
  }

  /** A first load with a new non-empty text, while no text is set, issues one more request. */
  lemma AutoSubmitStep(w: World, html: string)
    requires !w.fetchSettled && w.page.sourceHtml == None && html != ""
    ensures var n := Step(w, DefaultFetched(Loaded(html)));
      && n.inFlight == w.inFlight + 1 && |n.sent| == |w.sent| + 1 && n.autoSubmits == w.autoSubmits + 1
      && n.page.loading && n.page.error == None && n.page.fragments == [] && n.page.file == w.page.file
  {
  }

  // Runs that show how the code's behaviour differs from a state replaced whole on every answer

  /** Submitting before the default document arrives is rejected and touches nothing but the error. */
  lemma SubmitBeforeLoad()
    ensures Run(Mounted, [SubmitClicked]) == Mounted.(page := Initial.(error := Some("Default HTML source is not loaded yet.")))
  {
    assert Run(Mounted, [SubmitClicked]) == Run(Step(Mounted, SubmitClicked), []);
  }

  /**
   * The user's request and the auto-submit overlap; the answer applied last
   * wins for the slots it writes, and an earlier error survives a later ok
   * answer, so the banner shows beside the fragments.
   */
  lemma OverlappingAnswersMix(f: Blob, html: string, frag: Fragment)
    requires html != ""
    ensures var trace := [FilesChosen([f]), SubmitClicked, DefaultFetched(Loaded(html)),
                          AnswerArrived(NotOk(Some("bad file"))), AnswerArrived(Ok(Some([frag]), None))];
      var end := Run(Mounted, trace);
      var v := Render(end.page);
      && end.inFlight == 0 && |end.sent| == 2 && end.autoSubmits == 1
      && v.banner == Some("bad file") && v.fragmentList == Some([CardOf(frag)])
  {
    var w1 := Step(Mounted, FilesChosen([f]));
    assert w1 == Mounted.(page := Initial.(file := Some(f)));
    var w2 := Step(w1, SubmitClicked);
    assert w2.page.loading && w2.inFlight == 1 && |w2.sent| == 1 && !w2.fetchSettled;
    assert w2.page.sourceHtml == None && w2.autoSubmits == 0;
    var w3 := Step(w2, DefaultFetched(Loaded(html)));
    AutoSubmitStep(w2, html);
    assert w3.inFlight == 2 && |w3.sent| == 2 && w3.autoSubmits == 1;
    var w4 := Step(w3, AnswerArrived(NotOk(Some("bad file"))));
    assert w4.inFlight == 1 && w4.page.error == Some("bad file");
    var w5 := Step(w4, AnswerArrived(Ok(Some([frag]), None)));
    assert w5.inFlight == 0 && w5.page.error == Some("bad file") && w5.page.fragments == [frag];
    var trace := [FilesChosen([f]), SubmitClicked, DefaultFetched(Loaded(html)),
                  AnswerArrived(NotOk(Some("bad file"))), AnswerArrived(Ok(Some([frag]), None))];
    var t4 := [AnswerArrived(Ok(Some([frag]), None))];
    var t3 := [AnswerArrived(NotOk(Some("bad file")))] + t4;
    var t2 := [DefaultFetched(Loaded(html))] + t3;
    var t1 := [SubmitClicked] + t2;
    assert trace == [FilesChosen([f])] + t1;
    assert Run(w4, t4) == w5 by { assert t4[1..] == []; }
    assert Run(w3, t3) == Run(w4, t4) by { assert t3[1..] == t4; }
    assert Run(w2, t2) == Run(w3, t3) by { assert t2[1..] == t3; }
    assert Run(w1, t1) == Run(w2, t2) by { assert t1[1..] == t2; }
    assert Run(Mounted, trace) == Run(w1, t1) by { assert trace[1..] == t1; }
    assert Cards([frag]) == [CardOf(frag)];
  }

  /**
   * After fragments are shown, cancelling the file dialog (an empty choice)
   * and submitting while the default document is still pending sets the
   * guard's error and leaves the old fragments on screen.
   */
  lemma CancelledChoiceKeepsFragments(f: Blob, frag: Fragment)
    ensures var trace := [FilesChosen([f]), SubmitClicked, AnswerArrived(Ok(Some([frag]), None)),
                          FilesChosen([]), SubmitClicked];
      var v := Render(Run(Mounted, trace).page);
      v.banner == Some("Default HTML source is not loaded yet.") && v.fragmentList == Some([CardOf(frag)])
  {
    var w1 := Step(Mounted, FilesChosen([f]));
    var w2 := Step(w1, SubmitClicked);
    var w3 := Step(w2, AnswerArrived(Ok(Some([frag]), None)));
    var w4 := Step(w3, FilesChosen([]));
    var w5 := Step(w4, SubmitClicked);
    var trace := [FilesChosen([f]), SubmitClicked, AnswerArrived(Ok(Some([frag]), None)),
                  FilesChosen([]), SubmitClicked];
    assert Run(Mounted, trace) == Run(w1, trace[1..]);
    assert Run(w1, trace[1..]) == Run(w2, trace[2..]);
    assert Run(w2, trace[2..]) == Run(w3, trace[3..]);
    assert Run(w3, trace[3..]) == Run(w4, trace[4..]);
    assert Run(w4, trace[4..]) == Run(w5, []);
    assert Cards([frag]) == [CardOf(frag)];
  }

  /** A default fetch that fails after a file's fragments are shown puts its error beside them. */
  lemma LateFetchFailureBesideFragments(f: Blob, frag: Fragment)
    ensures var trace := [FilesChosen([f]), SubmitClicked, AnswerArrived(Ok(Some([frag]), None)),
                          DefaultFetched(LoadFailed)];
      var v := Render(Run(Mounted, trace).page);
      v.banner == Some("Failed to load default HTML source.") && v.fragmentList == Some([CardOf(frag)])
  {
    var w1 := Step(Mounted, FilesChosen([f]));
    assert w1 == Mounted.(page := Initial.(file := Some(f)));
    var w2 := Step(w1, SubmitClicked);
    assert w2.page.loading && w2.inFlight == 1 && w2.page.sourceHtml == None && !w2.fetchSettled;
    var w3 := Step(w2, AnswerArrived(Ok(Some([frag]), None)));
    assert w3.page.fragments == [frag] && w3.page.sourceHtml == None && !w3.fetchSettled;
    var w4 := Step(w3, DefaultFetched(LoadFailed));
    assert w4.page.fragments == [frag] && w4.page.error == Some(LoadFailedMessage);
    var trace := [FilesChosen([f]), SubmitClicked, AnswerArrived(Ok(Some([frag]), None)),
                  DefaultFetched(LoadFailed)];
    assert Run(Mounted, trace) == Run(w1, trace[1..]);
    assert Run(w1, trace[1..]) == Run(w2, trace[2..]);
    assert Run(w2, trace[2..]) == Run(w3, trace[3..]);
    assert Run(w3, trace[3..]) == Run(w4, []);
    assert Cards([frag]) == [CardOf(frag)];
  }
}
