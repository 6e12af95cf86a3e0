/**
 * What the page shows for a given state: the character-count line, the error
 * banner, the fragment list and the submit button. Markup and styling are
 * not modelled; a number is shown as its base-10 text, an absent raw length
 * as nothing.
 */
module Presenter {
  import opened Wrappers
  import opened Decimal
  import opened Session

  /** One fragment as displayed: its file name, its raw length text and its content. */
  datatype Card = Card(title: string, rawLength: string, content: string)

  datatype View = View(
    summary: Option<string>,          // the total character count line, when shown
    banner: Option<string>,           // the error message, when shown
    fragmentList: Option<seq<Card>>,  // the fragment section, when shown
    submitDisabled: bool,
    submitLabel: string)

  const BusyLabel: string := "В процессе..."
  const IdleLabel: string := "Разделить HTML"

  function CardOf(f: Fragment): Card {
    Card(f.filename, match f.rawLength case Some(n) => IntegerString(n) case None => "", f.content)
  }

  /** `fragments.map(...)`: one card per fragment, in the order received. */
  function Cards(fs: seq<Fragment>): (cs: seq<Card>)
    ensures |cs| == |fs|
    ensures forall i :: 0 <= i < |fs| ==> cs[i] == CardOf(fs[i])
  {
    if fs == [] then [] else [CardOf(fs[0])] + Cards(fs[1..])
  }

  function Render(s: Slots): View {
    View(
      if s.totalCharacters.Some? then Some(IntegerString(s.totalCharacters.value)) else None,
      if Truthy(s.error) then s.error else None,
      if |s.fragments| > 0 then Some(Cards(s.fragments)) else None,
      s.loading,
      if s.loading then BusyLabel else IdleLabel)
  }

  /** Each part of the view is shown exactly when its slot says so. */
  lemma RenderShows(s: Slots)
    ensures var v := Render(s);
      && (v.summary.Some? <==> s.totalCharacters.Some?)
      && (v.summary.Some? ==> ParseInteger(v.summary.value) == s.totalCharacters)
      && (v.banner.Some? <==> s.error.Some? && s.error.value != "")
      && (v.banner.Some? ==> v.banner == s.error)
      && (v.fragmentList.Some? <==> |s.fragments| > 0)
      && (v.submitDisabled <==> s.loading)
  {
  }

  /** A fragment's card shows its file name, its content verbatim, and its raw length when present. */
  lemma CardShowsFragment(s: Slots, i: nat)
    requires i < |s.fragments|
    ensures var v := Render(s);
      && v.fragmentList.Some? && |v.fragmentList.value| == |s.fragments|
      && v.fragmentList.value[i].title == s.fragments[i].filename
      && v.fragmentList.value[i].content == s.fragments[i].content
      && (s.fragments[i].rawLength.Some? ==>
            ParseInteger(v.fragmentList.value[i].rawLength) == s.fragments[i].rawLength)
      && (s.fragments[i].rawLength.None? ==> v.fragmentList.value[i].rawLength == "")
  {
  }

  /** Straight after a submission that passes the guard: no results, no error, and a disabled busy button. */
  lemma ViewRightAfterSubmit(s: Slots)
    requires HasSource(s)
    ensures var v := Render(Submit(s).state);
      && v.summary.None? && v.banner.None? && v.fragmentList.None?
      && v.submitDisabled && v.submitLabel == "В процессе..."
  {
  }

  /** After an ok answer to a lone request: no banner, the fragments in order, the count if sent. */
  lemma ViewAfterSuccess(s: Slots, fs: seq<Fragment>, total: Option<int>)
    requires HasSource(s)
    ensures var v := Render(Complete(Submit(s).state, Ok(Some(fs), total)));
      && v.banner.None? && !v.submitDisabled
      && (v.fragmentList.Some? <==> |fs| > 0)
      && (|fs| > 0 ==> v.fragmentList == Some(Cards(fs)))
      && (v.summary.Some? <==> total.Some?)
  {
  }

  /** After a failed lone request: the message alone, with no fragments and no count. */
  lemma ViewAfterFailure(s: Slots, o: Outcome)
    requires HasSource(s) && !o.Ok?
    ensures var t := Complete(Submit(s).state, o);
      var v := Render(t);
      && v.fragmentList.None? && v.summary.None? && !v.submitDisabled
      && (v.banner.Some? <==> t.error.value != "")
  {
  }

  /** The 200 answer with one fragment "a.html" of raw length 7 and a total of 100. */
  lemma OneFragmentExample(s: Slots)
    requires HasSource(s)
    ensures var frag := Fragment("a.html", "<p>x</p>", Some(7));
      var v := Render(Complete(Submit(s).state, Ok(Some([frag]), Some(100))));
      && v.banner == None && v.summary == Some("100")
      && v.fragmentList == Some([Card("a.html", "7", "<p>x</p>")])
  {
    var frag := Fragment("a.html", "<p>x</p>", Some(7));
    assert IntegerString(7) == "7";
    assert IntegerString(100) == "100";
    assert Cards([frag]) == [CardOf(frag)];
  }

  /** The 400 answer whose body is {"error": "bad file"}. */
  lemma BadFileExample(s: Slots)
    requires HasSource(s)
    ensures var v := Render(Complete(Submit(s).state, NotOk(Some("bad file"))));
      v.banner == Some("bad file") && v.fragmentList == None
  {
  }
}
