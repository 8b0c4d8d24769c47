/** The add-app form: the field validators, the form check that guards the
    submit handler, and the record the form produces. */
module AddForm {
  import opened Wrappers
  import opened Text
  import opened Records

  predicate IsAsciiLetter(c: char) {
    'A' <= c <= 'Z' || 'a' <= c <= 'z'
  }

  predicate IsAsciiDigit(c: char) {
    '0' <= c <= '9'
  }

  /** validators.appName, the pattern /^[A-Za-z]+$/. */
  function ValidAppName(v: string): (b: bool)
    ensures b ==> ValidCompany(v) && Trimmed(v)
    ensures b ==> forall i :: 0 <= i < |v| ==> !IsAsciiDigit(v[i])
  {
    |v| > 0 && forall i :: 0 <= i < |v| ==> IsAsciiLetter(v[i])
  }

  /** validators.company, the pattern /^[A-Za-z0-9]+$/. */
  function ValidCompany(v: string): (b: bool)
    ensures b ==> v != [] && Trimmed(v)
    ensures b ==> forall i :: 0 <= i < |v| ==> !IsSpace(v[i])
  {
    |v| > 0 && forall i :: 0 <= i < |v| ==> IsAsciiLetter(v[i]) || IsAsciiDigit(v[i])
  }

  /** validators.required: the value is present and not blank once trimmed.
      `None` is the `undefined` of a radio group with nothing checked. */
  function Required(v: Option<string>): (b: bool)
    ensures b ==> v.Some? && v.value != []
    ensures v == None || v == Some("") ==> !b
  {
    v.Some? && |Trim(v.value)| > 0
  }

  /** `required` holds exactly when the value has a character that is not a space. */
  lemma RequiredIff(v: string)
    ensures Required(Some(v)) <==> exists i :: 0 <= i < |v| && !IsSpace(v[i])
  {
    var r := Trim(v);
    TrimIsInfix(v);
    var k :| SpaceAround(v, r, k);
    if r != [] {
      assert v[k] == r[0];
    }
  }

  /** A valid app name has no space and no digit and is left alone by trim. */
  lemma ValidAppNameShape(v: string)
    requires ValidAppName(v)
    ensures forall i :: 0 <= i < |v| ==> !IsSpace(v[i]) && !IsAsciiDigit(v[i])
    ensures Trim(v) == v
  {
    forall i | 0 <= i < |v|
      ensures !IsSpace(v[i]) && !IsAsciiDigit(v[i])
    {
      assert IsAsciiLetter(v[i]);
    }
    TrimOfTrimmed(v);
  }

  /** The six fields the form reports errors for. */
  datatype Field = AppName | Company | Website | Domain | IsFree | Summary

  const Checked: seq<Field> := [AppName, Company, Website, Domain, IsFree, Summary]

  /** The values of the form's controls, as the DOM gives them. */
  datatype Form = Form(
    appName: string,
    company: string,
    website: string,
    domain: string,
    isFree: Option<string>,
    summary: string,
    logoUrl: string,
    audioUrl: string,
    videoUrl: string)

  /** The check the form applies to one field. The URL check (`new URL`) is
      the caller's `urlValid`. `domain` is the select's raw value. */
  function Passes(form: Form, urlValid: string -> bool, f: Field): (b: bool)
    ensures b && f == IsFree ==> form.isFree.Some? && form.isFree.value != []
    ensures b && f == Domain ==> form.domain != []
    ensures b && f == AppName ==> Trim(form.appName) != []
    ensures b && f == Company ==> Trim(form.company) != []
    ensures b && f == Summary ==> Trim(form.summary) != []
    ensures f == Website ==> (b <==> urlValid(Trim(form.website)))
  {
    match f
    case AppName => ValidAppName(Trim(form.appName))
    case Company => ValidCompany(Trim(form.company))
    case Website => urlValid(Trim(form.website))
    case Domain => Required(Some(form.domain))
    case IsFree => Required(form.isFree)
    case Summary => Required(Some(Trim(form.summary)))
  }

  /** The message each failing check writes. */
  function Message(f: Field): (m: string)
    ensures |m| > 0 && m[|m| - 1] == '.'
  {
    match f
    case AppName => "English letters only, no spaces."
    case Company => "Letters + digits only, no spaces."
    case Website => "Please enter a valid URL."
    case Domain => "Please select a domain."
    case IsFree => "Please choose Free or Paid."
    case Summary => "Please add a short summary."
  }

  /** setError on a map of error slots: only a field that has a slot is written. */
  function SetSlot(m: map<Field, string>, f: Field, message: string): map<Field, string> {
    if f in m then m[f := message] else m
  }

  /** The error elements of the form (`[data-for=name]`), keyed by the field
      they belong to; fields without an element are not keys. */
  class ErrorPanel {
    var messages: map<Field, string>

    constructor (slots: set<Field>)
      ensures messages == map f | f in slots :: ""
    {
      messages := map f | f in slots :: "";
    }

    method SetError(f: Field, message: string)
      modifies this
      ensures messages == SetSlot(old(messages), f, message)
    {
      if f in messages {
        messages := messages[f := message];
      }
    }
  }

  /** The slots after the listed fields are cleared one after another. */
  ghost function ClearSlots(m: map<Field, string>, fields: seq<Field>): map<Field, string>
    decreases |fields|
  {
    if fields == [] then m else SetSlot(ClearSlots(m, fields[..|fields| - 1]), fields[|fields| - 1], "")
  }

  /** setError for one failed check. */
  ghost function Mark(m: map<Field, string>, f: Field, failed: bool): map<Field, string> {
    if failed then SetSlot(m, f, Message(f)) else m
  }

  /** The verdict of every check on the given form. */
  function Verdicts(form: Form, urlValid: string -> bool): Field -> bool {
    f => Passes(form, urlValid, f)
  }

  /** The slots validateForm leaves: all six cleared, then the failing ones
      written in the order of the checks. */
  ghost function Reports(m: map<Field, string>, passed: Field -> bool): map<Field, string> {
    var cleared := ClearSlots(m, Checked);
    var m1 := Mark(cleared, AppName, !passed(AppName));
    var m2 := Mark(m1, Company, !passed(Company));
    var m3 := Mark(m2, Website, !passed(Website));
    var m4 := Mark(m3, Domain, !passed(Domain));
    var m5 := Mark(m4, IsFree, !passed(IsFree));
    Mark(m5, Summary, !passed(Summary))
  }

  /** The second validateForm: clear the six error slots, then write the
      message of every failing check; the result says all six passed. */
  method ValidateForm(form: Form, urlValid: string -> bool, panel: ErrorPanel) returns (ok: bool)
    modifies panel
    ensures ok <==> forall f :: Passes(form, urlValid, f)
    ensures panel.messages == Reports(old(panel.messages), Verdicts(form, urlValid))
    ensures panel.messages.Keys == old(panel.messages).Keys
    ensures forall f :: f in panel.messages ==>
      panel.messages[f] == if Passes(form, urlValid, f) then "" else Message(f)
  {
    var passes := Verdicts(form, urlValid);
    ok := true;
    ClearErrors(panel, Checked);
    ok := Check(panel, AppName, passes(AppName), ok);
    ok := Check(panel, Company, passes(Company), ok);
    ok := Check(panel, Website, passes(Website), ok);
    ok := Check(panel, Domain, passes(Domain), ok);
    ok := Check(panel, IsFree, passes(IsFree), ok);
    ok := Check(panel, Summary, passes(Summary), ok);
    ReportsShape(old(panel.messages), passes);
  }

  /** One line of validateForm: when the check of `f` did not pass, write its
      message into its slot and clear the flag. */
  method Check(panel: ErrorPanel, f: Field, passed: bool, okBefore: bool) returns (ok: bool)
    modifies panel
    ensures ok == (okBefore && passed)
    ensures panel.messages == Mark(old(panel.messages), f, !passed)
  {
    ok := okBefore;
    if !passed {
      panel.SetError(f, Message(f));
      ok := false;
    }
  }

  /** The forEach that empties the error slot of each listed field. */
  method ClearErrors(panel: ErrorPanel, fields: seq<Field>)
    modifies panel
    ensures panel.messages == ClearSlots(old(panel.messages), fields)
  {
    for i := 0 to |fields|
      invariant panel.messages == ClearSlots(old(panel.messages), fields[..i])
    {
      assert fields[..i + 1][..i] == fields[..i];
      panel.SetError(fields[i], "");
    }
    assert fields[..|fields|] == fields;
  }

  /** Clearing keeps the set of slots and empties exactly the listed ones. */
  lemma {:induction false} ClearSlotsShape(m: map<Field, string>, fields: seq<Field>)
    ensures ClearSlots(m, fields).Keys == m.Keys
    ensures forall f :: f in m ==> ClearSlots(m, fields)[f] == if f in fields then "" else m[f]
    decreases |fields|
  {
    if fields != [] {
      var init := fields[..|fields| - 1];
      ClearSlotsShape(m, init);
      assert forall f :: f in fields <==> f in init || f == fields[|fields| - 1];
    }
  }

  /** After the checks of `done`: a slot holds its field's message when the
      field is in `done` and its check failed, and is empty otherwise. */
  ghost predicate Reported(m: map<Field, string>, passed: Field -> bool, done: set<Field>) {
    forall f :: f in m ==> m[f] == if f in done && !passed(f) then Message(f) else ""
  }

  lemma MarkStep(m: map<Field, string>, passed: Field -> bool, done: set<Field>, g: Field)
    requires Reported(m, passed, done) && g !in done
    ensures Mark(m, g, !passed(g)).Keys == m.Keys
    ensures Reported(Mark(m, g, !passed(g)), passed, done + {g})
  {
  }

  /** What validateForm leaves in the error slots: the same slots as before,
      each holding its field's message if that field's check failed and the
      empty string otherwise, whatever they held before. */
  lemma ReportsShape(m: map<Field, string>, passed: Field -> bool)
    ensures Reports(m, passed).Keys == m.Keys
    ensures forall f :: f in m ==> Reports(m, passed)[f] == if passed(f) then "" else Message(f)
  {
    var all := ReportsChain(m, passed);
    forall f | f in m ensures f in all {
      match f
      case AppName => case Company => case Website => case Domain => case IsFree => case Summary =>
    }
  }

  /** The six checks, one MarkStep each, from the cleared slots. */
  lemma ReportsChain(m: map<Field, string>, passed: Field -> bool) returns (all: set<Field>)
    ensures Reports(m, passed).Keys == m.Keys
    ensures Reported(Reports(m, passed), passed, all)
    ensures AppName in all && Company in all && Website in all
    ensures Domain in all && IsFree in all && Summary in all
  {
    var cleared := ClearedReported(m, passed);
    var m3, d3 := MarkThree(cleared, passed, {}, AppName, Company, Website);
    var m6, d6 := MarkThree(m3, passed, d3, Domain, IsFree, Summary);
    all := d6;
  }

  /** Three consecutive checks. */
  lemma MarkThree(m: map<Field, string>, passed: Field -> bool, done: set<Field>, a: Field, b: Field, c: Field)
    returns (m': map<Field, string>, done': set<Field>)
    requires Reported(m, passed, done)
    requires a !in done && b !in done && c !in done && a != b && a != c && b != c
    ensures m' == Mark(Mark(Mark(m, a, !passed(a)), b, !passed(b)), c, !passed(c))
    ensures m'.Keys == m.Keys
    ensures Reported(m', passed, done')
    ensures done' == done + {a, b, c}
  {
    var m1 := Mark(m, a, !passed(a));
    MarkStep(m, passed, done, a);
    var d1 := done + {a};
    var m2 := Mark(m1, b, !passed(b));
    MarkStep(m1, passed, d1, b);
    var d2 := d1 + {b};
    m' := Mark(m2, c, !passed(c));
    MarkStep(m2, passed, d2, c);
    done' := d2 + {c};
  }

  /** Before the first check every slot is empty. */
  lemma ClearedReported(m: map<Field, string>, passed: Field -> bool) returns (cleared: map<Field, string>)
    ensures cleared == ClearSlots(m, Checked)
    ensures cleared.Keys == m.Keys
    ensures Reported(cleared, passed, {})
  {
    cleared := ClearSlots(m, Checked);
    ClearSlotsShape(m, Checked);
    forall f: Field ensures f in Checked {
      assert f == Checked[0] || f == Checked[1] || f == Checked[2] || f == Checked[3] || f == Checked[4] || f == Checked[5];
    }
  }

  /** formToApp: the record a submitted form produces. The random id and the
      current time are the caller's. Reading the checked radio's value throws
      when none is checked, hence the precondition. */
  function FormToApp(form: Form, id: string, now: string): (a: App)
    requires form.isFree.Some?
    ensures a.appName == Trim(form.appName) && a.company == Trim(form.company)
    ensures a.website == Trim(form.website) && a.summary == Trim(form.summary)
    ensures a.logoUrl == Trim(form.logoUrl) && a.audioUrl == Trim(form.audioUrl)
    ensures a.videoUrl == Trim(form.videoUrl)
    ensures a.id == id && a.createdAt == now
    ensures a.domain == form.domain && a.isFree == form.isFree.value
    ensures Trimmed(a.appName) && Trimmed(a.company) && Trimmed(a.website) && Trimmed(a.summary)
    ensures Trimmed(a.logoUrl) && Trimmed(a.audioUrl) && Trimmed(a.videoUrl)
  {
    App(id, Trim(form.appName), Trim(form.company), Trim(form.website), form.domain,
        form.isFree.value, Trim(form.summary), Trim(form.logoUrl), Trim(form.audioUrl),
        Trim(form.videoUrl), now)
  }

  /** A record made from a form that passed validateForm satisfies the
      validators itself: its name and company match their patterns, its
      website is a valid URL, its summary and isFree are not blank, and its
      text fields carry no surrounding spaces. */
  lemma SubmittedRecordIsValid(form: Form, urlValid: string -> bool, id: string, now: string)
    requires forall f :: Passes(form, urlValid, f)
    ensures form.isFree.Some?
    ensures var a := FormToApp(form, id, now);
      && ValidAppName(a.appName) && ValidCompany(a.company) && urlValid(a.website)
      && Required(Some(a.summary)) && Required(Some(a.isFree)) && Required(Some(a.domain))
      && Trimmed(a.appName) && Trimmed(a.company) && Trimmed(a.website) && Trimmed(a.summary)
      && Trimmed(a.logoUrl) && Trimmed(a.audioUrl) && Trimmed(a.videoUrl)
      && a.id == id && a.createdAt == now
  {
    assert Passes(form, urlValid, IsFree);
    assert Passes(form, urlValid, AppName) && Passes(form, urlValid, Company);
    assert Passes(form, urlValid, Website) && Passes(form, urlValid, Summary);
    assert Passes(form, urlValid, Domain);
    TrimOfTrimmed(Trim(form.summary));
  }
}
