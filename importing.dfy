/** The import handler's normalisation: a decoded JSON payload becomes the
    list of records that replaces the stored one. */
module Importing {
  import opened Wrappers
  import opened Text
  import opened Records

  /** A property value of an imported element, as far as the normalisation
      looks at it: a string, or any other JSON value, given by its
      truthiness and its `String(...)` text. */
  datatype JsonValue = Str(s: string) | Other(truthy: bool, text: string)

  /** An array element: `null`, or anything else with its properties (a
      number, a string or an array is an element with no such property). */
  datatype Element = NullElement | Object(props: map<string, JsonValue>)

  /** The parsed file: something other than an array, or an array. */
  datatype Payload = NotArray | Array(elements: seq<Element>)

  /** Why an import fails: the payload is not an array, or reading a property
      of the null element at `index` throws. */
  datatype ImportError = InvalidFormat | NullEntry(index: nat)

  /** `d.x` is truthy. */
  function Truthy(props: map<string, JsonValue>, key: string): (b: bool)
    ensures b ==> key in props
    ensures key in props && props[key].Str? ==> (b <==> props[key].s != "")
  {
    key in props && match props[key]
      case Str(s) => s != ""
      case Other(t, _) => t
  }

  /** `String(d.x || '')`. */
  function AsText(props: map<string, JsonValue>, key: string): (r: string)
    ensures !Truthy(props, key) ==> r == ""
    ensures key in props && props[key].Str? ==> r == props[key].s
  {
    if !Truthy(props, key) then ""
    else match props[key]
      case Str(s) => s
      case Other(_, text) => text
  }

  /** The record made from the element at `index`; `ids` and `clock` are
      crypto.randomUUID() and the ISO time, as called for that element.
      isFree is 'Paid' exactly for the string 'Paid' and 'Free' otherwise,
      name and company carry no surrounding spaces, a missing text field is
      empty, and a truthy id and createdAt are kept. */
  function Entry(props: map<string, JsonValue>, index: nat, ids: nat -> string, clock: nat -> string): (a: App)
    ensures a.isFree == "Paid" <==> "isFree" in props && props["isFree"] == Str("Paid")
    ensures a.isFree == "Paid" || a.isFree == "Free"
    ensures Trimmed(a.appName) && Trimmed(a.company)
    ensures a.appName == Trim(AsText(props, "appName"))
    ensures a.company == Trim(AsText(props, "company"))
    ensures a.website == AsText(props, "website")
    ensures a.domain == AsText(props, "domain")
    ensures a.summary == AsText(props, "summary")
    ensures a.logoUrl == AsText(props, "logoUrl")
    ensures a.audioUrl == AsText(props, "audioUrl")
    ensures a.videoUrl == AsText(props, "videoUrl")
    ensures Truthy(props, "id") ==> a.id == AsText(props, "id")
    ensures !Truthy(props, "id") ==> a.id == ids(index)
    ensures Truthy(props, "createdAt") ==> a.createdAt == AsText(props, "createdAt")
    ensures !Truthy(props, "createdAt") ==> a.createdAt == clock(index)
  {
    App(
      if Truthy(props, "id") then AsText(props, "id") else ids(index),
      Trim(AsText(props, "appName")),
      Trim(AsText(props, "company")),
      AsText(props, "website"),
      AsText(props, "domain"),
      if "isFree" in props && props["isFree"] == Str("Paid") then "Paid" else "Free",
      AsText(props, "summary"),
      AsText(props, "logoUrl"),
      AsText(props, "audioUrl"),
      AsText(props, "videoUrl"),
      if Truthy(props, "createdAt") then AsText(props, "createdAt") else clock(index))
  }

  /** The text fields of an imported record, read off the element directly:
      a missing or falsy property gives the empty field, a string property
      gives itself, trimmed for the name and the company. */
  lemma EntryTextFields(props: map<string, JsonValue>, index: nat, ids: nat -> string, clock: nat -> string)
    ensures var a := Entry(props, index, ids, clock);
      && (!Truthy(props, "appName") ==> a.appName == "")
      && (!Truthy(props, "company") ==> a.company == "")
      && (!Truthy(props, "website") ==> a.website == "")
      && (!Truthy(props, "domain") ==> a.domain == "")
      && (!Truthy(props, "summary") ==> a.summary == "")
      && (!Truthy(props, "logoUrl") ==> a.logoUrl == "")
      && (!Truthy(props, "audioUrl") ==> a.audioUrl == "")
      && (!Truthy(props, "videoUrl") ==> a.videoUrl == "")
      && ("appName" in props && props["appName"].Str? ==> a.appName == Trim(props["appName"].s))
      && ("company" in props && props["company"].Str? ==> a.company == Trim(props["company"].s))
      && ("website" in props && props["website"].Str? ==> a.website == props["website"].s)
      && ("domain" in props && props["domain"].Str? ==> a.domain == props["domain"].s)
      && ("summary" in props && props["summary"].Str? ==> a.summary == props["summary"].s)
      && ("logoUrl" in props && props["logoUrl"].Str? ==> a.logoUrl == props["logoUrl"].s)
      && ("audioUrl" in props && props["audioUrl"].Str? ==> a.audioUrl == props["audioUrl"].s)
      && ("videoUrl" in props && props["videoUrl"].Str? ==> a.videoUrl == props["videoUrl"].s)
  {
    var a := Entry(props, index, ids, clock);
    assert !Truthy(props, "appName") ==> a.appName == Trim("");
    assert !Truthy(props, "company") ==> a.company == Trim("");
    TrimOfTrimmed("");
  }

  /** `data.map(entry)` over the elements from position `offset` on; the
      first null element stops it with a TypeError. */
  function MapFrom<B>(elems: seq<Element>, offset: nat, entry: (map<string, JsonValue>, nat) -> B): (r: Result<seq<B>, ImportError>)
    ensures r.Ok? ==> |r.value| == |elems|
    ensures r.Err? ==> r.error.NullEntry? && offset <= r.error.index < offset + |elems|
    decreases |elems|
  {
    if elems == [] then Ok([])
    else if elems[0].NullElement? then Err(NullEntry(offset))
    else
      match MapFrom(elems[1..], offset + 1, entry)
      case Err(e) => Err(e)
      case Ok(rest) => Ok([entry(elems[0].props, offset)] + rest)
  }

  /** The import's check and map: a payload that is not an array is rejected. */
  function Normalize(p: Payload, ids: nat -> string, clock: nat -> string): (r: Result<seq<App>, ImportError>)
    ensures p.NotArray? ==> r == Err(InvalidFormat)
    ensures r.Ok? ==> p.Array? && |r.value| == |p.elements|
  {
    match p
    case NotArray => Err(InvalidFormat)
    case Array(elems) =>
      var entry := (props, i) => Entry(props, i, ids, clock);
      if MapFrom(elems, 0, entry).Ok? then MapEntries(elems, 0, entry); MapFrom(elems, 0, entry)
      else MapFrom(elems, 0, entry)
  }

  /** The map succeeds exactly when no element is null. */
  lemma {:induction false} MapOkIff<B>(elems: seq<Element>, offset: nat, entry: (map<string, JsonValue>, nat) -> B)
    ensures MapFrom(elems, offset, entry).Ok? <==> forall i :: 0 <= i < |elems| ==> elems[i].Object?
    decreases |elems|
  {
    if elems != [] && elems[0].Object? {
      MapOkIff(elems[1..], offset + 1, entry);
      if MapFrom(elems[1..], offset + 1, entry).Ok? {
        forall i | 0 <= i < |elems| ensures elems[i].Object? {
          if i > 0 { assert elems[i] == elems[1..][i - 1]; }
        }
      } else {
        var i :| 0 <= i < |elems[1..]| && !elems[1..][i].Object?;
        assert elems[i + 1] == elems[1..][i];
      }
    }
  }

  /** A successful map keeps the length and makes element i into Entry i. */
  lemma {:induction false} MapEntries<B>(elems: seq<Element>, offset: nat, entry: (map<string, JsonValue>, nat) -> B)
    requires MapFrom(elems, offset, entry).Ok?
    ensures var apps := MapFrom(elems, offset, entry).value;
      && |apps| == |elems|
      && forall i :: 0 <= i < |elems| ==> elems[i].Object? && apps[i] == entry(elems[i].props, offset + i)
    decreases |elems|
  {
    if elems != [] {
      MapEntries(elems[1..], offset + 1, entry);
      var apps := MapFrom(elems, offset, entry).value;
      var rest := MapFrom(elems[1..], offset + 1, entry).value;
      assert apps == [entry(elems[0].props, offset)] + rest;
      forall i | 0 < i < |elems|
        ensures elems[i].Object? && apps[i] == entry(elems[i].props, offset + i)
      {
        assert elems[i] == elems[1..][i - 1];
        assert apps[i] == rest[i - 1];
      }
    }
  }

  /** A failed map reports the first null element. */
  lemma {:induction false} MapFirstNull<B>(elems: seq<Element>, offset: nat, entry: (map<string, JsonValue>, nat) -> B)
    requires MapFrom(elems, offset, entry).Err?
    ensures exists k :: FirstNull(elems, k) && MapFrom(elems, offset, entry).error == NullEntry(offset + k)
    decreases |elems|
  {
    if elems[0].NullElement? {
      assert FirstNull(elems, 0);
    } else {
      MapFirstNull(elems[1..], offset + 1, entry);
      var k :| FirstNull(elems[1..], k) && MapFrom(elems[1..], offset + 1, entry).error == NullEntry(offset + 1 + k);
      assert elems[k + 1] == elems[1..][k];
      forall j | 0 < j < k + 1 ensures elems[j].Object? {
        assert elems[j] == elems[1..][j - 1];
      }
      assert FirstNull(elems, k + 1);
    }
  }

  /** Element `k` is the first null element. */
  predicate FirstNull(elems: seq<Element>, k: int) {
    0 <= k < |elems| && elems[k].NullElement? && forall j :: 0 <= j < k ==> elems[j].Object?
  }

  /** An array imports exactly when none of its elements is null. */
  lemma ImportsIffNoNull(elems: seq<Element>, ids: nat -> string, clock: nat -> string)
    ensures Normalize(Array(elems), ids, clock).Ok? <==> forall i :: 0 <= i < |elems| ==> elems[i].Object?
  {
    MapOkIff(elems, 0, (props, i) => Entry(props, i, ids, clock));
  }

  /** A successful import has one record per element, in order: element i
      becomes Entry i. */
  lemma ImportedRecords(elems: seq<Element>, ids: nat -> string, clock: nat -> string)
    requires Normalize(Array(elems), ids, clock).Ok?
    ensures var apps := Normalize(Array(elems), ids, clock).value;
      && |apps| == |elems|
      && forall i :: 0 <= i < |elems| ==> elems[i].Object? && apps[i] == Entry(elems[i].props, i, ids, clock)
  {
    var entry := (props, i) => Entry(props, i, ids, clock);
    assert Normalize(Array(elems), ids, clock) == MapFrom(elems, 0, entry);
    MapEntries(elems, 0, entry);
  }

  /** A failed import of an array names its first null element. */
  lemma ImportErrorIsFirstNull(elems: seq<Element>, ids: nat -> string, clock: nat -> string)
    requires Normalize(Array(elems), ids, clock).Err?
    ensures exists k :: FirstNull(elems, k) && Normalize(Array(elems), ids, clock).error == NullEntry(k)
  {
    MapFirstNull(elems, 0, (props, i) => Entry(props, i, ids, clock));
  }
}
