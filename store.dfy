/** The stored list of records and the operations that replace it: adding
    from the form, importing, exporting and clearing. */
module Store {
  import opened Wrappers
  import opened Records
  import opened AddForm
  import Csv
  import Importing

  /** Why the export button refuses. */
  datatype ExportError = NothingToExport

  /** A record seen as the object toCSV reads. */
  function Objects(apps: seq<App>): (r: seq<Csv.Object>)
    ensures |r| == |apps|
  {
    seq(|apps|, i requires 0 <= i < |apps| => AsObject(apps[i]))
  }

  /** The cells a stored record exports: every field but the id, in header order. */
  lemma ExportedCells(a: App)
    ensures Csv.Values(AsObject(a)) ==
      [a.appName, a.company, a.website, a.domain, a.isFree, a.summary, a.logoUrl, a.audioUrl, a.videoUrl, a.createdAt]
  {
    var v := Csv.Values(AsObject(a));
    assert v[0] == a.appName && v[1] == a.company && v[2] == a.website;
    assert v[3] == a.domain && v[4] == a.isFree && v[5] == a.summary;
    assert v[6] == a.logoUrl && v[7] == a.audioUrl && v[8] == a.videoUrl && v[9] == a.createdAt;
  }

  /** The list under STORAGE_KEY. */
  class AppStore {
    var apps: seq<App>

    constructor ()
      ensures apps == []
    {
      apps := [];
    }

    /** The submit handler: when validateForm passes, the new record goes in
        front of the stored list; otherwise the list is left alone. */
    method Submit(form: Form, urlValid: string -> bool, panel: ErrorPanel, id: string, now: string) returns (added: bool)
      modifies this, panel
      ensures added <==> forall f :: Passes(form, urlValid, f)
      ensures added ==> form.isFree.Some? && apps == [FormToApp(form, id, now)] + old(apps)
      ensures !added ==> apps == old(apps)
      ensures panel.messages == Reports(old(panel.messages), Verdicts(form, urlValid))
    {
      added := ValidateForm(form, urlValid, panel);
      if added {
        assert Passes(form, urlValid, IsFree);
        apps := [FormToApp(form, id, now)] + apps;
      }
    }

    /** The import handler: on success the normalised records replace the
        stored list; on failure nothing is stored. */
    method Import(payload: Importing.Payload, ids: nat -> string, clock: nat -> string)
      returns (r: Result<(), Importing.ImportError>)
      modifies this
      ensures r.Ok? <==> Importing.Normalize(payload, ids, clock).Ok?
      ensures r.Ok? ==> apps == Importing.Normalize(payload, ids, clock).value
      ensures r.Err? ==> apps == old(apps) && r.error == Importing.Normalize(payload, ids, clock).error
    {
      var normalized := Importing.Normalize(payload, ids, clock);
      if normalized.Err? {
        return Err(normalized.error);
      }
      apps := normalized.value;
      r := Ok(());
    }

    /** The export button: nothing to export when the list is empty,
        otherwise the CSV text, which decodes back to every record's cells. */
    method Export() returns (r: Result<string, ExportError>)
      ensures apps == [] <==> r.Err?
      ensures r.Ok? ==> r.value == Csv.Document(Objects(apps))
      ensures r.Ok? ==> Csv.Decode(r.value) == Some(Csv.Table(Objects(apps)))
    {
      if |apps| == 0 {
        return Err(NothingToExport);
      }
      var csv := Csv.ToCSV(Objects(apps));
      r := Ok(csv);
    }

    /** The clear button, once confirmed. */
    method Clear()
      modifies this
      ensures apps == []
    {
      apps := [];
    }
  }
}
