/** The state the image-audit page keeps between clicks: the rows of the
    latest run (for the export) and the "errors only" switch, with the row
    marks the filter reads. */
module DiagnosticsPage {
  import opened Text
  import opened Catalog
  import opened Diagnostics
  import opened DiagnosticsCsv

  /** The class a table row gets: `err`, `warn`, or none. */
  datatype RowMark = Err | Warn | Plain

  /** The marking rule, on the status text as the page tests it. */
  function MarkOf(status: string): RowMark
  {
    if StartsWith(status, "BŁĄD") || status == "BRAK" then Err
    else if Contains(status, "ostrzeżeniami") then Warn
    else Plain
  }

  /** Rows that failed or have no image are marked as errors, rows with
      warnings as warnings, and only rows that are plainly OK stay unmarked. */
  lemma MarkOfStatus(s: Status)
    ensures MarkOf(StatusLabel(s)) == Err <==> s == Broken || s == Missing
    ensures MarkOf(StatusLabel(s)) == Warn <==> s == OkWithWarnings
    ensures MarkOf(StatusLabel(s)) == Plain <==> s == Ok
  {
    var text := StatusLabel(s);
    match s
    case Ok =>
      assert !StartsWith(text, "BŁĄD");
      assert !Includes(text, "ostrzeżeniami") by {
        forall i | 0 <= i <= |text|
          ensures !OccursAt(text, "ostrzeżeniami", i)
        {
        }
      }
    case OkWithWarnings =>
      assert !StartsWith(text, "BŁĄD") by {
        assert text[0] != "BŁĄD"[0];
      }
      assert OccursAt(text, "ostrzeżeniami", 6) by {
        assert text[6..6 + |"ostrzeżeniami"|] == "ostrzeżeniami";
      }
    case Broken =>
      assert text[..4] == "BŁĄD";
    case Missing =>
  }

  /** Whether `applyFilter` leaves a row visible. */
  predicate Shown(row: Row, onlyErrors: bool)
  {
    !onlyErrors || MarkOf(StatusLabel(row.status)) != Plain
  }

  /** With the switch off every row is shown; with it on exactly the rows
      that are not plainly OK. */
  lemma ShownRows(row: Row, onlyErrors: bool)
    ensures Shown(row, onlyErrors) <==> !onlyErrors || row.status != Ok
  {
    MarkOfStatus(row.status);
  }

  const ShowAllText: string := "Pokaż wszystkie"
  const ShowErrorsText: string := "Pokaż tylko błędy"

  class AuditPage {
    var onlyErrors: bool
    var lastRows: seq<Row>
    var toggleLabel: string

    ghost predicate Valid()
      reads this
    {
      toggleLabel == (if onlyErrors then ShowAllText else ShowErrorsText)
    }

    constructor()
      ensures Valid()
      ensures !onlyErrors && lastRows == []
    {
      onlyErrors := false;
      lastRows := [];
      toggleLabel := ShowErrorsText;
    }

    /** `runAudit`: `lastRows` is emptied first; a value of `recipesData`
        that is neither a list nor falsy makes the run throw (no summary)
        after that; otherwise `lastRows` becomes the rows of this run. */
    method RunAudit(data: RecipesGlobal, dupChecked: bool, resolved: Resolutions, firstEvents: seq<ProbeEvent>)
      returns (summary: Option<Summary>)
      requires Valid()
      requires data.RecipeList? ==> |firstEvents| == |data.recipes|
      requires data.Unset? ==> firstEvents == []
      modifies this
      ensures Valid()
      ensures onlyErrors == old(onlyErrors)
      ensures data.OtherValue? ==> summary.None? && lastRows == []
      ensures data.Unset? ==> lastRows == [] && summary == Some(Summary(0, 0, 0, 0, 0, []))
      ensures data.RecipeList? ==>
        var list := data.recipes;
        && summary.Some? && summary.value.total == |list| == |lastRows|
        && (forall i :: 0 <= i < |list| ==>
              lastRows[i] == RecordRow(list[i], dupChecked, DupMapOf(list, dupChecked), resolved, firstEvents[i]))
        && summary.value.ok + summary.value.warn + summary.value.broken + summary.value.missing == |list|
    {
      lastRows := [];
      var list: seq<Recipe>;
      match data {
        case OtherValue =>
          return None;
        case Unset =>
          list := [];
        case RecipeList(l) =>
          list := l;
      }
      var rows, s := Audit(list, dupChecked, resolved, firstEvents);
      lastRows := rows;
      summary := Some(s);
    }

    /** `exportCsv` writes the CSV text of the latest run's rows. */
    method ExportCsv() returns (text: string)
      ensures text == CsvText(lastRows)
    {
      text := ToCsv(lastRows);
    }

    /** The "errors only" button flips the switch and its text. */
    method ToggleErrors()
      requires Valid()
      modifies this
      ensures Valid()
      ensures onlyErrors == !old(onlyErrors) && lastRows == old(lastRows)
    {
      onlyErrors := !onlyErrors;
      toggleLabel := if onlyErrors then ShowAllText else ShowErrorsText;
    }
  }
}
