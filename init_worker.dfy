/** The editor's `MonacoEnvironment.getWorker`: which language worker a label gets. */
module InitWorker {
  datatype WorkerKind = JsonWorker | CssWorker | HtmlWorker | TsWorker | EditorWorker

  /** `getWorker(_, label)`: exact, case-sensitive tests in order; anything else gets the generic editor worker. */
  function WorkerFor(languageId: string): (r: WorkerKind)
    ensures r == JsonWorker <==> languageId == "json"
    ensures r == CssWorker <==> languageId == "css" || languageId == "scss" || languageId == "less"
    ensures r == HtmlWorker <==> languageId == "html" || languageId == "handlebars" || languageId == "razor"
    ensures r == TsWorker <==> languageId == "typescript" || languageId == "javascript"
  {
    if languageId == "json" then JsonWorker
    else if languageId == "css" || languageId == "scss" || languageId == "less" then CssWorker
    else if languageId == "html" || languageId == "handlebars" || languageId == "razor" then HtmlWorker
    else if languageId == "typescript" || languageId == "javascript" then TsWorker
    else EditorWorker
  }

  /** The same choice as a table of label and worker pairs. */
  const Table: seq<(string, WorkerKind)> := [
    ("json", JsonWorker), ("css", CssWorker), ("scss", CssWorker), ("less", CssWorker),
    ("html", HtmlWorker), ("handlebars", HtmlWorker), ("razor", HtmlWorker),
    ("typescript", TsWorker), ("javascript", TsWorker)]

  /** The first entry for `languageId`, or the editor worker when there is none. */
  function Lookup(table: seq<(string, WorkerKind)>, languageId: string): WorkerKind {
    if table == [] then EditorWorker
    else if table[0].0 == languageId then table[0].1
    else Lookup(table[1..], languageId)
  }

  /** `Lookup` returns the worker of the first entry whose label matches. */
  lemma {:induction false} LookupFirst(table: seq<(string, WorkerKind)>, languageId: string, k: nat)
    requires k < |table| && table[k].0 == languageId
    requires forall j :: 0 <= j < k ==> table[j].0 != languageId
    ensures Lookup(table, languageId) == table[k].1
  {
    if k > 0 {
      LookupFirst(table[1..], languageId, k - 1);
    }
  }

  /** With no matching entry, `Lookup` falls through to the editor worker. */
  lemma {:induction false} LookupNone(table: seq<(string, WorkerKind)>, languageId: string)
    requires forall j :: 0 <= j < |table| ==> table[j].0 != languageId
    ensures Lookup(table, languageId) == EditorWorker
  {
    if table != [] {
      LookupNone(table[1..], languageId);
    }
  }

  /** The branch chain and the table agree on every label. */
  lemma WorkerForIsTable(languageId: string)
    ensures WorkerFor(languageId) == Lookup(Table, languageId)
  {
    var k :| 0 <= k <= |Table| && (k < |Table| ==> Table[k].0 == languageId) && forall j :: 0 <= j < k ==> Table[j].0 != languageId;
    if k < |Table| {
      LookupFirst(Table, languageId, k);
    } else {
      LookupNone(Table, languageId);
    }
  }

  /** A label outside the table gets the generic worker: the choice is total. */
  lemma UnknownLabelsGetEditorWorker(languageId: string)
    requires forall i :: 0 <= i < |Table| ==> Table[i].0 != languageId
    ensures WorkerFor(languageId) == EditorWorker
  {
    WorkerForIsTable(languageId);
    LookupNone(Table, languageId);
  }
}
