/** A row's `modification_history`: a list of changes, each stored in the
    CSV column as the JSON text `json.dumps(changes)`. The generators keep
    the list itself and render it only when a row is written out. */
module History {
  import opened Wrappers
  import Json

  /** One `{'date', 'field', 'old', 'new'}` entry; `oldValue` is `None`
      for the `None` (JSON `null`) of a creation entry. */
  datatype Change = Change(date: string, field: string, oldValue: Option<string>, newValue: string)

  function ChangeJson(c: Change): Json.Json
  {
    Json.JObj([
      Json.Member("date", Json.JStr(c.date)),
      Json.Member("field", Json.JStr(c.field)),
      Json.Member("old", if c.oldValue.Some? then Json.JStr(c.oldValue.value) else Json.JNull),
      Json.Member("new", Json.JStr(c.newValue))])
  }

  /** The column's text: `json.dumps` of the list of entries. */
  function HistoryText(h: seq<Change>): (text: string)
    ensures Json.Printable(text)
  {
    var j := Json.JArr(seq(|h|, i requires 0 <= i < |h| => ChangeJson(h[i])));
    Json.DumpsPrintable(j);
    Json.Dumps(j)
  }

  /** A row without changes holds `json.dumps([])`. */
  lemma EmptyHistoryText()
    ensures HistoryText([]) == "[]"
  {
  }
}
