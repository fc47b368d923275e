/**
 * The log the interactive terminals display: an ordered list of entries,
 * each a `{ type, text }` record.
 */
module Transcript {

  /** The `type` tags the terminals use: 'banner', 'text', 'command', 'error'. */
  datatype Kind = Banner | Text | Command | Error

  datatype Entry = Entry(kind: Kind, text: string)

  /** `lines.map((line) => ({ type: 'text', text: line }))`: one `text` entry
      per line, in order. */
  function TextEntries(lines: seq<string>): (r: seq<Entry>)
    ensures |r| == |lines|
    ensures forall i :: 0 <= i < |lines| ==> r[i] == Entry(Text, lines[i])
  {
    if lines == [] then [] else [Entry(Text, lines[0])] + TextEntries(lines[1..])
  }

  /** The texts of a run of entries. */
  function Texts(entries: seq<Entry>): (r: seq<string>)
    ensures |r| == |entries|
    ensures forall i :: 0 <= i < |entries| ==> r[i] == entries[i].text
  {
    if entries == [] then [] else [entries[0].text] + Texts(entries[1..])
  }

  /** Mapping lines to entries loses nothing: the texts read back are the
      lines. */
  lemma TextsOfTextEntries(lines: seq<string>)
    ensures Texts(TextEntries(lines)) == lines
  {
  }
}
