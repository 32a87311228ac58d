/** The `Script` record shared by the dashboard, the editor, the audio action and the n8n
    import: one row of the `scripts` table. */
module Scripts {
  import opened Wrappers

  /** The workflow state `'new' | 'editing' | 'done'`. */
  datatype Status = New | Editing | Done

  /** A row of the `scripts` table; `None` stands for a SQL `null`. */
  datatype Script = Script(
    id: string,
    createdAt: string,
    sourceUrl: Option<string>,
    rawText: string,
    title: string,
    contentCnDraft: string,
    contentCnFinal: Option<string>,
    contentEn: Option<string>,
    audioUrl: Option<string>,
    status: Status,
    tags: seq<string>)

  /** The text stored in the `status` column. */
  function StatusName(s: Status): string {
    match s
    case New => "new"
    case Editing => "editing"
    case Done => "done"
  }

  /** The status whose stored text is `s`, if any: the test
      `['new', 'editing', 'done'].includes(s)`. */
  function ParseStatus(s: string): (r: Option<Status>)
    ensures r.Some? ==> StatusName(r.value) == s
  {
    if s == "new" then Some(New)
    else if s == "editing" then Some(Editing)
    else if s == "done" then Some(Done)
    else None
  }

  /** Every status survives being stored as text and read back. */
  lemma ParseStatusName(s: Status)
    ensures ParseStatus(StatusName(s)) == Some(s)
  {
  }
}
