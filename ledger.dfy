/** Committed records, the newest-first ledger of one grower, and how a
    document snapshot becomes the ledger. */
module Ledger {
  import opened Wrappers
  import opened Form

  /** `currentWeek`: a number while it is computed from the clock; after a
      manual edit it is the text of the number input, kept verbatim. */
  datatype WeekValue = Computed(number: int) | Entered(text: string)

  /** A committed entry: the creation time, the week, the grower's code, the
      six draft fields and the two derived values at commit time. */
  datatype Record = Record(
    id: int,
    week: WeekValue,
    agricultor: string,
    lote: string,
    color: string,
    prematuro: string,
    presente: string,
    novedades: string,
    cosecha: string,
    embolse: real,
    faltante: real)

  /** The draft fields a record carries. */
  function DraftOf(r: Record): Draft {
    Draft(r.lote, r.color, r.prematuro, r.presente, r.novedades, r.cosecha)
  }

  /** `{ id, week, agricultor, ...formData, ...calculatedFields }`. */
  function NewRecord(id: int, week: WeekValue, agricultor: string, d: Draft): (r: Record)
    requires WellFormed(d)
    ensures r.id == id && r.week == week && r.agricultor == agricultor
    ensures DraftOf(r) == d
    ensures Derived(r.embolse, r.faltante) == DerivedFields(d)
  {
    var c := DerivedFields(d);
    Record(id, week, agricultor, d.lote, d.color, d.prematuro, d.presente, d.novedades, d.cosecha,
           c.embolse, c.faltante)
  }

  /** `[newRecord, ...records]`: the ledger written on commit. */
  function Prepend(r: Record, ledger: seq<Record>): (u: seq<Record>)
    ensures |u| == |ledger| + 1
    ensures u[0] == r && u[1..] == ledger
  {
    [r] + ledger
  }

  /** What a snapshot of the grower's document carries: nothing when the
      document does not exist, otherwise its `records` field, which may be absent. */
  datatype DocSnapshot = NoDocument | Document(records: Option<seq<Record>>)

  /** The snapshot callback's new ledger: `data.records || []` when the
      document exists, `[]` when it does not. The old ledger plays no part. */
  function Ingest(doc: DocSnapshot): (ledger: seq<Record>)
    ensures doc.NoDocument? ==> ledger == []
    ensures doc.Document? ==> ledger == doc.records.GetOr([])
  {
    match doc
    case NoDocument => []
    case Document(records) => records.GetOr([])
  }

  /** Echo of a commit: the snapshot of the document just written yields the
      old ledger with the new record in front. */
  lemma {:induction false} IngestEchoOfCommit(r: Record, ledger: seq<Record>)
    ensures Ingest(Document(Some(Prepend(r, ledger)))) == [r] + ledger
    ensures |Ingest(Document(Some(Prepend(r, ledger))))| == |ledger| + 1
    ensures Ingest(Document(Some(Prepend(r, ledger))))[0] == r
  {
  }
}
