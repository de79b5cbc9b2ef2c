/** The App component's state and its handlers: keystrokes, the week
    override, login, the guarded commit with its full-document write, and the
    snapshot callback that replaces the ledger. */
module KuaApp {
  import opened Wrappers
  import opened Calendar
  import opened Form
  import opened Ledger
  import opened Login

  /** `currentView`: 'form' or 'data'. */
  datatype View = FormView | DataView

  /** How a call of handleAddRecord ends: it returns at the guard, its
      `await setDoc` resolves, or the write is rejected (the await throws). */
  datatype CommitOutcome = Skipped | Written | WriteRejected

  /** The remote store: one document per grower code, whose `records` field
      is that grower's whole ledger. */
  class DocumentStore {
    var docs: map<string, seq<Record>>

    constructor ()
      ensures docs == map[]
    {
      docs := map[];
    }

    /** `setDoc(doc(db, DATA_COLLECTION, key), { records })`: a whole-document
        overwrite, last writer wins; `ok` is whether the network accepted it. */
    method SetDoc(key: string, records: seq<Record>, ok: bool)
      modifies this
      ensures docs == if ok then old(docs)[key := records] else old(docs)
    {
      if ok {
        docs := docs[key := records];
      }
    }

    /** The snapshot a listener on `key` receives. */
    function SnapshotOf(key: string): (doc: DocSnapshot)
      reads this
      ensures doc.Document? <==> key in docs
      ensures doc.Document? ==> doc.records == Some(docs[key])
    {
      if key in docs then Document(Some(docs[key])) else NoDocument
    }
  }

  class App {
    /** `db`: null when the store configuration could not be read. */
    const store: DocumentStore?
    /** `agricultorNumber`: None until login. */
    var agricultorNumber: Option<string>
    var currentView: View
    var currentWeek: WeekValue
    var isWeekOverridden: bool
    var formData: Draft
    /** The ledger on screen, newest first. */
    var records: seq<Record>
    var isAuthReady: bool

    /** The draft's numeric fields are accepted text, and the week is a
        computed ISO week exactly when it is not overridden. */
    ghost predicate Valid()
      reads this
    {
      && WellFormed(formData)
      && (isWeekOverridden <==> currentWeek.Entered?)
      && (currentWeek.Computed? ==> 1 <= currentWeek.number <= 53)
    }

    /** The component's first render; `today` is `new Date()`. */
    constructor (db: DocumentStore?, today: Date)
      requires ValidDate(today)
      ensures Valid()
      ensures store == db && agricultorNumber == None && currentView == FormView
      ensures currentWeek == Computed(WeekNumber(today)) && !isWeekOverridden
      ensures formData == InitialDraft && records == [] && !isAuthReady
    {
      store := db;
      agricultorNumber := None;
      currentView := FormView;
      currentWeek := Computed(WeekNumber(today));
      isWeekOverridden := false;
      formData := InitialDraft;
      records := [];
      isAuthReady := false;
      InitialDraftWellFormed();
    }

    /** `!db || !agricultorNumber || !isAuthReady` is false: the condition
        under which the ledger is subscribed to and a commit writes. */
    predicate Connected()
      reads this
    {
      store != null && agricultorNumber.Some? && agricultorNumber.value != "" && isAuthReady
    }

    /** The auth listener: a signed-in user makes the app ready; otherwise it
        asks for an anonymous sign-in, which is outside this model. */
    method OnAuthStateChanged(signedIn: bool)
      modifies this`isAuthReady
      ensures isAuthReady == (old(isAuthReady) || signedIn)
    {
      if signedIn {
        isAuthReady := true;
      }
    }

    /** handleLogin: the code is trimmed and upper-cased. The ledger is not
        cleared; the next snapshot replaces it. */
    method HandleLogin(code: string)
      modifies this`agricultorNumber
      ensures agricultorNumber == Some(Normalize(code))
      ensures records == old(records)
    {
      agricultorNumber := Some(Normalize(code));
    }

    /** handleInputChange. */
    method HandleInputChange(name: FieldName, value: string)
      requires Valid()
      modifies this`formData
      ensures Valid()
      ensures formData == UpdateField(old(formData), name, value)
    {
      UpdateFieldPreservesWellFormed(formData, name, value);
      formData := UpdateField(formData, name, value);
    }

    /** handleWeekChange: the input's text is kept as typed, without range
        check, and the week is marked overridden. */
    method HandleWeekChange(value: string)
      requires Valid()
      modifies this`currentWeek, this`isWeekOverridden
      ensures Valid()
      ensures currentWeek == Entered(value) && isWeekOverridden
    {
      currentWeek := Entered(value);
      isWeekOverridden := true;
    }

    /** resetToCurrentWeek; `today` is `new Date()`. */
    method ResetToCurrentWeek(today: Date)
      requires Valid() && ValidDate(today)
      modifies this`currentWeek, this`isWeekOverridden
      ensures Valid()
      ensures currentWeek == Computed(WeekNumber(today)) && !isWeekOverridden
    {
      currentWeek := Computed(WeekNumber(today));
      isWeekOverridden := false;
    }

    /** The snapshot callback: the ledger becomes the document's records, or
        empty; nothing of the old ledger survives. */
    method OnSnapshot(doc: DocSnapshot)
      modifies this`records
      ensures records == Ingest(doc)
    {
      match doc {
        case NoDocument =>
          records := [];
        case Document(recs) =>
          records := recs.GetOr([]);
      }
    }

    /** handleAddRecord; `now` is `Date.now()` and `writeSucceeds` is how the
        store answers. When connected it writes the new record in front of the
        ledger on screen; only a write that succeeds goes on to empty the
        numeric fields and show the ledger. The ledger on screen itself waits
        for the snapshot. */
    method HandleAddRecord(now: int, writeSucceeds: bool) returns (outcome: CommitOutcome)
      requires Valid()
      modifies this`formData, this`currentView, store
      ensures Valid()
      ensures records == old(records) && agricultorNumber == old(agricultorNumber)
      ensures currentWeek == old(currentWeek) && isWeekOverridden == old(isWeekOverridden)
      ensures !old(Connected()) ==>
        && outcome == Skipped
        && formData == old(formData) && currentView == old(currentView)
        && (store != null ==> store.docs == old(store.docs))
      ensures old(Connected()) ==>
        var key := old(agricultorNumber).value;
        var r := NewRecord(now, old(currentWeek), key, old(formData));
        && store.docs == (if writeSucceeds then old(store.docs)[key := Prepend(r, old(records))] else old(store.docs))
        && outcome == (if writeSucceeds then Written else WriteRejected)
        && formData == (if writeSucceeds then ClearAmounts(old(formData)) else old(formData))
        && currentView == (if writeSucceeds then DataView else old(currentView))
    {
      if !Connected() {
        return Skipped;
      }
      var key := agricultorNumber.value;
      var newRecord := NewRecord(now, currentWeek, key, formData);
      var updatedRecords := Prepend(newRecord, records);
      store.SetDoc(key, updatedRecords, writeSucceeds);
      if !writeSucceeds {
        return WriteRejected;
      }
      formData := ClearAmounts(formData);
      currentView := DataView;
      outcome := Written;
    }
  }

  /** A commit followed by the echo of its own write: the ledger on screen is
      the committed record, carrying the week, the code, the draft and its
      derived values, in front of the previous ledger. */
  method CommitThenEcho(app: App, now: int) returns (r: Record)
    requires app.Valid() && app.Connected()
    modifies app, app.store
    ensures app.Valid()
    ensures |app.records| == |old(app.records)| + 1
    ensures app.records == [r] + old(app.records)
    ensures r.id == now && r.week == old(app.currentWeek) && r.agricultor == old(app.agricultorNumber).value
    ensures DraftOf(r) == old(app.formData)
    ensures Derived(r.embolse, r.faltante) == DerivedFields(old(app.formData))
    ensures app.formData == ClearAmounts(old(app.formData)) && app.currentView == DataView
  {
    var key := app.agricultorNumber.value;
    r := NewRecord(now, app.currentWeek, key, app.formData);
    var outcome := app.HandleAddRecord(now, true);
    app.OnSnapshot(app.store.SnapshotOf(key));
  }
}
