/** The checkout log route (`/api/admin/checkout-log`): an append-only list
    of log entries, read in full or for one radio. */
module CheckoutLogRoute {
  import opened Json
  import opened Types
  import opened Seqs
  import opened Http

  /** A POST body: each property may be missing. */
  datatype LogBody = LogBody(radioID: Option<string>, userID: Option<string>, operation: Option<string>)

  /** The query string of a GET. */
  datatype LogQuery = LogQuery(radioID: Option<string>, userID: Option<string>)

  function RadioIs(radioID: string): LogEntry -> bool {
    (e: LogEntry) => e.radioID == radioID
  }

  /** The entries about one radio, in stored order. */
  function ForRadio(entries: seq<LogEntry>, radioID: string): seq<LogEntry> {
    Filter(entries, RadioIs(radioID))
  }

  /** An entry is listed for a radio exactly when it is stored and about that radio. */
  lemma ForRadioExactly(entries: seq<LogEntry>, radioID: string, e: LogEntry)
    ensures e in ForRadio(entries, radioID) <==> e in entries && e.radioID == radioID
  {
    FilterMember(entries, RadioIs(radioID), e);
  }

  /** Appending an entry appends it to the listing of its own radio and to no other. */
  lemma ForRadioAfterAppend(entries: seq<LogEntry>, e: LogEntry, radioID: string)
    ensures ForRadio(entries + [e], radioID)
         == ForRadio(entries, radioID) + (if e.radioID == radioID then [e] else [])
  {
    FilterAppend(entries, [e], RadioIs(radioID));
    assert Filter([e], RadioIs(radioID)) == (if e.radioID == radioID then [e] else []) + Filter([], RadioIs(radioID));
  }

  /** POST's validation: every one of the three properties is truthy. */
  predicate Acceptable(body: LogBody) {
    Truthy(body.radioID) && Truthy(body.userID) && Truthy(body.operation)
  }

  /** The lowdb-backed store of the log file. `data` is the in-memory copy;
      None until the file has been read into it. */
  class CheckoutLogStore {
    var data: Option<seq<LogEntry>>

    constructor (stored: Option<seq<LogEntry>>)
      ensures data == stored
    {
      data := stored;
    }

    /** `checkoutLogDB.data || []`. */
    function Entries(): seq<LogEntry>
      reads this
    {
      data.GetOr([])
    }

    /** `initCheckoutLogDB`: a missing store becomes the empty list. */
    method Init()
      modifies this
      ensures data == Some(old(Entries()))
      ensures old(data).None? ==> Entries() == []
    {
      data := Some(Entries());
    }

    /** GET: the entries of the `radioID` query parameter when it is truthy,
        all entries otherwise; `userID` is not read. */
    method Get(query: LogQuery) returns (r: seq<LogEntry>)
      modifies this
      ensures data == Some(old(Entries()))
      ensures Truthy(query.radioID) ==> r == ForRadio(old(Entries()), query.radioID.value)
      ensures !Truthy(query.radioID) ==> r == old(Entries())
    {
      Init();
      var radioID := query.radioID;
      if Truthy(radioID) {
        r := ForRadio(Entries(), radioID.value);
      } else {
        r := Entries();
      }
    }

    /** POST: a body missing any of the three properties is refused before the
        store is read; otherwise one entry, stamped `now`, is appended. The
        operation is stored as received. */
    method Post(body: LogBody, now: string) returns (reply: Reply)
      modifies this
      ensures !Acceptable(body) ==> reply == Reply(400, "Missing required fields") && data == old(data)
      ensures Acceptable(body) ==>
        && reply == Reply(200, "Log entry added successfully")
        && data == Some(old(Entries()) + [LogEntry(body.radioID.value, body.userID.value, body.operation.value, now)])
    {
      if !Truthy(body.radioID) || !Truthy(body.userID) || !Truthy(body.operation) {
        return Reply(400, "Missing required fields");
      }
      var entry := LogEntry(body.radioID.value, body.userID.value, body.operation.value, now);
      Init();
      data := Some(data.value + [entry]);
      reply := Reply(200, "Log entry added successfully");
    }
  }
}
