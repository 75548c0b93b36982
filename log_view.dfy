/** The history table of a radio or a user (`components/checkout-log.tsx`):
    the entries newest first, ten to a page, a title, and the columns that
    fit the subject. Dates are ISO 8601 UTC strings of one width, so their
    time order is their lexicographic order. */
module LogView {
  import opened Json
  import opened Types
  import opened Strings
  import opened ArraySort

  const LogsPerPage := 10
  const NoLogsMessage := "No logs available."

  /** `(a, b) => new Date(b.date).getTime() - new Date(a.date).getTime()`. */
  function NewestFirst(a: LogEntry, b: LogEntry): int {
    Compare(b.date, a.date)
  }

  predicate AnyEntry(e: LogEntry) { true }

  /** Newest-first is a total preorder on entries. */
  lemma NewestFirstConsistent()
    ensures ConsistentOn(NewestFirst, AnyEntry)
  {
    forall x: LogEntry, y: LogEntry | NewestFirst(x, y) > 0 ensures NewestFirst(y, x) <= 0 {
      CompareAntisymmetric(y.date, x.date);
    }
    forall x: LogEntry, y: LogEntry, z: LogEntry | NewestFirst(x, y) <= 0 && NewestFirst(y, z) <= 0
      ensures NewestFirst(x, z) <= 0
    {
      CompareTransitive(z.date, y.date, x.date);
    }
  }

  /** `logs.sort(newest first)`: the same entries, none after an older one. */
  method SortNewestFirst(logs: seq<LogEntry>) returns (r: seq<LogEntry>)
    ensures multiset(r) == multiset(logs)
    ensures SortedBy(NewestFirst, r)
  {
    var a := new LogEntry[|logs|](i requires 0 <= i < |logs| => logs[i]);
    assert a[..] == logs;
    NewestFirstConsistent();
    SortInPlace(a, NewestFirst, AnyEntry);
    r := a[..];
  }

  /** In a newest-first list, an earlier entry's date is not before a later one's. */
  lemma NewestFirstDates(s: seq<LogEntry>, i: nat, j: nat)
    requires SortedBy(NewestFirst, s) && i < j < |s|
    ensures Compare(s[j].date, s[i].date) <= 0
  {
    assert NewestFirst(s[i], s[j]) <= 0;
  }

  // ---------------------------------------------------------------------
  // Pages

  function Min(a: int, b: int): int { if a <= b then a else b }

  /** `Math.ceil(n / logsPerPage)`. */
  function TotalPages(n: nat): (t: nat)
    ensures (t - 1) * LogsPerPage < n <= t * LogsPerPage || (n == 0 && t == 0)
  {
    (n + LogsPerPage - 1) / LogsPerPage
  }

  /** `sortedLogs.slice((page - 1) * 10, page * 10)`, clamped to the list. */
  function PageSlice<T>(s: seq<T>, page: nat): (r: seq<T>)
    requires page >= 1
    ensures |r| <= LogsPerPage
    ensures (page - 1) * LogsPerPage < |s| <==> r != []
    ensures forall k :: 0 <= k < |r| ==> (page - 1) * LogsPerPage + k < |s| && r[k] == s[(page - 1) * LogsPerPage + k]
  {
    var first := Min((page - 1) * LogsPerPage, |s|);
    var last := Min(page * LogsPerPage, |s|);
    s[first..last]
  }

  /** A page holds entries exactly when its number is at most the page count. */
  lemma PageNonEmptyIffInRange<T>(s: seq<T>, page: nat)
    requires page >= 1
    ensures PageSlice(s, page) != [] <==> page <= TotalPages(|s|)
  {
  }

  /** Pages 1 to k, one after another. */
  function FirstPages<T>(s: seq<T>, k: nat): seq<T> {
    if k == 0 then [] else FirstPages(s, k - 1) + PageSlice(s, k)
  }

  lemma {:induction false} FirstPagesPrefix<T>(s: seq<T>, k: nat)
    ensures FirstPages(s, k) == s[..Min(k * LogsPerPage, |s|)]
  {
    if k > 0 {
      FirstPagesPrefix(s, k - 1);
      var a := Min((k - 1) * LogsPerPage, |s|);
      var b := Min(k * LogsPerPage, |s|);
      assert s[..a] + s[a..b] == s[..b];
    }
  }

  /** The pages, read in order, are the whole list, each entry once. */
  lemma PagesCoverList<T>(s: seq<T>)
    ensures FirstPages(s, TotalPages(|s|)) == s
  {
    FirstPagesPrefix(s, TotalPages(|s|));
    assert s[..|s|] == s;
  }

  // ---------------------------------------------------------------------
  // The view

  datatype Columns = ByUser | ByRadio

  /** What the component renders. */
  datatype Shown =
    | Nothing
    | ErrorLine(message: string)
    | Table(columns: Columns, rows: seq<LogEntry>)
    | EmptyPage

  /** The effect's title: the radio when there is one, else the user, else
      the title as it was. */
  function TitleFor(radio: Option<Radio>, user: Option<User>, current: string): string {
    if radio.Some? then "History for " + radio.value.name + " [" + radio.value.id + "]"
    else if user.Some? then "History for " + user.value.name
    else current
  }

  /** The columns prefer the user: the radio of each entry is shown when the
      view is about a user, the user when it is about a radio. */
  function ColumnsFor(user: Option<User>): Columns {
    if user.Some? then ByUser else ByRadio
  }

  lemma TitleAndColumnsDisagree(radio: Radio, user: User, current: string)
    ensures TitleFor(Some(radio), Some(user), current) == "History for " + radio.name + " [" + radio.id + "]"
    ensures ColumnsFor(Some(user)) == ByUser
  {
  }

  class View {
    var sortedLogs: seq<LogEntry>
    var currentPage: nat
    var error: Option<string>
    var title: string

    constructor ()
      ensures sortedLogs == [] && currentPage == 1 && error.None? && title == ""
    {
      sortedLogs := [];
      currentPage := 1;
      error := None;
      title := "";
    }

    predicate Valid()
      reads this
    {
      currentPage >= 1
    }

    /** The effect on new logs, radio or user. The page number is kept. */
    method Update(logs: seq<LogEntry>, radio: Option<Radio>, user: Option<User>)
      modifies this`sortedLogs, this`error, this`title
      ensures logs == [] ==> error == Some(NoLogsMessage) && sortedLogs == []
      ensures logs != [] ==> error.None? && multiset(sortedLogs) == multiset(logs) && SortedBy(NewestFirst, sortedLogs)
      ensures title == TitleFor(radio, user, old(title))
    {
      if logs == [] {
        error := Some(NoLogsMessage);
        sortedLogs := [];
      } else {
        error := None;
        sortedLogs := SortNewestFirst(logs);
      }
      title := TitleFor(radio, user, title);
    }

    method HandleNextPage()
      requires Valid()
      modifies this`currentPage
      ensures Valid()
      ensures old(currentPage) < TotalPages(|sortedLogs|) ==> currentPage == old(currentPage) + 1
      ensures old(currentPage) >= TotalPages(|sortedLogs|) ==> currentPage == old(currentPage)
      ensures currentPage <= old(currentPage) || currentPage <= TotalPages(|sortedLogs|)
    {
      if currentPage < TotalPages(|sortedLogs|) {
        currentPage := currentPage + 1;
      }
    }

    method HandlePreviousPage()
      requires Valid()
      modifies this`currentPage
      ensures Valid()
      ensures old(currentPage) > 1 ==> currentPage == old(currentPage) - 1
      ensures old(currentPage) == 1 ==> currentPage == 1
    {
      if currentPage > 1 {
        currentPage := currentPage - 1;
      }
    }

    /** The render: nothing without a subject; otherwise the error whenever
        one is set, else the current page as a table when it has rows, else
        the empty-page line. */
    function Render(radio: Option<Radio>, user: Option<User>): (s: Shown)
      requires Valid()
      reads this
      ensures radio.None? && user.None? <==> s.Nothing?
      ensures s.Table? ==> s.rows == PageSlice(sortedLogs, currentPage) && s.rows != [] && s.columns == ColumnsFor(user)
      ensures s.EmptyPage? ==> currentPage > TotalPages(|sortedLogs|)
      ensures !(radio.None? && user.None?) && error.Some? ==> s == ErrorLine(error.value)
      ensures !(radio.None? && user.None?) && error.None? ==>
        (s.Table? <==> PageSlice(sortedLogs, currentPage) != []) && (s.Table? || s.EmptyPage?)
    {
      if radio.None? && user.None? then Nothing
      else if error.Some? then ErrorLine(error.value)
      else
        var rows := PageSlice(sortedLogs, currentPage);
        if rows != [] then Table(ColumnsFor(user), rows) else EmptyPage
    }
  }
}
