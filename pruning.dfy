/** The retention janitor: keeps the most recent `retentionCount` backups of a
    storage location, reports the rest as garbage, and removes garbage one
    item at a time, reporting and then skipping any item that cannot be
    removed. */
module Pruning {

  datatype Option<T> = None | Some(value: T)

  const NoGarbageFound := "No garbage found"
  const FoundGarbage := "Found garbage..."
  const RetainingSuffix := " (retaining)"
  const FinishedCleaningUp := "Finished cleaning up."

  // ---------------------------------------------------------------------------
  // Sifting a listing (most recent first) into retained items and garbage.

  /** The first `n` items of the listing, or all of it when it is shorter. */
  function Retained(listing: seq<string>, n: nat): seq<string> {
    if n < |listing| then listing[..n] else listing
  }

  /** The items at index `n` and beyond, in listing order. */
  function Garbage(listing: seq<string>, n: nat): seq<string> {
    if n < |listing| then listing[n..] else []
  }

  /** The retained items and the garbage split the listing without
      reordering it, and exactly min(n, |listing|) items are retained. */
  lemma PartitionListing(listing: seq<string>, n: nat)
    ensures Retained(listing, n) + Garbage(listing, n) == listing
    ensures |Retained(listing, n)| == if n < |listing| then n else |listing|
    ensures |Retained(listing, n)| + |Garbage(listing, n)| == |listing|
    ensures n == 0 ==> Garbage(listing, n) == listing
  {
  }

  /** How one listed item is announced. */
  function ListingLine(name: string, retained: bool): string {
    if retained then name + RetainingSuffix else name
  }

  /** One line per listed item, in listing order; the item at index i is
      retained when i < n. */
  function Report(listing: seq<string>, n: nat): seq<string> {
    if listing == [] then []
    else
      var last := |listing| - 1;
      Report(listing[..last], n) + [ListingLine(listing[last], last < n)]
  }

  /** Everything sifting a listing prints. */
  function SiftLog(listing: seq<string>, n: nat): seq<string> {
    if listing == [] then [NoGarbageFound] else [FoundGarbage] + Report(listing, n)
  }

  /** Line i of the report announces item i, annotated iff it is retained. */
  lemma {:induction false} ReportLines(listing: seq<string>, n: nat)
    ensures |Report(listing, n)| == |listing|
    ensures forall i :: 0 <= i < |listing| ==> Report(listing, n)[i] == ListingLine(listing[i], i < n)
  {
    if listing != [] {
      var last := |listing| - 1;
      ReportLines(listing[..last], n);
    }
  }

  /** Sifting a non-empty listing prints the header and then one line per
      item in listing order; exactly the first n items carry the retaining
      suffix, the others are printed as they are. */
  lemma SiftLogFormat(listing: seq<string>, n: nat)
    requires listing != []
    ensures |SiftLog(listing, n)| == |listing| + 1 && SiftLog(listing, n)[0] == FoundGarbage
    ensures forall i :: 0 <= i < |listing| ==>
      (SiftLog(listing, n)[i + 1] == listing[i] + RetainingSuffix <==> i < n)
    ensures forall i :: 0 <= i < |listing| && n <= i ==> SiftLog(listing, n)[i + 1] == listing[i]
  {
    ReportLines(listing, n);
    forall i | 0 <= i < |listing|
      ensures (SiftLog(listing, n)[i + 1] == listing[i] + RetainingSuffix <==> i < n)
    {
      assert SiftLog(listing, n)[i + 1] == ListingLine(listing[i], i < n);
      SuffixChanges(listing[i]);
    }
  }

  lemma SuffixChanges(name: string)
    ensures name != name + RetainingSuffix
  {
    assert |name + RetainingSuffix| == |name| + |RetainingSuffix|;
  }

  /** Sifting one more item adds its line to the report and, past the
      retained ones, the item to the garbage. */
  lemma SiftStep(listing: seq<string>, n: nat, i: nat)
    requires i < |listing|
    ensures Report(listing[..i + 1], n) == Report(listing[..i], n) + [ListingLine(listing[i], i < n)]
    ensures Garbage(listing[..i + 1], n) ==
      if i < n then Garbage(listing[..i], n) else Garbage(listing[..i], n) + [listing[i]]
  {
    var next := listing[..i + 1];
    assert next[..i] == listing[..i];
    if n <= i {
      assert next[n..] == Garbage(listing[..i], n) + [listing[i]];
    }
  }

  /** With the default count of 0 the report is the listing itself. */
  lemma {:induction false} DefaultCountRetainsNothing(listing: seq<string>)
    ensures Report(listing, 0) == listing
    ensures Garbage(listing, 0) == listing
  {
    ReportLines(listing, 0);
  }

  /** The printed lines after the retained ones are exactly the garbage
      returned: the report and the result agree. */
  lemma {:induction false} PlainLinesAreGarbage(listing: seq<string>, n: nat)
    ensures |Report(listing, n)| == |listing|
    ensures Report(listing, n)[|Retained(listing, n)|..] == Garbage(listing, n)
  {
    ReportLines(listing, n);
  }

  // ---------------------------------------------------------------------------
  // Removing garbage, one item at a time, continuing after a failure.

  function CleaningLine(name: string): string {
    "Cleaning up " + name
  }

  function FailureLine(name: string, cause: string): string {
    "Could not clean up " + name + ": " + cause
  }

  /** What removing one item prints: the announcement, then the failure
      report if the driver refuses to remove it. */
  function ItemLines(name: string, failures: map<string, string>): seq<string> {
    [CleaningLine(name)] + if name in failures then [FailureLine(name, failures[name])] else []
  }

  /** What removing the items one after another prints, before the final line. */
  function Progress(trash: seq<string>, failures: map<string, string>): seq<string> {
    if trash == [] then []
    else
      var last := |trash| - 1;
      Progress(trash[..last], failures) + ItemLines(trash[last], failures)
  }

  /** Everything removing the garbage prints. */
  function CleanupLog(trash: seq<string>, failures: map<string, string>): seq<string> {
    Progress(trash, failures) + [FinishedCleaningUp]
  }

  /** Removing two batches in turn prints what removing each prints: an
      item's lines do not depend on the items around it. */
  lemma {:induction false} ProgressAppend(a: seq<string>, b: seq<string>, failures: map<string, string>)
    ensures Progress(a + b, failures) == Progress(a, failures) + Progress(b, failures)
  {
    if b == [] {
      assert a + b == a;
    } else {
      var last := |b| - 1;
      assert (a + b)[..|a + b| - 1] == a + b[..last];
      assert (a + b)[|a + b| - 1] == b[last];
      calc {
        Progress(a + b, failures);
        Progress(a + b[..last], failures) + ItemLines(b[last], failures);
        { ProgressAppend(a, b[..last], failures); }
        Progress(a, failures) + Progress(b[..last], failures) + ItemLines(b[last], failures);
      }
    }
  }

  /** The lines for item k stand in the log after those for the items before
      it and before those for the items after it, so a failure on one item
      is reported right after its announcement and the later items are
      still announced. */
  lemma ItemInPlace(trash: seq<string>, failures: map<string, string>, k: nat)
    requires k < |trash|
    ensures CleanupLog(trash, failures) ==
      Progress(trash[..k], failures) + ItemLines(trash[k], failures) +
      Progress(trash[k + 1..], failures) + [FinishedCleaningUp]
  {
    assert trash == trash[..k] + [trash[k]] + trash[k + 1..];
    ProgressAppend(trash[..k] + [trash[k]], trash[k + 1..], failures);
    ProgressAppend(trash[..k], [trash[k]], failures);
    assert Progress([trash[k]], failures) == ItemLines(trash[k], failures) by {
      assert [trash[k]][..0] == [];
    }
  }

  /** A removal failure is reported with its cause, right after the item is
      announced. */
  lemma FailureReported(trash: seq<string>, failures: map<string, string>, k: nat)
    requires k < |trash| && trash[k] in failures
    ensures var log := CleanupLog(trash, failures);
      exists j :: 0 <= j < |log| - 1 &&
        log[j] == CleaningLine(trash[k]) && log[j + 1] == FailureLine(trash[k], failures[trash[k]])
  {
    ItemInPlace(trash, failures, k);
    var log := CleanupLog(trash, failures);
    var j := |Progress(trash[..k], failures)|;
    assert log[j] == CleaningLine(trash[k]);
    assert log[j + 1] == FailureLine(trash[k], failures[trash[k]]);
  }

  /** One announcement per item, in order. */
  function Announcements(trash: seq<string>): seq<string> {
    seq(|trash|, i requires 0 <= i < |trash| => CleaningLine(trash[i]))
  }

  /** When every removal succeeds, the log is one announcement per item, in
      order, and the final line. */
  lemma {:induction false} CleanupLogWhenAllRemoved(trash: seq<string>, failures: map<string, string>)
    requires forall i :: 0 <= i < |trash| ==> trash[i] !in failures
    ensures Progress(trash, failures) == Announcements(trash)
    ensures CleanupLog(trash, failures) == Announcements(trash) + [FinishedCleaningUp]
  {
    if trash != [] {
      var last := |trash| - 1;
      var init := trash[..last];
      assert forall i :: 0 <= i < |init| ==> init[i] == trash[i];
      CleanupLogWhenAllRemoved(init, failures);
      assert ItemLines(trash[last], failures) == [CleaningLine(trash[last])];
      assert Announcements(trash) == Announcements(init) + [CleaningLine(trash[last])];
    }
  }

  lemma {:induction false} ProgressNeverFinishes(trash: seq<string>, failures: map<string, string>)
    ensures FinishedCleaningUp !in Progress(trash, failures)
  {
    if trash != [] {
      var last := |trash| - 1;
      ProgressNeverFinishes(trash[..last], failures);
      var name := trash[last];
      assert CleaningLine(name)[0] == 'C';
      if name in failures {
        assert FailureLine(name, failures[name])[0] == 'C';
      }
    }
  }

  /** The final line is printed exactly once and last, whatever fails. */
  lemma FinishedExactlyOnce(trash: seq<string>, failures: map<string, string>)
    ensures var log := CleanupLog(trash, failures);
      log[|log| - 1] == FinishedCleaningUp && multiset(log)[FinishedCleaningUp] == 1
  {
    ProgressNeverFinishes(trash, failures);
  }

  // ---------------------------------------------------------------------------
  // The storage driver and the janitor.

  /** The storage location: its listing, most recent first, and the names
      whose removal fails, with the cause the failure carries. Every removal
      asked of it is recorded in `removals`. */
  class StorageDriver {
    const listing: seq<string>
    const failures: map<string, string>
    var removals: seq<string>

    constructor (listing: seq<string>, failures: map<string, string>)
      ensures this.listing == listing && this.failures == failures && removals == []
    {
      this.listing := listing;
      this.failures := failures;
      removals := [];
    }

    /** Removes `name`, or fails with a removal error carrying its cause. */
    method Rm(name: string) returns (error: Option<string>)
      modifies this
      ensures removals == old(removals) + [name]
      ensures error == if name in failures then Some(failures[name]) else None
    {
      removals := removals + [name];
      error := if name in failures then Some(failures[name]) else None;
    }
  }

  class Janitor {
    const driver: StorageDriver
    const retentionCount: nat
    /** The lines printed so far. */
    var output: seq<string>

    constructor (driver: StorageDriver, retentionCount: nat := 0)
      ensures this.driver == driver && this.retentionCount == retentionCount
      ensures output == []
    {
      this.driver := driver;
      this.retentionCount := retentionCount;
      output := [];
    }

    /** Prints the listing, marking the retained items, and returns the
        garbage: the items past the first `retentionCount`, in listing order. */
    method SiftTrash() returns (garbage: seq<string>)
      modifies this
      ensures garbage == Garbage(driver.listing, retentionCount)
      ensures output == old(output) + SiftLog(driver.listing, retentionCount)
    {
      var files := driver.listing;
      if files == [] {
        output := output + [NoGarbageFound];
        return [];
      }
      output := output + [FoundGarbage];
      garbage := [];
      var i := 0;
      while i < |files|
        invariant 0 <= i <= |files|
        invariant garbage == Garbage(files[..i], retentionCount)
        invariant output == old(output) + [FoundGarbage] + Report(files[..i], retentionCount)
      {
        SiftStep(files, retentionCount, i);
        if i < retentionCount {
          output := output + [files[i] + RetainingSuffix];
        } else {
          output := output + [files[i]];
          garbage := garbage + [files[i]];
        }
        i := i + 1;
      }
      assert files[..i] == files;
    }

    /** Asks the driver to remove every item, in order, announcing each;
        a failed removal is reported and the next item is still tried.
        Ends with the final line. */
    method RmGarbage(trash: seq<string>)
      modifies this, driver
      ensures driver.removals == old(driver.removals) + trash
      ensures output == old(output) + CleanupLog(trash, driver.failures)
    {
      var i := 0;
      while i < |trash|
        invariant 0 <= i <= |trash|
        invariant driver.removals == old(driver.removals) + trash[..i]
        invariant output == old(output) + Progress(trash[..i], driver.failures)
      {
        assert trash[..i + 1][..i] == trash[..i];
        var name := trash[i];
        output := output + [CleaningLine(name)];
        var error := driver.Rm(name);
        if error.Some? {
          output := output + [FailureLine(name, error.value)];
        }
        i := i + 1;
      }
      assert trash[..i] == trash;
      output := output + [FinishedCleaningUp];
    }
  }

  // ---------------------------------------------------------------------------
  // The scenarios the janitor is specified by, run against the contracts above.

  method DefaultRetentionCount() returns (n: nat)
    ensures n == 0
  {
    var driver := new StorageDriver([], map[]);
    var janitor := new Janitor(driver);
    n := janitor.retentionCount;
  }

  method SiftTrashEmptyExample() returns (garbage: seq<string>, output: seq<string>)
    ensures garbage == [] && output == [NoGarbageFound]
  {
    var driver := new StorageDriver([], map[]);
    var janitor := new Janitor(driver);
    garbage := janitor.SiftTrash();
    output := janitor.output;
  }

  method SiftTrashRetainOneExample() returns (garbage: seq<string>, output: seq<string>)
    ensures garbage == ["0.tar", "a.tar"]
    ensures output == [FoundGarbage, "1.tar (retaining)", "0.tar", "a.tar"]
  {
    var listing := ["1.tar", "0.tar", "a.tar"];
    var driver := new StorageDriver(listing, map[]);
    var janitor := new Janitor(driver, 1);
    garbage := janitor.SiftTrash();
    output := janitor.output;
    ReportLines(listing, 1);
    assert "1.tar" + RetainingSuffix == "1.tar (retaining)";
  }

  method SiftTrashDefaultExample() returns (garbage: seq<string>, output: seq<string>)
    ensures garbage == ["1.tar", "0.tar", "a.tar"]
    ensures output == [FoundGarbage, "1.tar", "0.tar", "a.tar"]
  {
    var listing := ["1.tar", "0.tar", "a.tar"];
    var driver := new StorageDriver(listing, map[]);
    var janitor := new Janitor(driver);
    garbage := janitor.SiftTrash();
    output := janitor.output;
    DefaultCountRetainsNothing(listing);
  }

  method RmGarbageAllRemovedExample() returns (removals: seq<string>, output: seq<string>)
    ensures removals == ["0.tar", "1.tar", "2.tar"]
    ensures output == [CleaningLine("0.tar"), CleaningLine("1.tar"), CleaningLine("2.tar"), FinishedCleaningUp]
  {
    var garbage := ["0.tar", "1.tar", "2.tar"];
    var driver := new StorageDriver([], map[]);
    var janitor := new Janitor(driver);
    janitor.RmGarbage(garbage);
    removals, output := driver.removals, janitor.output;
    CleanupLogWhenAllRemoved(garbage, map[]);
    assert Announcements(garbage) == [CleaningLine("0.tar"), CleaningLine("1.tar"), CleaningLine("2.tar")];
  }

  /** The last item was already removed by another process. */
  method RmGarbageMissingExample() returns (removals: seq<string>, output: seq<string>)
    ensures removals == ["0.tar", "1.tar", "2.tar"]
    ensures output == [CleaningLine("0.tar"), CleaningLine("1.tar"), CleaningLine("2.tar"),
                       FailureLine("2.tar", "No such file or directory"), FinishedCleaningUp]
  {
    var garbage := ["0.tar", "1.tar", "2.tar"];
    var failures := map["2.tar" := "No such file or directory"];
    var driver := new StorageDriver([], failures);
    var janitor := new Janitor(driver);
    janitor.RmGarbage(garbage);
    removals, output := driver.removals, janitor.output;
    ItemInPlace(garbage, failures, 2);
    CleanupLogWhenAllRemoved(garbage[..2], failures);
    assert garbage[3..] == [];
  }

  /** The middle item may not be removed; the one after it still is. */
  method RmGarbageNotPermittedExample() returns (removals: seq<string>, output: seq<string>)
    ensures removals == ["0.tar", "1.tar", "2.tar"]
    ensures output == [CleaningLine("0.tar"), CleaningLine("1.tar"),
                       FailureLine("1.tar", "Operation not permitted"),
                       CleaningLine("2.tar"), FinishedCleaningUp]
  {
    var garbage := ["0.tar", "1.tar", "2.tar"];
    var failures := map["1.tar" := "Operation not permitted"];
    var driver := new StorageDriver([], failures);
    var janitor := new Janitor(driver);
    janitor.RmGarbage(garbage);
    removals, output := driver.removals, janitor.output;
    ItemInPlace(garbage, failures, 1);
    CleanupLogWhenAllRemoved(garbage[..1], failures);
    CleanupLogWhenAllRemoved(garbage[2..], failures);
  }
}
