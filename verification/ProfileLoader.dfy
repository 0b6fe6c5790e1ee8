/** The checks with which a profile is read back (src/deadline_scheduler.cpp,
    `load_profile`), after the fields of each line were split. */
module ProfileLoader {
  import opened Wrappers
  import opened DeadlineProfile

  const U32: int := 0x1_0000_0000

  const U64: int := 0x1_0000_0000_0000_0000

  /** All numbers parse as unsigned 64-bit integers. */
  predicate Parses(e: Entry) {
    e.instance < U64 && 0 <= e.runtime < U64 && 0 <= e.deadline < U64 && 0 <= e.period < U64
  }

  /** The instance is narrowed to 32 bits without a check. */
  function Narrowed(e: Entry): Entry {
    e.(instance := e.instance % U32)
  }

  predicate ValidParameters(e: Entry) {
    e.signature != "" && e.instance != 0 && e.runtime != 0 && e.runtime <= e.deadline <= e.period
  }

  function NarrowedRows(rows: seq<Entry>): (r: seq<Entry>)
    ensures |r| == |rows| && forall i :: 0 <= i < |rows| ==> r[i] == Narrowed(rows[i])
  {
    seq(|rows|, i requires 0 <= i < |rows| => Narrowed(rows[i]))
  }

  predicate Acceptable(e: Entry) {
    Parses(e) && ValidParameters(Narrowed(e))
  }

  /** What the loader accepts. */
  predicate Loadable(rows: seq<Entry>) {
    && rows != []
    && (forall i :: 0 <= i < |rows| ==> Acceptable(rows[i]))
    && Unique(NarrowedRows(rows))
  }

  method LoadProfile(rows: seq<Entry>) returns (result: Result<seq<Entry>>)
    ensures result.Success? <==> Loadable(rows)
    ensures result.Success? ==> result.value == NarrowedRows(rows)
  {
    var entries: seq<Entry> := [];
    for i := 0 to |rows|
      invariant entries == NarrowedRows(rows)[..i]
      invariant forall j :: 0 <= j < i ==> Acceptable(rows[j])
      invariant Unique(entries)
    {
      if !Parses(rows[i]) {
        return Failure("invalid number");
      }
      var entry := Narrowed(rows[i]);
      if !ValidParameters(entry) {
        return Failure("invalid scheduler model parameters");
      }
      var known := HasIdentity(entries, entry);
      if known {
        return Failure("duplicate identity");
      }
      entries := entries + [entry];
    }
    if entries == [] {
      return Failure("no thread entries");
    }
    return Success(entries);
  }

  method HasIdentity(entries: seq<Entry>, entry: Entry) returns (known: bool)
    ensures known <==> HasRow(entries, IdOf(entry))
  {
    for i := 0 to |entries|
      invariant forall j :: 0 <= j < i ==> IdOf(entries[j]) != IdOf(entry)
    {
      if IdOf(entries[i]) == IdOf(entry) {
        return true;
      }
    }
    return false;
  }
}
