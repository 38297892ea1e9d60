/** The device directory: `read_apis_from_csv` turns the rows of the
    directory table into `{ip, label}` entries. Rows arrive already split
    into fields; quoting and file access belong to the csv reader and are
    not part of this model. */
module Directory {

  import opened Text
  import opened FanOut

  datatype DeviceEntry = DeviceEntry(ip: string, displayLabel: string)

  /** The entry one non-empty row yields: the first field stripped is the
      ip, the second field stripped is the label, and a one-field row is
      labelled with its ip. */
  function EntryOf(row: seq<string>): (d: DeviceEntry)
    requires row != []
    ensures d.ip == Strip(row[0])
    ensures |row| == 1 ==> d.displayLabel == d.ip
    ensures |row| >= 2 ==> d.displayLabel == Strip(row[1])
  {
    var ip := Strip(row[0]);
    DeviceEntry(ip, if |row| >= 2 then Strip(row[1]) else ip)
  }

  /** The ips of a directory, in directory order. */
  function Ips(ds: seq<DeviceEntry>): (r: seq<string>)
    ensures |r| == |ds| && forall k :: 0 <= k < |ds| ==> r[k] == ds[k].ip
  {
    seq(|ds|, k requires 0 <= k < |ds| => ds[k].ip)
  }

  /** The entries one row contributes: none for an empty row, else its entry. */
  function RowEntries(row: seq<string>): seq<DeviceEntry> {
    if row == [] then [] else [EntryOf(row)]
  }

  /** The directory the rows describe: one entry per non-empty row, in row order. */
  function DirectoryOf(rows: seq<seq<string>>): seq<DeviceEntry> {
    FlatMap(rows, RowEntries)
  }

  /** `read_apis_from_csv`: appends one entry per row, skipping empty rows. */
  method ReadApisFromCsv(rows: seq<seq<string>>) returns (apis: seq<DeviceEntry>)
    ensures apis == DirectoryOf(rows)
  {
    apis := [];
    for i := 0 to |rows|
      invariant apis == DirectoryOf(rows[..i])
    {
      var row := rows[i];
      assert rows[..i + 1][..i] == rows[..i];
      if row == [] {
        continue;
      }
      var ip := Strip(row[0]);
      var lbl := if |row| >= 2 then Strip(row[1]) else ip;
      apis := apis + [DeviceEntry(ip, lbl)];
    }
    assert rows[..|rows|] == rows;
  }

  /** Parsing two blocks of rows gives the entries of the first block
      followed by those of the second: the directory keeps the table's order,
      and an empty row contributes nothing. */
  lemma DirectoryAppend(rows: seq<seq<string>>, more: seq<seq<string>>)
    ensures DirectoryOf(rows + more) == DirectoryOf(rows) + DirectoryOf(more)
    ensures DirectoryOf(rows + [[]]) == DirectoryOf(rows)
  {
    FlatMapAppend(rows, more, RowEntries);
    FlatMapAppend(rows, [[]], RowEntries);
  }

  /** The number of non-empty rows. */
  function NonEmptyRows(rows: seq<seq<string>>): nat {
    if rows == [] then 0
    else NonEmptyRows(rows[..|rows| - 1]) + (if rows[|rows| - 1] == [] then 0 else 1)
  }

  /** There is exactly one entry per non-empty row, and each entry is the
      one some non-empty row yields. */
  lemma DirectoryEntries(rows: seq<seq<string>>)
    ensures |DirectoryOf(rows)| == NonEmptyRows(rows)
    ensures forall d :: d in DirectoryOf(rows) <==>
              exists k :: 0 <= k < |rows| && rows[k] != [] && d == EntryOf(rows[k])
  {
    DirectoryLength(rows);
    forall d
      ensures d in DirectoryOf(rows) <==>
              exists k :: 0 <= k < |rows| && rows[k] != [] && d == EntryOf(rows[k])
    {
      FlatMapIn(rows, RowEntries, d);
    }
  }

  lemma {:induction false} DirectoryLength(rows: seq<seq<string>>)
    ensures |DirectoryOf(rows)| == NonEmptyRows(rows)
  {
    if rows != [] {
      DirectoryLength(rows[..|rows| - 1]);
    }
  }

  /** Every ip and label in the directory is free of surrounding whitespace. */
  lemma {:induction false} DirectoryStripped(rows: seq<seq<string>>)
    ensures forall d :: d in DirectoryOf(rows) ==> Strip(d.ip) == d.ip && Strip(d.displayLabel) == d.displayLabel
  {
    DirectoryEntries(rows);
    forall d | d in DirectoryOf(rows)
      ensures Strip(d.ip) == d.ip && Strip(d.displayLabel) == d.displayLabel
    {
      StripIdempotent(d.ip);
      StripIdempotent(d.displayLabel);
      var k :| 0 <= k < |rows| && rows[k] != [] && d == EntryOf(rows[k]);
      if |rows[k]| >= 2 {
        StripIdempotent(rows[k][1]);
      }
      StripIdempotent(rows[k][0]);
    }
  }

  /** A row whose address field is blank still yields an entry, with the
      empty string as its ip (the loader does not skip such rows). */
  lemma BlankAddressKept()
    ensures DirectoryOf([[" ", "Lobby"]]) == [DeviceEntry("", "Lobby")]
  {
    var rows := [[" ", "Lobby"]];
    assert rows[..0] == [];
    StripBlank(" ");
    StripUnpadded("Lobby");
  }
}
