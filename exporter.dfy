/**
 * export_results: the filtered rows without their geometry column, written under
 * the given file name, or nothing at all when there are no rows.
 */
module Exporter {
  import opened Records

  /** The file name used when the caller gives none. */
  const DefaultFilename := "zip_codes_in_range.csv"

  /** A CSV line: every column of a travel row but `geometry`. */
  datatype ExportRow = ExportRow(zipCode: string, state: string, minutes: real)

  /** No file and a None return, or the file name returned and the table written under it. */
  datatype Export = NoFile | Written(filename: string, table: seq<ExportRow>)

  function DropGeometry(row: TravelRow): ExportRow
  {
    ExportRow(row.zipCode, row.state, row.minutes)
  }

  function Project(rows: seq<TravelRow>): (table: seq<ExportRow>)
    ensures |table| == |rows|
  {
    if rows == [] then [] else [DropGeometry(rows[0])] + Project(rows[1..])
  }

  /**
   * An empty frame exports nothing. Otherwise the same rows, in the same order,
   * each keeping its zip code, state and minutes, under the given name.
   */
  function ExportResults(rows: seq<TravelRow>, filename: string): (r: Export)
    ensures r.NoFile? <==> rows == []
    ensures r.Written? ==> r.filename == filename && |r.table| == |rows|
    ensures r.Written? ==> forall k :: 0 <= k < |rows| ==>
              && r.table[k].zipCode == rows[k].zipCode
              && r.table[k].state == rows[k].state
              && r.table[k].minutes == rows[k].minutes
  {
    if |rows| > 0 then
      ProjectAt(rows);
      Written(filename, Project(rows))
    else NoFile
  }

  /** Called without a file name, a nonempty export is written as zip_codes_in_range.csv. */
  lemma ExportDefaultName(rows: seq<TravelRow>)
    requires rows != []
    ensures ExportResults(rows, DefaultFilename) == Written("zip_codes_in_range.csv", Project(rows))
  {
  }

  lemma {:induction false} ProjectAt(rows: seq<TravelRow>)
    ensures forall k :: 0 <= k < |rows| ==> Project(rows)[k] == DropGeometry(rows[k])
  {
    if rows != [] {
      ProjectAt(rows[1..]);
    }
  }

  /** The geometry column that the export drops. */
  function Geometries(rows: seq<TravelRow>): (shapes: seq<Shape>)
    ensures |shapes| == |rows|
  {
    if rows == [] then [] else [rows[0].geometry] + Geometries(rows[1..])
  }

  /** Puts a geometry column back beside an exported table. */
  function Reattach(table: seq<ExportRow>, shapes: seq<Shape>): (rows: seq<TravelRow>)
    requires |table| == |shapes|
    ensures |rows| == |table|
  {
    if table == [] then []
    else [TravelRow(table[0].zipCode, table[0].state, table[0].minutes, shapes[0])]
         + Reattach(table[1..], shapes[1..])
  }

  /** Nothing but the geometry is lost: putting it back restores the rows exactly. */
  lemma {:induction false} ExportLosesOnlyGeometry(rows: seq<TravelRow>, filename: string)
    requires rows != []
    ensures Reattach(ExportResults(rows, filename).table, Geometries(rows)) == rows
  {
    ReattachProject(rows);
  }

  lemma {:induction false} ReattachProject(rows: seq<TravelRow>)
    ensures Reattach(Project(rows), Geometries(rows)) == rows
  {
    if rows != [] {
      ReattachProject(rows[1..]);
    }
  }
}
