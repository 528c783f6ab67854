/** What the two clients make of a directory listing: one row an entry, sorted by path. */
module Listings {
  import opened Basics
  import Paths

  datatype Row<T> = Row(path: string, info: T)

  // ---- sorted(rows, key=path) ----

  /** Text order: by the first character that differs, a prefix first. */
  predicate Before(a: string, b: string) {
    b != [] && (a == [] || a[0] < b[0] || (a[0] == b[0] && Before(a[1..], b[1..])))
  }

  /** The first difference decides; where there is none, the shorter text comes first. */
  lemma {:induction false} BeforeIff(a: string, b: string)
    ensures Before(a, b) <==> exists n :: DifferAt(a, b, n)
    decreases |a|
  {
    if a != [] && b != [] && a[0] == b[0] {
      BeforeIff(a[1..], b[1..]);
      forall n | DifferAt(a[1..], b[1..], n) ensures DifferAt(a, b, n + 1) {
        assert a[..n + 1] == [a[0]] + a[1..][..n] && b[..n + 1] == [b[0]] + b[1..][..n];
      }
      forall n | DifferAt(a, b, n) ensures DifferAt(a[1..], b[1..], n - 1) {
        assert a[1..][..n - 1] == a[..n][1..] && b[1..][..n - 1] == b[..n][1..];
      }
    } else {
      if Before(a, b) { assert DifferAt(a, b, 0); }
      forall n | DifferAt(a, b, n) ensures n == 0 {}
    }
  }

  /** Alike up to `n`, where `b` goes on and `a` ends or has the lesser character. */
  predicate DifferAt(a: string, b: string, n: int) {
    0 <= n <= |a| && n < |b| && a[..n] == b[..n] && (n == |a| || a[n] < b[n])
  }

  predicate Sorted<T>(rows: seq<Row<T>>) {
    forall i, j :: 0 <= i < j < |rows| ==> !Before(rows[j].path, rows[i].path)
  }

  /** Behind every row that it does not come before. */
  function Insert<T>(rows: seq<Row<T>>, row: Row<T>): seq<Row<T>> {
    if rows != [] && Before(row.path, rows[|rows| - 1].path)
    then Insert(rows[..|rows| - 1], row) + [rows[|rows| - 1]]
    else rows + [row]
  }

  function SortByPath<T>(rows: seq<Row<T>>): seq<Row<T>> {
    if rows == [] then [] else Insert(SortByPath(rows[..|rows| - 1]), rows[|rows| - 1])
  }

  function AtPath<T>(rows: seq<Row<T>>, path: string): seq<Row<T>> {
    if rows == [] then []
    else AtPath(rows[..|rows| - 1], path) + if rows[|rows| - 1].path == path then [rows[|rows| - 1]] else []
  }

  lemma {:induction false} BeforeIsTransitive(a: string, b: string, c: string)
    ensures !Before(b, a) && !Before(c, b) ==> !Before(c, a)
    ensures Before(a, b) ==> !Before(b, a)
    decreases |b|
  {
    if a != [] && b != [] && c != [] { BeforeIsTransitive(a[1..], b[1..], c[1..]); }
    if a != [] && b != [] { BeforeIsTransitive(a[1..], b[1..], []); }
  }

  lemma {:induction false} InsertKeeps<T>(rows: seq<Row<T>>, row: Row<T>)
    requires Sorted(rows)
    ensures Sorted(Insert(rows, row)) && multiset(Insert(rows, row)) == multiset(rows) + multiset{row}
    decreases |rows|
  {
    hide Before;
    if rows != [] && Before(row.path, rows[|rows| - 1].path) {
      var n := |rows| - 1;
      var front, last := rows[..n], rows[n];
      assert rows == front + [last];
      InsertKeeps(front, row);
      BeforeIsTransitive(row.path, last.path, last.path);
      forall i | 0 <= i < |Insert(front, row)| ensures !Before(last.path, Insert(front, row)[i].path) {
        assert Insert(front, row)[i] in multiset(Insert(front, row));
      }
    } else {
      forall i | 0 <= i < |rows| ensures !Before(row.path, rows[i].path) {
        BeforeIsTransitive(rows[i].path, rows[|rows| - 1].path, row.path);
      }
    }
  }

  lemma AtPathSnoc<T>(rows: seq<Row<T>>, row: Row<T>, path: string)
    ensures AtPath(rows + [row], path) == AtPath(rows, path) + if row.path == path then [row] else []
  {
    assert (rows + [row])[..|rows|] == rows;
  }

  lemma {:induction false} InsertIsStable<T>(rows: seq<Row<T>>, row: Row<T>, path: string)
    ensures AtPath(Insert(rows, row), path) == AtPath(rows, path) + if row.path == path then [row] else []
    decreases |rows|
  {
    hide Before, AtPath;
    if rows != [] && Before(row.path, rows[|rows| - 1].path) {
      var n := |rows| - 1;
      var front, last := rows[..n], rows[n];
      assert rows == front + [last];
      InsertIsStable(front, row, path);
      BeforeIsTransitive(row.path, last.path, last.path);
      AtPathSnoc(Insert(front, row), last, path);
      AtPathSnoc(front, last, path);
    } else {
      AtPathSnoc(rows, row, path);
    }
  }

  /** The rows in order of their paths: nothing lost, nothing added, rows of one path in the order they came. */
  lemma {:induction false} SortIsStable<T>(rows: seq<Row<T>>)
    ensures Sorted(SortByPath(rows)) && multiset(SortByPath(rows)) == multiset(rows)
    ensures forall path :: AtPath(SortByPath(rows), path) == AtPath(rows, path)
    decreases |rows|
  {
    hide Insert;
    if rows != [] {
      var n := |rows| - 1;
      assert rows == rows[..n] + [rows[n]];
      SortIsStable(rows[..n]);
      InsertKeeps(SortByPath(rows[..n]), rows[n]);
      forall path ensures AtPath(SortByPath(rows), path) == AtPath(rows, path) {
        InsertIsStable(SortByPath(rows[..n]), rows[n], path);
      }
    }
  }

  lemma SortedInside<T>(root: string, rows: seq<Row<T>>)
    requires forall row <- rows :: Paths.Inside(root, row.path)
    ensures var sorted := SortByPath(rows);
            Sorted(sorted) && |sorted| == |rows| && forall row <- sorted :: Paths.Inside(root, row.path)
  {
    hide SortByPath, Sorted, Paths.Inside;
    var sorted := SortByPath(rows);
    SortIsStable(rows);
    assert |multiset(sorted)| == |multiset(rows)|;
    forall row <- sorted ensures Paths.Inside(root, row.path) { assert row in multiset(sorted); }
  }

  // ---- SFTP ----

  /** The row of an entry, when the client accepts it. */
  function SftpRow<T>(root: string, directory: string, entry: (string, T)): Option<Row<T>> {
    match Paths.ResolveRemotePath(root, Paths.PosixJoin(directory, entry.0))
    case None => None
    case Some(path) => Some(Row(path, entry.1))
  }

  function SftpRows<T>(root: string, directory: string, entries: seq<(string, T)>): seq<Row<T>> {
    if entries == [] then []
    else
      SftpRows(root, directory, entries[..|entries| - 1]) +
      match SftpRow(root, directory, entries[|entries| - 1])
      case None => []
      case Some(row) => [row]
  }

  lemma NoRows<T>(root: string, directory: string, entries: seq<(string, T)>)
    ensures SftpRows(root, directory, entries[..0]) == []
  {
    hide SftpRow;
  }

  lemma SftpRowsSnoc<T>(root: string, directory: string, entries: seq<(string, T)>, k: nat)
    requires k < |entries| && SftpRow(root, directory, entries[k]).Some?
    ensures SftpRows(root, directory, entries[..k + 1]) ==
            SftpRows(root, directory, entries[..k]) + [SftpRow(root, directory, entries[k]).value]
  {
    hide SftpRow;
    assert entries[..k + 1][..k] == entries[..k];
  }

  /**
   list_files.  One entry that is refused fails the listing; otherwise there is one row an entry, each
   inside the root, in order of the paths.
   */
  method ListSftp<T>(root: string, remotePath: string, entries: seq<(string, T)>) returns (r: Option<seq<Row<T>>>)
    requires Paths.ResolveRemotePath(root, remotePath).Some?
    ensures var directory := Paths.ResolveRemotePath(root, remotePath).value;
            && (r.None? <==> exists i :: 0 <= i < |entries| && SftpRow(root, directory, entries[i]).None?)
            && (r.Some? ==> r.value == SortByPath(SftpRows(root, directory, entries)))
            && (r.Some? ==> Sorted(r.value) && |r.value| == |entries| && forall row <- r.value :: Paths.Inside(root, row.path))
  {
    hide Paths.ResolveRemotePath, Paths.PosixJoin, Paths.Inside, SortByPath, Sorted, SftpRow, SftpRows;
    var directory := Paths.ResolveRemotePath(root, remotePath).value;
    NoRows(root, directory, entries);
    var rows: seq<Row<T>> := [];
    for k := 0 to |entries|
      invariant forall i :: 0 <= i < k ==> SftpRow(root, directory, entries[i]).Some?
      invariant rows == SftpRows(root, directory, entries[..k]) && |rows| == k
      invariant forall row <- rows :: Paths.Inside(root, row.path)
    {
      var row := SftpRow(root, directory, entries[k]);
      if row.None? { return None; }
      RowIsInside(root, directory, entries[k]);
      SftpRowsSnoc(root, directory, entries, k);
      rows := rows + [row.value];
    }
    assert entries[..|entries|] == entries;
    SortedInside(root, rows);
    return Some(SortByPath(rows));
  }

  /**
   Every row in plain terms: the directory's components and then the name's for a relative name, and what
   the name asks for from the root for an absolute one; the information is the entry's own.
   */
  lemma RowTerms<T>(root: string, remotePath: string, entries: seq<(string, T)>, i: nat)
    requires Paths.ResolveRemotePath(root, remotePath).Some? && i < |entries|
    ensures var directory := Paths.ResolveRemotePath(root, remotePath).value;
            var p, q := Paths.Parse(directory), Paths.Parse(entries[i].0);
            var path := if q.anchor != "" then Paths.ResolveRemotePath(root, entries[i].0)
                        else if '\0' in entries[i].0 || '\\' in entries[i].0 || ".." in q.names then None
                        else Some(Paths.Print(Paths.Path(p.anchor, p.names + q.names)));
            SftpRow(root, directory, entries[i]) == if path.None? then None else Some(Row(path.value, entries[i].1))
  {
    Paths.SftpEntryIsResolved(root, remotePath, entries[i].0);
    hide Paths.ResolveRemotePath, Paths.Parse, Paths.Print, Paths.PosixJoin;
  }

  /** Before they are sorted there is one row an entry, in order. */
  lemma {:induction false} RowsAre<T>(root: string, directory: string, entries: seq<(string, T)>)
    requires forall i :: 0 <= i < |entries| ==> SftpRow(root, directory, entries[i]).Some?
    ensures var rows := SftpRows(root, directory, entries);
            |rows| == |entries| && forall i :: 0 <= i < |entries| ==> SftpRow(root, directory, entries[i]) == Some(rows[i])
    decreases |entries|
  {
    hide SftpRow;
    if entries != [] {
      var front := entries[..|entries| - 1];
      forall i | 0 <= i < |front| ensures front[i] == entries[i] {}
      RowsAre(root, directory, front);
    }
  }

  lemma RowIsInside<T>(root: string, directory: string, entry: (string, T))
    requires SftpRow(root, directory, entry).Some?
    ensures Paths.Inside(root, SftpRow(root, directory, entry).value.path)
  {
    hide Paths.ResolveRemotePath, Paths.PosixJoin, Paths.Inside;
    Paths.ResolvedIsInside(root, Paths.PosixJoin(directory, entry.0));
  }
}
