/**
 * The search filter of the plugin view: a row stays when the lower-cased
 * query occurs in its lower-cased name.
 */
module View {
  import opened Text
  import opened Catalog

  /** `search_query in row[0].lower()`, for a query that is already lower-cased. */
  predicate Matches(row: Entry, query: string): (r: bool)
    ensures r ==> |query| <= |row.name|
  {
    Contains(Lower(row.name), query)
  }

  /** The rows that survive the filter, in their original order. */
  function Keep(rows: seq<Entry>, query: string): (r: seq<Entry>)
    ensures |r| <= |rows|
  {
    if rows == [] then []
    else if Matches(rows[0], query) then [rows[0]] + Keep(rows[1..], query)
    else Keep(rows[1..], query)
  }

  /** `t` is `s` with some elements left out, the rest in the same order and unchanged. */
  ghost predicate IsSubsequence(t: seq<Entry>, s: seq<Entry>)
  {
    t == [] || (s != [] && ((t[0] == s[0] && IsSubsequence(t[1..], s[1..])) || IsSubsequence(t, s[1..])))
  }

  /** Filtering one more row appends it exactly when it matches. */
  lemma {:induction false} KeepLast(rows: seq<Entry>, row: Entry, query: string)
    ensures Keep(rows + [row], query) == Keep(rows, query) + (if Matches(row, query) then [row] else [])
  {
    if rows != [] {
      assert (rows + [row])[1..] == rows[1..] + [row];
      KeepLast(rows[1..], row, query);
    }
  }

  /** A row is kept exactly when it was present and matches the query. */
  lemma {:induction false} KeepMembers(rows: seq<Entry>, query: string, row: Entry)
    ensures row in Keep(rows, query) <==> row in rows && Matches(row, query)
  {
    if rows != [] {
      KeepMembers(rows[1..], query, row);
      assert rows == [rows[0]] + rows[1..];
    }
  }

  /** Filtering keeps the surviving rows in their original relative order. */
  lemma {:induction false} KeepIsSubsequence(rows: seq<Entry>, query: string)
    ensures IsSubsequence(Keep(rows, query), rows)
  {
    if rows != [] {
      KeepIsSubsequence(rows[1..], query);
      var r := Keep(rows, query);
      if Matches(rows[0], query) {
        assert r[0] == rows[0] && r[1..] == Keep(rows[1..], query);
      }
    }
  }

  /** The empty query matches every name, so nothing is removed. */
  lemma {:induction false} KeepEmptyQuery(rows: seq<Entry>)
    ensures Keep(rows, "") == rows
  {
    if rows != [] {
      ContainsEmpty(Lower(rows[0].name));
      KeepEmptyQuery(rows[1..]);
    }
  }

  /** Filtering with a query that contains the previous one gives what filtering the original rows would. */
  lemma {:induction false} KeepRefines(rows: seq<Entry>, previous: string, query: string)
    requires Contains(query, previous)
    ensures Keep(Keep(rows, previous), query) == Keep(rows, query)
  {
    if rows != [] {
      KeepRefines(rows[1..], previous, query);
      if Matches(rows[0], query) {
        ContainsTransitive(Lower(rows[0].name), query, previous);
      }
    }
  }

  /**
   * Filtering the current rows is not filtering the catalog: a row that a
   * query removed stays removed under any later query, even one it matches.
   */
  lemma KeepForgetsRemoved(rows: seq<Entry>, previous: string, query: string, row: Entry)
    requires row in rows && !Matches(row, previous) && Matches(row, query)
    ensures row in Keep(rows, query)
    ensures row !in Keep(Keep(rows, previous), query)
  {
    KeepMembers(rows, query, row);
    KeepMembers(rows, previous, row);
    KeepMembers(Keep(rows, previous), query, row);
  }

  /** Under two queries in a row, exactly the rows matching both remain. */
  lemma KeepTwice(rows: seq<Entry>, previous: string, query: string, row: Entry)
    ensures row in Keep(Keep(rows, previous), query) <==> row in rows && Matches(row, previous) && Matches(row, query)
  {
    KeepMembers(rows, previous, row);
    KeepMembers(Keep(rows, previous), query, row);
  }
}
