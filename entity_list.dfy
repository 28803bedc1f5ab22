/** The generic list page: its search filter, its column sets and its
    delete action. */
module EntityList {
  import opened Text
  import opened Records
  import opened Constants
  import opened UIComponents

  /** The row test of `filteredData`: some property value, stringified and
      lower-cased, contains the lower-cased search term. */
  predicate Matches(item: Record, term: string)
  {
    exists k :: k in item && Contains(Lower(ToStr(item[k])), Lower(term))
  }

  /** `data.filter(Matches)`: the matching rows in their original order. */
  function Filter(data: seq<Record>, term: string): (rows: seq<Record>)
    ensures |rows| <= |data|
    ensures forall x :: x in rows <==> x in data && Matches(x, term)
    ensures forall x :: multiset(rows)[x] == if Matches(x, term) then multiset(data)[x] else 0
  {
    if data == [] then []
    else
      assert data == [data[0]] + data[1..];
      (if Matches(data[0], term) then [data[0]] else []) + Filter(data[1..], term)
  }

  /** The search result is an order-preserving subsequence of the data. */
  lemma {:induction false} FilterIsSubsequence(data: seq<Record>, term: string)
    ensures IsSubsequence(Filter(data, term), data)
  {
    if data != [] {
      FilterIsSubsequence(data[1..], term);
      var rest := Filter(data[1..], term);
      if Matches(data[0], term) {
        assert Filter(data, term) == [data[0]] + rest;
        assert ([data[0]] + rest)[1..] == rest;
      } else {
        assert Filter(data, term) == rest;
        SubsequenceOfTail(rest, data);
      }
    }
  }

  /** Filtering a filtered list again with the same term changes nothing. */
  lemma {:induction false} FilterIdempotent(data: seq<Record>, term: string)
    ensures Filter(Filter(data, term), term) == Filter(data, term)
  {
    if data != [] {
      FilterIdempotent(data[1..], term);
      var rest := Filter(data[1..], term);
      if Matches(data[0], term) {
        var kept := [data[0]] + rest;
        assert Filter(data, term) == kept;
        assert kept[0] == data[0] && kept[1..] == rest;
        assert Filter(kept, term) == [data[0]] + Filter(rest, term);
      } else {
        assert Filter(data, term) == rest;
      }
    }
  }

  /** With the empty term a row is kept exactly when it has a property. */
  lemma EmptyTermKeepsNonEmptyRows(item: Record)
    ensures Matches(item, "") <==> |item| > 0
  {
    if |item| > 0 {
      var k :| k in item;
      ContainsEmpty(Lower(ToStr(item[k])));
      assert Lower("") == "";
    }
  }

  /** The search ignores the case of the term. */
  lemma {:induction false} FilterIgnoresTermCase(data: seq<Record>, t1: string, t2: string)
    requires Lower(t1) == Lower(t2)
    ensures Filter(data, t1) == Filter(data, t2)
  {
    if data != [] {
      FilterIgnoresTermCase(data[1..], t1, t2);
    }
  }

  /** Lower-casing the term first gives the same rows. */
  lemma FilterOfLowerTerm(data: seq<Record>, term: string)
    ensures Filter(data, Lower(term)) == Filter(data, term)
  {
    LowerIdempotent(term);
    FilterIgnoresTermCase(data, Lower(term), term);
  }

  /** The activities page never shows a row: it lists `get('Activity')`. */
  lemma ActivityListEmpty(c: Collections, term: string)
    ensures Filter(GetSpec(c, "Activity"), term) == []
  {
    GetActivityEmpty(c);
  }

  /** How a column renders its cell. */
  datatype Render =
    | Plain
    | Badge          // StatusBadge of the value
    | StageBadge     // StatusBadge of the value, with 'Closed Won' shown as 'Completed'
    | ProgressBar    // a bar whose width is the value in percent

  datatype Column = Column(key: string, heading: string, link: bool, render: Render)

  /** The fixed column sets of `getColumns`. */
  function GetColumns(entityType: string): (cols: seq<Column>)
    ensures |cols| == 4 <==> entityType in {"Experience", "Education", "Projects", "Activity"}
    ensures |cols| != 4 ==> cols == []
    ensures entityType == "Experience" ==> cols[0].key == "name"
    ensures entityType == "Education" ==> cols[0].key == "firstName"
    ensures entityType == "Projects" ==> cols[0].key == "name"
    ensures entityType == "Activity" ==> cols[0].key == "subject"
    ensures cols != [] ==> cols[0].link && forall i :: 1 <= i < |cols| ==> !cols[i].link
  {
    match entityType
    case "Experience" =>
      [ Column("name", "Company", true, Plain),
        Column("industry", "Role", false, Plain),
        Column("phone", "Duration", false, Plain),
        Column("address", "Key Contributions", false, Plain) ]
    case "Education" =>
      [ Column("firstName", "Degree/Cert", true, Plain),
        Column("lastName", "Major", false, Plain),
        Column("jobTitle", "Institution", false, Plain),
        Column("email", "Year", false, Plain) ]
    case "Projects" =>
      [ Column("name", "Project Name", true, Plain),
        Column("closeDate", "Tech Stack", false, Plain),
        Column("stage", "Status", false, StageBadge),
        Column("estRevenue", "Complexity (%)", false, ProgressBar) ]
    case "Activity" =>
      [ Column("subject", "Subject", true, Plain),
        Column("type", "Type", false, Plain),
        Column("status", "State", false, Badge),
        Column("dueDate", "Due Date", false, Plain) ]
    case _ => []
  }

  /** The text a stage badge shows. */
  function StageLabel(v: string): string
  {
    if v == "Closed Won" then "Completed" else v
  }

  /** Showing 'Closed Won' as 'Completed' keeps its colour: both are green. */
  lemma StageLabelKeepsColour(v: string)
    ensures BadgeColour(StageLabel(v)) == BadgeColour(v)
  {
    if v == "Closed Won" {
      StageColour(v);
      ActivityStatusColour("Completed");
    }
  }

  /** `handleDelete`: after the user confirms, the store deletes exactly as
      `delete(entityType, id)` does; otherwise nothing changes. */
  method HandleDelete(store: Store, entityType: string, id: string, confirmed: bool)
    modifies store
    ensures store.Contents() == if confirmed then DeleteSpec(old(store.Contents()), entityType, id) else old(store.Contents())
  {
    if confirmed {
      store.Delete(entityType, id);
    }
  }
}
