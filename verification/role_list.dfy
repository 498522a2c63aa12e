/** The role list page: it keeps the role rows the server sent and shows the
    ones whose chosen column contains the search text, ignoring case. Each
    search starts again from the rows the server sent. */
module RoleList {
  import opened Common
  import opened Text

  /** A row of `role_data`; the timestamps arrive as their JSON text. */
  datatype Role = Role(id: nat, name: string, description: string, createdAt: string)

  /** The keys of a role row the filter can look at. */
  datatype RoleColumn = IdColumn | NameColumn | DescriptionColumn | CreatedAtColumn

  /** `role[columnName].toString()`. */
  function ColumnText(role: Role, column: RoleColumn): string
  {
    match column
    case IdColumn => NatToString(role.id)
    case NameColumn => role.name
    case DescriptionColumn => role.description
    case CreatedAtColumn => role.createdAt
  }

  /** Whether the lower-cased column text contains the lower-cased query. */
  predicate Matches(role: Role, column: RoleColumn, query: string)
  {
    Contains(Lower(ColumnText(role, column)), Lower(query))
  }

  /** The page state: the rows from the server and the rows on display. */
  datatype View = View(roleData: seq<Role>, data: seq<Role>)

  /** The first render shows nothing; the mount effect then shows every row. */
  function Initial(roleData: seq<Role>): View
  {
    View(roleData, [])
  }

  function Mount(v: View): (r: View)
    ensures r.roleData == v.roleData
    ensures r.data == v.roleData
  {
    v.(data := v.roleData)
  }

  /** `filter(columnName, value)`: the matching rows of the server's list, in order. */
  function Search(v: View, column: RoleColumn, query: string): (r: View)
    ensures r.roleData == v.roleData
    ensures IsSubsequence(r.data, v.roleData)
    ensures forall i :: 0 <= i < |r.data| ==> Matches(r.data[i], column, query)
    ensures forall i :: 0 <= i < |v.roleData| && Matches(v.roleData[i], column, query) ==> v.roleData[i] in r.data
  {
    var kept := Filter(v.roleData, role => Matches(role, column, query));
    FilterIsSubsequence(v.roleData, role => Matches(role, column, query));
    v.(data := kept)
  }

  /** A row is shown exactly as often as it was sent when it matches, and never otherwise. */
  lemma SearchCounts(v: View, column: RoleColumn, query: string, role: Role)
    ensures multiset(Search(v, column, query).data)[role] ==
      if Matches(role, column, query) then multiset(v.roleData)[role] else 0
  {
    FilterCount(v.roleData, r => Matches(r, column, query), role);
  }

  /** Clearing the search box shows every row again. */
  lemma EmptyQueryKeepsAll(v: View, column: RoleColumn)
    ensures Search(v, column, "").data == v.roleData
  {
    forall i | 0 <= i < |v.roleData|
      ensures Matches(v.roleData[i], column, "")
    {
      ContainsEmpty(Lower(ColumnText(v.roleData[i], column)));
    }
    FilterKeepsAll(v.roleData, r => Matches(r, column, ""));
  }

  lemma LowerIdempotent(s: string)
    ensures Lower(Lower(s)) == Lower(s)
  {
  }

  /** The case of the query does not matter. */
  lemma SearchIgnoresQueryCase(v: View, column: RoleColumn, query: string)
    ensures Search(v, column, Lower(query)) == Search(v, column, query)
  {
    LowerIdempotent(query);
    FilterAgrees(v.roleData, role => Matches(role, column, Lower(query)), role => Matches(role, column, query));
  }

  /** Typing a sequence of queries one after the other. */
  function Replay(v: View, column: RoleColumn, queries: seq<string>): View
    decreases |queries|
  {
    if queries == [] then v else Replay(Search(v, column, queries[0]), column, queries[1..])
  }

  /** Searches do not accumulate: after several, the page shows what the last one alone shows. */
  lemma {:induction false} ReplayIsLastSearch(v: View, column: RoleColumn, queries: seq<string>)
    requires queries != []
    decreases |queries|
    ensures Replay(v, column, queries) == Search(v, column, queries[|queries| - 1])
  {
    if |queries| > 1 {
      var next := Search(v, column, queries[0]);
      ReplayIsLastSearch(next, column, queries[1..]);
      assert queries[1..][|queries[1..]| - 1] == queries[|queries| - 1];
      assert next.roleData == v.roleData;
    }
  }

  /** After mounting, the page shows every row the server sent. */
  lemma MountShowsAll(roleData: seq<Role>)
    ensures Mount(Initial(roleData)).data == roleData
  {
  }
}
