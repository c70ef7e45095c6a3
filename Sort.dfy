/** Sort.cs: a sort request and its translation into an ordered list of sort keys. */
module Sort {
  import opened Wrappers

  datatype SortDirection = Ascending | Descending

  /** A field to order by. The only constructor sets both `Name` and `Direction`. */
  datatype Sort = Sort(name: string, direction: SortDirection)

  /** `new Sort(name, direction)`: stores exactly the given name and direction. */
  function NewSort(name: string, direction: SortDirection): (s: Sort)
    ensures s.name == name && s.direction == direction
  {
    Sort(name, direction)
  }

  /** One key of the driver's combined sort definition. */
  datatype SortKey = Asc(field: string) | Desc(field: string)

  /** The projection applied to each `Sort`: descending exactly when asked for, otherwise ascending. */
  function KeyOf(s: Sort): (k: SortKey)
    ensures k.field == s.name
    ensures k.Desc? <==> s.direction == Descending
  {
    if s.direction == Descending then Desc(s.name) else Asc(s.name)
  }

  /** `sorts.Select(...)`: one key per element, in input order. */
  function SortKeys(sorts: seq<Sort>): (keys: seq<SortKey>)
    ensures |keys| == |sorts|
    ensures forall i :: 0 <= i < |sorts| ==> keys[i] == KeyOf(sorts[i])
  {
    if sorts == [] then [] else [KeyOf(sorts[0])] + SortKeys(sorts[1..])
  }

  /** `Sort.GetSortDefinitions`: null for an empty list, otherwise the combined keys. */
  function GetSortDefinitions(sorts: seq<Sort>): (r: Option<seq<SortKey>>)
    ensures r.None? <==> sorts == []
    ensures r.Some? ==> |r.value| == |sorts|
    ensures r.Some? ==> forall i :: 0 <= i < |sorts| ==> r.value[i] == KeyOf(sorts[i])
  {
    if |sorts| > 0 then Some(SortKeys(sorts)) else None
  }

  /** Concatenating sort lists concatenates their keys: precedence follows list position. */
  lemma {:induction false} SortKeysAppend(a: seq<Sort>, b: seq<Sort>)
    ensures SortKeys(a + b) == SortKeys(a) + SortKeys(b)
  {
    if a == [] {
      assert a + b == b;
    } else {
      assert (a + b)[1..] == a[1..] + b;
      SortKeysAppend(a[1..], b);
    }
  }

  /** Age descending as primary key, name ascending as secondary. */
  lemma TwoKeyExample()
    ensures GetSortDefinitions([Sort("age", Descending), Sort("name", Ascending)])
         == Some([Desc("age"), Asc("name")])
  {
    var keys := SortKeys([Sort("age", Descending), Sort("name", Ascending)]);
    assert keys == [keys[0], keys[1]];
  }
}
