/**
 * Mongo.cs: the repository's private copy of the filter compiler, its own
 * find-options and sort builders, and the query requests that its read
 * operations hand to the driver.
 *
 * The compiler copy is written as the source writes it, with `+=` and
 * `TrimEnd(',')`, and each method is proved to compute the meaning that
 * `Filter` defines, so the two copies agree on every input. The driver calls
 * themselves are not modelled: each read operation is reduced to the
 * `FindRequest` it builds before the call.
 */
module Mongo {
  import opened Wrappers
  import opened Primitives
  import MyConvert
  import Sort
  import Filter

  // ---------------------------------------------------------------------------
  // The compiler copy

  /** `getOperationString`: the same table as the `Filter` copy. */
  function GetOperationString(groupOperator: Filter.GroupOperator): (token: string)
    ensures token == Filter.GetOperationString(groupOperator)
  {
    match groupOperator
    case AND => "$and"
    case OR => "$or"
    case NOT => "$not"
    case NOR => "$nor"
    case NONE => ""
  }

  /** `getSearchStringByGroupCondition`: the `+=` loop over the children, then the comma trim. */
  method GetSearchStringByGroupCondition(groupConditions: seq<Filter.Condition>, groupOperator: Filter.GroupOperator)
    returns (r: Result<string, Filter.Error>)
    ensures r == Filter.GroupQuery(groupOperator, groupConditions)
    decreases groupConditions, 1
  {
    var prefix := "{ " + GetOperationString(groupOperator) + " : [ ";
    var searchCriteria := prefix;
    ghost var results := Filter.ChildResults(groupConditions);
    ghost var texts: seq<string> := [];
    var i := 0;
    while i < |groupConditions|
      invariant 0 <= i <= |groupConditions|
      invariant |texts| == i
      invariant forall k :: 0 <= k < i ==> results[k] == Success(texts[k])
      invariant searchCriteria == prefix + Filter.Terminated(texts)
    {
      var child := GetSearchStringBySingleCondition(groupConditions[i]);
      assert child == results[i];
      if child.Failure? {
        Filter.CollectFirstFailure(results, i);
        return Failure(child.error);
      }
      Filter.AccumulateStep(prefix, texts, child.value);
      Filter.SuccessesExtend(results, texts, child.value);
      searchCriteria := searchCriteria + (child.value + ",");
      texts := texts + [child.value];
      i := i + 1;
    }
    Filter.AccumulatedGroup(groupOperator, groupConditions, prefix, texts);
    searchCriteria := Filter.TrimEnd(searchCriteria, ',') + " ] }";
    r := Success(searchCriteria);
  }

  /** `getSearchStringBySingleCondition`: the node's checks, then the group or the leaf's if-chain. */
  method GetSearchStringBySingleCondition(condition: Filter.Condition) returns (r: Result<string, Filter.Error>)
    ensures r == Filter.ConditionQuery(condition)
    decreases condition, 2
  {
    var searchCriteria := "";
    MyConvert.ToStringOfString(condition.parameter);
    if (|condition.groupConditions| > 0 && condition.groupOperator != Filter.NONE) && MyConvert.ToString(MyConvert.Box(condition.parameter)) != "" {
      return Failure(Filter.ConditionBoth);
    }
    if !((|condition.groupConditions| > 0 && condition.groupOperator != Filter.NONE) || MyConvert.ToString(MyConvert.Box(condition.parameter)) != "") {
      return Failure(Filter.ConditionNeither);
    }
    if |condition.groupConditions| > 0 && condition.groupOperator != Filter.NONE {
      var group := GetSearchStringByGroupCondition(condition.groupConditions, condition.groupOperator);
      if group.Failure? {
        return group;
      }
      searchCriteria := searchCriteria + group.value;
      assert searchCriteria == group.value;
    } else {
      var p := condition.parameter;
      if p != "" {
        var documentValue := Filter.DocumentValue(condition);
        var raw := MyConvert.ConvertToString(condition.value);
        if condition.compare == Filter.Equal {
          searchCriteria := searchCriteria + ("{ \"" + p + "\" : { $eq: " + documentValue + " } } ");
          Filter.SpelledLeaf(p, "\" : { $eq: ", "$eq", documentValue);
          assert searchCriteria == Filter.LeafText(p, "$eq", documentValue);
        } else if condition.compare == Filter.NotEqual {
          searchCriteria := searchCriteria + ("{ \"" + p + "\" : { $ne: " + documentValue + " } } ");
          Filter.SpelledLeaf(p, "\" : { $ne: ", "$ne", documentValue);
          assert searchCriteria == Filter.LeafText(p, "$ne", documentValue);
        } else if condition.compare == Filter.GreaterThan {
          searchCriteria := searchCriteria + ("{ \"" + p + "\" : { $gt: " + documentValue + " } } ");
          Filter.SpelledLeaf(p, "\" : { $gt: ", "$gt", documentValue);
          assert searchCriteria == Filter.LeafText(p, "$gt", documentValue);
        } else if condition.compare == Filter.GreaterThanEqual {
          searchCriteria := searchCriteria + ("{ \"" + p + "\" : { $gte: " + documentValue + " } } ");
          Filter.SpelledLeaf(p, "\" : { $gte: ", "$gte", documentValue);
          assert searchCriteria == Filter.LeafText(p, "$gte", documentValue);
        } else if condition.compare == Filter.LessThan {
          searchCriteria := searchCriteria + ("{ \"" + p + "\" : { $lt: " + documentValue + " } } ");
          Filter.SpelledLeaf(p, "\" : { $lt: ", "$lt", documentValue);
          assert searchCriteria == Filter.LeafText(p, "$lt", documentValue);
        } else if condition.compare == Filter.LessThanEqual {
          searchCriteria := searchCriteria + ("{ \"" + p + "\" : { $lte: " + documentValue + " } } ");
          Filter.SpelledLeaf(p, "\" : { $lte: ", "$lte", documentValue);
          assert searchCriteria == Filter.LeafText(p, "$lte", documentValue);
        } else if raw.None? {
          return Failure(Filter.StringificationFailed);
        } else if condition.compare == Filter.Contains {
          searchCriteria := searchCriteria + ("{ \"" + p + "\" : { $regex: /.*" + raw.value + ".*/, $options: 'im' } } ");
          Filter.SpelledContainsLeaf(p, raw.value);
          assert searchCriteria == Filter.LeafText(p, "$regex", "/" + Filter.RegexPattern(Filter.Contains, raw.value) + "/, $options: 'im'");
        } else if condition.compare == Filter.BeginWith {
          searchCriteria := searchCriteria + ("{ \"" + p + "\" : { $regex: /^" + raw.value + "/, $options: 'im' } } ");
          Filter.SpelledBeginWithLeaf(p, raw.value);
          assert searchCriteria == Filter.LeafText(p, "$regex", "/" + Filter.RegexPattern(Filter.BeginWith, raw.value) + "/, $options: 'im'");
        } else if condition.compare == Filter.EndWith {
          searchCriteria := searchCriteria + ("{ \"" + p + "\" : { $regex: /" + raw.value + "$/, $options: 'im' } } ");
          Filter.SpelledEndWithLeaf(p, raw.value);
          assert searchCriteria == Filter.LeafText(p, "$regex", "/" + Filter.RegexPattern(Filter.EndWith, raw.value) + "/, $options: 'im'");
        } else if condition.compare == Filter.In {
          searchCriteria := searchCriteria + ("{ \"" + p + "\" : { $in: " + raw.value + " } } ");
          Filter.SpelledLeaf(p, "\" : { $in: ", "$in", raw.value);
          assert searchCriteria == Filter.LeafText(p, "$in", raw.value);
        } else if condition.compare == Filter.NotIn {
          searchCriteria := searchCriteria + ("{ \"" + p + "\" : { $nin: " + raw.value + " } } ");
          Filter.SpelledLeaf(p, "\" : { $nin: ", "$nin", raw.value);
          assert searchCriteria == Filter.LeafText(p, "$nin", raw.value);
        }
      }
    }
    r := Success(searchCriteria);
  }

  /** `getSearchCriteriaStringStartProcess`: the single condition if set, else an active group, else "". */
  method GetSearchCriteriaStringStartProcess(filter: Filter.Filter) returns (r: Result<string, Filter.Error>)
    ensures filter.condition.Some? ==> r == Filter.ConditionQuery(filter.condition.value)
    ensures filter.condition.None? && filter.HasActiveGroup() ==> r == Filter.GroupQuery(filter.groupOperator, filter.groupConditions)
    ensures filter.condition.None? && !filter.HasActiveGroup() ==> r == Success("")
  {
    r := Success("");
    if filter.condition.Some? {
      r := GetSearchStringBySingleCondition(filter.condition.value);
    } else if |filter.groupConditions| > 0 && filter.groupOperator != Filter.NONE {
      r := GetSearchStringByGroupCondition(filter.groupConditions, filter.groupOperator);
    }
  }

  /** What `getSearchCriteriaString` computes: "" for a null filter, otherwise the `Filter` compiler's result. */
  function SearchCriteria(filter: Option<Filter.Filter>): Result<string, Filter.Error> {
    match filter
    case None => Success("")
    case Some(f) => Filter.FilterQuery(f)
  }

  /**
   * `getSearchCriteriaString`: a null filter is the empty query, with no
   * checks at all; any other filter gives exactly what `Filter.ToString` gives,
   * its "both" and "neither" errors included.
   */
  method GetSearchCriteriaString(filter: Option<Filter.Filter>) returns (r: Result<string, Filter.Error>)
    ensures filter.None? ==> r == Success("")
    ensures filter.Some? ==> r == Filter.FilterQuery(filter.value)
  {
    if filter.None? {
      return Success("");
    }
    var f := filter.value;
    if (|f.groupConditions| > 0 && f.groupOperator != Filter.NONE) && f.condition.Some? {
      return Failure(Filter.FilterBoth);
    }
    if !((|f.groupConditions| > 0 && f.groupOperator != Filter.NONE) || f.condition.Some?) {
      return Failure(Filter.FilterNeither);
    }
    r := GetSearchCriteriaStringStartProcess(f);
  }

  // ---------------------------------------------------------------------------
  // Find options and sort definitions

  /** `getFindOptions`: the same options as `Filter.GetOptions`, built by assigning fields. */
  method GetFindOptions(sort: Option<Sort.Sort>, pageNo: Int32 := 0, pageSize: Int32 := 0) returns (findOptions: Filter.FindOptions)
    ensures findOptions == Filter.FindOptionsFor(sort, pageNo, pageSize)
  {
    findOptions := Filter.FindOptions(None, None, None);
    MyConvert.ToStringOfString(if sort.Some? then sort.value.name else "");
    if sort.Some? && MyConvert.ToString(MyConvert.Box(sort.value.name)) != "" {
      var sortBuilders := Sort.Asc(sort.value.name);
      if sort.value.direction == Sort.Descending {
        sortBuilders := Sort.Desc(sort.value.name);
      }
      findOptions := Filter.FindOptions(Some([sortBuilders]), None, None);
    }
    if pageNo > 0 && pageSize > 0 {
      var skipRecords := Mul(Sub(pageNo, 1), pageSize);
      findOptions := findOptions.(skip := Some(skipRecords), limit := Some(pageSize));
    }
  }

  /** `getSortDefinitions`: the `Select` projection written out; it agrees with `Sort.GetSortDefinitions`. */
  function GetSortDefinitions(sorts: seq<Sort.Sort>): (r: Option<seq<Sort.SortKey>>)
    ensures r == Sort.GetSortDefinitions(sorts)
  {
    if |sorts| > 0 then
      var keys := seq(|sorts|, i requires 0 <= i < |sorts| =>
        if sorts[i].direction == Sort.Descending then Sort.Desc(sorts[i].name) else Sort.Asc(sorts[i].name));
      assert keys == Sort.SortKeys(sorts);
      Some(keys)
    else
      None
  }

  /** The single-`Sort` overloads' list: the sort itself when it is non-null with a non-empty name, otherwise empty. */
  function SortListOf(sort: Option<Sort.Sort>): (sorts: seq<Sort.Sort>)
    ensures sorts == [] <==> sort.None? || sort.value.name == ""
    ensures sorts != [] ==> sorts == [sort.value]
  {
    MyConvert.ToStringOfString(if sort.Some? then sort.value.name else "");
    if sort.Some? && MyConvert.ToString(MyConvert.Box(sort.value.name)) != "" then [sort.value] else []
  }

  // ---------------------------------------------------------------------------
  // The read operations' requests

  /** What a read operation hands to the driver: the filter text, the sort keys, skip and limit. */
  datatype FindRequest = FindRequest(
    filter: string,
    sort: Option<seq<Sort.SortKey>>,
    skip: Option<Int32>,
    limit: Option<Int32>)

  /** A request for the given filter; compiling the filter is what can fail. */
  function Query(filter: Option<Filter.Filter>, sort: Option<seq<Sort.SortKey>>, skip: Option<Int32>, limit: Option<Int32>)
    : Result<FindRequest, Filter.Error>
  {
    match SearchCriteria(filter)
    case Failure(e) => Failure(e)
    case Success(text) => Success(FindRequest(text, sort, skip, limit))
  }

  /** `GetAll(filter, sorts)`: the compiled filter, sorted by the given keys when there are any. */
  function GetAll(filter: Option<Filter.Filter>, sorts: seq<Sort.Sort>): (r: Result<FindRequest, Filter.Error>)
    ensures r.Failure? <==> SearchCriteria(filter).Failure?
    ensures r.Failure? ==> r.error == SearchCriteria(filter).error
    ensures r.Success? ==> r.value.filter == SearchCriteria(filter).value
    ensures r.Success? ==> r.value.sort == Sort.GetSortDefinitions(sorts)
    ensures r.Success? ==> r.value.skip.None? && r.value.limit.None?
  {
    if |sorts| > 0 then
      Query(filter, GetSortDefinitions(sorts), None, None)
    else
      Query(filter, None, None, None)
  }

  /** `GetAll(filter, sort)`: the list overload on the normalised one-element or empty list. */
  function GetAllBySort(filter: Option<Filter.Filter>, sort: Option<Sort.Sort>): (r: Result<FindRequest, Filter.Error>)
    ensures r == GetAll(filter, SortListOf(sort))
    ensures r.Success? ==> r.value.sort == if sort.Some? && sort.value.name != "" then Some([Sort.KeyOf(sort.value)]) else None
  {
    var sorts := SortListOf(sort);
    if sorts == [] then GetAll(filter, sorts) else SingleSortKey(sorts[0]); GetAll(filter, sorts)
  }

  /**
   * `GetPageData(pageNo, pageSize, filter, sorts)`: always skips
   * `(pageNo - 1) * pageSize` records in 32-bit arithmetic and limits to
   * `pageSize`, whatever their signs.
   */
  function GetPageData(pageNo: Int32, pageSize: Int32, filter: Option<Filter.Filter>, sorts: seq<Sort.Sort>)
    : (r: Result<FindRequest, Filter.Error>)
    ensures r.Failure? <==> SearchCriteria(filter).Failure?
    ensures r.Failure? ==> r.error == SearchCriteria(filter).error
    ensures r.Success? ==> r.value.filter == SearchCriteria(filter).value
    ensures r.Success? ==> r.value.sort == Sort.GetSortDefinitions(sorts)
    ensures r.Success? ==> r.value.limit == Some(pageSize)
    ensures r.Success? ==> r.value.skip == Some(Wrap((pageNo as int - 1) * pageSize as int))
    ensures r.Success? && InInt32Range((pageNo as int - 1) * pageSize as int) ==>
      r.value.skip.value as int == (pageNo as int - 1) * pageSize as int
  {
    var skipRecords := Mul(Sub(pageNo, 1), pageSize);
    PredecessorProductExact(pageNo, pageSize);
    if |sorts| > 0 then
      Query(filter, GetSortDefinitions(sorts), Some(skipRecords), Some(pageSize))
    else
      Query(filter, None, Some(skipRecords), Some(pageSize))
  }

  /** `GetPageData(pageNo, pageSize, filter, sort)`: the list overload on the normalised list. */
  function GetPageDataBySort(pageNo: Int32, pageSize: Int32, filter: Option<Filter.Filter>, sort: Option<Sort.Sort>)
    : (r: Result<FindRequest, Filter.Error>)
    ensures r == GetPageData(pageNo, pageSize, filter, SortListOf(sort))
    ensures r.Failure? <==> SearchCriteria(filter).Failure?
    ensures r.Success? ==> r.value.filter == SearchCriteria(filter).value
    ensures r.Success? ==> r.value.sort == if sort.Some? && sort.value.name != "" then Some([Sort.KeyOf(sort.value)]) else None
    ensures r.Success? ==> r.value.limit == Some(pageSize)
    ensures r.Success? ==> r.value.skip == Some(Wrap((pageNo as int - 1) * pageSize as int))
  {
    var sorts := SortListOf(sort);
    if sorts == [] then GetPageData(pageNo, pageSize, filter, sorts)
    else SingleSortKey(sorts[0]); GetPageData(pageNo, pageSize, filter, sorts)
  }

  /** A request whose sort, skip and limit come from a `FindOptions`. */
  function QueryWithOptions(filter: Option<Filter.Filter>, options: Filter.FindOptions): Result<FindRequest, Filter.Error> {
    Query(filter, options.sort, options.skip, options.limit)
  }

  /** `GetAllAsync(filter)`: the compiled filter alone, with no options. */
  function GetAllAsyncByFilter(filter: Option<Filter.Filter>): (r: Result<FindRequest, Filter.Error>)
    ensures r.Failure? <==> SearchCriteria(filter).Failure?
    ensures r.Failure? ==> r.error == SearchCriteria(filter).error
    ensures r.Success? ==> r.value.filter == SearchCriteria(filter).value
    ensures r.Success? ==> r.value.sort.None? && r.value.skip.None? && r.value.limit.None?
  {
    Query(filter, None, None, None)
  }

  /** `GetAllAsync(filter, sort)`: `getFindOptions(sort)` with its default page numbers 0, so no paging. */
  function GetAllAsync(filter: Option<Filter.Filter>, sort: Option<Sort.Sort>): (r: Result<FindRequest, Filter.Error>)
    ensures r == QueryWithOptions(filter, Filter.FindOptionsFor(sort, 0, 0))
    ensures r.Failure? <==> SearchCriteria(filter).Failure?
    ensures r.Success? ==> r.value.filter == SearchCriteria(filter).value
    ensures r.Success? ==> r.value.sort == if sort.Some? && sort.value.name != "" then Some([Sort.KeyOf(sort.value)]) else None
    ensures r.Success? ==> r.value.skip.None? && r.value.limit.None?
  {
    QueryWithOptions(filter, Filter.FindOptionsFor(sort))
  }

  /** `GetPageDataAsync(pageNo, pageSize, filter, sort)`: paging through `getFindOptions`, so only for positive page numbers. */
  function GetPageDataAsync(pageNo: Int32, pageSize: Int32, filter: Option<Filter.Filter>, sort: Option<Sort.Sort>)
    : (r: Result<FindRequest, Filter.Error>)
    ensures r.Failure? <==> SearchCriteria(filter).Failure?
    ensures r.Failure? ==> r.error == SearchCriteria(filter).error
    ensures r.Success? ==> r.value.filter == SearchCriteria(filter).value
    ensures r.Success? ==> r.value.sort == if sort.Some? && sort.value.name != "" then Some([Sort.KeyOf(sort.value)]) else None
    ensures r.Success? ==> (r.value.skip.Some? <==> pageNo > 0 && pageSize > 0)
    ensures r.Success? && r.value.skip.Some? ==> r.value.skip.value == Wrap((pageNo as int - 1) * pageSize as int)
    ensures r.Success? ==> r.value.limit == if pageNo > 0 && pageSize > 0 then Some(pageSize) else None
  {
    QueryWithOptions(filter, Filter.FindOptionsFor(sort, pageNo, pageSize))
  }

  // ---------------------------------------------------------------------------
  // Properties of the requests

  /** With a null filter every read is unfiltered: the filter text is "" and nothing fails. */
  lemma NullFilterIsEmptyQuery(sorts: seq<Sort.Sort>, pageNo: Int32, pageSize: Int32)
    ensures GetAll(None, sorts) == Success(FindRequest("", Sort.GetSortDefinitions(sorts), None, None))
    ensures GetPageData(pageNo, pageSize, None, sorts).Success?
    ensures GetPageData(pageNo, pageSize, None, sorts).value.filter == ""
  {
  }

  /** The one-sort overload sorts by exactly `[KeyOf(sort)]`, which the list overload derives from `[sort]`. */
  lemma SingleSortKey(s: Sort.Sort)
    ensures GetSortDefinitions([s]) == Some([Sort.KeyOf(s)])
  {
    assert Sort.SortKeys([s]) == [Sort.KeyOf(s)];
  }

  /** For positive page numbers the synchronous and asynchronous one-sort page reads build the same request. */
  lemma PageDataMatchesAsync(pageNo: Int32, pageSize: Int32, filter: Option<Filter.Filter>, sort: Option<Sort.Sort>)
    requires pageNo > 0 && pageSize > 0
    ensures GetPageDataBySort(pageNo, pageSize, filter, sort) == GetPageDataAsync(pageNo, pageSize, filter, sort)
  {
    if sort.Some? && sort.value.name != "" {
      SingleSortKey(sort.value);
    }
  }

  /**
   * The synchronous page read does not check `pageNo >= 1`: for page 0 its
   * request carries a skip of `-pageSize`, where the asynchronous read sets no
   * skip at all.
   */
  lemma PageZeroSkipsBackwards(pageSize: Int32, filter: Option<Filter.Filter>, sort: Option<Sort.Sort>)
    requires pageSize >= 0
    requires SearchCriteria(filter).Success?
    ensures GetPageDataBySort(0, pageSize, filter, sort).value.skip == Some((-(pageSize as int)) as Int32)
    ensures GetPageDataAsync(0, pageSize, filter, sort).value.skip == None
  {
    var r := GetPageDataBySort(0, pageSize, filter, sort);
    assert (0 - 1) * pageSize as int == -(pageSize as int);
    assert r.value.skip == Some(Wrap(-(pageSize as int)));
  }
}
