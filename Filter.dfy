/**
 * Filter.cs: the filter tree and its compiler into MongoDB extended-JSON
 * filter text.
 *
 * The compiler's meaning is given once, by the pure functions `ConditionQuery`,
 * `GroupQuery`, `Collect` and `FilterQuery`. The source's own helpers,
 * which build the text with `+=` and `TrimEnd(',')`, are the methods at the end
 * of this module, each proved to compute exactly that meaning.
 */
module Filter {
  import opened Wrappers
  import opened Primitives
  import MyConvert
  import Sort

  datatype CompareOperator =
    Equal | NotEqual | GreaterThan | GreaterThanEqual | LessThan | LessThanEqual
    | Contains | BeginWith | EndWith | In | NotIn

  datatype GroupOperator = NONE | OR | AND | NOT | NOR

  datatype FieldType = String | Number | DateTime

  /** The exceptions the compiler throws. */
  datatype Error =
    | FilterBoth          // a Filter with a single condition and an active group
    | FilterNeither       // a Filter with neither
    | ConditionBoth       // a nested Condition with a parameter and an active group
    | ConditionNeither    // a nested Condition with neither
    | StringificationFailed  // the value's own ToString threw while being concatenated

  /**
   * A `Condition` carries both the leaf fields and a group; which of them is in
   * use is decided when it is compiled. A null `Parameter` is the empty string
   * here: the compiler only looks at it through `MyConvert.ToString`.
   */
  datatype Condition = Condition(
    parameter: string,
    fieldType: FieldType,
    compare: CompareOperator,
    value: MyConvert.Object,
    groupOperator: GroupOperator,
    groupConditions: seq<Condition>)
  {
    /** A non-empty child list under an operator other than NONE. */
    predicate HasActiveGroup() {
      |groupConditions| > 0 && groupOperator != NONE
    }
  }

  /** The top-level wrapper: a single condition (null when absent) or a group. */
  datatype Filter = Filter(
    condition: Option<Condition>,
    groupOperator: GroupOperator,
    groupConditions: seq<Condition>)
  {
    predicate HasActiveGroup() {
      |groupConditions| > 0 && groupOperator != NONE
    }
  }

  // ---------------------------------------------------------------------------
  // Constructors

  /**
   * `new Condition(parameter, type, compare, value)`, with the same default
   * arguments (String, Equal, null); the group part keeps its defaults AND and [].
   */
  function NewCondition(parameter: string, fieldType: FieldType := String, compare: CompareOperator := Equal,
                        value: MyConvert.Object := MyConvert.Null): (c: Condition)
    ensures c.parameter == parameter && c.fieldType == fieldType && c.compare == compare && c.value == value
    ensures c.groupOperator == AND && c.groupConditions == []
    ensures !c.HasActiveGroup()
  {
    Condition(parameter, fieldType, compare, value, AND, [])
  }

  /** `new Condition(parameter, compare, value)`, defaults Equal and null: the type stays String. */
  function NewConditionWithCompare(parameter: string, compare: CompareOperator := Equal,
                                   value: MyConvert.Object := MyConvert.Null): (c: Condition)
    ensures c == NewCondition(parameter, String, compare, value)
  {
    Condition(parameter, String, compare, value, AND, [])
  }

  /** `new Condition(parameter, value)`, default null: the type stays String and the operator Equal. */
  function NewConditionWithValue(parameter: string, value: MyConvert.Object := MyConvert.Null): (c: Condition)
    ensures c == NewCondition(parameter, String, Equal, value)
  {
    Condition(parameter, String, Equal, value, AND, [])
  }

  /** `new Condition(groupOperator, groupConditions)`: the leaf part keeps its defaults. */
  function NewGroupCondition(groupOperator: GroupOperator, groupConditions: seq<Condition>): (c: Condition)
    ensures c.parameter == "" && c.fieldType == String && c.compare == Equal && c.value == MyConvert.Box("")
    ensures c.groupOperator == groupOperator && c.groupConditions == groupConditions
  {
    Condition("", String, Equal, MyConvert.Box(""), groupOperator, groupConditions)
  }

  /** `new Filter(condition)`: the group part keeps its defaults NONE and []. */
  function NewFilter(condition: Condition): (f: Filter)
    ensures f.condition == Some(condition)
    ensures f.groupOperator == NONE && f.groupConditions == []
    ensures !f.HasActiveGroup()
  {
    Filter(Some(condition), NONE, [])
  }

  /** `new Filter(operator, conditions)`: no single condition. */
  function NewGroupFilter(groupOperator: GroupOperator, conditions: seq<Condition>): (f: Filter)
    ensures f.condition == None
    ensures f.groupOperator == groupOperator && f.groupConditions == conditions
  {
    Filter(None, groupOperator, conditions)
  }

  // ---------------------------------------------------------------------------
  // Operator tables and literal formatting

  /** `getOperationString`: the token of a group operator; NONE has none. */
  function GetOperationString(groupOperator: GroupOperator): (token: string)
    ensures token == "" <==> groupOperator == NONE
    ensures token != "" ==> |token| >= 3 && token[0] == '$'
  {
    match groupOperator
    case AND => "$and"
    case OR => "$or"
    case NOT => "$not"
    case NOR => "$nor"
    case NONE => ""
  }

  /** Distinct operators get distinct tokens, so the text names the operator used. */
  lemma OperationStringInjective(a: GroupOperator, b: GroupOperator)
    requires GetOperationString(a) == GetOperationString(b)
    ensures a == b
  {
  }

  /** The four group tokens. */
  lemma OperationTokens()
    ensures GetOperationString(AND) == "$and" && GetOperationString(OR) == "$or"
    ensures GetOperationString(NOT) == "$not" && GetOperationString(NOR) == "$nor"
    ensures GetOperationString(NONE) == ""
  {
  }

  /** The six comparisons, whose operand is the type-formatted `DocumentValue`. */
  predicate IsComparison(op: CompareOperator) {
    op.Equal? || op.NotEqual? || op.GreaterThan? || op.GreaterThanEqual? || op.LessThan? || op.LessThanEqual?
  }

  /** The three regular-expression matches. */
  predicate IsPattern(op: CompareOperator) {
    op.Contains? || op.BeginWith? || op.EndWith?
  }

  /** The query operator each comparison operator compiles to. */
  function OperatorToken(op: CompareOperator): string {
    match op
    case Equal => "$eq"
    case NotEqual => "$ne"
    case GreaterThan => "$gt"
    case GreaterThanEqual => "$gte"
    case LessThan => "$lt"
    case LessThanEqual => "$lte"
    case Contains => "$regex"
    case BeginWith => "$regex"
    case EndWith => "$regex"
    case In => "$in"
    case NotIn => "$nin"
  }

  /** The regular expression for a pattern operator, with the value embedded unescaped. */
  function RegexPattern(op: CompareOperator, v: string): string
    requires IsPattern(op)
  {
    match op
    case Contains => ".*" + v + ".*"
    case BeginWith => "^" + v
    case EndWith => v + "$"
  }

  /**
   * `Condition.DocumentValue`: the value through `MyConvert.ToString`, wrapped
   * in double quotes for String fields (with no escaping) and bare for numbers
   * and dates.
   */
  function DocumentValue(c: Condition): (r: string)
    ensures c.fieldType == String ==>
      |r| == |MyConvert.ToString(c.value)| + 2 && r[0] == '"' && r[|r| - 1] == '"'
      && r[1..|r| - 1] == MyConvert.ToString(c.value)
    ensures c.fieldType != String ==> r == MyConvert.ToString(c.value)
  {
    match c.fieldType
    case String => "\"" + MyConvert.ToString(c.value) + "\""
    case Number => MyConvert.ToString(c.value)
    case DateTime => MyConvert.ToString(c.value)
  }

  // ---------------------------------------------------------------------------
  // The meaning of the compiler

  /** The text of one leaf: `{ "<parameter>" : { <token>: <operand> } } `, trailing space included. */
  function LeafText(parameter: string, token: string, operand: string): string {
    "{ \"" + parameter + "\" : { " + token + ": " + operand + " } } "
  }

  /** A compiled text that is non-empty and does not end in a comma. */
  predicate Closed(t: string) {
    |t| > 0 && t[|t| - 1] != ','
  }

  /**
   * A leaf's text. Comparisons use `DocumentValue`; patterns and In/NotIn embed
   * the value's own text, which fails when its conversion throws.
   */
  function LeafQuery(c: Condition): (r: Result<string, Error>)
    ensures r.Success? ==> Closed(r.value)
    ensures r.Failure? ==> r.error == StringificationFailed
  {
    if IsComparison(c.compare) then
      Success(LeafText(c.parameter, OperatorToken(c.compare), DocumentValue(c)))
    else
      match MyConvert.ConvertToString(c.value)
      case None => Failure(StringificationFailed)
      case Some(v) =>
        if IsPattern(c.compare) then
          Success(LeafText(c.parameter, "$regex", "/" + RegexPattern(c.compare, v) + "/, $options: 'im'"))
        else
          Success(LeafText(c.parameter, OperatorToken(c.compare), v))
  }

  /** The errors a nested condition can raise; the Filter-level ones are raised only at the top. */
  predicate IsConditionError(e: Error) {
    e.ConditionBoth? || e.ConditionNeither? || e.StringificationFailed?
  }

  /**
   * A condition's text. The node is checked first (both, then neither), then
   * compiled as a group if its group is active and as a leaf otherwise.
   */
  function ConditionQuery(c: Condition): (r: Result<string, Error>)
    ensures r.Success? ==> Closed(r.value)
    ensures r.Failure? ==> IsConditionError(r.error)
    decreases c, 2
  {
    if c.HasActiveGroup() && c.parameter != "" then
      Failure(ConditionBoth)
    else if !(c.HasActiveGroup() || c.parameter != "") then
      Failure(ConditionNeither)
    else if c.HasActiveGroup() then
      GroupQuery(c.groupOperator, c.groupConditions)
    else
      LeafQuery(c)
  }

  /** Each child's own result, in input order. */
  function ChildResults(children: seq<Condition>): (rs: seq<Result<string, Error>>)
    ensures |rs| == |children|
    ensures forall k {:trigger rs[k]} :: 0 <= k < |children| ==> rs[k] == ConditionQuery(children[k])
    ensures forall k {:trigger rs[k]} :: 0 <= k < |rs| && rs[k].Success? ==> Closed(rs[k].value)
    decreases children, 0
  {
    seq(|children|, k requires 0 <= k < |children| => ConditionQuery(children[k]))
  }

  /**
   * Results collected left to right: all the texts when every result
   * succeeds, otherwise the first failure, which aborts the rest.
   */
  function Collect(rs: seq<Result<string, Error>>): (r: Result<seq<string>, Error>)
    ensures r.Success? ==> |r.value| == |rs| && forall k :: 0 <= k < |rs| ==> rs[k] == Success(r.value[k])
    ensures r.Failure? ==> Failure(r.error) in rs
  {
    if rs == [] then
      Success([])
    else
      match Collect(rs[..|rs| - 1])
      case Failure(e) => Failure(e)
      case Success(texts) =>
        match rs[|rs| - 1]
        case Failure(e) => Failure(e)
        case Success(t) => Success(texts + [t])
  }

  /** Texts separated by commas, with no separator after the last one. */
  function Join(texts: seq<string>): string {
    if |texts| == 0 then ""
    else if |texts| == 1 then texts[0]
    else Join(texts[..|texts| - 1]) + "," + texts[|texts| - 1]
  }

  /** A group's text: `{ <token> : [ <child>,<child>,... ] }`. */
  function GroupQuery(groupOperator: GroupOperator, children: seq<Condition>): (r: Result<string, Error>)
    ensures r.Success? ==> Closed(r.value)
    ensures r.Failure? ==> IsConditionError(r.error)
    decreases children, 1
  {
    match Collect(ChildResults(children))
    case Failure(e) => Failure(e)
    case Success(texts) => Success("{ " + GetOperationString(groupOperator) + " : [ " + Join(texts) + " ] }")
  }

  /**
   * `Filter.ToString`: the Filter is checked (both, then neither) and its
   * single condition or its group is compiled.
   */
  function FilterQuery(f: Filter): (r: Result<string, Error>)
    ensures r == Failure(FilterBoth) <==> f.HasActiveGroup() && f.condition.Some?
    ensures r == Failure(FilterNeither) <==> !f.HasActiveGroup() && f.condition.None?
    ensures f.condition.Some? && !f.HasActiveGroup() ==> r == ConditionQuery(f.condition.value)
    ensures f.condition.None? && f.HasActiveGroup() ==> r == GroupQuery(f.groupOperator, f.groupConditions)
  {
    if f.HasActiveGroup() && f.condition.Some? then
      Failure(FilterBoth)
    else if !(f.HasActiveGroup() || f.condition.Some?) then
      Failure(FilterNeither)
    else if f.condition.Some? then
      ConditionQuery(f.condition.value)
    else
      GroupQuery(f.groupOperator, f.groupConditions)
  }

  // ---------------------------------------------------------------------------
  // Properties of the compiler

  /** When every result succeeds, collecting gives exactly their texts. */
  lemma {:induction false} CollectAllSuccess(rs: seq<Result<string, Error>>, texts: seq<string>)
    requires |texts| == |rs|
    requires forall k :: 0 <= k < |rs| ==> rs[k] == Success(texts[k])
    ensures Collect(rs) == Success(texts)
  {
    if rs != [] {
      var n := |rs| - 1;
      CollectAllSuccess(rs[..n], texts[..n]);
      assert texts[..n] + [texts[n]] == texts;
    }
  }

  /** A failure after only successes is what collecting reports, whatever follows it. */
  lemma {:induction false} CollectFirstFailure(rs: seq<Result<string, Error>>, i: nat)
    requires i < |rs|
    requires forall k :: 0 <= k < i ==> rs[k].Success?
    requires rs[i].Failure?
    ensures Collect(rs) == Failure(rs[i].error)
    decreases |rs|
  {
    var n := |rs| - 1;
    if i == n {
      CollectAllSuccess(rs[..n], seq(n, k requires 0 <= k < n => rs[k].value));
    } else {
      CollectFirstFailure(rs[..n], i);
    }
  }

  /** Collecting succeeds exactly when every result does. */
  lemma CollectSucceedsIff(rs: seq<Result<string, Error>>)
    ensures Collect(rs).Success? <==> forall k :: 0 <= k < |rs| ==> rs[k].Success?
  {
    if forall k :: 0 <= k < |rs| ==> rs[k].Success? {
      CollectAllSuccess(rs, seq(|rs|, k requires 0 <= k < |rs| => rs[k].value));
    }
  }

  /** A collected failure is the error of the first failing result, counting left to right. */
  lemma {:induction false} CollectFailureIsFirst(rs: seq<Result<string, Error>>)
    requires Collect(rs).Failure?
    ensures exists i :: (0 <= i < |rs| && rs[i] == Failure(Collect(rs).error)
      && forall k :: 0 <= k < i ==> rs[k].Success?)
  {
    var n := |rs| - 1;
    assert forall k :: 0 <= k < n ==> rs[..n][k] == rs[k];
    if Collect(rs[..n]).Failure? {
      CollectFailureIsFirst(rs[..n]);
      var i :| (0 <= i < n && rs[..n][i] == Failure(Collect(rs[..n]).error)
        && forall k :: 0 <= k < i ==> rs[..n][k].Success?);
      assert rs[i] == Failure(Collect(rs).error);
    } else {
      assert rs[n] == Failure(Collect(rs).error);
    }
  }

  /** A group compiles exactly when each of its children does. */
  lemma GroupSucceedsIff(groupOperator: GroupOperator, children: seq<Condition>)
    ensures GroupQuery(groupOperator, children).Success? <==>
      forall k :: 0 <= k < |children| ==> ConditionQuery(children[k]).Success?
  {
    var rs := ChildResults(children);
    CollectSucceedsIff(rs);
    assert forall k :: 0 <= k < |children| ==> (rs[k].Success? <==> ConditionQuery(children[k]).Success?);
  }

  /** The texts of children that all compile, in input order. */
  function ChildTexts(children: seq<Condition>): seq<string>
    requires forall k :: 0 <= k < |children| ==> ConditionQuery(children[k]).Success?
  {
    seq(|children|, k requires 0 <= k < |children| => ConditionQuery(children[k]).value)
  }

  /** A compiling group is its token and the comma-join of its children's own texts, in input order. */
  lemma GroupTextsInOrder(groupOperator: GroupOperator, children: seq<Condition>)
    requires forall k :: 0 <= k < |children| ==> ConditionQuery(children[k]).Success?
    ensures GroupQuery(groupOperator, children)
         == Success("{ " + GetOperationString(groupOperator) + " : [ " + Join(ChildTexts(children)) + " ] }")
  {
    CollectAllSuccess(ChildResults(children), ChildTexts(children));
  }

  /** A failing group reports the error of its first failing child; every earlier child compiles. */
  lemma GroupFirstFailure(groupOperator: GroupOperator, children: seq<Condition>)
    requires GroupQuery(groupOperator, children).Failure?
    ensures exists i :: (0 <= i < |children| && ConditionQuery(children[i]) == GroupQuery(groupOperator, children)
      && forall k :: 0 <= k < i ==> ConditionQuery(children[k]).Success?)
  {
    var rs := ChildResults(children);
    CollectFailureIsFirst(rs);
    var i :| (0 <= i < |rs| && rs[i] == Failure(Collect(rs).error) && forall k :: 0 <= k < i ==> rs[k].Success?);
    assert forall k :: 0 <= k < i ==> ConditionQuery(children[k]).Success? by {
      forall k | 0 <= k < i ensures ConditionQuery(children[k]).Success? {
        assert rs[k].Success?;
      }
    }
    assert ConditionQuery(children[i]) == GroupQuery(groupOperator, children);
  }

  /**
   * Every node the compiler reaches passes its check: exactly one of an active
   * group and a non-empty parameter (children of an inactive group are never
   * reached).
   */
  ghost predicate WellFormed(c: Condition)
    decreases c
  {
    && (c.HasActiveGroup() <==> c.parameter == "")
    && (c.HasActiveGroup() ==> forall k :: 0 <= k < |c.groupConditions| ==> WellFormed(c.groupConditions[k]))
  }

  /** Every leaf the compiler reaches that embeds its raw value can be converted to text. */
  ghost predicate Stringifiable(c: Condition)
    decreases c
  {
    if c.HasActiveGroup() then
      forall k :: 0 <= k < |c.groupConditions| ==> Stringifiable(c.groupConditions[k])
    else
      IsComparison(c.compare) || MyConvert.ConvertToString(c.value).Some?
  }

  /**
   * Compilation succeeds exactly on well-formed trees whose embedded values
   * convert; a well-formed tree can fail only on a conversion, never with a
   * structural error.
   */
  lemma {:induction false} ConditionQuerySucceedsIff(c: Condition)
    ensures ConditionQuery(c).Success? <==> WellFormed(c) && Stringifiable(c)
    ensures WellFormed(c) && ConditionQuery(c).Failure? ==> ConditionQuery(c).error == StringificationFailed
    decreases c
  {
    if c.HasActiveGroup() && c.parameter == "" {
      var children := c.groupConditions;
      GroupSucceedsIff(c.groupOperator, children);
      if GroupQuery(c.groupOperator, children).Failure? {
        GroupFirstFailure(c.groupOperator, children);
      }
      forall k | 0 <= k < |children|
        ensures ConditionQuery(children[k]).Success? <==> WellFormed(children[k]) && Stringifiable(children[k])
        ensures WellFormed(children[k]) && ConditionQuery(children[k]).Failure? ==>
          ConditionQuery(children[k]).error == StringificationFailed
      {
        ConditionQuerySucceedsIff(children[k]);
      }
    }
  }

  /**
   * A tree made only by the public constructors: every node is either a leaf
   * (group part left at AND and []) or a group (parameter left at "").
   */
  ghost predicate BuiltByConstructors(c: Condition)
    decreases c
  {
    && (c.groupConditions == [] || c.parameter == "")
    && forall k :: 0 <= k < |c.groupConditions| ==> BuiltByConstructors(c.groupConditions[k])
  }

  /** The "both" error of a nested condition is unreachable from the public constructors. */
  lemma {:induction false} ConstructedNeverBoth(c: Condition)
    requires BuiltByConstructors(c)
    ensures ConditionQuery(c) != Failure(ConditionBoth)
    decreases c
  {
    if c.HasActiveGroup() {
      var children := c.groupConditions;
      var group := GroupQuery(c.groupOperator, children);
      if group.Failure? {
        GroupFirstFailure(c.groupOperator, children);
        var k :| 0 <= k < |children| && ConditionQuery(children[k]) == group;
        ConstructedNeverBoth(children[k]);
      }
    }
  }

  /** A comparison leaf compiles to the template with its operator token and the formatted value. */
  lemma ComparisonLeaf(c: Condition)
    requires !c.HasActiveGroup() && c.parameter != "" && IsComparison(c.compare)
    ensures ConditionQuery(c) == Success(LeafText(c.parameter, OperatorToken(c.compare), DocumentValue(c)))
  {
  }

  /** A pattern leaf embeds the raw text in a case-insensitive, multi-line regular expression. */
  lemma PatternLeaf(c: Condition, v: string)
    requires !c.HasActiveGroup() && c.parameter != "" && IsPattern(c.compare)
    requires MyConvert.ConvertToString(c.value) == Some(v)
    ensures ConditionQuery(c) == Success(LeafText(c.parameter, "$regex", "/" + RegexPattern(c.compare, v) + "/, $options: 'im'"))
  {
  }

  /** An In or NotIn leaf embeds the raw text as the operand of `$in` or `$nin`, bypassing `DocumentValue`. */
  lemma InLeaf(c: Condition, v: string)
    requires !c.HasActiveGroup() && c.parameter != "" && (c.compare == In || c.compare == NotIn)
    requires MyConvert.ConvertToString(c.value) == Some(v)
    ensures ConditionQuery(c) == Success(LeafText(c.parameter, if c.compare == In then "$in" else "$nin", v))
  {
  }

  /** A pattern or In/NotIn leaf whose raw value cannot be converted to text fails the compile. */
  lemma RawValueFails(c: Condition)
    requires !c.HasActiveGroup() && c.parameter != "" && !IsComparison(c.compare)
    requires MyConvert.ConvertToString(c.value).None?
    ensures ConditionQuery(c) == Failure(StringificationFailed)
  {
  }

  /** The query operator of each branch of the leaf if-chain. */
  lemma CompareTokens()
    ensures OperatorToken(Equal) == "$eq" && OperatorToken(NotEqual) == "$ne"
    ensures OperatorToken(GreaterThan) == "$gt" && OperatorToken(GreaterThanEqual) == "$gte"
    ensures OperatorToken(LessThan) == "$lt" && OperatorToken(LessThanEqual) == "$lte"
    ensures OperatorToken(In) == "$in" && OperatorToken(NotIn) == "$nin"
    ensures forall op :: IsPattern(op) ==> OperatorToken(op) == "$regex"
  {
  }

  /** A sample Number leaf: the value is emitted bare. */
  lemma SampleNumberLeaf()
    ensures ConditionQuery(NewCondition("age", Number, GreaterThan, MyConvert.Box("18")))
         == Success("{ \"age\" : { $gt: 18 } } ")
  {
    var age := NewCondition("age", Number, GreaterThan, MyConvert.Box("18"));
    MyConvert.ToStringOfString("18");
    ComparisonLeaf(age);
    assert DocumentValue(age) == "18";
    assert LeafText("age", "$gt", "18") == "{ \"age\" : { $gt: 18 } } ";
  }

  /** A sample String leaf: the value is emitted between double quotes. */
  lemma SampleStringLeaf()
    ensures ConditionQuery(NewCondition("name", String, Equal, MyConvert.Box("Alice")))
         == Success("{ \"name\" : { $eq: \"Alice\" } } ")
  {
    var name := NewCondition("name", String, Equal, MyConvert.Box("Alice"));
    MyConvert.ToStringOfString("Alice");
    ComparisonLeaf(name);
    assert DocumentValue(name) == "\"Alice\"";
    assert LeafText("name", "$eq", "\"Alice\"") == "{ \"name\" : { $eq: \"Alice\" } } ";
  }

  /** The two sample leaves under AND: joined by one comma, each keeping its trailing space. */
  lemma SampleGroupQuery()
    ensures GroupQuery(AND, [NewCondition("age", Number, GreaterThan, MyConvert.Box("18")),
                             NewCondition("name", String, Equal, MyConvert.Box("Alice"))])
         == Success("{ " + "$and" + " : [ " + ("{ \"age\" : { $gt: 18 } } " + "," + "{ \"name\" : { $eq: \"Alice\" } } ") + " ] }")
  {
    var age := NewCondition("age", Number, GreaterThan, MyConvert.Box("18"));
    var name := NewCondition("name", String, Equal, MyConvert.Box("Alice"));
    SampleNumberLeaf();
    SampleStringLeaf();
    var children := [age, name];
    var texts := ["{ \"age\" : { $gt: 18 } } ", "{ \"name\" : { $eq: \"Alice\" } } "];
    CollectAllSuccess(ChildResults(children), texts);
    assert texts[..1] == [texts[0]];
    assert Join(texts) == texts[0] + "," + texts[1];
  }

  // ---------------------------------------------------------------------------
  // The source's `+=` accumulation and `TrimEnd(',')`

  /** `string.TrimEnd(trim)`: the longest prefix after which only `trim` characters follow. */
  function TrimEnd(s: string, trim: char): (r: string)
    ensures r <= s
    ensures r == "" || r[|r| - 1] != trim
    ensures forall i :: |r| <= i < |s| ==> s[i] == trim
  {
    if |s| > 0 && s[|s| - 1] == trim then TrimEnd(s[..|s| - 1], trim) else s
  }

  /** What the loop has accumulated after the given texts: each one followed by a comma. */
  ghost function Terminated(texts: seq<string>): string {
    if texts == [] then "" else Terminated(texts[..|texts| - 1]) + texts[|texts| - 1] + ","
  }

  lemma {:induction false} TerminatedIsJoinAndComma(texts: seq<string>)
    requires texts != []
    ensures Terminated(texts) == Join(texts) + ","
  {
    var n := |texts| - 1;
    if n == 0 {
      assert texts[..n] == [];
    } else {
      TerminatedIsJoinAndComma(texts[..n]);
    }
  }

  lemma JoinEndsWithLast(texts: seq<string>)
    requires texts != [] && texts[|texts| - 1] != ""
    ensures |Join(texts)| > 0 && Join(texts)[|Join(texts)| - 1] == texts[|texts| - 1][|texts[|texts| - 1]| - 1]
  {
  }

  /**
   * Trimming the trailing commas off the accumulated text leaves the comma-join:
   * no child's text is empty or ends in a comma, so exactly the last separator goes.
   */
  lemma TrimAccumulated(prefix: string, texts: seq<string>)
    requires Closed(prefix)
    requires forall k :: 0 <= k < |texts| ==> Closed(texts[k])
    ensures TrimEnd(prefix + Terminated(texts), ',') == prefix + Join(texts)
  {
    if texts == [] {
      assert prefix + Terminated(texts) == prefix;
    } else {
      TerminatedIsJoinAndComma(texts);
      JoinEndsWithLast(texts);
      var body := prefix + Join(texts);
      assert prefix + Terminated(texts) == body + ",";
      assert (body + ",")[..|body|] == body;
    }
  }

  /** Accumulating one more text appends that text and a comma. */
  lemma {:induction false} TerminatedSnoc(texts: seq<string>, t: string)
    ensures Terminated(texts + [t]) == Terminated(texts) + t + ","
  {
    assert (texts + [t])[..|texts|] == texts;
  }

  /** The loop's step: one more child's text and a comma extend the accumulation. */
  lemma AccumulateStep(prefix: string, texts: seq<string>, t: string)
    ensures prefix + Terminated(texts) + (t + ",") == prefix + Terminated(texts + [t])
  {
    TerminatedSnoc(texts, t);
    ConcatAssoc(prefix, Terminated(texts), t, ",");
  }

  /** The loop's bookkeeping: one more child compiled extends the texts collected so far by its text. */
  lemma SuccessesExtend(results: seq<Result<string, Error>>, texts: seq<string>, t: string)
    requires |texts| < |results|
    requires forall k :: 0 <= k < |texts| ==> results[k] == Success(texts[k])
    requires results[|texts|] == Success(t)
    ensures forall k :: 0 <= k < |texts| + 1 ==> results[k] == Success((texts + [t])[k])
  {
  }

  /** The loop's exit: once every child has compiled, trimming the accumulation and closing the bracket is the group's text. */
  lemma AccumulatedGroup(groupOperator: GroupOperator, children: seq<Condition>, prefix: string, texts: seq<string>)
    requires prefix == "{ " + GetOperationString(groupOperator) + " : [ "
    requires |texts| == |children|
    requires forall k :: 0 <= k < |children| ==> ChildResults(children)[k] == Success(texts[k])
    ensures GroupQuery(groupOperator, children) == Success(TrimEnd(prefix + Terminated(texts), ',') + " ] }")
  {
    var results := ChildResults(children);
    CollectAllSuccess(results, texts);
    TrimAccumulated(prefix, texts);
  }

  lemma ConcatAssoc(h: string, a: string, b: string, c: string)
    ensures h + a + b + c == h + (a + b + c)
  {
  }

  /** The source spells a leaf with one literal for `" : { <token>: `; that spelling is the template. */
  lemma SpelledLeaf(p: string, spelled: string, token: string, operand: string)
    requires spelled == "\" : { " + token + ": "
    ensures "{ \"" + p + spelled + operand + " } } " == LeafText(p, token, operand)
  {
    ConcatAssoc("{ \"" + p, "\" : { ", token, ": ");
  }

  /** The source's spelling of each regular-expression leaf is the template with its pattern. */
  lemma SpelledContainsLeaf(p: string, v: string)
    ensures "{ \"" + p + "\" : { $regex: /.*" + v + ".*/, $options: 'im' } } "
         == LeafText(p, "$regex", "/" + RegexPattern(Contains, v) + "/, $options: 'im'")
  {
    ConcatAssoc("{ \"" + p, "\" : { ", "$regex", ": ");
  }

  lemma SpelledBeginWithLeaf(p: string, v: string)
    ensures "{ \"" + p + "\" : { $regex: /^" + v + "/, $options: 'im' } } "
         == LeafText(p, "$regex", "/" + RegexPattern(BeginWith, v) + "/, $options: 'im'")
  {
    ConcatAssoc("{ \"" + p, "\" : { ", "$regex", ": ");
  }

  lemma SpelledEndWithLeaf(p: string, v: string)
    ensures "{ \"" + p + "\" : { $regex: /" + v + "$/, $options: 'im' } } "
         == LeafText(p, "$regex", "/" + RegexPattern(EndWith, v) + "/, $options: 'im'")
  {
    ConcatAssoc("{ \"" + p, "\" : { ", "$regex", ": ");
  }

  // ---------------------------------------------------------------------------
  // The source's methods

  /** `getFilterStringByGroupCondition`: appends each child's text and a comma, then trims the commas. */
  method GetFilterStringByGroupCondition(groupConditions: seq<Condition>, groupOperator: GroupOperator)
    returns (r: Result<string, Error>)
    ensures r == GroupQuery(groupOperator, groupConditions)
    decreases groupConditions, 1
  {
    var prefix := "{ " + GetOperationString(groupOperator) + " : [ ";
    var filterString := prefix;
    ghost var results := ChildResults(groupConditions);
    ghost var texts: seq<string> := [];
    var i := 0;
    while i < |groupConditions|
      invariant 0 <= i <= |groupConditions|
      invariant |texts| == i
      invariant forall k :: 0 <= k < i ==> results[k] == Success(texts[k])
      invariant filterString == prefix + Terminated(texts)
    {
      var child := GetFilterStringBySingleCondition(groupConditions[i]);
      assert child == results[i];
      if child.Failure? {
        CollectFirstFailure(results, i);
        return Failure(child.error);
      }
      AccumulateStep(prefix, texts, child.value);
      SuccessesExtend(results, texts, child.value);
      filterString := filterString + (child.value + ",");
      texts := texts + [child.value];
      i := i + 1;
    }
    AccumulatedGroup(groupOperator, groupConditions, prefix, texts);
    filterString := TrimEnd(filterString, ',') + " ] }";
    r := Success(filterString);
  }

  /** `getFilterStringBySingleCondition`: the node's checks, then the group or the leaf's if-chain. */
  method GetFilterStringBySingleCondition(condition: Condition) returns (r: Result<string, Error>)
    ensures r == ConditionQuery(condition)
    decreases condition, 2
  {
    var filterString := "";
    MyConvert.ToStringOfString(condition.parameter);
    if (|condition.groupConditions| > 0 && condition.groupOperator != NONE) && MyConvert.ToString(MyConvert.Box(condition.parameter)) != "" {
      return Failure(ConditionBoth);
    }
    if !((|condition.groupConditions| > 0 && condition.groupOperator != NONE) || MyConvert.ToString(MyConvert.Box(condition.parameter)) != "") {
      return Failure(ConditionNeither);
    }
    if |condition.groupConditions| > 0 && condition.groupOperator != NONE {
      var group := GetFilterStringByGroupCondition(condition.groupConditions, condition.groupOperator);
      if group.Failure? {
        return group;
      }
      filterString := filterString + group.value;
      assert filterString == group.value;
    } else {
      var p := condition.parameter;
      if p != "" {
        var raw := MyConvert.ConvertToString(condition.value);
        if condition.compare == Equal {
          filterString := filterString + ("{ \"" + p + "\" : { $eq: " + DocumentValue(condition) + " } } ");
          SpelledLeaf(p, "\" : { $eq: ", "$eq", DocumentValue(condition));
          assert filterString == LeafText(p, "$eq", DocumentValue(condition));
        } else if condition.compare == NotEqual {
          filterString := filterString + ("{ \"" + p + "\" : { $ne: " + DocumentValue(condition) + " } } ");
          SpelledLeaf(p, "\" : { $ne: ", "$ne", DocumentValue(condition));
          assert filterString == LeafText(p, "$ne", DocumentValue(condition));
        } else if condition.compare == GreaterThan {
          filterString := filterString + ("{ \"" + p + "\" : { $gt: " + DocumentValue(condition) + " } } ");
          SpelledLeaf(p, "\" : { $gt: ", "$gt", DocumentValue(condition));
          assert filterString == LeafText(p, "$gt", DocumentValue(condition));
        } else if condition.compare == GreaterThanEqual {
          filterString := filterString + ("{ \"" + p + "\" : { $gte: " + DocumentValue(condition) + " } } ");
          SpelledLeaf(p, "\" : { $gte: ", "$gte", DocumentValue(condition));
          assert filterString == LeafText(p, "$gte", DocumentValue(condition));
        } else if condition.compare == LessThan {
          filterString := filterString + ("{ \"" + p + "\" : { $lt: " + DocumentValue(condition) + " } } ");
          SpelledLeaf(p, "\" : { $lt: ", "$lt", DocumentValue(condition));
          assert filterString == LeafText(p, "$lt", DocumentValue(condition));
        } else if condition.compare == LessThanEqual {
          filterString := filterString + ("{ \"" + p + "\" : { $lte: " + DocumentValue(condition) + " } } ");
          SpelledLeaf(p, "\" : { $lte: ", "$lte", DocumentValue(condition));
          assert filterString == LeafText(p, "$lte", DocumentValue(condition));
        } else if raw.None? {
          return Failure(StringificationFailed);
        } else if condition.compare == Contains {
          filterString := filterString + ("{ \"" + p + "\" : { $regex: /.*" + raw.value + ".*/, $options: 'im' } } ");
          SpelledContainsLeaf(p, raw.value);
          assert filterString == LeafText(p, "$regex", "/" + RegexPattern(Contains, raw.value) + "/, $options: 'im'");
        } else if condition.compare == BeginWith {
          filterString := filterString + ("{ \"" + p + "\" : { $regex: /^" + raw.value + "/, $options: 'im' } } ");
          SpelledBeginWithLeaf(p, raw.value);
          assert filterString == LeafText(p, "$regex", "/" + RegexPattern(BeginWith, raw.value) + "/, $options: 'im'");
        } else if condition.compare == EndWith {
          filterString := filterString + ("{ \"" + p + "\" : { $regex: /" + raw.value + "$/, $options: 'im' } } ");
          SpelledEndWithLeaf(p, raw.value);
          assert filterString == LeafText(p, "$regex", "/" + RegexPattern(EndWith, raw.value) + "/, $options: 'im'");
        } else if condition.compare == In {
          filterString := filterString + ("{ \"" + p + "\" : { $in: " + raw.value + " } } ");
          SpelledLeaf(p, "\" : { $in: ", "$in", raw.value);
          assert filterString == LeafText(p, "$in", raw.value);
        } else if condition.compare == NotIn {
          filterString := filterString + ("{ \"" + p + "\" : { $nin: " + raw.value + " } } ");
          SpelledLeaf(p, "\" : { $nin: ", "$nin", raw.value);
          assert filterString == LeafText(p, "$nin", raw.value);
        }
      }
    }
    r := Success(filterString);
  }

  /** `getFilterProcessStart`: the single condition if set, else an active group, else "". */
  method GetFilterProcessStart(f: Filter) returns (r: Result<string, Error>)
    ensures f.condition.Some? ==> r == ConditionQuery(f.condition.value)
    ensures f.condition.None? && f.HasActiveGroup() ==> r == GroupQuery(f.groupOperator, f.groupConditions)
    ensures f.condition.None? && !f.HasActiveGroup() ==> r == Success("")
  {
    r := Success("");
    if f.condition.Some? {
      r := GetFilterStringBySingleCondition(f.condition.value);
    } else if |f.groupConditions| > 0 && f.groupOperator != NONE {
      r := GetFilterStringByGroupCondition(f.groupConditions, f.groupOperator);
    }
  }

  /** `Filter.ToString`. */
  method ToString(f: Filter) returns (r: Result<string, Error>)
    ensures r == FilterQuery(f)
  {
    if (|f.groupConditions| > 0 && f.groupOperator != NONE) && f.condition.Some? {
      return Failure(FilterBoth);
    }
    if !((|f.groupConditions| > 0 && f.groupOperator != NONE) || f.condition.Some?) {
      return Failure(FilterNeither);
    }
    r := GetFilterProcessStart(f);
  }

  // ---------------------------------------------------------------------------
  // Find options

  /** The driver's `FindOptions`, reduced to what the source sets. */
  datatype FindOptions = FindOptions(sort: Option<seq<Sort.SortKey>>, skip: Option<Int32>, limit: Option<Int32>)

  /**
   * The options for a sort and a page: a one-key sort when the sort is given
   * with a non-empty name; skip and limit only when both page numbers are
   * positive, skipping the earlier pages (with 32-bit wrap-around beyond
   * `int.MaxValue`).
   */
  function FindOptionsFor(sort: Option<Sort.Sort>, pageNo: Int32 := 0, pageSize: Int32 := 0): (o: FindOptions)
    ensures o.sort.Some? <==> sort.Some? && sort.value.name != ""
    ensures o.sort.Some? ==> o.sort.value == [Sort.KeyOf(sort.value)]
    ensures o.skip.Some? <==> pageNo > 0 && pageSize > 0
    ensures o.limit == if pageNo > 0 && pageSize > 0 then Some(pageSize) else None
    ensures o.skip.Some? ==> o.skip.value == Wrap((pageNo as int - 1) * pageSize as int)
    ensures o.skip.Some? && InInt32Range((pageNo as int - 1) * pageSize as int) ==>
      o.skip.value as int == (pageNo as int - 1) * pageSize as int
  {
    var sortKeys := if sort.Some? && sort.value.name != "" then Some([Sort.KeyOf(sort.value)]) else None;
    PredecessorProductExact(pageNo, pageSize);
    if pageNo > 0 && pageSize > 0 then
      FindOptions(sortKeys, Some(Mul(Sub(pageNo, 1), pageSize)), Some(pageSize))
    else
      FindOptions(sortKeys, None, None)
  }

  /** Consecutive pages abut: page `p + 1` starts where page `p` ends, and page 1 starts at 0. */
  lemma ConsecutivePagesAbut(pageNo: Int32, pageSize: Int32)
    requires pageNo > 0 && pageSize > 0 && InInt32Range(pageNo as int + 1)
    requires InInt32Range(pageNo as int * pageSize as int)
    ensures FindOptionsFor(None, (pageNo as int + 1) as Int32, pageSize).skip.value as int
         == FindOptionsFor(None, pageNo, pageSize).skip.value as int + pageSize as int
    ensures FindOptionsFor(None, 1, pageSize).skip == Some(0)
  {
    var p, s := pageNo as int, pageSize as int;
    assert 0 <= (p - 1) * s <= p * s by {
      assert (p - 1) * s == p * s - s;
    }
  }

  /** Beyond `int.MaxValue` the skip wraps: page 50000 of 50000 records skips a negative count. */
  lemma LargePageSkipWraps()
    ensures FindOptionsFor(None, 50000, 50000).skip == Some(-1795017296)
  {
  }

  /** `Filter.GetOptions`: builds the options by assigning fields step by step. */
  method GetOptions(sort: Option<Sort.Sort>, pageNo: Int32 := 0, pageSize: Int32 := 0) returns (findOptions: FindOptions)
    ensures findOptions == FindOptionsFor(sort, pageNo, pageSize)
  {
    findOptions := FindOptions(None, None, None);
    MyConvert.ToStringOfString(if sort.Some? then sort.value.name else "");
    if sort.Some? && MyConvert.ToString(MyConvert.Box(sort.value.name)) != "" {
      var sortBuilders := [Sort.Asc(sort.value.name)];
      if sort.value.direction == Sort.Descending {
        sortBuilders := [Sort.Desc(sort.value.name)];
      }
      findOptions := FindOptions(Some(sortBuilders), None, None);
    }
    if pageNo > 0 && pageSize > 0 {
      var skipRecords := Mul(Sub(pageNo, 1), pageSize);
      findOptions := findOptions.(skip := Some(skipRecords), limit := Some(pageSize));
    }
  }
}
