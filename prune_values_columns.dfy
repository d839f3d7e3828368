/**
 * The planner rule that prunes unused columns of a constant table: a
 * projection over a ValuesNode is rewritten so that the ValuesNode produces
 * only the symbols the projection's expressions depend on, every row being
 * re-projected onto those columns.
 *
 * The optimizer's Lookup and the rule helper that computes a projection's
 * dependencies are not part of this model; they are given to the rule as
 * functions.
 */
module PruneValuesColumns {
  import opened Wrappers

  type Symbol = string

  /** A row expression or an assignment's expression; the rule only moves them around. */
  datatype Expression = Expression(text: string)

  datatype PlanNodeId = PlanNodeId(id: string)

  /** One output symbol of a projection and the expression that computes it. */
  datatype Assignment = Assignment(symbol: Symbol, expression: Expression)

  datatype PlanNode =
    | ProjectNode(id: PlanNodeId, source: PlanNode, assignments: seq<Assignment>)
    | ValuesNode(id: PlanNodeId, outputSymbols: seq<Symbol>, rows: seq<seq<Expression>>)
      /** Any other kind of plan node, which this rule never rewrites. */
    | OtherNode(id: PlanNodeId, kind: string, sources: seq<PlanNode>)

  /** Resolves a plan node (a reference into the optimizer's memo) to the node it stands for. */
  type Lookup = PlanNode -> PlanNode

  /**
   * Given a node's available input symbols and the expressions over them, the
   * inputs the expressions depend on, or None when nothing can be pruned.
   */
  type PruneInputs = (seq<Symbol>, seq<Expression>) -> Option<seq<Symbol>>

  /** The expressions of the assignments, in order. */
  function Expressions(assignments: seq<Assignment>): (r: seq<Expression>)
    ensures |r| == |assignments|
  {
    seq(|assignments|, i requires 0 <= i < |assignments| => assignments[i].expression)
  }

  /** The position of the first occurrence of x in s, or -1 when x does not occur (List.indexOf). */
  function IndexOf(s: seq<Symbol>, x: Symbol): (r: int)
    ensures -1 <= r < |s|
    ensures r == -1 <==> x !in s
    ensures 0 <= r ==> s[r] == x && forall j :: 0 <= j < r ==> s[j] != x
  {
    if s == [] then -1
    else if s[0] == x then 0
    else
      var k := IndexOf(s[1..], x);
      if k == -1 then -1 else k + 1
  }

  /** Every new output symbol is one of the old output symbols. */
  predicate Covers(outputs: seq<Symbol>, newOutputs: seq<Symbol>) {
    forall i :: 0 <= i < |newOutputs| ==> newOutputs[i] in outputs
  }

  /** Every row has one cell per output symbol. */
  predicate WellFormedRows(outputs: seq<Symbol>, rows: seq<seq<Expression>>) {
    forall k :: 0 <= k < |rows| ==> |rows[k]| == |outputs|
  }

  /** A ValuesNode whose rows match its output symbols. */
  predicate WellFormedValues(values: PlanNode) {
    values.ValuesNode? && WellFormedRows(values.outputSymbols, values.rows)
  }

  /** For each new output, the column of the old outputs it is read from. */
  function Mapping(outputs: seq<Symbol>, newOutputs: seq<Symbol>): (m: seq<int>)
    requires Covers(outputs, newOutputs)
    ensures |m| == |newOutputs|
    ensures forall i :: 0 <= i < |m| ==>
              0 <= m[i] < |outputs| && outputs[m[i]] == newOutputs[i]
              && forall j :: 0 <= j < m[i] ==> outputs[j] != newOutputs[i]
  {
    seq(|newOutputs|, i requires 0 <= i < |newOutputs| => IndexOf(outputs, newOutputs[i]))
  }

  /** The cells of a row at the given columns, in the order of the columns. */
  function ProjectRow(row: seq<Expression>, mapping: seq<int>): (r: seq<Expression>)
    requires forall i :: 0 <= i < |mapping| ==> 0 <= mapping[i] < |row|
    ensures |r| == |mapping|
  {
    seq(|mapping|, i requires 0 <= i < |mapping| => row[mapping[i]])
  }

  /**
   * The ValuesNode reduced to the new outputs: the same id, exactly the new
   * output symbols, the same rows in the same order, each row reduced to the
   * cells of the new outputs' first columns.
   */
  function NewValuesNode(values: PlanNode, newOutputs: seq<Symbol>): (r: PlanNode)
    requires WellFormedValues(values) && Covers(values.outputSymbols, newOutputs)
    ensures r.ValuesNode? && r.id == values.id && r.outputSymbols == newOutputs
    ensures |r.rows| == |values.rows|
    ensures WellFormedRows(newOutputs, r.rows)
    ensures forall k, i :: 0 <= k < |r.rows| && 0 <= i < |newOutputs| ==>
              r.rows[k][i] == values.rows[k][IndexOf(values.outputSymbols, newOutputs[i])]
  {
    var mapping := Mapping(values.outputSymbols, newOutputs);
    ValuesNode(values.id, newOutputs,
      seq(|values.rows|, k requires 0 <= k < |values.rows| => ProjectRow(values.rows[k], mapping)))
  }

  /**
   * Builds the reduced ValuesNode: one loop fills the column mapping, a second
   * re-projects every row through it.
   */
  method CreateNewValuesNode(values: PlanNode, newOutputs: seq<Symbol>) returns (r: PlanNode)
    requires WellFormedValues(values) && Covers(values.outputSymbols, newOutputs)
    ensures r == NewValuesNode(values, newOutputs)
  {
    var mapping := new int[|newOutputs|];
    for i := 0 to mapping.Length
      invariant forall j :: 0 <= j < i ==> mapping[j] == IndexOf(values.outputSymbols, newOutputs[j])
    {
      mapping[i] := IndexOf(values.outputSymbols, newOutputs[i]);
    }
    assert mapping[..] == Mapping(values.outputSymbols, newOutputs);
    var rows: seq<seq<Expression>> := [];
    for k := 0 to |values.rows|
      invariant |rows| == k
      invariant forall m :: 0 <= m < k ==> rows[m] == ProjectRow(values.rows[m], mapping[..])
    {
      rows := rows + [ProjectRow(values.rows[k], mapping[..])];
    }
    r := ValuesNode(values.id, newOutputs, rows);
  }

  /** The ValuesNode the rule matches under a projection, through the lookup. */
  function MatchedValues(node: PlanNode, lookup: Lookup): Option<PlanNode> {
    if node.ProjectNode? && lookup(node.source).ValuesNode? then Some(lookup(node.source)) else None
  }

  /**
   * What the rule needs of the plan it is applied to: when it matches, the
   * ValuesNode's rows fit its outputs, and the dependencies are among those
   * outputs (otherwise the column lookup yields -1 and reading a row fails).
   */
  predicate RewriteDefined(node: PlanNode, lookup: Lookup, pruneInputs: PruneInputs) {
    MatchedValues(node, lookup).Some? ==>
      var child := MatchedValues(node, lookup).value;
      && WellFormedValues(child)
      && var dependencies := pruneInputs(child.outputSymbols, Expressions(node.assignments));
         dependencies.Some? ==> Covers(child.outputSymbols, dependencies.value)
  }

  /**
   * The rule: a projection over a ValuesNode whose outputs can be pruned
   * becomes the same projection (same id, same assignments) over the
   * ValuesNode reduced to the projection's dependencies; anything else is
   * left alone.
   */
  function Apply(node: PlanNode, lookup: Lookup, pruneInputs: PruneInputs): (r: Option<PlanNode>)
    requires RewriteDefined(node, lookup, pruneInputs)
    ensures r.Some? <==>
              && node.ProjectNode?
              && lookup(node.source).ValuesNode?
              && pruneInputs(lookup(node.source).outputSymbols, Expressions(node.assignments)).Some?
    ensures r.Some? ==>
              var child := lookup(node.source);
              var dependencies := pruneInputs(child.outputSymbols, Expressions(node.assignments)).value;
              && r.value.ProjectNode?
              && r.value.id == node.id
              && r.value.assignments == node.assignments
              && r.value.source.ValuesNode?
              && r.value.source.id == child.id
              && r.value.source.outputSymbols == dependencies
              && |r.value.source.rows| == |child.rows|
              && WellFormedRows(dependencies, r.value.source.rows)
              && (forall k, i :: 0 <= k < |child.rows| && 0 <= i < |dependencies| ==>
                    r.value.source.rows[k][i] == child.rows[k][IndexOf(child.outputSymbols, dependencies[i])])
  {
    match MatchedValues(node, lookup)
    case None => None
    case Some(child) =>
      match pruneInputs(child.outputSymbols, Expressions(node.assignments))
      case None => None
      case Some(dependencies) =>
        Some(ProjectNode(node.id, NewValuesNode(child, dependencies), node.assignments))
  }

  /** The cell of a row for a symbol: the cell of the symbol's first column. */
  function Cell(values: PlanNode, k: nat, s: Symbol): Expression
    requires WellFormedValues(values) && k < |values.rows| && s in values.outputSymbols
  {
    values.rows[k][IndexOf(values.outputSymbols, s)]
  }

  /** Pruning keeps the data: every kept symbol reads the same cell in every row as before. */
  lemma PruningKeepsCells(values: PlanNode, newOutputs: seq<Symbol>, k: nat, s: Symbol)
    requires WellFormedValues(values) && Covers(values.outputSymbols, newOutputs)
    requires k < |values.rows| && s in newOutputs
    ensures WellFormedValues(NewValuesNode(values, newOutputs))
    ensures Cell(NewValuesNode(values, newOutputs), k, s) == Cell(values, k, s)
  {
    var j := IndexOf(newOutputs, s);
    assert newOutputs[j] == s;
  }

  /** Keeping every column of a ValuesNode whose symbols are distinct gives the node back. */
  lemma KeepingAllColumnsIsIdentity(values: PlanNode)
    requires WellFormedValues(values)
    requires forall i, j :: 0 <= i < j < |values.outputSymbols| ==> values.outputSymbols[i] != values.outputSymbols[j]
    ensures Covers(values.outputSymbols, values.outputSymbols)
    ensures NewValuesNode(values, values.outputSymbols) == values
  {
    var outputs := values.outputSymbols;
    var r := NewValuesNode(values, outputs);
    forall i | 0 <= i < |outputs|
      ensures IndexOf(outputs, outputs[i]) == i
    {
      var m := IndexOf(outputs, outputs[i]);
      assert outputs[m] == outputs[i];
    }
    forall k | 0 <= k < |values.rows|
      ensures r.rows[k] == values.rows[k]
    {
    }
  }

  /**
   * Pruning twice is pruning once: reducing a ValuesNode to some outputs and
   * then to a part of those equals reducing it to that part directly.
   */
  lemma PruningComposes(values: PlanNode, first: seq<Symbol>, second: seq<Symbol>)
    requires WellFormedValues(values) && Covers(values.outputSymbols, first) && Covers(first, second)
    ensures Covers(values.outputSymbols, second)
    ensures WellFormedValues(NewValuesNode(values, first))
    ensures NewValuesNode(NewValuesNode(values, first), second) == NewValuesNode(values, second)
  {
    var once := NewValuesNode(values, first);
    var twice := NewValuesNode(once, second);
    var direct := NewValuesNode(values, second);
    forall k | 0 <= k < |values.rows|
      ensures twice.rows[k] == direct.rows[k]
    {
      forall i | 0 <= i < |second|
        ensures twice.rows[k][i] == direct.rows[k][i]
      {
        var j := IndexOf(first, second[i]);
        assert first[j] == second[i];
      }
    }
  }
}
