/** The factor language: syntax trees, the whitelisting converter and the expressions it accepts. */
module Dsl {
  import opened Wrappers

  datatype RawField = Open | High | Low | Close | Volume | Amount | FloatMV | PE | PB

  datatype Operator =
    | Ref | Delta | Mean | Sum | Std | Min | Max | RankTS | Corr | Cov
    | RankCS | ZScore | Winsorize | Neutralize
    | Add | Sub | Mul | Div | Log | Abs | Sign | Power
  {
    /** The least and greatest number of arguments. */
    function Arity(): (nat, nat) {
      match this
      case Corr => (3, 3)
      case Cov => (3, 3)
      case Winsorize => (1, 2)
      case RankCS => (1, 1)
      case ZScore => (1, 1)
      case Log => (1, 1)
      case Abs => (1, 1)
      case Sign => (1, 1)
      case _ => (2, 2)
    }

    predicate TakesWindow() {
      Ref? || Delta? || Mean? || Sum? || Std? || Min? || Max? || RankTS? || Corr? || Cov?
    }
  }

  function FieldName(field: RawField): string {
    match field
    case Open => "Open"
    case High => "High"
    case Low => "Low"
    case Close => "Close"
    case Volume => "Volume"
    case Amount => "Amount"
    case FloatMV => "FloatMV"
    case PE => "PE"
    case PB => "PB"
  }

  function OperatorName(op: Operator): string {
    match op
    case Ref => "Ref"
    case Delta => "Delta"
    case Mean => "Mean"
    case Sum => "Sum"
    case Std => "Std"
    case Min => "Min"
    case Max => "Max"
    case RankTS => "RankTS"
    case Corr => "Corr"
    case Cov => "Cov"
    case RankCS => "RankCS"
    case ZScore => "ZScore"
    case Winsorize => "Winsorize"
    case Neutralize => "Neutralize"
    case Add => "Add"
    case Sub => "Sub"
    case Mul => "Mul"
    case Div => "Div"
    case Log => "Log"
    case Abs => "Abs"
    case Sign => "Sign"
    case Power => "Power"
  }

  const FIELDS := [Open, High, Low, Close, Volume, Amount, FloatMV, PE, PB]

  const OPERATORS := [
    Ref, Delta, Mean, Sum, Std, Min, Max, RankTS, Corr, Cov, RankCS, ZScore, Winsorize, Neutralize,
    Add, Sub, Mul, Div, Log, Abs, Sign, Power]

  function FieldNamed(name: string): Option<RawField> {
    FieldAmong(FIELDS, name)
  }

  function FieldAmong(fields: seq<RawField>, name: string): Option<RawField> {
    if fields == [] then None
    else if FieldName(fields[0]) == name then Some(fields[0])
    else FieldAmong(fields[1..], name)
  }

  function OperatorNamed(name: string): Option<Operator> {
    OperatorAmong(OPERATORS, name)
  }

  function OperatorAmong(operators: seq<Operator>, name: string): Option<Operator> {
    if operators == [] then None
    else if OperatorName(operators[0]) == name then Some(operators[0])
    else OperatorAmong(operators[1..], name)
  }

  predicate NumberChar(c: char) {
    '0' <= c <= '9' || c == '-' || c == '+' || c == '.' || c == 'e'
  }

  predicate Fractional(text: string) {
    '.' in text || 'e' in text
  }

  predicate IsFloatDigits(text: string) {
    text != [] && '0' <= text[0] <= '9' && Fractional(text) && forall c :: c in text ==> NumberChar(c)
  }

  /** The shortest decimal text of a finite float without its sign; it always has a point or an exponent. */
  type FloatDigits = text: string | IsFloatDigits(text) witness "0.0"

  /** The absolute value of a float; a literal too large for a float is infinite. */
  datatype Magnitude = Finite(digits: FloatDigits) | Infinite

  datatype Argument =
    | Nested(expression: Expression)
    | IntArg(value: int)
    | FloatArg(negative: bool, magnitude: Magnitude)

  datatype Expression = Field(name: RawField) | Apply(op: Operator, args: seq<Argument>)

  /** A Python expression tree, as far as the converter tells nodes apart. Literals are unsigned. */
  datatype Node =
    | Name(id: string)
    | IntConstant(value: nat)
    | FloatConstant(magnitude: Magnitude)
    | Negative(operand: Node)
    | Call(func: Node, args: seq<Node>, hasKeywords: bool)
    | OtherSyntax

  datatype ParseError =
    | BlankSource | InvalidSyntax | FieldNotAllowed | OnlyPositionalCalls | OperatorNotAllowed
    | InvalidArity | WindowNotPositive | SyntaxNotAllowed | TooComplex

  predicate PositiveWindow(argument: Argument) {
    match argument
    case IntArg(n) => 0 < n
    case _ => false
  }

  function Convert(node: Node): Result<Expression, ParseError>
    decreases node, 1
  {
    match node
    case Name(id) =>
      var field := FieldNamed(id);
      if field.None? then Err(FieldNotAllowed) else Ok(Field(field.value))
    case Call(func, args, hasKeywords) =>
      if hasKeywords || !func.Name? then Err(OnlyPositionalCalls)
      else
        var op := OperatorNamed(func.id);
        if op.None? then Err(OperatorNotAllowed)
        else
          var arguments :- ConvertArguments(node, |args|);
          if !(op.value.Arity().0 <= |arguments| <= op.value.Arity().1) then Err(InvalidArity)
          else if op.value.TakesWindow() && !PositiveWindow(arguments[|arguments| - 1]) then Err(WindowNotPositive)
          else Ok(Apply(op.value, arguments))
    case _ => Err(SyntaxNotAllowed)
  }

  function ConvertArguments(node: Node, n: nat): (r: Result<seq<Argument>, ParseError>)
    requires node.Call? && n <= |node.args|
    ensures r.Ok? ==> |r.value| == n
    decreases node, 0, n
  {
    if n == 0 then Ok([])
    else
      var earlier :- ConvertArguments(node, n - 1);
      var last :- ConvertArgument(node.args[n - 1]);
      Ok(earlier + [last])
  }

  function ConvertArgument(node: Node): Result<Argument, ParseError>
    decreases node, 2
  {
    match node
    case IntConstant(value) => Ok(IntArg(value))
    case FloatConstant(magnitude) => Ok(FloatArg(false, magnitude))
    case Negative(IntConstant(value)) => Ok(IntArg(0 - value))
    case Negative(FloatConstant(magnitude)) => Ok(FloatArg(true, magnitude))
    case _ =>
      var e :- Convert(node);
      Ok(Nested(e))
  }

  function Complexity(e: Expression): nat
    decreases e, 1
  {
    1 + if e.Field? then 0 else ArgumentComplexity(e, |e.args|)
  }

  function ArgumentComplexity(e: Expression, n: nat): nat
    requires e.Apply? && n <= |e.args|
    decreases e, 0, n
  {
    if n == 0 then 0
    else ArgumentComplexity(e, n - 1) + if e.args[n - 1].Nested? then Complexity(e.args[n - 1].expression) else 0
  }

  datatype Source = Blank | Unparsable | Parsed(body: Node)

  function ParseExpression(source: Source, maxComplexity: int): Result<Expression, ParseError> {
    match source
    case Blank => Err(BlankSource)
    case Unparsable => Err(InvalidSyntax)
    case Parsed(body) =>
      var e :- Convert(body);
      if Complexity(e) > maxComplexity then Err(TooComplex) else Ok(e)
  }

  /** The panel fields an expression mentions. */
  function RequiredFields(e: Expression): set<RawField>
    decreases e, 1
  {
    if e.Field? then {e.name} else ArgumentFields(e, |e.args|)
  }

  function ArgumentFields(e: Expression, n: nat): set<RawField>
    requires e.Apply? && n <= |e.args|
    decreases e, 0, n
  {
    if n == 0 then {}
    else ArgumentFields(e, n - 1) + if e.args[n - 1].Nested? then RequiredFields(e.args[n - 1].expression) else {}
  }

  /** What the language admits: declared arities and positive integer windows, throughout. */
  ghost predicate WellFormed(e: Expression)
    decreases e
  {
    match e
    case Field(_) => true
    case Apply(op, args) =>
      && op.Arity().0 <= |args| <= op.Arity().1
      && (op.TakesWindow() ==> PositiveWindow(args[|args| - 1]))
      && forall i :: 0 <= i < |args| && args[i].Nested? ==> WellFormed(args[i].expression)
  }

  /** Everything accepted is well formed and within the complexity limit. */
  lemma ParsedWellFormed(source: Source, maxComplexity: int)
    ensures var r := ParseExpression(source, maxComplexity);
      r.Ok? ==> WellFormed(r.value) && Complexity(r.value) <= maxComplexity
  {
    if source.Parsed? {
      ConvertedWellFormed(source.body);
    }
  }

  lemma {:induction false} ConvertedWellFormed(node: Node)
    ensures Convert(node).Ok? ==> WellFormed(Convert(node).value)
    decreases node, 1
  {
    if node.Call? && node.func.Name? && Convert(node).Ok? {
      ArgumentsWellFormed(node, |node.args|);
    }
  }

  lemma {:induction false} ArgumentsWellFormed(node: Node, n: nat)
    requires node.Call? && n <= |node.args| && ConvertArguments(node, n).Ok?
    ensures var arguments := ConvertArguments(node, n).value;
      forall i :: 0 <= i < n && arguments[i].Nested? ==> WellFormed(arguments[i].expression)
    decreases node, 0, n
  {
    if n > 0 {
      ArgumentsWellFormed(node, n - 1);
      ConvertedWellFormed(node.args[n - 1]);
    }
  }

  /** The syntax tree a well-formed expression would be written as. */
  ghost function Unparsed(e: Expression): Node
    decreases e, 1
  {
    match e
    case Field(name) => Name(FieldName(name))
    case Apply(op, args) => Call(Name(OperatorName(op)), UnparsedArguments(e, |args|), false)
  }

  ghost function UnparsedArguments(e: Expression, n: nat): (r: seq<Node>)
    requires e.Apply? && n <= |e.args|
    ensures |r| == n
    decreases e, 0, n
  {
    if n == 0 then [] else UnparsedArguments(e, n - 1) + [UnparsedArgument(e, n - 1)]
  }

  ghost function UnparsedArgument(e: Expression, i: nat): Node
    requires e.Apply? && i < |e.args|
    decreases e, 0, i
  {
    match e.args[i]
    case Nested(inner) => Unparsed(inner)
    case IntArg(n) => if n < 0 then Negative(IntConstant(-n)) else IntConstant(n)
    case FloatArg(negative, magnitude) => if negative then Negative(FloatConstant(magnitude))
      else FloatConstant(magnitude)
  }

  lemma UnparsedTwo(e: Expression)
    requires e.Apply? && |e.args| == 2
    ensures Unparsed(e) == Call(Name(OperatorName(e.op)), [UnparsedArgument(e, 0), UnparsedArgument(e, 1)], false)
  {
    assert UnparsedArguments(e, 0) == [];
    assert UnparsedArguments(e, 1) == [UnparsedArgument(e, 0)];
  }

  lemma {:induction false} FieldFound(fields: seq<RawField>, field: RawField)
    requires field in fields
    ensures FieldAmong(fields, FieldName(field)) == Some(field)
  {
    if FieldName(fields[0]) == FieldName(field) {
      FieldNamesDiffer(fields[0], field);
    } else {
      FieldFound(fields[1..], field);
    }
  }

  lemma FieldNamesDiffer(a: RawField, b: RawField)
    requires FieldName(a) == FieldName(b)
    ensures a == b
  {
    var name := FieldName(a);
    assert |name| == 2 ==> name[1] == FieldName(b)[1];
    assert |name| >= 3 ==> name[0] == FieldName(b)[0];
  }

  lemma {:induction false} OperatorFound(operators: seq<Operator>, op: Operator)
    requires op in operators
    ensures OperatorAmong(operators, OperatorName(op)) == Some(op)
  {
    if OperatorName(operators[0]) == OperatorName(op) {
      OperatorNamesDiffer(operators[0], op);
    } else {
      OperatorFound(operators[1..], op);
    }
  }

  lemma OperatorNamesDiffer(a: Operator, b: Operator)
    requires OperatorName(a) == OperatorName(b)
    ensures a == b
  {
    var name, other := OperatorName(a), OperatorName(b);
    assert |name| >= 3 && name[0] == other[0] && name[1] == other[1] && name[2] == other[2];
    assert |name| >= 6 ==> name[4] == other[4];
  }

  lemma NamesRecognised(field: RawField, op: Operator)
    ensures FieldNamed(FieldName(field)) == Some(field)
    ensures OperatorNamed(OperatorName(op)) == Some(op)
  {
    assert field in FIELDS by {
      assert FIELDS[0] == Open && FIELDS[1] == High && FIELDS[2] == Low && FIELDS[3] == Close && FIELDS[4] == Volume
        && FIELDS[5] == Amount && FIELDS[6] == FloatMV && FIELDS[7] == PE && FIELDS[8] == PB;
    }
    FieldFound(FIELDS, field);
    OperatorListed(op);
    OperatorFound(OPERATORS, op);
  }

  lemma OperatorListed(op: Operator)
    ensures op in OPERATORS
  {
    assert OPERATORS[0] == Ref && OPERATORS[1] == Delta && OPERATORS[2] == Mean && OPERATORS[3] == Sum
      && OPERATORS[4] == Std && OPERATORS[5] == Min && OPERATORS[6] == Max && OPERATORS[7] == RankTS
      && OPERATORS[8] == Corr && OPERATORS[9] == Cov
      && OPERATORS[10] == RankCS && OPERATORS[11] == ZScore && OPERATORS[12] == Winsorize && OPERATORS[13] == Neutralize
      && OPERATORS[14] == Add && OPERATORS[15] == Sub && OPERATORS[16] == Mul && OPERATORS[17] == Div
      && OPERATORS[18] == Log
      && OPERATORS[19] == Abs && OPERATORS[20] == Sign && OPERATORS[21] == Power;
  }

  /** The language is exactly the well-formed expressions: each of them is accepted as written. */
  lemma {:induction false} EveryWellFormedParses(e: Expression)
    requires WellFormed(e)
    ensures Convert(Unparsed(e)) == Ok(e)
    decreases e, 1
  {
    match e
    case Field(name) =>
      NamesRecognised(name, Ref);
    case Apply(op, args) =>
      NamesRecognised(Open, op);
      ArgumentsParse(e, |args|, Unparsed(e));
      assert args[..|args|] == args;
  }

  lemma PrefixUnparsed(e: Expression, n: nat, nodes: seq<Node>)
    requires e.Apply? && 0 < n <= |e.args| && n <= |nodes| && nodes[..n] == UnparsedArguments(e, n)
    ensures nodes[..n - 1] == UnparsedArguments(e, n - 1) && nodes[n - 1] == UnparsedArgument(e, n - 1)
  {
    assert nodes[..n - 1] == nodes[..n][..n - 1];
    assert nodes[n - 1] == nodes[..n][n - 1];
  }

  lemma {:induction false} ArgumentsParse(e: Expression, n: nat, node: Node)
    requires WellFormed(e) && e.Apply? && n <= |e.args|
    requires node == Unparsed(e) && node.args[..n] == UnparsedArguments(e, n)
    ensures ConvertArguments(node, n) == Ok(e.args[..n])
    decreases e, 0, n
  {
    if n > 0 {
      PrefixUnparsed(e, n, node.args);
      ArgumentsParse(e, n - 1, node);
      ArgumentParses(e, n - 1);
      assert e.args[..n] == e.args[..n - 1] + [e.args[n - 1]];
    }
  }

  lemma {:induction false} ArgumentParses(e: Expression, i: nat)
    requires WellFormed(e) && e.Apply? && i < |e.args|
    ensures ConvertArgument(UnparsedArgument(e, i)) == Ok(e.args[i])
    decreases e, 0, i
  {
    if e.args[i].Nested? {
      EveryWellFormedParses(e.args[i].expression);
    }
  }

  /** A source is accepted exactly when it is a syntax tree that converts and counts at most the limit. */
  lemma AcceptedExactly(source: Source, maxComplexity: int)
    ensures ParseExpression(source, maxComplexity).Ok? <==>
      source.Parsed? && Convert(source.body).Ok? && !(maxComplexity < Complexity(Convert(source.body).value))
  {
  }

  /** Complexity counts an operator and the expressions it is applied to; a literal adds nothing. */
  lemma ComplexityAdds(op: Operator, a: Expression, b: Expression, literal: Argument)
    requires !literal.Nested?
    ensures Complexity(Apply(op, [Nested(a)])) == 1 + Complexity(a)
    ensures Complexity(Apply(op, [Nested(a), literal])) == 1 + Complexity(a)
    ensures Complexity(Apply(op, [Nested(a), Nested(b)])) == 1 + Complexity(a) + Complexity(b)
  {
    SumsTwo(Apply(op, [Nested(a), literal]));
    SumsTwo(Apply(op, [Nested(a), Nested(b)]));
    var one := Apply(op, [Nested(a)]);
    assert one.args[0] == Nested(a) && ArgumentComplexity(one, 0) == 0;
    assert ArgumentComplexity(one, 1) == Complexity(a);
  }

  lemma SumsTwo(e: Expression)
    requires e.Apply? && |e.args| == 2
    ensures ArgumentComplexity(e, 2)
         == (if e.args[0].Nested? then Complexity(e.args[0].expression) else 0)
            + if e.args[1].Nested? then Complexity(e.args[1].expression) else 0
  {
    assert ArgumentComplexity(e, 0) == 0;
    assert ArgumentComplexity(e, 1) == if e.args[0].Nested? then Complexity(e.args[0].expression) else 0;
  }

  /** The last argument of an accepted window operator is an integer literal of at least one row. */
  lemma WindowIsPositive(node: Node)
    ensures Convert(node).Ok? && Convert(node).value.Apply? && Convert(node).value.op.TakesWindow() ==>
      var args := Convert(node).value.args;
      args != [] && args[|args| - 1].IntArg? && 1 <= args[|args| - 1].value
  {
  }

  /** A window of one field is accepted exactly when it is a literal of at least one row. */
  lemma WindowAccepted(field: RawField, op: Operator, n: nat)
    requires op.TakesWindow() && op.Arity() == (2, 2)
    ensures Convert(Call(Name(OperatorName(op)), [Name(FieldName(field)), IntConstant(n)], false))
         == if 1 <= n then Ok(Apply(op, [Nested(Field(field)), IntArg(n)])) else Err(WindowNotPositive)
  {
    var node := Call(Name(OperatorName(op)), [Name(FieldName(field)), IntConstant(n)], false);
    var none: seq<Argument> := [];
    NamesRecognised(field, op);
    assert ConvertArgument(node.args[0]) == Ok(Nested(Field(field)));
    assert ConvertArguments(node, 0) == Ok(none);
    assert none + [Nested(Field(field))] == [Nested(Field(field))];
    assert ConvertArguments(node, 1) == Ok([Nested(Field(field))]);
    assert ConvertArgument(node.args[1]) == Ok(IntArg(n));
    assert [Nested(Field(field))] + [IntArg(n)] == [Nested(Field(field)), IntArg(n)];
    assert ConvertArguments(node, 2) == Ok([Nested(Field(field)), IntArg(n)]);
  }
}
