/** The canonical JSON text of an expression and a decoder that inverts it. */
module Canonical {
  import opened Wrappers
  import opened Dsl

  /** The encoder refuses infinite floats and integers longer than the interpreter prints. */
  datatype EncodeError = NotPrintable

  /** The interpreter's default limit. */
  const INT_DIGITS: nat := 4300

  predicate Digit(c: char) {
    '0' <= c <= '9'
  }

  function DigitChar(d: nat): char
    requires d < 10
  {
    '0' + d as char
  }

  function Digits(n: nat): string {
    if n < 10 then [DigitChar(n)] else Digits(n / 10) + [DigitChar(n % 10)]
  }

  function IntText(n: int): string {
    if n < 0 then "-" + Digits(-n) else Digits(n)
  }

  const OPENING := "{\"args\":["
  const CLOSING := "],\"op\":\""

  function NumberText(argument: Argument): string
    requires !argument.Nested? && (argument.FloatArg? ==> argument.magnitude.Finite?)
  {
    match argument
    case IntArg(n) => IntText(n)
    case FloatArg(negative, magnitude) => (if negative then "-" else "") + magnitude.digits
  }

  predicate PrintableInt(n: int) {
    |Digits(Absolute(n))| <= INT_DIGITS
  }

  predicate PrintableNumber(argument: Argument)
    requires !argument.Nested?
  {
    match argument
    case IntArg(n) => PrintableInt(n)
    case FloatArg(_, magnitude) => magnitude.Finite?
  }

  predicate Encodable(e: Expression)
    decreases e, 1
  {
    e.Apply? ==> forall i :: 0 <= i < |e.args| ==> ArgumentEncodable(e, i)
  }

  predicate ArgumentEncodable(e: Expression, i: nat)
    requires e.Apply? && i < |e.args|
    decreases e, 0
  {
    match e.args[i]
    case Nested(inner) => Encodable(inner)
    case _ => PrintableNumber(e.args[i])
  }

  function OperatorText(op: Operator): string {
    CLOSING + OperatorName(op) + "\"}"
  }

  /** Keys sorted, no spaces. */
  function Encoded(e: Expression): string
    requires Encodable(e)
    decreases e, 1
  {
    match e
    case Field(name) => OPENING + "\"" + FieldName(name) + "\"" + CLOSING + "Field" + "\"}"
    case Apply(op, args) => OPENING + EncodedFrom(e, 0) + OperatorText(op)
  }

  function EncodedFrom(e: Expression, i: nat): string
    requires e.Apply? && Encodable(e) && i <= |e.args|
    decreases e, 0, |e.args| - i
  {
    if i == |e.args| then ""
    else if i == |e.args| - 1 then EncodedArgument(e, i)
    else EncodedArgument(e, i) + "," + EncodedFrom(e, i + 1)
  }

  function EncodedArgument(e: Expression, i: nat): string
    requires e.Apply? && Encodable(e) && i < |e.args|
    decreases e, 0, 0
  {
    assert ArgumentEncodable(e, i);
    match e.args[i]
    case Nested(inner) => Encoded(inner)
    case _ => NumberText(e.args[i])
  }

  function CanonicalText(e: Expression): Result<string, EncodeError> {
    if Encodable(e) then Ok(Encoded(e)) else Err(NotPrintable)
  }

  // Decoding.

  datatype Read<T> = Read(value: T, rest: string)

  predicate StartsWith(s: string, prefix: string) {
    |prefix| <= |s| && s[..|prefix|] == prefix
  }

  /** The text before the next quote, and what follows the quote. */
  function UntilQuote(s: string): (r: Option<Read<string>>)
    ensures r.Some? ==> |r.value.rest| < |s|
  {
    if s == "" then None
    else if s[0] == '"' then Some(Read("", s[1..]))
    else
      var r := UntilQuote(s[1..]);
      if r.None? then None else Some(Read([s[0]] + r.value.value, r.value.rest))
  }

  function NumberToken(s: string): (r: string)
    ensures |r| <= |s|
  {
    if s != "" && NumberChar(s[0]) then [s[0]] + NumberToken(s[1..]) else ""
  }

  function ParseDigits(s: string): Option<nat> {
    if s == "" || !Digit(s[|s| - 1]) then None
    else
      var last := (s[|s| - 1] - '0') as nat;
      if |s| == 1 then Some(last)
      else
        var front := ParseDigits(s[..|s| - 1]);
        if front.None? then None else Some(front.value * 10 + last)
  }

  function ParseNumber(token: string): Option<Argument> {
    var negative := StartsWith(token, "-");
    var unsigned := if negative then token[1..] else token;
    if Fractional(token) then
      if IsFloatDigits(unsigned) then Some(FloatArg(negative, Finite(unsigned))) else None
    else
      var n := ParseDigits(unsigned);
      if n.None? then None else Some(IntArg(if negative then 0 - n.value else n.value))
  }

  function DecodeNumber(s: string): (r: Option<Read<Argument>>)
    ensures r.Some? ==> |r.value.rest| <= |s|
  {
    var token := NumberToken(s);
    var number := ParseNumber(token);
    if number.None? then None else Some(Read(number.value, s[|token|..]))
  }

  function Decode(s: string): (r: Option<Read<Expression>>)
    ensures r.Some? ==> |r.value.rest| < |s|
    decreases |s|, 0
  {
    if !StartsWith(s, OPENING) then None
    else
      var body := s[|OPENING|..];
      if StartsWith(body, "\"") then DecodeField(body[1..])
      else
        var list := DecodeList(body);
        if list.None? then None else DecodeOperator(list.value.value, list.value.rest)
  }

  function DecodeOperator(arguments: seq<Argument>, s: string): (r: Option<Read<Expression>>)
    ensures r.Some? ==> |r.value.rest| < |s|
  {
    if !StartsWith(s, CLOSING) then None
    else
      var name := UntilQuote(s[|CLOSING|..]);
      if name.None? || !StartsWith(name.value.rest, "}") || OperatorNamed(name.value.value).None? then None
      else Some(Read(Apply(OperatorNamed(name.value.value).value, arguments), name.value.rest[1..]))
  }

  function DecodeField(s: string): (r: Option<Read<Expression>>)
    ensures r.Some? ==> |r.value.rest| < |s|
  {
    var name := UntilQuote(s);
    if name.None? || FieldNamed(name.value.value).None? || !StartsWith(name.value.rest, CLOSING + "Field" + "\"}")
      then None
    else Some(Read(Field(FieldNamed(name.value.value).value), name.value.rest[|CLOSING + "Field" + "\"}"|..]))
  }

  function DecodeList(s: string): (r: Option<Read<seq<Argument>>>)
    ensures r.Some? ==> |r.value.rest| <= |s|
    decreases |s|, 2
  {
    if StartsWith(s, "]") then Some(Read([], s))
    else
      var first := DecodeArgument(s);
      if first.None? then None
      else if StartsWith(first.value.rest, ",") then
        var more := DecodeList(first.value.rest[1..]);
        if more.None? then None else Some(Read([first.value.value] + more.value.value, more.value.rest))
      else Some(Read([first.value.value], first.value.rest))
  }

  function DecodeArgument(s: string): (r: Option<Read<Argument>>)
    ensures r.Some? ==> |r.value.rest| <= |s|
    decreases |s|, 1
  {
    if StartsWith(s, "{") then
      var inner := Decode(s);
      if inner.None? then None else Some(Read(Nested(inner.value.value), inner.value.rest))
    else DecodeNumber(s)
  }

  // The decoder inverts the encoding.

  lemma Stripped(prefix: string, rest: string)
    ensures StartsWith(prefix + rest, prefix) && (prefix + rest)[|prefix|..] == rest
  {
  }

  lemma {:induction false} QuoteFound(text: string, rest: string)
    requires '"' !in text
    ensures UntilQuote(text + "\"" + rest) == Some(Read(text, rest))
  {
    var s := text + "\"" + rest;
    if text == "" {
      assert s == "\"" + rest;
      assert s[1..] == rest;
    } else {
      QuoteFound(text[1..], rest);
      assert s[1..] == text[1..] + "\"" + rest;
      assert [text[0]] + text[1..] == text;
    }
  }

  lemma {:induction false} TokenFound(text: string, rest: string)
    requires (forall c :: c in text ==> NumberChar(c)) && (rest == "" || !NumberChar(rest[0]))
    ensures NumberToken(text + rest) == text
  {
    if text == "" {
      assert text + rest == rest;
    } else {
      TokenFound(text[1..], rest);
      assert (text + rest)[1..] == text[1..] + rest;
    }
  }

  lemma {:induction false} DigitsParse(n: nat)
    ensures ParseDigits(Digits(n)) == Some(n) && Digits(n) != "" && forall c :: c in Digits(n) ==> Digit(c)
  {
    var text := Digits(n);
    if n >= 10 {
      DigitsParse(n / 10);
      assert text[..|text| - 1] == Digits(n / 10);
    }
  }

  /** The sign comes off again, and only a negative number starts with one. */
  lemma SignParses(negative: bool, unsigned: string)
    requires unsigned != "" && Digit(unsigned[0])
    ensures var text := (if negative then "-" else "") + unsigned;
      && StartsWith(text, "-") == negative && (if negative then text[1..] else text) == unsigned
      && Fractional(text) == Fractional(unsigned)
  {
    var text := (if negative then "-" else "") + unsigned;
    if negative {
      assert text[1..] == unsigned;
      assert forall c :: c in text <==> c == '-' || c in unsigned;
    } else {
      assert text == unsigned;
      assert text[..1] == [unsigned[0]];
    }
  }

  lemma IntParses(n: int)
    ensures ParseNumber(IntText(n)) == Some(IntArg(n))
    ensures IntText(n) != "" && forall c :: c in IntText(n) ==> NumberChar(c)
  {
    var magnitude := if n < 0 then -n else n;
    var unsigned := Digits(magnitude);
    DigitsParse(magnitude);
    assert unsigned[0] in unsigned && !Fractional(unsigned);
    SignParses(n < 0, unsigned);
    assert IntText(n) == (if n < 0 then "-" else "") + unsigned;
  }

  lemma FloatParses(negative: bool, unsigned: string)
    requires IsFloatDigits(unsigned)
    ensures var text := (if negative then "-" else "") + unsigned;
      && ParseNumber(text) == Some(FloatArg(negative, Finite(unsigned)))
      && text != "" && forall c :: c in text ==> NumberChar(c)
  {
    SignParses(negative, unsigned);
  }

  lemma NumberParses(argument: Argument)
    requires !argument.Nested? && (argument.FloatArg? ==> argument.magnitude.Finite?)
    ensures ParseNumber(NumberText(argument)) == Some(argument)
    ensures NumberText(argument) != "" && forall c :: c in NumberText(argument) ==> NumberChar(c)
  {
    match argument
    case IntArg(n) => IntParses(n);
    case FloatArg(negative, magnitude) => FloatParses(negative, magnitude.digits);
  }

  lemma TokenDecodes(text: string, argument: Argument, rest: string)
    requires ParseNumber(text) == Some(argument) && (forall c :: c in text ==> NumberChar(c))
    requires rest == "" || !NumberChar(rest[0])
    ensures DecodeNumber(text + rest) == Some(Read(argument, rest))
  {
    TokenFound(text, rest);
    Stripped(text, rest);
  }

  lemma NumberDecodes(argument: Argument, rest: string)
    requires !argument.Nested? && (argument.FloatArg? ==> argument.magnitude.Finite?)
    requires rest == "" || !NumberChar(rest[0])
    ensures DecodeArgument(NumberText(argument) + rest) == Some(Read(argument, rest))
    ensures NumberText(argument) != "" && NumberChar(NumberText(argument)[0])
  {
    var text := NumberText(argument);
    NumberParses(argument);
    TokenDecodes(text, argument, rest);
    assert text[0] in text;
    assert (text + rest)[..1] == [text[0]];
  }

  lemma PlainNames(field: RawField, op: Operator)
    ensures '"' !in FieldName(field) && '"' !in OperatorName(op)
  {
  }

  lemma FieldText(field: RawField, rest: string)
    ensures Encoded(Field(field)) + rest
         == OPENING + ("\"" + (FieldName(field) + "\"" + (CLOSING + "Field" + "\"}" + rest)))
  {
  }

  lemma FieldOpens(named: string)
    ensures Decode(OPENING + ("\"" + named)) == DecodeField(named)
  {
    Stripped(OPENING, "\"" + named);
    Stripped("\"", named);
  }

  lemma FieldDecodes(field: RawField, rest: string)
    ensures Decode(Encoded(Field(field)) + rest) == Some(Read(Field(field), rest))
  {
    var name, tail := FieldName(field), CLOSING + "Field" + "\"}";
    var named := name + "\"" + (tail + rest);
    FieldText(field, rest);
    FieldOpens(named);
    PlainNames(field, Ref);
    QuoteFound(name, tail + rest);
    NamesRecognised(field, Ref);
    Stripped(tail, rest);
  }

  lemma OperatorDecodes(op: Operator, arguments: seq<Argument>, rest: string)
    ensures DecodeOperator(arguments, OperatorText(op) + rest) == Some(Read(Apply(op, arguments), rest))
  {
    var name := OperatorName(op);
    var named := name + "\"" + ("}" + rest);
    assert OperatorText(op) + rest == CLOSING + named;
    Stripped(CLOSING, named);
    PlainNames(Open, op);
    QuoteFound(name, "}" + rest);
    Stripped("}", rest);
    NamesRecognised(Open, op);
  }

  lemma ListOpens(list: string, arguments: seq<Argument>, tail: string)
    requires list + tail != "" && (list + tail)[0] != '"' && DecodeList(list + tail) == Some(Read(arguments, tail))
    ensures Decode(OPENING + (list + tail)) == DecodeOperator(arguments, tail)
  {
    Stripped(OPENING, list + tail);
    assert (list + tail)[..1] == [(list + tail)[0]];
  }

  lemma Associate(a: string, b: string, c: string, d: string)
    ensures a + b + c + d == a + (b + (c + d))
  {
  }

  lemma ApplyDecodes(e: Expression, rest: string)
    requires e.Apply? && Encodable(e)
    requires DecodeList(EncodedFrom(e, 0) + (OperatorText(e.op) + rest))
      == Some(Read(e.args, OperatorText(e.op) + rest))
    requires e.args != [] ==> EncodedFrom(e, 0) != "" && EncodedFrom(e, 0)[0] != '"'
    ensures Decode(Encoded(e) + rest) == Some(Read(e, rest))
  {
    var list, tail := EncodedFrom(e, 0), OperatorText(e.op) + rest;
    OperatorTextCloses(e.op);
    Associate(OPENING, list, OperatorText(e.op), rest);
    ListOpens(list, e.args, tail);
    OperatorDecodes(e.op, e.args, rest);
  }

  lemma OperatorTextCloses(op: Operator)
    ensures OperatorText(op) != "" && OperatorText(op)[0] == ']'
  {
  }

  lemma {:induction false} ArgumentDecodes(e: Expression, i: nat, rest: string)
    requires e.Apply? && Encodable(e) && i < |e.args| && rest != "" && !NumberChar(rest[0])
    ensures DecodeArgument(EncodedArgument(e, i) + rest) == Some(Read(e.args[i], rest))
    ensures EncodedArgument(e, i) != "" && EncodedArgument(e, i)[0] !in {'"', ']', ','}
    decreases e, 0, 0
  {
    assert ArgumentEncodable(e, i);
    if e.args[i].Nested? {
      var inner := e.args[i].expression;
      RoundTrip(inner, rest);
      EncodedOpens(inner);
      assert (Encoded(inner) + rest)[..1] == "{";
    } else {
      NumberDecodes(e.args[i], rest);
    }
  }

  lemma EncodedOpens(e: Expression)
    requires Encodable(e)
    ensures Encoded(e) != "" && Encoded(e)[0] == '{'
  {
    assert OPENING[0] == '{';
  }

  lemma ListContinues(first: string, argument: Argument, more: string, arguments: seq<Argument>, rest: string)
    requires first != "" && first[0] != ']' && DecodeArgument(first + ("," + more)) == Some(Read(argument, "," + more))
    requires DecodeList(more) == Some(Read(arguments, rest))
    ensures DecodeList(first + ("," + more)) == Some(Read([argument] + arguments, rest))
  {
    assert (first + ("," + more))[..1] == [first[0]];
    Stripped(",", more);
  }

  lemma ListEnds(last: string, argument: Argument, rest: string)
    requires last != "" && last[0] != ']' && rest != "" && rest[0] == ']'
    requires DecodeArgument(last + rest) == Some(Read(argument, rest))
    ensures DecodeList(last + rest) == Some(Read([argument], rest))
  {
    assert (last + rest)[..1] == [last[0]];
    assert rest[..1] == "]";
  }

  lemma {:induction false} ListDecodes(e: Expression, i: nat, rest: string)
    requires e.Apply? && Encodable(e) && i < |e.args| && rest != "" && rest[0] == ']'
    ensures DecodeList(EncodedFrom(e, i) + rest) == Some(Read(e.args[i..], rest))
    ensures EncodedFrom(e, i) != "" && EncodedFrom(e, i)[0] !in {'"', ']'}
    decreases e, 0, |e.args| - i
  {
    var first := EncodedArgument(e, i);
    if i == |e.args| - 1 {
      ArgumentDecodes(e, i, rest);
      ListEnds(first, e.args[i], rest);
      assert e.args[i..] == [e.args[i]];
    } else {
      var more := EncodedFrom(e, i + 1) + rest;
      ListDecodes(e, i + 1, rest);
      ArgumentDecodes(e, i, "," + more);
      Associate(first, ",", EncodedFrom(e, i + 1), rest);
      ListContinues(first, e.args[i], more, e.args[i + 1..], rest);
      assert e.args[i..] == [e.args[i]] + e.args[i + 1..];
    }
  }

  /** Whatever text follows it, a canonical text decodes to the expression it came from. */
  lemma {:induction false} RoundTrip(e: Expression, rest: string)
    requires Encodable(e)
    ensures Decode(Encoded(e) + rest) == Some(Read(e, rest))
    decreases e, 1
  {
    match e
    case Field(name) =>
      FieldDecodes(name, rest);
    case Apply(op, args) =>
      var tail := OperatorText(op) + rest;
      OperatorTextCloses(op);
      if args == [] {
        assert EncodedFrom(e, 0) + tail == tail;
        assert tail[..1] == "]";
      } else {
        ListDecodes(e, 0, tail);
        assert args[0..] == args;
      }
      ApplyDecodes(e, rest);
  }

  /** The canonical form identifies the expression, even as a prefix of a longer text. */
  lemma Unambiguous(a: Expression, b: Expression, restOfA: string, restOfB: string)
    requires CanonicalText(a).Ok? && CanonicalText(b).Ok?
    requires CanonicalText(a).value + restOfA == CanonicalText(b).value + restOfB
    ensures a == b && restOfA == restOfB
  {
    RoundTrip(a, restOfA);
    RoundTrip(b, restOfB);
  }

  // Which accepted syntax trees have a canonical text.

  function TenTo(k: nat): nat {
    if k == 0 then 1 else 10 * TenTo(k - 1)
  }

  lemma {:induction false} DigitsLength(n: nat, k: nat)
    requires 0 < k
    ensures |Digits(n)| <= k <==> n < TenTo(k)
    decreases k
  {
    assert TenTo(1) == 10 * TenTo(0);
    if k > 1 && n >= 10 {
      DigitsLength(n / 10, k - 1);
    } else if k > 1 {
      TenGrows(k);
    }
  }

  lemma {:induction false} TenGrows(k: nat)
    requires 0 < k
    ensures 10 <= TenTo(k)
  {
    if k > 1 {
      TenGrows(k - 1);
    } else {
      assert TenTo(1) == 10 * TenTo(0);
    }
  }

  /** The printable integers are those below ten to the limit. */
  lemma PrintableBelow(n: int)
    ensures PrintableInt(n) <==> Absolute(n) < TenTo(INT_DIGITS)
  {
    DigitsLength(Absolute(n), INT_DIGITS);
  }

  /** An infinite float or an integer too long to print, with or without a sign. */
  predicate UnprintableLiteral(node: Node) {
    match node
    case FloatConstant(magnitude) => magnitude.Infinite?
    case IntConstant(n) => !PrintableInt(n)
    case Negative(FloatConstant(magnitude)) => magnitude.Infinite?
    case Negative(IntConstant(n)) => !PrintableInt(n)
    case _ => false
  }

  /** Some argument, at any depth, is such a literal. */
  ghost predicate Overflows(node: Node)
    decreases node
  {
    node.Call? && exists i :: 0 <= i < |node.args| && (UnprintableLiteral(node.args[i]) || Overflows(node.args[i]))
  }

  lemma {:induction false} ArgumentsConverted(node: Node, n: nat, i: nat)
    requires node.Call? && i < n <= |node.args| && ConvertArguments(node, n).Ok?
    ensures ConvertArgument(node.args[i]) == Ok(ConvertArguments(node, n).value[i])
    decreases n
  {
    if i < n - 1 {
      ArgumentsConverted(node, n - 1, i);
    }
  }

  lemma {:induction false} ArgumentEncodes(node: Node, e: Expression, i: nat)
    requires node.Call? && Convert(node) == Ok(e) && i < |node.args|
    ensures e.Apply? && |e.args| == |node.args|
    ensures ArgumentEncodable(e, i) <==> !(UnprintableLiteral(node.args[i]) || Overflows(node.args[i]))
    decreases node, 0
  {
    ArgumentsConverted(node, |node.args|, i);
    if e.args[i].Nested? {
      EncodesExactly(node.args[i], e.args[i].expression);
    }
  }

  lemma {:induction false} EncodesExactly(node: Node, e: Expression)
    requires Convert(node) == Ok(e)
    ensures Encodable(e) <==> !Overflows(node)
    decreases node, 1
  {
    if node.Call? {
      forall i | 0 <= i < |node.args|
        ensures e.Apply? && |e.args| == |node.args|
        ensures ArgumentEncodable(e, i) <==> !(UnprintableLiteral(node.args[i]) || Overflows(node.args[i]))
      {
        ArgumentEncodes(node, e, i);
      }
    }
  }

  /** An accepted syntax tree has no canonical text exactly when some argument in it is a float literal too
      large for a float or an integer literal too long to print. */
  lemma NoTextExactly(node: Node, e: Expression)
    requires Convert(node) == Ok(e)
    ensures CanonicalText(e) == Err(NotPrintable) <==> Overflows(node)
  {
    EncodesExactly(node, e);
  }

  /** A field combined with such a literal is accepted and has no canonical text. */
  lemma UnprintableAccepted(field: RawField, op: Operator, literal: Argument)
    requires op == Add || op == Sub || op == Mul || op == Div || op == Power
    requires !literal.Nested? && !PrintableNumber(literal)
    ensures var e := Apply(op, [Nested(Field(field)), literal]);
      && Convert(Call(Name(OperatorName(op)), [Name(FieldName(field)), UnparsedArgument(e, 1)], false)) == Ok(e)
      && CanonicalText(e) == Err(NotPrintable)
  {
    var e := Apply(op, [Nested(Field(field)), literal]);
    assert e.args[0] == Nested(Field(field)) && e.args[1] == literal;
    UnparsedTwo(e);
    EveryWellFormedParses(e);
    assert !ArgumentEncodable(e, 1);
  }

  /** Infinite floats and integers of more digits than the limit are such literals. */
  lemma UnprintableNumbers(negative: bool, n: int)
    requires TenTo(INT_DIGITS) <= Absolute(n)
    ensures !PrintableNumber(FloatArg(negative, Infinite)) && !PrintableNumber(IntArg(n))
  {
    PrintableBelow(n);
  }
}
