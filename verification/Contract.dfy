/** Declared template contracts and the values a view supplies
    (internal/blockkit/contract.go). */
module Contract {
  import opened Basics

  datatype InputType =
    | TextInput | IdInput | CodeInput | LongTextInput | TimestampInput
    | NumberInput | EnumInput | BoolInput | PairsInput
    | UnsupportedInput(name: string)

  datatype Input = Input(kind: InputType, required: bool, max: int, default: string, chunk: int, oneOf: seq<string>)

  /** carries is "" when the action carries no input; style may be "". */
  datatype Action = Action(id: string, text: string, style: string, carries: string)

  datatype Pair = Pair(labelText: string, valueText: string)

  /** A Go interface value: nil, the five normalized field types, or the pair
      an each region binds to item. Timestamps are seconds. */
  datatype Value =
    | Nil
    | Text(text: string)
    | Stamp(at: int)
    | Number(number: int)
    | Flag(on: bool)
    | Pairs(pairs: seq<Pair>)
    | OnePair(pair: Pair)

  datatype Slot = Slot(input: Input, value: Value)

  type Inputs = map<string, Input>
  type Values = map<string, Slot>

  /** Library behaviour that the templates only call: Unicode case mapping, time
      layouts, value printing, default parsing and the mrkdwn stripping of the
      fallback text. */
  datatype Host = Host(
    lower: string -> string,
    upper: string -> string,
    formatTime: (int, string) -> string,
    sprint: Value -> string,
    strip: string -> string,
    parseDefault: (InputType, string) -> Option<Value>)

  predicate IsStringType(kind: InputType) {
    kind.TextInput? || kind.IdInput? || kind.CodeInput? || kind.LongTextInput? || kind.EnumInput?
  }

  /** The Go type that view binding guarantees for each declared type. */
  predicate HasType(v: Value, kind: InputType) {
    match kind
    case TimestampInput => v.Stamp?
    case NumberInput => v.Number?
    case BoolInput => v.Flag?
    case PairsInput => v.Pairs?
    case UnsupportedInput(_) => false
    case _ => v.Text?
  }

  /** Every declared input has a value of its type, or nil. */
  predicate WellTyped(inputs: Inputs, values: Values) {
    && values.Keys == inputs.Keys
    && forall name | name in inputs ::
         values[name].input == inputs[name] && (values[name].value.Nil?
           || HasType(values[name].value, inputs[name].kind))
  }

  predicate NameChar(c: char) {
    'a' <= c <= 'z' || '0' <= c <= '9' || c == '_'
  }

  predicate ValidName(s: string) {
    s != "" && forall i | 0 <= i < |s| :: NameChar(s[i])
  }
}
