/**
 * The meaning of the class-validator decorators the DTO classes carry, so
 * that each DTO can be written down as the list of decorators on each of
 * its properties and its acceptance stated in closed form.
 */
module Validation {
  import opened Common
  import opened Seqs

  /** A property of a request body after JSON parsing: `undefined`, `null`,
      a finite number, `NaN` (what `Number` makes of text that is not a
      number), a string or a boolean. */
  datatype Value = Absent | Null | Num(n: real) | NotANumber | Str(s: string) | Bool(b: bool)

  /** The decorators used by the DTO classes of this model. */
  datatype Rule =
    | IsOptional
    | IsString
    | IsNumber
    | IsInt
    | IsNotEmpty
    | Min(least: real)
    | Max(most: real)
    | MinLength(minLen: nat)
    | MaxLength(maxLen: nat)
    | IsEmail
    | IsUrl
    | IsEnum(members: set<string>)

  /** The two checks class-validator delegates to the validator.js library. */
  datatype Oracles = Oracles(isEmail: string -> bool, isUrl: string -> bool)

  predicate IsVariationSelector(c: char) { c == '︎' || c == '️' }

  /** The length validator.js's `isLength` measures: code points, not
      counting the two emoji presentation selectors. */
  function Length(s: string): (n: nat)
    ensures n <= |s|
  {
    |Filter(s, c => !IsVariationSelector(c))|
  }

  /** A value is an integer number (`Number.isInteger`). */
  predicate IsInteger(v: Value) {
    v.Num? && v.n == v.n.Floor as real
  }

  /** The check one decorator makes on a present value. */
  predicate Check(rule: Rule, v: Value, oracles: Oracles) {
    match rule
    case IsOptional => true
    case IsString => v.Str?
    case IsNumber => v.Num?
    case IsInt => IsInteger(v)
    case IsNotEmpty => v != Str("") && v != Null && v != Absent
    case Min(least) => v.Num? && v.n >= least
    case Max(most) => v.Num? && v.n <= most
    case MinLength(minLen) => v.Str? && Length(v.s) >= minLen
    case MaxLength(maxLen) => v.Str? && Length(v.s) <= maxLen
    case IsEmail => v.Str? && oracles.isEmail(v.s)
    case IsUrl => v.Str? && oracles.isUrl(v.s)
    case IsEnum(members) => v.Str? && v.s in members
  }

  /** A property passes when `@IsOptional` is present and the value is null
      or undefined, or else when every decorator's check passes. */
  predicate ValidProperty(rules: seq<Rule>, v: Value, oracles: Oracles) {
    (IsOptional in rules && (v == Absent || v == Null))
    || (forall i :: 0 <= i < |rules| ==> Check(rules[i], v, oracles))
  }

  /** `@Type(() => Number)`: class-transformer passes `null` and `undefined`
      through and converts anything else with `Number`, whose reading of a
      string is the parameter `parse` (`None` is `NaN`). */
  function ToNumber(v: Value, parse: string -> Option<real>): (r: Value)
    ensures v.Num? || v == Absent || v == Null ==> r == v
    ensures r.Num? || r == Absent || r == Null || r == NotANumber
  {
    match v
    case Str(s) => if parse(s).Some? then Num(parse(s).value) else NotANumber
    case Bool(b) => Num(if b then 1.0 else 0.0)
    case _ => v
  }

  /** A request body: property name to value (a missing name is `undefined`). */
  type Body = map<string, Value>

  function Get(body: Body, name: string): Value {
    if name in body then body[name] else Absent
  }

  /** `@Type(() => Number)` applied to one property. */
  function Convert(body: Body, name: string, parse: string -> Option<real>): (r: Body)
    ensures forall k :: k in r <==> k in body
    ensures Get(r, name) == ToNumber(Get(body, name), parse)
    ensures forall k :: k != name ==> Get(r, k) == Get(body, k)
  {
    if name in body then body[name := ToNumber(body[name], parse)] else body
  }

  /** A property initializer (`page?: number = 1`): it holds unless the
      request carries the property, even as `null`. */
  function WithDefault(body: Body, name: string, default: Value): (r: Body)
    ensures Get(r, name) == if name in body then body[name] else default
    ensures forall k :: k != name ==> Get(r, k) == Get(body, k)
  {
    if name in body then body else body[name := default]
  }

  /** A DTO class: its properties, each with its decorators. */
  type Schema = seq<(string, seq<Rule>)>

  /** `validate(plainToInstance(Dto, body))` reports no error. Properties the
      class does not declare are not looked at. */
  predicate ValidBody(schema: Schema, body: Body, oracles: Oracles) {
    forall i :: 0 <= i < |schema| ==> ValidProperty(schema[i].1, Get(body, schema[i].0), oracles)
  }

  /** An optional property with no value is accepted whatever else its
      decorators require. */
  lemma OptionalSkipsChecks(rules: seq<Rule>, oracles: Oracles)
    requires IsOptional in rules
    ensures ValidProperty(rules, Absent, oracles) && ValidProperty(rules, Null, oracles)
  {
  }

  /** Each presentation selector is left out of the length, so appending one
      never makes a string longer. */
  lemma {:induction false} LengthIgnoresSelectors(s: string, c: char)
    ensures Length(s + [c]) == if IsVariationSelector(c) then Length(s) else Length(s) + 1
  {
    FilterAppend(s, [c], c => !IsVariationSelector(c));
  }

  /** Without selectors, the length is the number of characters. */
  lemma {:induction false} LengthPlain(s: string)
    requires forall i :: 0 <= i < |s| ==> !IsVariationSelector(s[i])
    ensures Length(s) == |s|
  {
    FilterAll(s, c => !IsVariationSelector(c));
  }
}
