/** JSON values, and the checks the decoder makes on them. Reading a value goes with the predicate that admits it, and a
    codec is lawful when it reads back what it wrote, exactly on the values it calls good, and never reads any other
    value. */
module Json {
  import opened Wrappers

  /** An object keeps its names in the order they were set. */
  datatype Json =
    | Null
    | Bool(bit: bool)
    | Num(number: real)
    | Str(text: string)
    | Arr(items: seq<Json>)
    | Obj(names: seq<string>, at: map<string, Json>)
  {
    /** Reading a field; None is JavaScript's undefined. */
    function Get(name: string): Option<Json> {
      if Obj? then Field(at, name) else None
    }
  }

  /** The names that have a value, in the order in which they are set. */
  function Present(order: seq<string>, at: map<string, Json>): seq<string> {
    if order == [] then []
    else Present(order[..|order| - 1], at) + if order[|order| - 1] in at then [order[|order| - 1]] else []
  }

  /** A field written only when there is a value. */
  function WithSome(at: map<string, Json>, name: string, value: Option<string>): map<string, Json> {
    match value
    case Some(text) => at[name := Str(text)]
    case None => at
  }

  function Field(at: map<string, Json>, name: string): Option<Json> {
    if name in at then Some(at[name]) else None
  }

  const MaxStringLength := 1_000_000

  predicate Short(s: string) {
    |s| <= MaxStringLength
  }

  predicate ShortIfAny(s: Option<string>) {
    s.Some? ==> Short(s.value)
  }

  predicate IsIndex(n: real) {
    n >= 0.0 && n == n.Floor as real
  }

  function OrNull(s: Option<string>): Json {
    match s
    case Some(text) => Str(text)
    case None => Null
  }

  function NumOrNull(n: Option<real>): Json {
    match n
    case Some(x) => Num(x)
    case None => Null
  }

  /** What reading a field written by WithSome gives. */
  function AsField(s: Option<string>): Option<Json> {
    match s
    case Some(text) => Some(Str(text))
    case None => None
  }

  type Read<T> = Result<T, string>

  predicate Nullish(v: Option<Json>) {
    v.None? || v.value.Null?
  }

  // Each check comes with the value it admits.

  predicate IsText(v: Option<Json>) {
    v.Some? && v.value.Str? && Short(v.value.text)
  }

  function TextIn(v: Option<Json>): string {
    if v.Some? && v.value.Str? then v.value.text else ""
  }

  predicate IsNumber(v: Option<Json>) {
    v.Some? && v.value.Num?
  }

  function NumberIn(v: Option<Json>): real {
    if v.Some? && v.value.Num? then v.value.number else 0.0
  }

  predicate IsInteger(v: Option<Json>) {
    IsNumber(v) && IsIndex(v.value.number)
  }

  predicate IsFlag(v: Option<Json>) {
    v.Some? && v.value.Bool?
  }

  function FlagIn(v: Option<Json>): bool {
    v.Some? && v.value.Bool? && v.value.bit
  }

  predicate IsOptionalText(v: Option<Json>) {
    Nullish(v) || IsText(v)
  }

  predicate IsOptionalInteger(v: Option<Json>) {
    Nullish(v) || IsInteger(v)
  }

  /** A field the decoder casts without a check; a value of another type has no place in the typed message. */
  predicate IsCastText(v: Option<Json>) {
    Nullish(v) || v.value.Str?
  }

  predicate IsCastNumber(v: Option<Json>) {
    Nullish(v) || v.value.Num?
  }

  function OptionalTextIn(v: Option<Json>): Option<string> {
    if v.Some? && v.value.Str? then Some(v.value.text) else None
  }

  function OptionalNumberIn(v: Option<Json>): Option<real> {
    if v.Some? && v.value.Num? then Some(v.value.number) else None
  }

  function Checked<T>(good: bool, value: T): Read<T> {
    if good then Ok(value) else Err("malformed")
  }

  function Each<T>(items: seq<Json>, read: Json -> Read<T>): Read<seq<T>> {
    if items == [] then Ok([])
    else
      var first, rest := read(items[0]), Each(items[1..], read);
      if first.Ok? && rest.Ok? then Ok([first.value] + rest.value) else Err("malformed item")
  }

  function All<T>(values: seq<T>, write: T -> Json): (items: seq<Json>)
    ensures |items| == |values| && forall k | 0 <= k < |values| :: items[k] == write(values[k])
  {
    seq(|values|, k requires 0 <= k < |values| => write(values[k]))
  }

  lemma AllOfRest<T>(values: seq<T>, write: T -> Json)
    requires values != []
    ensures All(values, write)[0] == write(values[0]) && All(values, write)[1..] == All(values[1..], write)
  {
    var rest := values[1..];
    forall k | 0 <= k < |rest|
      ensures All(values, write)[1..][k] == All(rest, write)[k]
    {
      assert rest[k] == values[k + 1];
    }
  }

  /** Reading back a written value gives it, or fails; it succeeds exactly when the value is good. */
  ghost predicate Inverts<T(!new)>(result: Read<T>, value: T, good: bool) {
    (result.Ok? <==> good) && (result.Ok? ==> result.value == value)
  }

  /** How values of one type are written and read, and which of them survive it. */
  datatype Codec<!T> = Codec(write: T -> Json, read: Json -> Read<T>, good: T -> bool)

  /** Nothing is written as null, and reading undoes writing exactly on the good values. */
  ghost predicate Lawful<T(!new)>(c: Codec<T>) {
    && (forall t: T :: !c.write(t).Null? && Inverts(c.read(c.write(t)), t, c.good(t)))
    && Screens(c.read, c.good)
  }

  /** Only good values are ever read. */
  ghost predicate Screens<T(!new)>(read: Json -> Read<T>, good: T -> bool) {
    forall j :: read(j).Ok? ==> good(read(j).value)
  }

  lemma {:induction false} EachScreens<T(!new)>(items: seq<Json>, read: Json -> Read<T>, good: T -> bool)
    requires Screens(read, good) && Each(items, read).Ok?
    ensures |Each(items, read).value| == |items| && forall t | t in Each(items, read).value :: good(t)
  {
    if items != [] {
      EachScreens(items[1..], read, good);
      assert read(items[0]).Ok?;
    }
  }

  /** Element by element. */
  lemma {:induction false} EachInverts<T(!new)>(
    values: seq<T>, write: T -> Json, read: Json -> Read<T>, good: T -> bool)
    requires forall t | t in values :: Inverts(read(write(t)), t, good(t))
    ensures Inverts(Each(All(values, write), read), values, forall t | t in values :: good(t))
  {
    if values != [] {
      var rest := values[1..];
      assert forall t | t in rest :: t in values;
      EachInverts(rest, write, read, good);
      AllOfRest(values, write);
      assert values[0] in values;
      assert values == [values[0]] + rest;
    }
  }
}
