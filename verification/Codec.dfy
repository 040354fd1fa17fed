/**
 The C codec tools/gen_contracts.py writes for a payload schema, as an interpreter over any
 schema: to_json fills a cJSON object field by field, from_json fills a zeroed struct.
 */
module Codec {
  import opened Wrappers

  // ----- schemas -----------------------------------------------------------------------------------

  /** A property of a JSON schema, reduced to what the generator reads. */
  datatype Spec = Spec(
    kind: string,                         // "type"
    words: Option<seq<string>>,           // "enum" of a string
    numbers: Option<seq<int>>,            // "enum" of an integer
    minimum: Option<int>,
    maximum: Option<int>,
    maxLength: Option<nat>,
    patternMax: Option<nat>,              // the upper bound of a {n,m} in "pattern"
    uuid: bool,
    fields: seq<Field>)                   // "properties", in order

  datatype Field = Field(name: string, required: bool, spec: Spec)

  datatype Tag = EnumTag | StringTag | IntegerTag | NumberTag | BooleanTag | ObjectTag | SkipTag

  /** c_field */
  function TagOf(s: Spec): Tag {
    if s.kind == "string" && s.words.Some? then EnumTag
    else if s.kind == "string" then StringTag
    else if s.kind == "integer" then IntegerTag
    else if s.kind == "number" then NumberTag
    else if s.kind == "boolean" then BooleanTag
    else if s.kind == "object" then ObjectTag
    else SkipTag
  }

  const DEFAULT_STRING_LEN: nat := 64

  /** string_len: the buffer, terminator included.  A limit of 0 counts as none. */
  function StringLen(s: Spec): nat {
    var limit := if s.maxLength.Some? then s.maxLength.value
                 else if s.patternMax.Some? then s.patternMax.value
                 else if s.uuid then 36 else 0;
    (if limit == 0 then DEFAULT_STRING_LEN else limit) + 1
  }

  datatype CInt = Uint8 | Uint16 | Uint32 | Int64

  function Least(xs: seq<int>): (m: int)
    requires xs != []
    ensures forall x :: x in xs ==> m <= x
  {
    assert forall x :: x in xs ==> x == xs[0] || x in xs[1..];
    if |xs| == 1 then xs[0] else if xs[0] <= Least(xs[1..]) then xs[0] else Least(xs[1..])
  }

  function Most(xs: seq<int>): (m: int)
    requires xs != []
    ensures forall x :: x in xs ==> x <= m
  {
    assert forall x :: x in xs ==> x == xs[0] || x in xs[1..];
    if |xs| == 1 then xs[0] else if xs[0] >= Most(xs[1..]) then xs[0] else Most(xs[1..])
  }

  /** int_c_type.  An empty enum list stops the generator, so there is none. */
  function IntType(s: Spec): CInt
    requires s.numbers.Some? ==> s.numbers.value != []
  {
    var lo := if s.minimum.None? && s.numbers.Some? then Some(Least(s.numbers.value)) else s.minimum;
    var hi := if s.maximum.None? && s.numbers.Some? then Some(Most(s.numbers.value)) else s.maximum;
    if lo.Some? && lo.value >= 0 && hi.Some? then
      if hi.value <= 0xFF then Uint8
      else if hi.value <= 0xFFFF then Uint16
      else if hi.value <= 0xFFFF_FFFF then Uint32
      else Int64
    else Int64
  }

  predicate FitsInt(t: CInt, x: int) {
    match t
    case Uint8 => 0 <= x <= 0xFF
    case Uint16 => 0 <= x <= 0xFFFF
    case Uint32 => 0 <= x <= 0xFFFF_FFFF
    case Int64 => -0x8000_0000_0000_0000 <= x <= 0x7FFF_FFFF_FFFF_FFFF
  }

  /** An integer the schema accepts. */
  predicate Accepts(s: Spec, x: int) {
    && (s.minimum.Some? ==> s.minimum.value <= x)
    && (s.maximum.Some? ==> x <= s.maximum.value)
    && (s.numbers.Some? ==> x in s.numbers.value)
  }

  /** The C type picked for an integer holds every value of that width the schema accepts. */
  lemma AcceptedFits(s: Spec, x: int)
    requires s.numbers.Some? ==> s.numbers.value != []
    requires Accepts(s, x) && FitsInt(Int64, x)
    ensures FitsInt(IntType(s), x)
  {
  }

  // ----- C values and cJSON trees --------------------------------------------------------------------

  /** A member of the struct.  An enum holds whatever number it was given. */
  datatype CValue = CStr(text: string) | CEnum(at: int) | CInteger(whole: int) | CFloat(number: real) | CBool(bool)
                  | CStruct(slots: seq<Slot>) | Nothing

  /** A member and its has_ flag, which a required member does not have and counts as set. */
  datatype Slot = Slot(value: CValue, has: bool)

  datatype Json = JStr(text: string) | JNum(number: real) | JBool(bool) | JObj(items: seq<(string, Json)>)

  /** What the compiler's (float) does to a double. */
  datatype Machine = Machine(narrow: real -> real)

  // ----- doubles ---------------------------------------------------------------------------------------

  const EXACT: nat := 0x20_0000_0000_0000    // 2^53

  /** The spacing of doubles around a whole number of this size. */
  function Ulp(a: nat): (u: nat)
    ensures u > 0
  {
    UlpFrom(a, 1)
  }

  function UlpFrom(a: nat, u: nat): (r: nat)
    requires u > 0
    ensures r > 0
    decreases a - EXACT * u
  {
    if a < EXACT * u then u else UlpFrom(a, 2 * u)
  }

  function RoundTo(a: nat, u: nat): nat
    requires u > 0
  {
    var q, r := a / u, a % u;
    if 2 * r < u || (2 * r == u && q % 2 == 0) then q * u else (q + 1) * u
  }

  /** (double) of a whole number: to the nearest, ties to even. */
  function Rounded(x: int): int {
    if x < 0 then 0 - RoundTo(-x, Ulp(-x)) else RoundTo(x, Ulp(x))
  }

  function Size(x: int): nat { if x < 0 then -x else x }

  /** A whole number a double can hold. */
  predicate Exact(x: int) { Size(x) % Ulp(Size(x)) == 0 }

  lemma RoundKeeps(a: nat, u: nat)
    requires u > 0
    ensures RoundTo(a, u) == a <==> a % u == 0
  {
    var q, r := a / u, a % u;
    assert a == q * u + r;
    assert (q + 1) * u == q * u + u;
  }

  lemma RoundedIsExact(x: int)
    ensures Rounded(x) == x <==> Exact(x)
  {
    RoundKeeps(Size(x), Ulp(Size(x)));
  }

  /** Past 2^53 doubles lie a power of two apart, the least that 2^53 of them reach the size with. */
  lemma UlpIs(a: nat)
    ensures a < EXACT * Ulp(a) && PowerOfTwo(Ulp(a))
    ensures Ulp(a) == 1 || a >= EXACT * (Ulp(a) / 2)
  {
    UlpFromIs(a, 1);
  }

  predicate PowerOfTwo(u: nat) { u == 1 || (u > 0 && u % 2 == 0 && PowerOfTwo(u / 2)) }

  lemma {:induction false} UlpFromIs(a: nat, u: nat)
    requires PowerOfTwo(u) && (u == 1 || a >= EXACT * (u / 2))
    ensures a < EXACT * UlpFrom(a, u) && PowerOfTwo(UlpFrom(a, u))
    ensures UlpFrom(a, u) == 1 || a >= EXACT * (UlpFrom(a, u) / 2)
    decreases a - EXACT * u
  {
    if a >= EXACT * u {
      assert 2 * u / 2 == u;
      UlpFromIs(a, 2 * u);
    }
  }

  /** A place on the grid of this spacing as near the whole number as any, and even if another is. */
  predicate NearestPlace(x: int, u: nat, n: int, place: int) {
    n == place * u && 2 * Size(n - x) <= u && (2 * Size(n - x) == u ==> place % 2 == 0)
  }

  /** The double next to a whole number, and of two as near the one of even place. */
  lemma RoundedIsNearest(x: int)
    ensures exists place :: NearestPlace(x, Ulp(Size(x)), Rounded(x), place)
  {
    hide RoundTo, Ulp;
    var u := Ulp(Size(x));
    var place := RoundToIs(Size(x), u);
    if x < 0 {
      assert (-place) * u == -(place * u);
      assert NearestPlace(x, u, Rounded(x), -place);
    } else {
      assert NearestPlace(x, u, Rounded(x), place);
    }
  }

  lemma RoundToIs(a: nat, u: nat) returns (place: int)
    requires u > 0
    ensures NearestPlace(a, u, RoundTo(a, u), place)
  {
    var q, r := a / u, a % u;
    assert a == q * u + r;
    assert (q + 1) * u == q * u + u;
    place := if 2 * r < u || (2 * r == u && q % 2 == 0) then q else q + 1;
  }

  lemma SmallIsExact(x: int)
    requires Size(x) <= EXACT
    ensures Exact(x)
  {
    if Size(x) == EXACT { assert UlpFrom(EXACT, 1) == UlpFrom(EXACT, 2) == 2; }
  }

  /** The first whole number a double cannot hold. */
  lemma FirstInexact()
    ensures !Exact(EXACT + 1)
  {
    assert UlpFrom(EXACT + 1, 1) == UlpFrom(EXACT + 1, 2) == 2;
  }

  /** The cast back: towards zero.  Out of range C leaves it undefined; here it gives 0. */
  function Cast(t: CInt, d: real): int {
    var whole := if d < 0.0 then -((-d).Floor) else d.Floor;
    if FitsInt(t, whole) then whole else 0
  }

  // ----- the enum functions ------------------------------------------------------------------------------

  /** <enum>_str */
  function EnumStr(words: seq<string>, at: int): string {
    if 0 <= at < |words| then words[at] else ""
  }

  /** <enum>_parse */
  function EnumParse(words: seq<string>, text: string): (r: Option<nat>)
    ensures r.Some? ==> r.value < |words| && words[r.value] == text
    ensures r.None? <==> text !in words
  {
    if words == [] then None
    else if words[0] == text then Some(0)
    else
      var rest := EnumParse(words[1..], text);
      if rest.None? then None else Some(rest.value + 1)
  }

  predicate NoRepeats(words: seq<string>) {
    forall i, j :: 0 <= i < j < |words| ==> words[i] != words[j]
  }

  // ----- to_json and from_json -------------------------------------------------------------------------------

  function Words(s: Spec): seq<string> { if s.words.Some? then s.words.value else [] }

  /** A member that to_json writes. */
  predicate Present(f: Field, slot: Slot) {
    TagOf(f.spec) != SkipTag && (f.required || slot.has)
  }

  /** The value to_json writes for a member. */
  function ToValue(s: Spec, v: CValue): Json
    decreases s
  {
    match (TagOf(s), v)
    case (EnumTag, CEnum(at)) => JStr(EnumStr(Words(s), at))
    case (StringTag, CStr(text)) => JStr(text)
    case (IntegerTag, CInteger(x)) => JNum(Rounded(x) as real)
    case (NumberTag, CFloat(r)) => JNum(r)
    case (BooleanTag, CBool(b)) => JBool(b)
    case (ObjectTag, CStruct(slots)) => JObj(Encode(s.fields, slots))
    case _ => JBool(false)
  }

  /** The record to_json builds when every allocation succeeds. */
  function Encode(fields: seq<Field>, slots: seq<Slot>): seq<(string, Json)>
    decreases fields
  {
    if fields == [] || slots == [] then []
    else (if Present(fields[0], slots[0]) then [(fields[0].name, ToValue(fields[0].spec, slots[0].value))] else [])
         + Encode(fields[1..], slots[1..])
  }

  /** cJSON_GetObjectItemCaseSensitive: the first item of that name. */
  function Lookup(items: seq<(string, Json)>, name: string): Option<Json> {
    if items == [] then None else if items[0].0 == name then Some(items[0].1) else Lookup(items[1..], name)
  }

  function Items(root: Json): seq<(string, Json)> {
    if root.JObj? then root.items else []
  }

  /** What memset leaves of a member. */
  function Zero(s: Spec): CValue
    decreases s
  {
    match TagOf(s)
    case EnumTag => CEnum(0)
    case StringTag => CStr("")
    case IntegerTag => CInteger(0)
    case NumberTag => CFloat(0.0)
    case BooleanTag => CBool(false)
    case ObjectTag => CStruct(ZeroSlots(s.fields))
    case SkipTag => Nothing
  }

  function ZeroSlots(fields: seq<Field>): (slots: seq<Slot>)
    ensures |slots| == |fields|
    decreases fields
  {
    if fields == [] then []
    else [Slot(Zero(fields[0].spec), fields[0].required)] + ZeroSlots(fields[1..])
  }

  /** An item of the wrong type is passed over; a bad enum or nested record fails the whole parse. */
  datatype Item = Passed | Bad | Good(value: CValue)

  function FromItem(m: Machine, s: Spec, item: Json): Item
    requires Sound(s)
    decreases s
  {
    match (TagOf(s), item)
    case (EnumTag, JStr(text)) =>
      var at := EnumParse(Words(s), text);
      if at.Some? then Good(CEnum(at.value)) else Bad
    case (StringTag, JStr(text)) =>
      Good(CStr(if |text| < StringLen(s) then text else text[..StringLen(s) - 1]))
    case (IntegerTag, JNum(d)) => Good(CInteger(Cast(IntType(s), d)))
    case (NumberTag, JNum(d)) => Good(CFloat(m.narrow(d)))
    case (BooleanTag, JBool(b)) => Good(CBool(b))
    case (ObjectTag, JObj(_)) =>
      var inner := Decode(m, s.fields, item);
      if inner.Some? then Good(CStruct(inner.value)) else Bad
    case _ => Passed
  }

  /** from_json of one member, None if it returns false there. */
  function FromField(m: Machine, f: Field, root: Json): Option<Slot>
    requires Sound(f.spec)
    decreases f
  {
    if TagOf(f.spec).SkipTag? then Some(Slot(Nothing, f.required))
    else
      var found := Lookup(Items(root), f.name);
      var item := if found.Some? then FromItem(m, f.spec, found.value) else Passed;
      match item
      case Good(v) => Some(Slot(v, true))
      case Bad => None
      case Passed => if f.required then None else Some(Slot(Zero(f.spec), false))
  }

  function Decode(m: Machine, fields: seq<Field>, root: Json): Option<seq<Slot>>
    requires AllSound(fields)
    decreases fields
  {
    if fields == [] then Some([])
    else
      var first := FromField(m, fields[0], root);
      var rest := Decode(m, fields[1..], root);
      if first.Some? && rest.Some? then Some([first.value] + rest.value) else None
  }

  // ----- schemas and structs that make sense -----------------------------------------------------------------

  /** Names and enum words do not repeat, and no enum is empty. */
  predicate Sound(s: Spec)
    decreases s
  {
    && (s.words.Some? ==> NoRepeats(s.words.value))
    && (s.numbers.Some? ==> s.numbers.value != [])
    && (forall i, j :: 0 <= i < j < |s.fields| ==> s.fields[i].name != s.fields[j].name)
    && AllSound(s.fields)
  }

  predicate AllSound(fields: seq<Field>)
    decreases fields
  {
    fields == [] || (Sound(fields[0].spec) && AllSound(fields[1..]))
  }

  /** A value the C member can hold. */
  predicate Holds(m: Machine, s: Spec, v: CValue)
    requires Sound(s)
    decreases s
  {
    match (TagOf(s), v)
    case (EnumTag, CEnum(_)) => true
    case (StringTag, CStr(text)) => |text| < StringLen(s)
    case (IntegerTag, CInteger(x)) => FitsInt(IntType(s), x)
    case (NumberTag, CFloat(r)) => m.narrow(r) == r
    case (BooleanTag, CBool(_)) => true
    case (ObjectTag, CStruct(slots)) => HoldsAll(m, s.fields, slots)
    case (SkipTag, Nothing) => true
    case _ => false
  }

  predicate HoldsAll(m: Machine, fields: seq<Field>, slots: seq<Slot>)
    requires AllSound(fields)
    decreases fields
  {
    |slots| == |fields| && (fields == [] ||
      (Holds(m, fields[0].spec, slots[0].value) && (fields[0].required ==> slots[0].has)
       && HoldsAll(m, fields[1..], slots[1..])))
  }

  /** The value a receiver can be told: no enum out of range, no integer a double would round. */
  predicate Faithful(s: Spec, v: CValue)
    decreases s
  {
    match (TagOf(s), v)
    case (EnumTag, CEnum(at)) => 0 <= at < |Words(s)|
    case (IntegerTag, CInteger(x)) => Exact(x)
    case (ObjectTag, CStruct(slots)) => FaithfulAll(s.fields, slots)
    case _ => true
  }

  predicate FaithfulAll(fields: seq<Field>, slots: seq<Slot>)
    decreases fields
  {
    fields == [] || slots == [] ||
      ((Present(fields[0], slots[0]) ==> Faithful(fields[0].spec, slots[0].value)) && FaithfulAll(fields[1..], slots[1..]))
  }

  /** What a receiver should hold: absent members zeroed, everything present as it was. */
  function Received(s: Spec, v: CValue): CValue
    decreases s
  {
    if TagOf(s).ObjectTag? && v.CStruct? then CStruct(ReceivedAll(s.fields, v.slots)) else v
  }

  function ReceivedAll(fields: seq<Field>, slots: seq<Slot>): (r: seq<Slot>)
    decreases fields
  {
    if fields == [] || slots == [] then []
    else [if TagOf(fields[0].spec).SkipTag? then Slot(Nothing, fields[0].required)
          else if Present(fields[0], slots[0]) then Slot(Received(fields[0].spec, slots[0].value), true)
          else Slot(Zero(fields[0].spec), false)]
         + ReceivedAll(fields[1..], slots[1..])
  }

  // ----- the round trip ------------------------------------------------------------------------------------------

  lemma {:induction false} EnumParseIs(words: seq<string>, at: nat)
    requires at < |words| && NoRepeats(words)
    ensures EnumParse(words, words[at]) == Some(at)
    decreases at
  {
    if at > 0 { EnumParseIs(words[1..], at - 1); }
  }

  lemma CastBack(t: CInt, x: int)
    requires FitsInt(t, x)
    ensures Cast(t, Rounded(x) as real) == x <==> Exact(x)
  {
    RoundedIsExact(x);
    var r := Rounded(x);
    assert (r as real).Floor == r;
    assert (-(r as real)) == (-r) as real;
    RoundedZero(x);
  }

  lemma RoundedZero(x: int)
    ensures x == 0 ==> Rounded(x) == 0 && Exact(x)
  {
  }

  /** A name written once is found with what was written. */
  lemma {:induction false} LookupEncode(fields: seq<Field>, slots: seq<Slot>, k: nat)
    requires |slots| == |fields| && k < |fields|
    requires forall i, j :: 0 <= i < j < |fields| ==> fields[i].name != fields[j].name
    ensures Lookup(Encode(fields, slots), fields[k].name)
         == if Present(fields[k], slots[k]) then Some(ToValue(fields[k].spec, slots[k].value)) else None
    decreases k
  {
    var rest := Encode(fields[1..], slots[1..]);
    if Present(fields[0], slots[0]) {
      assert Encode(fields, slots)[1..] == rest;
    } else {
      assert Encode(fields, slots) == rest;
    }
    if k > 0 {
      LookupEncode(fields[1..], slots[1..], k - 1);
    } else {
      NotEncoded(fields[1..], slots[1..], fields[0].name);
    }
  }

  lemma {:induction false} NotEncoded(fields: seq<Field>, slots: seq<Slot>, name: string)
    requires forall i :: 0 <= i < |fields| ==> fields[i].name != name
    ensures Lookup(Encode(fields, slots), name) == None
    decreases |fields|
  {
    if fields != [] && slots != [] {
      var rest := Encode(fields[1..], slots[1..]);
      NotEncoded(fields[1..], slots[1..], name);
      if Present(fields[0], slots[0]) {
        assert Encode(fields, slots)[1..] == rest;
      } else {
        assert Encode(fields, slots) == rest;
      }
    }
  }

  lemma {:induction false} ValueRoundTrip(m: Machine, s: Spec, v: CValue)
    requires Sound(s) && Holds(m, s, v) && TagOf(s) != SkipTag
    ensures FromItem(m, s, ToValue(s, v)) == Good(Received(s, v)) <==> Faithful(s, v)
    ensures FromItem(m, s, ToValue(s, v)) != Passed
    decreases s, 1
  {
    match TagOf(s)
    case EnumTag => if 0 <= v.at < |Words(s)| { EnumParseIs(Words(s), v.at); }
    case IntegerTag => CastBack(IntType(s), v.whole);
    case ObjectTag => RecordRoundTrip(m, s.fields, v.slots);
    case _ =>
  }

  lemma {:induction false} FieldsRoundTrip(m: Machine, fields: seq<Field>, slots: seq<Slot>, root: Json)
    requires AllSound(fields) && HoldsAll(m, fields, slots)
    requires forall k :: 0 <= k < |fields| ==>
      Lookup(Items(root), fields[k].name)
      == if Present(fields[k], slots[k]) then Some(ToValue(fields[k].spec, slots[k].value)) else None
    ensures Decode(m, fields, root) == Some(ReceivedAll(fields, slots)) <==> FaithfulAll(fields, slots)
    decreases fields, 0
  {
    if fields != [] {
      var f, slot := fields[0], slots[0];
      if Present(f, slot) { ValueRoundTrip(m, f.spec, slot.value); }
      FieldsRoundTrip(m, fields[1..], slots[1..], root);
      var all, rest := ReceivedAll(fields, slots), ReceivedAll(fields[1..], slots[1..]);
      assert all[1..] == rest;
      var first, others := FromField(m, f, root), Decode(m, fields[1..], root);
      assert Decode(m, fields, root) == Some(all) <==> first == Some(all[0]) && others == Some(rest) by {
        if first.Some? && others.Some? {
          assert ([first.value] + others.value)[0] == first.value && ([first.value] + others.value)[1..] == others.value;
        }
      }
    }
  }

  /** Codec round trip: over any sound schema, what from_json makes of what to_json built is the
      struct with its absent members zeroed, exactly when every present enum is in range and every
      present integer is one a double can hold. */
  lemma {:induction false} RecordRoundTrip(m: Machine, fields: seq<Field>, slots: seq<Slot>)
    requires AllSound(fields) && HoldsAll(m, fields, slots)
    requires forall i, j :: 0 <= i < j < |fields| ==> fields[i].name != fields[j].name
    ensures Decode(m, fields, JObj(Encode(fields, slots))) == Some(ReceivedAll(fields, slots)) <==> FaithfulAll(fields, slots)
    decreases fields, 1
  {
    HoldsSize(m, fields, slots);
    forall k | 0 <= k < |fields|
      ensures Lookup(Encode(fields, slots), fields[k].name)
           == if Present(fields[k], slots[k]) then Some(ToValue(fields[k].spec, slots[k].value)) else None
    {
      LookupEncode(fields, slots, k);
    }
    FieldsRoundTrip(m, fields, slots, JObj(Encode(fields, slots)));
  }

  lemma HoldsSize(m: Machine, fields: seq<Field>, slots: seq<Slot>)
    requires AllSound(fields) && HoldsAll(m, fields, slots)
    ensures |slots| == |fields|
  {
  }

  // ----- what a parse can leave behind, whatever it is given ------------------------------------------------------

  /** (float) of a float changes nothing. */
  ghost predicate Narrows(m: Machine) {
    m.narrow(0.0) == 0.0 && forall r :: m.narrow(m.narrow(r)) == m.narrow(r)
  }

  /** Every present enum names one of its words, however deep. */
  predicate Named(s: Spec, v: CValue)
    decreases s
  {
    match (TagOf(s), v)
    case (EnumTag, CEnum(at)) => 0 <= at < |Words(s)|
    case (ObjectTag, CStruct(slots)) => NamedAll(s.fields, slots)
    case _ => true
  }

  predicate NamedAll(fields: seq<Field>, slots: seq<Slot>)
    decreases fields
  {
    fields == [] || slots == [] ||
      ((Present(fields[0], slots[0]) ==> Named(fields[0].spec, slots[0].value)) && NamedAll(fields[1..], slots[1..]))
  }

  lemma {:induction false} ZeroHolds(m: Machine, s: Spec)
    requires Sound(s) && Narrows(m)
    ensures Holds(m, s, Zero(s))
    decreases s, 1
  {
    if TagOf(s).ObjectTag? { ZeroSlotsHold(m, s.fields); }
  }

  lemma {:induction false} ZeroSlotsHold(m: Machine, fields: seq<Field>)
    requires AllSound(fields) && Narrows(m)
    ensures HoldsAll(m, fields, ZeroSlots(fields))
    decreases fields, 0
  {
    if fields != [] {
      ZeroHolds(m, fields[0].spec);
      ZeroSlotsHold(m, fields[1..]);
      assert ZeroSlots(fields)[1..] == ZeroSlots(fields[1..]);
    }
  }

  lemma {:induction false} ItemHolds(m: Machine, s: Spec, item: Json)
    requires Sound(s) && Narrows(m)
    ensures FromItem(m, s, item).Good? ==>
      Holds(m, s, FromItem(m, s, item).value) && Named(s, FromItem(m, s, item).value)
    decreases s, 1
  {
    if TagOf(s).ObjectTag? && item.JObj? { ParsedHolds(m, s.fields, item); }
  }

  /** Whatever the JSON, a parse that succeeds leaves a struct its C type can hold: no string fills
      its buffer, no integer is wider than its type, every required member is there, and every
      present enum names a word. */
  lemma {:induction false} ParsedHolds(m: Machine, fields: seq<Field>, root: Json)
    requires AllSound(fields) && Narrows(m)
    ensures Decode(m, fields, root).Some? ==>
      HoldsAll(m, fields, Decode(m, fields, root).value) && NamedAll(fields, Decode(m, fields, root).value)
    decreases fields, 0
  {
    if fields != [] && Decode(m, fields, root).Some? {
      var f := fields[0];
      var found := Lookup(Items(root), f.name);
      if found.Some? { ItemHolds(m, f.spec, found.value); }
      ZeroHolds(m, f.spec);
      ParsedHolds(m, fields[1..], root);
      assert Decode(m, fields, root).value[1..] == Decode(m, fields[1..], root).value;
    }
  }

  /** A parse fails exactly on a required member that is missing or of another type, an enum word
      nobody listed, or a nested record that fails; otherwise each member is what its own item says,
      whatever order the items came in. */
  lemma {:induction false} ParseIsPerField(m: Machine, fields: seq<Field>, root: Json)
    requires AllSound(fields)
    ensures Decode(m, fields, root).None? <==>
      exists k :: 0 <= k < |fields| && Sound(fields[k].spec) && FromField(m, fields[k], root).None?
    ensures Decode(m, fields, root).Some? ==> |Decode(m, fields, root).value| == |fields|
    ensures Decode(m, fields, root).Some? ==> forall k :: 0 <= k < |fields| ==>
      Sound(fields[k].spec) && FromField(m, fields[k], root) == Some(Decode(m, fields, root).value[k])
    decreases |fields|
  {
    if fields != [] {
      var rest := fields[1..];
      ParseIsPerField(m, rest, root);
      forall k | 0 <= k < |fields| ensures Sound(fields[k].spec) {
        SoundAt(fields, k);
      }
      forall k | 0 < k < |fields| ensures fields[k] == rest[k - 1] {}
      if Decode(m, rest, root).None? {
        var k :| 0 <= k < |rest| && Sound(rest[k].spec) && FromField(m, rest[k], root).None?;
        assert FromField(m, fields[k + 1], root).None?;
      }
    }
  }

  lemma {:induction false} SoundAt(fields: seq<Field>, k: nat)
    requires AllSound(fields) && k < |fields|
    ensures Sound(fields[k].spec)
    decreases k
  {
    if k > 0 { SoundAt(fields[1..], k - 1); }
  }

  // ----- a parse, said of the JSON alone ---------------------------------------------------------------------------

  lemma {:induction false} LookupIsFirst(items: seq<(string, Json)>, name: string)
    ensures Lookup(items, name).None? <==> forall k :: 0 <= k < |items| ==> items[k].0 != name
    ensures Lookup(items, name).Some? ==>
      exists k :: 0 <= k < |items| && items[k] == (name, Lookup(items, name).value) && forall j :: 0 <= j < k ==> items[j].0 != name
    decreases |items|
  {
    if items != [] && items[0].0 != name {
      LookupIsFirst(items[1..], name);
      if Lookup(items, name).Some? {
        var k :| 0 <= k < |items[1..]| && items[1..][k] == (name, Lookup(items, name).value)
                 && forall j :: 0 <= j < k ==> items[1..][j].0 != name;
        assert items[k + 1] == items[1..][k];
        forall j | 0 <= j < k + 1 ensures items[j].0 != name {
          if j > 0 { assert items[j] == items[1..][j - 1]; }
        }
      } else {
        forall j | 0 <= j < |items| ensures items[j].0 != name {
          if j > 0 { assert items[j] == items[1..][j - 1]; }
        }
      }
    } else if items != [] {
      assert items[0] == (name, Lookup(items, name).value);
    }
  }

  /** The item of this name, if it is of the JSON type its kind asks for. */
  function Fitting(f: Field, root: Json): Option<Json> {
    var found := Lookup(Items(root), f.name);
    if found.None? then None
    else match TagOf(f.spec)
      case EnumTag => if found.value.JStr? then found else None
      case StringTag => if found.value.JStr? then found else None
      case IntegerTag => if found.value.JNum? then found else None
      case NumberTag => if found.value.JNum? then found else None
      case BooleanTag => if found.value.JBool? then found else None
      case ObjectTag => if found.value.JObj? then found else None
      case SkipTag => None
  }

  /** What stops a parse: a required member missing or of another type, an enum word nobody listed, a
      nested record that does not parse. */
  ghost predicate Stops(m: Machine, f: Field, root: Json)
    requires Sound(f.spec)
  {
    && !TagOf(f.spec).SkipTag?
    && (|| (f.required && Fitting(f, root).None?)
        || (TagOf(f.spec).EnumTag? && Fitting(f, root).Some? && Fitting(f, root).value.text !in Words(f.spec))
        || (TagOf(f.spec).ObjectTag? && Fitting(f, root).Some? && Decode(m, f.spec.fields, Fitting(f, root).value).None?))
  }

  /** The whole number next to a real on the side of zero. */
  predicate TowardsZero(d: real, x: int) {
    if d >= 0.0 then x as real <= d < (x + 1) as real else (x - 1) as real < d <= x as real
  }

  lemma CastIs(t: CInt, d: real, x: int)
    requires TowardsZero(d, x)
    ensures Cast(t, d) == if FitsInt(t, x) then x else 0
  {
    if d < 0.0 {
      assert -(x as real) <= -d < -(x as real) + 1.0;
      assert (-d).Floor == -x by { FloorIs(-d, -x); }
    } else {
      FloorIs(d, x);
    }
  }

  lemma FloorIs(d: real, x: int)
    requires x as real <= d < x as real + 1.0
    ensures d.Floor == x
  {
  }

  /** What a member holds after a parse that did not stop: what its item says, a string cut to its
      buffer, a number cut towards zero; with no fitting item it is zero and marked absent. */
  ghost predicate ReadAs(m: Machine, f: Field, root: Json, slot: Slot)
    requires Sound(f.spec)
  {
    var item := Fitting(f, root);
    if TagOf(f.spec).SkipTag? then slot == Slot(Nothing, f.required)
    else if item.None? then !f.required && slot == Slot(Zero(f.spec), false)
    else slot.has && match TagOf(f.spec)
      case EnumTag => slot.value.CEnum? && FirstWord(Words(f.spec), item.value.text, slot.value.at)
      case StringTag =>
        slot.value == CStr(if |item.value.text| < StringLen(f.spec) then item.value.text else item.value.text[..StringLen(f.spec) - 1])
      case IntegerTag =>
        slot.value.CInteger? && forall x :: TowardsZero(item.value.number, x) ==>
          slot.value.whole == if FitsInt(IntType(f.spec), x) then x else 0
      case NumberTag => slot.value == CFloat(m.narrow(item.value.number))
      case BooleanTag => slot.value == match item.value { case JBool(b) => CBool(b) case _ => CBool(false) }
      case ObjectTag => Decode(m, f.spec.fields, item.value) == Some(if slot.value.CStruct? then slot.value.slots else []) && slot.value.CStruct?
      case SkipTag => true
  }

  predicate FirstWord(words: seq<string>, text: string, at: int) {
    0 <= at < |words| && words[at] == text && forall j :: 0 <= j < at ==> words[j] != text
  }

  lemma {:induction false} ParsesFirst(words: seq<string>, text: string)
    ensures EnumParse(words, text).Some? ==> FirstWord(words, text, EnumParse(words, text).value)
    decreases |words|
  {
    if words != [] && words[0] != text {
      ParsesFirst(words[1..], text);
      if EnumParse(words[1..], text).Some? {
        var at := EnumParse(words[1..], text).value;
        forall j | 0 <= j < at + 1 ensures words[j] != text {
          if j > 0 { assert words[1..][j - 1] == words[j]; }
        }
      }
    }
  }

  lemma FieldReads(m: Machine, f: Field, root: Json)
    requires Sound(f.spec)
    ensures FromField(m, f, root).None? <==> Stops(m, f, root)
    ensures FromField(m, f, root).Some? ==> ReadAs(m, f, root, FromField(m, f, root).value)
  {
    hide Decode, Zero, Cast, EnumParse, FirstWord, TowardsZero, FitsInt, IntType, StringLen;
    var item := Fitting(f, root);
    if item.Some? {
      match TagOf(f.spec)
      case EnumTag => ParsesFirst(Words(f.spec), item.value.text);
      case IntegerTag =>
        forall x | TowardsZero(item.value.number, x)
          ensures Cast(IntType(f.spec), item.value.number) == if FitsInt(IntType(f.spec), x) then x else 0
        {
          CastIs(IntType(f.spec), item.value.number, x);
        }
      case _ =>
    }
  }

  /** What a parse promises: it fails if and only if some member stops it, and otherwise every member
      is read as its item says. */
  ghost predicate Reads(m: Machine, fields: seq<Field>, root: Json, r: Option<seq<Slot>>) {
    && (r.None? <==> exists k :: 0 <= k < |fields| && Sound(fields[k].spec) && Stops(m, fields[k], root))
    && (r.Some? ==> |r.value| == |fields|)
    && (r.Some? ==> forall k :: 0 <= k < |fields| ==> Sound(fields[k].spec) && ReadAs(m, fields[k], root, r.value[k]))
  }

  lemma DecodeReads(m: Machine, fields: seq<Field>, root: Json)
    requires AllSound(fields)
    ensures Reads(m, fields, root, Decode(m, fields, root))
  {
    hide Decode, FromField, Stops, ReadAs, Sound;
    ParseIsPerField(m, fields, root);
    forall k | 0 <= k < |fields| ensures Sound(fields[k].spec) { SoundAt(fields, k); }
    forall k | 0 <= k < |fields|
      ensures FromField(m, fields[k], root).None? <==> Stops(m, fields[k], root)
      ensures FromField(m, fields[k], root).Some? ==> ReadAs(m, fields[k], root, FromField(m, fields[k], root).value)
    {
      FieldReads(m, fields[k], root);
    }
    if k :| 0 <= k < |fields| && FromField(m, fields[k], root).None? { assert Stops(m, fields[k], root); }
  }

  // ----- what the generator picks for a property --------------------------------------------------------------

  /** c_field, by the type of the property and whether it lists words; any other type has no member. */
  lemma TagIs(s: Spec)
    ensures TagOf(s).EnumTag? <==> s.kind == "string" && s.words.Some?
    ensures TagOf(s).StringTag? <==> s.kind == "string" && s.words.None?
    ensures TagOf(s).IntegerTag? <==> s.kind == "integer"
    ensures TagOf(s).NumberTag? <==> s.kind == "number"
    ensures TagOf(s).BooleanTag? <==> s.kind == "boolean"
    ensures TagOf(s).ObjectTag? <==> s.kind == "object"
    ensures TagOf(s).SkipTag? <==> s.kind !in {"string", "integer", "number", "boolean", "object"}
  {
    assert |"string"| == 6 && |"integer"| == 7 && |"number"| == 6 && |"boolean"| == 7 && |"object"| == 6;
    assert "string"[0] == 's' && "integer"[0] == 'i' && "number"[0] == 'n' && "boolean"[0] == 'b' && "object"[0] == 'o';
  }

  /** A string as long as the property allows fits its buffer with the terminator, to the last byte:
      by its maxLength, else by its pattern, else as a uuid, else by the length for want of any; a
      limit of 0 is none. */
  lemma StringFits(s: Spec, text: string)
    ensures var limit := if s.maxLength.Some? then s.maxLength.value else if s.patternMax.Some? then s.patternMax.value
                         else if s.uuid then 36 else 0;
            (limit > 0 ==> (|text| < StringLen(s) <==> |text| <= limit)) && (limit == 0 ==> (|text| < StringLen(s) <==> |text| <= 64))
  {
  }

  /** The C integer picked is the narrowest unsigned one that holds both bounds, if there is one. */
  lemma PickedIsNarrowest(s: Spec, lo: int, hi: int)
    requires s.numbers.Some? ==> s.numbers.value != []
    requires Some(lo) == (if s.minimum.Some? then s.minimum else if s.numbers.Some? then Some(Least(s.numbers.value)) else None)
    requires Some(hi) == (if s.maximum.Some? then s.maximum else if s.numbers.Some? then Some(Most(s.numbers.value)) else None)
    ensures IntType(s).Uint8? <==> 0 <= lo && hi <= 0xFF
    ensures IntType(s).Uint16? <==> 0 <= lo && 0xFF < hi <= 0xFFFF
    ensures IntType(s).Uint32? <==> 0 <= lo && 0xFFFF < hi <= 0xFFFF_FFFF
  {
  }

  /** Least and Most are members, so the bounds of listed numbers are the tightest. */
  lemma {:induction false} LeastIsListed(xs: seq<int>)
    requires xs != []
    ensures Least(xs) in xs && Most(xs) in xs
    decreases |xs|
  {
    if |xs| > 1 { LeastIsListed(xs[1..]); }
  }

  /** The struct a receiver should hold, member by member: present where the sender had it or it is
      required, with the sender's value unless it is nested, and zero where it is absent. */
  lemma {:induction false} ReceivedIs(fields: seq<Field>, slots: seq<Slot>, k: nat)
    requires |slots| == |fields| && k < |fields| && !TagOf(fields[k].spec).SkipTag?
    ensures |ReceivedAll(fields, slots)| == |fields|
    ensures ReceivedAll(fields, slots)[k].has <==> fields[k].required || slots[k].has
    ensures ReceivedAll(fields, slots)[k].has && !TagOf(fields[k].spec).ObjectTag? ==> ReceivedAll(fields, slots)[k].value == slots[k].value
    ensures !ReceivedAll(fields, slots)[k].has ==> ReceivedAll(fields, slots)[k].value == Zero(fields[k].spec)
    decreases k
  {
    ReceivedSize(fields, slots);
    var rest := ReceivedAll(fields[1..], slots[1..]);
    assert ReceivedAll(fields, slots)[1..] == rest;
    if k > 0 { ReceivedIs(fields[1..], slots[1..], k - 1); }
  }

  lemma {:induction false} ReceivedSize(fields: seq<Field>, slots: seq<Slot>)
    requires |slots| == |fields|
    ensures |ReceivedAll(fields, slots)| == |fields|
    decreases |fields|
  {
    if fields != [] { ReceivedSize(fields[1..], slots[1..]); }
  }

  /** Zero, kind by kind. */
  lemma ZeroIs(s: Spec)
    ensures match TagOf(s)
            case EnumTag => Zero(s) == CEnum(0)
            case StringTag => Zero(s) == CStr("")
            case IntegerTag => Zero(s) == CInteger(0)
            case NumberTag => Zero(s) == CFloat(0.0)
            case BooleanTag => Zero(s) == CBool(false)
            case ObjectTag => Zero(s).CStruct? && |Zero(s).slots| == |s.fields|
            case SkipTag => true
  {
  }

  // ----- the C that fills them, step by step -------------------------------------------------------------------------

  lemma {:induction false} HoldsAt(m: Machine, fields: seq<Field>, slots: seq<Slot>, k: nat)
    requires AllSound(fields) && HoldsAll(m, fields, slots) && k < |fields|
    ensures |slots| == |fields| && Sound(fields[k].spec) && Holds(m, fields[k].spec, slots[k].value)
    ensures TagOf(fields[k].spec).ObjectTag? ==>
      && slots[k].value.CStruct? && AllSound(fields[k].spec.fields)
      && HoldsAll(m, fields[k].spec.fields, slots[k].value.slots)
    decreases k
  {
    if k > 0 { HoldsAt(m, fields[1..], slots[1..], k - 1); }
  }

  lemma EncodeNext(fields: seq<Field>, slots: seq<Slot>, k: nat)
    requires |slots| == |fields| && k < |fields|
    ensures Encode(fields[k..], slots[k..])
         == (if Present(fields[k], slots[k]) then [(fields[k].name, ToValue(fields[k].spec, slots[k].value))] else [])
          + Encode(fields[k + 1..], slots[k + 1..])
  {
    assert fields[k..][1..] == fields[k + 1..] && slots[k..][1..] == slots[k + 1..];
  }

  /** to_json, `ok` saying which allocation succeeds: the whole record if every one asked for
      did, nothing otherwise. */
  method ToJson(ghost m: Machine, fields: seq<Field>, slots: seq<Slot>, ok: nat -> bool, at: nat)
    returns (r: Option<Json>, next: nat)
    requires AllSound(fields) && HoldsAll(m, fields, slots)
    ensures next > at
    ensures r.Some? <==> forall i :: at <= i < next ==> ok(i)
    ensures r.Some? ==> r.value == JObj(Encode(fields, slots))
    decreases fields
  {
    hide Encode, Holds, HoldsAll, AllSound;
    HoldsSize(m, fields, slots);
    next := at + 1;
    if !ok(at) { return None, next; }
    var items: seq<(string, Json)> := [];
    var whole := true;
    for k := 0 to |fields|
      invariant next > at
      invariant whole <==> forall i :: at <= i < next ==> ok(i)
      invariant whole ==> items + Encode(fields[k..], slots[k..]) == Encode(fields, slots)
    {
      var f, slot := fields[k], slots[k];
      EncodeNext(fields, slots, k);
      if !Present(f, slot) { continue; }
      if TagOf(f.spec).ObjectTag? {
        HoldsAt(m, fields, slots, k);
        var inner, after := ToJson(m, f.spec.fields, slot.value.slots, ok, next);
        next := after;
        if inner.None? {
          whole := false;
        } else {
          next := next + 1;
          if ok(after) { items := items + [(f.name, inner.value)]; } else { whole := false; }
        }
      } else if whole {
        next := next + 1;
        if ok(next - 1) { items := items + [(f.name, ToValue(f.spec, slot.value))]; } else { whole := false; }
      }
    }
    if !whole { return None, next; }
    assert fields[|fields|..] == [] && slots[|slots|..] == [];
    EncodeNone();
    return Some(JObj(items)), next;
  }

  lemma EncodeNone()
    ensures Encode([], []) == []
  {
  }

  lemma DecodeNext(m: Machine, fields: seq<Field>, root: Json, k: nat)
    requires k < |fields| && AllSound(fields[k..])
    ensures Sound(fields[k].spec) && AllSound(fields[k + 1..])
    ensures var first, rest := FromField(m, fields[k], root), Decode(m, fields[k + 1..], root);
            Decode(m, fields[k..], root) == if first.Some? && rest.Some? then Some([first.value] + rest.value) else None
  {
    assert fields[k..][1..] == fields[k + 1..];
  }

  /** from_json: the struct zeroed, then each member taken in turn, false at the first that fails. */
  method FromJson(m: Machine, fields: seq<Field>, root: Json) returns (r: Option<seq<Slot>>)
    requires AllSound(fields)
    ensures r == Decode(m, fields, root)
    ensures Reads(m, fields, root, r)
  {
    hide Decode, AllSound, FromField, Reads;
    DecodeReads(m, fields, root);
    var out := ZeroSlots(fields);
    assert fields[0..] == fields;
    for k := 0 to |fields|
      invariant AllSound(fields[k..]) && |out| == |fields|
      invariant Decode(m, fields, root).Some? <==> Decode(m, fields[k..], root).Some?
      invariant Decode(m, fields, root).Some? ==> Decode(m, fields, root).value == out[..k] + Decode(m, fields[k..], root).value
    {
      DecodeNext(m, fields, root, k);
      var got := FromField(m, fields[k], root);
      if got.None? { return None; }
      ghost var before := out;
      out := out[k := got.value];
      assert out[..k + 1] == before[..k] + [got.value];
    }
    assert fields[|fields|..] == [] && out[..|fields|] == out;
    DecodeNone(m, root);
    assert Decode(m, fields, root).value == out;
    return Some(out);
  }

  lemma DecodeNone(m: Machine, root: Json)
    ensures Decode(m, [], root) == Some([])
  {
  }
}
