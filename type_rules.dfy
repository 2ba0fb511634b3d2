/**
 * The field-type rule resolver of the content-type builder: given a field
 * descriptor, the record of validation rules that its configuration must
 * satisfy. The universal `type` rule is merged with a shape chosen by the
 * descriptor's `type` tag.
 */
module TypeRules {
  import opened Js

  /** A field descriptor: a JavaScript object from attribute names to values. */
  type Descriptor = map<string, JsValue>

  /** The attribute under `key`; a missing key reads as undefined. */
  function Get(d: Descriptor, key: string): JsValue
  {
    if key in d then d[key] else Undefined
  }

  /** The tags the dispatch distinguishes; `Other` is the `default:` branch. */
  datatype TypeTag =
    | Media | String | Text | RichText | Json | Enumeration | Password
    | Email | Integer | Float | Decimal | Date | Boolean
    | Other

  /** The string a named tag is written as in a descriptor. */
  function TagName(t: TypeTag): string
    requires !t.Other?
  {
    match t
    case Media => "media"
    case String => "string"
    case Text => "text"
    case RichText => "richtext"
    case Json => "json"
    case Enumeration => "enumeration"
    case Password => "password"
    case Email => "email"
    case Integer => "integer"
    case Float => "float"
    case Decimal => "decimal"
    case Date => "date"
    case Boolean => "boolean"
  }

  /** The case of the dispatch that a `type` value selects. The dispatch
      compares strictly, so only a string equal to a case label selects
      that case; anything else, a missing tag included, falls to `Other`. */
  function TagOf(v: JsValue): (t: TypeTag)
    ensures !t.Other? ==> v == Str(TagName(t))
  {
    if !v.Str? then Other
    else if v.s == "media" then Media
    else if v.s == "string" then String
    else if v.s == "text" then Text
    else if v.s == "richtext" then RichText
    else if v.s == "json" then Json
    else if v.s == "enumeration" then Enumeration
    else if v.s == "password" then Password
    else if v.s == "email" then Email
    else if v.s == "integer" then Integer
    else if v.s == "float" then Float
    else if v.s == "decimal" then Decimal
    else if v.s == "date" then Date
    else if v.s == "boolean" then Boolean
    else Other
  }

  /** Every named tag is selected by its own label. */
  lemma TagNameRoundTrip(t: TypeTag)
    requires !t.Other?
    ensures TagOf(Str(TagName(t))) == t
  {
  }

  /** The abstract kinds of rule a shape may hold. */
  datatype Rule =
    | TypeRule         // a present string among the registered tags
    | BoolRule         // an optional boolean
    | StringRule       // an optional string
    | RequiredRule     // the shared `required` validator
    | UniqueRule       // the shared `unique` validator
    | MinLengthRule    // the shared minimum-length validator
    | MaxLengthRule    // the shared maximum-length validator
    | EnumRule         // a required, non-empty array of identifiers
    | EnumDefaultRule  // an optional string among the sibling `enum` values
    | NameRule         // an optional string, passing the identifier test
    | EmailRule        // an optional e-mail address
    | IntegerRule      // an optional whole number
    | NumberRule       // an optional number
    | DateRule         // an optional date

  /** The definitions the rules rely on whose code is not part of this
      model: from the builder's shared module, the registered type tags, the
      identifier test and the shared validators; from yup itself, the e-mail
      and date checks. The identifier
      test sees the raw value, because yup runs a custom test on an absent
      value too. Each validator sees its own value and the whole descriptor. */
  datatype Common = Common(
    validTypes: set<string>,
    isValidName: JsValue -> bool,
    isEmail: string -> bool,
    isDate: JsValue -> bool,
    required: (JsValue, Descriptor) -> bool,
    unique: (JsValue, Descriptor) -> bool,
    minLength: (JsValue, Descriptor) -> bool,
    maxLength: (JsValue, Descriptor) -> bool)

  /** A whole number. */
  predicate IsWhole(n: real)
  {
    n.Floor as real == n
  }

  /** An array whose every element passes `yup.string()`, which lets an
      undefined entry through, and then the identifier test, which yup runs
      on an undefined entry too. */
  predicate AllValidNames(c: Common, elems: seq<JsValue>)
  {
    forall i :: 0 <= i < |elems| ==>
      (elems[i].Undefined? || elems[i].Str?) && c.isValidName(elems[i])
  }

  /** Whether `rule` accepts the value `v` found under its key in descriptor
      `d`. A yup schema without `required()` accepts undefined, and none of
      yup's own schemas accepts null; the shared validators decide for
      themselves. */
  predicate RuleAccepts(c: Common, rule: Rule, v: JsValue, d: Descriptor)
  {
    match rule
    case TypeRule => v.Str? && v.s != "" && v.s in c.validTypes
    case BoolRule => v.Undefined? || v.Bool?
    case StringRule => v.Undefined? || v.Str?
    case RequiredRule => c.required(v, d)
    case UniqueRule => c.unique(v, d)
    case MinLengthRule => c.minLength(v, d)
    case MaxLengthRule => c.maxLength(v, d)
    case EnumRule =>
      v.Arr? && |v.elems| >= 1 && AllValidNames(c, v.elems)
    case EnumDefaultRule =>
      // resolved against the sibling `enum` at validation time
      v.Undefined? || (v.Str? && Get(d, "enum").Arr? && v in Get(d, "enum").elems)
    case NameRule =>
      // a custom test, which yup runs on an absent value too
      (v.Undefined? || v.Str?) && c.isValidName(v)
    case EmailRule => v.Undefined? || (v.Str? && c.isEmail(v.s))
    case IntegerRule => v.Undefined? || (v.Num? && IsWhole(v.n))
    case NumberRule => v.Undefined? || v.Num?
    case DateRule => v.Undefined? || (!v.Null? && c.isDate(v))
  }

  /** The attribute names a rule record may hold. */
  datatype Key =
    | TypeKey | MultipleKey | DefaultKey | RequiredKey | UniqueKey
    | MinKey | MaxKey | EnumKey | EnumNameKey

  /** The attribute a key stands for in a descriptor. */
  function KeyName(k: Key): (name: string)
    ensures k == TypeKey <==> name == "type"
  {
    match k
    case TypeKey => "type"
    case MultipleKey => "multiple"
    case DefaultKey => "default"
    case RequiredKey => "required"
    case UniqueKey => "unique"
    case MinKey => "min"
    case MaxKey => "max"
    case EnumKey => "enum"
    case EnumNameKey => "enumName"
  }

  /** The type-specific rules for a tag (`getTypeShape`). No shape has a
      `type` entry, so the merge never overrides the universal rule. */
  function Shape(t: TypeTag): (r: map<Key, Rule>)
    ensures TypeKey !in r
  {
    match t
    case Media =>
      map[MultipleKey := BoolRule, RequiredKey := RequiredRule, UniqueKey := UniqueRule]
    case String | Text | RichText =>
      map[DefaultKey := StringRule, RequiredKey := RequiredRule, UniqueKey := UniqueRule,
          MinKey := MinLengthRule, MaxKey := MaxLengthRule]
    case Json =>
      map[RequiredKey := RequiredRule, UniqueKey := UniqueRule]
    case Enumeration =>
      map[EnumKey := EnumRule, DefaultKey := EnumDefaultRule, EnumNameKey := NameRule,
          RequiredKey := RequiredRule, UniqueKey := UniqueRule]
    case Password =>
      map[RequiredKey := RequiredRule, MinKey := MinLengthRule, MaxKey := MaxLengthRule]
    case Email =>
      map[DefaultKey := EmailRule, RequiredKey := RequiredRule, UniqueKey := UniqueRule,
          MinKey := MinLengthRule, MaxKey := MaxLengthRule]
    case Integer =>
      map[DefaultKey := IntegerRule, RequiredKey := RequiredRule, UniqueKey := UniqueRule,
          MinKey := IntegerRule, MaxKey := IntegerRule]
    case Float | Decimal =>
      map[DefaultKey := NumberRule, RequiredKey := RequiredRule, UniqueKey := UniqueRule,
          MinKey := NumberRule, MaxKey := NumberRule]
    case Date =>
      map[DefaultKey := DateRule, RequiredKey := RequiredRule, UniqueKey := UniqueRule]
    case Boolean =>
      map[DefaultKey := BoolRule, RequiredKey := RequiredRule, UniqueKey := UniqueRule]
    case Other =>
      map[]
  }

  /** Every named tag, and no other, carries the shared `required`
      validator. */
  lemma NamedTagsRequired(t: TypeTag)
    ensures RequiredKey in Shape(t) <==> !t.Other?
    ensures RequiredKey in Shape(t) ==> Shape(t)[RequiredKey] == RequiredRule
  {
  }

  /** The tag a descriptor's `type` attribute selects. */
  function TagOfDescriptor(d: Descriptor): TypeTag
  {
    TagOf(Get(d, "type"))
  }

  /** The exported resolver: the `type` rule merged with the shape of the
      descriptor's tag. It is total over object descriptors, and the
      `type` rule is always there. */
  function Resolve(d: Descriptor): (r: map<Key, Rule>)
    ensures TypeKey in r && r[TypeKey] == TypeRule
    ensures r.Keys == {TypeKey} + Shape(TagOfDescriptor(d)).Keys
    ensures forall k :: k in r && k != TypeKey ==> r[k] == Shape(TagOfDescriptor(d))[k]
  {
    map[TypeKey := TypeRule] + Shape(TagOfDescriptor(d))
  }

  /** A descriptor passes the resolved rules when every rule accepts the value
      under its attribute. */
  predicate Accepts(c: Common, d: Descriptor)
  {
    AcceptsRules(c, Resolve(d), d)
  }

  /** Every rule of a record accepts the value under its attribute. */
  predicate AcceptsRules(c: Common, rules: map<Key, Rule>, d: Descriptor)
  {
    forall k :: k in rules ==> RuleAccepts(c, rules[k], Get(d, KeyName(k)), d)
  }

  /** Accepting a descriptor is passing the universal `type` rule and every
      rule of its tag's shape. */
  lemma {:induction false} AcceptsIsMerge(c: Common, d: Descriptor)
    ensures Accepts(c, d) <==>
              RuleAccepts(c, TypeRule, Get(d, "type"), d) &&
              forall k :: k in Shape(TagOfDescriptor(d)) ==>
                RuleAccepts(c, Shape(TagOfDescriptor(d))[k], Get(d, KeyName(k)), d)
  {
    var shape := Shape(TagOfDescriptor(d));
    var rules := Resolve(d);
    if Accepts(c, d) {
      assert RuleAccepts(c, rules[TypeKey], Get(d, KeyName(TypeKey)), d);
      forall k | k in shape
        ensures RuleAccepts(c, shape[k], Get(d, KeyName(k)), d)
      {
        assert k in rules && rules[k] == shape[k];
      }
    } else {
      var k :| k in rules && !RuleAccepts(c, rules[k], Get(d, KeyName(k)), d);
      if k != TypeKey {
        assert k in shape && rules[k] == shape[k];
      }
    }
  }

  /** What each rule makes of an absent and of a null value: the required
      schemas refuse absence, the optional ones accept it, the identifier
      test decides for `enumName`, and yup's own schemas refuse null. */
  lemma RuleAcceptsAbsentOrNull(c: Common, rule: Rule, d: Descriptor)
    ensures rule.TypeRule? || rule.EnumRule? ==> !RuleAccepts(c, rule, Undefined, d)
    ensures rule.BoolRule? || rule.StringRule? || rule.EnumDefaultRule? || rule.EmailRule? ||
            rule.IntegerRule? || rule.NumberRule? || rule.DateRule?
            ==> RuleAccepts(c, rule, Undefined, d)
    ensures rule.NameRule? ==> (RuleAccepts(c, rule, Undefined, d) <==> c.isValidName(Undefined))
    ensures !(rule.RequiredRule? || rule.UniqueRule? || rule.MinLengthRule? || rule.MaxLengthRule?)
            ==> !RuleAccepts(c, rule, Null, d)
  {
  }

  /** The key set of the rules resolved for a tag. */
  function KeysFor(t: TypeTag): set<Key>
  {
    {TypeKey} + Shape(t).Keys
  }

  lemma ResolveKeys(d: Descriptor)
    ensures Resolve(d).Keys == KeysFor(TagOfDescriptor(d))
  {
  }

  // ---------------------------------------------------------------------
  // Properties of the resolver

  /** The rules depend on nothing but the `type` attribute. */
  lemma ResolveDependsOnlyOnType(d1: Descriptor, d2: Descriptor)
    requires Get(d1, "type") == Get(d2, "type")
    ensures Resolve(d1) == Resolve(d2)
  {
  }

  /** An accepted descriptor names a registered, non-empty type tag. */
  lemma {:induction false} AcceptedTypeIsRegistered(c: Common, d: Descriptor)
    requires Accepts(c, d)
    ensures Get(d, "type").Str? && Get(d, "type").s != "" && Get(d, "type").s in c.validTypes
  {
    assert TypeKey in Resolve(d);
  }

  /** A descriptor whose type is missing or not a string fails the `type` rule. */
  lemma {:induction false} MissingTypeRejected(c: Common, d: Descriptor)
    requires !Get(d, "type").Str?
    ensures !Accepts(c, d)
  {
    assert TypeKey in Resolve(d);
  }

  /** Any tag outside the switch resolves to the `type` rule alone. */
  lemma UnlistedTagOnlyType(d: Descriptor)
    requires TagOfDescriptor(d) == Other
    ensures Resolve(d) == map[TypeKey := TypeRule]
  {
  }

  /** A string that is no case label is an unlisted tag. */
  lemma {:induction false} UnknownLabelIsOther(s: string)
    requires forall t: TypeTag :: !t.Other? ==> s != TagName(t)
    ensures TagOf(Str(s)) == Other
  {
  }

  /** `string`, `text` and `richtext` share one shape. */
  lemma TextualTagsShareShape()
    ensures Shape(String) == Shape(Text) == Shape(RichText)
    ensures KeysFor(String) == {TypeKey, DefaultKey, RequiredKey, UniqueKey, MinKey, MaxKey}
    ensures Shape(String)[DefaultKey] == StringRule
  {
  }

  /** `float` and `decimal` share one shape: numeric default and bounds. */
  lemma FloatDecimalShareShape()
    ensures Shape(Float) == Shape(Decimal)
    ensures KeysFor(Float) == {TypeKey, DefaultKey, RequiredKey, UniqueKey, MinKey, MaxKey}
    ensures Shape(Float)[DefaultKey] == NumberRule
    ensures Shape(Float)[MinKey] == NumberRule && Shape(Float)[MaxKey] == NumberRule
  {
  }

  /** `password` has neither a default nor a uniqueness rule. */
  lemma PasswordKeys()
    ensures KeysFor(Password) == {TypeKey, RequiredKey, MinKey, MaxKey}
    ensures DefaultKey !in KeysFor(Password) && UniqueKey !in KeysFor(Password)
  {
  }

  /** `media` has no default: a multiplicity flag and the shared validators. */
  lemma MediaKeys()
    ensures KeysFor(Media) == {TypeKey, MultipleKey, RequiredKey, UniqueKey}
    ensures DefaultKey !in KeysFor(Media) && Shape(Media)[MultipleKey] == BoolRule
  {
  }

  /** `json` carries only the shared validators. */
  lemma JsonKeys()
    ensures KeysFor(Json) == {TypeKey, RequiredKey, UniqueKey}
  {
  }

  /** `enumeration` carries its values, a default, a name and the validators. */
  lemma EnumerationKeys()
    ensures KeysFor(Enumeration) == {TypeKey, EnumKey, DefaultKey, EnumNameKey, RequiredKey, UniqueKey}
  {
  }

  /** `email` is a string shape whose default must be an e-mail address. */
  lemma EmailKeys()
    ensures KeysFor(Email) == {TypeKey, DefaultKey, RequiredKey, UniqueKey, MinKey, MaxKey}
    ensures Shape(Email)[DefaultKey] == EmailRule
  {
  }

  /** `date` and `boolean` carry a typed default and the validators. */
  lemma DateBooleanKeys()
    ensures KeysFor(Date) == {TypeKey, DefaultKey, RequiredKey, UniqueKey}
    ensures Shape(Date)[DefaultKey] == DateRule
    ensures KeysFor(Boolean) == {TypeKey, DefaultKey, RequiredKey, UniqueKey}
    ensures Shape(Boolean)[DefaultKey] == BoolRule
  {
  }

  /** The merged record of an `enumeration` descriptor, written out. */
  function EnumerationRecord(): map<Key, Rule>
  {
    map[TypeKey := TypeRule, EnumKey := EnumRule, DefaultKey := EnumDefaultRule,
        EnumNameKey := NameRule, RequiredKey := RequiredRule, UniqueKey := UniqueRule]
  }

  /** An `enumeration` descriptor resolves to that record. */
  lemma ResolveEnumeration(d: Descriptor)
    requires TagOfDescriptor(d) == Enumeration
    ensures Resolve(d) == EnumerationRecord()
  {
    assert Resolve(d) == map[TypeKey := TypeRule] + Shape(Enumeration);
  }

  lemma {:induction false} EnumerationRecordAccepts(c: Common, d: Descriptor)
    ensures AcceptsRules(c, EnumerationRecord(), d) <==>
              RuleAccepts(c, TypeRule, Get(d, "type"), d) &&
              RuleAccepts(c, EnumRule, Get(d, "enum"), d) &&
              RuleAccepts(c, EnumDefaultRule, Get(d, "default"), d) &&
              RuleAccepts(c, NameRule, Get(d, "enumName"), d) &&
              RuleAccepts(c, RequiredRule, Get(d, "required"), d) &&
              RuleAccepts(c, UniqueRule, Get(d, "unique"), d)
  {
    var rules := EnumerationRecord();
    if AcceptsRules(c, rules, d) {
      assert RuleAccepts(c, rules[TypeKey], Get(d, KeyName(TypeKey)), d);
      assert RuleAccepts(c, rules[EnumKey], Get(d, KeyName(EnumKey)), d);
      assert RuleAccepts(c, rules[DefaultKey], Get(d, KeyName(DefaultKey)), d);
      assert RuleAccepts(c, rules[EnumNameKey], Get(d, KeyName(EnumNameKey)), d);
      assert RuleAccepts(c, rules[RequiredKey], Get(d, KeyName(RequiredKey)), d);
      assert RuleAccepts(c, rules[UniqueKey], Get(d, KeyName(UniqueKey)), d);
    }
  }

  /** An `enumeration` descriptor passes exactly when each of its six rules
      accepts the value under its attribute. */
  lemma {:induction false} EnumerationAccepts(c: Common, d: Descriptor)
    requires TagOfDescriptor(d) == Enumeration
    ensures Accepts(c, d) <==>
              RuleAccepts(c, TypeRule, Get(d, "type"), d) &&
              RuleAccepts(c, EnumRule, Get(d, "enum"), d) &&
              RuleAccepts(c, EnumDefaultRule, Get(d, "default"), d) &&
              RuleAccepts(c, NameRule, Get(d, "enumName"), d) &&
              RuleAccepts(c, RequiredRule, Get(d, "required"), d) &&
              RuleAccepts(c, UniqueRule, Get(d, "unique"), d)
  {
    ResolveEnumeration(d);
    EnumerationRecordAccepts(c, d);
  }

  /** For an accepted `enumeration` field, `enum` is a non-empty array whose
      entries are strings or undefined and pass the identifier test, and
      `enumName` is absent or a string and passes it too. */
  lemma {:induction false} EnumerationValuesValid(c: Common, d: Descriptor)
    requires TagOfDescriptor(d) == Enumeration
    requires Accepts(c, d)
    ensures Get(d, "enum").Arr? && |Get(d, "enum").elems| >= 1
    ensures forall i :: 0 <= i < |Get(d, "enum").elems| ==>
              (Get(d, "enum").elems[i].Undefined? || Get(d, "enum").elems[i].Str?) &&
              c.isValidName(Get(d, "enum").elems[i])
    ensures (Get(d, "enumName").Undefined? || Get(d, "enumName").Str?) &&
            c.isValidName(Get(d, "enumName"))
  {
    EnumerationAccepts(c, d);
  }

  /** For an accepted `enumeration` field, a present default is one of the
      same descriptor's `enum` values. */
  lemma {:induction false} EnumerationDefaultIsMember(c: Common, d: Descriptor)
    requires TagOfDescriptor(d) == Enumeration
    requires Accepts(c, d)
    ensures Get(d, "default").Undefined? ||
            (Get(d, "default").Str? && Get(d, "enum").Arr? &&
             Get(d, "default") in Get(d, "enum").elems)
  {
    EnumerationAccepts(c, d);
  }

  /** For an `enumeration` field, a string default outside `enum` makes the
      whole descriptor fail, whatever the other attributes are. */
  lemma {:induction false} EnumerationDefaultOutsideRejected(c: Common, d: Descriptor)
    requires TagOfDescriptor(d) == Enumeration
    requires Get(d, "default").Str?
    requires Get(d, "enum").Arr? && Get(d, "default") !in Get(d, "enum").elems
    ensures !Accepts(c, d)
  {
    EnumerationAccepts(c, d);
  }

  /** The merged record of an `integer` descriptor, written out. */
  function IntegerRecord(): map<Key, Rule>
  {
    map[TypeKey := TypeRule, DefaultKey := IntegerRule, RequiredKey := RequiredRule,
        UniqueKey := UniqueRule, MinKey := IntegerRule, MaxKey := IntegerRule]
  }

  /** An `integer` descriptor resolves to that record. */
  lemma ResolveInteger(d: Descriptor)
    requires TagOfDescriptor(d) == Integer
    ensures Resolve(d) == IntegerRecord()
  {
    assert Resolve(d) == map[TypeKey := TypeRule] + Shape(Integer);
  }

  /** For an accepted `integer` field, `default`, `min` and `max` are absent
      or whole numbers. */
  lemma {:induction false} IntegerBoundsWhole(c: Common, d: Descriptor)
    requires TagOfDescriptor(d) == Integer
    requires Accepts(c, d)
    ensures forall k :: k in {DefaultKey, MinKey, MaxKey} ==>
              Get(d, KeyName(k)).Undefined? ||
              (Get(d, KeyName(k)).Num? && IsWhole(Get(d, KeyName(k)).n))
  {
    ResolveInteger(d);
    var rules := IntegerRecord();
    assert rules[DefaultKey] == IntegerRule;
    assert rules[MinKey] == IntegerRule;
    assert rules[MaxKey] == IntegerRule;
  }

  /** A fractional `min` is refused for an `integer` field. */
  lemma {:induction false} IntegerRejectsFraction(c: Common, d: Descriptor)
    requires TagOfDescriptor(d) == Integer
    requires Get(d, "min").Num? && !IsWhole(Get(d, "min").n)
    ensures !Accepts(c, d)
  {
    ResolveInteger(d);
    assert !RuleAccepts(c, IntegerRecord()[MinKey], Get(d, KeyName(MinKey)), d);
  }

  /** A descriptor whose `type` is the string "string" has that tag. */
  lemma StringLabel(d: Descriptor)
    requires Get(d, "type") == Str("string")
    ensures TagOfDescriptor(d) == String
  {
    TagNameRoundTrip(String);
  }

  /** The merged record of a `string` descriptor, written out. */
  function StringRecord(): map<Key, Rule>
  {
    map[TypeKey := TypeRule, DefaultKey := StringRule, RequiredKey := RequiredRule,
        UniqueKey := UniqueRule, MinKey := MinLengthRule, MaxKey := MaxLengthRule]
  }

  /** A `string` descriptor resolves to that record. */
  lemma ResolveString(d: Descriptor)
    requires TagOfDescriptor(d) == String
    ensures Resolve(d) == StringRecord()
  {
    assert Resolve(d) == map[TypeKey := TypeRule] + Shape(String);
  }

  /** Nothing in the string shape bounds `default` by `max`: `default` is a
      plain string and the shared length validator judges the `max`
      attribute itself, so a six-character default with `max = 2` passes
      whenever the shared validators do. */
  lemma {:induction false} StringDefaultLengthUnchecked(c: Common, d: Descriptor)
    requires "string" in c.validTypes
    requires Get(d, "type") == Str("string")
    requires Get(d, "default") == Str("abcdef") && Get(d, "max") == Num(2.0)
    requires c.required(Get(d, "required"), d) && c.unique(Get(d, "unique"), d)
    requires c.minLength(Get(d, "min"), d) && c.maxLength(Get(d, "max"), d)
    ensures Accepts(c, d)
  {
    StringLabel(d);
    ResolveString(d);
    var rules := StringRecord();
    assert RuleAccepts(c, rules[TypeKey], Get(d, KeyName(TypeKey)), d);
    assert RuleAccepts(c, rules[DefaultKey], Get(d, KeyName(DefaultKey)), d);
    assert RuleAccepts(c, rules[RequiredKey], Get(d, KeyName(RequiredKey)), d);
    assert RuleAccepts(c, rules[UniqueKey], Get(d, KeyName(UniqueKey)), d);
    assert RuleAccepts(c, rules[MinKey], Get(d, KeyName(MinKey)), d);
    assert RuleAccepts(c, rules[MaxKey], Get(d, KeyName(MaxKey)), d);
    assert AcceptsRules(c, rules, d);
  }

  /** A descriptor whose `type` is the string "enumeration" has that tag. */
  lemma EnumerationLabel(d: Descriptor)
    requires Get(d, "type") == Str("enumeration")
    ensures TagOfDescriptor(d) == Enumeration
  {
    TagNameRoundTrip(Enumeration);
  }

  /** The worked example of an enumeration, accepted side: a descriptor of
      type enumeration with `enum = ["a", "b"]`, default "a" and no
      `enumName` passes when the shared validators do. */
  lemma {:induction false} EnumerationExampleAccepted(c: Common, d: Descriptor)
    requires "enumeration" in c.validTypes
    requires c.isValidName(Str("a")) && c.isValidName(Str("b")) && c.isValidName(Undefined)
    requires c.required(Get(d, "required"), d) && c.unique(Get(d, "unique"), d)
    requires Get(d, "type") == Str("enumeration")
    requires Get(d, "enum") == Arr([Str("a"), Str("b")])
    requires Get(d, "default") == Str("a")
    requires Get(d, "enumName") == Undefined
    ensures Accepts(c, d)
  {
    EnumerationLabel(d);
    assert RuleAccepts(c, TypeRule, Get(d, "type"), d);
    assert AllValidNames(c, [Str("a"), Str("b")]);
    assert RuleAccepts(c, EnumRule, Get(d, "enum"), d);
    assert Str("a") in [Str("a"), Str("b")];
    assert RuleAccepts(c, EnumDefaultRule, Get(d, "default"), d);
    assert RuleAccepts(c, NameRule, Get(d, "enumName"), d);
    EnumerationAccepts(c, d);
  }

  /** The worked example of an enumeration, refused side: with
      `enum = ["a", "b"]` the default "c" is refused. */
  lemma {:induction false} EnumerationExampleRefused(c: Common, d: Descriptor)
    requires Get(d, "type") == Str("enumeration")
    requires Get(d, "enum") == Arr([Str("a"), Str("b")])
    requires Get(d, "default") == Str("c")
    ensures !Accepts(c, d)
  {
    EnumerationLabel(d);
    assert Str("c") != Str("a") && Str("c") != Str("b");
    EnumerationDefaultOutsideRejected(c, d);
  }
}
