/** The request validator `validate(rules)`: every rule is checked against
    the JSON body, all messages are collected in rule order, and a request
    with any message is refused with one 400 error listing them. */
module Validate {
  import opened Base
  import opened Text
  import opened Json
  import opened ErrorHandler

  datatype RuleType = StringType | NumberType | ArrayType

  /** A `FieldRule`; `None` is an option the rule leaves out. */
  datatype Rule = Rule(
    field: string,
    required: bool,
    ty: Option<RuleType>,
    min: Option<int>,
    max: Option<int>,
    maxLength: Option<nat>)

  /** `req.body[field]`. */
  function BodyField(body: map<string, JsValue>, field: string): JsValue {
    if field in body then body[field] else Undefined
  }

  /** `value === undefined || value === null || value === ""`. */
  predicate Blank(v: JsValue) {
    v.Undefined? || v.Null? || v == Str("")
  }

  /** One message of the validator, before it is rendered as text. */
  datatype Complaint =
    | Required(field: string)
    | NotString(field: string)
    | NotNumber(field: string)
    | NotArray(field: string)
    | BelowMin(field: string, min: int)
    | AboveMax(field: string, max: int)
    | TooLong(field: string, maxLength: nat)

  /** The text pushed for each complaint. */
  function Message(c: Complaint): string {
    match c
    case Required(f) => f + " is required"
    case NotString(f) => f + " must be a string"
    case NotNumber(f) => f + " must be a number"
    case NotArray(f) => f + " must be an array"
    case BelowMin(f, m) => f + " must be at least " + IntText(m)
    case AboveMax(f, m) => f + " must be at most " + IntText(m)
    case TooLong(f, n) => f + " must be at most " + NatText(n) + " characters"
  }

  function Messages(cs: seq<Complaint>): (r: seq<string>)
    ensures |r| == |cs|
  {
    seq(|cs|, i requires 0 <= i < |cs| => Message(cs[i]))
  }

  /** The three type checks; a rule names at most one type. */
  function TypeErrors(rule: Rule, v: JsValue): seq<Complaint> {
    (if rule.ty == Some(StringType) && !v.Str? then [NotString(rule.field)] else [])
    + (if rule.ty == Some(NumberType) && !v.Num? then [NotNumber(rule.field)] else [])
    + (if rule.ty == Some(ArrayType) && !v.Arr? then [NotArray(rule.field)] else [])
  }

  /** `min` and `max`, checked only on a number. */
  function RangeErrors(rule: Rule, v: JsValue): seq<Complaint> {
    (if rule.min.Some? && v.Num? && DecValue(v.n) < rule.min.value as real
     then [BelowMin(rule.field, rule.min.value)] else [])
    + (if rule.max.Some? && v.Num? && DecValue(v.n) > rule.max.value as real
       then [AboveMax(rule.field, rule.max.value)] else [])
  }

  /** `maxLength`, checked only on a string, against its `length` in
      UTF-16 code units. */
  function LengthErrors(rule: Rule, v: JsValue): seq<Complaint> {
    if rule.maxLength.Some? && v.Str? && Utf16Length(v.s) > rule.maxLength.value
    then [TooLong(rule.field, rule.maxLength.value)]
    else []
  }

  /** The complaints one rule makes about the value it reads. */
  function RuleErrors(rule: Rule, v: JsValue): seq<Complaint> {
    if rule.required && Blank(v) then [Required(rule.field)]
    else if IsNullish(v) then []
    else TypeErrors(rule, v) + RangeErrors(rule, v) + LengthErrors(rule, v)
  }

  /** The check of one rule against the body. */
  function Check(body: map<string, JsValue>): Rule -> seq<Complaint> {
    (rule: Rule) => RuleErrors(rule, BodyField(body, rule.field))
  }

  /** The messages of all rules, in rule order. */
  function AllErrors(rules: seq<Rule>, body: map<string, JsValue>): seq<Complaint> {
    FlatMap(rules, Check(body))
  }

  /** The middleware: `next()` when no rule complains, else one 400 error
      whose message joins all complaints with "; ". */
  method Validate(rules: seq<Rule>, body: map<string, JsValue>) returns (r: Outcome<()>)
    ensures r == if AllErrors(rules, body) == [] then Ok(())
                 else Fail(ApiError(400, Join(Messages(AllErrors(rules, body)), "; ")))
  {
    var errors: seq<Complaint> := [];
    for i := 0 to |rules|
      invariant errors == AllErrors(rules[..i], body)
    {
      var rule := rules[i];
      var value := BodyField(body, rule.field);
      FlatMapStep(rules, i, Check(body));
      var found := RuleComplaints(rule, value);
      errors := errors + found;
    }
    assert rules[..|rules|] == rules;
    if |errors| > 0 {
      return Fail(ApiError(400, Join(Messages(errors), "; ")));
    }
    r := Ok(());
  }

  /** The body of the loop for one rule: the complaints it pushes, in the
      order of its checks. */
  method RuleComplaints(rule: Rule, value: JsValue) returns (found: seq<Complaint>)
    ensures found == RuleErrors(rule, value)
  {
    found := [];
    if rule.required && Blank(value) {
      return [Required(rule.field)];
    }
    if IsNullish(value) {
      return;
    }
    if rule.ty == Some(StringType) && !value.Str? {
      found := found + [NotString(rule.field)];
    }
    if rule.ty == Some(NumberType) && !value.Num? {
      found := found + [NotNumber(rule.field)];
    }
    if rule.ty == Some(ArrayType) && !value.Arr? {
      found := found + [NotArray(rule.field)];
    }
    assert found == TypeErrors(rule, value);
    ghost var typed := found;
    if rule.min.Some? && value.Num? && DecValue(value.n) < rule.min.value as real {
      found := found + [BelowMin(rule.field, rule.min.value)];
    }
    if rule.max.Some? && value.Num? && DecValue(value.n) > rule.max.value as real {
      found := found + [AboveMax(rule.field, rule.max.value)];
    }
    assert found == typed + RangeErrors(rule, value);
    if rule.maxLength.Some? && value.Str? && Utf16Length(value.s) > rule.maxLength.value {
      found := found + [TooLong(rule.field, rule.maxLength.value)];
    }
  }

  /** A required field that is absent, `null` or "" gets exactly one
      message, and none of its other checks run. */
  lemma RequiredBlank(rule: Rule, v: JsValue)
    requires rule.required && Blank(v)
    ensures RuleErrors(rule, v) == [Required(rule.field)]
    ensures Messages(RuleErrors(rule, v)) == [rule.field + " is required"]
  {
  }

  /** An optional field that is absent or `null` gets no message. */
  lemma OptionalAbsent(rule: Rule, v: JsValue)
    requires !rule.required && IsNullish(v)
    ensures RuleErrors(rule, v) == []
  {
  }

  /** A present value of the declared type within its bounds gets no
      message; a value of another type gets the type message. */
  lemma TypeChecks(rule: Rule, v: JsValue)
    requires !Blank(v) && !IsNullish(v)
    ensures rule.ty == Some(StringType) && !v.Str? ==> NotString(rule.field) in RuleErrors(rule, v)
    ensures rule.ty == Some(NumberType) && !v.Num? ==> NotNumber(rule.field) in RuleErrors(rule, v)
    ensures rule.ty == Some(ArrayType) && !v.Arr? ==> NotArray(rule.field) in RuleErrors(rule, v)
    ensures !v.Num? && !v.Str? ==> RuleErrors(rule, v) == TypeErrors(rule, v)
  {
  }

  /** Bounds apply by type: `min` and `max` never fire on a non-number and
      `maxLength` never fires on a non-string. */
  lemma BoundsByType(rule: Rule, v: JsValue)
    ensures !v.Num? ==> RangeErrors(rule, v) == []
    ensures !v.Str? ==> LengthErrors(rule, v) == []
    ensures (v.Num? && (rule.min.None? || DecValue(v.n) >= rule.min.value as real)
             && (rule.max.None? || DecValue(v.n) <= rule.max.value as real)) ==> RangeErrors(rule, v) == []
  {
  }

  /** No rule stops the others: the messages of two rule lists are the
      messages of each, one after the other. */
  lemma AllErrorsConcat(a: seq<Rule>, b: seq<Rule>, body: map<string, JsValue>)
    ensures AllErrors(a + b, body) == AllErrors(a, body) + AllErrors(b, body)
  {
    FlatMapConcat(a, b, Check(body));
  }

  /** A body passes exactly when every rule is satisfied on its own. */
  lemma PassesIff(rules: seq<Rule>, body: map<string, JsValue>)
    ensures AllErrors(rules, body) == [] <==>
      forall i :: 0 <= i < |rules| ==> RuleErrors(rules[i], BodyField(body, rules[i].field)) == []
  {
    FlatMapEmpty(rules, Check(body));
  }

  // ---------------------------------------------------------------------
  // The rule lists of the routes.

  /** `POST /api/products`. */
  const CreateProductRules: seq<Rule> := [
    Rule("name", true, Some(StringType), None, None, Some(200)),
    Rule("price", true, Some(NumberType), Some(0), None, None),
    Rule("category", true, Some(ArrayType), None, None, None),
    Rule("image", true, Some(StringType), None, None, None),
    Rule("description", true, Some(StringType), None, None, Some(2000))
  ]

  /** `POST /api/feedback`. */
  const FeedbackRules: seq<Rule> := [
    Rule("name", true, Some(StringType), None, None, Some(100)),
    Rule("email", true, Some(StringType), None, None, None),
    Rule("message", true, Some(StringType), None, None, Some(2000)),
    Rule("rating", true, Some(NumberType), Some(1), Some(5), None)
  ]

  /** `POST /api/categories` and `PUT /api/categories/:id`. */
  const CategoryRules: seq<Rule> := [
    Rule("name", true, Some(StringType), None, None, Some(100))
  ]

  /** The product rules with the image rule asking for what the controller
      reads: a required `images` array. */
  const CorrectedCreateProductRules: seq<Rule> := [
    Rule("name", true, Some(StringType), None, None, Some(200)),
    Rule("price", true, Some(NumberType), Some(0), None, None),
    Rule("category", true, Some(ArrayType), None, None, None),
    Rule("images", true, Some(ArrayType), None, None, None),
    Rule("description", true, Some(StringType), None, None, Some(2000))
  ]

  /** The fields of a product body that every rule list reads, well formed. */
  predicate GoodProductFields(body: map<string, JsValue>) {
    && "name" in body && body["name"].Str? && body["name"].s != "" && Utf16Length(body["name"].s) <= 200
    && "price" in body && body["price"].Num? && DecValue(body["price"].n) >= 0.0
    && "category" in body && body["category"].Arr?
    && "description" in body && body["description"].Str? && body["description"].s != ""
    && Utf16Length(body["description"].s) <= 2000
  }

  /** The create body the pin importer sends carries an `images` array and
      no `image`: the route's rules refuse it with "image is required", so
      the controller is never reached. */
  lemma ImporterPayloadRefused(body: map<string, JsValue>)
    requires GoodProductFields(body) && "image" !in body
    ensures AllErrors(CreateProductRules, body) == [Required("image")]
    ensures Messages(AllErrors(CreateProductRules, body)) == ["image is required"]
  {
    SharedRulesPass(CreateProductRules, body);
    ImageRuleMissing(body);
    OnlyFourthRuleComplains(CreateProductRules, body);
  }

  /** The required `image` rule refuses a body without `image`, with the
      message "image is required". */
  lemma ImageRuleMissing(body: map<string, JsValue>)
    requires "image" !in body
    ensures Check(body)(CreateProductRules[3]) == [Required("image")]
    ensures Messages([Required("image")]) == ["image is required"]
  {
    assert CreateProductRules[3] == Rule("image", true, Some(StringType), None, None, None);
    assert Messages([Required("image")])[0] == Message(Required("image")) == "image is required";
  }

  /** The create body of the product form carries a string `image` and no
      `images`: it passes the rules, and the controller then refuses it
      because `images` is missing. */
  lemma FormPayloadPassesRules(body: map<string, JsValue>)
    requires GoodProductFields(body) && "image" in body && body["image"].Str? && body["image"].s != ""
    requires "images" !in body
    ensures AllErrors(CreateProductRules, body) == []
    ensures BodyField(body, "images") == Undefined
  {
    SharedRulesPass(CreateProductRules, body);
    ImageRulePresent(body);
    OnlyFourthRuleComplains(CreateProductRules, body);
  }

  /** The `image` rule accepts a non-empty string. */
  lemma ImageRulePresent(body: map<string, JsValue>)
    requires "image" in body && body["image"].Str? && body["image"].s != ""
    ensures Check(body)(CreateProductRules[3]) == []
  {
    assert CreateProductRules[3] == Rule("image", true, Some(StringType), None, None, None);
  }

  /** With the corrected rules the importer's body passes. */
  lemma ImporterPayloadAccepted(body: map<string, JsValue>)
    requires GoodProductFields(body) && "images" in body && body["images"].Arr?
    ensures AllErrors(CorrectedCreateProductRules, body) == []
  {
    SharedRulesPass(CorrectedCreateProductRules, body);
    ImagesRulePresent(body);
    OnlyFourthRuleComplains(CorrectedCreateProductRules, body);
  }

  /** The corrected `images` rule accepts an array. */
  lemma ImagesRulePresent(body: map<string, JsValue>)
    requires "images" in body && body["images"].Arr?
    ensures Check(body)(CorrectedCreateProductRules[3]) == []
  {
    assert CorrectedCreateProductRules[3] == Rule("images", true, Some(ArrayType), None, None, None);
  }

  /** The five rules' messages, one rule at a time. */
  lemma CreateRulesUnfold(rules: seq<Rule>, body: map<string, JsValue>)
    requires |rules| == 5
    ensures AllErrors(rules, body) ==
      Check(body)(rules[0]) + Check(body)(rules[1]) + Check(body)(rules[2])
      + Check(body)(rules[3]) + Check(body)(rules[4])
  {
    FlatMapFive(rules, Check(body));
  }

  /** When only the fourth of five rules complains, its complaints are all
      there are. */
  lemma OnlyFourthRuleComplains(rules: seq<Rule>, body: map<string, JsValue>)
    requires |rules| == 5
    requires Check(body)(rules[0]) == [] && Check(body)(rules[1]) == []
    requires Check(body)(rules[2]) == [] && Check(body)(rules[4]) == []
    ensures AllErrors(rules, body) == Check(body)(rules[3])
  {
    CreateRulesUnfold(rules, body);
  }

  /** The name, price, category and description rules, which both product
      rule lists share, accept well-formed fields. */
  lemma SharedRulesPass(rules: seq<Rule>, body: map<string, JsValue>)
    requires rules == CreateProductRules || rules == CorrectedCreateProductRules
    requires GoodProductFields(body)
    ensures Check(body)(rules[0]) == [] && Check(body)(rules[1]) == []
    ensures Check(body)(rules[2]) == [] && Check(body)(rules[4]) == []
  {
    assert rules[0] == Rule("name", true, Some(StringType), None, None, Some(200));
    assert rules[1] == Rule("price", true, Some(NumberType), Some(0), None, None);
    assert rules[2] == Rule("category", true, Some(ArrayType), None, None, None);
    assert rules[4] == Rule("description", true, Some(StringType), None, None, Some(2000));
  }
}
