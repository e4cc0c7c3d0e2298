/** The public feedback form: field validation on blur and on submit, the
    error map, and the body it posts. */
module FeedbackPage {
  import opened Base
  import opened Text
  import opened Json
  import opened ClientForms
  import Validate

  datatype Field = NameField | EmailField | MessageField | RatingField | CategoryField

  /** The keys of `formData`, in declaration order. */
  const Fields: seq<Field> := [NameField, EmailField, MessageField, RatingField, CategoryField]

  /** `formData`; the rating is the number picked in the star selector. */
  datatype FormData = FormData(name: string, email: string, message: string, rating: int, category: string)

  const InitialForm := FormData("", "", "", 5, "General")

  function TextOf(form: FormData, field: Field): string {
    match field
    case NameField => form.name
    case EmailField => form.email
    case MessageField => form.message
    case RatingField => IntText(form.rating)
    case CategoryField => form.category
  }

  /** A character of the class `[^\s@]`. */
  predicate Plain(c: char) {
    !IsJsSpace(c) && c != '@'
  }

  /** The characters at positions `a` to `b - 1` are all of the class
      `[^\s@]`. */
  predicate AllPlain(s: string, a: int, b: int)
    requires 0 <= a <= b <= |s|
  {
    forall k :: a <= k < b ==> Plain(s[k])
  }

  /** The characters at positions `a` to `b - 1` are all of the class `\S`. */
  predicate AllVisible(s: string, a: int, b: int)
    requires 0 <= a <= b <= |s|
  {
    forall k :: a <= k < b ==> !IsJsSpace(s[k])
  }

  /** The strings of the page's pattern `^[^\s@]+@[^\s@]+\.[^\s@]+$`,
      split at the '@' (position `i`) and at a '.' (position `j`). */
  ghost predicate EmailSplit(s: string, i: int, j: int) {
    && 0 < i && i + 1 < j < |s| - 1 && s[i] == '@' && s[j] == '.'
    && AllPlain(s, 0, i) && AllPlain(s, i + 1, j) && AllPlain(s, j + 1, |s|)
  }

  /** The language of the page's pattern. */
  ghost predicate MatchesEmailPattern(s: string) {
    exists i, j :: EmailSplit(s, i, j)
  }

  /** The language of the server's `^\S+@\S+\.\S+$`. */
  ghost predicate MatchesServerPattern(s: string) {
    exists i, j :: 0 < i && i + 1 < j < |s| - 1 && s[i] == '@' && s[j] == '.'
      && AllVisible(s, 0, i) && AllVisible(s, i + 1, j) && AllVisible(s, j + 1, |s|)
  }

  /** Every character from position `a` on is of the class `[^\s@]`,
      checked one character after the other. */
  predicate PlainFrom(s: string, a: nat)
    decreases |s| - a
  {
    a >= |s| || (Plain(s[a]) && PlainFrom(s, a + 1))
  }

  /** Some position from `a` to `b - 1` holds a '.'. */
  predicate DotIn(s: string, a: nat, b: nat)
    requires b <= |s|
    decreases b - a
  {
    a < b && (s[a] == '.' || DotIn(s, a + 1, b))
  }

  lemma {:induction false} PlainFromSpec(s: string, a: nat)
    requires a <= |s|
    ensures PlainFrom(s, a) <==> AllPlain(s, a, |s|)
    decreases |s| - a
  {
    if a < |s| {
      PlainFromSpec(s, a + 1);
    }
  }

  lemma {:induction false} DotInSpec(s: string, a: nat, b: nat)
    requires b <= |s|
    ensures DotIn(s, a, b) <==> exists k :: a <= k < b && s[k] == '.'
    decreases b - a
  {
    if a < b {
      DotInSpec(s, a + 1, b);
      if DotIn(s, a + 1, b) {
        var k :| a + 1 <= k < b && s[k] == '.';
        assert a <= k < b && s[k] == '.';
      }
    }
  }

  /** The email test: one '@' after a non-empty local part, and a '.'
      strictly inside the rest, with no white space anywhere. */
  predicate IsEmail(s: string) {
    && '@' in s
    && var i := IndexOf(s, '@');
    && 0 < i && i + 4 <= |s|
    && AllPlain(s, 0, i) && PlainFrom(s, i + 1) && DotIn(s, i + 2, |s| - 1)
  }

  /** An accepted address splits as the pattern requires. */
  lemma IsEmailSound(s: string) returns (i: int, j: int)
    requires IsEmail(s)
    ensures EmailSplit(s, i, j)
  {
    i := IndexOf(s, '@');
    PlainFromSpec(s, i + 1);
    DotInSpec(s, i + 2, |s| - 1);
    j :| i + 2 <= j < |s| - 1 && s[j] == '.';
  }

  /** An address that splits as the pattern requires is accepted. */
  lemma IsEmailComplete(s: string, i: int, j: int)
    requires EmailSplit(s, i, j)
    ensures IsEmail(s)
  {
    var k := IndexOf(s, '@');
    assert k == i;
    PlainFromSpec(s, i + 1);
    DotInSpec(s, i + 2, |s| - 1);
    assert i + 2 <= j < |s| - 1 && s[j] == '.';
  }

  /** `IsEmail` accepts exactly the strings the page's pattern matches. */
  lemma IsEmailIff(s: string)
    ensures IsEmail(s) <==> MatchesEmailPattern(s)
  {
    if IsEmail(s) {
      var i, j := IsEmailSound(s);
    }
    if MatchesEmailPattern(s) {
      var i, j :| EmailSplit(s, i, j);
      IsEmailComplete(s, i, j);
    }
  }

  /** Every address the page accepts also satisfies the server's pattern
      once the server has trimmed and lower-cased it. */
  lemma EmailAcceptedByServer(s: string)
    requires IsEmail(s)
    ensures MatchesServerPattern(Lower(Trim(s)))
  {
    var i, j := IsEmailSound(s);
    assert Plain(s[0]) && Plain(s[|s| - 1]);
    TrimOfTrimmed(s);
    var t := Lower(s);
    assert t[i] == '@' && t[j] == '.';
    assert AllVisible(t, 0, i) && AllVisible(t, i + 1, j) && AllVisible(t, j + 1, |t|);
  }

  /** `validateField(name, value)`: "" when the field is acceptable. */
  function ValidateField(field: Field, value: string): string {
    match field
    case NameField =>
      if Trim(value) == "" then "Name is required"
      else if Utf16Length(Trim(value)) < 2 then "Name must be at least 2 characters"
      else ""
    case EmailField =>
      if Trim(value) == "" then "Email is required"
      else if !IsEmail(value) then "Please enter a valid email address"
      else ""
    case MessageField =>
      if Trim(value) == "" then "Message is required"
      else if Utf16Length(Trim(value)) < 10 then "Write at least 10 characters"
      else ""
    case RatingField => ""
    case CategoryField => ""
  }

  /** What a field accepts: a trimmed name of two UTF-16 code units or
      more, a non-blank address the email test accepts, a trimmed message
      of ten or more; rating and category are not checked. */
  lemma ValidateFieldSpec(field: Field, value: string)
    ensures field == NameField ==> (ValidateField(field, value) == "" <==> Utf16Length(Trim(value)) >= 2)
    ensures field == EmailField ==> (ValidateField(field, value) == "" <==> !IsBlank(value) && IsEmail(value))
    ensures field == MessageField ==> (ValidateField(field, value) == "" <==> Utf16Length(Trim(value)) >= 10)
    ensures field == RatingField || field == CategoryField ==> ValidateField(field, value) == ""
  {
  }

  /** The lengths are JavaScript's: a one-character name passes exactly
      when the character lies outside the Basic Multilingual Plane, where
      it takes two code units. */
  lemma SingleCharacterName(c: char)
    requires !IsJsSpace(c)
    ensures ValidateField(NameField, [c]) == "" <==> c as int >= 0x10000
  {
    TrimOfTrimmed([c]);
    assert [c][..0] == [];
    assert Utf16Length([c]) == Utf16Units(c);
  }

  /** `validateField` applied to the form's value of each field. */
  function Checker(form: FormData): Field -> string {
    (f: Field) => ValidateField(f, TextOf(form, f))
  }

  /** The error map built over `keys`, one key after the other. */
  function ErrorsOf(keys: seq<Field>, check: Field -> string): map<Field, string> {
    if keys == [] then map[]
    else
      var before := ErrorsOf(keys[..|keys| - 1], check);
      var key := keys[|keys| - 1];
      if check(key) != "" then before[key := check(key)] else before
  }

  lemma ErrorsOfNext(keys: seq<Field>, check: Field -> string, i: nat)
    requires i < |keys|
    ensures ErrorsOf(keys[..i + 1], check) ==
      var before := ErrorsOf(keys[..i], check);
      if check(keys[i]) != "" then before[keys[i] := check(keys[i])] else before
  {
    assert keys[..i + 1][..i] == keys[..i];
  }

  /** The error map of a final validation. */
  function FormErrors(form: FormData): map<Field, string> {
    ErrorsOf(Fields, Checker(form))
  }

  lemma {:induction false} ErrorsOfSpec(keys: seq<Field>, check: Field -> string, f: Field)
    ensures f in ErrorsOf(keys, check) <==> f in keys && check(f) != ""
    ensures f in ErrorsOf(keys, check) ==> ErrorsOf(keys, check)[f] == check(f)
  {
    if keys != [] {
      ErrorsOfSpec(keys[..|keys| - 1], check, f);
      assert keys == keys[..|keys| - 1] + [keys[|keys| - 1]];
    }
  }

  /** The final validation has an entry for exactly the failing fields,
      holding each one's message. */
  lemma FormErrorsSpec(form: FormData, f: Field)
    ensures f in FormErrors(form) <==> ValidateField(f, TextOf(form, f)) != ""
    ensures f in FormErrors(form) ==> FormErrors(form)[f] == ValidateField(f, TextOf(form, f))
  {
    ErrorsOfSpec(Fields, Checker(form), f);
  }

  /** What `validateField` says about a form whose text fields are blank. */
  lemma BlankChecks(form: FormData)
    requires IsBlank(form.name) && IsBlank(form.email) && IsBlank(form.message)
    ensures Checker(form)(NameField) == "Name is required"
    ensures Checker(form)(EmailField) == "Email is required"
    ensures Checker(form)(MessageField) == "Message is required"
    ensures Checker(form)(RatingField) == "" && Checker(form)(CategoryField) == ""
  {
  }

  /** A check that fails exactly the three text fields yields a map of
      those three keys. */
  lemma TextFieldsFail(check: Field -> string)
    requires check(NameField) != "" && check(EmailField) != "" && check(MessageField) != ""
    requires check(RatingField) == "" && check(CategoryField) == ""
    ensures ErrorsOf(Fields, check) ==
      map[NameField := check(NameField), EmailField := check(EmailField), MessageField := check(MessageField)]
  {
    var errors := ErrorsOf(Fields, check);
    var expected := map[NameField := check(NameField), EmailField := check(EmailField), MessageField := check(MessageField)];
    forall f ensures (f in errors <==> f in expected) && (f in errors ==> errors[f] == expected[f]) {
      ErrorsOfSpec(Fields, check, f);
    }
  }

  /** Submitting a form whose text fields are blank, as the untouched form's
      are, reports exactly the three required fields. */
  lemma BlankFormErrors(form: FormData)
    requires IsBlank(form.name) && IsBlank(form.email) && IsBlank(form.message)
    ensures FormErrors(form) == map[
      NameField := "Name is required",
      EmailField := "Email is required",
      MessageField := "Message is required"]
  {
    BlankChecks(form);
    TextFieldsFail(Checker(form));
  }

  /** Submitting the untouched form reports the three required fields. */
  lemma InitialFormErrors()
    ensures FormErrors(InitialForm) == map[
      NameField := "Name is required",
      EmailField := "Email is required",
      MessageField := "Message is required"]
  {
    BlankFormErrors(InitialForm);
  }

  /** The body posted by `api.createFeedback`. */
  function Body(form: FormData): map<string, JsValue> {
    map[
      "name" := Str(form.name),
      "email" := Str(form.email),
      "message" := Str(form.message),
      "rating" := IntNum(form.rating),
      "category" := Str(form.category)]
  }

  lemma FeedbackRulesUnfold(body: map<string, JsValue>)
    ensures Validate.AllErrors(Validate.FeedbackRules, body) ==
      Validate.Check(body)(Validate.FeedbackRules[0]) + Validate.Check(body)(Validate.FeedbackRules[1])
      + Validate.Check(body)(Validate.FeedbackRules[2]) + Validate.Check(body)(Validate.FeedbackRules[3])
  {
    FlatMapFour(Validate.FeedbackRules, Validate.Check(body));
  }

  /** A form with no errors has a trimmed name of two code units or more,
      an address the email test accepts and a trimmed message of ten or
      more. */
  lemma NoErrorsChecksPass(form: FormData)
    requires FormErrors(form) == map[]
    ensures Utf16Length(Trim(form.name)) >= 2 && IsEmail(form.email) && Utf16Length(Trim(form.message)) >= 10
  {
    var check := Checker(form);
    ErrorsOfSpec(Fields, check, NameField);
    ErrorsOfSpec(Fields, check, EmailField);
    ErrorsOfSpec(Fields, check, MessageField);
    ValidateFieldSpec(NameField, form.name);
    ValidateFieldSpec(EmailField, form.email);
    ValidateFieldSpec(MessageField, form.message);
  }

  /** The route's rules on a posted body with non-empty texts and a rating
      in range: only a name over 100 characters is refused. */
  lemma BodyMeetsRules(form: FormData)
    requires form.name != "" && form.email != "" && form.message != ""
    requires 1 <= form.rating <= 5 && Utf16Length(form.message) <= 2000
    ensures Utf16Length(form.name) <= 100 ==> Validate.AllErrors(Validate.FeedbackRules, Body(form)) == []
    ensures Utf16Length(form.name) > 100 ==>
      Validate.AllErrors(Validate.FeedbackRules, Body(form)) == [Validate.TooLong("name", 100)]
  {
    FeedbackRulesUnfold(Body(form));
    NameRuleResult(form);
    OtherRulesPass(form);
  }

  /** The name rule complains only of a name over one hundred code units. */
  lemma NameRuleResult(form: FormData)
    requires form.name != ""
    ensures Validate.Check(Body(form))(Validate.FeedbackRules[0]) ==
      if Utf16Length(form.name) <= 100 then [] else [Validate.TooLong("name", 100)]
  {
  }

  /** The email, message and rating rules accept a form with an address, a
      message within two thousand code units and a rating from one to five. */
  lemma OtherRulesPass(form: FormData)
    requires form.email != "" && form.message != ""
    requires 1 <= form.rating <= 5 && Utf16Length(form.message) <= 2000
    ensures Validate.Check(Body(form))(Validate.FeedbackRules[1]) == []
    ensures Validate.Check(Body(form))(Validate.FeedbackRules[2]) == []
    ensures Validate.Check(Body(form))(Validate.FeedbackRules[3]) == []
  {
    RatingRulePasses(form.rating);
  }

  /** The rating rule accepts every rating from one to five. */
  lemma RatingRulePasses(rating: int)
    requires 1 <= rating <= 5
    ensures Validate.RuleErrors(Validate.FeedbackRules[3], IntNum(rating)) == []
  {
    assert DecValue(Dec(rating, 0)) == rating as real;
  }

  /** A form the page accepts passes the route's rules when its name and
      message are within the server's lengths; a longer name, which the
      page does not check, is refused by the server. */
  lemma AcceptedFormMeetsRoute(form: FormData)
    requires FormErrors(form) == map[]
    requires 1 <= form.rating <= 5 && Utf16Length(form.message) <= 2000
    ensures Utf16Length(form.name) <= 100 ==> Validate.AllErrors(Validate.FeedbackRules, Body(form)) == []
    ensures Utf16Length(form.name) > 100 ==>
      Validate.AllErrors(Validate.FeedbackRules, Body(form)) == [Validate.TooLong("name", 100)]
  {
    NoErrorsChecksPass(form);
    assert form.name != "" && form.email != "" && form.message != "";
    BodyMeetsRules(form);
  }

  class FeedbackForm {
    var form: FormData
    var errors: map<Field, string>
    var success: bool

    /** Only failing fields have an entry, and every entry is a message. */
    ghost predicate Valid()
      reads this
    {
      forall f :: f in errors ==> errors[f] != ""
    }

    constructor()
      ensures Valid() && form == InitialForm && errors == map[] && !success
    {
      form := InitialForm;
      errors := map[];
      success := false;
    }

    /** `handleChange` on a text field: stores the value and clears that
        field's error. */
    method Change(field: Field, value: string)
      requires field != RatingField
      requires Valid()
      modifies this
      ensures Valid()
      ensures TextOf(form, field) == value
      ensures forall f :: f != field ==> TextOf(form, f) == TextOf(old(form), f)
      ensures errors == old(errors) - {field} && success == old(success)
    {
      match field {
        case NameField => form := form.(name := value);
        case EmailField => form := form.(email := value);
        case MessageField => form := form.(message := value);
        case CategoryField => form := form.(category := value);
      }
      if field in errors {
        errors := errors - {field};
      }
    }

    /** Picking a star rating. */
    method ChangeRating(rating: int)
      requires Valid()
      modifies this
      ensures Valid()
      ensures form == old(form).(rating := rating)
      ensures errors == old(errors) - {RatingField} && success == old(success)
    {
      form := form.(rating := rating);
      if RatingField in errors {
        errors := errors - {RatingField};
      }
    }

    /** `handleBlur`: records the field's error, if it has one; an
        acceptable value leaves the map as it is. */
    method Blur(field: Field)
      requires Valid()
      modifies this
      ensures Valid()
      ensures ValidateField(field, TextOf(old(form), field)) != "" ==>
        errors == old(errors)[field := ValidateField(field, TextOf(old(form), field))]
      ensures ValidateField(field, TextOf(old(form), field)) == "" ==> errors == old(errors)
      ensures form == old(form) && success == old(success)
    {
      var error := ValidateField(field, TextOf(form, field));
      if error != "" {
        errors := errors[field := error];
      }
    }

    /** The final validation: `check` applied to each key in turn, keeping
        the keys it reports. */
    static method CollectErrors(keys: seq<Field>, check: Field -> string) returns (errors: map<Field, string>)
      ensures errors == ErrorsOf(keys, check)
    {
      errors := map[];
      for i := 0 to |keys|
        invariant errors == ErrorsOf(keys[..i], check)
      {
        var key := keys[i];
        var error := check(key);
        ErrorsOfNext(keys, check, i);
        if error != "" {
          errors := errors[key := error];
        }
      }
      assert keys[..|keys|] == keys;
    }

    /** `handleSubmit`: with errors, they replace the map and nothing is
        sent; otherwise the body is posted, and `sent` says whether the
        server took it. */
    method Submit(sent: bool) returns (body: Option<map<string, JsValue>>, toast: Toast)
      requires Valid()
      modifies this
      ensures Valid()
      ensures FormErrors(old(form)) != map[] ==> (
        && body.None? && errors == FormErrors(old(form)) && form == old(form) && success == old(success)
        && toast == Toast("Please correct the errors in the form.", Error))
      ensures FormErrors(old(form)) == map[] ==> body == Some(Body(old(form)))
      ensures FormErrors(old(form)) == map[] && sent ==> (
        && form == InitialForm && errors == map[] && success
        && toast == Toast("Thank you for your valuable feedback!", Success))
      ensures FormErrors(old(form)) == map[] && !sent ==> (
        && form == old(form) && errors == old(errors) && success == old(success)
        && toast == Toast("Service unavailable. Please try again later.", Error))
    {
      var newErrors := CollectErrors(Fields, Checker(form));
      if newErrors != map[] {
        forall f | f in newErrors ensures newErrors[f] != "" {
          FormErrorsSpec(form, f);
        }
        errors := newErrors;
        return None, Toast("Please correct the errors in the form.", Error);
      }
      body := Some(Body(form));
      if !sent {
        return body, Toast("Service unavailable. Please try again later.", Error);
      }
      success := true;
      form := InitialForm;
      errors := map[];
      toast := Toast("Thank you for your valuable feedback!", Success);
    }
  }
}
