/** The admin product form: the JSON import that merges into the current
    form, the category checkboxes, and the create and update requests. */
module ProductForm {
  import opened Base
  import opened Text
  import opened Json
  import opened ClientForms
  import Validate

  datatype FormData = FormData(
    name: JsValue,
    description: JsValue,
    category: JsValue,
    price: string,
    image: JsValue,
    features: JsValue,
    rating: string,
    reviews: string,
    stylingTip: JsValue,
    affiliateLink: JsValue)

  const InitialForm := FormData(Str(""), Str(""), Arr([]), "", Str(""), Str(""), "0", "0", Str(""), Str(""))

  const Placeholder := "https://via.placeholder.com/800"

  /** The updater `handleJsonImport` hands to `setFormData`; `None` when it
      throws: the parsed value is `null`, or a numeric field is `null`. */
  function Merge(prev: FormData, parsed: JsValue): (r: Option<FormData>)
    ensures r.None? <==> (IsNullish(parsed)
      || GetOpt(parsed, "price").Null? || GetOpt(parsed, "rating").Null? || GetOpt(parsed, "reviews").Null?)
    ensures r.Some? && prev.category.Arr? ==> r.value.category.Arr?
  {
    if IsNullish(parsed) then None
    else
      var price := NumberText(GetOpt(parsed, "price"), prev.price);
      var rating := NumberText(GetOpt(parsed, "rating"), prev.rating);
      var reviews := NumberText(GetOpt(parsed, "reviews"), prev.reviews);
      if price.None? || rating.None? || reviews.None? then None
      else Some(FormData(
        Or(GetOpt(parsed, "name"), prev.name),
        Or(GetOpt(parsed, "description"), prev.description),
        CategoryOr(GetOpt(parsed, "category"), prev.category),
        price.value,
        Or(GetOpt(parsed, "image"), prev.image),
        FeaturesOr(GetOpt(parsed, "features"), prev.features),
        rating.value,
        reviews.value,
        Or(GetOpt(parsed, "stylingTip"), prev.stylingTip),
        Or(GetOpt(parsed, "affiliateLink"), prev.affiliateLink)))
  }

  /** Importing an object with none of the form's keys leaves the form as
      it is. */
  lemma MergeUnrelated(prev: FormData, fields: map<string, JsValue>)
    requires forall k :: k in fields ==> k !in {"name", "description", "category", "price", "image", "features", "rating", "reviews", "stylingTip", "affiliateLink"}
    ensures Merge(prev, Obj(fields)) == Some(prev)
  {
    assert GetOpt(Obj(fields), "name") == Undefined;
    assert GetOpt(Obj(fields), "description") == Undefined;
    assert GetOpt(Obj(fields), "category") == Undefined;
    assert GetOpt(Obj(fields), "price") == Undefined;
    assert GetOpt(Obj(fields), "image") == Undefined;
    assert GetOpt(Obj(fields), "features") == Undefined;
    assert GetOpt(Obj(fields), "rating") == Undefined;
    assert GetOpt(Obj(fields), "reviews") == Undefined;
    assert GetOpt(Obj(fields), "stylingTip") == Undefined;
    assert GetOpt(Obj(fields), "affiliateLink") == Undefined;
  }

  /** Importing `null`, or an object whose price, rating or review count is
      `null`, makes the updater throw whatever the form holds. */
  lemma MergeNullThrows(prev: FormData, fields: map<string, JsValue>)
    ensures Merge(prev, Null).None?
    ensures "price" in fields && fields["price"] == Null ==> Merge(prev, Obj(fields)).None?
  {
    assert "price" in fields && fields["price"] == Null ==> GetOpt(Obj(fields), "price").Null?;
  }

  /** Importing the same JSON twice gives the same form as importing it
      once. */
  lemma MergeIdempotent(prev: FormData, parsed: JsValue)
    requires Merge(prev, parsed).Some?
    ensures Merge(Merge(prev, parsed).value, parsed) == Merge(prev, parsed)
  {
  }

  /** A truthy imported text field wins; a falsy one keeps the form's. */
  lemma MergeTextFields(prev: FormData, parsed: JsValue)
    requires Merge(prev, parsed).Some?
    ensures var r := Merge(prev, parsed).value;
      && (Truthy(GetOpt(parsed, "name")) ==> r.name == GetOpt(parsed, "name"))
      && (!Truthy(GetOpt(parsed, "name")) ==> r.name == prev.name)
      && (Truthy(GetOpt(parsed, "image")) ==> r.image == GetOpt(parsed, "image"))
      && (!Truthy(GetOpt(parsed, "image")) ==> r.image == prev.image)
      && (GetOpt(parsed, "price").Undefined? ==> r.price == prev.price)
      && (!GetOpt(parsed, "price").Undefined? ==> r.price == ToText(GetOpt(parsed, "price")))
  {
  }

  /** The request body of `handleSubmit`: the update body when `editing`,
      the create body otherwise. */
  function SubmitBody(form: FormData, editing: bool, number: string -> JsValue): (r: map<string, JsValue>)
    ensures "image" in r && "images" !in r && "features" in r
    ensures r["features"] == SubmitFeatures(form.features)
    ensures !editing ==> "inStock" in r && r["inStock"] == Bool(true) && Truthy(r["image"])
    ensures !editing && Truthy(form.image) ==> r["image"] == form.image
    ensures !editing && !Truthy(form.image) ==> r["image"] == Str(Placeholder)
    ensures editing ==> "inStock" !in r && r["image"] == form.image
  {
    var body := map[
      "name" := form.name,
      "description" := form.description,
      "category" := form.category,
      "price" := number(form.price),
      "image" := if editing then form.image else Or(form.image, Str(Placeholder)),
      "features" := SubmitFeatures(form.features),
      "rating" := number(form.rating),
      "reviews" := number(form.reviews),
      "stylingTip" := form.stylingTip,
      "affiliateLink" := form.affiliateLink];
    if editing then body else body["inStock" := Bool(true)]
  }

  /** The create body passes the route's rules whenever its other fields
      do and its image is text, yet carries no `images`, which the
      controller requires. */
  lemma CreateBodyPassesRules(form: FormData, number: string -> JsValue)
    requires Validate.GoodProductFields(SubmitBody(form, false, number))
    requires form.image.Str?
    ensures Validate.AllErrors(Validate.CreateProductRules, SubmitBody(form, false, number)) == []
    ensures Validate.BodyField(SubmitBody(form, false, number), "images") == Undefined
  {
    Validate.FormPayloadPassesRules(SubmitBody(form, false, number));
  }

  /** `formData.category.includes(name)`, the checkbox state. */
  predicate Checked(form: FormData, name: string)
    requires form.category.Arr?
  {
    Str(name) in form.category.items
  }

  class ProductFormPage {
    var form: FormData
    var rawJson: string
    /** The pending form update throws when React applies it: the render
        fails and, with no error boundary above the page, the tree is
        unmounted. */
    var crashed: bool

    ghost predicate Valid()
      reads this
    {
      form.category.Arr?
    }

    constructor()
      ensures Valid() && form == InitialForm && rawJson == "" && !crashed
    {
      form := InitialForm;
      rawJson := "";
      crashed := false;
    }

    /** `handleJsonImport`, given what `JSON.parse` made of `rawJson`. Only
        the parse is inside the `try`: React runs the updater passed to
        `setFormData` outside it (eagerly, swallowing the error, or during
        the next render), so an updater that throws still lets the text be
        cleared and the success toast be shown, and the throw surfaces in
        the render. */
    method HandleJsonImport(parsed: ParseOutcome) returns (toast: Toast)
      requires Valid()
      modifies this
      ensures Valid()
      ensures parsed.SyntaxError? ==>
        toast == Toast("Invalid JSON format. Please check your input.", Error)
        && form == old(form) && rawJson == old(rawJson) && crashed == old(crashed)
      ensures parsed.Parsed? ==>
        toast == Toast("Form auto-filled from JSON successfully!", Success) && rawJson == ""
      ensures parsed.Parsed? && Merge(old(form), parsed.value).Some? ==>
        form == Merge(old(form), parsed.value).value && crashed == old(crashed)
      ensures parsed.Parsed? && Merge(old(form), parsed.value).None? ==> form == old(form) && crashed
    {
      if parsed.SyntaxError? {
        return Toast("Invalid JSON format. Please check your input.", Error);
      }
      var merged := Merge(form, parsed.value);
      if merged.Some? {
        form := merged.value;
      } else {
        crashed := true;
      }
      rawJson := "";
      toast := Toast("Form auto-filled from JSON successfully!", Success);
    }

    /** The category checkbox: checking appends the name, unchecking
        removes every entry equal to it. */
    method ToggleCategory(name: string, checked: bool)
      requires Valid()
      modifies this
      ensures Valid()
      ensures checked ==> form == old(form).(category := Arr(old(form).category.items + [Str(name)]))
      ensures !checked ==> form == old(form).(category := Arr(RemoveAll(old(form).category.items, Str(name))))
      ensures rawJson == old(rawJson) && crashed == old(crashed)
    {
      if checked {
        form := form.(category := Arr(form.category.items + [Str(name)]));
      } else {
        form := form.(category := Arr(RemoveAll(form.category.items, Str(name))));
      }
    }
  }

  /** Checking a box ticks it, unchecking clears it, and checking then
      unchecking a name that was not ticked restores the list. */
  lemma ToggleCategorySpec(items: seq<JsValue>, name: string)
    ensures Str(name) in items + [Str(name)]
    ensures Str(name) !in RemoveAll(items, Str(name))
    ensures Str(name) !in items ==> RemoveAll(items + [Str(name)], Str(name)) == items
  {
    RemoveAllConcat(items, [Str(name)], Str(name));
    if Str(name) !in items {
      RemoveAllAbsent(items, Str(name));
    }
    assert RemoveAll([Str(name)], Str(name)) == [];
  }
}
