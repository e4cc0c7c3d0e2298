/** The pin importer page: it reads generated pin and product content from
    pasted JSON, folds each pin's text overlay into its image prompt, fills
    the product form and image list, and builds the create request. */
module PinParser {
  import opened Base
  import opened Text
  import opened Json
  import opened ClientForms
  import Validate

  /** The importer's product form. Fields filled from JSON keep whatever
      value the JSON held; the inputs only ever write strings. */
  datatype PinForm = PinForm(
    name: JsValue,
    description: JsValue,
    category: JsValue,
    price: string,
    features: JsValue,
    rating: string,
    reviews: string,
    stylingTip: JsValue,
    affiliateLink: JsValue)

  const EmptyForm := PinForm(Str(""), Str(""), Arr([]), "", Str(""), "0", "0", Str(""), Str(""))

  const InvalidJson := "Invalid JSON format. Please check your input and try again."

  const LegacyImport := "legacy-manual-import"

  /** The image prompt with the overlay clause appended. */
  function OverlayPrompt(prompt: JsValue, overlay: JsValue): string {
    var clause := "Text Overlay: \"" + ToText(overlay) + "\"";
    if Truthy(prompt) then ToText(prompt) + " " + clause else clause
  }

  /** One pin after the overlay fold; `None` is the `TypeError` of reading
      a property of a `null` pin. */
  function OverlayPin(pin: JsValue): (r: Option<JsValue>)
    ensures r.None? <==> IsNullish(pin)
    ensures r.Some? && pin.Obj? && "textOverlay" in pin.fields && Truthy(pin.fields["textOverlay"]) ==>
      && r.value.Obj?
      && "textOverlay" !in r.value.fields
      && "imagePrompt" in r.value.fields
      && r.value.fields["imagePrompt"] == Str(OverlayPrompt(GetOpt(pin, "imagePrompt"), pin.fields["textOverlay"]))
      && forall k :: k != "textOverlay" && k != "imagePrompt" ==>
           (k in r.value.fields <==> k in pin.fields) && (k in pin.fields ==> r.value.fields[k] == pin.fields[k])
    ensures r.Some? && !(pin.Obj? && "textOverlay" in pin.fields && Truthy(pin.fields["textOverlay"])) ==> r == Some(pin)
  {
    if IsNullish(pin) then None
    else if pin.Obj? && "textOverlay" in pin.fields && Truthy(pin.fields["textOverlay"]) then
      var prompt := OverlayPrompt(GetOpt(pin, "imagePrompt"), pin.fields["textOverlay"]);
      Some(Obj((pin.fields - {"textOverlay"})["imagePrompt" := Str(prompt)]))
    else Some(pin)
  }

  /** A folded pin has no overlay left, so folding it again changes
      nothing: parsing the page's own output twice cannot stack clauses. */
  lemma OverlayPinIdempotent(pin: JsValue)
    requires !IsNullish(pin)
    ensures OverlayPin(OverlayPin(pin).value) == OverlayPin(pin)
  {
  }

  /** The `forEach` over the pins; `None` when some pin is `null` or
      `undefined`. */
  function Overlaid(pins: seq<JsValue>): (r: Option<seq<JsValue>>)
    ensures r.None? <==> exists i :: 0 <= i < |pins| && IsNullish(pins[i])
    ensures r.Some? ==> |r.value| == |pins| && forall i :: 0 <= i < |pins| ==> OverlayPin(pins[i]) == Some(r.value[i])
  {
    if pins == [] then Some([])
    else
      var init, last := pins[..|pins| - 1], pins[|pins| - 1];
      assert forall i :: 0 <= i < |init| ==> init[i] == pins[i];
      match Overlaid(init)
      case None => None
      case Some(t) =>
        match OverlayPin(last)
        case None => None
        case Some(p) => Some(t + [p])
  }

  /** The form filled from a truthy `product` value; `None` when a numeric
      field is `null` and its `toString()` throws. */
  function ImportedForm(product: JsValue): (r: Option<PinForm>)
    requires !IsNullish(product)
    ensures r.None? <==> GetOpt(product, "price").Null? || GetOpt(product, "rating").Null? || GetOpt(product, "reviews").Null?
    ensures r.Some? ==> r.value.category.Arr?
  {
    var price := NumberText(GetOpt(product, "price"), "");
    var rating := NumberText(GetOpt(product, "rating"), "0");
    var reviews := NumberText(GetOpt(product, "reviews"), "0");
    if price.None? || rating.None? || reviews.None? then None
    else Some(PinForm(
      Or(GetOpt(product, "name"), Str("")),
      Or(GetOpt(product, "description"), Str("")),
      CategoryOr(GetOpt(product, "category"), Arr([])),
      price.value,
      FeaturesOr(GetOpt(product, "features"), Str("")),
      rating.value,
      reviews.value,
      Or(GetOpt(product, "stylingTip"), Str("")),
      Or(GetOpt(product, "affiliateLink"), Str(""))))
  }

  /** The image list taken from a product: its `images` array, or a single
      legacy entry for a string `image`, or nothing. */
  function ImportedImages(product: JsValue): (r: seq<JsValue>)
    ensures IsArray(GetOpt(product, "images")) ==> r == GetOpt(product, "images").items
    ensures !IsArray(GetOpt(product, "images")) && GetOpt(product, "image").Str? && GetOpt(product, "image").s != "" ==>
      |r| == 1 && r[0].Obj? && r[0].fields == map["url" := GetOpt(product, "image"), "publicId" := Str(LegacyImport)]
    ensures !IsArray(GetOpt(product, "images")) && !(GetOpt(product, "image").Str? && GetOpt(product, "image").s != "") ==> r == []
  {
    var images := GetOpt(product, "images");
    var image := GetOpt(product, "image");
    if Truthy(images) && IsArray(images) then images.items
    else if Truthy(image) && TypeOf(image) == "string" then
      [Obj(map["url" := image, "publicId" := Str(LegacyImport)])]
    else []
  }

  /** An importer form with no product fields is the empty form. */
  lemma ImportEmptyProduct()
    ensures ImportedForm(Obj(map[])) == Some(EmptyForm)
    ensures ImportedImages(Obj(map[])) == []
  {
  }

  datatype ProductImport = ProductImport(form: PinForm, images: seq<JsValue>)

  /** The parsed content with its pins folded, and the product import when
      `product` is truthy. */
  datatype Imported = Imported(data: JsValue, product: Option<ProductImport>)

  /** Everything `handleParse` does to a parsed value; `None` when it
      throws and the page reports invalid JSON. */
  function Import(data: JsValue): (r: Option<Imported>)
    ensures IsNullish(data) ==> r.None?
    ensures r.Some? && !IsNullish(GetOpt(data, "product")) ==>
      (r.value.product.Some? <==> Truthy(GetOpt(data, "product")))
  {
    match Get(data, "pins")
    case None => None
    case Some(pins) =>
      var folded :=
        if Truthy(pins) && IsArray(pins) && data.Obj? then
          match Overlaid(pins.items)
          case None => None
          case Some(ps) => Some(Obj(data.fields["pins" := Arr(ps)]))
        else Some(data);
      if folded.None? then None
      else
        var product := GetOpt(folded.value, "product");
        if !Truthy(product) then Some(Imported(folded.value, None))
        else match ImportedForm(product)
          case None => None
          case Some(form) => Some(Imported(folded.value, Some(ProductImport(form, ImportedImages(product)))))
  }

  /** The selected image flag: `isMain` is `true` exactly at `index`, and
      every other property of every image is kept. */
  function WithMain(images: seq<JsValue>, index: int): (r: seq<JsValue>)
    ensures |r| == |images|
    ensures forall i :: 0 <= i < |r| ==>
      r[i].Obj? && "isMain" in r[i].fields && r[i].fields["isMain"] == Bool(i == index)
    ensures forall i :: 0 <= i < |r| ==> r[i].fields - {"isMain"} == Spread(images[i]) - {"isMain"}
  {
    seq(|images|, i requires 0 <= i < |images| => Obj(Spread(images[i])["isMain" := Bool(i == index)]))
  }

  predicate IsMain(images: seq<JsValue>, i: int)
    requires 0 <= i < |images|
  {
    images[i].Obj? && "isMain" in images[i].fields && images[i].fields["isMain"] == Bool(true)
  }

  /** After selecting a valid position exactly one image is the main one;
      after selecting an invalid one, none is. */
  lemma WithMainExactlyOne(images: seq<JsValue>, index: int)
    ensures var r := WithMain(images, index);
      (set i | 0 <= i < |r| && IsMain(r, i)) == if 0 <= index < |images| then {index} else {}
  {
  }

  /** Selecting the same image twice is selecting it once. */
  lemma WithMainIdempotent(images: seq<JsValue>, index: int)
    ensures WithMain(WithMain(images, index), index) == WithMain(images, index)
  {
    var r := WithMain(images, index);
    var rr := WithMain(r, index);
    forall i | 0 <= i < |r| ensures rr[i] == r[i] {
      assert Spread(r[i]) == r[i].fields;
    }
  }

  /** `prev.filter((_, i) => i !== index)`. */
  function Without(images: seq<JsValue>, index: int): (r: seq<JsValue>)
    ensures 0 <= index < |images| ==>
      && |r| == |images| - 1
      && (forall i :: 0 <= i < index ==> r[i] == images[i])
      && (forall i :: index <= i < |r| ==> r[i] == images[i + 1])
    ensures !(0 <= index < |images|) ==> r == images
  {
    if 0 <= index < |images| then images[..index] + images[index + 1..] else images
  }

  /** Removing a position takes out that image and no other. */
  lemma WithoutCounts(images: seq<JsValue>, index: int)
    requires 0 <= index < |images|
    ensures multiset(Without(images, index)) + multiset{images[index]} == multiset(images)
  {
    assert images == images[..index] + [images[index]] + images[index + 1..];
  }

  /** The create request of `handleSubmitProduct`; `None` when the image
      list is empty and the page refuses to submit. `number` is
      `Number(text)` as it reaches the server. */
  function SubmitRequest(form: PinForm, images: seq<JsValue>, number: string -> JsValue): (r: Option<map<string, JsValue>>)
    ensures r.None? <==> images == []
    ensures r.Some? ==>
      && "image" !in r.value
      && "images" in r.value && "removedImages" in r.value && "inStock" in r.value && "features" in r.value
      && r.value["images"] == Arr(images)
      && r.value["removedImages"] == Arr([])
      && r.value["inStock"] == Bool(true)
      && r.value["features"] == SubmitFeatures(form.features)
  {
    if images == [] then None
    else Some(map[
      "name" := form.name,
      "description" := form.description,
      "category" := form.category,
      "price" := number(form.price),
      "images" := Arr(images),
      "features" := SubmitFeatures(form.features),
      "rating" := number(form.rating),
      "reviews" := number(form.reviews),
      "stylingTip" := form.stylingTip,
      "affiliateLink" := form.affiliateLink,
      "removedImages" := Arr([]),
      "inStock" := Bool(true)])
  }

  /** The request the importer sends has no `image`, so the create route's
      rules refuse it before the controller sees it. */
  lemma SubmitRefusedByRoute(form: PinForm, images: seq<JsValue>, number: string -> JsValue)
    requires SubmitRequest(form, images, number).Some?
    requires Validate.GoodProductFields(SubmitRequest(form, images, number).value)
    ensures Validate.AllErrors(Validate.CreateProductRules, SubmitRequest(form, images, number).value)
      == [Validate.Required("image")]
    ensures Validate.AllErrors(Validate.CorrectedCreateProductRules, SubmitRequest(form, images, number).value) == []
  {
    var body := SubmitRequest(form, images, number).value;
    Validate.ImporterPayloadRefused(body);
    Validate.ImporterPayloadAccepted(body);
  }

  /** The `forEach` of `handleParse`, which rewrites the pins one at a
      time; `None` when it throws. */
  method FoldPins(items: seq<JsValue>) returns (r: Option<seq<JsValue>>)
    ensures r == Overlaid(items)
  {
    var pins := items;
    var i := 0;
    while i < |pins|
      invariant 0 <= i <= |pins| == |items|
      invariant forall j :: 0 <= j < i ==> OverlayPin(items[j]) == Some(pins[j])
      invariant pins[i..] == items[i..]
    {
      assert pins[i] == items[i];
      var pin := OverlayPin(pins[i]);
      if pin.None? {
        assert IsNullish(items[i]);
        return None;
      }
      pins := pins[i := pin.value];
      i := i + 1;
    }
    assert forall j :: 0 <= j < |items| ==> !IsNullish(items[j]);
    var folded := Overlaid(items).value;
    assert forall j :: 0 <= j < |items| ==> Some(folded[j]) == OverlayPin(items[j]) == Some(pins[j]);
    assert folded == pins;
    r := Some(pins);
  }

  /** The body of `handleParse` after `JSON.parse`: the pins are folded in
      place, then the product is read. */
  method ImportContent(parsed: JsValue) returns (r: Option<Imported>)
    ensures r == Import(parsed)
  {
    var data := parsed;
    var pinsValue := Get(data, "pins");
    if pinsValue.None? {
      return None;
    }
    var pinsList := pinsValue.value;
    if Truthy(pinsList) && IsArray(pinsList) && data.Obj? {
      var pins := FoldPins(pinsList.items);
      if pins.None? {
        return None;
      }
      data := Obj(data.fields["pins" := Arr(pins.value)]);
    }
    var product := GetOpt(data, "product");
    if !Truthy(product) {
      return Some(Imported(data, None));
    }
    var form := ImportedForm(product);
    if form.None? {
      return None;
    }
    r := Some(Imported(data, Some(ProductImport(form.value, ImportedImages(product)))));
  }

  class PinParserPage {
    var parsedData: Option<JsValue>
    var error: Option<string>
    var showProductForm: bool
    var form: PinForm
    var images: seq<JsValue>

    ghost predicate Valid()
      reads this
    {
      form.category.Arr?
    }

    constructor()
      ensures Valid()
      ensures parsedData == None && error == None && !showProductForm && form == EmptyForm && images == []
    {
      parsedData := None;
      error := None;
      showProductForm := false;
      form := EmptyForm;
      images := [];
    }

    /** The `catch` branch of `handleParse`. */
    method ReportInvalid()
      modifies this
      ensures error == Some(InvalidJson) && parsedData == None && !showProductForm
      ensures form == old(form) && images == old(images)
    {
      error := Some(InvalidJson);
      parsedData := None;
      showProductForm := false;
    }

    /** `handleParse`, given the text and what `JSON.parse` made of it. */
    method HandleParse(input: string, parsed: ParseOutcome)
      requires Valid()
      modifies this
      ensures Valid()
      ensures IsBlank(input) ==>
        error == None && parsedData == None && showProductForm == old(showProductForm)
        && form == old(form) && images == old(images)
      ensures !IsBlank(input) && (parsed.SyntaxError? || Import(parsed.value).None?) ==>
        error == Some(InvalidJson) && parsedData == None && !showProductForm
        && form == old(form) && images == old(images)
      ensures !IsBlank(input) && parsed.Parsed? && Import(parsed.value).Some? ==>
        var imported := Import(parsed.value).value;
        && error == None && parsedData == Some(imported.data) && !showProductForm
        && (imported.product.None? ==> form == old(form) && images == old(images))
        && (imported.product.Some? ==> form == imported.product.value.form && images == imported.product.value.images)
    {
      error := None;
      if Trim(input) == "" {
        parsedData := None;
        return;
      }
      if parsed.SyntaxError? {
        ReportInvalid();
        return;
      }
      var imported := ImportContent(parsed.value);
      if imported.None? {
        ReportInvalid();
        return;
      }
      ShowImported(imported.value);
    }

    /** The end of a successful `handleParse`: a product fills the form and
        the images, and the parsed data is shown with the form closed. */
    method ShowImported(imported: Imported)
      requires Valid()
      requires imported.product.Some? ==> imported.product.value.form.category.Arr?
      modifies this
      ensures Valid()
      ensures error == old(error) && parsedData == Some(imported.data) && !showProductForm
      ensures imported.product.None? ==> form == old(form) && images == old(images)
      ensures imported.product.Some? ==>
        form == imported.product.value.form && images == imported.product.value.images
    {
      if imported.product.Some? {
        form := imported.product.value.form;
        images := imported.product.value.images;
      }
      parsedData := Some(imported.data);
      showProductForm := false;
    }

    /** `removeImage(index)`. */
    method RemoveImage(index: int)
      modifies this
      ensures images == Without(old(images), index)
      ensures form == old(form) && parsedData == old(parsedData) && error == old(error)
      ensures showProductForm == old(showProductForm)
    {
      images := Without(images, index);
    }

    /** `setMainImage(index)`. */
    method SetMainImage(index: int)
      modifies this
      ensures images == WithMain(old(images), index)
      ensures form == old(form) && parsedData == old(parsedData) && error == old(error)
      ensures showProductForm == old(showProductForm)
    {
      images := WithMain(images, index);
    }

    /** `handleSubmitProduct`: the toast for an empty image list, or the
      request; `created` is whether the server accepted it. */
    method SubmitProduct(number: string -> JsValue, created: bool, errMessage: string)
      returns (request: Option<map<string, JsValue>>, toast: Toast)
      modifies this
      ensures request == SubmitRequest(form, images, number)
      ensures request.None? ==> toast == Toast("At least one image is required", Error)
      ensures request.Some? && created ==> toast == Toast("Product created successfully", Success)
      ensures request.Some? && !created ==>
        toast == Toast(FailureText(errMessage, "Failed to save product. Please check all fields."), Error)
      ensures showProductForm == (if request.Some? && created then false else old(showProductForm))
      ensures form == old(form) && images == old(images) && parsedData == old(parsedData) && error == old(error)
    {
      request := SubmitRequest(form, images, number);
      if request.None? {
        toast := Toast("At least one image is required", Error);
        return;
      }
      if created {
        toast := Toast("Product created successfully", Success);
        showProductForm := false;
      } else {
        toast := Toast(FailureText(errMessage, "Failed to save product. Please check all fields."), Error);
      }
    }
  }
}
