/** The admin category page: the form and the request it sends, the edit
    pre-fill, the product checkboxes, the featured-product picker and the
    local category list. */
module CategoryManager {
  import opened Base
  import opened Text
  import opened Catalog
  import opened ClientTypes
  import opened ClientForms
  import CategoryController

  datatype Mode = UploadMode | ProductMode

  /** `formData`; `featuredProductId` is `None` for `null`. */
  datatype CategoryForm = CategoryForm(
    name: string,
    imageSource: Mode,
    imageUploadUrl: string,
    featuredProductId: Option<string>,
    productIds: seq<string>)

  const InitialForm := CategoryForm("", UploadMode, "", Some(""), [])

  /** The form after `resetForm`. */
  const ClearedForm := CategoryForm("", UploadMode, "", None, [])

  const PickerPlaceholder := "https://via.placeholder.com/150"

  /** The request body; `None` is a key left `undefined`, which is not
      sent. */
  datatype CategoryPayload = CategoryPayload(
    name: string,
    imageUploadUrl: Option<string>,
    featuredProductId: Option<string>,
    productIds: seq<string>)

  /** The payload of `handleSaveCategory`: the upload URL goes only in
      upload mode, the featured product only in product mode. */
  function Payload(form: CategoryForm): (r: CategoryPayload)
    ensures r.name == form.name && r.productIds == form.productIds
    ensures r.imageUploadUrl.Some? <==> form.imageSource == UploadMode
    ensures r.featuredProductId.Some? ==> form.imageSource == ProductMode
    ensures !(r.imageUploadUrl.Some? && r.featuredProductId.Some?)
  {
    CategoryPayload(
      form.name,
      if form.imageSource == UploadMode then Some(form.imageUploadUrl) else None,
      if form.imageSource == ProductMode then form.featuredProductId else None,
      form.productIds)
  }

  /** The request as the server reads it after JSON serialisation. */
  function ToRequest(p: CategoryPayload): CategoryController.CategoryRequest {
    CategoryController.CategoryRequest(
      p.name,
      p.imageUploadUrl,
      if p.featuredProductId.Some? then Given(p.featuredProductId.value) else Absent,
      Some(p.productIds))
  }

  /** The server can take its picture from a product only when the form
      is in product mode with a product picked, and an upload URL reaches
      it only in upload mode. */
  lemma RequestProvenance(form: CategoryForm)
    ensures CategoryController.FieldTruthy(ToRequest(Payload(form)).featuredProductId) <==>
      form.imageSource == ProductMode && form.featuredProductId.Some? && form.featuredProductId.value != ""
    ensures ToRequest(Payload(form)).imageUploadUrl.Some? <==> form.imageSource == UploadMode
  {
  }

  /** The form `startEdit` fills from a listed category. */
  function EditForm(cat: ClientCategory): (r: CategoryForm)
    ensures r.name == cat.name
    ensures r.imageSource == ProductMode <==> cat.imageSource == Some(FromProduct)
    ensures r.imageUploadUrl != "" ==> cat.imageSource == Some(Upload) && cat.imageUrl == Some(r.imageUploadUrl)
    ensures r.featuredProductId.Some? ==> r.featuredProductId.value != ""
  {
    CategoryForm(
      cat.name,
      if cat.imageSource == Some(FromProduct) then ProductMode else UploadMode,
      if cat.imageSource == Some(Upload) && cat.imageUrl.Some? then cat.imageUrl.value else "",
      if cat.featuredProductId.Some? && cat.featuredProductId.value != "" then cat.featuredProductId else None,
      if cat.allProductIds.Some? then cat.allProductIds.value
      else if cat.productIds.Some? then cat.productIds.value
      else [])
  }

  /** Saving an untouched edit sends back what the page listed: the
      derived product list (explicit and auto-matched ids), and the
      category's own picture source. */
  lemma EditRoundTrip(cat: ClientCategory)
    ensures var p := Payload(EditForm(cat));
      && p.name == cat.name
      && (cat.allProductIds.Some? ==> p.productIds == cat.allProductIds.value)
      && (cat.allProductIds.None? && cat.productIds.Some? ==> p.productIds == cat.productIds.value)
      && (cat.imageSource == Some(Upload) && cat.imageUrl.Some? ==> p.imageUploadUrl == cat.imageUrl)
      && (cat.imageSource == Some(FromProduct) && cat.featuredProductId.Some? && cat.featuredProductId.value != ""
          ==> p.featuredProductId == cat.featuredProductId && p.imageUploadUrl.None?)
  {
  }

  /** `products.find(p => p.id === id)`. */
  function FindClient(ps: seq<ClientProduct>, id: string): (r: Option<ClientProduct>)
    ensures r.Some? ==> r.value in ps && r.value.id == id
    ensures r.None? ==> forall i :: 0 <= i < |ps| ==> ps[i].id != id
  {
    if ps == [] then None
    else if ps[0].id == id then Some(ps[0])
    else FindClient(ps[1..], id)
  }

  /** The preview picture of a product: its main image's URL, else its
      first image's URL, else its legacy `image`, else a placeholder. */
  function PreviewImage(p: Option<ClientProduct>): (r: string)
    ensures r != ""
    ensures p.None? ==> r == PickerPlaceholder
  {
    if p.None? then PickerPlaceholder
    else
      var images := p.value.images;
      var main := CategoryController.MainImage(images);
      if main.Some? && images[main.value].url != "" then images[main.value].url
      else if |images| > 0 && images[0].url != "" then images[0].url
      else if p.value.image != "" then p.value.image
      else PickerPlaceholder
  }

  /** When the server has a picture to take from the product, the preview
      shows that same picture. */
  lemma PreviewMatchesSaved(p: ClientProduct)
    requires CategoryController.FeaturedImageUrl(p.images).Some?
    requires CategoryController.FeaturedImageUrl(p.images).value != ""
    ensures PreviewImage(Some(p)) == CategoryController.FeaturedImageUrl(p.images).value
  {
  }

  /** A product without pictures shows its legacy image or the
      placeholder. */
  lemma PreviewWithoutImages(p: ClientProduct)
    requires p.images == []
    ensures PreviewImage(Some(p)) == if p.image != "" then p.image else PickerPlaceholder
  {
  }

  function NameMatches(query: string): ClientProduct -> bool {
    (p: ClientProduct) => Contains(Lower(p.name), Lower(query))
  }

  /** The picker list: the first ten products whose name contains the
      query, ignoring case. */
  function Picker(ps: seq<ClientProduct>, query: string): (r: seq<ClientProduct>)
    ensures |r| <= 10 && |r| <= |Filter(ps, NameMatches(query))|
    ensures |r| == 10 || |r| == |Filter(ps, NameMatches(query))|
    ensures forall i :: 0 <= i < |r| ==> Contains(Lower(r[i].name), Lower(query))
    ensures r == Filter(ps, NameMatches(query))[..|r|]
  {
    var matching := Filter(ps, NameMatches(query));
    var shown := matching[..if |matching| < 10 then |matching| else 10];
    assert forall i :: 0 <= i < |shown| ==> NameMatches(query)(shown[i]);
    shown
  }

  /** With fewer than ten matches, every matching product is offered. */
  lemma PickerComplete(ps: seq<ClientProduct>, query: string, p: ClientProduct)
    requires |Filter(ps, NameMatches(query))| < 10
    requires p in ps && Contains(Lower(p.name), Lower(query))
    ensures p in Picker(ps, query)
  {
    FilterKeeps(ps, NameMatches(query), p);
    assert Filter(ps, NameMatches(query))[..|Filter(ps, NameMatches(query))|] == Filter(ps, NameMatches(query));
  }

  /** `categories.map(c => c.id === id ? updated : c)`. */
  function ReplaceCategory(cs: seq<ClientCategory>, id: string, updated: ClientCategory): (r: seq<ClientCategory>)
    ensures |r| == |cs|
    ensures forall i :: 0 <= i < |cs| ==> r[i] == if cs[i].id == id then updated else cs[i]
  {
    seq(|cs|, i requires 0 <= i < |cs| => if cs[i].id == id then updated else cs[i])
  }

  function OtherId(id: string): ClientCategory -> bool {
    (c: ClientCategory) => c.id != id
  }

  /** `categories.filter(c => c.id !== id)`. */
  function RemoveCategory(cs: seq<ClientCategory>, id: string): (r: seq<ClientCategory>)
    ensures forall i :: 0 <= i < |r| ==> r[i].id != id
  {
    var r := Filter(cs, OtherId(id));
    assert forall i :: 0 <= i < |r| ==> OtherId(id)(r[i]);
    r
  }

  /** A delete keeps every other category, in order. */
  lemma RemoveCategoryKeeps(cs: seq<ClientCategory>, id: string)
    ensures multiset(RemoveCategory(cs, id)) + multiset(Filter(cs, Negate(OtherId(id)))) == multiset(cs)
    ensures forall c :: c in cs && c.id != id ==> c in RemoveCategory(cs, id)
  {
    FilterPartition(cs, OtherId(id));
    forall c | c in cs && c.id != id ensures c in RemoveCategory(cs, id) {
      FilterKeeps(cs, OtherId(id), c);
    }
  }

  class CategoryManagerPage {
    var categories: seq<ClientCategory>
    var form: CategoryForm
    var editing: Option<ClientCategory>
    var productQuery: string

    constructor(categories: seq<ClientCategory>)
      ensures this.categories == categories && form == InitialForm && editing == None && productQuery == ""
    {
      this.categories := categories;
      form := InitialForm;
      editing := None;
      productQuery := "";
    }

    /** `handleSaveCategory`: nothing for a blank name; otherwise the
        request, and on success (`saved` is the server's answer) the list
        update and a cleared form. */
    method SaveCategory(saved: Option<ClientCategory>, errMessage: string) returns (request: Option<CategoryPayload>, toast: Option<Toast>)
      modifies this
      ensures IsBlank(old(form.name)) ==> request.None? && toast.None? && unchanged(this)
      ensures !IsBlank(old(form.name)) ==> request == Some(Payload(old(form))) && toast.Some?
      ensures !IsBlank(old(form.name)) && saved.None? ==>
        toast == Some(Toast(FailureText(errMessage, "Failed to save category"), Error)) && unchanged(this)
      ensures !IsBlank(old(form.name)) && saved.Some? ==>
        && categories == (if old(editing).Some? then ReplaceCategory(old(categories), old(editing).value.id, saved.value)
                          else old(categories) + [saved.value])
        && editing == None && form == ClearedForm && productQuery == ""
    {
      if Trim(form.name) == "" {
        return None, None;
      }
      request := Some(Payload(form));
      if saved.None? {
        return request, Some(Toast(FailureText(errMessage, "Failed to save category"), Error));
      }
      var shown := ApplySaved(saved.value);
      toast := Some(shown);
    }

    /** The success branch of `handleSaveCategory`: the saved category
        replaces the edited one or is appended, and the form is cleared. */
    method ApplySaved(saved: ClientCategory) returns (toast: Toast)
      modifies this
      ensures categories == (if old(editing).Some? then ReplaceCategory(old(categories), old(editing).value.id, saved)
                             else old(categories) + [saved])
      ensures toast == if old(editing).Some? then Toast("Category updated successfully", Success)
                       else Toast("Category created successfully", Success)
      ensures editing == None && form == ClearedForm && productQuery == ""
    {
      if editing.Some? {
        categories := ReplaceCategory(categories, editing.value.id, saved);
        toast := Toast("Category updated successfully", Success);
      } else {
        categories := categories + [saved];
        toast := Toast("Category created successfully", Success);
      }
      editing := None;
      form := ClearedForm;
      productQuery := "";
    }

    /** `startEdit(cat)`. */
    method StartEdit(cat: ClientCategory)
      modifies this
      ensures editing == Some(cat) && form == EditForm(cat)
      ensures categories == old(categories) && productQuery == old(productQuery)
    {
      editing := Some(cat);
      form := EditForm(cat);
    }

    /** `cancelEdit`. */
    method CancelEdit()
      modifies this
      ensures editing == None && form == ClearedForm && productQuery == ""
      ensures categories == old(categories)
    {
      editing := None;
      form := ClearedForm;
      productQuery := "";
    }

    /** A product checkbox: checking appends the id, unchecking removes
        every occurrence of it. */
    method ToggleProduct(id: string, checked: bool)
      modifies this
      ensures form == old(form).(productIds := if checked then old(form.productIds) + [id]
                                                else RemoveAll(old(form.productIds), id))
      ensures categories == old(categories) && editing == old(editing) && productQuery == old(productQuery)
    {
      if checked {
        form := form.(productIds := form.productIds + [id]);
      } else {
        form := form.(productIds := RemoveAll(form.productIds, id));
      }
    }

    /** Choosing a product in the picker. */
    method PickFeatured(p: ClientProduct)
      modifies this
      ensures form == old(form).(featuredProductId := Some(p.id)) && productQuery == p.name
      ensures categories == old(categories) && editing == old(editing)
    {
      form := form.(featuredProductId := Some(p.id));
      productQuery := p.name;
    }

    /** `handleDelete(id)`: the list changes only when the user confirmed
        and the server deleted. */
    method DeleteCategory(id: string, confirmed: bool, deleted: bool, errMessage: string) returns (toast: Option<Toast>)
      modifies this
      ensures confirmed && deleted ==>
        categories == RemoveCategory(old(categories), id) && toast == Some(Toast("Category deleted successfully", Success))
      ensures !(confirmed && deleted) ==> categories == old(categories)
      ensures !confirmed ==> toast.None?
      ensures confirmed && !deleted ==> toast == Some(Toast(FailureText(errMessage, "Failed to delete category"), Error))
      ensures form == old(form) && editing == old(editing) && productQuery == old(productQuery)
    {
      if !confirmed {
        return None;
      }
      if !deleted {
        return Some(Toast(FailureText(errMessage, "Failed to delete category"), Error));
      }
      categories := RemoveCategory(categories, id);
      toast := Some(Toast("Category deleted successfully", Success));
    }
  }
}
