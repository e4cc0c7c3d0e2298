# Curate: a Dafny model of the catalogue backend and its admin and storefront pages

Curate is a small online catalogue. Its Express/MongoDB backend keeps three
collections (products, categories, feedback). Its React frontend has a public
storefront (listing, feedback form, wishlist, price slider, star ratings) and
an admin area (product table, product form, category manager, feedback
inbox, pin importer).

This project models:

- **The backend's request path.** The rule-based body validator, the error
  middleware, and the category, product and feedback controllers running
  against an in-memory store (`Catalog.Store`). The store also logs the image
  deletions requested from the image host.
- **The two collections kept in agreement.** A category's name also appears
  in the `category` list of each of its products. `$addToSet`, `$pull` and
  the positional rename are modelled as functions on sequences, with the
  diff that an update applies.
- **The admin pages.** Their local state is a class whose methods are the
  page's handlers: the product table, the product form with its JSON import,
  the category manager, the feedback inbox and the pin importer.
- **The storefront.** Listing filters and category selection, the feedback
  form's validation, the wishlist store, the price slider's clamping, the
  star row and the sidebar's active item.

Network calls, `window.confirm`, `JSON.parse`, `slugify`, id generation and
clocks become parameters of the methods that use them.

## Model

| member | source | states |
|---|---|---|
| Catalog.CastId | Backend/src/controllers/productController.ts:116 | the cast of a request id: the stored lower-case form, naming the same twelve bytes |
| Catalog.SameObjectIdIff | Backend/src/controllers/productController.ts:116 | a stored id equals the cast of a request id exactly when both name the same bytes, whatever the request's letter case |
| Catalog.CastStored | Backend/src/controllers/productController.ts:116 | an id in stored form casts to itself |
| Catalog.CastAllMatches | Backend/src/controllers/productController.ts:190 | `{_id: {$in: ids}}` matches a stored id exactly when some listed entry names the same bytes |
| Catalog.CastAllStored | Backend/src/controllers/categoryController.ts:199-210 | a list of ids already in stored form is matched as it is |
| Catalog.FindProduct | Backend/src/controllers/productController.ts:116-119 | `findById`: the position returned holds the cast id, is the first with it, and `None` means no product has it |
| Catalog.FindCategory | Backend/src/controllers/categoryController.ts:133-137 | `findById` on categories: a hit holds the cast id and is the first with it; a miss means no category has it |
| Catalog.FindFeedback | Backend/src/controllers/feedbackController.ts:65-73 | `findByIdAndUpdate`'s lookup: a hit holds the cast id and is the first with it; a miss means no entry has it |
| Catalog.FindProductByBytes | Backend/src/controllers/productController.ts:116-119 | over stored ids, a product is found exactly when its `_id` has the bytes the request names, so an upper-case id finds it too |
| Catalog.FindCategoryByBytes | Backend/src/controllers/categoryController.ts:133-137 | the same for categories |
| Catalog.FindFeedbackByBytes | Backend/src/controllers/feedbackController.ts:65-73 | the same for feedback entries |
| Catalog.PublicIds | Backend/src/controllers/productController.ts:165-170 | the ids sent to the image host are exactly the images' public ids, in order |
| Catalog.Store.constructor | Backend/src/models/Category.ts:7-18 | a store starts from collections whose `_id` and unique-index fields are unique and whose `_id`s are in stored form, with no deletions logged |
| ErrorHandler.HandleError | Backend/src/middlewares/errorHandler.ts:10-67 | every response is a failure; an `ApiError` keeps its status and message; validation, cast and Multer errors give 400 with their own messages |
| ErrorHandler.ConflictIff | Backend/src/middlewares/errorHandler.ts:53-59 | a thrown error gets 409 exactly when no earlier branch names it and its code is 11000 |
| ErrorHandler.ThrownStatus | Backend/src/middlewares/errorHandler.ts:22-67 | any other error gets 400, 409 or 500; 500 exactly when nothing recognises it, and then the generic message |
| ErrorHandler.ApiErrorFirst | Backend/src/middlewares/errorHandler.ts:10-19 | the `ApiError` branch comes first, so its own status wins even when it is 409 or 500 |
| ErrorHandler.DuplicateKeyIsConflict | Backend/src/middlewares/errorHandler.ts:53-59 | a unique-index violation becomes 409 with the duplicate-entry message |
| ErrorHandler.CastFailureIsBadRequest | Backend/src/middlewares/errorHandler.ts:30-37 | an id that cannot be cast, on any path, answers 400 with "Invalid ID format" |
| Text.Utf16Length | Backend/src/middlewares/validate.ts:59-61 | `length` counts UTF-16 code units, between one and two per character |
| Text.Utf16LengthBmp | Backend/src/middlewares/validate.ts:59-61 | within the Basic Multilingual Plane, `length` counts characters |
| Validate.Validate | Backend/src/middlewares/validate.ts:14-74 | `next()` exactly when no rule complains, else one 400 error joining every complaint with "; " in rule order |
| Validate.RuleComplaints | Backend/src/middlewares/validate.ts:18-66 | the complaints pushed for one rule are exactly the rule's complaints: only "required" for a blank required value, none for an absent optional one, else the type, range and length checks in that order |
| Validate.Messages | Backend/src/middlewares/validate.ts:20-66 | one message per complaint |
| Validate.RequiredBlank | Backend/src/middlewares/validate.ts:20-26 | a required field that is absent, null or "" gets exactly "<field> is required" and no other check runs |
| Validate.OptionalAbsent | Backend/src/middlewares/validate.ts:28 | an optional field that is absent or null gets no message |
| Validate.TypeChecks | Backend/src/middlewares/validate.ts:30-40 | a present value of the wrong type gets that type's message; a non-scalar gets only type messages |
| Validate.BoundsByType | Backend/src/middlewares/validate.ts:42-66 | `min`/`max` apply only to numbers and `maxLength` only to strings; a number within both bounds passes them |
| Validate.AllErrorsConcat | Backend/src/middlewares/validate.ts:17-67 | no rule stops the others: the complaints of two rule lists are each list's, concatenated |
| Validate.PassesIff | Backend/src/middlewares/validate.ts:17-73 | a body passes exactly when each rule on its own finds nothing |
| Validate.ImporterPayloadRefused | Backend/src/routes/productRoutes.ts:25-31 | a well-formed product body with `images` but no `image` is refused with exactly "image is required" |
| Validate.FormPayloadPassesRules | Backend/src/routes/productRoutes.ts:25-31 | a body with a string `image` and no `images` passes the rules, reaching a controller that reads `images` |
| Validate.ImporterPayloadAccepted | Backend/src/controllers/productController.ts:101-103 | with an `images` array rule in place of the `image` rule, the importer's body passes |
| Validate.CreateRulesUnfold | Backend/src/routes/productRoutes.ts:25-31 | the five product rules' complaints are those of each rule, in order |
| CategoryController.AddToSet | Backend/src/controllers/categoryController.ts:117-122 | `$addToSet` keeps the old list as a prefix, ends with exactly one copy of a new value, and keeps every other count |
| CategoryController.AddToSetIdempotent | Backend/src/controllers/categoryController.ts:117-122 | adding twice is adding once |
| CategoryController.PullUndoesAdd | Backend/src/controllers/categoryController.ts:205-211 | `$pull` after `$addToSet` of an absent value gives the list back |
| CategoryController.Rename | Backend/src/controllers/categoryController.ts:182-188 | the positional rename replaces every `from` entry with `to` in place and leaves the rest |
| CategoryController.RenameBack | Backend/src/controllers/categoryController.ts:182-188 | renaming back restores the list when the new name was unused |
| CategoryController.RenameCounts | Backend/src/controllers/categoryController.ts:182-188 | after a rename the old name is gone and its occurrences are counted under the new one |
| CategoryController.OnlyCategoriesDifferKeepsKeys | Backend/src/models/Product.ts:13-16 | rewriting only `category` lists keeps product ids and slugs unique |
| CategoryController.PullAllRemovesName | Backend/src/controllers/categoryController.ts:221-240 | deleting a category leaves no product naming it and removes only that name |
| CategoryController.View | Backend/src/controllers/categoryController.ts:48-61 | a listing row carries its category and a count equal to the size of its id union |
| CategoryController.ViewMembership | Backend/src/controllers/categoryController.ts:11-61 | an id is in `allProductIds` exactly when the category lists it or a product with that id carries the name in any letter case |
| CategoryController.AutoMatchIgnoresCase | Backend/src/controllers/categoryController.ts:13-36 | a product carrying the name in another case is matched |
| CategoryController.NameLePreorder | Backend/src/controllers/categoryController.ts:64 | ordering by name is a total preorder |
| CategoryController.GetCategoriesOrdered | Backend/src/controllers/categoryController.ts:8-82 | the listing holds one row per category and is sorted by name |
| CategoryController.MainImage | Backend/src/controllers/categoryController.ts:103-104 | `find(isMain)`: the first main image, or none when no image is main |
| CategoryController.FeaturedImageUrl | Backend/src/controllers/categoryController.ts:103-104 | undefined exactly without images; otherwise the URL of one of them, non-empty when the first main image has one |
| CategoryController.FeaturedWithoutMain | Backend/src/controllers/categoryController.ts:103-104 | with no main image the first image's URL is used |
| CategoryController.NewCategoryProvenance | Backend/src/controllers/categoryController.ts:93-114 | on create a featured product wins over an upload, an upload alone is marked "upload", and neither gives no source |
| CategoryController.AsStored | Backend/src/models/Category.ts:30-39 | the schema stores each ObjectId of a list in its cast form and keeps the position of every entry |
| CategoryController.UpdatedCategory | Backend/src/controllers/categoryController.ts:144-165 | an update keeps the id and slug, takes the new name, and replaces the id list, cast, only when one is sent |
| CategoryController.UpdateNullFeatured | Backend/src/controllers/categoryController.ts:144-165 | `featuredProductId: null` clears the featured product, leaving the source "upload" only with an upload URL |
| CategoryController.UpdateFeatured | Backend/src/controllers/categoryController.ts:151-159 | a featured product sets the source to "product" and, when it has images, the URL to its featured image over any upload, and the featured id to the product's own `_id`; with no images the `undefined` URL is dropped and the stored URL stays |
| CategoryController.Featured | Backend/src/controllers/categoryController.ts:151-155 | the featured product is present exactly for a truthy id, and is the stored product with that id once cast |
| CategoryController.UpdateUploadOnly | Backend/src/controllers/categoryController.ts:144-165 | with no featured-product key the featured product stays; an upload URL alone is marked "upload" |
| CategoryController.SyncDiff | Backend/src/controllers/categoryController.ts:182-211 | for ids in the form the server prints them, newly assigned products gain the name once, unassigned ones lose it, the rest are only renamed |
| CategoryController.SyncRecasedIdUnlinks | Backend/src/controllers/categoryController.ts:140-211 | an id already listed, re-sent in another letter case, counts as added and as removed by the string diff; the later `$pull` leaves its product without the name while the stored list still names it |
| CategoryController.EmptyInMatchesNothing | Backend/src/controllers/categoryController.ts:197-211 | skipping `updateMany` for an empty `added` or `removed` list changes nothing |
| CategoryController.SyncKeepsKeys | Backend/src/controllers/categoryController.ts:182-211 | the product-side sync rewrites only `category` lists |
| CategoryController.SyncAddsOnce | Backend/src/controllers/categoryController.ts:194-202 | for ids in printed form, a newly assigned product ends with the name exactly once |
| CategoryController.AppendCategoryKeys | Backend/src/models/Category.ts:7-18 | a new category with a fresh id, a free name and a free slug keeps the unique indexes |
| CategoryController.CreateCategory | Backend/src/controllers/categoryController.ts:84-129 | succeeds exactly when the name is free, a truthy featured id casts and names a product, the name is non-empty and its slug free; otherwise, in that order: 400 duplicate name, 400 cast error, 404 featured product, the validation error, the duplicate-slug error, with nothing written; on success the new document is appended and the listed products get the name |
| CategoryController.UpdateCategory | Backend/src/controllers/categoryController.ts:131-218 | the update as the code evidently intends: in order, a cast error for a malformed id, 404 for an unknown one, cast error or 404 for the featured product, a cast error for a malformed `productIds` entry, the validation error for an empty name, the duplicate-name error; every other request succeeds, replaces the category in place and renames, adds and pulls on products; a failure writes nothing |
| CategoryController.SyncProducts | Backend/src/controllers/categoryController.ts:182-211 | the three `updateMany` calls change only products, to the specified diff |
| CategoryController.UpdateCategoryAsWritten | Backend/src/controllers/categoryController.ts:131-144 | as written: a cast error for a malformed id, 404 for an unknown one, else a `ReferenceError` on the undeclared `name` |
| CategoryController.AsWrittenUpdateFails | Backend/src/controllers/categoryController.ts:144 | that error reaches the client as the generic 500 |
| CategoryController.DeleteCategory | Backend/src/controllers/categoryController.ts:221-240 | succeeds exactly for a well-formed id of a stored category; else a cast error or 404 with nothing changed; on success that category goes and its name is pulled from every product |
| ProductController.PageNumCases | Backend/src/controllers/productController.ts:19-24 | the page is the parsed positive number, else 1 |
| ProductController.LimitNumCases | Backend/src/controllers/productController.ts:19-24 | the limit lies in [1, 50]: 0 or non-numeric gives 20, negative gives 1, above 50 gives 50 |
| ProductController.LimitOfInteger | Backend/src/controllers/productController.ts:19-24 | the same cases for a limit written as an integer |
| ProductController.PageOfInteger | Backend/src/controllers/productController.ts:19-24 | a positive page written as an integer is taken as it is |
| ProductController.TotalPages | Backend/src/controllers/productController.ts:66-75 | `Math.ceil(total / limit)`: the least page count covering every match |
| ProductController.SortKeyOf | Backend/src/controllers/productController.ts:39-51 | only "price-low" and "price-high" select price orders; any other key is newest first |
| ProductController.ProductLePreorder | Backend/src/controllers/productController.ts:39-51 | each sort order is a total preorder |
| ProductController.GetProductsShape | Backend/src/controllers/productController.ts:10-76 | a page has at most `limit` matching products in the asked order; `total` counts all matches and `totalPages` is their ceiling division |
| ProductController.ListingShape | Backend/src/controllers/productController.ts:53-56 | a page of a sorted filtered list is bounded, filtered and sorted |
| ProductController.ListingCovers | Backend/src/controllers/productController.ts:53-75 | every match is shown on a page between 1 and `totalPages`, at the expected slot |
| ProductController.FindBySlug | Backend/src/controllers/productController.ts:81 | `findOne({slug})`: a hit has that slug; a miss means none has it |
| ProductController.GetProductBySlug | Backend/src/controllers/productController.ts:79-94 | the key is tried as a slug, then as an id; an id that does not cast finds nothing, as the swallowed cast error does; 404 exactly when neither finds a product |
| ProductController.SlugBeforeId | Backend/src/controllers/productController.ts:81-88 | a slug match wins over a product whose id is that string |
| ProductController.CreateProduct | Backend/src/controllers/productController.ts:97-108 | without a non-empty `images` array, 400; otherwise the duplicate-key error when the slug is taken, else the product is appended with its slug; a failure writes nothing |
| ProductController.RemoveImagesKeeps | Backend/src/controllers/productController.ts:122-131 | the removal loop keeps exactly the images not named, in order |
| ProductController.RemoveImagesStep | Backend/src/controllers/productController.ts:122-131 | one more removal is one more filter condition |
| ProductController.UnlistedNone | Backend/src/controllers/productController.ts:122-131 | removing nothing keeps every image |
| ProductController.UnlistedSplit | Backend/src/controllers/productController.ts:122-131 | the removal test of a longer list is the conjunction of the tests |
| ProductController.ApplyPatch | Backend/src/models/Product.ts:71-77 | `Object.assign` keeps id, images and creation time; a changed name recomputes the slug, overriding any slug sent, and an unchanged name keeps the slug sent or the stored one |
| ProductController.EmptyPatch | Backend/src/controllers/productController.ts:145 | an empty patch changes nothing |
| ProductController.FinalImagesCases | Backend/src/controllers/productController.ts:122-137 | a supplied image array replaces the list; otherwise the list keeps the images not removed |
| ProductController.UpdateProduct | Backend/src/controllers/productController.ts:111-152 | a cast error for a malformed id and 404 for an unknown one, both changing nothing; otherwise the listed deletions are requested and kept even on refusal, an empty final image list gives 400, a slug taken by another product the duplicate-key error, and any other request replaces the product by the patched one |
| ProductController.RemoveListed | Backend/src/controllers/productController.ts:122-131 | one deletion is requested per listed id, in order, and the kept images are exactly those whose public id is not listed |
| ProductController.DeleteProduct | Backend/src/controllers/productController.ts:155-178 | succeeds exactly for a well-formed id of a stored product; else a cast error or 404 with nothing changed; on success every image's deletion is requested and the product removed |
| ProductController.AllPublicIdsMember | Backend/src/controllers/productController.ts:190-199 | an id is requested for deletion exactly when it is the public id of some image of some product given |
| ProductController.BulkDeleteProducts | Backend/src/controllers/productController.ts:181-205 | succeeds exactly for a non-empty array of well-formed ids; else 400 or a cast error with nothing changed; on success the matching products' images are requested for deletion and those products removed |
| ProductController.RequestImageDeletions | Backend/src/controllers/productController.ts:192-199 | the deletions requested are the public ids of all images of the products, product by product; the collections are untouched |
| ProductController.FilterKeepsKeys | Backend/src/controllers/productController.ts:201 | removing products keeps the remaining keys unique |
| ProductController.BulkDeletePartition | Backend/src/controllers/productController.ts:181-205 | removed and kept products together are the old collection; no kept product has a listed id once cast |
| FeedbackController.BuildQuery | Backend/src/controllers/feedbackController.ts:8-41 | status filter exactly for a value other than "" and "all", search exactly for a non-empty term, and the sort key mapping |
| FeedbackController.FeedbackLePreorder | Backend/src/controllers/feedbackController.ts:26-41 | each of the four orders is a total preorder |
| FeedbackController.FindSortedSpec | Backend/src/controllers/feedbackController.ts:43 | the listing holds exactly the selected entries, sorted |
| FeedbackController.NoFilterListsAll | Backend/src/controllers/feedbackController.ts:8-46 | without status and search every entry is listed |
| FeedbackController.ParseStatus | Backend/src/controllers/feedbackController.ts:61-63 | only the strings "new" and "reviewed" are statuses |
| FeedbackController.ParseStatusText | Backend/src/controllers/feedbackController.ts:61-63 | a status reads back from its own text and only from it |
| FeedbackController.UpdateFeedbackStatus | Backend/src/controllers/feedbackController.ts:57-77 | succeeds exactly for a valid status and a well-formed id of a stored entry; else, in that order, 400 for the status, a cast error, 404, with nothing changed; on success only that entry's status changes |
| FeedbackController.DeleteFeedback | Backend/src/controllers/feedbackController.ts:80-90 | succeeds exactly for a well-formed id of a stored entry; else a cast error or 404 with nothing changed; on success exactly that entry is removed |
| ClientTypes.Categories | Frontend/src/pages/admin/ProductManager.tsx:104-106 | a single category becomes a one-element list; a list is kept |
| ClientForms.Or | Frontend/src/pages/admin/ProductForm.tsx:92-115 | `v \|\| fallback`: a truthy value wins, else the fallback |
| ClientForms.FailureText | Frontend/src/pages/admin/CategoryManager.tsx:83 | `err.message \|\| fallback`: the message when there is one, else the fallback |
| ClientForms.CategoryOr | Frontend/src/pages/admin/ProductForm.tsx:96-99 | the merged category is an array whenever the fallback is |
| ClientForms.CategoryOrStable | Frontend/src/pages/admin/ProductForm.tsx:96-99 | a merged category list survives a second merge; a truthy scalar becomes a one-element list |
| ClientForms.NumberText | Frontend/src/pages/admin/ProductForm.tsx:101-102 | `toString()` throws exactly on null; undefined keeps the form's value |
| ClientForms.Strs | Frontend/src/pages/admin/PinParser.tsx:266-272 | the entries as JSON strings, one for one |
| ClientForms.SubmitFeatures | Frontend/src/pages/admin/PinParser.tsx:266-272 | text is split into trimmed non-empty entries; any other value is sent unchanged |
| ClientForms.JoinStrs | Frontend/src/pages/admin/ProductForm.tsx:104-106 | joining JSON strings joins their texts |
| ClientForms.FeaturesRoundTrip | Frontend/src/pages/admin/ProductForm.tsx:104-106 | importing a feature array and submitting sends the same entries back |
| PinParser.OverlayPin | Frontend/src/pages/admin/PinParser.tsx:85-94 | a truthy overlay is folded into the prompt and removed, other keys kept; a pin without one is unchanged; a null pin throws |
| PinParser.OverlayPinIdempotent | Frontend/src/pages/admin/PinParser.tsx:85-94 | folding twice is folding once |
| PinParser.Overlaid | Frontend/src/pages/admin/PinParser.tsx:85-94 | the fold fails exactly when some pin is nullish; otherwise each pin is folded |
| PinParser.FoldPins | Frontend/src/pages/admin/PinParser.tsx:85-94 | the in-place loop computes the fold |
| PinParser.ImportedForm | Frontend/src/pages/admin/PinParser.tsx:96-122 | the import throws exactly when price, rating or reviews is null; the category is always an array |
| PinParser.ImportedImages | Frontend/src/pages/admin/PinParser.tsx:123-134 | an `images` array is taken; else a string `image` becomes one legacy entry; else none |
| PinParser.ImportEmptyProduct | Frontend/src/pages/admin/PinParser.tsx:96-134 | an empty product object gives the empty form and no images |
| PinParser.Import | Frontend/src/pages/admin/PinParser.tsx:76-144 | a nullish value fails; a product is imported exactly when the `product` value is truthy |
| PinParser.ImportContent | Frontend/src/pages/admin/PinParser.tsx:76-144 | the parse handler's body computes the import |
| PinParser.WithMain | Frontend/src/pages/admin/PinParser.tsx:241-248 | `isMain` becomes true exactly at the index, all other properties kept |
| PinParser.WithMainExactlyOne | Frontend/src/pages/admin/PinParser.tsx:241-248 | after a valid selection exactly one image is main; after an invalid one, none |
| PinParser.WithMainIdempotent | Frontend/src/pages/admin/PinParser.tsx:241-248 | selecting twice is selecting once |
| PinParser.Without | Frontend/src/pages/admin/PinParser.tsx:238-240 | a valid index removes that image and shifts the rest; an invalid one changes nothing |
| PinParser.WithoutCounts | Frontend/src/pages/admin/PinParser.tsx:238-240 | exactly that one image is taken out |
| PinParser.SubmitRequest | Frontend/src/pages/admin/PinParser.tsx:250-283 | no request exactly without images; otherwise `images`, empty `removedImages`, `inStock` true, converted features and no `image` |
| PinParser.SubmitRefusedByRoute | Backend/src/routes/productRoutes.ts:29 | the importer's request is refused by the create rules with only "image is required", and passes the corrected rules |
| PinParser.PinParserPage.constructor | Frontend/src/pages/admin/PinParser.tsx:36-62 | the page starts with no data, no error, the empty form and no images |
| PinParser.PinParserPage.ReportInvalid | Frontend/src/pages/admin/PinParser.tsx:139-143 | the catch branch sets the error and hides the form |
| PinParser.PinParserPage.HandleParse | Frontend/src/pages/admin/PinParser.tsx:76-144 | blank input does nothing; a syntax error or throw reports invalid JSON; otherwise the data is shown and a product fills the form and images |
| PinParser.PinParserPage.ShowImported | Frontend/src/pages/admin/PinParser.tsx:96-138 | a product import fills the form and the images, none leaves them; the parsed data is shown and the form closed |
| PinParser.PinParserPage.RemoveImage | Frontend/src/pages/admin/PinParser.tsx:238-240 | only the image list changes, to `Without` |
| PinParser.PinParserPage.SetMainImage | Frontend/src/pages/admin/PinParser.tsx:241-248 | only the image list changes, to `WithMain` |
| PinParser.PinParserPage.SubmitProduct | Frontend/src/pages/admin/PinParser.tsx:250-297 | refuses with a toast without images; sends the request otherwise, hiding the form on success and showing the error's message, or the fixed text, on failure |
| ProductForm.Merge | Frontend/src/pages/admin/ProductForm.tsx:89-115 | the updater handed to `setFormData` throws exactly on a nullish value or a null numeric field; an array category stays an array |
| ProductForm.MergeNullThrows | Frontend/src/pages/admin/ProductForm.tsx:92-102 | the updater throws on `null` and on an object whose price is `null` |
| ProductForm.MergeUnrelated | Frontend/src/pages/admin/ProductForm.tsx:92-115 | an object with none of the form's keys leaves the form unchanged |
| ProductForm.MergeIdempotent | Frontend/src/pages/admin/ProductForm.tsx:92-115 | importing the same JSON twice is importing it once |
| ProductForm.MergeTextFields | Frontend/src/pages/admin/ProductForm.tsx:92-115 | a truthy text wins and a falsy one keeps the form's; a defined price is converted, an undefined one kept |
| ProductForm.SubmitBody | Frontend/src/pages/admin/ProductForm.tsx:132-182 | the body has `image` and converted features but no `images`; create adds `inStock` true and a placeholder for a falsy image |
| ProductForm.CreateBodyPassesRules | Frontend/src/pages/admin/ProductForm.tsx:156-174 | the create body passes the route's rules but lacks the `images` the controller needs |
| ProductForm.ProductFormPage.constructor | Frontend/src/pages/admin/ProductForm.tsx:20-32 | the page starts from the initial form and an empty JSON box, rendering normally |
| ProductForm.ProductFormPage.HandleJsonImport | Frontend/src/pages/admin/ProductForm.tsx:89-121 | a syntax error toasts the error and changes nothing; any parsed value toasts success and clears the box; the form takes the merge, or, when the updater throws, stays and the next render fails |
| ProductForm.ProductFormPage.ToggleCategory | Frontend/src/pages/admin/ProductForm.tsx:314-329 | checking appends the name; unchecking removes every copy |
| ProductForm.ToggleCategorySpec | Frontend/src/pages/admin/ProductForm.tsx:314-329 | a checked box is ticked, an unchecked one clear, and check-then-uncheck restores the list |
| CategoryManager.Payload | Frontend/src/pages/admin/CategoryManager.tsx:53-64 | the upload URL is sent exactly in upload mode, a featured product only in product mode, never both |
| CategoryManager.RequestProvenance | Frontend/src/pages/admin/CategoryManager.tsx:53-64 | the server takes its picture from a product exactly when a product is picked in product mode |
| CategoryManager.EditForm | Frontend/src/pages/admin/CategoryManager.tsx:100-110 | the edit form takes the name, product mode exactly for a product source, and an upload URL only from an uploaded picture |
| CategoryManager.EditRoundTrip | Frontend/src/pages/admin/CategoryManager.tsx:100-110 | saving an untouched edit sends back the listed name, derived product ids and picture source |
| CategoryManager.FindClient | Frontend/src/pages/admin/CategoryManager.tsx:336-341 | `find` by id: a hit has the id; a miss means none has it |
| CategoryManager.PreviewImage | Frontend/src/pages/admin/CategoryManager.tsx:336-341 | the preview is never empty, and the placeholder without a product |
| CategoryManager.PreviewMatchesSaved | Frontend/src/pages/admin/CategoryManager.tsx:356-361 | the preview shows the picture the server would save |
| CategoryManager.PreviewWithoutImages | Frontend/src/pages/admin/CategoryManager.tsx:356-361 | a product without pictures shows its legacy image or the placeholder |
| CategoryManager.Picker | Frontend/src/pages/admin/CategoryManager.tsx:315-321 | the first ten products whose name contains the query, ignoring case |
| CategoryManager.PickerComplete | Frontend/src/pages/admin/CategoryManager.tsx:315-321 | with fewer than ten matches every match is offered |
| CategoryManager.ReplaceCategory | Frontend/src/pages/admin/CategoryManager.tsx:66-71 | the matching entry is replaced and the rest kept, in place |
| CategoryManager.RemoveCategory | Frontend/src/pages/admin/CategoryManager.tsx:117-136 | no kept entry has the id |
| CategoryManager.RemoveCategoryKeeps | Frontend/src/pages/admin/CategoryManager.tsx:117-136 | every other category is kept; kept and removed make up the list |
| CategoryManager.CategoryManagerPage.constructor | Frontend/src/pages/admin/CategoryManager.tsx:11-28 | the page starts with the listed categories, the initial form and no edit |
| CategoryManager.CategoryManagerPage.SaveCategory | Frontend/src/pages/admin/CategoryManager.tsx:49-87 | a blank name sends nothing; otherwise the payload is sent; on failure the error's message, or the fixed text, is shown and nothing changes; on success the list is updated and the form cleared |
| CategoryManager.CategoryManagerPage.ApplySaved | Frontend/src/pages/admin/CategoryManager.tsx:66-80 | the saved category replaces the edited one or is appended, the toast says which, and the form is cleared |
| CategoryManager.CategoryManagerPage.StartEdit | Frontend/src/pages/admin/CategoryManager.tsx:100-110 | editing that category with its edit form |
| CategoryManager.CategoryManagerPage.CancelEdit | Frontend/src/pages/admin/CategoryManager.tsx:89-98 | no edit, cleared form and query |
| CategoryManager.CategoryManagerPage.ToggleProduct | Frontend/src/pages/admin/CategoryManager.tsx:415-428 | checking appends the id; unchecking removes every copy |
| CategoryManager.CategoryManagerPage.PickFeatured | Frontend/src/pages/admin/CategoryManager.tsx:325-331 | the picked product becomes featured and its name the query |
| CategoryManager.CategoryManagerPage.DeleteCategory | Frontend/src/pages/admin/CategoryManager.tsx:117-136 | the list changes only when confirmed and deleted, and then loses that category with a success toast; a failed deletion shows the error's message or the fixed text |
| ProductManager.Visible | Frontend/src/pages/admin/ProductManager.tsx:103-115 | every listed product passes both filters and comes from the list |
| ProductManager.VisibleComplete | Frontend/src/pages/admin/ProductManager.tsx:103-115 | every product passing both filters is listed |
| ProductManager.NoFiltersListAll | Frontend/src/pages/admin/ProductManager.tsx:103-115 | an empty search under "All" lists every product in order |
| ProductManager.CategoryOptions | Frontend/src/pages/admin/ProductManager.tsx:124-133 | the options start with "All" |
| ProductManager.CategoryOptionsSpec | Frontend/src/pages/admin/ProductManager.tsx:124-133 | every product category is offered, and every option lists something |
| ProductManager.EveryListedOnAPage | Frontend/src/pages/admin/ProductManager.tsx:117-121 | every listed product is on a page the buttons reach |
| ProductManager.ShowingCountsRows | Frontend/src/pages/admin/ProductManager.tsx:349-356 | the footer's range counts exactly the rows shown |
| ProductManager.PreviousPage | Frontend/src/pages/admin/ProductManager.tsx:360 | one page back, never below 1 |
| ProductManager.NextPage | Frontend/src/pages/admin/ProductManager.tsx:367-368 | one page on, stopping at the last page |
| ProductManager.NextTimes | Frontend/src/pages/admin/ProductManager.tsx:367-368 | repeated "Next" never goes below page 1 |
| ProductManager.NextWalksPages | Frontend/src/pages/admin/ProductManager.tsx:367-368 | from any page, "Next" walks through the pages in turn and stops at the last |
| ProductManager.Toggle | Frontend/src/pages/admin/ProductManager.tsx:92-100 | the id's selection flips and no other id changes |
| ProductManager.ToggleTwice | Frontend/src/pages/admin/ProductManager.tsx:92-100 | toggling twice restores the selection |
| ProductManager.Remaining | Frontend/src/pages/admin/ProductManager.tsx:61-81 | no kept product is selected |
| ProductManager.RemainingSpec | Frontend/src/pages/admin/ProductManager.tsx:61-81 | every unselected product is kept; kept and removed make up the list |
| ProductManager.SetStock | Frontend/src/pages/admin/ProductManager.tsx:292-304 | only that product's `inStock` changes |
| ProductManager.StockTwice | Frontend/src/pages/admin/ProductManager.tsx:292-304 | flipping a row twice restores the list |
| ProductManager.ProductManagerPage.constructor | Frontend/src/pages/admin/ProductManager.tsx:12-24 | the table starts unfiltered on page 1 with nothing selected |
| ProductManager.ProductManagerPage.SetSearch | Frontend/src/pages/admin/ProductManager.tsx:103-115 | only the search term changes; the page is not reset |
| ProductManager.ProductManagerPage.SetCategory | Frontend/src/pages/admin/ProductManager.tsx:103-115 | only the category changes; the page is not reset |
| ProductManager.ProductManagerPage.ToggleSelect | Frontend/src/pages/admin/ProductManager.tsx:92-100 | only the selection changes, by `Toggle` |
| ProductManager.ProductManagerPage.ToggleSelectAll | Frontend/src/pages/admin/ProductManager.tsx:83-90 | selects exactly the current page's rows, or clears the selection |
| ProductManager.ProductManagerPage.Previous | Frontend/src/pages/admin/ProductManager.tsx:360 | only the page changes, by `PreviousPage` |
| ProductManager.ProductManagerPage.Next | Frontend/src/pages/admin/ProductManager.tsx:367-368 | only the page changes, by `NextPage` |
| ProductManager.ProductManagerPage.DeleteProduct | Frontend/src/pages/admin/ProductManager.tsx:40-59 | the product goes only when confirmed and deleted, with the matching toast |
| ProductManager.ProductManagerPage.BulkDelete | Frontend/src/pages/admin/ProductManager.tsx:61-81 | confirmed and deleted removes the selected rows, clears the selection and counts them in the toast |
| ProductManager.ProductManagerPage.ToggleStock | Frontend/src/pages/admin/ProductManager.tsx:292-304 | on success the row's stock flips, with the toast for its new state |
| FeedbackManager.CategoryLabel | Frontend/src/pages/admin/FeedbackManager.tsx:135-137 | the label is never empty and is the entry's own category when it has one |
| FeedbackManager.Labels | Frontend/src/pages/admin/FeedbackManager.tsx:135-137 | one label per entry |
| FeedbackManager.UniqueCategories | Frontend/src/pages/admin/FeedbackManager.tsx:135-137 | every entry's label is offered, only labels are offered, each once |
| FeedbackManager.Shown | Frontend/src/pages/admin/FeedbackManager.tsx:96-126 | the list with the label-based category test (the corrected filter under Findings), drawn from the entries; `ShownSpec` states its contents and order |
| FeedbackManager.ShownAsWritten | Frontend/src/pages/admin/FeedbackManager.tsx:96-126 | the list with the page's own `f.category === filterCategory` test, drawn from the entries; `ShownAsWrittenSpec` states its contents and order |
| FeedbackManager.ShownSpec | Frontend/src/pages/admin/FeedbackManager.tsx:96-126 | the list holds exactly the entries that pass, in the chosen order |
| FeedbackManager.ShownAsWrittenSpec | Frontend/src/pages/admin/FeedbackManager.tsx:96-126 | with the page's own category test, the list holds exactly the entries that pass it, in the chosen order |
| FeedbackManager.ShownAgree | Frontend/src/pages/admin/FeedbackManager.tsx:96-133 | both filters give the same list and page count unless a category is chosen while some entry has none |
| FeedbackManager.DefaultKeepsServerOrder | Frontend/src/pages/admin/FeedbackManager.tsx:115-126 | with no filter and the default sort the server's newest-first order is kept |
| FeedbackManager.GeneralOptionHidesUncategorised | Frontend/src/pages/admin/FeedbackManager.tsx:96-112 | an uncategorised entry is offered under "General", yet choosing "General" lists nothing |
| FeedbackManager.OptionsSelectTheirEntries | Frontend/src/pages/admin/FeedbackManager.tsx:135-137 | with the label test, every option selects the entries listed under it |
| FeedbackManager.CategoryTestsAgree | Frontend/src/pages/admin/FeedbackManager.tsx:96-112 | both category tests agree on entries that name a category |
| FeedbackManager.PreviousPage | Frontend/src/pages/admin/FeedbackManager.tsx:445 | one page back, never below 1, only with two pages or more |
| FeedbackManager.NextPage | Frontend/src/pages/admin/FeedbackManager.tsx:460 | one page on, stopping at the last |
| FeedbackManager.NextThenPrevious | Frontend/src/pages/admin/FeedbackManager.tsx:445-460 | next then previous returns to the page |
| FeedbackManager.SetStatus | Frontend/src/pages/admin/FeedbackManager.tsx:60-73 | only the entry with that id takes the status |
| FeedbackManager.ReviewedLeavesNewFilter | Frontend/src/pages/admin/FeedbackManager.tsx:60-73 | an entry marked reviewed leaves the "new" filter |
| FeedbackManager.Initials | Frontend/src/pages/admin/FeedbackManager.tsx:139-146 | at most two characters |
| FeedbackManager.InitialsOneWord | Frontend/src/pages/admin/FeedbackManager.tsx:139-146 | one word gives its upper-cased first letter |
| FeedbackManager.InitialsTwoWords | Frontend/src/pages/admin/FeedbackManager.tsx:139-146 | two words give both upper-cased first letters |
| FeedbackManager.FeedbackManagerPage.constructor | Frontend/src/pages/admin/FeedbackManager.tsx:20-37 | no filter, page 1, nothing open |
| FeedbackManager.FeedbackManagerPage.SetFilters | Frontend/src/pages/admin/FeedbackManager.tsx:44-46 | any filter or sort change returns to page 1 |
| FeedbackManager.FeedbackManagerPage.UpdateStatus | Frontend/src/pages/admin/FeedbackManager.tsx:60-73 | success updates the entry and an open view of it; failure changes nothing |
| FeedbackManager.FeedbackManagerPage.Delete | Frontend/src/pages/admin/FeedbackManager.tsx:75-94 | confirmed and deleted removes the entry and closes its view |
| FeedbackManager.FeedbackManagerPage.View | Frontend/src/pages/admin/FeedbackManager.tsx:397-403 | a new "General" entry opens as reviewed while it is marked reviewed, with the "Feedback marked as reviewed" toast when that succeeds; others just open |
| FeedbackManager.FeedbackManagerPage.Previous | Frontend/src/pages/admin/FeedbackManager.tsx:445 | only the page changes, by `PreviousPage` |
| FeedbackManager.FeedbackManagerPage.Next | Frontend/src/pages/admin/FeedbackManager.tsx:460 | only the page changes, by `NextPage` |
| ProductListing.InitialCategory | Frontend/src/pages/ProductListing.tsx:22 | the query's category, else the route's, else "All" |
| ProductListing.CategoryAfterNavigation | Frontend/src/pages/ProductListing.tsx:34-41 | a named category is taken; otherwise "All" or, during a search, the current choice |
| ProductListing.NavigationConfirmsInitial | Frontend/src/pages/ProductListing.tsx:22-41 | the first run of the effect keeps the initial choice |
| ProductListing.FindByName | Frontend/src/pages/ProductListing.tsx:74-76 | the first category whose name equals the choice ignoring case, or none |
| ProductListing.PriceLePreorder | Frontend/src/pages/ProductListing.tsx:105-116 | each price order is a total preorder |
| ProductListing.Shown | Frontend/src/pages/ProductListing.tsx:72-116 | the grid is drawn from the products |
| ProductListing.ShownSpec | Frontend/src/pages/ProductListing.tsx:72-116 | exactly the products passing the three filters, in the chosen order; "newest" keeps the given order |
| ProductListing.CategoryIgnoresCase | Frontend/src/pages/ProductListing.tsx:72-87 | the category filter ignores case, except that only "All" switches it off |
| ProductListing.FindByNameIgnoresCase | Frontend/src/pages/ProductListing.tsx:74-76 | the lookup ignores case |
| ProductListing.LinkedProductListed | Frontend/src/pages/ProductListing.tsx:86-87 | a product linked to the chosen category is listed whatever its own category |
| ProductListing.FindByNameFirst | Frontend/src/pages/ProductListing.tsx:74-76 | the lookup returns the first match |
| ProductListing.ProductListingPage.constructor | Frontend/src/pages/ProductListing.tsx:22-31 | the initial category, the 0 to 2000 price range and newest first |
| ProductListing.ProductListingPage.Loaded | Frontend/src/pages/ProductListing.tsx:43-60 | only the data changes |
| ProductListing.ProductListingPage.Navigated | Frontend/src/pages/ProductListing.tsx:34-41 | only the choice changes, as `CategoryAfterNavigation` says |
| ProductListing.ProductListingPage.Choose | Frontend/src/pages/ProductListing.tsx:174-186 | only the choice changes |
| ProductListing.ProductListingPage.SetSort | Frontend/src/pages/ProductListing.tsx:105-116 | only the sort changes |
| ProductListing.ProductListingPage.SetMin | Frontend/src/pages/ProductListing.tsx:217-218 | the minimum becomes the input capped by the maximum |
| ProductListing.ProductListingPage.SetMax | Frontend/src/pages/ProductListing.tsx:236-237 | the maximum becomes the input floored by the minimum |
| ProductListing.ProductListingPage.SetRange | Frontend/src/pages/ProductListing.tsx:248-256 | the slider sets both bounds |
| FeedbackPage.PlainFromSpec | Frontend/src/pages/Feedback.tsx:29-33 | the character scan accepts exactly when every remaining character is outside `[\s@]` |
| FeedbackPage.DotInSpec | Frontend/src/pages/Feedback.tsx:29-33 | the dot scan finds a '.' exactly when the range holds one |
| FeedbackPage.IsEmailSound | Frontend/src/pages/Feedback.tsx:29-33 | an accepted address splits as the pattern requires |
| FeedbackPage.IsEmailComplete | Frontend/src/pages/Feedback.tsx:29-33 | every address the pattern describes is accepted |
| FeedbackPage.IsEmailIff | Frontend/src/pages/Feedback.tsx:29-33 | the test accepts exactly the pattern's strings |
| FeedbackPage.EmailAcceptedByServer | Backend/src/models/Feedback.ts:13-17 | an address the page accepts matches the server's pattern after trimming and lower-casing |
| FeedbackPage.ValidateFieldSpec | Frontend/src/pages/Feedback.tsx:21-39 | a trimmed name needs 2 UTF-16 code units, email a non-blank valid address, a trimmed message 10; rating and category are not checked |
| FeedbackPage.SingleCharacterName | Frontend/src/pages/Feedback.tsx:25 | a one-character name passes exactly when its character lies outside the Basic Multilingual Plane (two code units) |
| FeedbackPage.ErrorsOfSpec | Frontend/src/pages/Feedback.tsx:75-80 | the map has an entry exactly for each failing key, holding its message |
| FeedbackPage.FormErrorsSpec | Frontend/src/pages/Feedback.tsx:75-80 | the final validation maps exactly the failing fields to their messages |
| FeedbackPage.BlankChecks | Frontend/src/pages/Feedback.tsx:21-39 | blank text fields get their "is required" messages; rating and category none |
| FeedbackPage.TextFieldsFail | Frontend/src/pages/Feedback.tsx:75-80 | failing exactly the three text fields gives a map of those three keys |
| FeedbackPage.BlankFormErrors | Frontend/src/pages/Feedback.tsx:71-80 | submitting blank text fields reports exactly the three required messages |
| FeedbackPage.InitialFormErrors | Frontend/src/pages/Feedback.tsx:10-16 | submitting the untouched form reports exactly the three required messages |
| FeedbackPage.FeedbackRulesUnfold | Backend/src/routes/feedbackRoutes.ts:16-21 | the four feedback rules' complaints, in order |
| FeedbackPage.NoErrorsChecksPass | Frontend/src/pages/Feedback.tsx:71-84 | a form with no errors has a trimmed name of 2 code units, a valid email and a trimmed message of 10 |
| FeedbackPage.BodyMeetsRules | Backend/src/routes/feedbackRoutes.ts:14-23 | a posted body with texts and a rating in range fails only on a name over 100 UTF-16 code units |
| FeedbackPage.AcceptedFormMeetsRoute | Backend/src/routes/feedbackRoutes.ts:14-23 | a form the page accepts passes the route, unless its name exceeds 100 UTF-16 code units |
| FeedbackPage.FeedbackForm.constructor | Frontend/src/pages/Feedback.tsx:10-20 | the initial form with no errors |
| FeedbackPage.FeedbackForm.Change | Frontend/src/pages/Feedback.tsx:41-57 | the field takes the value and its error is cleared |
| FeedbackPage.FeedbackForm.ChangeRating | Frontend/src/pages/Feedback.tsx:41-57 | the rating changes and its error is cleared |
| FeedbackPage.FeedbackForm.Blur | Frontend/src/pages/Feedback.tsx:59-69 | a failing field's error is recorded; a passing one leaves the map |
| FeedbackPage.FeedbackForm.CollectErrors | Frontend/src/pages/Feedback.tsx:75-80 | the loop builds the error map of `ErrorsOf` |
| FeedbackPage.FeedbackForm.Submit | Frontend/src/pages/Feedback.tsx:71-109 | with errors nothing is sent and they replace the map; otherwise the body is posted and success resets the form |
| Wishlist.Toggled | Frontend/src/lib/WishlistContext.tsx:37-43 | toggling flips the id's membership and keeps every other count |
| Wishlist.ToggleTwiceAbsent | Frontend/src/lib/WishlistContext.tsx:37-43 | toggling an unlisted id twice restores the list |
| Wishlist.ToggleTwicePresent | Frontend/src/lib/WishlistContext.tsx:37-43 | toggling a listed id twice keeps one copy, moved to the end |
| Wishlist.RemoveKeepsOrder | Frontend/src/lib/WishlistContext.tsx:31-33 | removal acts on each part of a list separately, so the other ids keep their order |
| Wishlist.WishlistStore.constructor | Frontend/src/lib/WishlistContext.tsx:18-25 | the list starts from the stored one, else empty, and is stored |
| Wishlist.WishlistStore.Add | Frontend/src/lib/WishlistContext.tsx:27-29 | appends the id, even a listed one |
| Wishlist.WishlistStore.Remove | Frontend/src/lib/WishlistContext.tsx:31-33 | every copy goes; other ids keep their counts |
| Wishlist.WishlistStore.IsIn | Frontend/src/lib/WishlistContext.tsx:35 | true exactly when some entry is the id |
| Wishlist.WishlistStore.Toggle | Frontend/src/lib/WishlistContext.tsx:37-43 | the list becomes `Toggled` and membership flips |
| PriceRangeSlider.LeftValue | Frontend/src/components/ui/PriceRangeSlider.tsx:60-64 | the left value is the input capped one below the upper bound |
| PriceRangeSlider.RightValue | Frontend/src/components/ui/PriceRangeSlider.tsx:77-81 | the right value is the input floored one above the lower bound |
| PriceRangeSlider.Slider.constructor | Frontend/src/components/ui/PriceRangeSlider.tsx:18-21 | the shown values and refs start from the props |
| PriceRangeSlider.Slider.SyncMin | Frontend/src/components/ui/PriceRangeSlider.tsx:42-45 | a new lower prop overwrites the value and the ref |
| PriceRangeSlider.Slider.SyncMax | Frontend/src/components/ui/PriceRangeSlider.tsx:47-50 | a new upper prop overwrites the value and the ref |
| PriceRangeSlider.Slider.MoveLeft | Frontend/src/components/ui/PriceRangeSlider.tsx:60-68 | the lower bound is clamped and the report has lower below upper |
| PriceRangeSlider.Slider.MoveRight | Frontend/src/components/ui/PriceRangeSlider.tsx:77-85 | the upper bound is clamped and the report has lower below upper |
| PriceRangeSlider.MovesKeepOrder | Frontend/src/components/ui/PriceRangeSlider.tsx:60-85 | any non-empty sequence of moves leaves the lower bound below the upper one |
| StarRating.FullStars | Frontend/src/components/ui/StarRating.tsx:25 | the whole stars are the greatest integer not above the rating |
| StarRating.HalfStarIff | Frontend/src/components/ui/StarRating.tsx:26 | a half star exactly when the rating is not whole, and then it lies strictly between two whole stars |
| StarRating.EmptyStars | Frontend/src/components/ui/StarRating.tsx:27 | the grey stars fill up to five, never negative |
| StarRating.FiveStars | Frontend/src/components/ui/StarRating.tsx:25-27 | a rating in [0, 5] shows exactly five stars |
| StarRating.NoEmptyAtTop | Frontend/src/components/ui/StarRating.tsx:27 | a rating of five or more shows no grey star |
| StarRating.FormatReviews | Frontend/src/components/ui/StarRating.tsx:11-16 | below a thousand, one to three decimal digits |
| StarRating.FormatReviewsValue | Frontend/src/components/ui/StarRating.tsx:11-16 | the digits read back as the count |
| Sidebar.IsActiveIff | Frontend/src/components/admin/Sidebar.tsx:48-51 | active exactly on the path or below it after '/', the latter not for "/admin" |
| Sidebar.SubRouteActive | Frontend/src/components/admin/Sidebar.tsx:48-51 | a sub-route activates its item |
| Sidebar.PartialNotActive | Frontend/src/components/admin/Sidebar.tsx:48-51 | an address extending the path without '/' is not active |
| Sidebar.AdminExactOnly | Frontend/src/components/admin/Sidebar.tsx:48-51 | "/admin" is active only on itself |
| Sidebar.ActiveIsPrefix | Frontend/src/components/admin/Sidebar.tsx:48-51 | an active item's path is a prefix of the address |
| Sidebar.AtMostOneActive | Frontend/src/components/admin/Sidebar.tsx:12-18 | whatever the address, at most one item is highlighted |

## Left out

- Regular expressions are modelled as predicates over strings. Search terms
  and filters are assumed to hold no regular-expression metacharacters.
- Dates: `createdAt` is an integer timestamp. The feedback search's date
  rendering is a parameter, `formatDate`.
- Floating point: prices and ratings are `real`. `Number()`, `NaN`,
  `parseFloat`, `toFixed` and rounding are not modelled. A number the page
  sends to the server is a parameter, `number`.
- StarRating.FormatReviews: covers only counts below 1000. The `k` format
  for larger counts needs decimal rounding, which is not modelled.
- `JSON.parse` is an input (`ParseOutcome`). `slugify` and `_id`
  generation are parameters.
- Mongoose schema validators are left out, except the unique indexes, which
  are the `Valid` invariant of the store. The `trim`/`lowercase` setters are
  left out too.
- Concurrency is left out: `Promise.all` ordering, and request interleaving
  on the store.
- Letter case: lower- and upper-casing cover ASCII letters only.
- Authentication, uploads, analytics and statistics are left out. So are the
  `createFeedback` handler and the `seed` script.
- The product form's prefill when editing an existing product is left out.
- Browser storage is the `stored` field of `Wishlist.WishlistStore`. Its
  JSON encoding, and the error `useWishlist` throws outside its provider,
  are left out.
- The feedback form keeps its rating as an integer.
- PriceRangeSlider: the track percentages are rendering and are left out.
- PinParser: the copy buttons, `handleChange` and `handleFileChange` are
  left out. So is the image upload.
- StarRating: rendering a negative rating would build an array of negative
  length and throw; the model counts stars only.
- ApplyPatch: copies the schema's text, number and list fields and `slug`.
  Other body keys are not modelled: `_id`, the timestamps, `image`, and keys
  outside the schema, which strict mode drops. Mongoose's casting of values to
  the schema's types is not modelled either.
- The product schema's single `image` field is not part of `Catalog.Product`.
  The model stores the `images` array that the controllers read and write.
- CreateCategory: a `productIds` entry that is not an ObjectId fails the new
  document's validation (400). The model stores the entry as given, and the
  `$in` of the sync skips it.
- ObjectId casting: an id casts when it is 24 hexadecimal digits in either
  letter case, and a stored `_id` is its 24 lower-case digits. Other forms some
  driver versions accept, such as 12-character strings, are not modelled.
- SyncDiff: states the diff for ids in the lower-case form the server prints.
  An id sent in another letter case is covered by `SyncRecasedIdUnlinks`.
- SyncAddsOnce: the same restriction as `SyncDiff`.
- Previous (FeedbackManager.FeedbackManagerPage.Previous): the page count
  comes from the label-based category filter, not the page's own
  `f.category === filterCategory`. The two agree (`ShownAgree`) unless a
  category is chosen while some entry has none.
- Next (FeedbackManager.FeedbackManagerPage.Next): the same page count as
  `Previous`, with the same caveat.
- Initials: takes each word's first character. JavaScript's `n[0]` and
  `substring(0, 2)` count UTF-16 code units, so a word that starts outside
  the Basic Multilingual Plane shows half a surrogate pair. A Dafny `char`
  cannot hold one.
- Toast display timing, navigation after a save, and loading spinners are
  left out.

## Findings

| source | as written | input that shows it | evidently intended | confidence | as-written member | corrected member |
|---|---|---|---|---|---|---|
| Backend/src/controllers/categoryController.ts:144 | `updateCategory` builds its update from `name`, `imageUploadUrl`, `featuredProductId` and `productIds`, none of which it declares, so every update of an existing category throws a `ReferenceError` and answers 500 | `PUT /api/categories/<existing id>` with `{"name": "Shoes"}` | read the four fields from `req.body` as `createCategory` does, then update and sync products | not executed | CategoryController.UpdateCategoryAsWritten, CategoryController.AsWrittenUpdateFails | CategoryController.UpdateCategory |
| Backend/src/routes/productRoutes.ts:29 | the create route requires a string `image`, while the controller requires a non-empty `images` array (productController.ts:101-103); the importer's body fails the route and the form's body fails the controller | the pin importer's body with `images` and no `image`; the product form's body with `image` and no `images` | one rule asking for the `images` array the controller reads | not executed | Validate.ImporterPayloadRefused, Validate.FormPayloadPassesRules, PinParser.SubmitRefusedByRoute, ProductForm.CreateBodyPassesRules | Validate.ImporterPayloadAccepted |
| Frontend/src/pages/admin/FeedbackManager.tsx:96-112 | the category dropdown lists `f.category \|\| "General"` (lines 135-137), but the filter compares `f.category` itself, so choosing "General" hides entries that have no category | one entry with no category; choose "General" | filter on the label the dropdown shows | not executed | FeedbackManager.GeneralOptionHidesUncategorised | FeedbackManager.OptionsSelectTheirEntries |
