# MarketFlow front-end, modelled in Dafny

MarketFlow is a single-page marketplace. A visitor signs up through a small
wizard: email and password, then a username, then the question whether
they hold an admin key. Typing the exact key makes them a seller; every
other path makes them a buyer. The signed-in user is kept in browser storage.

The dashboard lists the products of a hosted `products` table and lets a
seller publish new ones. A product has up to three images and an optional
video link. Product cards show an image carousel, a YouTube embed or a
plain video, and "Buy Now" / "Remove Listing" controls that depend on the
viewer's role.

This project models the logic in the App component (`App.tsx`) and in the
product card (`components/ProductCard.tsx`), and proves properties about
that model:

- `types.dfy` (module `Types`): the entities of `types.ts`.
- `js_strings.dfy` (module `JsStrings`): the JavaScript string operations
  the code relies on. These are `indexOf`, `includes`, `split` with a
  non-empty separator, `pop` on its result, and `toLowerCase` for ASCII.
  Each comes with the facts the rest of the project needs.
- `errors.dfy` (module `Errors`): `getErrorMessage`, the substring tests
  that sort a failure into "table missing", "connection/credentials" or
  "generic" at each call site, and the banner rule of the dashboard.
- `wizard.dfy` (module `Wizard`): the sign-up wizard as pure functions on a
  state value. It also gives the controls each screen offers, event traces,
  and the invariants that hold along every trace.
- `catalog.dfy` (module `Catalog`): the listing side:
  - mapping backend rows to products;
  - what a list request does to the loading and error flags;
  - the image upload loop and image removal;
  - the insert payload and its outcome, and deletion;
  - the title search.
- `app.dfy` (module `MarketApp`): class `App`, with one field per piece of
  component state plus `savedUser` for the `mf_user` storage entry. Each
  handler is a method that updates the fields in place. Its contract ties
  the new state to the pure function above, and its `modifies` clause names
  exactly the fields it may change.
- `product_card.dfy` (module `Cards`):
  - the carousel's modular index arithmetic;
  - the shown image with its placeholder;
  - `getEmbedUrl` and `isYouTube`;
  - the card's controls as a small state machine;
  - class `ProductCard`, whose methods are proved against it.

The list request of `fetchProducts` is split at its `await`: `BeginFetch`
is the part before the request and `FinishFetch` the part after it, with
the request's outcome as a parameter. `AddProduct`, `DeleteProduct` and
`GenerateDescription` are each modelled as one step, with the answer of
their request (and of the confirmation box) passed in.

Some facts about the code that the model keeps:

- No minimum password length is enforced; the credentials step only
  requires non-empty email and password.
- Logout resets the wizard and removes the stored record, and leaves the
  product form and the search text as they are.
- A product submitted without images is sent with a placeholder image.
- Error classification searches the single message `getErrorMessage`
  picks; on the returned-error paths the error's `code` is also compared
  with `42P01`.

## Model

| member | source | states |
|---|---|---|
| JsStrings.IndexOf | components/ProductCard.tsx:43 | the result is the first position where the pattern occurs; None exactly when it occurs nowhere |
| JsStrings.Includes | App.tsx:83-93 | `includes` holds exactly when the pattern occurs at some position |
| JsStrings.IncludesPrefixOfPattern | components/ProductCard.tsx:42 | a string containing `p + q` contains `p` |
| JsStrings.NotIncludesLonger | App.tsx:83-93 | (proof helper) a pattern longer than the string is never found |
| JsStrings.NotIncludesByChar | App.tsx:83-93 | (proof helper) a string lacking one of the pattern's characters does not contain it |
| JsStrings.Split | components/ProductCard.tsx:43 | `split` always yields at least one piece |
| JsStrings.JoinSplit | components/ProductCard.tsx:43 | joining the pieces with the separator gives back the string |
| JsStrings.SplitPiecesAvoidSeparator | components/ProductCard.tsx:43 | no piece of a split contains the separator |
| JsStrings.LastPieceIsFinalSegment | components/ProductCard.tsx:43 | the popped last piece is the text after the last separator (all of it when there is none) and holds no separator |
| JsStrings.FirstPieceIsInitialSegment | components/ProductCard.tsx:43 | the first piece is the text before the first separator; more than one piece exactly when the separator occurs |
| JsStrings.Lower | App.tsx:417 | lower-casing keeps the length and maps each character through ASCII lower-casing |
| JsStrings.LowerIdempotent | App.tsx:417 | lower-casing twice is lower-casing once, and leaves no upper-case ASCII letter |
| Errors.ErrorMessage | App.tsx:15-22 | the message is never empty; a falsy value gives "Unknown error occurred"; a string is its own message; an object with a message gives that message |
| Errors.ErrorMessagePriority | App.tsx:18-21 | for an object, the message is the first non-empty field of message, error_description, details, serialisation |
| Errors.DiagnoseListError | App.tsx:82-101 | missing-table exactly when the message has a list setup marker or the code is 42P01; connection exactly when it is not that and has a list connection marker |
| Errors.DiagnoseListThrown | App.tsx:115-123 | a thrown list error is never a missing table; it is a connection problem exactly when the message has "Failed to fetch" or "network" |
| Errors.DiagnoseInsertError | App.tsx:265-274 | the same two iff statements with the insert path's narrower marker sets |
| Errors.DiagnoseInsertThrown | App.tsx:288-292 | a thrown insert error is a connection problem exactly when the message has "Failed to fetch", and never a missing table |
| Errors.MentionsWithin | App.tsx:267-269 | (proof helper) a message with a marker of a smaller marker set has one of any set containing it |
| Errors.InsertDiagnosisNarrower | App.tsx:267-269 | a missing table on insert is one on listing; an insert connection problem is never generic on listing; a generic list error is generic on insert |
| Errors.NetworkFlaggedWhenListing | App.tsx:90-97 | a "network" message is a connection problem while listing |
| Errors.NetworkIsNoListSetupMarker | App.tsx:83-85 | "network" mentions no missing-table marker |
| Errors.NetworkGenericWhenInserting | App.tsx:267-273 | the same "network" message is a generic failure while inserting |
| Errors.CodeInMessageOnlyFlaggedWhenListing | App.tsx:85 | a message carrying "42P01" is a missing table when listing but generic when inserting |
| Errors.VisibleBanner | App.tsx:461-568 | the connection banner shows exactly when config is required, the setup banner exactly when setup is required and config is not, the error banner exactly when a non-empty error text is present and neither flag is set, so at most one shows |
| Wizard.Initial | App.tsx:26-43 | the first render is at the credentials step with a guest user and the stored record; with nothing stored it satisfies the session invariant |
| Wizard.Restore | App.tsx:56-63 | a stored record signs its user in at step COMPLETE and changes nothing else; no record changes nothing |
| Wizard.NextToUsername | App.tsx:135-142 | the wizard moves to USERNAME with a cleared error exactly when email and password are non-empty; otherwise the step stays and the error is the fixed text |
| Wizard.SignupComplete | App.tsx:144-152 | the wizard moves to ROLE_CHECK exactly when the username is non-empty, copying email and username into the user; otherwise step and user stay and the error is the fixed text |
| Wizard.FinalizeLogin | App.tsx:170-175 | the new user (email, username, role, no avatar) is both the signed-in user and the saved record, at step COMPLETE |
| Wizard.RoleSelection | App.tsx:154-160 | "yes" goes to ADMIN_INPUT and changes nothing else; "no" finalizes as a buyer |
| Wizard.AdminKeySubmit | App.tsx:162-168 | at ADMIN_INPUT, COMPLETE as SELLER exactly when the input equals the key character for character; otherwise only the error becomes "INVALID CODE" |
| Wizard.Logout | App.tsx:177-186 | the wizard returns to the state of a fresh load with nothing stored: guest user, first step, empty inputs and error |
| Wizard.EditAdminKey | App.tsx:394-397 | typing into the key field sets it and clears the error line; step, user and saved record are untouched |
| Wizard.Offered | App.tsx:337-408 | the dashboard offers only the logout button, and the logout button is offered only on the dashboard |
| Wizard.Handle | App.tsx:337-408 | a control turns a user into a seller only when it is Verify with the exact key, and then saves the record; reaching COMPLETE always saves a non-guest user; the saved record changes only on reaching COMPLETE or on logout |
| Wizard.RecordMatchesStep | App.tsx:170-186 | every control keeps "saved record present exactly at COMPLETE, and equal to the user" |
| Wizard.RecordMatchesRun | App.tsx:170-186 | the same along any trace of user actions |
| Wizard.RecordMatchesAfterLoad | App.tsx:56-63 | from any page load, the saved record and the completed step agree along every trace |
| Wizard.SessionInvariantStep | App.tsx:135-186 | every control keeps the session invariant: guards of earlier steps held, roles only at COMPLETE, a seller typed the key |
| Wizard.SessionInvariantRun | App.tsx:135-186 | the session invariant holds along any trace |
| Wizard.FreshSessionGuarantees | App.tsx:162-175 | from a fresh load, a seller is at COMPLETE having typed the exact key, and a completed wizard has non-empty credentials and username recorded in a non-guest user that is also saved |
| Wizard.RunAppend | App.tsx:337-408 | (proof helper) running two traces one after the other is running their concatenation |
| Wizard.SignUpWalk | App.tsx:337-374 | credentials, Next, username, Sign Up reach ROLE_CHECK with those values recorded |
| Wizard.KeyWalk | App.tsx:376-408 | at the role question, "yes", the exact key and Verify sign in a seller with the recorded email and username |
| Wizard.SellerReachable | App.tsx:337-408 | the eight-action seller path from a fresh load ends signed in as that seller, with the record saved |
| Wizard.WrongKeyKeepsGate | App.tsx:162-168 | a different key, letter case included, leaves the wizard at ADMIN_INPUT with "INVALID CODE" and the user and saved record unchanged |
| Catalog.ProductOfRow | App.tsx:104-112 | every field is copied; null images become empty; an empty video link becomes absent |
| Catalog.ProductsOfRows | App.tsx:104-112 | one product per row, in the backend's order |
| Catalog.BeginFetch | App.tsx:67-70 | loading is set and all three error flags are cleared; products stay |
| Catalog.FinishFetch | App.tsx:72-126 | loading ends; a success replaces the products with the mapped rows; a failure keeps them |
| Catalog.FetchProducts | App.tsx:66-127 | after a whole list request nothing is loading, the setup flag is set exactly for a missing-table diagnosis, the connection flag exactly for a connection diagnosis, and any other failure leaves its message as the error text |
| Catalog.FetchShowsOneBanner | App.tsx:66-127 | after a list request the error text stays null exactly on success or a missing table, and exactly the banner the diagnosis calls for is visible |
| Catalog.ReadImages | App.tsx:206-220 | reading never yields more images than files |
| Catalog.ReadImagesSnoc | App.tsx:206-220 | one more file appends its data URL exactly when it is readable |
| Catalog.ReadImagesProvenance | App.tsx:208-217 | every image read is the data URL of a file within the size limit whose read gave a result |
| Catalog.ReadImagesFromPrefix | App.tsx:200-217 | every image read from the first m files comes from a readable one among them |
| Catalog.ImagesAfterUpload | App.tsx:193-220 | the upload keeps the old list as a prefix, adds at most one image per selected file, leaves a full list or a missing file list unchanged, and never takes a list under three past three |
| Catalog.UploadBounded | App.tsx:193-220 | the upload only appends, never takes a list of at most three past three, and leaves a full list unchanged |
| Catalog.UploadAddsOnlyAdmitted | App.tsx:200-217 | every appended image comes from a readable file among the first `3 - len` selected |
| Catalog.UploadImages | App.tsx:206-220 | the loop's result is the upload function of the old list and the files |
| Catalog.WithoutIndex | App.tsx:227 | the index filter makes the list one shorter for an index in range and keeps its length otherwise |
| Catalog.WithoutIndexFromDrops | App.tsx:227 | the index filter drops exactly the element at the index, or nothing when the index is out of range |
| Catalog.RemoveImageDropsOne | App.tsx:226-228 | removeImage drops only element `i` and keeps the rest in order, one shorter; an out-of-range `i` changes nothing |
| Catalog.InsertPayloadFor | App.tsx:242-263 | no insert without title and price; otherwise the seller, title and price go as given, the images are the form's when there are some and exactly the one placeholder image otherwise, the description is the typed one when non-empty and "No description provided." otherwise, and the video is present exactly when entered |
| Catalog.InsertResultOf | App.tsx:265-292 | saved exactly when the insert answered without an error; setup exactly when its returned error has an insert setup marker or code; the connection banner exactly when its returned error is an insert connection problem or it threw "Failed to fetch" |
| Catalog.ListingAfterInsert | App.tsx:265-287 | a save starts a new list request; a failure keeps products, loading and error text, and an alert changes nothing |
| Catalog.DraftAfterInsert | App.tsx:276-286 | a save clears the form; anything else keeps it |
| Catalog.InsertFailureKeepsDraft | App.tsx:265-292 | a failed insert never clears the form, and a setup or connection failure puts up the matching banner |
| Catalog.DeleteResultOf | App.tsx:298-315 | nothing happens without confirmation; the result is Deleted exactly when confirmed and answered without an error |
| Catalog.FilterByTitle | App.tsx:416-418 | the search results are products of the list whose lower-cased title contains the lower-cased query |
| Catalog.SubsequenceOfTail | App.tsx:416-418 | (proof helper) a subsequence of a list's tail is a subsequence of the list |
| Catalog.SubsequenceDropHead | App.tsx:416-418 | (proof helper) dropping the head of a subsequence keeps it a subsequence |
| Catalog.FilterIsSubsequence | App.tsx:416-418 | the search keeps products in their order |
| Catalog.FilterKeepsExactlyMatches | App.tsx:416-418 | the search keeps each matching product exactly as often as the list holds it, and no other product |
| Catalog.FilterKeepsMatches | App.tsx:416-418 | every matching product is kept |
| Catalog.EmptyQueryKeepsAll | App.tsx:416-418 | an empty query shows every product |
| Catalog.FilterIgnoresQueryCase | App.tsx:417 | the search gives the same result for a query and its lower-cased form |
| MarketApp.App.constructor | App.tsx:26-50 | the first render: initial wizard state with the stored record, empty listing, empty form and search |
| MarketApp.App.RestoreSession | App.tsx:56-63 | the wizard fields become `Restore` of the old ones |
| MarketApp.App.HandleNextToUsername | App.tsx:135-142 | the wizard fields become `NextToUsername` of the old ones; only error and step may change |
| MarketApp.App.HandleSignupComplete | App.tsx:144-152 | the wizard fields become `SignupComplete` of the old ones |
| MarketApp.App.FinalizeLogin | App.tsx:170-175 | the wizard fields become `FinalizeLogin` of the old ones |
| MarketApp.App.HandleRoleSelection | App.tsx:154-160 | the wizard fields become `RoleSelection` of the old ones |
| MarketApp.App.ChooseHaveKey | App.tsx:379-382 | the "Yes, I have a key" button clears the error, then selects the key path |
| MarketApp.App.HandleAdminKeySubmit | App.tsx:162-168 | the wizard fields become `AdminKeySubmit` of the old ones |
| MarketApp.App.EditAdminKey | App.tsx:394-397 | the key input is set and a shown error is cleared |
| MarketApp.App.HandleLogout | App.tsx:177-186 | the wizard fields become the fresh-load state with nothing stored; the listing, form and search are outside its frame |
| MarketApp.App.Act | App.tsx:337-408 | a control acts only when its screen shows it, and then as its handler does |
| MarketApp.App.ActAll | App.tsx:337-408 | a trace of actions gives `Run` of the old wizard state; from a fresh load a seller has typed the exact key |
| MarketApp.App.BeginFetch | App.tsx:67-70 | the listing fields become `BeginFetch` of the old ones |
| MarketApp.App.FinishFetch | App.tsx:72-126 | the listing fields become `FinishFetch` of the old ones and the answer |
| MarketApp.App.SetSearchQuery | App.tsx:442 | the search text becomes the typed value |
| MarketApp.App.FilteredProducts | App.tsx:416-418 | the listed products are all among the loaded products |
| MarketApp.App.HandleImageUpload | App.tsx:189-224 | the image list becomes the upload function of the old list and the selected files, and never exceeds three once within three |
| MarketApp.App.RemoveImage | App.tsx:226-228 | the image list loses the element at the index |
| MarketApp.App.SetTitle | App.tsx:585 | the title becomes the typed value |
| MarketApp.App.SetPrice | App.tsx:595 | the price text becomes the typed value |
| MarketApp.App.SetVideo | App.tsx:603 | the video link becomes the typed value |
| MarketApp.App.SetDescription | App.tsx:656 | the description becomes the typed value |
| MarketApp.App.GenerateDescription | App.tsx:231-240 | an alert exactly when title or price is missing, leaving the form; otherwise the generated text becomes the description |
| MarketApp.App.AddProduct | App.tsx:242-296 | the row sent is `InsertPayloadFor` the seller and the form; without one only the alert is raised; otherwise listing and form move as `ListingAfterInsert`/`DraftAfterInsert` say, with an alert exactly for an `Alert` outcome |
| MarketApp.App.DeleteProduct | App.tsx:298-315 | the outcome is `DeleteResultOf`; only a deletion starts a new list request |
| MarketApp.App.CardFor | App.tsx:714-720 | a card gets the viewer's role, offers "Remove Listing" exactly to a seller and "Buy Now" exactly to a buyer |
| MarketApp.App.ShowsSellerForm | App.tsx:571 | the seller's form is shown only on the dashboard to a seller, and never together with the setup or connection banner |
| MarketApp.App.CurrentBanner | App.tsx:571 | while the setup or connection banner is up, the seller's form is hidden |
| Cards.DivModUnique | components/ProductCard.tsx:29 | (proof helper) a quotient and remainder in range are the ones `/` and `%` give |
| Cards.NextIndex | components/ProductCard.tsx:26-31 | with at most one image the index stays; otherwise an index in range stays in range, moving one on or wrapping from the last to 0 |
| Cards.PrevIndex | components/ProductCard.tsx:33-38 | with at most one image the index stays; otherwise an index in range stays in range, moving one back or wrapping from 0 to the last |
| Cards.PrevNextInverse | components/ProductCard.tsx:29-36 | back after forward and forward after back return to the same index |
| Cards.NextTimesShifts | components/ProductCard.tsx:29 | k forward presses move k places round the images |
| Cards.FullLapReturns | components/ProductCard.tsx:29 | as many forward presses as there are images return to the start |
| Cards.NextTimesStill | components/ProductCard.tsx:28 | with at most one image, no number of presses moves the index |
| Cards.CurrentImage | components/ProductCard.tsx:22-24 | the placeholder for a listing without images, the image at the index otherwise; undefined exactly for an index past the end of a non-empty list |
| Cards.EmbedUrl | components/ProductCard.tsx:41-47 | links mentioning neither "youtube.com" nor "youtu.be" are returned unchanged; the others become the embed prefix, then the id, then "?autoplay=1" |
| Cards.LeadingIdOfPieces | components/ProductCard.tsx:43 | the first `&`-piece of the first `v=`-piece is the text up to the first "&" or "v=" |
| Cards.QueryVideoIdSpec | components/ProductCard.tsx:43 | the query id is the text right after the first "v=", up to the first "&" or the next "v=" or the end; empty without "v=" |
| Cards.QueryVideoId | components/ProductCard.tsx:43 | the text taken after "v=" holds no "&", and is empty when the link has no "v=" |
| Cards.VideoId | components/ProductCard.tsx:43 | the id is the query id when non-empty, else the text after the last "/", which holds no "/" |
| Cards.IsYouTube | components/ProductCard.tsx:49 | a link the card plays in a YouTube frame is present, non-empty and mentions "youtu" |
| Cards.EmbedUrlCarriesId | components/ProductCard.tsx:44 | between the fixed parts the embed address carries exactly the video id |
| Cards.EmbedTestWithinIsYouTube | components/ProductCard.tsx:42-49 | every link getEmbedUrl rewrites is one isYouTube accepts |
| Cards.DotlessLinkUnchanged | components/ProductCard.tsx:42 | a link without a dot is never rewritten |
| Cards.IsYouTubeIsLooser | components/ProductCard.tsx:49 | a dotless link naming "youtube" is accepted by isYouTube yet left unrewritten |
| Cards.VideoSource | components/ProductCard.tsx:56-73 | the overlay plays something exactly while it is shown; a YouTube link plays as its embed address, any other link as given |
| Cards.RemoveListingShown | components/ProductCard.tsx:157-162 | "Remove Listing" is shown exactly to a seller with a delete handler |
| Cards.CardOffers | components/ProductCard.tsx:56-155 | while the video overlay is up only its close button and "Buy Now" are usable; "Buy Now" is offered only to a buyer |
| Cards.CardHandle | components/ProductCard.tsx:26-38 | a click keeps the index naming an image, never hides the contact link, and the arrows change only the index while other controls leave it |
| Cards.CardRunKeepsIndexInRange | components/ProductCard.tsx:26-38 | along any clicks the index names an image, or is 0 for a listing without images |
| Cards.CardAlwaysHasImage | components/ProductCard.tsx:22-24 | from the first render on, the card never shows an undefined image |
| Cards.ContactStaysShown | components/ProductCard.tsx:139-155 | once "Buy Now" was pressed the contact link stays along any clicks |
| Cards.ContactOnlyForBuyers | components/ProductCard.tsx:139-155 | a card seen by a non-buyer never reaches the contact link |
| Cards.ProductCard.constructor | components/ProductCard.tsx:13-15 | a new card starts at image 0 with contact and video hidden |
| Cards.ProductCard.NextImage | components/ProductCard.tsx:26-31 | the index becomes `NextIndex` of the old one; nothing else changes |
| Cards.ProductCard.PrevImage | components/ProductCard.tsx:33-38 | the index becomes `PrevIndex` of the old one; nothing else changes |
| Cards.ProductCard.BuyNow | components/ProductCard.tsx:142 | the contact link is shown |
| Cards.ProductCard.PlayVideo | components/ProductCard.tsx:89 | the video is requested |
| Cards.ProductCard.CloseVideo | components/ProductCard.tsx:59 | the video is closed |
| Cards.ProductCard.Click | components/ProductCard.tsx:56-155 | a click acts only on a control the card shows, and then as its handler does |
| Cards.ProductCard.ShownImage | components/ProductCard.tsx:22-24 | with the index in range the card has an image to show |

## Left out

- The backend client and every request to it. The answer of a list, insert
  or delete request is a parameter (`ListResponse`, `InsertResponse`,
  `DeleteResponse`), and so are the row sent and the row order
  (`order('created_at')`). `services/supabaseClient.ts` is not part of this
  model.
- The description generator (`services/geminiService.ts`): its answer is
  the `generated` parameter of `GenerateDescription`.
- Prices: `parseFloat` and `toLocaleString` work on floating point. The
  price stays the text entered or returned, and only its non-emptiness is
  checked, as in the code.
- Browser storage and JSON: the stored record is the value `savedUser`.
  Parsing it and serialising an error object are not modelled. The
  serialisation is only assumed to be non-empty.
- `alert` and `window.confirm`: their texts are results, and the answer to
  the confirmation box is a parameter. The alerts of the image upload
  (already three images; only the first few added; a file too large) are
  not returned.
- `Date.now()`: the placeholder image's stamp is a parameter.
- Edits made while a request is in flight: `AddProduct`, `DeleteProduct`
  and `GenerateDescription` are single steps, so the model does not
  capture a description typed during generation being overwritten by the
  generated text, or fields typed during a successful insert being cleared
  with the rest of the form.
- UploadImages: the FileReader callbacks run asynchronously and may finish
  in any order. The model appends the images in selection order. Two
  selections racing each other could together pass three images, and the
  model does not capture that.
- The file input's reset (`fileInputRef.current.value = ''`) and the image
  `onError` fallback to the placeholder: these are browser effects.
- The `isGenerating` and `isSubmitting` busy flags, the console logging,
  and the loading spinner, empty-state texts and other JSX.
- `item.id.toString()`: the row's id is already text in the model.
- Catalog.Row: the `seller_name`, `title` and `description` columns are
  taken as non-null text. The table declares them nullable, and a row
  with a null title would make the search filter's `toLowerCase` throw
  on every render of the dashboard; `FilterByTitle` and
  `App.FilteredProducts` do not model that failure.
- `toLowerCase` beyond ASCII: other characters are kept as they are.
- The WhatsApp link's text, and `stopPropagation` on the arrow clicks.
- `components/Button.tsx`, `components/Input.tsx` and all styling.
- Cards.CurrentImage: it gives `undefined` for an index past the end. The
  card never reaches such an index (`CardAlwaysHasImage`). If the listing
  passed to a card changed, its index could go past the end; the model
  keeps a card's product fixed.
