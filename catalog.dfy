/**
 * The product side of the App component: mapping backend rows to products,
 * what a list request does to the dashboard's flags, the product draft with
 * its image list, the insert payload and its outcome, deletion, and the
 * title search.
 */
module Catalog {
  import opened Types
  import opened JsStrings
  import opened Errors

  // ---------------------------------------------------------------------
  // Rows of the `products` relation

  /** A row as the backend returns it; `images` may be null. `id` is the text of the row's key. */
  datatype Row = Row(
    id: string,
    sellerName: string,
    title: string,
    description: string,
    price: string,
    images: Option<seq<string>>,
    videoUrl: Option<string>)

  /** The row mapping of fetchProducts: a null image list becomes empty, an empty video link becomes absent. */
  function ProductOfRow(row: Row): (p: Product)
    ensures p.id == row.id && p.sellerName == row.sellerName && p.title == row.title
    ensures p.description == row.description && p.price == row.price
    ensures p.images == (if row.images.Some? then row.images.value else [])
    ensures p.videoUrl.Some? <==> Truthy(row.videoUrl)
    ensures p.videoUrl.Some? ==> p.videoUrl == row.videoUrl && p.videoUrl.value != ""
  {
    Product(
      row.id, row.sellerName, row.title, row.description, row.price,
      if row.images.Some? then row.images.value else [],
      if Truthy(row.videoUrl) then row.videoUrl else None)
  }

  /** `(data || []).map(...)`: one product per row, in the backend's order. */
  function ProductsOfRows(rows: seq<Row>): (ps: seq<Product>)
    ensures |ps| == |rows|
    ensures forall i :: 0 <= i < |rows| ==> ps[i] == ProductOfRow(rows[i])
  {
    if rows == [] then [] else [ProductOfRow(rows[0])] + ProductsOfRows(rows[1..])
  }

  // ---------------------------------------------------------------------
  // The listing and its flags

  datatype Listing = Listing(
    products: seq<Product>,
    loading: bool,
    fetchError: Option<string>,
    setupRequired: bool,
    configRequired: bool)

  /** How a list request ends: with data and/or an error value, or by throwing. */
  datatype ListResponse = ListAnswered(data: Option<seq<Row>>, error: ErrorValue) | ListThrew(thrown: ErrorValue)

  predicate ListSucceeded(resp: ListResponse) {
    resp.ListAnswered? && !IsTruthy(resp.error)
  }

  /** The rows a successful answer carries; null data is no rows. */
  function RowsOf(resp: ListResponse): seq<Row> {
    if resp.ListAnswered? && resp.data.Some? then resp.data.value else []
  }

  /** The diagnosis of a failed list request, whichever way it failed. */
  function ListDiagnosis(resp: ListResponse): Diagnosis
    requires !ListSucceeded(resp)
  {
    match resp
    case ListAnswered(_, e) => DiagnoseListError(e)
    case ListThrew(e) => DiagnoseListThrown(e)
  }

  function ListErrorOf(resp: ListResponse): ErrorValue {
    match resp
    case ListAnswered(_, e) => e
    case ListThrew(e) => e
  }

  /** The part of fetchProducts that runs before the request: loading, all error flags cleared. */
  function BeginFetch(l: Listing): (r: Listing)
    ensures r.loading && r.fetchError == None && !r.setupRequired && !r.configRequired
    ensures r.products == l.products
  {
    l.(loading := true, fetchError := None, setupRequired := false, configRequired := false)
  }

  /** The part of fetchProducts that runs when the request has ended. */
  function FinishFetch(l: Listing, resp: ListResponse): (r: Listing)
    ensures !r.loading
    ensures ListSucceeded(resp) ==> r.products == ProductsOfRows(RowsOf(resp))
    ensures !ListSucceeded(resp) ==> r.products == l.products
  {
    match resp
    case ListAnswered(data, e) =>
      if !IsTruthy(e) then
        l.(products := ProductsOfRows(if data.Some? then data.value else []), loading := false)
      else
        var msg := ErrorMessage(e);
        (match DiagnoseListError(e)
         case SetupRequired => l.(setupRequired := true, loading := false)
         case ConfigRequired => l.(configRequired := true, fetchError := Some(msg), loading := false)
         case Generic => l.(fetchError := Some(msg), loading := false))
    case ListThrew(e) =>
      var msg := ErrorMessage(e);
      var config := DiagnoseListThrown(e) == ConfigRequired;
      l.(configRequired := config || l.configRequired, fetchError := Some(msg), loading := false)
  }

  /** The whole of fetchProducts, the request's answer given. */
  function FetchProducts(l: Listing, resp: ListResponse): (r: Listing)
    ensures !r.loading
    ensures r.setupRequired <==> !ListSucceeded(resp) && ListDiagnosis(resp) == SetupRequired
    ensures r.configRequired <==> !ListSucceeded(resp) && ListDiagnosis(resp) == ConfigRequired
    ensures !ListSucceeded(resp) && ListDiagnosis(resp) != SetupRequired ==>
      r.fetchError == Some(ErrorMessage(ListErrorOf(resp)))
  {
    FinishFetch(BeginFetch(l), resp)
  }

  /**
   * After a list request exactly the banner its diagnosis calls for is shown;
   * the error text stays null only on success and for a missing table; a
   * failure keeps the previous products.
   */
  lemma FetchShowsOneBanner(l: Listing, resp: ListResponse)
    ensures var r := FetchProducts(l, resp);
      && !r.loading
      && (r.fetchError == None <==> ListSucceeded(resp) || ListDiagnosis(resp) == SetupRequired)
      && (ListSucceeded(resp) ==>
            r.products == ProductsOfRows(RowsOf(resp))
            && VisibleBanner(r.fetchError, r.setupRequired, r.configRequired) == NoBanner)
      && (!ListSucceeded(resp) ==>
            r.products == l.products
            && VisibleBanner(r.fetchError, r.setupRequired, r.configRequired) ==
                 match ListDiagnosis(resp)
                 case SetupRequired => DatabaseSetup
                 case ConfigRequired => ConnectionFailed
                 case Generic => LoadError(ErrorMessage(ListErrorOf(resp))))
  {
  }

  // ---------------------------------------------------------------------
  // The product draft and its images

  const MAX_IMAGES := 3
  /** The per-file size limit of the upload, in bytes. */
  const MAX_IMAGE_BYTES := 500000

  /** A file the user picked: its size and the data URL reading it yields ("" when the read gives nothing). */
  datatype SelectedFile = SelectedFile(size: nat, dataUrl: string)

  /** A file that passes the size check and whose read yields a result. */
  predicate Readable(f: SelectedFile) {
    f.size <= MAX_IMAGE_BYTES && f.dataUrl != ""
  }

  /** The data URLs of the readable files, in selection order. */
  function ReadImages(files: seq<SelectedFile>): (urls: seq<string>)
    ensures |urls| <= |files|
    decreases |files|
  {
    if files == [] then []
    else
      var last := files[|files| - 1];
      ReadImages(files[..|files| - 1]) + (if Readable(last) then [last.dataUrl] else [])
  }

  function Min(a: int, b: int): int {
    if a <= b then a else b
  }

  /** handleImageUpload's effect on the image list, for a file list or none. */
  function ImagesAfterUpload(images: seq<string>, files: Option<seq<SelectedFile>>): (r: seq<string>)
    ensures |images| <= |r| && r[..|images|] == images
    ensures files.None? || |images| >= MAX_IMAGES ==> r == images
    ensures files.Some? ==> |r| - |images| <= |files.value|
    ensures files.Some? && |images| < MAX_IMAGES ==> |r| <= MAX_IMAGES
  {
    if files.None? || MAX_IMAGES - |images| <= 0 then images
    else images + ReadImages(files.value[..Min(MAX_IMAGES - |images|, |files.value|)])
  }

  /** Reading one more file appends its data URL when it is readable. */
  lemma ReadImagesSnoc(files: seq<SelectedFile>, i: nat)
    requires i < |files|
    ensures ReadImages(files[..i + 1]) ==
      ReadImages(files[..i]) + (if Readable(files[i]) then [files[i].dataUrl] else [])
  {
    assert files[..i + 1][..i] == files[..i];
  }

  /** Every image read comes from a readable file. */
  lemma {:induction false} ReadImagesProvenance(files: seq<SelectedFile>, k: nat)
    requires k < |ReadImages(files)|
    ensures exists j :: 0 <= j < |files| && Readable(files[j]) && files[j].dataUrl == ReadImages(files)[k]
    decreases |files|
  {
    var init := files[..|files| - 1];
    var last := files[|files| - 1];
    assert ReadImages(files) == ReadImages(init) + (if Readable(last) then [last.dataUrl] else []);
    if k < |ReadImages(init)| {
      ReadImagesProvenance(init, k);
      var j :| 0 <= j < |init| && Readable(init[j]) && init[j].dataUrl == ReadImages(init)[k];
      assert files[j] == init[j];
    } else {
      assert Readable(files[|files| - 1]) && files[|files| - 1].dataUrl == ReadImages(files)[k];
    }
  }

  /** Each image read from the first `m` files comes from a readable one among them. */
  lemma ReadImagesFromPrefix(files: seq<SelectedFile>, m: nat, k: nat)
    requires m <= |files| && k < |ReadImages(files[..m])|
    ensures exists j :: 0 <= j < m && Readable(files[j]) && files[j].dataUrl == ReadImages(files[..m])[k]
  {
    var admitted := files[..m];
    ReadImagesProvenance(admitted, k);
    var j :| 0 <= j < |admitted| && Readable(admitted[j]) && admitted[j].dataUrl == ReadImages(admitted)[k];
    assert files[j] == admitted[j];
  }

  /** The upload only appends, never past three images, and changes nothing when three are there. */
  lemma UploadBounded(images: seq<string>, files: Option<seq<SelectedFile>>)
    ensures var r := ImagesAfterUpload(images, files);
      && |images| <= |r|
      && r[..|images|] == images
      && (|images| <= MAX_IMAGES ==> |r| <= MAX_IMAGES)
      && (|images| >= MAX_IMAGES ==> r == images)
  {
    var r := ImagesAfterUpload(images, files);
    if files.Some? && MAX_IMAGES - |images| > 0 {
      var m := Min(MAX_IMAGES - |images|, |files.value|);
      var added := ReadImages(files.value[..m]);
      assert r == images + added;
      assert |added| <= m <= MAX_IMAGES - |images|;
      assert r[..|images|] == images;
    }
  }

  /** Each image the upload adds is the data URL of a readable file among the first `3 - |images|` selected. */
  lemma UploadAddsOnlyAdmitted(images: seq<string>, files: seq<SelectedFile>, k: nat)
    requires |images| <= k < |ImagesAfterUpload(images, Some(files))|
    ensures exists j :: (0 <= j < MAX_IMAGES - |images| && j < |files|
                         && Readable(files[j]) && files[j].dataUrl == ImagesAfterUpload(images, Some(files))[k])
  {
    var m := Min(MAX_IMAGES - |images|, |files|);
    var added := ReadImages(files[..m]);
    assert ImagesAfterUpload(images, Some(files)) == images + added;
    ReadImagesFromPrefix(files, m, k - |images|);
  }

  /** The forEach loop of handleImageUpload, with the reads completing in selection order. */
  method UploadImages(images: seq<string>, files: seq<SelectedFile>) returns (r: seq<string>)
    ensures r == ImagesAfterUpload(images, Some(files))
  {
    var remainingSlots := MAX_IMAGES - |images|;
    if remainingSlots <= 0 {
      return images;
    }
    var filesToProcess := files[..Min(remainingSlots, |files|)];
    r := images;
    var i := 0;
    while i < |filesToProcess|
      invariant 0 <= i <= |filesToProcess|
      invariant r == images + ReadImages(filesToProcess[..i])
    {
      var file := filesToProcess[i];
      ReadImagesSnoc(filesToProcess, i);
      if file.size <= MAX_IMAGE_BYTES && file.dataUrl != "" {
        r := r + [file.dataUrl];
      }
      i := i + 1;
    }
    assert filesToProcess[..i] == filesToProcess;
  }

  /** `images.filter((_, i) => i !== index)`, with `offset` the position of `images[0]`. */
  function WithoutIndexFrom(images: seq<string>, index: int, offset: int): seq<string>
    decreases |images|
  {
    if images == [] then []
    else (if offset == index then [] else [images[0]]) + WithoutIndexFrom(images[1..], index, offset + 1)
  }

  /** removeImage's filter. */
  function WithoutIndex(images: seq<string>, index: int): (r: seq<string>)
    ensures |r| == if 0 <= index < |images| then |images| - 1 else |images|
  {
    WithoutIndexFromDrops(images, index, 0);
    WithoutIndexFrom(images, index, 0)
  }

  lemma {:induction false} WithoutIndexFromDrops(images: seq<string>, index: int, offset: int)
    ensures WithoutIndexFrom(images, index, offset) ==
      if offset <= index < offset + |images| then images[..index - offset] + images[index - offset + 1..]
      else images
    decreases |images|
  {
    if images != [] {
      WithoutIndexFromDrops(images[1..], index, offset + 1);
      if offset < index < offset + |images| {
        assert images[..index - offset] == [images[0]] + images[1..][..index - offset - 1];
        assert images[index - offset + 1..] == images[1..][index - offset..];
      }
    }
  }

  /** removeImage drops exactly the element at `index` and keeps the rest in order; any other index changes nothing. */
  lemma RemoveImageDropsOne(images: seq<string>, index: int)
    ensures 0 <= index < |images| ==>
      WithoutIndex(images, index) == images[..index] + images[index + 1..]
      && |WithoutIndex(images, index)| == |images| - 1
    ensures !(0 <= index < |images|) ==> WithoutIndex(images, index) == images
  {
    WithoutIndexFromDrops(images, index, 0);
  }

  /** The seller's form. */
  datatype Draft = Draft(title: string, price: string, video: string, images: seq<string>, description: string)

  const EMPTY_DRAFT := Draft("", "", "", [], "")
  const DEFAULT_DESCRIPTION := "No description provided."
  /** The alert addProduct raises when the title or the price is missing. */
  const TITLE_PRICE_REQUIRED := "Title and Price are required."
  /** The alert generateDescription raises when the title or the price is missing. */
  const TITLE_PRICE_FIRST := "Please enter a title and price first."

  /** The stand-in image of a listing submitted without images; `stamp` is the current time's digits. */
  function PlaceholderImage(stamp: string): string {
    "https://picsum.photos/500/500?random=" + stamp
  }

  /** The row addProduct inserts; the price goes as entered. */
  datatype InsertPayload = InsertPayload(
    sellerName: string,
    title: string,
    price: string,
    description: string,
    images: seq<string>,
    videoUrl: Option<string>)

  /**
   * addProduct's validation and insert payload: nothing is sent without a
   * title and a price; otherwise the images are never empty and the
   * description is never blank.
   */
  function InsertPayloadFor(sellerName: string, d: Draft, stamp: string): (r: Option<InsertPayload>)
    ensures r.None? <==> d.title == "" || d.price == ""
    ensures r.Some? ==> r.value.sellerName == sellerName && r.value.title == d.title && r.value.price == d.price
    ensures r.Some? ==> r.value.images != []
    ensures r.Some? && d.images != [] ==> r.value.images == d.images
    ensures r.Some? && d.images == [] ==> r.value.images == [PlaceholderImage(stamp)]
    ensures r.Some? ==> r.value.description != ""
    ensures r.Some? && d.description == "" ==> r.value.description == DEFAULT_DESCRIPTION
    ensures r.Some? ==> (d.description != "" <==> r.value.description == d.description)
    ensures r.Some? ==> (r.value.videoUrl.Some? <==> d.video != "")
    ensures r.Some? && r.value.videoUrl.Some? ==> r.value.videoUrl.value == d.video
  {
    if d.title == "" || d.price == "" then None
    else Some(InsertPayload(
      sellerName, d.title, d.price,
      if d.description != "" then d.description else DEFAULT_DESCRIPTION,
      if |d.images| > 0 then d.images else [PlaceholderImage(stamp)],
      if d.video != "" then Some(d.video) else None))
  }

  /** How an insert request ends. */
  datatype InsertResponse = InsertAnswered(error: ErrorValue) | InsertThrew(thrown: ErrorValue)

  /** What addProduct does with the answer; `Alert` carries the text of the alert box. */
  datatype InsertResult = Saved | NeedsSetup | NeedsConfig | Alert(message: string)

  function InsertResultOf(resp: InsertResponse): (r: InsertResult)
    ensures r == Saved <==> resp.InsertAnswered? && !IsTruthy(resp.error)
    ensures r == NeedsSetup <==>
      resp.InsertAnswered? && IsTruthy(resp.error) && DiagnoseInsertError(resp.error) == SetupRequired
    ensures r == NeedsConfig <==>
      || (resp.InsertAnswered? && IsTruthy(resp.error) && DiagnoseInsertError(resp.error) == ConfigRequired)
      || (resp.InsertThrew? && DiagnoseInsertThrown(resp.thrown) == ConfigRequired)
  {
    match resp
    case InsertAnswered(e) =>
      if !IsTruthy(e) then Saved
      else
        (match DiagnoseInsertError(e)
         case SetupRequired => NeedsSetup
         case ConfigRequired => NeedsConfig
         case Generic => Alert("Error saving product: " + ErrorMessage(e)))
    case InsertThrew(e) =>
      if DiagnoseInsertThrown(e) == ConfigRequired then NeedsConfig
      else Alert("An unexpected error occurred: " + ErrorMessage(e))
  }

  /** The listing and the draft after an insert request ends. */
  function ListingAfterInsert(l: Listing, result: InsertResult): (r: Listing)
    ensures result == Saved ==> r == BeginFetch(l)
    ensures result != Saved ==> r.products == l.products && r.loading == l.loading && r.fetchError == l.fetchError
    ensures result.Alert? ==> r == l
  {
    match result
    case Saved => BeginFetch(l)
    case NeedsSetup => l.(setupRequired := true)
    case NeedsConfig => l.(configRequired := true)
    case Alert(_) => l
  }

  function DraftAfterInsert(d: Draft, result: InsertResult): (r: Draft)
    ensures result == Saved ==> r == EMPTY_DRAFT
    ensures result != Saved ==> r == d
  {
    if result == Saved then EMPTY_DRAFT else d
  }

  /**
   * A failed insert never clears the draft and, unless it only raised an
   * alert, puts up a banner (setup or connection) over the listing.
   */
  lemma InsertFailureKeepsDraft(l: Listing, d: Draft, resp: InsertResponse)
    ensures var result := InsertResultOf(resp);
      var r := ListingAfterInsert(l, result);
      && (result != Saved ==> DraftAfterInsert(d, result) == d)
      && ((result == NeedsSetup || result == NeedsConfig) ==>
            VisibleBanner(r.fetchError, r.setupRequired, r.configRequired) in {DatabaseSetup, ConnectionFailed})
      && (result == NeedsConfig ==> VisibleBanner(r.fetchError, r.setupRequired, r.configRequired) == ConnectionFailed)
  {
  }

  /** How a delete request ends. */
  datatype DeleteResponse = DeleteAnswered(error: ErrorValue) | DeleteThrew(thrown: ErrorValue)

  datatype DeleteResult = NotConfirmed | Deleted | DeleteAlert(message: string) | DeleteLogged

  /** deleteProduct: nothing without confirmation; a returned error is shown, a thrown one only logged. */
  function DeleteResultOf(confirmed: bool, resp: DeleteResponse): (r: DeleteResult)
    ensures !confirmed <==> r == NotConfirmed
    ensures r == Deleted <==> confirmed && resp.DeleteAnswered? && !IsTruthy(resp.error)
  {
    if !confirmed then NotConfirmed
    else match resp
      case DeleteAnswered(e) =>
        if IsTruthy(e) then DeleteAlert("Error deleting product: " + ErrorMessage(e)) else Deleted
      case DeleteThrew(_) => DeleteLogged
  }

  // ---------------------------------------------------------------------
  // The title search of the dashboard

  predicate TitleMatches(p: Product, query: string) {
    Includes(Lower(p.title), Lower(query))
  }

  /** `products.filter(p => p.title.toLowerCase().includes(query.toLowerCase()))` */
  function FilterByTitle(ps: seq<Product>, query: string): (r: seq<Product>)
    ensures |r| <= |ps|
    ensures forall i :: 0 <= i < |r| ==> r[i] in ps && TitleMatches(r[i], query)
    decreases |ps|
  {
    if ps == [] then []
    else (if TitleMatches(ps[0], query) then [ps[0]] else []) + FilterByTitle(ps[1..], query)
  }

  /** `a` is `b` with some elements left out, the rest in their order. */
  predicate IsSubsequence<T(==)>(a: seq<T>, b: seq<T>)
    decreases |b|
  {
    if a == [] then true
    else if b == [] then false
    else if a[0] == b[0] then IsSubsequence(a[1..], b[1..])
    else IsSubsequence(a, b[1..])
  }

  lemma {:induction false} SubsequenceOfTail<T>(a: seq<T>, b: seq<T>)
    requires b != [] && IsSubsequence(a, b[1..])
    ensures IsSubsequence(a, b)
    decreases |b|, 0
  {
    if a != [] && a[0] == b[0] {
      SubsequenceDropHead(a, b[1..]);
    }
  }

  lemma {:induction false} SubsequenceDropHead<T>(a: seq<T>, c: seq<T>)
    requires a != [] && IsSubsequence(a, c)
    ensures IsSubsequence(a[1..], c)
    decreases |c|, 1
  {
    if a[0] == c[0] {
      SubsequenceOfTail(a[1..], c);
    } else {
      SubsequenceDropHead(a, c[1..]);
      SubsequenceOfTail(a[1..], c);
    }
  }

  /** The search keeps products in their order. */
  lemma {:induction false} FilterIsSubsequence(ps: seq<Product>, query: string)
    ensures IsSubsequence(FilterByTitle(ps, query), ps)
    decreases |ps|
  {
    if ps != [] {
      FilterIsSubsequence(ps[1..], query);
      var rest := FilterByTitle(ps[1..], query);
      if TitleMatches(ps[0], query) {
        assert FilterByTitle(ps, query) == [ps[0]] + rest;
        assert ([ps[0]] + rest)[1..] == rest;
      } else {
        assert FilterByTitle(ps, query) == rest;
        SubsequenceOfTail(rest, ps);
      }
    }
  }

  /**
   * The search keeps each matching product as often as the list holds it and
   * drops every other one: its result is fixed up to order, and
   * FilterIsSubsequence fixes the order.
   */
  lemma {:induction false} FilterKeepsExactlyMatches(ps: seq<Product>, query: string, p: Product)
    ensures multiset(FilterByTitle(ps, query))[p] == if TitleMatches(p, query) then multiset(ps)[p] else 0
    decreases |ps|
  {
    if ps != [] {
      FilterKeepsExactlyMatches(ps[1..], query, p);
      assert ps == [ps[0]] + ps[1..];
      assert multiset(ps) == multiset([ps[0]]) + multiset(ps[1..]);
      var head := if TitleMatches(ps[0], query) then [ps[0]] else [];
      assert FilterByTitle(ps, query) == head + FilterByTitle(ps[1..], query);
      assert multiset(FilterByTitle(ps, query)) == multiset(head) + multiset(FilterByTitle(ps[1..], query));
    }
  }

  /** Every matching product is kept. */
  lemma {:induction false} FilterKeepsMatches(ps: seq<Product>, query: string, p: Product)
    requires p in ps && TitleMatches(p, query)
    ensures p in FilterByTitle(ps, query)
    decreases |ps|
  {
    if ps[0] != p {
      FilterKeepsMatches(ps[1..], query, p);
    }
  }

  /** An empty search shows every product. */
  lemma {:induction false} EmptyQueryKeepsAll(ps: seq<Product>)
    ensures FilterByTitle(ps, "") == ps
    decreases |ps|
  {
    if ps != [] {
      assert Lower("") == "";
      assert OccursAt(Lower(ps[0].title), "", 0);
      assert TitleMatches(ps[0], "");
      EmptyQueryKeepsAll(ps[1..]);
    }
  }

  /** The search ignores the letter case of the query. */
  lemma {:induction false} FilterIgnoresQueryCase(ps: seq<Product>, query: string)
    ensures FilterByTitle(ps, Lower(query)) == FilterByTitle(ps, query)
    decreases |ps|
  {
    LowerIdempotent(query);
    if ps != [] {
      FilterIgnoresQueryCase(ps[1..], query);
    }
  }
}
