/**
 * The ProductCard component: the image carousel's index arithmetic, the
 * image shown, the rewriting of a video link into a YouTube embed address,
 * and which controls the card offers to whom.
 */
module Cards {
  import opened Types
  import opened JsStrings

  /** The image shown when a listing has none (ProductCard.tsx:24). */
  const PLACEHOLDER_IMAGE := "https://picsum.photos/400/400?grayscale"
  const EMBED_PREFIX := "https://www.youtube.com/embed/"
  const EMBED_SUFFIX := "?autoplay=1"

  // ---------------------------------------------------------------------
  // Carousel arithmetic. Both operands of `%` are non-negative here, so the
  // remainder of JavaScript and Dafny's Euclidean remainder agree.

  lemma {:induction false} MulAtLeast(d: int, n: int)
    requires d >= 1 && n > 0
    ensures d * n >= n
    decreases d
  {
    if d > 1 {
      MulAtLeast(d - 1, n);
      assert d * n == (d - 1) * n + n;
    }
  }

  /** a = q * n + r with 0 <= r < n fixes the quotient and the remainder. */
  lemma DivModUnique(a: int, n: int, q: int, r: int)
    requires n > 0 && 0 <= r < n && a == q * n + r
    ensures a % n == r && a / n == q
  {
    var q0, r0 := a / n, a % n;
    assert (q - q0) * n == r0 - r by {
      assert q * n - q0 * n == (q - q0) * n;
    }
    if q > q0 {
      MulAtLeast(q - q0, n);
    } else if q < q0 {
      MulAtLeast(q0 - q, n);
    }
  }

  lemma NextWraps(i: nat, n: nat)
    requires 1 < n && i < n
    ensures (i + 1) % n == if i + 1 < n then i + 1 else 0
  {
    if i + 1 < n {
      DivModUnique(i + 1, n, 0, i + 1);
    } else {
      DivModUnique(i + 1, n, 1, 0);
    }
  }

  lemma PrevWraps(i: nat, n: nat)
    requires 1 < n && i < n
    ensures (i - 1 + n) % n == if i == 0 then n - 1 else i - 1
  {
    if i == 0 {
      DivModUnique(i - 1 + n, n, 0, n - 1);
    } else {
      DivModUnique(i - 1 + n, n, 1, i - 1);
    }
  }

  /** (a mod n + 1) mod n is (a + 1) mod n. */
  lemma ModSucc(a: nat, n: nat)
    requires n > 0
    ensures (a % n + 1) % n == (a + 1) % n
  {
    var q, r := a / n, a % n;
    if r + 1 < n {
      DivModUnique(a + 1, n, q, r + 1);
      DivModUnique(r + 1, n, 0, r + 1);
    } else {
      DivModUnique(a + 1, n, q + 1, 0);
      DivModUnique(r + 1, n, 1, 0);
    }
  }

  /** nextImage: one image on, wrapping round; nothing moves with at most one image. */
  function NextIndex(i: nat, n: nat): (r: nat)
    ensures n <= 1 ==> r == i
    ensures n > 1 && i < n ==> r < n && (r == i + 1 || (i == n - 1 && r == 0))
  {
    if n > 1 then
      (if i < n then NextWraps(i, n); (i + 1) % n else (i + 1) % n)
    else i
  }

  /** prevImage: one image back, wrapping round; nothing moves with at most one image. */
  function PrevIndex(i: nat, n: nat): (r: nat)
    ensures n <= 1 ==> r == i
    ensures n > 1 && i < n ==> r < n && (r + 1 == i || (i == 0 && r == n - 1))
  {
    if n > 1 then
      (if i < n then PrevWraps(i, n); (i - 1 + n) % n else (i - 1 + n) % n)
    else i
  }

  /** Back after forward, and forward after back, return to the same image. */
  lemma PrevNextInverse(i: nat, n: nat)
    requires i < n || n <= 1
    ensures PrevIndex(NextIndex(i, n), n) == i
    ensures NextIndex(PrevIndex(i, n), n) == i
  {
  }

  /** `k` presses of the forward arrow. */
  function NextTimes(i: nat, n: nat, k: nat): nat
    decreases k
  {
    if k == 0 then i else NextIndex(NextTimes(i, n, k - 1), n)
  }

  /** `k` forward presses move `k` places round the `n` images. */
  lemma {:induction false} NextTimesShifts(i: nat, n: nat, k: nat)
    requires 1 < n && i < n
    ensures NextTimes(i, n, k) == (i + k) % n
    decreases k
  {
    if k == 0 {
      DivModUnique(i, n, 0, i);
    } else {
      NextTimesShifts(i, n, k - 1);
      assert NextTimes(i, n, k) == ((i + k - 1) % n + 1) % n;
      ModSucc(i + k - 1, n);
    }
  }

  /** As many forward presses as there are images come back to the start. */
  lemma FullLapReturns(i: nat, n: nat)
    requires i < n || n <= 1
    ensures NextTimes(i, n, n) == i
  {
    if n > 1 {
      NextTimesShifts(i, n, n);
      DivModUnique(i + n, n, 1, i);
    } else {
      NextTimesStill(i, n, n);
    }
  }

  lemma {:induction false} NextTimesStill(i: nat, n: nat, k: nat)
    requires n <= 1
    ensures NextTimes(i, n, k) == i
    decreases k
  {
    if k > 0 {
      NextTimesStill(i, n, k - 1);
    }
  }

  /**
   * The image source: the placeholder for a listing without images, the
   * image at the index otherwise; None is JavaScript's `undefined`, for an
   * index past the end.
   */
  function CurrentImage(images: seq<string>, index: nat): (r: Option<string>)
    ensures images == [] ==> r == Some(PLACEHOLDER_IMAGE)
    ensures images != [] && index < |images| ==> r == Some(images[index])
    ensures r.None? <==> images != [] && index >= |images|
  {
    if |images| > 0 then
      if index < |images| then Some(images[index]) else None
    else Some(PLACEHOLDER_IMAGE)
  }

  // ---------------------------------------------------------------------
  // Video links

  /** `url.split('v=')[1]?.split('&')[0]`, with "" for the missing piece. */
  function QueryVideoId(url: string): (q: string)
    ensures !Includes(q, "&")
    ensures IndexOf(url, "v=").None? ==> q == ""
  {
    var parts := Split(url, "v=");
    FirstPieceIsInitialSegment(url, "v=");
    if |parts| > 1 then
      SplitPiecesAvoidSeparator(parts[1], "&", 0);
      Split(parts[1], "&")[0]
    else ""
  }

  /** The video id: the query's id when it is non-empty, else the last `/`-separated segment. */
  function VideoId(url: string): (id: string)
    ensures QueryVideoId(url) != "" ==> id == QueryVideoId(url)
    ensures QueryVideoId(url) == "" ==> IsFinalSegment(url, "/", id) && !Includes(id, "/")
  {
    var q := QueryVideoId(url);
    if q != "" then q
    else
      LastPieceIsFinalSegment(url, "/");
      Last(Split(url, "/"))
  }

  predicate LooksLikeYouTubeLink(url: string) {
    Includes(url, "youtube.com") || Includes(url, "youtu.be")
  }

  /** getEmbedUrl */
  function EmbedUrl(url: string): (r: string)
    ensures !LooksLikeYouTubeLink(url) ==> r == url
    ensures LooksLikeYouTubeLink(url) ==>
      && |r| >= |EMBED_PREFIX| + |EMBED_SUFFIX|
      && r[..|EMBED_PREFIX|] == EMBED_PREFIX
      && r[|r| - |EMBED_SUFFIX|..] == EMBED_SUFFIX
  {
    if LooksLikeYouTubeLink(url) then EMBED_PREFIX + VideoId(url) + EMBED_SUFFIX else url
  }

  /**
   * `q` is the text at the start of `t` up to the first "&" or "v=", or to
   * its end when there is neither.
   */
  predicate IsLeadingId(t: string, q: string) {
    && |q| <= |t|
    && q == t[..|q|]
    && (forall j: nat :: j < |q| ==> !OccursAt(t, "&", j) && !OccursAt(t, "v=", j))
    && (|q| == |t| || OccursAt(t, "&", |q|) || OccursAt(t, "v=", |q|))
  }

  lemma LeadingIdOfPieces(t: string)
    ensures IsLeadingId(t, Split(Split(t, "v=")[0], "&")[0])
  {
    var piece := Split(t, "v=")[0];
    var q := Split(piece, "&")[0];
    FirstPieceIsInitialSegment(t, "v=");
    FirstPieceIsInitialSegment(piece, "&");
    assert q == t[..|q|];
    forall j: nat | j < |q| ensures !OccursAt(t, "&", j) {
      OccursInPrefix(t, "&", |piece|, j);
    }
    if |q| < |piece| {
      OccursInPrefix(t, "&", |piece|, |q|);
    }
  }

  /**
   * The query id is the text right after the first "v=", up to the first
   * "&" or the next "v=" (or the end); there is none without a "v=".
   */
  lemma QueryVideoIdSpec(url: string)
    ensures IndexOf(url, "v=").None? ==> QueryVideoId(url) == ""
    ensures IndexOf(url, "v=").Some? ==> IsLeadingId(url[IndexOf(url, "v=").value + 2..], QueryVideoId(url))
  {
    match IndexOf(url, "v=")
    case None =>
    case Some(p) =>
      var t := url[p + 2..];
      assert Split(url, "v=") == [url[..p]] + Split(t, "v=");
      LeadingIdOfPieces(t);
  }

  /** The embed address of a YouTube link carries exactly the video id between its fixed parts. */
  lemma EmbedUrlCarriesId(url: string)
    requires LooksLikeYouTubeLink(url)
    ensures var r := EmbedUrl(url);
      r[|EMBED_PREFIX|..|r| - |EMBED_SUFFIX|] == VideoId(url)
  {
  }

  /** isYouTube: a present, non-empty link that mentions "youtube" or "youtu.be". */
  predicate IsYouTube(videoUrl: Option<string>)
    ensures IsYouTube(videoUrl) ==> Truthy(videoUrl) && Includes(videoUrl.value, "youtu")
  {
    if Truthy(videoUrl) && (Includes(videoUrl.value, "youtube") || Includes(videoUrl.value, "youtu.be")) then
      var url := videoUrl.value;
      if Includes(url, "youtube") then
        assert "youtube" == "youtu" + "be";
        IncludesPrefixOfPattern(url, "youtu", "be");
        true
      else
        assert "youtu.be" == "youtu" + ".be";
        IncludesPrefixOfPattern(url, "youtu", ".be");
        true
    else false
  }

  /** Every link getEmbedUrl rewrites is one the card plays in a YouTube frame. */
  lemma EmbedTestWithinIsYouTube(url: string)
    requires LooksLikeYouTubeLink(url)
    ensures IsYouTube(Some(url))
  {
    if Includes(url, "youtube.com") {
      assert "youtube.com" == "youtube" + ".com";
      IncludesPrefixOfPattern(url, "youtube", ".com");
    }
  }

  /** A link without a dot is never rewritten: both of getEmbedUrl's patterns contain one. */
  lemma DotlessLinkUnchanged(url: string)
    requires '.' !in url
    ensures !LooksLikeYouTubeLink(url) && EmbedUrl(url) == url
  {
    NotIncludesByChar(url, "youtube.com", 7);
    NotIncludesByChar(url, "youtu.be", 5);
  }

  /**
   * The converse fails: a link such as "http://youtube/watch?v=abc" names
   * "youtube" without a dot, so the card plays it in a YouTube frame while
   * getEmbedUrl leaves it unrewritten.
   */
  lemma IsYouTubeIsLooser(url: string)
    requires Includes(url, "youtube") && '.' !in url
    ensures IsYouTube(Some(url)) && !LooksLikeYouTubeLink(url) && EmbedUrl(url) == url
  {
    DotlessLinkUnchanged(url);
  }

  // ---------------------------------------------------------------------
  // The card's own state and controls

  /** What a card is given: the listing, the viewer's role, and whether a delete handler was passed. */
  datatype CardProps = CardProps(product: Product, userRole: UserRole, hasOnDelete: bool)

  datatype CardState = CardState(index: nat, showContact: bool, showVideo: bool)

  const INITIAL_CARD := CardState(0, false, false)

  /** The video overlay replaces the image area while a video is requested and the listing has one. */
  predicate OverlayShown(props: CardProps, s: CardState) {
    s.showVideo && Truthy(props.product.videoUrl)
  }

  /** The address the overlay plays, when it is shown. */
  function VideoSource(props: CardProps, s: CardState): (r: Option<string>)
    ensures r.Some? <==> OverlayShown(props, s)
    ensures r.Some? && !IsYouTube(props.product.videoUrl) ==> r.value == props.product.videoUrl.value
    ensures r.Some? && IsYouTube(props.product.videoUrl) ==> r.value == EmbedUrl(props.product.videoUrl.value)
  {
    if !OverlayShown(props, s) then None
    else if IsYouTube(props.product.videoUrl) then Some(EmbedUrl(props.product.videoUrl.value))
    else props.product.videoUrl
  }

  /** "Remove Listing" is offered only to a seller, and only with a delete handler. */
  predicate RemoveListingShown(props: CardProps)
    ensures RemoveListingShown(props) ==> props.userRole == SELLER
    ensures props.userRole == SELLER && props.hasOnDelete ==> RemoveListingShown(props)
  {
    props.userRole == SELLER && props.hasOnDelete
  }

  datatype CardEvent = ClickNext | ClickPrev | ClickBuyNow | ClickPlay | ClickClose

  /** Whether the card renders the control behind `ev` (ProductCard.tsx:56-155). */
  predicate CardOffers(props: CardProps, s: CardState, ev: CardEvent)
    ensures CardOffers(props, s, ev) && OverlayShown(props, s) ==> ev == ClickClose || ev == ClickBuyNow
    ensures CardOffers(props, s, ev) && ev == ClickBuyNow ==> props.userRole == BUYER
  {
    match ev
    case ClickNext => !OverlayShown(props, s) && |props.product.images| > 1
    case ClickPrev => !OverlayShown(props, s) && |props.product.images| > 1
    case ClickBuyNow => props.userRole == BUYER && !s.showContact
    case ClickPlay => !OverlayShown(props, s) && Truthy(props.product.videoUrl)
    case ClickClose => OverlayShown(props, s)
  }

  function CardHandle(props: CardProps, s: CardState, ev: CardEvent): (r: CardState)
    ensures IndexInRange(props, s) ==> IndexInRange(props, r)
    ensures s.showContact ==> r.showContact
    ensures (ev == ClickNext || ev == ClickPrev) ==> r.showContact == s.showContact && r.showVideo == s.showVideo
    ensures !(ev == ClickNext || ev == ClickPrev) ==> r.index == s.index
  {
    var n := |props.product.images|;
    match ev
    case ClickNext => s.(index := NextIndex(s.index, n))
    case ClickPrev => s.(index := PrevIndex(s.index, n))
    case ClickBuyNow => s.(showContact := true)
    case ClickPlay => s.(showVideo := true)
    case ClickClose => s.(showVideo := false)
  }

  function CardApply(props: CardProps, s: CardState, ev: CardEvent): CardState {
    if CardOffers(props, s, ev) then CardHandle(props, s, ev) else s
  }

  function CardRun(props: CardProps, s: CardState, evs: seq<CardEvent>): CardState
    decreases |evs|
  {
    if evs == [] then s else CardRun(props, CardApply(props, s, evs[0]), evs[1..])
  }

  /** The index names an image, or is 0 for a listing without images. */
  predicate IndexInRange(props: CardProps, s: CardState) {
    s.index < |props.product.images| || s.index == 0
  }

  lemma {:induction false} CardRunKeepsIndexInRange(props: CardProps, s: CardState, evs: seq<CardEvent>)
    requires IndexInRange(props, s)
    ensures IndexInRange(props, CardRun(props, s, evs))
    decreases |evs|
  {
    if evs != [] {
      CardRunKeepsIndexInRange(props, CardApply(props, s, evs[0]), evs[1..]);
    }
  }

  /** From the first render on, the card always shows an image address, never `undefined`. */
  lemma CardAlwaysHasImage(props: CardProps, evs: seq<CardEvent>)
    ensures CurrentImage(props.product.images, CardRun(props, INITIAL_CARD, evs).index).Some?
  {
    CardRunKeepsIndexInRange(props, INITIAL_CARD, evs);
  }

  /** Once "Buy Now" was pressed the contact link stays; nothing turns it back. */
  lemma {:induction false} ContactStaysShown(props: CardProps, s: CardState, evs: seq<CardEvent>)
    requires s.showContact
    ensures CardRun(props, s, evs).showContact
    decreases |evs|
  {
    if evs != [] {
      ContactStaysShown(props, CardApply(props, s, evs[0]), evs[1..]);
    }
  }

  /** Only a buyer can ever reach the contact link. */
  lemma {:induction false} ContactOnlyForBuyers(props: CardProps, s: CardState, evs: seq<CardEvent>)
    requires props.userRole != BUYER && !s.showContact
    ensures !CardRun(props, s, evs).showContact
    decreases |evs|
  {
    if evs != [] {
      ContactOnlyForBuyers(props, CardApply(props, s, evs[0]), evs[1..]);
    }
  }

  /** The card as an object: the props are fixed, the three pieces of state change. */
  class ProductCard {
    const props: CardProps
    var currentImageIndex: nat
    var showContact: bool
    var showVideo: bool

    function State(): CardState
      reads this`currentImageIndex, this`showContact, this`showVideo
    {
      CardState(currentImageIndex, showContact, showVideo)
    }

    constructor(product: Product, userRole: UserRole, hasOnDelete: bool)
      ensures props == CardProps(product, userRole, hasOnDelete)
      ensures State() == INITIAL_CARD
    {
      props := CardProps(product, userRole, hasOnDelete);
      currentImageIndex := 0;
      showContact := false;
      showVideo := false;
    }

    method NextImage()
      modifies this`currentImageIndex
      ensures State() == CardHandle(props, old(State()), ClickNext)
    {
      if |props.product.images| > 1 {
        currentImageIndex := (currentImageIndex + 1) % |props.product.images|;
      }
    }

    method PrevImage()
      modifies this`currentImageIndex
      ensures State() == CardHandle(props, old(State()), ClickPrev)
    {
      if |props.product.images| > 1 {
        currentImageIndex := (currentImageIndex - 1 + |props.product.images|) % |props.product.images|;
      }
    }

    method BuyNow()
      modifies this`showContact
      ensures State() == CardHandle(props, old(State()), ClickBuyNow)
    {
      showContact := true;
    }

    method PlayVideo()
      modifies this`showVideo
      ensures State() == CardHandle(props, old(State()), ClickPlay)
    {
      showVideo := true;
    }

    method CloseVideo()
      modifies this`showVideo
      ensures State() == CardHandle(props, old(State()), ClickClose)
    {
      showVideo := false;
    }

    /** A click on whatever control `ev` names, when the card shows it. */
    method Click(ev: CardEvent)
      modifies this`currentImageIndex, this`showContact, this`showVideo
      ensures State() == CardApply(props, old(State()), ev)
    {
      if !CardOffers(props, State(), ev) {
        return;
      }
      match ev
      case ClickNext => NextImage();
      case ClickPrev => PrevImage();
      case ClickBuyNow => BuyNow();
      case ClickPlay => PlayVideo();
      case ClickClose => CloseVideo();
    }

    /** The image the card shows. */
    function ShownImage(): (r: Option<string>)
      reads this`currentImageIndex
      ensures IndexInRange(props, State()) ==> r.Some?
    {
      CurrentImage(props.product.images, currentImageIndex)
    }
  }
}
