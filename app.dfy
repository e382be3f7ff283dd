/**
 * The App component as an object: one field per piece of component state
 * (App.tsx:26-50) plus `savedUser`, the `mf_user` entry of browser storage.
 * Every handler is a method that updates the fields in place; its contract
 * ties the new state to the pure function of wizard.dfy or catalog.dfy that
 * describes the handler, and says which other state stays as it was.
 */
module MarketApp {
  import opened Types
  import opened Wizard
  import opened Errors
  import opened Catalog
  import opened Cards

  class App {
    // The wizard
    var authStep: AuthStep
    var email: string
    var password: string
    var username: string
    var adminKeyInput: string
    var authError: string
    var user: User
    var savedUser: Option<User>

    // The listing
    var products: seq<Product>
    var isLoadingProducts: bool
    var fetchError: Option<string>
    var isSetupRequired: bool
    var isConfigRequired: bool
    var searchQuery: string

    // The seller's form
    var newProductTitle: string
    var newProductPrice: string
    var newProductVideo: string
    var newProductImages: seq<string>
    var newProductDesc: string

    /** The wizard's fields as one value. */
    function Session(): AuthState
      reads this`authStep, this`email, this`password, this`username, this`adminKeyInput, this`authError,
        this`user, this`savedUser
    {
      AuthState(authStep, email, password, username, adminKeyInput, authError, user, savedUser)
    }

    /** The listing's fields as one value. */
    function Board(): Listing
      reads this`products, this`isLoadingProducts, this`fetchError, this`isSetupRequired, this`isConfigRequired
    {
      Listing(products, isLoadingProducts, fetchError, isSetupRequired, isConfigRequired)
    }

    /** The form's fields as one value. */
    function Form(): Draft
      reads this`newProductTitle, this`newProductPrice, this`newProductVideo, this`newProductImages,
        this`newProductDesc
    {
      Draft(newProductTitle, newProductPrice, newProductVideo, newProductImages, newProductDesc)
    }

    /** The first render, with `stored` in browser storage. */
    constructor(stored: Option<User>)
      ensures Session() == Initial(stored)
      ensures Board() == Listing([], false, None, false, false)
      ensures Form() == EMPTY_DRAFT && searchQuery == ""
    {
      authStep := EMAIL_PASSWORD;
      user := GUEST_USER;
      products := [];
      isLoadingProducts := false;
      fetchError := None;
      isSetupRequired := false;
      isConfigRequired := false;
      searchQuery := "";
      email := "";
      password := "";
      username := "";
      adminKeyInput := "";
      authError := "";
      savedUser := stored;
      newProductTitle := "";
      newProductPrice := "";
      newProductVideo := "";
      newProductImages := [];
      newProductDesc := "";
    }

    /** The mount effect that restores a stored user. */
    method RestoreSession()
      modifies this`user, this`authStep
      ensures Session() == Restore(old(Session()))
    {
      if savedUser.Some? {
        user := savedUser.value;
        authStep := COMPLETE;
      }
    }

    method HandleNextToUsername()
      modifies this`authError, this`authStep
      ensures Session() == NextToUsername(old(Session()))
    {
      if email == "" || password == "" {
        authError := CREDENTIALS_MISSING;
        return;
      }
      authError := "";
      authStep := USERNAME;
    }

    method HandleSignupComplete()
      modifies this`authError, this`user, this`authStep
      ensures Session() == SignupComplete(old(Session()))
    {
      if username == "" {
        authError := USERNAME_MISSING;
        return;
      }
      authError := "";
      user := user.(email := email, username := username);
      authStep := ROLE_CHECK;
    }

    method FinalizeLogin(role: UserRole)
      modifies this`user, this`savedUser, this`authStep
      ensures Session() == Wizard.FinalizeLogin(old(Session()), role)
    {
      var newUser := User(email, username, role, None);
      user := newUser;
      savedUser := Some(newUser);
      authStep := COMPLETE;
    }

    method HandleRoleSelection(hasKey: bool)
      modifies this`user, this`savedUser, this`authStep
      ensures Session() == RoleSelection(old(Session()), hasKey)
    {
      if hasKey {
        authStep := ADMIN_INPUT;
      } else {
        FinalizeLogin(BUYER);
      }
    }

    /** The "Yes, I have a key" button: clears the error line, then selects the key path. */
    method ChooseHaveKey()
      modifies this`authError, this`user, this`savedUser, this`authStep
      ensures Session() == Handle(old(Session()), PressHaveKey)
    {
      authError := "";
      HandleRoleSelection(true);
    }

    method HandleAdminKeySubmit()
      modifies this`authError, this`user, this`savedUser, this`authStep
      ensures Session() == AdminKeySubmit(old(Session()))
    {
      if adminKeyInput == ADMIN_KEY {
        FinalizeLogin(SELLER);
      } else {
        authError := INVALID_CODE;
      }
    }

    /** The admin key input's change handler. */
    method EditAdminKey(value: string)
      modifies this`adminKeyInput, this`authError
      ensures Session() == Wizard.EditAdminKey(old(Session()), value)
    {
      adminKeyInput := value;
      if authError != "" {
        authError := "";
      }
    }

    /**
     * handleLogout resets the wizard and removes the stored record; the
     * listing, the search text and the seller's form are left as they are.
     */
    method HandleLogout()
      modifies this`authStep, this`email, this`password, this`username, this`adminKeyInput, this`authError,
        this`user, this`savedUser
      ensures Session() == Logout(old(Session()))
    {
      savedUser := None;
      user := GUEST_USER;
      authStep := EMAIL_PASSWORD;
      email := "";
      password := "";
      username := "";
      adminKeyInput := "";
      authError := "";
    }

    /** A visible control of the sign-in screens or the logout button, as a method. */
    method Act(ev: AuthEvent)
      modifies this`authStep, this`email, this`password, this`username, this`adminKeyInput, this`authError,
        this`user, this`savedUser
      ensures Session() == Apply(old(Session()), ev)
    {
      if !Offered(authStep, ev) {
        return;
      }
      match ev
      case TypeEmail(v) => email := v;
      case TypePassword(v) => password := v;
      case PressNext => HandleNextToUsername();
      case TypeUsername(v) => username := v;
      case PressSignUp => HandleSignupComplete();
      case PressBack => authStep := EMAIL_PASSWORD;
      case PressHaveKey => ChooseHaveKey();
      case PressNoKey => HandleRoleSelection(false);
      case TypeAdminKey(v) => EditAdminKey(v);
      case PressVerify => HandleAdminKeySubmit();
      case PressEnterAsBuyer => FinalizeLogin(BUYER);
      case PressLogout => HandleLogout();
    }

    /**
     * A sequence of user actions on the sign-in screens. Started on a fresh
     * load, a seller is signed in only after the exact key was typed.
     */
    method ActAll(evs: seq<AuthEvent>)
      modifies this`authStep, this`email, this`password, this`username, this`adminKeyInput, this`authError,
        this`user, this`savedUser
      ensures Session() == Run(old(Session()), evs)
      ensures old(Session()) == Start(None) && user.role == SELLER ==> adminKeyInput == ADMIN_KEY
    {
      var i := 0;
      while i < |evs|
        invariant 0 <= i <= |evs|
        invariant Run(old(Session()), evs) == Run(Session(), evs[i..])
      {
        Act(evs[i]);
        assert evs[i..][1..] == evs[i + 1..];
        i := i + 1;
      }
      if old(Session()) == Start(None) {
        FreshSessionGuarantees(evs);
      }
    }

    /** The part of fetchProducts before the request is sent. */
    method BeginFetch()
      modifies this`isLoadingProducts, this`fetchError, this`isSetupRequired, this`isConfigRequired
      ensures Board() == Catalog.BeginFetch(old(Board()))
    {
      isLoadingProducts := true;
      fetchError := None;
      isSetupRequired := false;
      isConfigRequired := false;
    }

    /** The part of fetchProducts after the request has ended with `resp`. */
    method FinishFetch(resp: ListResponse)
      modifies this`products, this`isLoadingProducts, this`fetchError, this`isSetupRequired, this`isConfigRequired
      ensures Board() == Catalog.FinishFetch(old(Board()), resp)
    {
      match resp {
      case ListAnswered(data, e) =>
        if IsTruthy(e) {
          var msg := ErrorMessage(e);
          var d := DiagnoseListError(e);
          if d == SetupRequired {
            isSetupRequired := true;
          } else if d == ConfigRequired {
            isConfigRequired := true;
            fetchError := Some(msg);
          } else {
            fetchError := Some(msg);
          }
        } else {
          products := ProductsOfRows(if data.Some? then data.value else []);
        }
      case ListThrew(e) =>
        var msg := ErrorMessage(e);
        if DiagnoseListThrown(e) == ConfigRequired {
          isConfigRequired := true;
        }
        fetchError := Some(msg);
      }
      isLoadingProducts := false;
    }

    method SetSearchQuery(value: string)
      modifies this`searchQuery
      ensures searchQuery == value
    {
      searchQuery := value;
    }

    /** The products the dashboard lists. */
    function FilteredProducts(): (r: seq<Product>)
      reads this`products, this`searchQuery
      ensures forall i :: 0 <= i < |r| ==> r[i] in products
    {
      FilterByTitle(products, searchQuery)
    }

    /** handleImageUpload; `files` is None when the input holds no file list. */
    method HandleImageUpload(files: Option<seq<SelectedFile>>)
      modifies this`newProductImages
      ensures Form() == old(Form()).(images := ImagesAfterUpload(old(newProductImages), files))
      ensures |old(newProductImages)| <= MAX_IMAGES ==> |newProductImages| <= MAX_IMAGES
    {
      if files.None? {
        return;
      }
      newProductImages := UploadImages(newProductImages, files.value);
      UploadBounded(old(newProductImages), files);
    }

    method RemoveImage(index: int)
      modifies this`newProductImages
      ensures Form() == old(Form()).(images := WithoutIndex(old(newProductImages), index))
    {
      newProductImages := WithoutIndex(newProductImages, index);
    }

    method SetTitle(value: string)
      modifies this`newProductTitle
      ensures Form() == old(Form()).(title := value)
    {
      newProductTitle := value;
    }

    method SetPrice(value: string)
      modifies this`newProductPrice
      ensures Form() == old(Form()).(price := value)
    {
      newProductPrice := value;
    }

    method SetVideo(value: string)
      modifies this`newProductVideo
      ensures Form() == old(Form()).(video := value)
    {
      newProductVideo := value;
    }

    method SetDescription(value: string)
      modifies this`newProductDesc
      ensures Form() == old(Form()).(description := value)
    {
      newProductDesc := value;
    }

    /**
     * generateDescription with `generated` the text the description service
     * answers: without a title and a price it only raises an alert.
     */
    method GenerateDescription(generated: string) returns (alert: Option<string>)
      modifies this`newProductDesc
      ensures alert.Some? <==> old(newProductTitle) == "" || old(newProductPrice) == ""
      ensures alert.Some? ==> alert.value == TITLE_PRICE_FIRST && Form() == old(Form())
      ensures alert.None? ==> Form() == old(Form()).(description := generated)
    {
      if newProductTitle == "" || newProductPrice == "" {
        return Some(TITLE_PRICE_FIRST);
      }
      newProductDesc := generated;
      alert := None;
    }

    /**
     * addProduct with `stamp` the digits of the current time and `resp` the
     * insert request's answer. It returns the row it sends, if any, and the
     * text of the alert it raises, if any. A saved product clears the form
     * and starts a new list request.
     */
    method AddProduct(stamp: string, resp: InsertResponse) returns (sent: Option<InsertPayload>, alert: Option<string>)
      modifies this`isLoadingProducts, this`fetchError, this`isSetupRequired, this`isConfigRequired,
        this`newProductTitle, this`newProductPrice, this`newProductVideo, this`newProductImages,
        this`newProductDesc
      ensures sent == InsertPayloadFor(old(user).username, old(Form()), stamp)
      ensures sent.None? ==> alert == Some(TITLE_PRICE_REQUIRED) && Board() == old(Board()) && Form() == old(Form())
      ensures sent.Some? ==>
        && Board() == ListingAfterInsert(old(Board()), InsertResultOf(resp))
        && Form() == DraftAfterInsert(old(Form()), InsertResultOf(resp))
        && (alert.Some? <==> InsertResultOf(resp).Alert?)
        && (alert.Some? ==> alert.value == InsertResultOf(resp).message)
    {
      sent := InsertPayloadFor(user.username, Form(), stamp);
      if sent.None? {
        return sent, Some(TITLE_PRICE_REQUIRED);
      }
      alert := None;
      var result := InsertResultOf(resp);
      match result
      case Saved =>
        BeginFetch();
        newProductTitle := "";
        newProductPrice := "";
        newProductVideo := "";
        newProductDesc := "";
        newProductImages := [];
      case NeedsSetup =>
        isSetupRequired := true;
      case NeedsConfig =>
        isConfigRequired := true;
      case Alert(message) =>
        alert := Some(message);
    }

    /** deleteProduct, with the answer of the confirmation box and of the delete request. */
    method DeleteProduct(confirmed: bool, resp: DeleteResponse) returns (result: DeleteResult)
      modifies this`isLoadingProducts, this`fetchError, this`isSetupRequired, this`isConfigRequired
      ensures result == DeleteResultOf(confirmed, resp)
      ensures result == Deleted ==> Board() == Catalog.BeginFetch(old(Board()))
      ensures result != Deleted ==> Board() == old(Board())
    {
      result := DeleteResultOf(confirmed, resp);
      if result == Deleted {
        BeginFetch();
      }
    }

    /** The dashboard replaces the sign-in screens once the wizard is complete. */
    predicate ShowsDashboard()
      reads this`authStep
    {
      authStep == COMPLETE
    }

    /** The seller's form is shown to a seller while neither the setup nor the connection banner is up. */
    predicate ShowsSellerForm()
      reads this`authStep, this`user, this`isSetupRequired, this`isConfigRequired, this`fetchError
      ensures ShowsSellerForm() ==> authStep == COMPLETE && user.role == SELLER
      ensures ShowsSellerForm() ==>
        VisibleBanner(fetchError, isSetupRequired, isConfigRequired) != DatabaseSetup
        && VisibleBanner(fetchError, isSetupRequired, isConfigRequired) != ConnectionFailed
    {
      ShowsDashboard() && user.role == SELLER && !isSetupRequired && !isConfigRequired
    }

    /**
     * The props of the card the dashboard renders for `p`: the viewer's role,
     * and a delete handler only for a seller. So only a seller's cards offer
     * "Remove Listing", and a buyer's cards are the only ones with "Buy Now".
     */
    function CardFor(p: Product): (props: CardProps)
      reads this`user
      ensures props.product == p && props.userRole == user.role
      ensures RemoveListingShown(props) <==> user.role == SELLER
      ensures CardOffers(props, INITIAL_CARD, ClickBuyNow) <==> user.role == BUYER
    {
      CardProps(p, user.role, user.role == SELLER)
    }

    /** The banner above the product grid. */
    function CurrentBanner(): (b: Banner)
      reads this`fetchError, this`isSetupRequired, this`isConfigRequired, this`authStep, this`user
      ensures b == DatabaseSetup ==> !ShowsSellerForm()
      ensures b == ConnectionFailed ==> !ShowsSellerForm()
    {
      VisibleBanner(fetchError, isSetupRequired, isConfigRequired)
    }
  }
}
