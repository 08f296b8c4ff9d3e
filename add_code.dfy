/** The new-snippet form of one category. Mounting fetches the category (a
    failure is reported by kind and leads back to the category list);
    submitting checks the trimmed fields and posts the snippet with the
    route's category id. */
module AddCode {
  import opened Wrappers
  import opened Text
  import opened Api
  import opened Listing

  const AddFailed := "Failed to add code. Please try again."
  const Added := "Code added successfully."
  const CategoriesRoute := "/categories/"

  function CategoryPath(categoryId: string): string { "/category/" + categoryId }
  function CodesPath(categoryId: string): string { "/codes/" + categoryId }

  /** The record a valid form posts: the trimmed fields and the route's id. */
  function PayloadOf(title: string, code: string, categoryId: string): Payload {
    NewCode(Trim(title), Trim(code), categoryId)
  }

  /** What a complete form posts is clean: both text fields are non-empty,
      already trimmed, and neither starts nor ends with whitespace. */
  lemma PayloadClean(title: string, code: string, categoryId: string)
    requires FormComplete(title, code)
    ensures var p := PayloadOf(title, code, categoryId);
            p.title != "" && p.code != "" && Trim(p.title) == p.title && Trim(p.code) == p.code
            && !IsWhitespace(p.title[0]) && !IsWhitespace(p.code[|p.code| - 1])
            && p.categoryId == categoryId
  {
    TrimIdempotent(title);
    TrimIdempotent(code);
    TrimSpec(title);
    TrimSpec(code);
  }

  class AddCodePage {
    /** The category id from the route. */
    const categoryId: string
    /** The fetched category (the source keeps it in a state named `codes`). */
    var fetched: Option<Category>
    var loading: bool
    /** The error shown above the form; none at first. */
    var error: Option<string>
    /** What the two inputs hold. */
    var title: string
    var code: string
    /** Posts sent and not yet settled. */
    var postsInFlight: nat
    var requests: seq<Request>
    var toasts: seq<Toast>
    /** The success dialogs shown. */
    var alerts: seq<string>
    var navigations: seq<string>

    /** Mounting fetches the category and shows the spinner. */
    constructor (categoryId: string)
      ensures this.categoryId == categoryId
      ensures fetched == None && loading && error == None && title == "" && code == ""
      ensures postsInFlight == 0 && requests == [Get(CategoryPath(categoryId))]
      ensures toasts == [] && alerts == [] && navigations == []
    {
      this.categoryId := categoryId;
      fetched, loading, error, title, code := None, true, None, "", "";
      postsInFlight, requests := 0, [Get(CategoryPath(categoryId))];
      toasts, alerts, navigations := [], [], [];
    }

    /** The category fetch settles. The category is stored; a failure raises
        the toast for its kind and goes to the category list. Loading ends
        either way. */
    method CategoryFetched(outcome: Outcome<Category>)
      modifies this
      ensures !loading
      ensures outcome.Ok? ==>
                fetched == Some(outcome.data) && toasts == old(toasts) && navigations == old(navigations)
      ensures outcome.Err? ==>
                fetched == old(fetched)
                && toasts == old(toasts) + [ErrorToast(FetchErrorMessage(CategoryWording, outcome.failure))]
                && navigations == old(navigations) + [CategoriesRoute]
      ensures error == old(error) && title == old(title) && code == old(code)
      ensures postsInFlight == old(postsInFlight) && requests == old(requests) && alerts == old(alerts)
    {
      match outcome {
        case Ok(c) =>
          fetched := Some(c);
        case Err(f) =>
          toasts := toasts + [ErrorToast(FetchErrorMessage(CategoryWording, f))];
          navigations := navigations + [CategoriesRoute];
      }
      loading := false;
    }

    /** Typing into the inputs. */
    method Type(t: string, c: string)
      modifies this`title, this`code
      ensures title == t && code == c
    {
      title, code := t, c;
    }

    /** Submitting the form: a blank field sets the error and sends nothing;
        otherwise the snippet is posted under the route's category. A stale
        error stays shown while the post is under way. */
    method Submit()
      modifies this
      ensures !FormComplete(old(title), old(code)) ==>
                error == Some(MissingFields) && requests == old(requests)
                && postsInFlight == old(postsInFlight)
      ensures FormComplete(old(title), old(code)) ==>
                error == old(error) && postsInFlight == old(postsInFlight) + 1
                && requests == old(requests) + [Post(CodesPath(categoryId), PayloadOf(old(title), old(code), categoryId))]
      ensures fetched == old(fetched) && loading == old(loading)
      ensures title == old(title) && code == old(code)
      ensures toasts == old(toasts) && alerts == old(alerts) && navigations == old(navigations)
    {
      var t, c := Trim(title), Trim(code);
      if t == "" || c == "" {
        error := Some(MissingFields);
        return;
      }
      requests := requests + [Post(CodesPath(categoryId), NewCode(t, c, categoryId))];
      postsInFlight := postsInFlight + 1;
    }

    /** A post settles. Success shows the dialog, empties the inputs and goes to
        the category's snippet list; failure sets the error. */
    method PostSettled(outcome: Outcome<()>)
      requires postsInFlight > 0
      modifies this
      ensures postsInFlight == old(postsInFlight) - 1
      ensures outcome.Ok? ==>
                alerts == old(alerts) + [Added] && title == "" && code == ""
                && navigations == old(navigations) + [CodesPath(categoryId)] && error == old(error)
      ensures outcome.Err? ==>
                error == Some(AddFailed) && alerts == old(alerts)
                && title == old(title) && code == old(code) && navigations == old(navigations)
      ensures fetched == old(fetched) && loading == old(loading)
      ensures requests == old(requests) && toasts == old(toasts)
    {
      postsInFlight := postsInFlight - 1;
      match outcome {
        case Ok(_) =>
          alerts := alerts + [Added];
          title, code := "", "";
          navigations := navigations + [CodesPath(categoryId)];
        case Err(_) =>
          error := Some(AddFailed);
      }
    }
  }

  /** A missing category: one toast saying so, and back to the list. */
  method MissingCategoryScenario() returns (shown: seq<Toast>, went: seq<string>, spinning: bool)
    ensures shown == [ErrorToast("Category not found.")] && went == ["/categories/"] && !spinning
  {
    var page := new AddCodePage("9");
    page.CategoryFetched(Err(Failure(Some(ErrorResponse(404, "no such category")), "Request failed")));
    shown, went, spinning := page.toasts, page.navigations, page.loading;
  }

  /** A failed post sets the error; a later successful post leaves it shown
      while navigating away. */
  method ErrorOutlivesSuccessScenario() returns (errorAfter: Option<string>, went: seq<string>)
    ensures errorAfter == Some(AddFailed) && went == ["/codes/9"]
  {
    var page := new AddCodePage("9");
    page.CategoryFetched(Ok(Category("9", "Go", "g.png")));
    page.Type("loop", "for i := 0; i < n; i++ {}");
    TypedFormComplete();
    page.Submit();
    page.PostSettled(Err(Failure(None, "Network Error")));
    page.Submit();
    page.PostSettled(Ok(()));
    errorAfter, went := page.error, page.navigations;
    assert CodesPath("9") == "/codes/9";
  }

  lemma TypedFormComplete()
    ensures FormComplete("loop", "for i := 0; i < n; i++ {}")
  {
    FormCompleteIff("loop", "for i := 0; i < n; i++ {}");
    assert !IsWhitespace("loop"[0]);
    assert !IsWhitespace("for i := 0; i < n; i++ {}"[0]);
  }
}
