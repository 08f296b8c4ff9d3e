/** The new-category form. Submitting checks the trimmed fields in order (both
    present, then an image address in the image field) and posts them. The
    address check calls `test` on a pattern object with the `g` flag that the
    page builds afresh each time it renders; the page renders again only when
    its error message changes. */
module AddCategory {
  import opened Wrappers
  import opened Text
  import opened Api
  import opened Listing
  import opened ImagePattern

  const InvalidImage := "Invalid image URL"
  const SubmitFailed := "Failed to submit category. Please try again."
  const Added := "Category added successfully."
  const CategoriesRoute := "/categories/"

  /** The request a valid form sends: the trimmed fields, nothing else. */
  function PostOf(title: string, image: string): Request {
    Post("/categories", TitleImage(Trim(title), Trim(image)))
  }

  /** The validator chain as it is meant to work, on a pattern with no memory
      of earlier submissions: the error to show, if any. */
  function Validate(titleInput: string, imageInput: string): (error: Option<string>)
    ensures error == Some(MissingFields) <==> !FormComplete(titleInput, imageInput)
    ensures error == Some(InvalidImage) <==>
              FormComplete(titleInput, imageInput) && !HasImageAddress(Trim(imageInput))
    ensures error == None <==>
              FormComplete(titleInput, imageInput) && HasImageAddress(Trim(imageInput))
  {
    ExecSpec(Trim(imageInput), 0);
    if !FormComplete(titleInput, imageInput) then Some(MissingFields)
    else if !Exec(Trim(imageInput), 0).matched then Some(InvalidImage)
    else None
  }

  class AddCategoryPage {
    /** The error shown above the form; none at first. */
    var error: Option<string>
    /** The pattern object of the latest render. */
    var imageRegex: ImageRegex
    /** What the two inputs hold. */
    var title: string
    var image: string
    /** Posts sent and not yet settled. */
    var postsInFlight: nat
    var requests: seq<Request>
    var toasts: seq<Toast>
    /** The success dialogs shown. */
    var alerts: seq<string>
    var navigations: seq<string>

    constructor ()
      ensures error == None && fresh(imageRegex) && imageRegex.lastIndex == 0
      ensures title == "" && image == "" && postsInFlight == 0
      ensures requests == [] && toasts == [] && alerts == [] && navigations == []
    {
      error := None;
      imageRegex := new ImageRegex();
      title, image, postsInFlight := "", "", 0;
      requests, toasts, alerts, navigations := [], [], [], [];
    }

    /** Typing into the inputs; they are uncontrolled, so nothing renders. */
    method Type(t: string, i: string)
      modifies this`title, this`image
      ensures title == t && image == i
    {
      title, image := t, i;
    }

    /** `setError`: a different message renders the page again, which builds a
        new pattern object; the same message again changes nothing. */
    method SetError(msg: string)
      modifies this`error, this`imageRegex
      ensures error == Some(msg)
      ensures old(error) != Some(msg) ==> fresh(imageRegex) && imageRegex.lastIndex == 0
      ensures old(error) == Some(msg) ==> imageRegex == old(imageRegex)
    {
      if error != Some(msg) {
        error := Some(msg);
        imageRegex := new ImageRegex();
      }
    }

    /** Submitting the form. A missing field is reported first; then the image
        field goes through `test` on the current pattern object, starting where
        its `lastIndex` was left; a valid form is posted. From a pattern object
        whose `lastIndex` is 0 this is exactly `Validate`. */
    method Submit()
      modifies this, imageRegex
      ensures imageRegex == old(imageRegex) || fresh(imageRegex)
      ensures !FormComplete(old(title), old(image)) ==>
                error == Some(MissingFields) && requests == old(requests)
                && postsInFlight == old(postsInFlight)
                && (old(error) == Some(MissingFields) ==>
                      imageRegex == old(imageRegex) && imageRegex.lastIndex == old(imageRegex.lastIndex))
                && (old(error) != Some(MissingFields) ==> fresh(imageRegex) && imageRegex.lastIndex == 0)
      ensures var r := Exec(Trim(old(image)), old(imageRegex.lastIndex));
              FormComplete(old(title), old(image)) ==>
                (r.matched ==>
                   requests == old(requests) + [PostOf(old(title), old(image))]
                   && postsInFlight == old(postsInFlight) + 1
                   && error == old(error) && imageRegex == old(imageRegex)
                   && imageRegex.lastIndex == r.lastIndex)
                && (!r.matched ==>
                      error == Some(InvalidImage) && requests == old(requests)
                      && postsInFlight == old(postsInFlight) && imageRegex.lastIndex == 0)
      ensures old(imageRegex.lastIndex) == 0 ==>
                match Validate(old(title), old(image))
                case None => requests == old(requests) + [PostOf(old(title), old(image))]
                case Some(m) => error == Some(m) && requests == old(requests)
      ensures title == old(title) && image == old(image)
      ensures toasts == old(toasts) && alerts == old(alerts) && navigations == old(navigations)
    {
      var t, i := Trim(title), Trim(image);
      if t == "" || i == "" {
        SetError(MissingFields);
        return;
      }
      var ok := imageRegex.Test(i);
      if !ok {
        SetError(InvalidImage);
        return;
      }
      requests := requests + [Post("/categories", TitleImage(t, i))];
      postsInFlight := postsInFlight + 1;
    }

    /** A post settles. Success shows the dialog, empties the inputs and goes to
        the category list; failure only raises a toast, so the page does not
        render again and the pattern object keeps its `lastIndex`. */
    method PostSettled(outcome: Outcome<()>)
      requires postsInFlight > 0
      modifies this
      ensures postsInFlight == old(postsInFlight) - 1
      ensures outcome.Ok? ==>
                alerts == old(alerts) + [Added] && title == "" && image == ""
                && navigations == old(navigations) + [CategoriesRoute] && toasts == old(toasts)
      ensures outcome.Err? ==>
                toasts == old(toasts) + [ErrorToast(SubmitFailed)] && alerts == old(alerts)
                && title == old(title) && image == old(image) && navigations == old(navigations)
      ensures error == old(error) && imageRegex == old(imageRegex) && requests == old(requests)
    {
      postsInFlight := postsInFlight - 1;
      match outcome {
        case Ok(_) =>
          alerts := alerts + [Added];
          title, image := "", "";
          navigations := navigations + [CategoriesRoute];
        case Err(_) =>
          toasts := toasts + [ErrorToast(SubmitFailed)];
      }
    }
  }

  const ShortTitle := "Go"
  const ShortImage := "http://a.png"

  /** The form "Go" / "http://a.png" is valid. */
  lemma ShortFormValid()
    ensures Trim(ShortTitle) == ShortTitle && Trim(ShortImage) == ShortImage
    ensures FormComplete(ShortTitle, ShortImage)
    ensures Exec(ShortImage, 0) == ExecResult(true, |ShortImage|)
    ensures Exec(ShortImage, |ShortImage|) == ExecResult(false, 0)
    ensures Validate(ShortTitle, ShortImage) == None
  {
    assert TrimStartIndex(ShortTitle) == 0 && TrimEndIndex(ShortTitle, 0) == 2;
    assert !IsWhitespace(ShortImage[0]) && !IsWhitespace(ShortImage[11]);
    assert TrimStartIndex(ShortImage) == 0 && TrimEndIndex(ShortImage, 0) == 12;
    ShortAddress();
    ExecAtEnd(ShortImage);
  }

  /** A valid form whose post fails is refused when submitted again unchanged:
      the pattern object was not rebuilt, its `lastIndex` sits at the end of
      the address, and `test` fails there. The refusal changes the error, the
      page renders, and a third submission is posted. */
  method ResubmitAfterFailureScenario()
    returns (firstSent: bool, secondError: Option<string>, secondSent: bool, thirdSent: bool)
    ensures firstSent && secondError == Some(InvalidImage) && !secondSent && thirdSent
  {
    ShortFormValid();
    var page := new AddCategoryPage();
    page.Type(ShortTitle, ShortImage);
    page.Submit();
    firstSent := |page.requests| == 1;
    page.PostSettled(Err(Failure(None, "Network Error")));
    page.Submit();
    secondError := page.error;
    secondSent := |page.requests| == 2;
    page.Submit();
    thirdSent := |page.requests| == 2;
  }
}
