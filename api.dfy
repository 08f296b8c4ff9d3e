/** The records the pages exchange with the remote API, the requests they send,
    the outcome of a request as the page sees it, and the notifications (toasts)
    they raise. A request is recorded in a log when it is sent; its result is
    given to the page as an input when it settles. */
module Api {
  import opened Wrappers

  /** A category as the API returns it (`_id`, `title`, `image`). */
  datatype Category = Category(id: string, title: string, image: string)

  /** A code snippet as the API returns it (`_id`, `title`, `code`, `categoryId`). */
  datatype Code = Code(id: string, title: string, code: string, categoryId: string)

  /** The bodies the pages post or patch. */
  datatype Payload =
    | TitleImage(title: string, image: string)
    | TitleCode(title: string, code: string)
    | NewCode(title: string, code: string, categoryId: string)

  datatype Request =
    | Get(path: string)
    | Delete(path: string)
    | Patch(path: string, body: Payload)
    | Post(path: string, body: Payload)

  /** `error.response`: the status and the server's `data.message`. */
  datatype ErrorResponse = ErrorResponse(status: int, serverMessage: string)

  /** A rejected request: the response, if one arrived, and `error.message`. */
  datatype Failure = Failure(response: Option<ErrorResponse>, message: string)

  datatype Outcome<+T> = Ok(data: T) | Err(failure: Failure)

  datatype Toast = ErrorToast(text: string) | SuccessToast(text: string)

  /** The wording a page uses for the four kinds of fetch failure. */
  datatype FetchWording = FetchWording(notFound: string, forbidden: string, failedPrefix: string)

  const Unexpected := "An unexpected error occurred."

  const CodeWording := FetchWording(
    "Code not found.",
    "You are not authorized to view this code.",
    "Failed to fetch the code: ")

  const CategoryWording := FetchWording(
    "Category not found.",
    "You are not authorized to view this category.",
    "Failed to fetch the category: ")

  /** The class of a failure the fetch handlers distinguish. */
  datatype FetchErrorKind = NotFound | Forbidden | OtherStatus(serverMessage: string) | NoResponse

  function Classify(f: Failure): FetchErrorKind {
    match f.response
    case None => NoResponse
    case Some(r) =>
      if r.status == 404 then NotFound
      else if r.status == 403 then Forbidden
      else OtherStatus(r.serverMessage)
  }

  /** The error toast a fetch handler raises for a failure. */
  function FetchErrorMessage(w: FetchWording, f: Failure): (msg: string)
  {
    match Classify(f)
    case NotFound => w.notFound
    case Forbidden => w.forbidden
    case OtherStatus(m) => w.failedPrefix + m
    case NoResponse => Unexpected
  }

  predicate IsPrefix(p: string, s: string) { |p| <= |s| && s[..|p|] == p }

  /** The wording keeps the four kinds apart: none of the fixed messages starts
      with the prefix of the "other status" message, and they differ pairwise. */
  predicate Distinguishing(w: FetchWording) {
    w.notFound != w.forbidden && w.notFound != Unexpected && w.forbidden != Unexpected
    && !IsPrefix(w.failedPrefix, w.notFound) && !IsPrefix(w.failedPrefix, w.forbidden)
    && !IsPrefix(w.failedPrefix, Unexpected)
  }

  /** With distinguishing wording, the toast tells the kind of failure apart, and
      for any other status it carries the server's message after the prefix. */
  lemma FetchErrorMessageDistinguishes(w: FetchWording, f: Failure, g: Failure)
    requires Distinguishing(w)
    ensures FetchErrorMessage(w, f) == FetchErrorMessage(w, g) ==> Classify(f) == Classify(g)
    ensures Classify(f).OtherStatus? ==>
              IsPrefix(w.failedPrefix, FetchErrorMessage(w, f))
              && FetchErrorMessage(w, f)[|w.failedPrefix|..] == Classify(f).serverMessage
  {
    var mf, mg := FetchErrorMessage(w, f), FetchErrorMessage(w, g);
    if Classify(f).OtherStatus? {
      assert mf[..|w.failedPrefix|] == w.failedPrefix;
    }
    if Classify(g).OtherStatus? {
      assert mg[..|w.failedPrefix|] == w.failedPrefix;
    }
    if mf == mg && Classify(f).OtherStatus? && Classify(g).OtherStatus? {
      assert mf[|w.failedPrefix|..] == Classify(f).serverMessage;
      assert mg[|w.failedPrefix|..] == Classify(g).serverMessage;
    }
  }

  /** Both fetch pages use wording that tells the failures apart. */
  lemma PageWordingsDistinguish()
    ensures Distinguishing(CodeWording) && Distinguishing(CategoryWording)
  {
    assert CodeWording.notFound[0] != CodeWording.failedPrefix[0];
    assert CodeWording.forbidden[0] != CodeWording.failedPrefix[0];
    assert CategoryWording.notFound[0] != CategoryWording.failedPrefix[0];
    assert CategoryWording.forbidden[0] != CategoryWording.failedPrefix[0];
    assert Unexpected[0] != CodeWording.failedPrefix[0];
    assert Unexpected[0] != CategoryWording.failedPrefix[0];
  }
}
