/** The snippet list of one category: it fetches the category's snippets,
    deletes one after a confirmation dialog, and edits one in a modal form
    that patches the record and refetches the list. Requests are logged when
    sent and settle later as separate events; the dialog's answer is an input. */
module Codes {
  import opened Wrappers
  import opened Text
  import opened Seqs
  import opened Api
  import opened Listing

  function CodeId(c: Code): string { c.id }

  const FetchFailed := "Failed to fetch codes: "
  const DeleteFailed := "Failed to delete code: "
  const UpdateFailed := "Failed to update code: "
  const Updated := "Code updated!"

  /** The success dialog after a delete. */
  function Deleted(title: string): string {
    "Deleted \"" + title + "\" successfully."
  }

  /** The path of a category's list, and of one snippet's delete and patch. */
  function CodesPath(id: string): string { "/codes/" + id }

  /** The heading above the table. */
  function Heading(count: nat): string { "My Codes" + CountSuffix(count) }

  class CodesPage {
    /** The category id from the route. */
    const id: string
    var codes: seq<Code>
    var loading: bool
    /** The record the edit modal is open on; the modal shows while set. */
    var editCode: Option<Code>
    var updating: bool
    /** List fetches sent and not yet settled. */
    var fetchesInFlight: nat
    /** Deletes sent and not yet settled, with the record each was for. */
    var pendingDeletes: seq<Code>
    /** Patches sent and not yet settled. */
    var patchesInFlight: nat
    var requests: seq<Request>
    var toasts: seq<Toast>
    /** The success dialogs shown. */
    var alerts: seq<string>

    /** While a save is under way a patch is in flight; every settled or
        pending request was logged. */
    ghost predicate Valid()
      reads this
    {
      (updating ==> patchesInFlight > 0)
      && fetchesInFlight + |pendingDeletes| + patchesInFlight <= |requests|
    }

    /** Mounting fetches the category's snippets and shows the spinner. */
    constructor (id: string)
      ensures Valid()
      ensures this.id == id
      ensures codes == [] && loading && editCode == None && !updating
      ensures fetchesInFlight == 1 && pendingDeletes == [] && patchesInFlight == 0
      ensures requests == [Get(CodesPath(id))] && toasts == [] && alerts == []
    {
      this.id := id;
      codes, loading, editCode, updating := [], true, None, false;
      fetchesInFlight, pendingDeletes, patchesInFlight := 1, [], 0;
      requests, toasts, alerts := [Get(CodesPath(id))], [], [];
    }

    /** Whether the page shows the edit modal. */
    function ModalOpen(): (open: bool)
      reads this
      ensures open <==> editCode.Some?
    {
      editCode.Some?
    }

    /** A list fetch settles. A list replaces the shown one; a failure keeps it
        and raises a toast with the error. Loading ends either way. */
    method CodesFetched(outcome: Outcome<seq<Code>>)
      requires Valid() && fetchesInFlight > 0
      modifies this
      ensures Valid()
      ensures !loading && fetchesInFlight == old(fetchesInFlight) - 1
      ensures outcome.Ok? ==> codes == outcome.data && toasts == old(toasts)
      ensures outcome.Err? ==>
                codes == old(codes) && toasts == old(toasts) + [ErrorToast(FetchFailed + outcome.failure.message)]
      ensures editCode == old(editCode) && updating == old(updating)
      ensures pendingDeletes == old(pendingDeletes) && patchesInFlight == old(patchesInFlight)
      ensures requests == old(requests) && alerts == old(alerts)
    {
      fetchesInFlight := fetchesInFlight - 1;
      match outcome {
        case Ok(data) =>
          codes := data;
        case Err(f) =>
          toasts := toasts + [ErrorToast(FetchFailed + f.message)];
      }
      loading := false;
    }

    /** The delete button: after a confirmed dialog the delete is sent;
        a dismissed dialog sends nothing. */
    method HandleDelete(target: Code, confirmed: bool)
      requires Valid()
      modifies this
      ensures Valid()
      ensures confirmed ==>
                requests == old(requests) + [Delete(CodesPath(target.id))]
                && pendingDeletes == old(pendingDeletes) + [target]
      ensures !confirmed ==> requests == old(requests) && pendingDeletes == old(pendingDeletes)
      ensures codes == old(codes) && loading == old(loading)
      ensures editCode == old(editCode) && updating == old(updating)
      ensures fetchesInFlight == old(fetchesInFlight) && patchesInFlight == old(patchesInFlight)
      ensures toasts == old(toasts) && alerts == old(alerts)
    {
      if confirmed {
        requests := requests + [Delete(CodesPath(target.id))];
        pendingDeletes := pendingDeletes + [target];
      }
    }

    /** The `k`-th pending delete settles. On success the dialog names the
        record and every record with its id leaves the current list; on
        failure the list stays and the toast carries the error. */
    method DeleteSettled(k: nat, outcome: Outcome<()>)
      requires Valid() && k < |pendingDeletes|
      modifies this
      ensures Valid()
      ensures var t := old(pendingDeletes)[k];
              && pendingDeletes == old(pendingDeletes)[..k] + old(pendingDeletes)[k + 1..]
              && (outcome.Ok? ==>
                    codes == RemoveById(old(codes), CodeId, t.id)
                    && alerts == old(alerts) + [Deleted(t.title)] && toasts == old(toasts))
              && (outcome.Err? ==>
                    codes == old(codes) && alerts == old(alerts)
                    && toasts == old(toasts) + [ErrorToast(DeleteFailed + outcome.failure.message)])
      ensures loading == old(loading) && editCode == old(editCode) && updating == old(updating)
      ensures fetchesInFlight == old(fetchesInFlight) && patchesInFlight == old(patchesInFlight)
      ensures requests == old(requests)
    {
      var t := pendingDeletes[k];
      pendingDeletes := pendingDeletes[..k] + pendingDeletes[k + 1..];
      match outcome {
        case Ok(_) =>
          alerts := alerts + [Deleted(t.title)];
          codes := RemoveById(codes, CodeId, t.id);
        case Err(f) =>
          toasts := toasts + [ErrorToast(DeleteFailed + f.message)];
      }
    }

    /** The update button opens the modal on that record. */
    method HandleEdit(c: Code)
      requires Valid()
      modifies this`editCode
      ensures Valid()
      ensures editCode == Some(c)
    {
      editCode := Some(c);
    }

    /** The cancel button is disabled while a save is under way. */
    method Cancel()
      requires Valid()
      modifies this`editCode
      ensures Valid()
      ensures editCode == if old(updating) then old(editCode) else None
    {
      if !updating {
        editCode := None;
      }
    }

    /** Clicking the backdrop closes the modal, even while a save is under way. */
    method BackdropClick()
      requires Valid()
      modifies this`editCode
      ensures Valid()
      ensures editCode == None
    {
      editCode := None;
    }

    /** Submitting the modal form with the fields as typed. Both fields are
        trimmed, the snippet body included; a blank one raises a toast and
        sends nothing, otherwise the trimmed fields are patched onto the open
        record. The submit button stays enabled while a save is under way. */
    method SubmitUpdate(titleInput: string, codeInput: string)
      requires Valid() && editCode.Some?
      modifies this
      ensures Valid()
      ensures !FormComplete(titleInput, codeInput) ==>
                !updating && toasts == old(toasts) + [ErrorToast(MissingFields)]
                && requests == old(requests) && patchesInFlight == old(patchesInFlight)
      ensures FormComplete(titleInput, codeInput) ==>
                updating && toasts == old(toasts)
                && requests == old(requests)
                   + [Patch(CodesPath(old(editCode).value.id), TitleCode(Trim(titleInput), Trim(codeInput)))]
                && patchesInFlight == old(patchesInFlight) + 1
      ensures codes == old(codes) && loading == old(loading) && editCode == old(editCode)
      ensures fetchesInFlight == old(fetchesInFlight) && pendingDeletes == old(pendingDeletes)
      ensures alerts == old(alerts)
    {
      updating := true;
      var title, body := Trim(titleInput), Trim(codeInput);
      if title == "" || body == "" {
        toasts := toasts + [ErrorToast(MissingFields)];
        updating := false;
        return;
      }
      requests := requests + [Patch(CodesPath(editCode.value.id), TitleCode(title, body))];
      patchesInFlight := patchesInFlight + 1;
    }

    /** A patch settles. Success raises the success toast, closes the modal
        whichever record it is open on, and refetches the category's list
        without showing the spinner again; failure raises the toast with the
        error. The save ends either way. */
    method PatchSettled(outcome: Outcome<()>)
      requires Valid() && patchesInFlight > 0
      modifies this
      ensures Valid()
      ensures !updating && patchesInFlight == old(patchesInFlight) - 1
      ensures outcome.Ok? ==>
                editCode == None && toasts == old(toasts) + [SuccessToast(Updated)]
                && requests == old(requests) + [Get(CodesPath(id))]
                && fetchesInFlight == old(fetchesInFlight) + 1
      ensures outcome.Err? ==>
                editCode == old(editCode) && requests == old(requests)
                && fetchesInFlight == old(fetchesInFlight)
                && toasts == old(toasts) + [ErrorToast(UpdateFailed + outcome.failure.message)]
      ensures codes == old(codes) && loading == old(loading)
      ensures pendingDeletes == old(pendingDeletes) && alerts == old(alerts)
    {
      patchesInFlight := patchesInFlight - 1;
      match outcome {
        case Ok(_) =>
          toasts := toasts + [SuccessToast(Updated)];
          editCode := None;
          requests := requests + [Get(CodesPath(id))];
          fetchesInFlight := fetchesInFlight + 1;
        case Err(f) =>
          toasts := toasts + [ErrorToast(UpdateFailed + f.message)];
      }
      updating := false;
    }
  }

  /** Whatever led up to it, a save under way has a patch in flight, so the
      save ends when that patch settles, however it settles. */
  method SaveEnds(page: CodesPage, outcome: Outcome<()>)
    requires page.Valid() && page.updating
    modifies page
    ensures page.Valid() && !page.updating
    ensures page.patchesInFlight == old(page.patchesInFlight) - 1
  {
    page.PatchSettled(outcome);
  }

  /** A body of only blank lines is refused before anything is sent, and the
      modal stays open on the record. */
  method BlankBodyScenario() returns (sent: seq<Request>, open: bool, shown: seq<Toast>)
    ensures sent == [Get("/codes/7")] && open && shown == [ErrorToast(MissingFields)]
  {
    var page := new CodesPage("7");
    page.CodesFetched(Ok([Code("1", "loop", "for", "7")]));
    page.HandleEdit(Code("1", "loop", "for", "7"));
    BlankIsIncomplete();
    page.SubmitUpdate("loop", " \n\t");
    sent, open, shown := page.requests, page.ModalOpen(), page.toasts;
    assert CodesPath("7") == "/codes/7";
  }

  lemma BlankIsIncomplete()
    ensures !FormComplete("loop", " \n\t")
  {
    FormCompleteIff("loop", " \n\t");
    assert AllWhitespace(" \n\t");
  }

  /** A successful save refetches the route's category, not the snippet: the
      patch goes to the snippet's path and the refetch to the category's. */
  method SaveRefetchScenario() returns (sent: seq<Request>)
    ensures sent == [Get("/codes/7"), Patch("/codes/1", TitleCode("loop", "for")), Get("/codes/7")]
  {
    var page := new CodesPage("7");
    page.CodesFetched(Ok([Code("1", "loop", "for", "7")]));
    page.HandleEdit(Code("1", "loop", "for", "7"));
    TypedIsComplete();
    page.SubmitUpdate("loop ", "for");
    page.PatchSettled(Ok(()));
    sent := page.requests;
    assert CodesPath("7") == "/codes/7" && CodesPath("1") == "/codes/1";
  }

  lemma TypedIsComplete()
    ensures FormComplete("loop ", "for") && Trim("loop ") == "loop" && Trim("for") == "for"
  {
    assert TrimStartIndex("loop ") == 0;
    assert TrimEndIndex("loop ", 0) == 4;
    assert TrimStartIndex("for") == 0;
    assert TrimEndIndex("for", 0) == 3;
  }
}
