/** The category list page: it fetches the user's categories, deletes one after
    a confirmation dialog, and edits one in a modal form that patches the
    record and refetches the list. Requests are logged when sent and settle
    later as separate events; the confirmation dialog's answer is an input. */
module Categories {
  import opened Wrappers
  import opened Text
  import opened Seqs
  import opened Api
  import opened Listing

  function CategoryId(c: Category): string { c.id }

  const ListRequest := Get("/categories")
  const DeleteFailed := "Failed to delete category: "
  const UpdateFailed := "Failed to update category: "
  const Updated := "Category updated successfully."

  /** The success dialog after a delete. */
  function Deleted(title: string): string {
    "Deleted \"" + title + "\" successfully."
  }

  /** The path a record's delete and patch go to. */
  function CategoryPath(id: string): string { "/categories/" + id }

  /** The heading above the table. */
  function Heading(count: nat): string { "My Categories" + CountSuffix(count) }

  class CategoriesPage {
    var categories: seq<Category>
    var loading: bool
    /** The record the edit modal is open on; the modal shows while set. */
    var editCategory: Option<Category>
    var updating: bool
    /** List fetches sent and not yet settled. */
    var fetchesInFlight: nat
    /** Deletes sent and not yet settled, with the record each was for. */
    var pendingDeletes: seq<Category>
    /** Patches sent and not yet settled. */
    var patchesInFlight: nat
    var requests: seq<Request>
    var toasts: seq<Toast>
    /** The success dialogs shown. */
    var alerts: seq<string>

    /** While a save is under way a patch is in flight; every settled or
        pending request was logged. */
    ghost predicate Valid()
      reads this
    {
      (updating ==> patchesInFlight > 0)
      && fetchesInFlight + |pendingDeletes| + patchesInFlight <= |requests|
    }

    /** Mounting fetches the list and shows the spinner until it arrives. */
    constructor ()
      ensures Valid()
      ensures categories == [] && loading && editCategory == None && !updating
      ensures fetchesInFlight == 1 && pendingDeletes == [] && patchesInFlight == 0
      ensures requests == [ListRequest] && toasts == [] && alerts == []
    {
      categories, loading, editCategory, updating := [], true, None, false;
      fetchesInFlight, pendingDeletes, patchesInFlight := 1, [], 0;
      requests, toasts, alerts := [ListRequest], [], [];
    }

    /** Whether the page shows the edit modal. */
    function ModalOpen(): (open: bool)
      reads this
      ensures open <==> editCategory.Some?
    {
      editCategory.Some?
    }

    /** A list fetch settles. A list replaces the shown one and ends loading; a
        failure is not caught, so nothing changes and a first load never ends. */
    method CategoriesFetched(outcome: Outcome<seq<Category>>)
      requires Valid() && fetchesInFlight > 0
      modifies this
      ensures Valid()
      ensures fetchesInFlight == old(fetchesInFlight) - 1
      ensures outcome.Ok? ==> categories == outcome.data && !loading
      ensures outcome.Err? ==> categories == old(categories) && loading == old(loading)
      ensures editCategory == old(editCategory) && updating == old(updating)
      ensures pendingDeletes == old(pendingDeletes) && patchesInFlight == old(patchesInFlight)
      ensures requests == old(requests) && toasts == old(toasts) && alerts == old(alerts)
    {
      fetchesInFlight := fetchesInFlight - 1;
      if outcome.Ok? {
        categories := outcome.data;
        loading := false;
      }
    }

    /** The delete button: after a confirmed dialog the delete is sent;
        a dismissed dialog sends nothing. */
    method HandleDelete(target: Category, confirmed: bool)
      requires Valid()
      modifies this
      ensures Valid()
      ensures confirmed ==>
                requests == old(requests) + [Delete(CategoryPath(target.id))]
                && pendingDeletes == old(pendingDeletes) + [target]
      ensures !confirmed ==> requests == old(requests) && pendingDeletes == old(pendingDeletes)
      ensures categories == old(categories) && loading == old(loading)
      ensures editCategory == old(editCategory) && updating == old(updating)
      ensures fetchesInFlight == old(fetchesInFlight) && patchesInFlight == old(patchesInFlight)
      ensures toasts == old(toasts) && alerts == old(alerts)
    {
      if confirmed {
        requests := requests + [Delete(CategoryPath(target.id))];
        pendingDeletes := pendingDeletes + [target];
      }
    }

    /** The `k`-th pending delete settles. On success the dialog names the
        record and every record with its id leaves the current list (the
        update is applied to the latest list, not the one the delete saw);
        on failure the list stays and the toast carries the error. */
    method DeleteSettled(k: nat, outcome: Outcome<()>)
      requires Valid() && k < |pendingDeletes|
      modifies this
      ensures Valid()
      ensures var t := old(pendingDeletes)[k];
              && pendingDeletes == old(pendingDeletes)[..k] + old(pendingDeletes)[k + 1..]
              && (outcome.Ok? ==>
                    categories == RemoveById(old(categories), CategoryId, t.id)
                    && alerts == old(alerts) + [Deleted(t.title)] && toasts == old(toasts))
              && (outcome.Err? ==>
                    categories == old(categories) && alerts == old(alerts)
                    && toasts == old(toasts) + [ErrorToast(DeleteFailed + outcome.failure.message)])
      ensures loading == old(loading) && editCategory == old(editCategory) && updating == old(updating)
      ensures fetchesInFlight == old(fetchesInFlight) && patchesInFlight == old(patchesInFlight)
      ensures requests == old(requests)
    {
      var t := pendingDeletes[k];
      pendingDeletes := pendingDeletes[..k] + pendingDeletes[k + 1..];
      match outcome {
        case Ok(_) =>
          alerts := alerts + [Deleted(t.title)];
          categories := RemoveById(categories, CategoryId, t.id);
        case Err(f) =>
          toasts := toasts + [ErrorToast(DeleteFailed + f.message)];
      }
    }

    /** The update button opens the modal on that record. */
    method HandleEdit(c: Category)
      requires Valid()
      modifies this`editCategory
      ensures Valid()
      ensures editCategory == Some(c)
    {
      editCategory := Some(c);
    }

    /** The cancel button is disabled while a save is under way. */
    method Cancel()
      requires Valid()
      modifies this`editCategory
      ensures Valid()
      ensures editCategory == if old(updating) then old(editCategory) else None
    {
      if !updating {
        editCategory := None;
      }
    }

    /** Clicking the backdrop closes the modal, even while a save is under way. */
    method BackdropClick()
      requires Valid()
      modifies this`editCategory
      ensures Valid()
      ensures editCategory == None
    {
      editCategory := None;
    }

    /** Submitting the modal form with the fields as typed. Both fields are
        trimmed; a blank one raises a toast and sends nothing, otherwise the
        trimmed fields are patched onto the open record. The submit button
        stays enabled, so a second save can be sent before the first settles. */
    method SubmitUpdate(titleInput: string, imageInput: string)
      requires Valid() && editCategory.Some?
      modifies this
      ensures Valid()
      ensures !FormComplete(titleInput, imageInput) ==>
                !updating && toasts == old(toasts) + [ErrorToast(MissingFields)]
                && requests == old(requests) && patchesInFlight == old(patchesInFlight)
      ensures FormComplete(titleInput, imageInput) ==>
                updating && toasts == old(toasts)
                && requests == old(requests)
                   + [Patch(CategoryPath(old(editCategory).value.id), TitleImage(Trim(titleInput), Trim(imageInput)))]
                && patchesInFlight == old(patchesInFlight) + 1
      ensures categories == old(categories) && loading == old(loading) && editCategory == old(editCategory)
      ensures fetchesInFlight == old(fetchesInFlight) && pendingDeletes == old(pendingDeletes)
      ensures alerts == old(alerts)
    {
      updating := true;
      var title, image := Trim(titleInput), Trim(imageInput);
      if title == "" || image == "" {
        toasts := toasts + [ErrorToast(MissingFields)];
        updating := false;
        return;
      }
      requests := requests + [Patch(CategoryPath(editCategory.value.id), TitleImage(title, image))];
      patchesInFlight := patchesInFlight + 1;
    }

    /** A patch settles. Success shows the dialog, closes the modal whichever
        record it is open on, and refetches the list; failure raises the toast
        with the error. The save ends either way. */
    method PatchSettled(outcome: Outcome<()>)
      requires Valid() && patchesInFlight > 0
      modifies this
      ensures Valid()
      ensures !updating && patchesInFlight == old(patchesInFlight) - 1
      ensures outcome.Ok? ==>
                editCategory == None && alerts == old(alerts) + [Updated]
                && requests == old(requests) + [ListRequest] && fetchesInFlight == old(fetchesInFlight) + 1
                && toasts == old(toasts)
      ensures outcome.Err? ==>
                editCategory == old(editCategory) && alerts == old(alerts)
                && requests == old(requests) && fetchesInFlight == old(fetchesInFlight)
                && toasts == old(toasts) + [ErrorToast(UpdateFailed + outcome.failure.message)]
      ensures categories == old(categories) && loading == old(loading)
      ensures pendingDeletes == old(pendingDeletes)
    {
      patchesInFlight := patchesInFlight - 1;
      match outcome {
        case Ok(_) =>
          alerts := alerts + [Updated];
          editCategory := None;
          requests := requests + [ListRequest];
          fetchesInFlight := fetchesInFlight + 1;
        case Err(f) =>
          toasts := toasts + [ErrorToast(UpdateFailed + f.message)];
      }
      updating := false;
    }
  }

  /** Whatever led up to it, a save under way has a patch in flight, so the
      save ends when that patch settles, however it settles. */
  method SaveEnds(page: CategoriesPage, outcome: Outcome<()>)
    requires page.Valid() && page.updating
    modifies page
    ensures page.Valid() && !page.updating
    ensures page.patchesInFlight == old(page.patchesInFlight) - 1
  {
    page.PatchSettled(outcome);
  }

  /** Deleting the middle one of three categories leaves the other two in order,
      and the heading counts them. */
  method DeleteScenario() returns (shown: seq<Category>, heading: string)
    ensures shown == [Category("1", "Go", "g.png"), Category("3", "Rust", "r.png")]
    ensures heading == "My Categories (2)"
  {
    var a, b, c := Category("1", "Go", "g.png"), Category("2", "JS", "j.png"), Category("3", "Rust", "r.png");
    var page := new CategoriesPage();
    page.CategoriesFetched(Ok([a, b, c]));
    page.HandleDelete(b, true);
    page.DeleteSettled(0, Ok(()));
    shown := page.categories;
    RemoveMiddle(a, b, c);
    heading := Heading(|shown|);
    HeadingOfTwo();
  }

  lemma RemoveMiddle(a: Category, b: Category, c: Category)
    requires a.id != b.id && c.id != b.id
    ensures RemoveById([a, b, c], CategoryId, b.id) == [a, c]
  {
    RemoveFirst(b, c);
    RemoveByIdCons(a, [b, c], CategoryId, b.id);
    assert [a] + [b, c] == [a, b, c];
  }

  lemma RemoveFirst(b: Category, c: Category)
    requires c.id != b.id
    ensures RemoveById([b, c], CategoryId, b.id) == [c]
  {
    KeepOnly(c, b.id);
    RemoveByIdCons(b, [c], CategoryId, b.id);
    assert [b] + [c] == [b, c];
  }

  lemma KeepOnly(c: Category, id: string)
    requires c.id != id
    ensures RemoveById([c], CategoryId, id) == [c]
  {
    var none: seq<Category> := [];
    RemoveByIdCons(c, none, CategoryId, id);
    assert [c] + none == [c];
  }

  lemma HeadingOfTwo()
    ensures Heading(2) == "My Categories (2)"
  {
    assert NatToString(2) == "2";
  }

  /** While a save is under way the cancel button does nothing, but the
      backdrop still closes the modal; the save then ends without it. */
  method BackdropDuringSaveScenario() returns (openAfterCancel: bool, openAfterBackdrop: bool, savingAfterBackdrop: bool)
    ensures openAfterCancel && !openAfterBackdrop && savingAfterBackdrop
  {
    var page := new CategoriesPage();
    page.CategoriesFetched(Ok([Category("1", "Go", "g.png")]));
    page.HandleEdit(Category("1", "Go", "g.png"));
    EditedFormComplete();
    page.SubmitUpdate("Golang", "g.png");
    page.Cancel();
    openAfterCancel := page.ModalOpen();
    page.BackdropClick();
    openAfterBackdrop := page.ModalOpen();
    savingAfterBackdrop := page.updating;
  }

  lemma EditedFormComplete()
    ensures FormComplete("Golang", "g.png")
  {
    FormCompleteIff("Golang", "g.png");
    assert !IsWhitespace("Golang"[0]);
    assert !IsWhitespace("g.png"[0]);
  }
}
