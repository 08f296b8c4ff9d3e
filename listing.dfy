/** What the category list and the snippet list share: removing a deleted
    record by id, the count shown after the heading, and the check the edit
    forms make before they patch. */
module Listing {
  import opened Text
  import opened Seqs

  /** `prev.filter((i) => i._id !== id)`. */
  function RemoveById<T(==,!new)>(items: seq<T>, idOf: T -> string, id: string): (r: seq<T>)
    ensures forall x :: x in r <==> x in items && idOf(x) != id
    ensures forall x :: idOf(x) != id ==> multiset(r)[x] == multiset(items)[x]
    ensures IsSubseq(r, items)
  {
    Filter(items, x => idOf(x) != id)
  }

  /** Removal goes record by record: a record is kept exactly when its id
      differs, ahead of what is kept of the rest. */
  lemma RemoveByIdCons<T(!new)>(x: T, rest: seq<T>, idOf: T -> string, id: string)
    ensures RemoveById([x] + rest, idOf, id)
            == (if idOf(x) != id then [x] else []) + RemoveById(rest, idOf, id)
  {
    assert ([x] + rest)[1..] == rest;
  }

  /** Removing an id no record has changes nothing, so removing twice is
      removing once. */
  lemma RemoveByIdIdempotent<T(!new)>(items: seq<T>, idOf: T -> string, id: string)
    ensures (forall x :: x in items ==> idOf(x) != id) ==> RemoveById(items, idOf, id) == items
    ensures RemoveById(RemoveById(items, idOf, id), idOf, id) == RemoveById(items, idOf, id)
  {
    if forall x :: x in items ==> idOf(x) != id {
      FilterAll(items, x => idOf(x) != id);
    }
    FilterAll(RemoveById(items, idOf, id), x => idOf(x) != id);
  }

  /** The count after a heading: nothing for an empty list, otherwise the
      decimal count in parentheses after a space. */
  function CountSuffix(n: nat): (r: string)
    ensures r == "" <==> n == 0
    ensures n > 0 ==> |r| >= 4 && r[..2] == " (" && r[|r| - 1] == ')'
  {
    if n == 0 then "" else " (" + NatToString(n) + ")"
  }

  /** The digits between the parentheses read back as the count. */
  lemma CountSuffixReadsBack(n: nat)
    requires n > 0
    ensures var r := CountSuffix(n);
            (forall i :: 2 <= i < |r| - 1 ==> IsDigit(r[i])) && ParseNat(r[2..|r| - 1]) == n
  {
    var r := CountSuffix(n);
    assert r[2..|r| - 1] == NatToString(n);
    ParseNatToString(n);
  }

  const MissingFields := "Please fill in all required fields."

  /** Both fields are non-empty once trimmed. */
  predicate FormComplete(first: string, second: string) {
    Trim(first) != "" && Trim(second) != ""
  }

  /** A form is incomplete exactly when one of its fields is blank. */
  lemma FormCompleteIff(first: string, second: string)
    ensures FormComplete(first, second) <==> !AllWhitespace(first) && !AllWhitespace(second)
  {
    TrimEmptyIff(first);
    TrimEmptyIff(second);
  }
}
