/**
 * `SelectionList`: a fixed sequence of items with an optional cursor that
 * `next` / `previous` move with wraparound.
 */
module Selection {
  import opened Wrappers

  /** Where `next` puts the cursor on a list of `len` items. */
  function NextPosition(sel: Option<nat>, len: nat): (i: nat)
    requires len > 0
    ensures i < len
    ensures sel.Some? && sel.value < len - 1 ==> i == sel.value + 1
    ensures sel.None? || sel.value >= len - 1 ==> i == 0
  {
    match sel
    case Some(i) => if i >= len - 1 then 0 else i + 1
    case None => 0
  }

  /** Where `previous` puts the cursor on a list of `len` items. */
  function PreviousPosition(sel: Option<nat>, len: nat): (i: nat)
    requires len > 0
    ensures sel.None? ==> i == 0
    ensures sel == Some(0) ==> i == len - 1
    ensures sel.Some? && sel.value > 0 ==> i == sel.value - 1
    ensures sel.Some? ==> sel.value <= len ==> i < len
  {
    match sel
    case Some(i) => if i == 0 then len - 1 else i - 1
    case None => 0
  }

  /** `previous` undoes `next` on a cursor inside the list. */
  lemma PreviousAfterNext(i: nat, len: nat)
    requires i < len
    ensures PreviousPosition(Some(NextPosition(Some(i), len)), len) == i
  {
  }

  /** `next` undoes `previous` on a cursor inside the list. */
  lemma NextAfterPrevious(i: nat, len: nat)
    requires i < len
    ensures NextPosition(Some(PreviousPosition(Some(i), len)), len) == i
  {
  }

  /** The cursor after `k` calls of `next`, starting at `i`. */
  function NextTimes(i: nat, len: nat, k: nat): (r: nat)
    requires len > 0
  {
    if k == 0 then i else NextPosition(Some(NextTimes(i, len, k - 1)), len)
  }

  /** The cursor after `k` calls of `previous`, starting at `i`. */
  function PreviousTimes(i: nat, len: nat, k: nat): (r: nat)
    requires len > 0
  {
    if k == 0 then i else PreviousPosition(Some(PreviousTimes(i, len, k - 1)), len)
  }

  /** Up to a full lap, `k` steps forward move the cursor `k` places, wrapping past the end. */
  lemma {:induction false} NextTimesWraps(i: nat, len: nat, k: nat)
    requires i < len && k <= len
    ensures NextTimes(i, len, k) == if i + k < len then i + k else i + k - len
  {
    if k > 0 {
      NextTimesWraps(i, len, k - 1);
    }
  }

  /** Up to a full lap, `k` steps back move the cursor `k` places back, wrapping past the start. */
  lemma {:induction false} PreviousTimesWraps(i: nat, len: nat, k: nat)
    requires i < len && k <= len
    ensures PreviousTimes(i, len, k) == if k <= i then i - k else i + len - k
  {
    if k > 0 {
      PreviousTimesWraps(i, len, k - 1);
    }
  }

  /** `len` steps in either direction return the cursor to where it started. */
  lemma FullCycle(i: nat, len: nat)
    requires i < len
    ensures NextTimes(i, len, len) == i
    ensures PreviousTimes(i, len, len) == i
  {
    NextTimesWraps(i, len, len);
    PreviousTimesWraps(i, len, len);
  }

  /** What `select` leaves: the requested position if it is inside the list, otherwise nothing. */
  function Clamped(sel: Option<nat>, len: nat): (r: Option<nat>)
    ensures r.Some? ==> r == sel && r.value < len
    ensures sel.Some? && sel.value < len ==> r == sel
  {
    if sel.Some? && sel.value < len then sel else None
  }

  class SelectionList<T> {
    var selection: Option<nat>
    const items: seq<T>

    /** A cursor always points at an item. */
    ghost predicate Valid()
      reads this
    {
      selection.Some? ==> selection.value < |items|
    }

    /** `with_items`: the cursor on the first item, or none on an empty list. */
    constructor WithItems(items: seq<T>)
      ensures this.items == items
      ensures selection == (if items == [] then None else Some(0))
      ensures Valid()
    {
      this.items := items;
      selection := if items == [] then None else Some(0);
    }

    method Next()
      requires Valid() && |items| > 0
      modifies this
      ensures selection == Some(NextPosition(old(selection), |items|))
      ensures Valid()
    {
      selection := Some(NextPosition(selection, |items|));
    }

    method Previous()
      requires Valid() && |items| > 0
      modifies this
      ensures selection == Some(PreviousPosition(old(selection), |items|))
      ensures Valid()
    {
      selection := Some(PreviousPosition(selection, |items|));
    }

    method Select(sel: Option<nat>)
      modifies this
      ensures selection == Clamped(sel, |items|)
      ensures Valid()
    {
      if sel.Some? {
        if sel.value < |items| {
          selection := sel;
        } else {
          selection := None;
        }
      } else {
        selection := None;
      }
    }

    method Unselect()
      modifies this
      ensures selection == None
      ensures Valid()
    {
      selection := None;
    }
  }
}
