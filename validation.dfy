/**
 * The checks the catalog dialogs make before they write a row: a new
 * promotion's name and window, and a product's price and quantity.
 */
module Validation {
  import opened Tables

  /** The characters a name is trimmed of: space, tab, line feed, carriage return, vertical tab and form feed. */
  predicate IsWhitespace(c: char)
  {
    c == ' ' || c == '\t' || c == '\n' || c == '\r' || c == '\U{000B}' || c == '\U{000C}'
  }

  /** The number of whitespace characters `s` starts with. */
  function LeadingSpace(s: string): (i: nat)
    ensures i <= |s|
    ensures forall k :: 0 <= k < i ==> IsWhitespace(s[k])
    ensures i < |s| ==> !IsWhitespace(s[i])
  {
    if s != [] && IsWhitespace(s[0]) then 1 + LeadingSpace(s[1..]) else 0
  }

  /** The length of `s` without its trailing whitespace. */
  function TrimmedEnd(s: string): (j: nat)
    ensures j <= |s|
    ensures forall k :: j <= k < |s| ==> IsWhitespace(s[k])
    ensures 0 < j ==> !IsWhitespace(s[j - 1])
  {
    if s != [] && IsWhitespace(s[|s| - 1]) then TrimmedEnd(s[..|s| - 1]) else |s|
  }

  /** `s` trimmed at both ends: no whitespace at either end, and empty exactly when `s` is all whitespace. */
  function Strip(s: string): (r: string)
    ensures |r| <= |s|
    ensures r != [] ==> !IsWhitespace(r[0]) && !IsWhitespace(r[|r| - 1])
    ensures r == [] <==> forall k :: 0 <= k < |s| ==> IsWhitespace(s[k])
  {
    var i, j := LeadingSpace(s), TrimmedEnd(s);
    if i < j then s[i..j] else []
  }

  /** The trimmed string is the slice of `s` after its leading whitespace, and every character cut off on either side is whitespace. */
  lemma {:induction false} StripIsSlice(s: string)
    ensures var i, r := LeadingSpace(s), Strip(s);
      && i + |r| <= |s| && r == s[i..i + |r|]
      && forall k :: 0 <= k < |s| && !(i <= k < i + |r|) ==> IsWhitespace(s[k])
  {
    var i, j := LeadingSpace(s), TrimmedEnd(s);
    if i < j {
      assert Strip(s) == s[i..j];
    } else {
      assert Strip(s) == [] && s[i..i] == [];
    }
  }

  /** Why the promotion dialog refuses to store a promotion, in the order it checks. */
  datatype PromotionError = EmptyName | StartAfterEnd | EndsInPast

  /**
   * The checks made before a promotion is inserted, at the current instant
   * `now`: a name that is not blank, a start no later than the end, and an
   * end that is not already past. `None` means the promotion is accepted.
   */
  function CheckPromotion(name: string, start: int, end: int, now: int): (r: Option<PromotionError>)
    ensures r.None? <==> Strip(name) != [] && start <= end && now <= end
    ensures r == Some(EmptyName) <==> Strip(name) == []
    ensures r == Some(StartAfterEnd) <==> Strip(name) != [] && end < start
    ensures r == Some(EndsInPast) <==> Strip(name) != [] && start <= end < now
  {
    if Strip(name) == [] then Some(EmptyName)
    else if start > end then Some(StartAfterEnd)
    else if now > end then Some(EndsInPast)
    else None
  }

  /** Why a product form is refused: the price is checked first, then the quantity. */
  datatype InputError = BadPrice | BadQuantity

  /**
   * The product form's checks. A field is `None` when its text does not
   * parse as a number; otherwise it holds the price in cents or the
   * quantity. `None` as a result means the form is accepted.
   */
  function ValidateInput(price: Option<int>, quantity: Option<int>): (r: Option<InputError>)
    ensures r.None? <==> price.Some? && price.value > 0 && quantity.Some? && quantity.value > 0
    ensures r == Some(BadPrice) <==> !(price.Some? && price.value > 0)
  {
    if price.None? || price.value <= 0 then Some(BadPrice)
    else if quantity.None? || quantity.value <= 0 then Some(BadQuantity)
    else None
  }
}
