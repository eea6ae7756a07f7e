/** The asset table and its "Add New Asset" form (components/InventoryManager.tsx):
    warranty expiry derivation, form validation and defaults, the search filter and the
    per-row expired flag. */
module InventoryManager {
  import opened Results
  import opened Types
  import opened Seqs
  import opened IsoDate
  import App

  // ---------------------------------------------------------------------------
  // calculateExpiry

  /** Why `calculateExpiry` throws: `toISOString` raises a RangeError on an Invalid Date;
      a year outside 0..9999 is written in a six-digit form this model does not produce. */
  datatype DateError = InvalidDate | YearOutOfRange

  /** `calculateExpiry(purchaseDate, years)`: the empty string for an empty date, otherwise
      the purchase date moved `years` calendar years on by `setFullYear`. */
  function CalculateExpiry(purchaseDate: string, years: int): (r: Result<string, DateError>)
    ensures purchaseDate == "" ==> r == Ok("")
    ensures purchaseDate != "" && Parse(purchaseDate).None? ==> r == Err(InvalidDate)
    ensures purchaseDate != "" && Parse(purchaseDate).Some? ==>
      var d := Parse(purchaseDate).value;
      (r.Ok? <==> 0 <= d.year + years <= 9999) &&
      (r.Ok? ==> Parse(r.value) == Some(SetFullYear(d, d.year + years)))
  {
    if purchaseDate == "" then Ok("")
    else
      match Parse(purchaseDate)
      case None => Err(InvalidDate)
      case Some(d) =>
        var expiry := SetFullYear(d, d.year + years);
        if 0 <= expiry.year <= 9999 then
          ParseFormat(expiry);
          Ok(Format(expiry))
        else Err(YearOutOfRange)
  }

  /** The expiry keeps the purchase month and day and advances the year by `years`, except
      that 29 February landing in a common year becomes 1 March of that year. */
  lemma ExpiryAdvancesYear(purchaseDate: string, years: int, d: Date)
    requires Parse(purchaseDate) == Some(d) && 0 <= d.year + years <= 9999
    ensures CalculateExpiry(purchaseDate, years).Ok?
    ensures var e := Parse(CalculateExpiry(purchaseDate, years).value).value;
      e.year == d.year + years &&
      (if d.month == 2 && d.day == 29 && !IsLeapYear(d.year + years)
       then e.month == 3 && e.day == 1
       else e.month == d.month && e.day == d.day)
  {
  }

  /** Zero years gives back the purchase date itself. */
  lemma {:induction false} ExpiryOfZeroYears(purchaseDate: string)
    requires Parse(purchaseDate).Some?
    ensures CalculateExpiry(purchaseDate, 0) == Ok(purchaseDate)
  {
    var d := Parse(purchaseDate).value;
    assert SetFullYear(d, d.year + 0) == d;
    FormatParse(purchaseDate);
  }

  /** A positive warranty period expires strictly after the purchase date. */
  lemma ExpiryAfterPurchase(purchaseDate: string, years: int)
    requires Parse(purchaseDate).Some? && years > 0
    requires CalculateExpiry(purchaseDate, years).Ok?
    ensures Before(Parse(purchaseDate).value, Parse(CalculateExpiry(purchaseDate, years).value).value)
  {
  }

  /** On a date written in ISO form, `calculateExpiry` formats the date `setFullYear` gives. */
  lemma ExpiryOfFormatted(d: Date, years: int)
    requires Formattable(d) && 0 <= d.year + years <= 9999
    ensures CalculateExpiry(Format(d), years) == Ok(Format(SetFullYear(d, d.year + years)))
  {
    var s := Format(d);
    ParseFormat(d);
    assert s != "" && Parse(s) == Some(d);
    var r := CalculateExpiry(s, years);
    assert r.Ok? && Parse(r.value) == Some(SetFullYear(d, d.year + years));
    FormatParse(r.value);
  }

  /** 29 February 2024 plus one year is 1 March 2025: `setFullYear` rolls over, it does not
      clamp to 28 February. */
  lemma LeapDayExpiry()
    ensures CalculateExpiry("2024-02-29", 1) == Ok("2025-03-01")
  {
    assert Parse("2024-02-29") == Some(Date(2024, 2, 29));
    assert SetFullYear(Date(2024, 2, 29), 2025) == Date(2025, 3, 1);
    assert Format(Date(2025, 3, 1)) == "2025-03-01";
  }

  /** Because of that roll-over, `calculateExpiry` is not additive across a leap day: going
      through a common year first lands on 1 March, going at once on 29 February. */
  lemma ExpiryNotAdditive(purchaseDate: string, a: int, b: int)
    requires Parse(purchaseDate).Some?
    requires Parse(purchaseDate).value.month == 2 && Parse(purchaseDate).value.day == 29
    requires var y := Parse(purchaseDate).value.year;
      !IsLeapYear(y + a) && IsLeapYear(y + a + b) && 0 <= y + a <= 9999 && 0 <= y + a + b <= 9999
    ensures CalculateExpiry(purchaseDate, a).Ok?
    ensures CalculateExpiry(CalculateExpiry(purchaseDate, a).value, b) != CalculateExpiry(purchaseDate, a + b)
  {
    var d := Parse(purchaseDate).value;
    ExpiryAdvancesYear(purchaseDate, a, d);
    var once := CalculateExpiry(purchaseDate, a).value;
    ExpiryAdvancesYear(once, b, Parse(once).value);
    ExpiryAdvancesYear(purchaseDate, a + b, d);
    assert Parse(CalculateExpiry(once, b).value).value.month == 3;
    assert Parse(CalculateExpiry(purchaseDate, a + b).value).value.month == 2;
  }

  /** The stored expiry is what `calculateExpiry` derives from the stored purchase date and
      warranty period. */
  predicate ExpiryConsistent(item: Item) {
    CalculateExpiry(item.purchaseDate, item.warrantyPeriodYears) == Ok(item.warrantyExpirationDate)
  }

  /** A record with a readable purchase date is consistent exactly when its stored expiry
      reads back as the date `setFullYear` gives. */
  lemma ExpiryConsistentByDates(item: Item)
    requires Parse(item.purchaseDate).Some?
    ensures var d := Parse(item.purchaseDate).value;
      ExpiryConsistent(item) <==>
      Parse(item.warrantyExpirationDate) == Some(SetFullYear(d, d.year + item.warrantyPeriodYears))
  {
    var d := Parse(item.purchaseDate).value;
    var e := SetFullYear(d, d.year + item.warrantyPeriodYears);
    var r := CalculateExpiry(item.purchaseDate, item.warrantyPeriodYears);
    assert item.purchaseDate != "";
    if Parse(item.warrantyExpirationDate) == Some(e) {
      assert r.Ok? && Parse(r.value) == Some(e);
      FormatParse(item.warrantyExpirationDate);
      FormatParse(r.value);
    }
  }

  // ---------------------------------------------------------------------------
  // The form: newItem, handleInputChange, handleSubmit

  /** `newItem: Partial<InventoryItem>`. A number field holds `None` when it is missing or
      `parseFloat` gave NaN. Category and status are always set: the initial state sets them
      and the only setter writes option values of the category select. */
  datatype Draft = Draft(
    name: Option<string>,
    category: Category,
    vendor: Option<string>,
    purchaseDate: Option<string>,
    warrantyPeriodYears: Option<int>,
    serialNumber: Option<string>,
    cost: Option<int>,
    status: Status)

  /** The form's initial state, and the state it is reset to after a submission. */
  const InitialDraft := Draft(None, Laptop, None, None, Some(3), None, None, Active)

  /** A change event from one of the form's inputs, number fields already through `parseFloat`. */
  datatype FormInput =
    | NameInput(text: string)
    | CategoryInput(category: Category)
    | VendorInput(text: string)
    | PurchaseDateInput(text: string)
    | WarrantyInput(number: Option<int>)
    | SerialNumberInput(text: string)
    | CostInput(number: Option<int>)

  /** The input's field takes the new value; every other field keeps its value. */
  function ApplyInput(draft: Draft, input: FormInput): Draft {
    match input
    case NameInput(t) => draft.(name := Some(t))
    case CategoryInput(c) => draft.(category := c)
    case VendorInput(t) => draft.(vendor := Some(t))
    case PurchaseDateInput(t) => draft.(purchaseDate := Some(t))
    case WarrantyInput(n) => draft.(warrantyPeriodYears := n)
    case SerialNumberInput(t) => draft.(serialNumber := Some(t))
    case CostInput(n) => draft.(cost := n)
  }

  /** A string field is truthy: present and not empty. */
  predicate Filled(field: Option<string>) {
    field.Some? && field.value != ""
  }

  /** The guard of `handleSubmit`: name, vendor and purchase date are all truthy. */
  predicate Complete(draft: Draft) {
    Filled(draft.name) && Filled(draft.vendor) && Filled(draft.purchaseDate)
  }

  /** `x || fallback` for a number field: missing, NaN and 0 are all falsy. */
  function NumberOr(field: Option<int>, fallback: int): int {
    if field.Some? && field.value != 0 then field.value else fallback
  }

  /** `x || fallback` for a text field. */
  function TextOr(field: Option<string>, fallback: string): string {
    if Filled(field) then field.value else fallback
  }

  /** Why `handleSubmit` adds nothing: the guard returned early, or `calculateExpiry` threw. */
  datatype SubmitError = MissingField | BadDate(reason: DateError)

  /** The record `handleSubmit` builds from the form and a fresh id. */
  function CreateItem(draft: Draft, id: string): (r: Result<Item, SubmitError>)
    ensures r == Err(MissingField) <==> !Complete(draft)
    ensures r.Ok? <==>
      (Complete(draft) && CalculateExpiry(draft.purchaseDate.value, NumberOr(draft.warrantyPeriodYears, 1)).Ok?)
    ensures r.Ok? ==> r.value.id == id && ExpiryConsistent(r.value)
    ensures r.Ok? ==> r.value.warrantyPeriodYears != 0 && r.value.serialNumber != ""
    ensures r.Ok? ==> Parse(r.value.purchaseDate).Some? && Parse(r.value.warrantyExpirationDate).Some?
  {
    if !Complete(draft) then Err(MissingField)
    else
      var purchaseDate := draft.purchaseDate.value;
      var warrantyYears := NumberOr(draft.warrantyPeriodYears, 1);
      match CalculateExpiry(purchaseDate, warrantyYears)
      case Err(e) => Err(BadDate(e))
      case Ok(expirationDate) =>
        Ok(Item(id, draft.name.value, draft.category, draft.vendor.value, purchaseDate,
                warrantyYears, expirationDate, TextOr(draft.serialNumber, "N/A"),
                NumberOr(draft.cost, 0), draft.status))
  }

  /** The defaults a created record receives: the form's name, vendor, date, category and
      status; the entered period, serial and cost when given, otherwise warranty 1 year when
      missing or 0, serial "N/A" when empty and cost 0 when missing or 0. */
  lemma CreatedItemDefaults(draft: Draft, id: string)
    requires CreateItem(draft, id).Ok?
    ensures var item := CreateItem(draft, id).value;
      item.name == draft.name.value && item.vendor == draft.vendor.value &&
      item.purchaseDate == draft.purchaseDate.value &&
      item.category == draft.category && item.status == draft.status &&
      (draft.warrantyPeriodYears.None? || draft.warrantyPeriodYears.value == 0 ==> item.warrantyPeriodYears == 1) &&
      (draft.warrantyPeriodYears.Some? && draft.warrantyPeriodYears.value != 0 ==>
         item.warrantyPeriodYears == draft.warrantyPeriodYears.value) &&
      (draft.cost.None? || draft.cost.value == 0 ==> item.cost == 0) &&
      (draft.serialNumber.None? || draft.serialNumber.value == "" ==> item.serialNumber == "N/A") &&
      (Filled(draft.serialNumber) ==> item.serialNumber == draft.serialNumber.value) &&
      (draft.cost.Some? && draft.cost.value != 0 ==> item.cost == draft.cost.value)
  {
  }

  /** Left to its defaults, a form with a name, a vendor and a valid purchase date yields a
      record whose warranty runs out exactly three years after purchase. */
  lemma DefaultFormWarranty(name: string, vendor: string, purchaseDate: string, id: string)
    requires name != "" && vendor != "" && Parse(purchaseDate).Some?
    requires Parse(purchaseDate).value.year + 3 <= 9999
    ensures var draft := ApplyInput(ApplyInput(ApplyInput(InitialDraft,
                           NameInput(name)), VendorInput(vendor)), PurchaseDateInput(purchaseDate));
      CreateItem(draft, id).Ok? &&
      CreateItem(draft, id).value.warrantyPeriodYears == 3 &&
      (var d := Parse(purchaseDate).value;
       Parse(CreateItem(draft, id).value.warrantyExpirationDate) == Some(SetFullYear(d, d.year + 3))) &&
      CreateItem(draft, id).value.serialNumber == "N/A" &&
      CreateItem(draft, id).value.cost == 0
  {
  }

  /** The form state of the component. */
  class Manager {
    var draft: Draft
    var searchTerm: string

    constructor ()
      ensures draft == InitialDraft && searchTerm == ""
    {
      draft := InitialDraft;
      searchTerm := "";
    }

    /** `handleInputChange`. */
    method HandleInputChange(input: FormInput)
      modifies this
      ensures draft == ApplyInput(old(draft), input) && searchTerm == old(searchTerm)
    {
      draft := ApplyInput(draft, input);
    }

    /** The search box's `onChange`. */
    method SetSearchTerm(term: string)
      modifies this
      ensures searchTerm == term && draft == old(draft)
    {
      searchTerm := term;
    }

    /** `handleSubmit`. `id` stands for `crypto.randomUUID()` and so is not in use. On success
        the record goes to the front of the inventory and the form is reset; otherwise
        nothing changes. */
    method HandleSubmit(inventory: App.Inventory, id: string) returns (outcome: Result<Item, SubmitError>)
      requires id !in App.Ids(inventory.items)
      modifies this, inventory
      ensures outcome == CreateItem(old(draft), id)
      ensures outcome.Ok? ==> inventory.items == [outcome.value] + old(inventory.items) && draft == InitialDraft
      ensures outcome.Err? ==> inventory.items == old(inventory.items) && draft == old(draft)
      ensures old(App.UniqueIds(inventory.items)) ==> App.UniqueIds(inventory.items)
      ensures searchTerm == old(searchTerm)
    {
      outcome := CreateItem(draft, id);
      if outcome.Ok? {
        inventory.HandleAddItem(outcome.value);
        draft := InitialDraft;
      }
    }

    /** `filteredInventory`: the rows the table shows for the current search term. */
    function FilteredInventory(inventory: seq<Item>): (r: seq<Item>)
      reads this
      ensures |r| <= |inventory|
      ensures forall i :: 0 <= i < |r| ==> Matches(r[i], searchTerm)
      ensures forall i :: 0 <= i < |inventory| && Matches(inventory[i], searchTerm) ==> inventory[i] in r
      ensures forall item :: multiset(r)[item] == if Matches(item, searchTerm) then multiset(inventory)[item] else 0
    {
      FilterCounts(MatchesTerm(searchTerm), inventory);
      Search(inventory, searchTerm)
    }
  }

  // ---------------------------------------------------------------------------
  // filteredInventory

  /** `toLowerCase` on one character, for ASCII letters. */
  function LowerChar(c: char): (r: char)
    ensures !('A' <= r <= 'Z')
    ensures 'A' <= c <= 'Z' ==> 'a' <= r <= 'z'
  {
    if 'A' <= c <= 'Z' then (c as int + 32) as char else c
  }

  function ToLower(s: string): (r: string)
    ensures |r| == |s|
  {
    seq(|s|, i requires 0 <= i < |s| => LowerChar(s[i]))
  }

  /** `s.includes(t)`: `t` occurs in `s` at some position. */
  predicate Includes(s: string, t: string) {
    exists i :: 0 <= i <= |s| - |t| && t <= s[i..]
  }

  /** The search predicate: the lowercased term occurs in the lowercased name, vendor or
      serial number. */
  predicate Matches(item: Item, term: string) {
    var t := ToLower(term);
    Includes(ToLower(item.name), t) || Includes(ToLower(item.vendor), t) ||
    Includes(ToLower(item.serialNumber), t)
  }

  function MatchesTerm(term: string): Item -> bool {
    (item: Item) => Matches(item, term)
  }

  /** The assets that match the search term, in list order. */
  function Search(inventory: seq<Item>, term: string): (r: seq<Item>)
    ensures |r| <= |inventory|
    ensures forall i :: 0 <= i < |r| ==> Matches(r[i], term)
  {
    Filter(MatchesTerm(term), inventory)
  }

  /** The search keeps exactly the matching assets, in their original order. */
  lemma SearchSpec(inventory: seq<Item>, term: string)
    ensures IsSubsequence(Search(inventory, term), inventory)
    ensures forall i :: 0 <= i < |Search(inventory, term)| ==> Matches(Search(inventory, term)[i], term)
    ensures forall i :: 0 <= i < |inventory| && Matches(inventory[i], term) ==> inventory[i] in Search(inventory, term)
    ensures forall item ::
      multiset(Search(inventory, term))[item] == if Matches(item, term) then multiset(inventory)[item] else 0
  {
    FilterIsSubsequence(MatchesTerm(term), inventory);
    FilterCounts(MatchesTerm(term), inventory);
  }

  /** An empty search term shows every asset. */
  lemma SearchEmptyTerm(inventory: seq<Item>)
    ensures Search(inventory, "") == inventory
  {
    forall item | item in inventory ensures MatchesTerm("")(item) {
      assert ToLower(item.name)[0..] == ToLower(item.name);
    }
    FilterKeepsAll(MatchesTerm(""), inventory);
  }

  /** Searching the search result again with the same term changes nothing. */
  lemma SearchIdempotent(inventory: seq<Item>, term: string)
    ensures Search(Search(inventory, term), term) == Search(inventory, term)
  {
    FilterIdempotent(MatchesTerm(term), inventory);
  }

  lemma {:induction false} IncludesPrefix(s: string, t: string, more: string)
    requires Includes(s, t + more)
    ensures Includes(s, t)
  {
    var i :| 0 <= i <= |s| - |t + more| && t + more <= s[i..];
    assert t <= s[i..] by {
      assert s[i..][..|t|] == (t + more)[..|t|] == t;
    }
  }

  lemma ToLowerAppend(s: string, t: string)
    ensures ToLower(s + t) == ToLower(s) + ToLower(t)
  {
  }

  /** Typing more characters into the search box only narrows the result. */
  lemma SearchNarrows(inventory: seq<Item>, term: string, more: string)
    ensures IsSubsequence(Search(inventory, term + more), Search(inventory, term))
    ensures |Search(inventory, term + more)| <= |Search(inventory, term)|
  {
    forall item | MatchesTerm(term + more)(item) ensures MatchesTerm(term)(item) {
      ToLowerAppend(term, more);
      var t, m := ToLower(term), ToLower(more);
      if Includes(ToLower(item.name), t + m) {
        IncludesPrefix(ToLower(item.name), t, m);
      } else if Includes(ToLower(item.vendor), t + m) {
        IncludesPrefix(ToLower(item.vendor), t, m);
      } else {
        IncludesPrefix(ToLower(item.serialNumber), t, m);
      }
    }
    FilterStronger(MatchesTerm(term + more), MatchesTerm(term), inventory);
  }

  // ---------------------------------------------------------------------------
  // isExpired

  /** The expired flag of a table row: the expiry date, read as 00:00 UTC, lies strictly
      before `now`. An unreadable date is an Invalid Date, never less than
      anything. */
  predicate IsExpired(item: Item, now: Instant) {
    match Parse(item.warrantyExpirationDate)
    case None => false
    case Some(e) => InstantBefore(Instant(e, 0), now)
  }

  /** In calendar terms: the expiry day is over, or it is today and midnight has passed. In
      particular an asset is already flagged during its own expiry day. */
  lemma ExpiredByCalendar(item: Item, now: Instant, e: Date)
    requires Parse(item.warrantyExpirationDate) == Some(e) && ValidInstant(now)
    ensures IsExpired(item, now) <==> Before(e, now.date) || (e == now.date && now.millis > 0)
  {
  }

  /** Once flagged, an asset stays flagged as time goes on. */
  lemma ExpiredStaysExpired(item: Item, now: Instant, later: Instant)
    requires IsExpired(item, now) && !InstantBefore(later, now)
    ensures IsExpired(item, later)
  {
  }
}
